/** The reverse router: the registry of endpoints built once at start-up, and
    the resolution of an endpoint and its arguments into a URL. */
module Router {
  import opened Wrappers
  import opened Patterns
  import opened RouterInformation

  /** An argument as callers pass it: a name and a value that may be null. */
  datatype Arg = Arg(name: string, value: Option<string>)

  /** One handler of the routing table: its bean and method names and the
      URL patterns mapped to it, in their order. */
  datatype Mapping = Mapping(beanName: string, methodName: string, patterns: seq<string>)

  /** The errors the router raises. */
  datatype RouterError =
    | NotFound(endpoint: string)
      // no entry for the endpoint
    | CannotCompile(endpoint: string, params: seq<Param>, patterns: seq<string>)
      // no pattern of the endpoint is feasible for the arguments
    | DuplicateEndpoint(endpoint: string)
      // the registry already holds the endpoint (the failed assertion)
    | NameNotString(index: nat)
      // a name slot of the flat argument list holds null

  /** The argument name that asks for an external URL. */
  const External: string := "_external"

  /** Endpoint identifier to the compilers of its patterns. */
  type Registry = map<string, seq<Compiler>>

  // ---------------------------------------------------------------------
  // The registry
  // ---------------------------------------------------------------------

  /** The registry key of a handler. */
  function EndpointKey(m: Mapping): (r: string)
    ensures |r| == |m.beanName| + |m.methodName| + 1
    ensures r[..|m.beanName|] == m.beanName && r[|m.beanName|] == '.' && r[|m.beanName| + 1..] == m.methodName
  {
    EndpointOf(m.beanName, m.methodName)
  }

  /** One compiler per pattern, in the patterns' order. */
  function CompilersOf(patterns: seq<string>): (r: seq<Compiler>)
    ensures |r| == |patterns|
    ensures forall i :: 0 <= i < |patterns| ==> r[i].pattern == patterns[i]
  {
    if patterns == [] then []
    else CompilersOf(patterns[..|patterns| - 1]) + [CompilerOf(patterns[|patterns| - 1])]
  }

  /** `patterns.map { PatternCompiler(it) }`. */
  method NewCompilers(patterns: seq<string>) returns (compilers: seq<Compiler>)
    ensures compilers == CompilersOf(patterns)
  {
    compilers := [];
    for k := 0 to |patterns|
      invariant compilers == CompilersOf(patterns[..k])
    {
      assert patterns[..k + 1][..k] == patterns[..k];
      var c := NewCompiler(patterns[k]);
      compilers := compilers + [c];
    }
    assert patterns[..|patterns|] == patterns;
  }

  /** The registry after registering `mappings` in order, and the key whose
      registration failed, if one did: registration stops at the first key
      already present. */
  datatype Registration = Registration(routes: Registry, duplicate: Option<string>)

  function Register(routes: Registry, mappings: seq<Mapping>): Registration
    decreases |mappings|
  {
    if mappings == [] then Registration(routes, None)
    else
      var key := EndpointKey(mappings[0]);
      if key in routes then Registration(routes, Some(key))
      else Register(routes[key := CompilersOf(mappings[0].patterns)], mappings[1..])
  }

  /** Registering never replaces an entry. */
  lemma {:induction false} RegisterNeverOverwrites(routes: Registry, mappings: seq<Mapping>)
    ensures forall k :: k in routes ==>
      k in Register(routes, mappings).routes && Register(routes, mappings).routes[k] == routes[k]
    decreases |mappings|
  {
    if mappings != [] {
      var key := EndpointKey(mappings[0]);
      if key !in routes {
        RegisterNeverOverwrites(routes[key := CompilersOf(mappings[0].patterns)], mappings[1..]);
      }
    }
  }

  /** Registration succeeds exactly when every key is new and no two handlers
      share a key. */
  lemma {:induction false} RegisterSucceeds(routes: Registry, mappings: seq<Mapping>)
    ensures Register(routes, mappings).duplicate.None? <==>
      && (forall i :: 0 <= i < |mappings| ==> EndpointKey(mappings[i]) !in routes)
      && (forall i, j :: 0 <= i < j < |mappings| ==> EndpointKey(mappings[i]) != EndpointKey(mappings[j]))
    decreases |mappings|
  {
    if mappings != [] {
      var key := EndpointKey(mappings[0]);
      if key !in routes {
        var routes' := routes[key := CompilersOf(mappings[0].patterns)];
        RegisterSucceeds(routes', mappings[1..]);
        assert forall i :: 1 <= i < |mappings| ==> mappings[i] == mappings[1..][i - 1];
        if Register(routes, mappings).duplicate.None? {
          forall i, j | 0 <= i < j < |mappings|
            ensures EndpointKey(mappings[i]) != EndpointKey(mappings[j])
          {
            if i > 0 {
              assert EndpointKey(mappings[1..][i - 1]) != EndpointKey(mappings[1..][j - 1]);
            } else {
              assert EndpointKey(mappings[1..][j - 1]) !in routes';
            }
          }
        }
      }
    }
  }

  /** After a successful registration each handler's key holds the compilers
      of its patterns. */
  lemma {:induction false} RegisterStores(routes: Registry, mappings: seq<Mapping>)
    requires Register(routes, mappings).duplicate.None?
    ensures forall i :: 0 <= i < |mappings| ==>
      && EndpointKey(mappings[i]) in Register(routes, mappings).routes
      && Register(routes, mappings).routes[EndpointKey(mappings[i])] == CompilersOf(mappings[i].patterns)
    decreases |mappings|
  {
    if mappings != [] {
      var key := EndpointKey(mappings[0]);
      var routes' := routes[key := CompilersOf(mappings[0].patterns)];
      var final := Register(routes, mappings).routes;
      assert final == Register(routes', mappings[1..]).routes;
      RegisterStores(routes', mappings[1..]);
      RegisterNeverOverwrites(routes', mappings[1..]);
      forall i | 0 <= i < |mappings|
        ensures EndpointKey(mappings[i]) in final && final[EndpointKey(mappings[i])] == CompilersOf(mappings[i].patterns)
      {
        if i > 0 {
          assert mappings[i] == mappings[1..][i - 1];
        }
      }
    }
  }

  /** After a successful registration each handler's key holds one
      compiler per pattern of the handler, in the patterns' order. */
  lemma RegisterRegistersWith(routes: Registry, mappings: seq<Mapping>, i: nat)
    requires Register(routes, mappings).duplicate.None? && i < |mappings|
    ensures RegisteredWith(Register(routes, mappings).routes, EndpointKey(mappings[i]), mappings[i].patterns)
  {
    RegisterStores(routes, mappings);
    PatternsOfCompilers(mappings[i].patterns);
  }

  /** The registry keys of a list of handlers. */
  function KeysOf(mappings: seq<Mapping>): set<string>
    decreases |mappings|
  {
    if mappings == [] then {} else {EndpointKey(mappings[0])} + KeysOf(mappings[1..])
  }

  /** `KeysOf` holds the key of each handler and nothing else. */
  lemma {:induction false} KeysOfMembers(mappings: seq<Mapping>, k: string)
    ensures k in KeysOf(mappings) <==> exists i :: 0 <= i < |mappings| && EndpointKey(mappings[i]) == k
    decreases |mappings|
  {
    if mappings != [] {
      KeysOfMembers(mappings[1..], k);
      if k in KeysOf(mappings[1..]) {
        var i :| 0 <= i < |mappings[1..]| && EndpointKey(mappings[1..][i]) == k;
        assert EndpointKey(mappings[i + 1]) == k;
      }
      if exists i :: 0 <= i < |mappings| && EndpointKey(mappings[i]) == k {
        var i :| 0 <= i < |mappings| && EndpointKey(mappings[i]) == k;
        if i > 0 {
          assert EndpointKey(mappings[1..][i - 1]) == k;
        }
      }
    }
  }

  /** The keys of the registry after a successful registration: the old ones
      and the handlers'. */
  lemma {:induction false} RegisterKeys(routes: Registry, mappings: seq<Mapping>)
    requires Register(routes, mappings).duplicate.None?
    ensures Register(routes, mappings).routes.Keys == routes.Keys + KeysOf(mappings)
    decreases |mappings|
  {
    if mappings != [] {
      var key := EndpointKey(mappings[0]);
      var routes' := routes[key := CompilersOf(mappings[0].patterns)];
      assert Register(routes, mappings) == Register(routes', mappings[1..]);
      RegisterKeys(routes', mappings[1..]);
      assert KeysOf(mappings) == {key} + KeysOf(mappings[1..]);
    }
  }

  // ---------------------------------------------------------------------
  // Arguments
  // ---------------------------------------------------------------------

  /** The arguments left once null values and the external directive are
      dropped, in order. */
  function Params(args: seq<Arg>): (r: seq<Param>)
    ensures forall p :: p in r ==> p.name != External
  {
    if args == [] then []
    else
      var a := args[|args| - 1];
      var r := Params(args[..|args| - 1]);
      if a.value.Some? && a.name != External then r + [Param(a.name, a.value.value)] else r
  }

  /** Some argument named `_external` has a value. */
  predicate IsExternal(args: seq<Arg>) {
    exists i :: 0 <= i < |args| && args[i].name == External && args[i].value.Some?
  }

  /** The two filters of `urlFor`: drop the nulls, then take out every
      `_external` argument, noting that one was there. */
  method NormalizeArgs(args: seq<Arg>) returns (params: seq<Param>, external: bool)
    ensures params == Params(args)
    ensures external == IsExternal(args)
  {
    params := [];
    external := false;
    for k := 0 to |args|
      invariant params == Params(args[..k])
      invariant external == IsExternal(args[..k])
    {
      assert args[..k + 1][..k] == args[..k];
      assert forall i :: 0 <= i < k ==> args[..k + 1][i] == args[..k][i];
      if args[k].value.Some? {
        if args[k].name == External {
          external := true;
        } else {
          params := params + [Param(args[k].name, args[k].value.value)];
        }
      }
    }
    assert args[..|args|] == args;
  }

  /** Filtering splits along a split of the arguments. */
  lemma {:induction false} ParamsAppend(a: seq<Arg>, b: seq<Arg>)
    ensures Params(a + b) == Params(a) + Params(b)
    decreases |b|
  {
    if b == [] {
      assert a + b == a;
    } else {
      ParamsAppend(a, b[..|b| - 1]);
      assert (a + b)[..|a + b| - 1] == a + b[..|b| - 1];
    }
  }

  /** The parameters are exactly the arguments with a value, other than
      `_external`: an argument is dropped only for one of the two filters. */
  lemma {:induction false} ParamsMembers(args: seq<Arg>, x: Param)
    ensures x in Params(args) <==>
      x.name != External && exists i :: 0 <= i < |args| && args[i].name == x.name && args[i].value == Some(x.value)
  {
    if args != [] {
      var init := args[..|args| - 1];
      ParamsMembers(init, x);
      assert forall i :: 0 <= i < |init| ==> init[i] == args[i];
    }
  }

  /** A null argument reaches no parameter. */
  lemma NullArgDropped(a: seq<Arg>, name: string, b: seq<Arg>)
    ensures Params(a + [Arg(name, None)] + b) == Params(a + b)
  {
    var n := [Arg(name, None)];
    assert Params(n) == [] by {
      assert n[..0] == [];
    }
    ParamsAppend(a + n, b);
    ParamsAppend(a, n);
    ParamsAppend(a, b);
  }

  /** A null argument does not set the external flag, whatever its name. */
  lemma NullArgNotExternal(a: seq<Arg>, name: string, b: seq<Arg>)
    ensures IsExternal(a + [Arg(name, None)] + b) == IsExternal(a + b)
  {
    var x := a + [Arg(name, None)] + b;
    var y := a + b;
    if IsExternal(x) {
      var i :| 0 <= i < |x| && x[i].name == External && x[i].value.Some?;
      if i < |a| { assert y[i] == x[i]; } else { assert y[i - 1] == x[i]; }
    }
    if IsExternal(y) {
      var i :| 0 <= i < |y| && y[i].name == External && y[i].value.Some?;
      if i < |a| { assert x[i] == y[i]; } else { assert x[i + 1] == y[i]; }
    }
  }

  /** A null argument is the same as no argument: it reaches neither the
      parameters nor the external flag. */
  lemma NullArgIgnored(a: seq<Arg>, name: string, b: seq<Arg>)
    ensures Params(a + [Arg(name, None)] + b) == Params(a + b)
    ensures IsExternal(a + [Arg(name, None)] + b) == IsExternal(a + b)
  {
    NullArgDropped(a, name, b);
    NullArgNotExternal(a, name, b);
  }

  /** A non-null `_external` argument sets the flag and reaches no pattern. */
  lemma ExternalArgDirective(args: seq<Arg>, v: string)
    ensures IsExternal(args + [Arg(External, Some(v))])
    ensures Params(args + [Arg(External, Some(v))]) == Params(args)
  {
    var x := args + [Arg(External, Some(v))];
    assert x[|args|].name == External;
    assert x[..|x| - 1] == args;
  }

  // ---------------------------------------------------------------------
  // Resolution
  // ---------------------------------------------------------------------

  /** The first compiler, in registration order, feasible for the
      arguments. */
  function FirstFit(compilers: seq<Compiler>, params: seq<Param>): (r: Option<nat>)
    ensures r.Some? ==> r.value < |compilers| && CanCompile(compilers[r.value], params)
    ensures r.Some? ==> forall j :: 0 <= j < r.value ==> !CanCompile(compilers[j], params)
    ensures r.None? ==> forall j :: 0 <= j < |compilers| ==> !CanCompile(compilers[j], params)
  {
    FirstFitFrom(compilers, params, 0)
  }

  /** The search behind `FirstFit`, from the `k`-th compiler on. */
  function FirstFitFrom(compilers: seq<Compiler>, params: seq<Param>, k: nat): (r: Option<nat>)
    requires k <= |compilers|
    ensures r.Some? ==> k <= r.value < |compilers| && CanCompile(compilers[r.value], params)
    ensures r.Some? ==> forall j :: k <= j < r.value ==> !CanCompile(compilers[j], params)
    ensures r.None? ==> forall j :: k <= j < |compilers| ==> !CanCompile(compilers[j], params)
    decreases |compilers| - k
  {
    if k == |compilers| then None
    else if CanCompile(compilers[k], params) then Some(k)
    else FirstFitFrom(compilers, params, k + 1)
  }

  /** The pattern texts of the compilers, for the error report. */
  function PatternsOf(compilers: seq<Compiler>): (r: seq<string>)
    ensures |r| == |compilers| && forall i :: 0 <= i < |compilers| ==> r[i] == compilers[i].pattern
  {
    seq(|compilers|, i requires 0 <= i < |compilers| => compilers[i].pattern)
  }

  /** The compilers built from some patterns carry those patterns, in
      their order. */
  lemma PatternsOfCompilers(patterns: seq<string>)
    ensures PatternsOf(CompilersOf(patterns)) == patterns
  {
    var r := PatternsOf(CompilersOf(patterns));
    assert forall i :: 0 <= i < |patterns| ==> r[i] == patterns[i];
  }

  /** The registry holds the endpoint with one compiler per pattern, in
      the given order. */
  predicate RegisteredWith(routes: Registry, endpoint: string, patterns: seq<string>) {
    endpoint in routes && PatternsOf(routes[endpoint]) == patterns
  }

  /** An endpoint written relative to the current bean. */
  predicate IsRelative(endpoint: string) {
    |endpoint| > 0 && endpoint[0] == '.'
  }

  /** Relative resolution ends: prepending the bean name gives an endpoint
      that is not relative again. */
  predicate CanResolveRelative(current: ReverserRouterInformation) {
    current.beanName != [] && current.beanName[0] != '.'
  }

  /** The endpoint after `n` rounds of the relative rewrite: while it starts
      with `.`, the bean name is put in front of it. */
  function RewriteRounds(beanName: string, endpoint: string, n: nat): string
    decreases n
  {
    if n == 0 || !IsRelative(endpoint) then endpoint
    else RewriteRounds(beanName, beanName + endpoint, n - 1)
  }

  /** The rewrite of a relative endpoint ends after one round exactly when the
      bean name is non-empty and does not start with `.`; otherwise every
      round leaves a relative endpoint, so the recursion never returns. */
  lemma {:induction false} RelativeRewriteEnds(beanName: string, endpoint: string, n: nat)
    requires IsRelative(endpoint)
    ensures beanName != [] && beanName[0] != '.' && n >= 1 ==> !IsRelative(RewriteRounds(beanName, endpoint, n))
    ensures (beanName == [] || beanName[0] == '.') ==> IsRelative(RewriteRounds(beanName, endpoint, n))
    decreases n
  {
    if n > 0 {
      var e := beanName + endpoint;
      assert beanName != [] ==> e[0] == beanName[0];
      assert beanName == [] ==> e == endpoint;
      if IsRelative(e) {
        RelativeRewriteEnds(beanName, e, n - 1);
      }
    }
  }

  /** A URL with the prefix put in front; an error unchanged. */
  function WithPrefix(prefix: string, r: Result<string, RouterError>): Result<string, RouterError> {
    match r
    case Success(url) => Success(prefix + url)
    case Failure(e) => Failure(e)
  }

  /** What `urlFor(endpoint, args)` returns or raises, given the registry and
      the current request's record. */
  function Resolve(routes: Registry, endpoint: string, args: seq<Arg>, current: ReverserRouterInformation): Result<string, RouterError>
    requires IsRelative(endpoint) ==> CanResolveRelative(current)
    decreases if IsRelative(endpoint) then 1 else 0
  {
    if IsRelative(endpoint) then Resolve(routes, current.beanName + endpoint, args, current)
    else if endpoint !in routes then Failure(NotFound(endpoint))
    else
      var params := Params(args);
      var compilers := routes[endpoint];
      match FirstFit(compilers, params)
      case None => Failure(CannotCompile(endpoint, params, PatternsOf(compilers)))
      case Some(i) =>
        CompileUrlDefined(compilers[i], params);
        Success((if IsExternal(args) then current.urlPrefix else "") + CompileUrl(compilers[i], params).value)
  }

  /** The two errors and the first-fit rule: an unknown endpoint is not found;
      when no pattern is feasible the error lists them all; otherwise the URL
      is the one the first feasible pattern builds, earlier patterns winning
      over later ones whatever their placeholders. */
  lemma ResolveFirstFit(routes: Registry, endpoint: string, args: seq<Arg>, current: ReverserRouterInformation, i: nat)
    requires !IsRelative(endpoint)
    ensures endpoint !in routes ==> Resolve(routes, endpoint, args, current) == Failure(NotFound(endpoint))
    ensures endpoint in routes && (forall j :: 0 <= j < |routes[endpoint]| ==> !CanCompile(routes[endpoint][j], Params(args))) ==>
      Resolve(routes, endpoint, args, current) ==
        Failure(CannotCompile(endpoint, Params(args), PatternsOf(routes[endpoint])))
    ensures
      (&& endpoint in routes && i < |routes[endpoint]| && CanCompile(routes[endpoint][i], Params(args))
       && (forall j :: 0 <= j < i ==> !CanCompile(routes[endpoint][j], Params(args)))) ==>
      && CompileUrl(routes[endpoint][i], Params(args)).Some?
      && Resolve(routes, endpoint, args, current) ==
        Success((if IsExternal(args) then current.urlPrefix else "") + CompileUrl(routes[endpoint][i], Params(args)).value)
  {
    if endpoint in routes && i < |routes[endpoint]| && CanCompile(routes[endpoint][i], Params(args)) {
      CompileUrlDefined(routes[endpoint][i], Params(args));
    }
  }

  /** A pattern without placeholders can always compile: an endpoint that
      has one never fails with an argument error. */
  lemma ResolveWithVariableFreePattern(routes: Registry, endpoint: string, args: seq<Arg>, current: ReverserRouterInformation, i: nat)
    requires !IsRelative(endpoint) && endpoint in routes
    requires i < |routes[endpoint]| && routes[endpoint][i].pathVariables == []
    ensures Resolve(routes, endpoint, args, current).Success?
  {
    assert CanCompile(routes[endpoint][i], Params(args));
  }

  /** Null arguments are dropped before anything else: passing `(name,
      null)` resolves like leaving the argument out, for `_external` too. */
  lemma ResolveIgnoresNullArgs(routes: Registry, endpoint: string, a: seq<Arg>, name: string, b: seq<Arg>, current: ReverserRouterInformation)
    requires IsRelative(endpoint) ==> CanResolveRelative(current)
    ensures Resolve(routes, endpoint, a + [Arg(name, None)] + b, current) == Resolve(routes, endpoint, a + b, current)
  {
    NullArgIgnored(a, name, b);
  }

  /** The result carries the current request's prefix exactly when the
      arguments hold a non-null `_external`; otherwise the prefix plays no
      part. */
  lemma ResolveExternalPrefix(routes: Registry, endpoint: string, args: seq<Arg>, current: ReverserRouterInformation)
    requires IsRelative(endpoint) ==> CanResolveRelative(current)
    ensures Resolve(routes, endpoint, args, current) ==
      if IsExternal(args) then WithPrefix(current.urlPrefix, Resolve(routes, endpoint, args, current.(urlPrefix := "")))
      else Resolve(routes, endpoint, args, current.(urlPrefix := ""))
  {
    var e := if IsRelative(endpoint) then current.beanName + endpoint else endpoint;
    var bare := current.(urlPrefix := "");
    assert Resolve(routes, endpoint, args, current) == Resolve(routes, e, args, current);
    assert Resolve(routes, endpoint, args, bare) == Resolve(routes, e, args, bare);
    if e in routes {
      var params := Params(args);
      match FirstFit(routes[e], params)
      case None =>
      case Some(i) =>
        CompileUrlDefined(routes[e][i], params);
        var url := CompileUrl(routes[e][i], params).value;
        assert "" + url == url;
    }
  }

  /** Adding a non-null `_external` argument only puts the prefix in front. */
  lemma ResolveExternalArg(routes: Registry, endpoint: string, args: seq<Arg>, v: string, current: ReverserRouterInformation)
    requires IsRelative(endpoint) ==> CanResolveRelative(current)
    requires !IsExternal(args)
    ensures Resolve(routes, endpoint, args + [Arg(External, Some(v))], current) ==
      WithPrefix(current.urlPrefix, Resolve(routes, endpoint, args, current))
  {
    ExternalArgDirective(args, v);
    var args' := args + [Arg(External, Some(v))];
    var e := if IsRelative(endpoint) then current.beanName + endpoint else endpoint;
    assert Resolve(routes, endpoint, args', current) == Resolve(routes, e, args', current);
    assert Resolve(routes, endpoint, args, current) == Resolve(routes, e, args, current);
    if e in routes {
      var params := Params(args);
      match FirstFit(routes[e], params)
      case None =>
      case Some(i) =>
        CompileUrlDefined(routes[e][i], params);
        var url := CompileUrl(routes[e][i], params).value;
        assert "" + url == url;
    }
  }

  /** A relative endpoint `.action` resolves as `<scope>.action`, where the
      scope is the part of the current endpoint before its first `.`. */
  lemma ResolveRelative(routes: Registry, action: string, args: seq<Arg>, current: ReverserRouterInformation)
    requires CanResolveRelative(current) && '.' !in current.beanName
    ensures Resolve(routes, "." + action, args, current) ==
      Resolve(routes, EndpointOf(ScopeOf(current.Endpoint()), action), args, current)
  {
    ScopeOfEndpoint(current.beanName, current.methodName);
    assert current.beanName + ("." + action) == EndpointOf(current.beanName, action);
  }

  /** Nothing is taken from the path variables bound to the current request,
      nor from its URL: only the arguments given count. */
  lemma ResolveIgnoresBoundVariables(routes: Registry, endpoint: string, args: seq<Arg>, current: ReverserRouterInformation,
                                     pathVariables: map<string, string>, requestURL: string)
    requires IsRelative(endpoint) ==> CanResolveRelative(current)
    ensures Resolve(routes, endpoint, args, current) ==
      Resolve(routes, endpoint, args, current.(pathVariables := pathVariables, requestURL := requestURL))
  {
  }

  /** The current endpoint resolves against the patterns its handler
      registered. */
  lemma CurrentUsesOwnPatterns(mappings: seq<Mapping>, i: nat, current: ReverserRouterInformation)
    requires Register(map[], mappings).duplicate.None?
    requires i < |mappings|
    requires current.beanName == mappings[i].beanName && current.methodName == mappings[i].methodName
    ensures current.Endpoint() in Register(map[], mappings).routes
    ensures Register(map[], mappings).routes[current.Endpoint()] == CompilersOf(mappings[i].patterns)
  {
    RegisterStores(map[], mappings);
  }

  // ---------------------------------------------------------------------
  // The flat argument lists of the vararg overloads
  // ---------------------------------------------------------------------

  /** The pairs `(values[2m], values[2m + 1])` for `m` from `k` on; an odd
      last element is dropped, a null name slot fails. */
  function PairsFrom(values: seq<Option<string>>, k: nat): (r: Result<seq<Arg>, RouterError>)
    requires k <= |values| / 2
    ensures r.Success? <==> forall m :: k <= m < |values| / 2 ==> values[2 * m].Some?
    ensures r.Success? ==> |r.value| == |values| / 2 - k
    ensures r.Success? ==> forall m :: 0 <= m < |r.value| ==>
      values[2 * (k + m)] == Some(r.value[m].name) && values[2 * (k + m) + 1] == r.value[m].value
    ensures r.Failure? ==> exists m :: k <= m < |values| / 2 && r.error == NameNotString(2 * m) && values[2 * m].None?
    decreases |values| / 2 - k
  {
    if k == |values| / 2 then Success([])
    else if values[2 * k].None? then Failure(NameNotString(2 * k))
    else
      match PairsFrom(values, k + 1)
      case Failure(e) => Failure(e)
      case Success(rest) => Success([Arg(values[2 * k].value, values[2 * k + 1])] + rest)
  }

  /** `mergeToArrayOfPairs`: the first pair, then the consecutive pairs of
      `values`. */
  function MergeToArrayOfPairs(name: string, value: Option<string>, values: seq<Option<string>>): (r: Result<seq<Arg>, RouterError>)
    ensures r.Success? <==> forall m :: 0 <= m < |values| / 2 ==> values[2 * m].Some?
    ensures r.Success? ==> |r.value| == 1 + |values| / 2 && r.value[0] == Arg(name, value)
    ensures r.Success? ==> forall m :: 0 <= m < |values| / 2 ==>
      values[2 * m] == Some(r.value[m + 1].name) && values[2 * m + 1] == r.value[m + 1].value
  {
    match PairsFrom(values, 0)
    case Failure(e) => Failure(e)
    case Success(pairs) =>
      var r := [Arg(name, value)] + pairs;
      assert forall m :: 0 <= m < |values| / 2 ==> r[m + 1] == pairs[m];
      Success(r)
  }

  /** `urlFor` with the flat argument list. */
  function ResolvePairs(routes: Registry, endpoint: string, name: string, value: Option<string>, values: seq<Option<string>>,
                        current: ReverserRouterInformation): Result<string, RouterError>
    requires IsRelative(endpoint) && MergeToArrayOfPairs(name, value, values).Success? ==> CanResolveRelative(current)
  {
    match MergeToArrayOfPairs(name, value, values)
    case Failure(e) => Failure(e)
    case Success(args) => Resolve(routes, endpoint, args, current)
  }

  // ---------------------------------------------------------------------
  // The router object
  // ---------------------------------------------------------------------

  class ReverseRouter {
    var initialized: bool
    var routes: Registry

    constructor()
      ensures !initialized && routes == map[]
    {
      initialized := false;
      routes := map[];
    }

    /** `initialize`: registers each handler under `<bean>.<method>` with the
        compilers of its patterns; stops at a key already present. */
    method Initialize(mappings: seq<Mapping>) returns (outcome: Outcome<RouterError>)
      modifies this
      ensures initialized
      ensures routes == Register(old(routes), mappings).routes
      ensures outcome == match Register(old(routes), mappings).duplicate
                         case None => Pass
                         case Some(key) => Fail(DuplicateEndpoint(key))
    {
      initialized := true;
      var k := 0;
      while k < |mappings|
        invariant 0 <= k <= |mappings|
        invariant initialized
        invariant Register(old(routes), mappings) == Register(routes, mappings[k..])
      {
        assert mappings[k..][1..] == mappings[k + 1..];
        var key := EndpointOf(mappings[k].beanName, mappings[k].methodName);
        if key in routes {
          assert mappings[k..][0] == mappings[k];
          assert Register(routes, mappings[k..]) == Registration(routes, Some(key));
          return Fail(DuplicateEndpoint(key));
        }
        var compilers := NewCompilers(mappings[k].patterns);
        routes := routes[key := compilers];
        k := k + 1;
      }
      return Pass;
    }

    /** `urlFor(endpoint, vararg args)`. */
    method UrlFor(endpoint: string, args: seq<Arg>, current: ReverserRouterInformation) returns (r: Result<string, RouterError>)
      requires IsRelative(endpoint) ==> CanResolveRelative(current)
      ensures r == Resolve(routes, endpoint, args, current)
      decreases if IsRelative(endpoint) then 1 else 0
    {
      if IsRelative(endpoint) {
        r := UrlFor(current.beanName + endpoint, args, current);
        return;
      }
      var params, external := NormalizeArgs(args);
      if endpoint !in routes {
        ResolveFirstFit(routes, endpoint, args, current, 0);
        return Failure(NotFound(endpoint));
      }
      var compilers := routes[endpoint];
      for k := 0 to |compilers|
        invariant forall j :: 0 <= j < k ==> !CanCompile(compilers[j], params)
      {
        if CanCompile(compilers[k], params) {
          var url := Compile(compilers[k], params);
          ResolveFirstFit(routes, endpoint, args, current, k);
          return Success((if external then current.urlPrefix else "") + url.value);
        }
      }
      ResolveFirstFit(routes, endpoint, args, current, 0);
      return Failure(CannotCompile(endpoint, params, PatternsOf(compilers)));
    }

    /** `urlFor(endpoint)`. */
    method UrlForEndpoint(endpoint: string, current: ReverserRouterInformation) returns (r: Result<string, RouterError>)
      requires IsRelative(endpoint) ==> CanResolveRelative(current)
      ensures r == Resolve(routes, endpoint, [], current)
    {
      r := UrlFor(endpoint, [], current);
    }

    /** `urlFor(endpoint, name, value, vararg values)`. */
    method UrlForPairs(endpoint: string, name: string, value: Option<string>, values: seq<Option<string>>,
                       current: ReverserRouterInformation) returns (r: Result<string, RouterError>)
      requires IsRelative(endpoint) && MergeToArrayOfPairs(name, value, values).Success? ==> CanResolveRelative(current)
      ensures r == ResolvePairs(routes, endpoint, name, value, values, current)
    {
      var params := MergeToArrayOfPairs(name, value, values);
      if params.Failure? {
        return Failure(params.error);
      }
      r := UrlFor(endpoint, params.value, current);
    }

    /** `currentFor(vararg args)`: the current endpoint with the given
        arguments only. */
    method CurrentFor(args: seq<Arg>, current: ReverserRouterInformation) returns (r: Result<string, RouterError>)
      requires CanResolveRelative(current)
      ensures r == Resolve(routes, current.Endpoint(), args, current)
    {
      r := UrlFor(current.Endpoint(), args, current);
    }

    /** `currentFor()`. */
    method CurrentForNoArgs(current: ReverserRouterInformation) returns (r: Result<string, RouterError>)
      requires CanResolveRelative(current)
      ensures r == Resolve(routes, current.Endpoint(), [], current)
    {
      r := CurrentFor([], current);
    }

    /** `currentFor(name, value, vararg values)`. */
    method CurrentForPairs(name: string, value: Option<string>, values: seq<Option<string>>,
                           current: ReverserRouterInformation) returns (r: Result<string, RouterError>)
      requires MergeToArrayOfPairs(name, value, values).Success? ==> CanResolveRelative(current)
      ensures r == ResolvePairs(routes, current.Endpoint(), name, value, values, current)
    {
      var params := MergeToArrayOfPairs(name, value, values);
      if params.Failure? {
        return Failure(params.error);
      }
      r := CurrentFor(params.value, current);
    }
  }
}
