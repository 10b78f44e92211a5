/** The pattern compiler: one URL pattern of an endpoint, the `{name}`
    placeholders found in it, the feasibility test for a list of arguments and
    the URL those arguments produce. */
module Patterns {
  import opened Wrappers

  /** A named argument whose value is not null. */
  datatype Param = Param(name: string, value: string)

  // ---------------------------------------------------------------------
  // Placeholders: the regular expression \{([^/]+?)\}
  // ---------------------------------------------------------------------

  /** The expression matches `s[i..j + 1]`: a `{` at `i`, then the shortest
      non-empty run of characters other than `/` that a `}` follows, that `}`
      being at `j`. The name it captures is `s[i + 1..j]`. */
  predicate IsMatch(s: string, i: int, j: int) {
    && 0 <= i && i + 2 <= j < |s|
    && s[i] == '{' && s[j] == '}'
    && (forall k :: i < k < j ==> s[k] != '/')
    && (forall k :: i + 1 < k < j ==> s[k] != '}')
  }

  /** A match is fixed by where it starts. */
  lemma MatchUnique(s: string, i: int, j: int, j': int)
    requires IsMatch(s, i, j) && IsMatch(s, i, j')
    ensures j == j'
  {
  }

  /** Looks, from `k` on, for the `}` that closes the placeholder opened at
      `i`: the first `}` at least two places after `i`, unless a `/` or the
      end of the text comes first. */
  function CloseFrom(s: string, i: nat, k: nat): (r: Option<nat>)
    requires i < k <= |s|
    ensures r.Some? ==> k <= r.value < |s| && i + 2 <= r.value && s[r.value] == '}'
    decreases |s| - k
  {
    if k == |s| || s[k] == '/' then None
    else if s[k] == '}' && i + 2 <= k then Some(k)
    else CloseFrom(s, i, k + 1)
  }

  /** When everything between `i` and `k` can continue the placeholder
      opened at `i`, `CloseFrom` finds the match that starts at `i`, or
      tells that there is none. */
  lemma {:induction false} CloseFromMatch(s: string, i: nat, k: nat)
    requires i < k <= |s| && s[i] == '{'
    requires forall m :: i < m < k ==> s[m] != '/'
    requires forall m :: i + 1 < m < k ==> s[m] != '}'
    ensures CloseFrom(s, i, k).Some? ==> IsMatch(s, i, CloseFrom(s, i, k).value)
    ensures CloseFrom(s, i, k).None? ==> forall j :: !IsMatch(s, i, j)
    decreases |s| - k
  {
    if k == |s| || s[k] == '/' {
    } else if s[k] == '}' && i + 2 <= k {
    } else {
      CloseFromMatch(s, i, k + 1);
    }
  }

  /** Where a match of the expression starts and ends. */
  datatype Span = Span(open: nat, close: nat)

  /** One step of the matcher's `find()`: the leftmost match that starts at
      `p` or later. What is found is a `{` and a later `}` at least two
      places apart. */
  function FindFrom(s: string, p: nat): (r: Option<Span>)
    requires p <= |s|
    ensures r.Some? ==> p <= r.value.open && r.value.open + 2 <= r.value.close < |s|
    ensures r.Some? ==> s[r.value.open] == '{' && s[r.value.close] == '}'
    decreases |s| - p
  {
    if p == |s| then None
    else if s[p] == '{' then
      match CloseFrom(s, p, p + 1)
      case Some(j) => Some(Span(p, j))
      case None => FindFrom(s, p + 1)
    else FindFrom(s, p + 1)
  }

  /** What `find()` returns is a match. */
  lemma {:induction false} FindFromMatches(s: string, p: nat)
    requires p <= |s|
    ensures FindFrom(s, p).Some? ==> IsMatch(s, FindFrom(s, p).value.open, FindFrom(s, p).value.close)
    decreases |s| - p
  {
    if p < |s| {
      if s[p] == '{' {
        CloseFromMatch(s, p, p + 1);
        if CloseFrom(s, p, p + 1).None? {
          FindFromMatches(s, p + 1);
        }
      } else {
        FindFromMatches(s, p + 1);
      }
    }
  }

  /** `find()` gives the leftmost match: there is none between `p` and
      what it returns, and none at all from `p` on when it returns nothing. */
  lemma {:induction false} FindFromLeftmost(s: string, p: nat)
    requires p <= |s|
    ensures FindFrom(s, p).Some? ==> forall i, j :: p <= i < FindFrom(s, p).value.open ==> !IsMatch(s, i, j)
    ensures FindFrom(s, p).None? ==> forall i, j :: p <= i ==> !IsMatch(s, i, j)
    decreases |s| - p
  {
    if p < |s| {
      if s[p] == '{' {
        CloseFromMatch(s, p, p + 1);
        if CloseFrom(s, p, p + 1).None? {
          FindFromLeftmost(s, p + 1);
        }
      } else {
        FindFromLeftmost(s, p + 1);
      }
    }
  }

  /** The names captured by successive calls of `find()` from `p` on, left to
      right, duplicates kept. */
  function PathVariablesFrom(s: string, p: nat): seq<string>
    requires p <= |s|
    decreases |s| - p
  {
    match FindFrom(s, p)
    case None => []
    case Some(m) => [s[m.open + 1..m.close]] + PathVariablesFrom(s, m.close + 1)
  }

  /** One call of `find()`: the first name, then those found after it. */
  lemma PathVariablesStep(s: string, p: nat, m: Span)
    requires p <= |s| && FindFrom(s, p) == Some(m)
    ensures p <= m.open < m.close < |s|
    ensures PathVariablesFrom(s, p) == [s[m.open + 1..m.close]] + PathVariablesFrom(s, m.close + 1)
  {
  }

  /** The placeholder names of a pattern. */
  function PathVariables(pattern: string): seq<string> {
    PathVariablesFrom(pattern, 0)
  }

  /** The capture of a match is a non-empty run without `/`. */
  lemma CaptureHasNoSlash(s: string, i: nat, j: nat)
    requires IsMatch(s, i, j)
    ensures |s[i + 1..j]| > 0 && '/' !in s[i + 1..j]
  {
    var v := s[i + 1..j];
    forall k | 0 <= k < |v|
      ensures v[k] != '/'
    {
      assert v[k] == s[i + 1 + k];
    }
  }

  /** Every name is the capture of a match at or after `p`, written between
      braces in the pattern. */
  lemma {:induction false} PathVariablesAreMatches(s: string, p: nat)
    requires p <= |s|
    ensures forall v :: v in PathVariablesFrom(s, p) ==>
      (exists i, j :: p <= i && IsMatch(s, i, j) && v == s[i + 1..j])
    decreases |s| - p
  {
    match FindFrom(s, p)
    case None =>
    case Some(m) =>
      var name := s[m.open + 1..m.close];
      var rest := PathVariablesFrom(s, m.close + 1);
      PathVariablesStep(s, p, m);
      FindFromMatches(s, p);
      PathVariablesAreMatches(s, m.close + 1);
      forall v | v in PathVariablesFrom(s, p)
        ensures exists i, j :: p <= i && IsMatch(s, i, j) && v == s[i + 1..j]
      {
        if v != name {
          assert v in rest;
        }
      }
  }

  /** Hence every name is a non-empty run without `/`. */
  lemma PathVariablesHaveNoSlash(s: string)
    ensures forall v :: v in PathVariables(s) ==> |v| > 0 && '/' !in v
  {
    PathVariablesAreMatches(s, 0);
    forall v | v in PathVariables(s)
      ensures |v| > 0 && '/' !in v
    {
      var i, j :| 0 <= i && IsMatch(s, i, j) && v == s[i + 1..j];
      CaptureHasNoSlash(s, i, j);
    }
  }

  /** A pattern in which no `{` is ever closed has no placeholder, whatever
      else it holds (an unterminated `{`, a `/` inside braces): no error. */
  lemma NoMatchNoVariables(s: string)
    requires forall i, j :: !IsMatch(s, i, j)
    ensures PathVariables(s) == []
  {
    FindFromMatches(s, 0);
  }

  /** In particular a pattern without any `}` has no placeholder. */
  lemma NoCloseNoVariables(s: string)
    requires '}' !in s
    ensures PathVariables(s) == []
  {
    forall i, j
      ensures !IsMatch(s, i, j)
    {
      if 0 <= j < |s| {
        assert s[j] in s;
      }
    }
    NoMatchNoVariables(s);
  }

  /** `/user/{id}/edit` has the one name `id`. */
  lemma EditPatternVariables(s: string)
    requires s == "/user/{id}/edit"
    ensures PathVariables(s) == ["id"]
  {
    assert IsMatch(s, 6, 9);
    FindFromLeftmost(s, 0);
    FindFromMatches(s, 0);
    assert FindFrom(s, 0) == Some(Span(6, 9));
    assert FindFrom(s, 10) == None;
    assert s[7..9] == "id";
    assert PathVariablesFrom(s, 0) == [s[7..9]] + PathVariablesFrom(s, 10);
  }

  /** `/user/{id}` has the one name `id`: a placeholder may end the pattern. */
  lemma ShowPatternVariables(s: string)
    requires s == "/user/{id}"
    ensures PathVariables(s) == ["id"]
  {
    assert IsMatch(s, 6, 9);
    FindFromLeftmost(s, 0);
    FindFromMatches(s, 0);
    assert FindFrom(s, 0) == Some(Span(6, 9));
    assert s[7..9] == "id";
    assert PathVariablesFrom(s, 0) == [s[7..9]] + PathVariablesFrom(s, 10);
  }

  /** `/{a}/{a}` names `a` twice: duplicates are kept. */
  lemma RepeatedPatternVariables(s: string)
    requires s == "/{a}/{a}"
    ensures PathVariables(s) == ["a", "a"]
  {
    assert IsMatch(s, 1, 3);
    FindFromLeftmost(s, 0);
    FindFromMatches(s, 0);
    assert FindFrom(s, 0) == Some(Span(1, 3));
    assert IsMatch(s, 5, 7);
    FindFromLeftmost(s, 4);
    FindFromMatches(s, 4);
    assert FindFrom(s, 4) == Some(Span(5, 7));
    assert FindFrom(s, 8) == None;
    assert s[2..3] == "a" && s[6..7] == "a";
    assert PathVariablesFrom(s, 4) == [s[6..7]] + PathVariablesFrom(s, 8);
    assert PathVariablesFrom(s, 0) == [s[2..3]] + PathVariablesFrom(s, 4);
  }

  // ---------------------------------------------------------------------
  // The compiler
  // ---------------------------------------------------------------------

  /** The pattern and the placeholder names its constructor found. */
  datatype PatternCompiler = PatternCompiler(pattern: string, pathVariables: seq<string>)

  /** A compiler as the constructor leaves it: its names are those of its
      pattern. */
  type Compiler = c: PatternCompiler | c.pathVariables == PathVariables(c.pattern)
    witness PatternCompiler("", [])

  /** The compiler of a pattern, as a value. */
  function CompilerOf(pattern: string): (c: Compiler)
    ensures c.pattern == pattern
  {
    PatternCompiler(pattern, PathVariables(pattern))
  }

  /** The constructor: collects the names of the pattern while the matcher
      finds one more match. */
  method NewCompiler(pattern: string) returns (c: Compiler)
    ensures c == CompilerOf(pattern)
  {
    var pathVariables: seq<string> := [];
    var from := 0;
    var found := FindFrom(pattern, from);
    while found.Some?
      invariant from <= |pattern|
      invariant found == FindFrom(pattern, from)
      invariant pathVariables + PathVariablesFrom(pattern, from) == PathVariables(pattern)
      decreases |pattern| - from
    {
      var m := found.value;
      PathVariablesStep(pattern, from, m);
      var name := pattern[m.open + 1..m.close];
      var rest := PathVariablesFrom(pattern, m.close + 1);
      assert (pathVariables + [name]) + rest == pathVariables + ([name] + rest);
      pathVariables := pathVariables + [name];
      from := m.close + 1;
      found := FindFrom(pattern, from);
    }
    c := PatternCompiler(pattern, pathVariables);
  }

  // ---------------------------------------------------------------------
  // The feasibility test
  // ---------------------------------------------------------------------

  /** The names of the arguments, in order (`args.map { it.first }`). */
  function Names(args: seq<Param>): (r: seq<string>)
    ensures |r| == |args|
    ensures forall i :: 0 <= i < |args| ==> r[i] == args[i].name
  {
    if args == [] then [] else Names(args[..|args| - 1]) + [args[|args| - 1].name]
  }

  /** The first name of `vars` that `keys` lacks (`firstOrNull`). */
  function FirstMissing(vars: seq<string>, keys: seq<string>): (r: Option<string>)
    ensures r.None? <==> forall v :: v in vars ==> v in keys
    ensures r.Some? ==> r.value in vars && r.value !in keys
  {
    if vars == [] then None
    else if vars[0] !in keys then Some(vars[0])
    else FirstMissing(vars[1..], keys)
  }

  /** Every placeholder has an argument of its name; arguments beyond the
      placeholders are allowed, and a pattern without placeholders accepts
      any list. */
  predicate CanCompile(c: Compiler, args: seq<Param>)
    ensures CanCompile(c, args) <==> forall v :: v in c.pathVariables ==> v in Names(args)
  {
    FirstMissing(c.pathVariables, Names(args)).None?
  }

  /** More arguments never make a feasible pattern infeasible. */
  lemma CanCompileWithMore(c: Compiler, args: seq<Param>, extra: seq<Param>)
    requires CanCompile(c, args)
    ensures CanCompile(c, args + extra)
  {
    forall v | v in c.pathVariables ensures v in Names(args + extra) {
      var i :| 0 <= i < |args| && Names(args)[i] == v;
      assert Names(args + extra)[i] == v;
    }
  }

  // ---------------------------------------------------------------------
  // Sorting the arguments: path values and query parameters
  // ---------------------------------------------------------------------

  /** The path values: each argument named by a placeholder, a later one of
      the same name replacing an earlier one. */
  function PathMap(vars: seq<string>, args: seq<Param>): map<string, string>
  {
    if args == [] then map[]
    else
      var last := args[|args| - 1];
      var m := PathMap(vars, args[..|args| - 1]);
      if last.name in vars then m[last.name := last.value] else m
  }

  /** The query parameters: every other argument, in order, duplicates kept. */
  function QueryParams(vars: seq<string>, args: seq<Param>): seq<Param>
  {
    if args == [] then []
    else
      var last := args[|args| - 1];
      var q := QueryParams(vars, args[..|args| - 1]);
      if last.name in vars then q else q + [last]
  }

  /** The path map holds exactly the placeholder names that some argument
      carries. */
  lemma {:induction false} PathMapKeys(vars: seq<string>, args: seq<Param>)
    ensures forall k :: k in PathMap(vars, args) <==> k in vars && k in Names(args)
  {
    if args != [] {
      PathMapKeys(vars, args[..|args| - 1]);
    }
  }

  /** Under each of its names the path map holds the value of the last
      argument of that name. */
  lemma {:induction false} PathMapLastValue(vars: seq<string>, args: seq<Param>, k: string)
    requires k in PathMap(vars, args)
    ensures exists i ::
      && 0 <= i < |args| && args[i].name == k && PathMap(vars, args)[k] == args[i].value
      && (forall j :: i < j < |args| ==> args[j].name != k)
  {
    var init := args[..|args| - 1];
    var last := args[|args| - 1];
    if k == last.name && last.name in vars {
      assert args[|args| - 1].name == k && PathMap(vars, args)[k] == args[|args| - 1].value;
    } else {
      PathMapKeys(vars, args);
      PathMapLastValue(vars, init, k);
      var i :| 0 <= i < |init| && init[i].name == k && PathMap(vars, init)[k] == init[i].value
        && (forall j :: i < j < |init| ==> init[j].name != k);
      assert args[i] == init[i];
      assert forall j :: i < j < |args| ==> args[j].name != k;
    }
  }

  /** The query list splits along a split of the arguments. */
  lemma {:induction false} QueryParamsAppend(vars: seq<string>, a: seq<Param>, b: seq<Param>)
    ensures QueryParams(vars, a + b) == QueryParams(vars, a) + QueryParams(vars, b)
    decreases |b|
  {
    if b == [] {
      assert a + b == a;
    } else {
      var binit := b[..|b| - 1];
      QueryParamsAppend(vars, a, binit);
      assert (a + b)[..|a + b| - 1] == a + binit;
    }
  }

  /** The query list keeps exactly the arguments no placeholder names. */
  lemma {:induction false} QueryParamsMembers(vars: seq<string>, args: seq<Param>)
    ensures forall x :: x in QueryParams(vars, args) <==> x in args && x.name !in vars
  {
    if args != [] {
      var init := args[..|args| - 1];
      QueryParamsMembers(vars, init);
      assert args == init + [args[|args| - 1]];
    }
  }

  /** When no argument names a placeholder, all of them are query
      parameters, in their order. */
  lemma {:induction false} QueryParamsAllKept(vars: seq<string>, args: seq<Param>)
    requires forall i :: 0 <= i < |args| ==> args[i].name !in vars
    ensures QueryParams(vars, args) == args
  {
    if args != [] {
      var init := args[..|args| - 1];
      QueryParamsAllKept(vars, init);
      assert args == init + [args[|args| - 1]];
    }
  }

  /** When every argument names a placeholder, there is no query. */
  lemma {:induction false} QueryParamsNoneKept(vars: seq<string>, args: seq<Param>)
    requires forall i :: 0 <= i < |args| ==> args[i].name in vars
    ensures QueryParams(vars, args) == []
  {
    if args != [] {
      QueryParamsNoneKept(vars, args[..|args| - 1]);
    }
  }

  /** The body of `compile`'s `forEach`: each argument goes to the path map
      or to the query list. */
  method Partition(vars: seq<string>, args: seq<Param>) returns (pathMap: map<string, string>, queryParams: seq<Param>)
    ensures pathMap == PathMap(vars, args)
    ensures queryParams == QueryParams(vars, args)
  {
    pathMap := map[];
    queryParams := [];
    for k := 0 to |args|
      invariant pathMap == PathMap(vars, args[..k])
      invariant queryParams == QueryParams(vars, args[..k])
    {
      assert args[..k + 1][..k] == args[..k];
      if args[k].name in vars {
        pathMap := pathMap[args[k].name := args[k].value];
      } else {
        queryParams := queryParams + [args[k]];
      }
    }
    assert args[..|args|] == args;
  }

  // ---------------------------------------------------------------------
  // Expansion and the final URL
  // ---------------------------------------------------------------------

  /** Substitutes, from `p` on, the value of each placeholder; fails when a
      placeholder has no value. */
  function ExpandFrom(s: string, p: nat, values: map<string, string>): Option<string>
    requires p <= |s|
    decreases |s| - p
  {
    match FindFrom(s, p)
    case None => Some(s[p..])
    case Some(m) =>
      var name := s[m.open + 1..m.close];
      if name !in values then None
      else
        match ExpandFrom(s, m.close + 1, values)
        case None => None
        case Some(rest) => Some(s[p..m.open] + values[name] + rest)
  }

  /** Expansion from `p` succeeds exactly when every name found from `p` on
      has a value. */
  lemma {:induction false} ExpandFromDefined(s: string, p: nat, values: map<string, string>)
    requires p <= |s|
    ensures ExpandFrom(s, p, values).Some? <==> forall v :: v in PathVariablesFrom(s, p) ==> v in values
    decreases |s| - p
  {
    match FindFrom(s, p)
    case None =>
    case Some(m) =>
      PathVariablesStep(s, p, m);
      ExpandFromDefined(s, m.close + 1, values);
  }

  /** The pattern with each placeholder replaced by its value. */
  function Expand(pattern: string, values: map<string, string>): Option<string> {
    ExpandFrom(pattern, 0, values)
  }

  /** Expansion succeeds exactly when every placeholder has a value. */
  lemma ExpandDefined(pattern: string, values: map<string, string>)
    ensures Expand(pattern, values).Some? <==> forall v :: v in PathVariables(pattern) ==> v in values
  {
    ExpandFromDefined(pattern, 0, values);
  }

  /** Putting a placeholder's own text back where it was rebuilds the text. */
  lemma SpliceBraces(s: string, p: nat, i: nat, j: nat)
    requires p <= i < j < |s| && s[i] == '{' && s[j] == '}'
    ensures s[p..i] + ("{" + s[i + 1..j] + "}") + s[j + 1..] == s[p..]
  {
    assert s[i..j + 1] == "{" + s[i + 1..j] + "}";
    assert s[p..j + 1] == s[p..i] + s[i..j + 1];
    assert s[p..] == s[p..j + 1] + s[j + 1..];
  }

  /** One step of the expansion: the text before the first placeholder, its
      value, then the expansion of the rest. */
  lemma ExpandStep(s: string, p: nat, values: map<string, string>, m: Span, rest: string)
    requires p <= |s| && FindFrom(s, p) == Some(m)
    requires s[m.open + 1..m.close] in values
    requires ExpandFrom(s, m.close + 1, values) == Some(rest)
    ensures ExpandFrom(s, p, values) == Some(s[p..m.open] + values[s[m.open + 1..m.close]] + rest)
  {
    var name := s[m.open + 1..m.close];
    assert ExpandFrom(s, p, values) ==
      match ExpandFrom(s, m.close + 1, values)
      case None => None
      case Some(rest') => Some(s[p..m.open] + values[name] + rest');
  }

  /** A placeholder given its own text leaves the text unchanged, provided
      the rest does. */
  lemma ExpandIdentityStep(s: string, p: nat, values: map<string, string>, m: Span)
    requires p <= |s| && FindFrom(s, p) == Some(m)
    requires s[m.open + 1..m.close] in values
    requires values[s[m.open + 1..m.close]] == "{" + s[m.open + 1..m.close] + "}"
    requires ExpandFrom(s, m.close + 1, values) == Some(s[m.close + 1..])
    ensures ExpandFrom(s, p, values) == Some(s[p..])
  {
    ExpandStep(s, p, values, m, s[m.close + 1..]);
    SpliceBraces(s, p, m.open, m.close);
  }

  /** Expansion leaves the literal text alone: giving each placeholder its
      own text `{name}` as value gives back the pattern. */
  lemma {:induction false} ExpandIdentity(s: string, p: nat, values: map<string, string>)
    requires p <= |s|
    requires forall v :: v in PathVariablesFrom(s, p) ==> v in values && values[v] == "{" + v + "}"
    ensures ExpandFrom(s, p, values) == Some(s[p..])
    decreases |s| - p
  {
    match FindFrom(s, p)
    case None =>
    case Some(m) =>
      var name := s[m.open + 1..m.close];
      PathVariablesStep(s, p, m);
      assert PathVariablesFrom(s, p)[0] == name;
      ExpandIdentity(s, m.close + 1, values);
      ExpandIdentityStep(s, p, values, m);
  }

  /** A pattern without placeholders expands to itself. */
  lemma ExpandWithoutVariables(pattern: string, values: map<string, string>)
    requires PathVariables(pattern) == []
    ensures Expand(pattern, values) == Some(pattern)
  {
    ExpandIdentity(pattern, 0, values);
  }

  /** `name=value` pairs joined by `&`: empty exactly when there are none. */
  function EncodeQueryParams(params: seq<Param>): (r: string)
    ensures |r| == 0 <==> params == []
  {
    if params == [] then ""
    else if |params| == 1 then params[0].name + "=" + params[0].value
    else params[0].name + "=" + params[0].value + "&" + EncodeQueryParams(params[1..])
  }

  /** `&` when the expanded path already has a query, `?` otherwise. */
  function Separator(uri: string): (r: string)
    ensures r == "&" <==> '?' in uri
    ensures r == "?" <==> '?' !in uri
  {
    if '?' in uri then "&" else "?"
  }

  /** The URL a compiler builds from a list of arguments: the expanded path,
      followed, when there are query parameters, by the separator and the
      encoded query. Fails when a placeholder has no value. */
  function CompileUrl(c: Compiler, args: seq<Param>): Option<string> {
    match Expand(c.pattern, PathMap(c.pathVariables, args))
    case None => None
    case Some(uri) =>
      var q := QueryParams(c.pathVariables, args);
      if |q| == 0 then Some(uri) else Some(uri + Separator(uri) + EncodeQueryParams(q))
  }

  /** `compile`. */
  method Compile(c: Compiler, args: seq<Param>) returns (url: Option<string>)
    ensures url == CompileUrl(c, args)
  {
    var pathMap, queryParams := Partition(c.pathVariables, args);
    var uri := Expand(c.pattern, pathMap);
    if uri.None? {
      return None;
    }
    if |queryParams| == 0 {
      return uri;
    }
    var separator := if '?' in uri.value then "&" else "?";
    url := Some(uri.value + separator + EncodeQueryParams(queryParams));
  }

  /** Compiling yields a URL exactly when the pattern is feasible for the
      arguments: `canCompile` is the test that expansion will find a value
      for every placeholder. */
  lemma CompileUrlDefined(c: Compiler, args: seq<Param>)
    ensures CompileUrl(c, args).Some? <==> CanCompile(c, args)
  {
    ExpandDefined(c.pattern, PathMap(c.pathVariables, args));
    PathMapKeys(c.pathVariables, args);
  }

  /** A pattern without placeholders can always be compiled: it is the URL
      as it stands, and every argument goes to the query, in order. */
  lemma CompileUrlWithoutVariables(c: Compiler, args: seq<Param>)
    requires c.pathVariables == []
    ensures CanCompile(c, args)
    ensures CompileUrl(c, args)
      == if args == [] then Some(c.pattern)
         else Some(c.pattern + Separator(c.pattern) + EncodeQueryParams(args))
  {
    PathMapKeys([], args);
    ExpandWithoutVariables(c.pattern, PathMap([], args));
    QueryParamsAllKept([], args);
  }

  /** When no argument is a query parameter, the URL is the expanded pattern
      and nothing more. */
  lemma CompileUrlWithoutQuery(c: Compiler, args: seq<Param>)
    requires forall i :: 0 <= i < |args| ==> args[i].name in c.pathVariables
    ensures CompileUrl(c, args) == Expand(c.pattern, PathMap(c.pathVariables, args))
  {
    CompileUrlDefined(c, args);
    QueryParamsNoneKept(c.pathVariables, args);
  }

  /** When the expanded path has no `?`, the first `?` of the URL is the one
      the compiler inserted: before it is the path, after it the encoded query
      parameters. A parser splitting the URL there gets both parts back. */
  lemma CompileUrlSplitsAtQuery(c: Compiler, args: seq<Param>, uri: string)
    requires Expand(c.pattern, PathMap(c.pathVariables, args)) == Some(uri)
    requires QueryParams(c.pathVariables, args) != []
    requires '?' !in uri
    ensures CompileUrl(c, args).Some?
    ensures var url := CompileUrl(c, args).value;
      && |uri| < |url| && url[..|uri|] == uri && url[|uri|] == '?'
      && url[|uri| + 1..] == EncodeQueryParams(QueryParams(c.pathVariables, args))
  {
    var url := CompileUrl(c, args).value;
    assert url == uri + "?" + EncodeQueryParams(QueryParams(c.pathVariables, args));
    assert url[..|uri|] == uri;
  }

  /** With a query already in the expanded path, the parameters are appended
      after a `&`. */
  lemma CompileUrlExtendsQuery(c: Compiler, args: seq<Param>, uri: string)
    requires Expand(c.pattern, PathMap(c.pathVariables, args)) == Some(uri)
    requires QueryParams(c.pathVariables, args) != []
    requires '?' in uri
    ensures CompileUrl(c, args) == Some(uri + "&" + EncodeQueryParams(QueryParams(c.pathVariables, args)))
  {
  }
}
