/** The routing table of the sample application (a `main` controller with
    `index`, a `user` controller with `list`, `show` and `edit`) and the URLs
    the router gives for it. The patterns are those the framework hands over
    once it has joined the controller's `/user` with each method's own.

    Each URL is stated for any registry holding the entry it reads, with
    the compilers of the sample's patterns; `SampleRegistry` shows that
    registering the sample's handlers gives such a registry. */
module Scenarios {
  import opened Wrappers
  import opened Patterns
  import opened RouterInformation
  import opened Router

  function SampleMappings(): seq<Mapping> {
    [ Mapping("main", "index", ["/"]),
      Mapping("user", "list", ["/user/"]),
      Mapping("user", "show", ["/user/{id}"]),
      Mapping("user", "edit", ["/user/{id}/edit", "/user/new/edit"]) ]
  }

  /** The keys of the four handlers. */
  lemma SampleEndpoints(ms: seq<Mapping>)
    requires ms == SampleMappings()
    ensures |ms| == 4
    ensures EndpointKey(ms[0]) == "main.index" && EndpointKey(ms[1]) == "user.list"
    ensures EndpointKey(ms[2]) == "user.show" && EndpointKey(ms[3]) == "user.edit"
  {
  }

  /** The four handlers register without a clash. */
  lemma SampleAccepted(ms: seq<Mapping>)
    requires ms == SampleMappings()
    ensures Register(map[], ms).duplicate.None?
  {
    SampleEndpoints(ms);
    forall i, j | 0 <= i < j < |ms|
      ensures EndpointKey(ms[i]) != EndpointKey(ms[j])
    {
      assert i == 0 || i == 1 || i == 2;
      assert j == 1 || j == 2 || j == 3;
    }
    RegisterSucceeds(map[], ms);
  }

  /** The sample's keys: one per handler. */
  lemma SampleKeys(ms: seq<Mapping>)
    requires ms == SampleMappings()
    ensures KeysOf(ms) == {"main.index", "user.list", "user.show", "user.edit"}
  {
    SampleEndpoints(ms);
    assert ms[1..][1..][1..][1..] == [];
  }

  /** The four handlers register without a clash, each under its own key
      with one compiler per pattern. */
  lemma SampleRegistry(ms: seq<Mapping>)
    requires ms == SampleMappings()
    ensures Register(map[], ms).duplicate.None?
    ensures var routes := Register(map[], ms).routes;
      && routes.Keys == {"main.index", "user.list", "user.show", "user.edit"}
      && RegisteredWith(routes, "main.index", ["/"])
      && RegisteredWith(routes, "user.list", ["/user/"])
      && RegisteredWith(routes, "user.show", ["/user/{id}"])
      && RegisteredWith(routes, "user.edit", ["/user/{id}/edit", "/user/new/edit"])
  {
    SampleAccepted(ms);
    SampleKeys(ms);
    RegisterKeys(map[], ms);
    SampleEndpoints(ms);
    RegisterRegistersWith(map[], ms, 0);
    RegisterRegistersWith(map[], ms, 1);
    RegisterRegistersWith(map[], ms, 2);
    RegisterRegistersWith(map[], ms, 3);
  }

  /** When the `i`-th compiler is the first feasible one and the arguments
      ask for no external URL, the result is what that compiler builds. */
  lemma ResolvesTo(routes: Registry, endpoint: string, args: seq<Arg>, current: ReverserRouterInformation,
                   i: nat, url: string)
    requires !IsRelative(endpoint) && endpoint in routes && i < |routes[endpoint]|
    requires forall j :: 0 <= j < i ==> !CanCompile(routes[endpoint][j], Params(args))
    requires CanCompile(routes[endpoint][i], Params(args))
    requires CompileUrl(routes[endpoint][i], Params(args)) == Some(url)
    requires !IsExternal(args)
    ensures Resolve(routes, endpoint, args, current) == Success(url)
  {
    ResolveFirstFit(routes, endpoint, args, current, i);
    assert "" + url == url;
  }

  /** The first pattern of `user.edit` needs `id`. */
  lemma EditNeedsId(c: Compiler)
    requires c.pattern == "/user/{id}/edit"
    ensures !CanCompile(c, [])
  {
    EditPatternVariables(c.pattern);
    assert "id" in c.pathVariables;
  }

  /** `/`, `/user/` and `/user/new/edit` have no placeholder, and no argument
      leaves them as they are. */
  lemma CompileBare(c: Compiler, pattern: string)
    requires pattern == "/" || pattern == "/user/" || pattern == "/user/new/edit"
    requires c.pattern == pattern
    ensures CanCompile(c, [])
    ensures CompileUrl(c, []) == Some(pattern)
  {
    NoCloseNoVariables(c.pattern);
    CompileUrlWithoutVariables(c, []);
  }

  /** `urlFor("main.index")` is `/`. */
  lemma Index(routes: Registry, current: ReverserRouterInformation)
    requires RegisteredWith(routes, "main.index", ["/"])
    ensures Resolve(routes, "main.index", [], current) == Success("/")
  {
    CompileBare(routes["main.index"][0], "/");
    assert Params([]) == [];
    ResolvesTo(routes, "main.index", [], current, 0, "/");
  }

  /** `urlFor("user.list")` is `/user/`. */
  lemma List(routes: Registry, current: ReverserRouterInformation)
    requires RegisteredWith(routes, "user.list", ["/user/"])
    ensures Resolve(routes, "user.list", [], current) == Success("/user/")
  {
    CompileBare(routes["user.list"][0], "/user/");
    assert Params([]) == [];
    ResolvesTo(routes, "user.list", [], current, 0, "/user/");
  }

  /** `urlFor("user.edit")` is `/user/new/edit`: the first pattern needs
      `id`, the second needs nothing. */
  lemma EditWithoutId(routes: Registry, current: ReverserRouterInformation)
    requires RegisteredWith(routes, "user.edit", ["/user/{id}/edit", "/user/new/edit"])
    ensures Resolve(routes, "user.edit", [], current) == Success("/user/new/edit")
  {
    var cs := routes["user.edit"];
    EditNeedsId(cs[0]);
    CompileBare(cs[1], "/user/new/edit");
    assert Params([]) == [];
    ResolvesTo(routes, "user.edit", [], current, 1, "/user/new/edit");
  }

  /** Passing `id` as null gives the same URL as leaving it out. */
  lemma EditWithNullId(routes: Registry, current: ReverserRouterInformation)
    requires RegisteredWith(routes, "user.edit", ["/user/{id}/edit", "/user/new/edit"])
    ensures Resolve(routes, "user.edit", [Arg("id", None)], current) == Success("/user/new/edit")
  {
    EditWithoutId(routes, current);
    ResolveIgnoresNullArgs(routes, "user.edit", [], "id", [], current);
    assert [] + [Arg("id", None)] + [] == [Arg("id", None)];
  }

  /** The placeholder of `/user/{id}/edit` takes the value of `id`. */
  lemma ExpandEdit(s: string, values: map<string, string>)
    requires s == "/user/{id}/edit" && values == map["id" := "12"]
    ensures Expand(s, values) == Some("/user/12/edit")
  {
    assert IsMatch(s, 6, 9);
    FindFromLeftmost(s, 0);
    FindFromMatches(s, 0);
    assert FindFrom(s, 0) == Some(Span(6, 9));
    assert FindFrom(s, 10) == None;
    assert s[7..9] == "id" && values["id"] == "12";
    assert ExpandFrom(s, 10, values) == Some(s[10..]);
    assert ExpandFrom(s, 0, values) == Some(s[..6] + "12" + s[10..]);
    assert s[..6] + "12" + s[10..] == "/user/12/edit";
  }

  /** The placeholder that ends `/user/{id}` takes the value of `id`. */
  lemma ExpandShow(s: string, values: map<string, string>)
    requires s == "/user/{id}" && values == map["id" := "12"]
    ensures Expand(s, values) == Some("/user/12")
  {
    assert IsMatch(s, 6, 9);
    FindFromLeftmost(s, 0);
    FindFromMatches(s, 0);
    assert FindFrom(s, 0) == Some(Span(6, 9));
    assert FindFrom(s, 10) == None;
    assert s[7..9] == "id" && values["id"] == "12";
    assert ExpandFrom(s, 10, values) == Some(s[10..]);
    assert ExpandFrom(s, 0, values) == Some(s[..6] + "12" + s[10..]);
    assert s[..6] + "12" + s[10..] == "/user/12";
  }

  /** With `id` given, a pattern whose only name is `id` takes its value and
      has nothing left for the query. */
  lemma CompileWithId(c: Compiler, params: seq<Param>)
    requires c.pathVariables == ["id"] && params == [Param("id", "12")]
    ensures CanCompile(c, params)
    ensures CompileUrl(c, params) == Expand(c.pattern, map["id" := "12"])
  {
    assert Names(params) == ["id"];
    assert PathMap(["id"], params) == map["id" := "12"];
    assert QueryParams(["id"], params) == [];
  }

  /** `urlFor("user.edit", "id" to 12)` is `/user/12/edit`: the first
      pattern is feasible and takes the value in its placeholder. */
  lemma EditWithId(routes: Registry, current: ReverserRouterInformation)
    requires RegisteredWith(routes, "user.edit", ["/user/{id}/edit", "/user/new/edit"])
    ensures Resolve(routes, "user.edit", [Arg("id", Some("12"))], current) == Success("/user/12/edit")
  {
    var c := routes["user.edit"][0];
    var args := [Arg("id", Some("12"))];
    assert Params(args) == [Param("id", "12")];
    EditPatternVariables(c.pattern);
    CompileWithId(c, Params(args));
    ExpandEdit(c.pattern, map["id" := "12"]);
    ResolvesTo(routes, "user.edit", args, current, 0, "/user/12/edit");
  }

  /** `urlFor("user.show", "id" to 12)` is `/user/12`. */
  lemma ShowWithId(routes: Registry, current: ReverserRouterInformation)
    requires RegisteredWith(routes, "user.show", ["/user/{id}"])
    ensures Resolve(routes, "user.show", [Arg("id", Some("12"))], current) == Success("/user/12")
  {
    var c := routes["user.show"][0];
    var args := [Arg("id", Some("12"))];
    assert Params(args) == [Param("id", "12")];
    ShowPatternVariables(c.pattern);
    CompileWithId(c, Params(args));
    ExpandShow(c.pattern, map["id" := "12"]);
    ResolvesTo(routes, "user.show", args, current, 0, "/user/12");
  }

  /** `/user/` has no placeholder: `page` goes to the query, after a `?`. */
  lemma CompileList(c: Compiler, params: seq<Param>)
    requires c.pattern == "/user/" && params == [Param("page", "10")]
    ensures CanCompile(c, params)
    ensures CompileUrl(c, params) == Some("/user/?page=10")
  {
    NoCloseNoVariables(c.pattern);
    CompileUrlWithoutVariables(c, params);
    assert EncodeQueryParams(params) == "page=10";
    assert Separator(c.pattern) == "?";
    assert c.pattern + "?" + "page=10" == "/user/?page=10";
  }

  /** `urlFor("user.list", "page" to 10)` is `/user/?page=10`: an argument
      no placeholder names becomes a query parameter. */
  lemma ListWithPage(routes: Registry, current: ReverserRouterInformation)
    requires RegisteredWith(routes, "user.list", ["/user/"])
    ensures Resolve(routes, "user.list", [Arg("page", Some("10"))], current) == Success("/user/?page=10")
  {
    var args := [Arg("page", Some("10"))];
    assert Params(args) == [Param("page", "10")];
    CompileList(routes["user.list"][0], Params(args));
    ResolvesTo(routes, "user.list", args, current, 0, "/user/?page=10");
  }

  /** An endpoint the registry lacks is not found. */
  lemma UnknownEndpoint(routes: Registry, current: ReverserRouterInformation)
    requires "nope.nope" !in routes
    ensures Resolve(routes, "nope.nope", [], current) == Failure(NotFound("nope.nope"))
  {
    ResolveFirstFit(routes, "nope.nope", [], current, 0);
  }

  /** Inside a request served by a `user` handler, `.edit` is `user.edit`. */
  lemma RelativeEdit(routes: Registry, current: ReverserRouterInformation)
    requires RegisteredWith(routes, "user.edit", ["/user/{id}/edit", "/user/new/edit"])
    requires current.beanName == "user"
    ensures Resolve(routes, ".edit", [Arg("id", Some("12"))], current) == Success("/user/12/edit")
  {
    var args := [Arg("id", Some("12"))];
    assert current.beanName + ".edit" == "user.edit";
    EditWithId(routes, current);
    assert Resolve(routes, ".edit", args, current) == Resolve(routes, current.beanName + ".edit", args, current);
  }

  /** With `_external` the request's prefix goes in front of the same URL. */
  lemma RelativeExternal(routes: Registry, current: ReverserRouterInformation)
    requires RegisteredWith(routes, "user.edit", ["/user/{id}/edit", "/user/new/edit"])
    requires current.beanName == "user"
    ensures Resolve(routes, ".edit", [Arg("id", Some("12")), Arg(External, Some("true"))], current)
      == Success(current.urlPrefix + "/user/12/edit")
  {
    RelativeEdit(routes, current);
    var args := [Arg("id", Some("12"))];
    assert !IsExternal(args);
    ResolveExternalArg(routes, ".edit", args, "true", current);
    assert args + [Arg(External, Some("true"))] == [Arg("id", Some("12")), Arg(External, Some("true"))];
  }
}
