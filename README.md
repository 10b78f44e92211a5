# Reverse router: a Dafny model

spring-reverse-router turns an endpoint name such as `user.edit` and a list of
named arguments into a URL. At start-up it registers every handler of the
application under `<bean>.<method>`, with one pattern compiler per URL pattern
of the handler. `urlFor` does the following:

- resolves a relative name `.action` against the bean of the request being
  served;
- drops null arguments and takes out the `_external` directive;
- picks the first registered pattern whose placeholders all have an argument;
- expands that pattern and appends the other arguments as a query, with `?`
  or `&`;
- puts the request's URL prefix in front when `_external` was given.

`currentFor` does the same for the endpoint being served.

The project has five files:

- `wrappers.dfy`: `Option`, `Result` and `Outcome`.
- `router_information.dfy` (module `RouterInformation`): the record of the
  request in flight and its endpoint text `<bean>.<method>`.
- `patterns.dfy` (module `Patterns`): the pattern compiler. This covers the
  placeholder scan with the expression `\{([^/]+?)\}`, the feasibility test,
  the split of the arguments into path values and query parameters, the
  expansion and the final URL.
- `router.dfy` (module `Router`): the registry, the argument filters, the
  resolution function `Resolve`, the flat argument lists of the vararg
  overloads, and the `ReverseRouter` class. The class holds the registry as a
  field that `Initialize` fills. Its `UrlFor…` and `CurrentFor…` methods are
  proved against `Resolve`.
- `scenarios.dfy` (module `Scenarios`): the sample application of the test
  suite. It has a `main` controller with `index`, and a `user` controller
  with `list`, `show` and `edit`. The module proves which registry the sample
  gives and which URL each call of the test suite gets.

The placeholder scan models Java's `Matcher.find`:

- `IsMatch` states declaratively what the lazy expression matches.
- `CloseFrom` and `FindFrom` compute the leftmost match from a position.
- `PathVariablesFrom` collects the names of successive `find()` calls.

The constructor's loop (`NewCompiler`), `compile`'s `forEach` (`Partition`),
the two filters of `urlFor` (`NormalizeArgs`) and its loop over the patterns
(`ReverseRouter.UrlFor`) are methods with loops. Each is proved equal to the
function that specifies it.

## Where the code and its description differ

The model follows the code in each case:

- A malformed placeholder raises no error. An unterminated `{`, or a `/`
  inside braces, gives no name (`NoMatchNoVariables`).
- Names are not deduplicated. `/{a}/{a}` gives `a` twice
  (`RepeatedPatternVariables`).
- A relative name is completed with the current bean name. The scope of the
  endpoint text is used only where the two coincide, which is when the bean
  name has no `.` (`ResolveRelative`).
- `ReverserRouterInformation.kt:3` declares only `beanName` and
  `methodName`. `reverseRouter.kt:112` builds the record with five values and
  `reverseRouter.kt:170` reads `urlPrefix`. So the record also carries the
  bound path variables, the requested URL and the URL prefix.

## Model

| member | source | states |
|---|---|---|
| RouterInformation.EndpointOf | src/main/kotlin/kr/redo/reverseRouter/ReverserRouterInformation.kt:4 | The endpoint text is one character longer than the two names. It starts with the bean name, has `.` right after it and ends with the method name. |
| RouterInformation.ReverserRouterInformation.Endpoint | src/main/kotlin/kr/redo/reverseRouter/ReverserRouterInformation.kt:4 | The record's endpoint is its bean name, a `.` and its method name, with the length of the two plus one. |
| RouterInformation.EndpointDependsOnNamesOnly | src/main/kotlin/kr/redo/reverseRouter/ReverserRouterInformation.kt:3-4 | Two records with the same bean and method names have the same endpoint, whatever else they hold. |
| RouterInformation.ScopeOf | src/main/kotlin/kr/redo/reverseRouter/reverseRouter.kt:152-153 | The scope of an endpoint text has no `.`. It is a prefix of the text, and a `.` follows it unless it is the whole text. |
| RouterInformation.ScopeOfEndpoint | src/main/kotlin/kr/redo/reverseRouter/ReverserRouterInformation.kt:4 | When the bean name has no `.`, the scope of the endpoint is the bean name, the text relative resolution prepends. |
| Patterns.IsMatch | src/main/kotlin/kr/redo/reverseRouter/reverseRouter.kt:26 | The expression matches from a `{` to a `}` at least two places on, with no `/` between them and no `}` between them except right after the `{`: the lazy quantifier stops at the first `}` that closes a non-empty name. |
| Patterns.MatchUnique | src/main/kotlin/kr/redo/reverseRouter/reverseRouter.kt:26 | The lazy expression matches at most once from a given `{`. |
| Patterns.CloseFrom | src/main/kotlin/kr/redo/reverseRouter/reverseRouter.kt:26 | A closing position found is a `}` at least two places after the `{`, so the name is not empty. |
| Patterns.CloseFromMatch | src/main/kotlin/kr/redo/reverseRouter/reverseRouter.kt:26 | The search for the `}` finds the match that starts at the `{`, or there is none. |
| Patterns.FindFrom | src/main/kotlin/kr/redo/reverseRouter/reverseRouter.kt:35 | What `find()` returns lies after the position: a `{` and a `}` at least two places apart. |
| Patterns.FindFromMatches | src/main/kotlin/kr/redo/reverseRouter/reverseRouter.kt:26-35 | What `find()` returns is a match of `\{([^/]+?)\}`. |
| Patterns.FindFromLeftmost | src/main/kotlin/kr/redo/reverseRouter/reverseRouter.kt:26-35 | No match starts between the position and what `find()` returns. When it returns nothing, there is no match at all from the position on. |
| Patterns.PathVariablesFrom | src/main/kotlin/kr/redo/reverseRouter/reverseRouter.kt:33-37 | The names captured by successive `find()` calls from a position on, left to right, each call resuming after the previous match, repeats kept. |
| Patterns.PathVariables | src/main/kotlin/kr/redo/reverseRouter/reverseRouter.kt:32-38 | The names of a pattern: the scan from its start, as the constructor stores them. |
| Patterns.PathVariablesStep | src/main/kotlin/kr/redo/reverseRouter/reverseRouter.kt:35-36 | One round of the loop adds the captured name, and the scan then goes on after the `}`. |
| Patterns.CaptureHasNoSlash | src/main/kotlin/kr/redo/reverseRouter/reverseRouter.kt:26 | A captured group is a non-empty run without `/`. |
| Patterns.PathVariablesAreMatches | src/main/kotlin/kr/redo/reverseRouter/reverseRouter.kt:33-37 | Every collected name is the group of some match of the expression in the pattern. |
| Patterns.PathVariablesHaveNoSlash | src/main/kotlin/kr/redo/reverseRouter/reverseRouter.kt:26-37 | Every name of a pattern is non-empty and free of `/`. |
| Patterns.NoMatchNoVariables | src/main/kotlin/kr/redo/reverseRouter/reverseRouter.kt:32-38 | A pattern where the expression never matches (an unterminated `{`, a `/` inside braces) has no names and raises nothing. |
| Patterns.NoCloseNoVariables | src/main/kotlin/kr/redo/reverseRouter/reverseRouter.kt:32-38 | A pattern without `}` has no names. |
| Patterns.EditPatternVariables | src/test/kotlin/kr/redo/reverseRouter/reveseRouterTest.kt:46 | `/user/{id}/edit` has exactly the name `id`. |
| Patterns.ShowPatternVariables | src/test/kotlin/kr/redo/reverseRouter/reveseRouterTest.kt:42 | `/user/{id}` has exactly the name `id`. A placeholder may end the pattern. |
| Patterns.RepeatedPatternVariables | src/main/kotlin/kr/redo/reverseRouter/reverseRouter.kt:34-37 | `/{a}/{a}` gives `[a, a]`: names stay in order and repeats are kept. |
| Patterns.CompilerOf | src/main/kotlin/kr/redo/reverseRouter/reverseRouter.kt:24-40 | The compiler keeps its pattern. By its type, its names are exactly those the scan of that pattern finds. |
| Patterns.NewCompiler | src/main/kotlin/kr/redo/reverseRouter/reverseRouter.kt:32-40 | The constructor's `while (matcher.find())` loop collects exactly the pattern's names, in order. |
| Patterns.Names | src/main/kotlin/kr/redo/reverseRouter/reverseRouter.kt:43 | The argument names, one per argument, in order. |
| Patterns.FirstMissing | src/main/kotlin/kr/redo/reverseRouter/reverseRouter.kt:44 | It finds nothing exactly when every name is among the keys. What it finds is a name that the keys lack. |
| Patterns.CanCompile | src/main/kotlin/kr/redo/reverseRouter/reverseRouter.kt:42-45 | The test holds exactly when every placeholder name is among the argument names. |
| Patterns.CanCompileWithMore | src/main/kotlin/kr/redo/reverseRouter/reverseRouter.kt:42-45 | Extra arguments never make a feasible pattern infeasible. |
| Patterns.PathMap | src/main/kotlin/kr/redo/reverseRouter/reverseRouter.kt:48-52 | The path values: each argument whose name is a placeholder name is put under that name, a later one replacing an earlier one. |
| Patterns.QueryParams | src/main/kotlin/kr/redo/reverseRouter/reverseRouter.kt:49-55 | The query list: every argument whose name is no placeholder name, in order, repeats kept. |
| Patterns.PathMapKeys | src/main/kotlin/kr/redo/reverseRouter/reverseRouter.kt:48-52 | The path map's keys are exactly the placeholder names that some argument carries. |
| Patterns.PathMapLastValue | src/main/kotlin/kr/redo/reverseRouter/reverseRouter.kt:50-52 | Under each key, the path map holds the value of the last argument of that name. |
| Patterns.QueryParamsAppend | src/main/kotlin/kr/redo/reverseRouter/reverseRouter.kt:50-55 | The query list of two concatenated argument lists is the concatenation of their query lists, so order is kept. |
| Patterns.QueryParamsMembers | src/main/kotlin/kr/redo/reverseRouter/reverseRouter.kt:50-55 | An argument is in the query list exactly when no placeholder has its name. |
| Patterns.QueryParamsAllKept | src/main/kotlin/kr/redo/reverseRouter/reverseRouter.kt:50-55 | When no argument names a placeholder, the query list is all the arguments, in order, duplicates included. |
| Patterns.QueryParamsNoneKept | src/main/kotlin/kr/redo/reverseRouter/reverseRouter.kt:50-55 | When every argument names a placeholder, the query list is empty. |
| Patterns.Partition | src/main/kotlin/kr/redo/reverseRouter/reverseRouter.kt:48-56 | `compile`'s `forEach` yields the path map and the query list above. |
| Patterns.ExpandFrom | src/main/kotlin/kr/redo/reverseRouter/reverseRouter.kt:57 | From a position: the literal text up to the next match, the value of its name, then the expansion of the rest; no result as soon as a name has no value, where Spring throws. |
| Patterns.Expand | src/main/kotlin/kr/redo/reverseRouter/reverseRouter.kt:57 | The expansion of the whole pattern with the path values. |
| Patterns.ExpandFromDefined | src/main/kotlin/kr/redo/reverseRouter/reverseRouter.kt:57 | Expansion from a position succeeds exactly when every name found from there on has a value. |
| Patterns.ExpandDefined | src/main/kotlin/kr/redo/reverseRouter/reverseRouter.kt:57 | Expansion succeeds exactly when every placeholder of the pattern has a value. |
| Patterns.ExpandStep | src/main/kotlin/kr/redo/reverseRouter/reverseRouter.kt:57 | The expansion is the literal text before the first placeholder, that placeholder's value, then the expansion of the rest. |
| Patterns.ExpandIdentity | src/main/kotlin/kr/redo/reverseRouter/reverseRouter.kt:57 | If each placeholder's value is its own text `{name}`, expansion gives back the pattern, so literal text is left untouched. |
| Patterns.ExpandWithoutVariables | src/main/kotlin/kr/redo/reverseRouter/reverseRouter.kt:57 | A pattern without placeholders expands to itself. |
| Patterns.EncodeQueryParams | src/main/kotlin/kr/redo/reverseRouter/reverseRouter.kt:62 | The query list as `name=value` pairs joined by `&`, in order; empty exactly when the list is. |
| Patterns.Separator | src/main/kotlin/kr/redo/reverseRouter/reverseRouter.kt:61 | `&` exactly when the expanded path already has a `?`, and `?` exactly when it has none. |
| Patterns.CompileUrl | src/main/kotlin/kr/redo/reverseRouter/reverseRouter.kt:47-63 | No URL when expansion with the path values fails; the expanded path alone when the query list is empty; otherwise the path, the separator and the encoded query list. |
| Patterns.Compile | src/main/kotlin/kr/redo/reverseRouter/reverseRouter.kt:47-63 | `compile` returns the URL that `CompileUrl` specifies: the expanded path, plus the separator and the encoded query when there are query parameters. |
| Patterns.CompileUrlDefined | src/main/kotlin/kr/redo/reverseRouter/reverseRouter.kt:42-63 | `compile` yields a URL exactly when `canCompile` holds. |
| Patterns.CompileUrlWithoutVariables | src/main/kotlin/kr/redo/reverseRouter/reverseRouter.kt:42-62 | A pattern without placeholders always compiles. It gives the pattern itself, or the pattern, the separator and all the arguments encoded in order. |
| Patterns.CompileUrlWithoutQuery | src/main/kotlin/kr/redo/reverseRouter/reverseRouter.kt:57-60 | With no query parameter, the URL is exactly the expanded path. |
| Patterns.CompileUrlSplitsAtQuery | src/main/kotlin/kr/redo/reverseRouter/reverseRouter.kt:57-62 | When the expanded path has no `?`, the URL is the path, one `?` and the encoded query, and splitting at the first `?` gives both back. |
| Patterns.CompileUrlExtendsQuery | src/main/kotlin/kr/redo/reverseRouter/reverseRouter.kt:61-62 | When the expanded path already has a `?`, the query is appended after `&`. |
| Router.EndpointKey | src/main/kotlin/kr/redo/reverseRouter/reverseRouter.kt:131-132 | A handler's key is its bean name, a `.` right after it and its method name. |
| Router.CompilersOf | src/main/kotlin/kr/redo/reverseRouter/reverseRouter.kt:136 | One compiler per pattern, in the patterns' order. |
| Router.NewCompilers | src/main/kotlin/kr/redo/reverseRouter/reverseRouter.kt:136 | `patterns.map { PatternCompiler(it) }` builds those compilers. |
| Router.PatternsOfCompilers | src/main/kotlin/kr/redo/reverseRouter/reverseRouter.kt:136 | The compilers built from a list of patterns carry that list back, in order. |
| Router.Register | src/main/kotlin/kr/redo/reverseRouter/reverseRouter.kt:129-137 | Registers the handlers in order, each key holding the compilers of its handler's patterns; stops at the first key already present, reporting it and keeping the entries made before it. |
| Router.RegisterNeverOverwrites | src/main/kotlin/kr/redo/reverseRouter/reverseRouter.kt:134-136 | Registration never removes or replaces an existing entry. |
| Router.RegisterSucceeds | src/main/kotlin/kr/redo/reverseRouter/reverseRouter.kt:129-137 | The duplicate-key assertion never fails exactly when every handler's key is new and no two handlers share a key. |
| Router.RegisterStores | src/main/kotlin/kr/redo/reverseRouter/reverseRouter.kt:131-136 | After a successful registration, each handler's `<bean>.<method>` key holds the compilers of its patterns. |
| Router.RegisterRegistersWith | src/main/kotlin/kr/redo/reverseRouter/reverseRouter.kt:131-136 | After a successful registration, each handler's key holds one compiler per pattern, in the patterns' order. |
| Router.KeysOfMembers | src/main/kotlin/kr/redo/reverseRouter/reverseRouter.kt:131-132 | The handlers' keys are exactly the `<bean>.<method>` texts of the handlers. |
| Router.RegisterKeys | src/main/kotlin/kr/redo/reverseRouter/reverseRouter.kt:129-137 | After a successful registration, the keys are the old keys plus the handlers' keys and nothing else. |
| Router.Params | src/main/kotlin/kr/redo/reverseRouter/reverseRouter.kt:157-165 | No remaining argument is named `_external`. |
| Router.IsExternal | src/main/kotlin/kr/redo/reverseRouter/reverseRouter.kt:158-163 | Some argument named `_external` has a non-null value: the flag the second filter sets. |
| Router.NormalizeArgs | src/main/kotlin/kr/redo/reverseRouter/reverseRouter.kt:155-165 | The two filters return the non-null arguments other than `_external`, in order. The flag is set exactly when some non-null `_external` was given. |
| Router.ParamsMembers | src/main/kotlin/kr/redo/reverseRouter/reverseRouter.kt:157-165 | An argument reaches the patterns exactly when it has a value and is not named `_external`: both directions of the two filters. |
| Router.ParamsAppend | src/main/kotlin/kr/redo/reverseRouter/reverseRouter.kt:157-165 | Filtering respects concatenation of argument lists. |
| Router.NullArgDropped | src/main/kotlin/kr/redo/reverseRouter/reverseRouter.kt:158 | A null argument anywhere in the list changes none of the remaining arguments. |
| Router.NullArgNotExternal | src/main/kotlin/kr/redo/reverseRouter/reverseRouter.kt:158-163 | A null argument, even one named `_external`, does not change the external flag: nulls go before `_external` is read. |
| Router.NullArgIgnored | src/main/kotlin/kr/redo/reverseRouter/reverseRouter.kt:155-165 | A null argument is the same as no argument, for both the parameters and the flag. |
| Router.ExternalArgDirective | src/main/kotlin/kr/redo/reverseRouter/reverseRouter.kt:159-163 | A non-null `_external` sets the flag and reaches no pattern. |
| Router.FirstFit | src/main/kotlin/kr/redo/reverseRouter/reverseRouter.kt:167-171 | It picks a feasible compiler with no feasible one before it. When it picks nothing, none is feasible. |
| Router.FirstFitFrom | src/main/kotlin/kr/redo/reverseRouter/reverseRouter.kt:167-171 | The same, searching from a given index on. |
| Router.PatternsOf | src/main/kotlin/kr/redo/reverseRouter/reverseRouter.kt:173 | The error report lists every pattern of the endpoint, in order. |
| Router.IsRelative | src/main/kotlin/kr/redo/reverseRouter/reverseRouter.kt:152 | An endpoint is relative when it starts with `.`. |
| Router.CanResolveRelative | src/main/kotlin/kr/redo/reverseRouter/reverseRouter.kt:152-153 | The condition under which the rewrite of a relative name ends: the bean name is non-empty and does not start with `.` (proved by `RelativeRewriteEnds`). |
| Router.RewriteRounds | src/main/kotlin/kr/redo/reverseRouter/reverseRouter.kt:152-153 | The endpoint after a number of rounds of the relative rewrite, each putting the bean name in front while the endpoint starts with `.`. |
| Router.RelativeRewriteEnds | src/main/kotlin/kr/redo/reverseRouter/reverseRouter.kt:152-153 | The rewrite of a relative endpoint gives a non-relative one after one round exactly when the bean name is non-empty and does not start with `.`; otherwise every round leaves a relative endpoint, so `urlFor` calls itself without end. |
| Router.Resolve | src/main/kotlin/kr/redo/reverseRouter/reverseRouter.kt:151-174 | `urlFor(endpoint, args)`: a relative name completed with the bean name; then NotFound for an unregistered endpoint; CannotCompile with the endpoint, the filtered arguments and all its patterns when no compiler is feasible; otherwise the first feasible compiler's URL for the non-null, non-`_external` arguments, with `urlPrefix` in front when a non-null `_external` was given. |
| Router.ResolveFirstFit | src/main/kotlin/kr/redo/reverseRouter/reverseRouter.kt:166-173 | An unregistered endpoint fails with NotFound. With no feasible pattern it fails with CannotCompile, giving the endpoint, the filtered arguments and all the patterns. Otherwise it is the URL of the first feasible pattern, prefixed when external. |
| Router.ResolveWithVariableFreePattern | src/main/kotlin/kr/redo/reverseRouter/reverseRouter.kt:167-171 | An endpoint with a pattern that has no placeholders never fails on its arguments. |
| Router.ResolveIgnoresNullArgs | src/main/kotlin/kr/redo/reverseRouter/reverseRouter.kt:155-165 | Passing `(name, null)` resolves like leaving the argument out, `_external` included. |
| Router.ResolveExternalPrefix | src/main/kotlin/kr/redo/reverseRouter/reverseRouter.kt:170 | The request's prefix is put in front exactly when a non-null `_external` is given, and plays no part otherwise. |
| Router.ResolveExternalArg | src/main/kotlin/kr/redo/reverseRouter/reverseRouter.kt:159-170 | Adding a non-null `_external` only puts the prefix in front of the same result. |
| Router.ResolveRelative | src/main/kotlin/kr/redo/reverseRouter/reverseRouter.kt:152-153 | `.action` resolves like `<scope>.action`, the scope being the current endpoint's text before its first `.`. |
| Router.ResolveIgnoresBoundVariables | src/main/kotlin/kr/redo/reverseRouter/reverseRouter.kt:151-174 | Resolution reads nothing from the request's bound path variables or its URL. |
| Router.CurrentUsesOwnPatterns | src/main/kotlin/kr/redo/reverseRouter/reverseRouter.kt:181-183 | The endpoint being served is registered with the compilers of its own handler's patterns. |
| Router.PairsFrom | src/main/kotlin/kr/redo/reverseRouter/reverseRouter.kt:149 | The consecutive pairs of the flat list, with an odd last element dropped. It fails exactly when a name slot holds null. |
| Router.MergeToArrayOfPairs | src/main/kotlin/kr/redo/reverseRouter/reverseRouter.kt:149 | `(name, value)` comes first, then one pair per two elements of `values`, in order, with an odd trailing element dropped. It fails exactly on a null name slot. |
| Router.ResolvePairs | src/main/kotlin/kr/redo/reverseRouter/reverseRouter.kt:144-147 | The flat-list overload: the merged pairs resolved as `urlFor` does, or the merge's NameNotString failure. |
| Router.ReverseRouter.constructor | src/main/kotlin/kr/redo/reverseRouter/reverseRouter.kt:69-73 | A new router is not initialised and its registry is empty. |
| Router.ReverseRouter.Initialize | src/main/kotlin/kr/redo/reverseRouter/reverseRouter.kt:124-138 | The router is marked initialised and the registry becomes the registration of the handlers, in order. It reports DuplicateEndpoint for the first key already present and stops there. |
| Router.ReverseRouter.UrlFor | src/main/kotlin/kr/redo/reverseRouter/reverseRouter.kt:151-174 | `urlFor(endpoint, args)` returns what `Resolve` specifies for the router's registry. |
| Router.ReverseRouter.UrlForEndpoint | src/main/kotlin/kr/redo/reverseRouter/reverseRouter.kt:140-142 | `urlFor(endpoint)` resolves with no arguments. |
| Router.ReverseRouter.UrlForPairs | src/main/kotlin/kr/redo/reverseRouter/reverseRouter.kt:144-147 | `urlFor(endpoint, name, value, values)` resolves the merged pairs, or fails as the merge does. |
| Router.ReverseRouter.CurrentFor | src/main/kotlin/kr/redo/reverseRouter/reverseRouter.kt:181-183 | `currentFor(args)` resolves the current endpoint with the caller's arguments only. |
| Router.ReverseRouter.CurrentForNoArgs | src/main/kotlin/kr/redo/reverseRouter/reverseRouter.kt:185-187 | `currentFor()` resolves the current endpoint with no arguments. |
| Router.ReverseRouter.CurrentForPairs | src/main/kotlin/kr/redo/reverseRouter/reverseRouter.kt:189-191 | `currentFor(name, value, values)` resolves the current endpoint with the merged pairs. |
| Scenarios.SampleEndpoints | src/test/kotlin/kr/redo/reverseRouter/reveseRouterTest.kt:28-48 | The sample's four handlers have the keys `main.index`, `user.list`, `user.show` and `user.edit`. |
| Scenarios.SampleAccepted | src/test/kotlin/kr/redo/reverseRouter/reveseRouterTest.kt:28-48 | The sample's handlers register without a duplicate key. |
| Scenarios.SampleKeys | src/test/kotlin/kr/redo/reverseRouter/reveseRouterTest.kt:28-48 | The sample's keys are exactly those four. |
| Scenarios.SampleRegistry | src/test/kotlin/kr/redo/reverseRouter/reveseRouterTest.kt:28-48 | The sample's registry has exactly the four keys, each with its handler's patterns in order (`user.edit`: `/user/{id}/edit`, then `/user/new/edit`). |
| Scenarios.ResolvesTo | src/main/kotlin/kr/redo/reverseRouter/reverseRouter.kt:167-170 | Without `_external`, the URL is what the first feasible pattern builds. |
| Scenarios.EditNeedsId | src/test/kotlin/kr/redo/reverseRouter/reveseRouterTest.kt:46 | `/user/{id}/edit` cannot compile without `id`. |
| Scenarios.CompileBare | src/test/kotlin/kr/redo/reverseRouter/reveseRouterTest.kt:30-46 | `/`, `/user/` and `/user/new/edit` compile with no arguments to themselves. |
| Scenarios.Index | src/test/kotlin/kr/redo/reverseRouter/reveseRouterTest.kt:82 | `urlFor("main.index")` is `/`. |
| Scenarios.List | src/test/kotlin/kr/redo/reverseRouter/reveseRouterTest.kt:87 | `urlFor("user.list")` is `/user/`. |
| Scenarios.ExpandShow | src/test/kotlin/kr/redo/reverseRouter/reveseRouterTest.kt:88 | `/user/{id}` with `id = 12` expands to `/user/12`. |
| Scenarios.CompileWithId | src/main/kotlin/kr/redo/reverseRouter/reverseRouter.kt:48-60 | For a pattern whose only name is `id`, the argument `id = 12` is feasible, goes to the path and leaves no query. |
| Scenarios.ShowWithId | src/test/kotlin/kr/redo/reverseRouter/reveseRouterTest.kt:88 | `urlFor("user.show", "id" to 12)` is `/user/12`. |
| Scenarios.EditWithoutId | src/test/kotlin/kr/redo/reverseRouter/reveseRouterTest.kt:90 | `urlFor("user.edit")` is `/user/new/edit`: the first pattern needs `id`, so the second is taken. |
| Scenarios.ExpandEdit | src/test/kotlin/kr/redo/reverseRouter/reveseRouterTest.kt:91 | `/user/{id}/edit` with `id = 12` expands to `/user/12/edit`. |
| Scenarios.EditWithId | src/test/kotlin/kr/redo/reverseRouter/reveseRouterTest.kt:91 | `urlFor("user.edit", "id" to 12)` is `/user/12/edit`: the first pattern fits. |
| Scenarios.EditWithNullId | src/test/kotlin/kr/redo/reverseRouter/reveseRouterTest.kt:96 | `urlFor("user.edit", "id" to null)` is `/user/new/edit`. |
| Scenarios.CompileList | src/test/kotlin/kr/redo/reverseRouter/reveseRouterTest.kt:101 | `/user/` with `page = 10` compiles to `/user/?page=10`. |
| Scenarios.ListWithPage | src/test/kotlin/kr/redo/reverseRouter/reveseRouterTest.kt:101 | `urlFor("user.list", "page" to 10)` is `/user/?page=10`: an argument no placeholder names goes to the query after `?`. |
| Scenarios.UnknownEndpoint | src/main/kotlin/kr/redo/reverseRouter/reverseRouter.kt:166 | An endpoint the registry lacks fails with NotFound. |
| Scenarios.RelativeEdit | src/main/kotlin/kr/redo/reverseRouter/reverseRouter.kt:152-153 | Inside a request served by a `user` handler, `.edit` with `id = 12` is `/user/12/edit`. |
| Scenarios.RelativeExternal | src/main/kotlin/kr/redo/reverseRouter/reverseRouter.kt:159-170 | Adding `_external` gives the request's prefix followed by `/user/12/edit`. |

## Left out

- Spring wiring is not modelled: `onApplicationEvent`, `getBean`, and the walk over `RequestMappingHandlerMapping`. The registry takes a plain list of handlers, each with a bean name, a method name and its patterns, as the framework hands them over once it has joined class and method paths.
- `handlerMethod.getMethod() ?: continue` is not modelled: every handler of the input has a method.
- How a handler's bean name is derived (`HandlerMethod.endpoint`, `toVariableName`) is not modelled. The names are inputs, and the utility is not part of this model.
- Servlet and request state is not modelled: the injected request, the `current` getter and its `ConfigurationException`, `preHandle`, and the empty `postHandle` and `afterCompletion`. The record of the request in flight is an explicit parameter.
- `builder`, `builderFor` and `ReverseRouterBuilder` are left out. They only wrap `urlFor`, and the builder is not part of this model.
- `Delegates.lazy` and its `assert(initialized)` are left out; `initialized` is kept as a field that `Initialize` sets.
- Concurrency and per-request isolation are left out.
- Patterns.Expand: Spring's `UriComponents.expand` is modelled as plain substitution of each `{name}`. Its percent-encoding of values and its `{name:regex}` syntax are not modelled. A missing value is `None`, where Spring would throw.
- Patterns.EncodeQueryParams: the `encodeQueryParams` utility is not part of this model. It is modelled as `name=value` pairs joined by `&`, without percent-encoding. Only the separator choice and the order of the pairs are stated about it.
- Patterns.Param: argument values are strings. The `Any.toString` coercion of other values is not modelled.
- Router.MergeToArrayOfPairs: values are strings or null. A null name slot fails with `NameNotString` (Kotlin's failed `as String` cast). A name slot holding a non-string object cannot be expressed.
- Router.ReverseRouter.UrlFor: requires that a relative name be resolvable, meaning the current bean name is non-empty and does not start with `.`. Otherwise the source recurses without end (`RelativeRewriteEnds` proves every round of the rewrite leaves a relative endpoint); that non-termination is not modelled.
- Router.ReverseRouter.CurrentFor and CurrentForNoArgs have the same requirement, because the endpoint being served is itself relative when the bean name is empty or starts with `.`.
- Router.ReverseRouter.CurrentForPairs, Router.ReverseRouter.UrlForPairs and Router.ResolvePairs have that requirement only when the merge of the flat list succeeds. A null name slot fails with `NameNotString` before `urlFor` or `current` is reached, so those calls are covered for every bean name.
- Router.ReverseRouter.Initialize: Kotlin's `assert` is modelled as enabled, so a duplicate key stops registration with `DuplicateEndpoint` and the entries registered before it stay. With assertions disabled the source would overwrite the entry instead.
- Router.RouterError: errors carry the endpoint, the filtered arguments and the pattern list, not the exception message text.
