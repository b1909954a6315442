# crossphp URL routing codec, modelled in Dafny

This project models the URL routing codec of the crossphp framework. It has three parts.

- **Outbound: link building** (`View`). A `"controller[:action]"` spec and a parameter array become a URL under one of the five URL grammars (`type` 1 to 5). The `url` section keys `dot`, `ext`, `index` and `rewrite` shape the result. An optional alias substitution comes from the `router` section. The static memo caches become an explicit `Caches` record that every call threads through: the `url` section per application, the controller part per application and spec, the alias table per application, and the base link `url()` captures. Around this sit the base-link operations `setLinkBase`, `getLinkBase`, `url`, `appUrl` and `cleanLinkCache`, and the template helper `e`.
- **Inbound: descriptor and parameter binding** (`Application`, `ParamCodec`). This covers:
  - `getRouter`, which turns a route into a controller/action/params descriptor;
  - `initController`'s accept/reject rule over an abstract table of controller classes;
  - `getActionConfig`, which merges controller-level and action-level annotation configuration;
  - `setParams`, which binds parameters per grammar (`combineParamsAnnotateConfig`, `oneDimensionalToAssociativeArray`, `stringParamsToAssociativeArray`) and merges the `router_addition_params`;
  - the part of `dispatcher` that chains these.
- **Database spec selection** (`DbModule`): `parseModelParams` and `getModuleConfigFile` of `Module`.

The PHP built-ins the code relies on are written out with their PHP 5/7 behaviour:

- `PhpString`: truthiness, `rtrim` with a character list, `implode`, `explode`, `strpos`, `strcasecmp` and `ucfirst`.
- `PhpArray`: ordered arrays with PHP's key normalisation of canonical decimal strings, plus `array_merge`, `array_shift` and `$a[] = ...`.
- `UrlEncode`: `http_build_query` for flat arrays.

`LinkCache` states when a cached controller part may be served: the `Coherent` invariant. It also holds the stale-link finding below. `LinkExamples` derives the five links of the framework's own link test.

Modules, one file each:

| file | module |
|---|---|
| `wrappers.dfy` | `Wrappers` |
| `php_string.dfy` | `PhpString` |
| `php_array.dfy` | `PhpArray` |
| `php_value.dfy` | `PhpValue` |
| `url_encode.dfy` | `UrlEncode` |
| `param_codec.dfy` | `ParamCodec` |
| `config.dfy` | `Config` |
| `view.dfy` | `View` |
| `link_cache.dfy` | `LinkCache` |
| `application.dfy` | `Application` |
| `db_module.dfy` | `DbModule` |
| `link_examples.dfy` | `LinkExamples` |

Where the prose description of the framework and its code differ, the model follows the code:

- The controller may be empty. Types 1 and 3 then write `"?"` without the `"/"`, because the code tests the controller's truthiness, so `"0"` also drops it.
- The front-controller comparison ignores ASCII case (`strcasecmp`).
- A spec is split at a ':' in position 0 as well, giving an empty controller.
- The controller-part cache can serve stale links; see Findings.

## Model

| member | source | states |
|---|---|---|
| View.ControllerSegment | src/MVC/View.php:855-884 | The controller part succeeds exactly in rewrite mode or for types 1 to 5, and otherwise fails with the unsupported type. In rewrite mode it is the controller itself. Types 1 and 3 give `"?"` (plus `"/"` when the controller is truthy) and the controller when `index` is `index.php` in any case, else `index + "?" + controller`. Types 2, 4 and 5 give `index + "/" + controller`. |
| View.ControllerUriShape | src/MVC/View.php:849-888 | Without an alias for it, the controller part of `controller:action` is the type's prefix, the controller, `dot` and the action. |
| View.AliasLast | src/MVC/View.php:949-963 | In the inverted `router` table, a configured value maps to the key of the last entry holding it. |
| View.AliasAbsent | src/MVC/View.php:949-963 | A key that is no configured value is absent from the alias table. |
| View.ParseControllerAlias | src/MVC/View.php:949-963 | A cached alias table is returned unchanged. Otherwise the table built from the running app's `router` is cached. Every other app's alias table is kept, no other app gains one, and no other cache changes. |
| View.AliasSubstituted | src/MVC/View.php:844-847 | A spec equal to a configured value is replaced, before splitting, by the key of the last entry with that value. |
| View.MakeControllerUri | src/MVC/View.php:835-892 | A cached controller part is served only when the caller allows the cache. When it is not served, the part is computed from the app's cached alias table, or the running app's `router` when none is cached. A computed part is stored under (app, spec). Every other cached part is kept. The `url` section cache and the base link are untouched. |
| View.EncryptAfterBuild | src/MVC/View.php:903-940 | For non-empty params, encryption applies to the whole parameter text. The separator is attached outside the ciphertext. It is `"?"` for type 2 whatever the caller asked, `dot` when a prefix is asked, and nothing otherwise. |
| View.LoadUrlConfig | src/MVC/View.php:772-789 | A cached `url` section is used, and only then may the controller cache be used. Otherwise another app's `init.php` section is loaded when the name check applies, else the running app's section. The loaded section is cached. A missing `init.php` is an error. The controller cache may be used exactly when the section came from the cache. On a cache miss the result is determined exactly: the other app's `init.php` section or `MissingAppConfig` under the name check, and the running app's section without it. |
| View.Assemble | src/MVC/View.php:802-820 | With an empty `ext`, the link is the controller part then the parameter part. Type 2 puts `ext` after a non-empty controller part and before the query. Types 1, 3, 4 and 5 put `ext` last. |
| View.ParamsPart | src/MVC/View.php:792-800 | Empty params give no parameter part. A non-empty scalar is refused. Array params give the separator then the (possibly encrypted) body, and the separator is dropped only when the controller part is empty and the type is not 2. |
| View.MakeUri | src/MVC/View.php:767-823 | The base link is untouched. A cached section stays cached. A successful link leaves the section and the controller part cached. Other cached controller parts are kept. |
| View.NormalizeBase | src/MVC/View.php:545-548 | The base link ends in exactly one '/', preceded by the link with trailing '/' stripped. |
| View.NormalizeBaseIdempotent | src/MVC/View.php:545-548 | Normalising a base link twice equals normalising it once. |
| View.SetLinkBase | src/MVC/View.php:545-548 | The view's base link becomes the normalised link. The caches are unchanged. |
| View.GetLinkBase | src/MVC/View.php:516-523 | A base link already set is returned unchanged. Otherwise the normalised `full_request` is returned and stored on the view. |
| View.Url | src/MVC/View.php:120-133 | The base link is captured once and never replaced. A null spec with null params gives the base link alone. Any other link starts with the captured base link. On the first call the captured base is `getLinkBase()`. Any other link is exactly that base followed by `makeUri` for the running app, with `makeUri`'s caches kept. |
| View.UrlIgnoresLaterSetLinkBase | src/MVC/View.php:120-133 | Once the base link is captured, a later `setLinkBase` does not change any link `url` gives. |
| View.UrlFreshBase | src/MVC/View.php:120-133 | On a fresh view, `url()` with null controller and params is the normalised `full_request`. |
| View.AppUrl | src/MVC/View.php:482-491 | A null spec with null params gives the normalised base link alone, with the caches unchanged. Any other link is exactly the normalised base link followed by `makeUri` for `app` with the name check on, and the caches are `makeUri`'s. |
| View.EGet | src/MVC/View.php:398-405 | With distinct keys, `e` gives the value stored under the normalised key unless it is null. It gives the default when the key is absent or its value is null. |
| LinkCache.MakeControllerUriCoherent | src/MVC/View.php:835-892 | Under `Coherent` caches, the controller part returned, cached or not, is the one computed afresh under the app's cached section and alias table. The caches stay coherent. |
| LinkCache.LoadUrlConfigCoherent | src/MVC/View.php:772-789 | Loading a `url` section keeps the caches coherent. |
| LinkCache.AppUrlOtherApp | src/MVC/View.php:482-491 | A link into another app whose `url` section is not cached is built from that app's own `init.php` section under the normalised base. When that app has no `init.php` it is `MissingAppConfig`. |
| LinkCache.FreshSectionBypassesCache | src/MVC/View.php:772-793 | With any caches, when the app's `url` section is not cached, `makeUri` ignores the controller cache: the link is the one computed afresh under the section just loaded and the alias table in use. |
| LinkCache.MakeUriCoherent | src/MVC/View.php:767-823 | Under `Coherent` caches, `makeUri` returns exactly the link computed afresh under the section it uses and the alias table in use. The caches stay coherent. |
| LinkCache.CleanLinkCacheAsWritten | src/MVC/View.php:496-499 | Cleaning drops the running app's `url` section and nothing else. Every other section, every cached controller part, every alias table and the base link are kept. |
| LinkCache.StaleLinkAfterClean | src/MVC/View.php:496-499 | As written, after a type-1 link to `Main`, a switch to type 2, a cleaning and a link to another spec, the link to `Main` is the type-1 text `"?/Main"`. The type-2 link is `"index.php/Main"`. |
| LinkCache.CleanLinkCache | src/MVC/View.php:496-499 | The corrected cleaning drops the running app's `url` section and every controller part of the running app. Other sections, other apps' parts, the alias tables and the base link are kept. |
| LinkCache.CleanLinkCacheCoherent | src/MVC/View.php:496-499 | The corrected cleaning keeps the caches coherent. |
| LinkCache.CleanThenLink | src/MVC/View.php:496-499 | After the corrected cleaning, the running app's next link is built under its current `url` section. |
| LinkCache.ReloadThenCached | src/MVC/View.php:772-793 | Once the section is gone but a controller part for a spec survives, a link to another spec reloads the section. The next link to the first spec is then the surviving part. |
| ParamCodec.PairExamples | src/Core/Application.php:417-428 | `[1, 2, 3, 4]` pairs into `{1: 2, 3: 4}`, and `[1, 2, 3]` pairs into `{1: 2}`. |
| ParamCodec.PairLoopList | src/Core/Application.php:417-428 | The loop that reads positions `i` and `i + 1` and then `array_shift`s pairs a list exactly as the reference pairing `s[2i] => s[2i+1]` does. |
| ParamCodec.OneDimensionalOfList | src/Core/Application.php:417-428 | `oneDimensionalToAssociativeArray` of a list is the reference pairing of its elements. |
| ParamCodec.PairSpec | src/Core/Application.php:417-428 | The keys of a pairing are exactly the `s[2i]` with `2i+1 < \|s\|`. The last pair with a given key supplies its value. |
| ParamCodec.PairFromUnique | src/Core/Application.php:417-428 | Pairing never produces a duplicate key. |
| ParamCodec.KeyedBodyJoin | src/MVC/View.php:921-927 | For a non-empty array, the type 3/4 loop writes the keys and values joined with `dot`, plus a final `dot`. |
| ParamCodec.PairFlatten | src/Core/Application.php:417-428 | Pairing the flattened entries of an array with distinct, PHP-normal keys rebuilds the array. |
| ParamCodec.KeyedRoundTrip | src/Core/Application.php:406-409 | `stringParamsToAssociativeArray` of the type 3/4 segment gives back the parameters. This needs a non-empty ASCII `dot`, distinct keys, no `dot` character in any key or value, and a non-empty last value. |
| ParamCodec.PositionalRoundTrip | src/MVC/View.php:910-913 | Splitting the type 1/5 segment on `dot` gives back the values in order. |
| ParamCodec.CombineParamsAnnotateConfig | src/Core/Application.php:378-397 | Without names, or with empty params, the params come back unchanged. Otherwise the result is an array, and a scalar gives the empty array, since `foreach` runs over nothing. |
| ParamCodec.BindNamesRef | src/Core/Application.php:385-393 | When the names are distinct and the params have unique keys, the `foreach` equals an entry-by-entry reference. A named entry is renamed in place, and every other entry gets the next integer key in order. |
| ParamCodec.CombineArray | src/Core/Application.php:378-397 | For any non-empty array with unique keys and distinct names, the result has the same length. An entry whose key `k` has a name is found under `names[k]` with its value. The integer-keyed values are exactly the unnamed entries' values, in order. |
| ParamCodec.CombineList | src/Core/Application.php:378-397 | With distinct names, the first values of a list take the names in order. The values beyond the names are appended with keys 0, 1, 2, ... |
| UrlEncode.EncodeUnreserved | src/MVC/View.php:915-919 | A text made of unreserved characters is its own URL encoding. |
| UrlEncode.QueryStringSplits | src/MVC/View.php:915-919 | The type 2 query string splits on '&' into one piece per entry. Each piece splits on '=' into the encoded key and the encoded value. |
| PhpString.SplitSpec | src/MVC/View.php:849-853 | A spec with a ':' anywhere, position 0 included, splits into the text before the first ':' and a second piece. A spec without ':' is the controller alone, with no action. |
| PhpString.SplitSpecJoin | src/MVC/View.php:849-853 | Splitting undoes writing `head:second` when neither part contains ':'. |
| PhpString.SplitSpecDropsRest | src/MVC/View.php:849-853 | Pieces after the second are dropped. |
| PhpArray.MergeStrKey | src/Core/Application.php:362-368 | Under `array_merge`, a string key takes the second array's value when it has one, else the first array's. |
| PhpArray.MergeIntKeys | src/Core/Application.php:362-368 | Under `array_merge`, the integer-keyed values are the first array's then the second's, renumbered from 0. |
| Application.GetRouter | src/Core/Application.php:91-122 | A string route gets the given args as its params, and its controller is an `ucfirst`'d prefix of the string. An object or array route keeps its action and params. |
| Application.GetRouterSplit | src/Core/Application.php:109-121 | `controller:action` (further ':'-pieces ignored) gives the `ucfirst`'d controller, the action and the args. |
| Application.GetRouterDefaultAction | src/Core/Application.php:109-121 | A string without ':', or with a ':' in front, is the `ucfirst`'d controller alone with action `index`. |
| Application.InitController | src/Core/Application.php:154-199 | The order of refusals is: a missing controller, an abstract controller, an unresolvable action, and a method that is not public or is abstract. Acceptance holds exactly when none applies. Without a truthy action no method is checked. A controller annotation, when present, is stored even when the action is then refused. An accepted action stores the resolved method's annotation. In every other case the stored action annotation is unchanged. |
| Application.DeclaredMethodShadowsCall | src/Core/Application.php:179-196 | A declared method is the one checked even when `__call` exists. A private or abstract one is refused, not routed to `__call`. |
| Application.UndeclaredActionUsesCall | src/Core/Application.php:179-196 | An undeclared action is accepted exactly when a callable `__call` exists, and then `__call`'s annotation is stored. |
| Application.GetActionConfig | src/Core/Application.php:564-576 | An empty controller configuration gives the action's configuration. A non-empty one that cannot be merged as arrays is returned alone. |
| Application.ActionConfigMerge | src/Core/Application.php:564-576 | When both configurations are arrays, a string key takes the action's value if the action sets it, else the controller's. The integer-keyed values are the controller's then the action's, renumbered. |
| Application.NamesOutside | src/Core/Application.php:338-346 | The kept annotation names are exactly those that are not keys of the addition parameters. |
| Application.NamesOutsidePositions | src/Core/Application.php:338-346 | The kept names are the names at a strictly increasing list of positions, so they keep their order. Every position whose name is not supplied is on that list. |
| Application.NamesOutsideAppend | src/Core/Application.php:338-346 | The names of a concatenation are filtered piece by piece. |
| Application.DistinctNamesOutside | src/Core/Application.php:338-346 | Distinct annotation names stay distinct after the supplied ones are dropped. |
| Application.BindParams | src/Core/Application.php:335-360 | Types other than 1, 3, 4 and 5 keep the params as they are. For types 3 and 4, an empty pairing falls back to the raw params. |
| Application.BindSkipsSuppliedNames | src/Core/Application.php:330-348 | For types 1 and 5 with addition params, a list of values binds its first values to the annotation names the addition params do not supply, in order. The values beyond those names follow as a list keyed 0, 1, 2, ... |
| Application.SetParamsSkipsSuppliedNames | src/Core/Application.php:330-368 | For types 1 and 5 with addition params, after the merge each kept name holds its value. Every other string key keeps the addition's value. The integer-keyed values are the addition's, then the leftover values, renumbered from 0. |
| Application.SetParams | src/Core/Application.php:362-368 | Empty bound params leave exactly the addition params. A non-empty scalar is kept. The result is an array or a truthy scalar. |
| Application.SetParamsMerge | src/Core/Application.php:362-368 | Bound array params win over the addition params under a string key. The integer-keyed values are the addition's then the bound ones', renumbered. |
| Application.SetParamsPositional | src/Core/Application.php:336-348 | For types 1 and 5 without addition params, the first values take the annotation names in order and the rest follow as a list. |
| Application.KeyedRequestRoundTrip | src/Core/Application.php:350-356 | For types 3 and 4, the pieces of the segment link building writes, bound by `setParams`, give back the original string-keyed params. |
| Application.AnnotateExample | tests/MainTest.php:47-52 | Values 1, 2, 3 under the annotation names a, b, c bind to `{a: 1, b: 2, c: 3}`. |
| Application.ParamNames | src/Core/Application.php:228-232 | The annotation names are the `params` entry of an array action configuration. A non-array configuration gives none. |
| Application.Dispatch | src/Core/Application.php:222-233 | An accepted request names an existing, non-abstract controller, and its action configuration is the merged one. Without running the controller, no action is accepted. The outcome is `initController` on the route's controller and action: its error is passed on, and its statics are kept. An accepted request carries the route's controller, the checked action, the merged action configuration, and the route's params bound by `setParams` under that configuration's `params` names. |
| Application.ControllerConfigCarriesOver | src/Core/Application.php:174-177 | A controller without a doc comment leaves the previously stored controller configuration in place. |
| DbModule.ConfigGet | src/MVC/Module.php:138-140 | A missing section reads as null. Without a truthy key, the whole section is read. |
| DbModule.ParseModelParams | src/MVC/Module.php:135-160 | A truthy spec succeeds exactly when `db[type][key]` (or the whole section without a key) is non-empty, and otherwise fails with that spec. Without a spec and without a `default`, the result is `mysql:db` when non-empty, else no database. |
| DbModule.ExplicitSpec | src/MVC/Module.php:138-144 | `type:key` selects the configuration stored under `key` in the section `type`, and is refused when it is empty. |
| DbModule.SpecWithoutKey | src/MVC/Module.php:138-144 | A spec without ':' selects the whole section. |
| DbModule.DefaultFirstEntry | src/MVC/Module.php:146-149 | Without a spec, the first `type => key` pair of `default` selects `db[type][key]`, unchecked. |
| DbModule.FallbackToMysql | src/MVC/Module.php:150-155 | Without a spec and without a `default` entry, `mysql:db` is used when non-empty, else there is no database. |
| DbModule.ModuleConfigFile | src/MVC/Module.php:191-203 | The stored file name wins, then `sys.db_config`, then `db.config.php`. The choice is stored. |
| DbModule.ModuleConfigFileStable | src/MVC/Module.php:191-203 | Once chosen, the file name no longer follows `sys.db_config`. |
| LinkExamples.TestLink | src/MVC/View.php:767-940 | A fresh view's link to `controller:action` with non-empty array params is "/", the grammar's prefix, the controller, `dot`, the action, `"?"` (type 2) or `dot`, and the grammar's parameter text. |
| LinkExamples.MakeLinkTypeOne | tests/MainTest.php:72-74 | The type 1 link is `/?/Main/getUrlSecurityParams/1/2/3`. |
| LinkExamples.MakeLinkTypeTwo | tests/MainTest.php:75-77 | The type 2 link is `/index.php/Main/getUrlSecurityParams?p1=1&p2=2&p3=3`. |
| LinkExamples.MakeLinkTypeThree | tests/MainTest.php:78-80 | The type 3 link is `/?/Main/getUrlSecurityParams/p1/1/p2/2/p3/3`. |
| LinkExamples.MakeLinkTypeFour | tests/MainTest.php:81-83 | The type 4 link is `/index.php/Main/getUrlSecurityParams/p1/1/p2/2/p3/3`. |
| LinkExamples.MakeLinkTypeFive | tests/MainTest.php:85-87 | The type 5 link is `/index.php/Main/getUrlSecurityParams/1/2/3`. |

## Left out

- URL encryption: `urlEncrypt` is not part of this model. It is a function parameter `cipher`, so the encrypted test vectors are not derived.
- `http_build_query` of nested arrays, and of values other than strings: parameters are flat string maps. The percent-encoding covers unreserved characters and `%XX` bytes of UTF-8.
- Reading another app's `init.php`: it is the `Env.initFiles` map from app name to `url` section, and a missing entry is an error.
- The app-name comparison in `makeUri` is PHP's loose `!=`, modelled as string inequality. The `type` switches compare loosely, modelled as integer equality.
- A null controller spec is modelled as the empty spec. Router values and addition parameters are strings.
- `sUrl`, `link` and `slink` are `url` with fixed arguments. `getAppName` is the running app's name in `Env`.
- `initController`: the controller file check, reflection and instantiation become an abstract table of `ControllerInfo`. Doc-comment parsing by `Annotate` (not part of this model) becomes a given `Value`.
- `dispatcher`: only the decision part up to `initParams` is modelled. Request caching (`initRequestCache`: md5, closures, the cache factory), controller instantiation, running the action and response output are left out.
- Application.ParamNames: a `params` annotation that is not an array is read as no names. An array annotation is read as the list of its scalar values, and the names are bound by position in that list. The PHP code looks each name up by the parameter's key (`$annotate_params[$k]`, src/Core/Application.php:387). So an annotation whose keys are not 0, 1, 2, ..., or that holds null or array entries, binds differently from this model.
- DbModule.ConfigGet: `CrossArray::get` is not part of this model. Its behaviour (missing section is null, falsy key reads the whole section) is assumed.
- DbModule.ParseModelParams: a `default` entry that is not an array, or whose first value is an array, is refused as `BadDefault`. The PHP code would go on with whatever `CrossArray::get` made of it.
- View.Url: `$link_base`, `$controller_uri_cache` and `$router_alias_cache` are function statics (src/MVC/View.php:122, 837, 951). PHP before 8.1 keeps a separate copy for each class that inherits the method, and the model keeps a single copy, as for one view class. Only the `url` section cache is a class static shared by every view.
- PhpString.RTrim: a range `a..z` in the character list is not interpreted. Every character of the list is taken literally. This matters only for a configured `dot` that contains `..`, since the other calls trim '/'.
- ParamCodec.OneDimensionalToAssociativeArray: PHP strings are bytes, and the model's strings are characters. For a scalar the model pairs the first two characters, where PHP pairs the first two bytes, so a multibyte first character is read differently. `rtrim` in the same way strips bytes, and for that reason the keyed round trip asks for an ASCII `dot`.
- Application.SetParamsSkipsSuppliedNames: it requires at least one value. With no values the bound params are empty, and `SetParams` gives exactly the addition params, which its own contract states.
- View rendering (templates, output buffering, layers, HTML helpers, JSON/XML output), resource links and the remaining `Module` members are not part of the routing codec.
- The inbound path parser that splits a request path into args is not part of this model. Decoding starts from already-split args.

## Findings

| source | as written | input that shows it | evidently intended | confidence | as-written member | corrected member |
|---|---|---|---|---|---|---|
| src/MVC/View.php:496-499 | `cleanLinkCache` drops only the running app's `url` section. The controller-part cache keeps the parts built under the old section, and `makeUri` serves them on every call after the one that reloads the section. | Link `Main` under type 1, switch the `url` section to type 2, call `cleanLinkCache`, link `Other`, then link `Main` again. The result is `"?/Main"` where type 2 gives `"index.php/Main"`. | Cleaning also drops the app's cached controller parts, so every later link follows the current `url` section. | not executed | LinkCache.StaleLinkAfterClean | LinkCache.CleanLinkCache |
