# phpsed/cache in Dafny

phpsed/cache is a Symfony bundle that caches whole controller responses. A
controller method carries a `@Cache` annotation (optionally with `expires` and
an `attributes` whitelist). An event listener then does three things:

- after controller resolution it serves a stored response, if there is one;
- when a request carries `PS-CACHE: PS-CACHE-DISABLE` it deletes that
  request's entry;
- after a successful response it stores the response, unless an entry is
  already there.

The container extension turns the bundle's configuration into the
`phpsed.cache.enabled` and `phpsed.cache.providers` parameters. It refuses to
boot when caching is enabled with no provider.

The model has these modules:

- `Annotation` (annotation.dfy): the `@Cache` object as a class. `getKey` is
  specified by the pure `DeriveKey`: whitelist filter, `http_build_query` with
  `_` between fields, `=` turned into `_`, the `prefix_` in front, then the
  hash. SHA-512 is a function value about which nothing is assumed.
- `Listener` (listener.dfy): `CacheListener` as a class.
  - Its `client` field is the chained adapter, a map from key to entry.
  - Reflection with the annotation reader is one lookup from (class, method)
    to "no such method", "not annotated" or the annotation's settings.
  - `class_exists` is a function value.
  - Each hook is a method proved equal to a pure step function:
    `ControllerStep`, `RequestStep` and `ResponseStep`.
- `Lifecycle` (lifecycle.dfy): what the hooks promise, alone and in sequence.
- `Extension` (extension.dfy): `load` as a method on a container's parameter
  table, proved equal to the pure `LoadEffect`; `getAlias`.
- PHP's own functions, modelled as far as the core uses them:
  - `PhpStrings` (php_strings.dfy): `explode`, `implode`, `trim`;
  - `PhpArrays` (php_arrays.dfy): ordered string arrays, `+` and
    `array_intersect_key` with `array_flip`;
  - `QueryString` (query_string.dfy): `urlencode` over UTF-8 and the flat
    `http_build_query`;
  - `Wrappers` (wrappers.dfy): `null` next to a value.

## Model

| member | source | states |
|---|---|---|
| Annotation.Cache.constructor | src/Annotation/Cache.php:17-30 | a fresh annotation holds the reader's `expires` and `attributes` and no data |
| Annotation.Cache.SetData | src/Annotation/Cache.php:57-84 | after `setData(x)`, `getData()` is `x` and `expires` and `attributes` are unchanged |
| Annotation.Cache.GetKey | src/Annotation/Cache.php:37-52 | the key is `DeriveKey` of the current fields, read without changing any field; the prefix defaults to `''` |
| Annotation.KeyMaterial | src/Annotation/Cache.php:39-48 | the material of array data never contains `=` |
| Annotation.SelectEntries | src/Annotation/Cache.php:43-46 | with no attributes every entry is kept, otherwise exactly the entries whose key is listed |
| Annotation.ReplaceChar | src/Annotation/Cache.php:48 | `str_replace` of one character keeps the length and swaps exactly the matching positions |
| Annotation.FieldMaterial | src/Annotation/Cache.php:48 | one `k=v` field whose sides hold no `=` becomes `k_v` |
| Annotation.QueryMaterial | src/Annotation/Cache.php:48 | after `=` becomes `_`, the query is the `k_v` fields joined by `_` |
| Annotation.ArrayMaterial | src/Annotation/Cache.php:43-48 | array material is `urlencode(k)_urlencode(v)` for each selected entry, joined by `_` |
| Annotation.EmptyDataSameKey | src/Annotation/Cache.php:39-41 | `null`, `''`, `'0'` and the empty array give the same key |
| Annotation.WhitelistIsPrefiltering | src/Annotation/Cache.php:43-45 | the key with whitelist `w` equals the key of the pre-filtered data with no whitelist; filtering twice changes nothing |
| Annotation.WhitelistOfEveryName | src/Annotation/Cache.php:43-46 | a whitelist that names every key of the data gives the same key as no whitelist |
| Annotation.WhitelistOrderIrrelevant | src/Annotation/Cache.php:43-45 | two whitelists with the same names give the same key, whatever their order or repetitions |
| Annotation.SelectionKeepsOrder | src/Annotation/Cache.php:43-46 | selection works entry by entry, so the kept entries stay in the data's order |
| Annotation.ArrayAndTextCollide | src/Annotation/Cache.php:40-48 | the array `[k => v]` and the string `k_v` share a key when `k` and `v` need no escaping |
| Annotation.SameNamesCollide | src/Annotation/Cache.php:48-51 | two arrays with the same names and different values can share a key |
| QueryString.EncodeChar | src/Annotation/Cache.php:48 | one encoded character is never empty and never holds `=`; it is left alone exactly when it is unreserved |
| QueryString.UrlEncode | src/Annotation/Cache.php:48 | `urlencode` output never holds `=` and is no shorter than its input |
| QueryString.BuildQuery | src/Annotation/Cache.php:48 | `http_build_query` of a flat array is empty exactly when the array is |
| QueryString.UrlEncodeUnreserved | src/Annotation/Cache.php:48 | `urlencode` leaves a string of unreserved characters unchanged |
| PhpArrays.KeepListed | src/Annotation/Cache.php:44-45 | `array_intersect_key` with `array_flip` keeps exactly the entries whose key is listed |
| PhpArrays.KeepListedSameKeys | src/Annotation/Cache.php:44-45 | only the set of listed names matters to the filter |
| PhpArrays.KeepListedIdempotent | src/Annotation/Cache.php:44-45 | filtering a second time by the same list changes nothing |
| PhpArrays.KeepListedAppend | src/Annotation/Cache.php:44-45 | the filter of a concatenation is the concatenation of the filters |
| PhpArrays.Union | src/EventListener/CacheListener.php:130 | `$a + $b` starts with all of `a` in order, and holds exactly the entries of `a` and those of `b` whose key `a` lacks |
| PhpArrays.UnionGet | src/EventListener/CacheListener.php:130 | in route params `+` body, a route param wins on a shared name and a body param fills the rest |
| PhpArrays.UnionGetAll | src/EventListener/CacheListener.php:130 | the left-biased lookup of `$a + $b`, for every name at once |
| PhpArrays.UnionKeys | src/EventListener/CacheListener.php:130 | the union holds the names of both arrays, each once |
| PhpStrings.Explode | src/EventListener/CacheListener.php:178 | `explode` always yields at least one part |
| PhpStrings.ImplodeExplode | src/EventListener/CacheListener.php:178 | joining the parts of `explode` with the same separator gives the input back |
| PhpStrings.ExplodeSplitsIffContains | src/EventListener/CacheListener.php:178 | `explode` yields a second part exactly when the separator occurs |
| PhpStrings.ExplodeFirstPiece | src/EventListener/CacheListener.php:178 | the first part of `explode` is a prefix of the input with no occurrence of the separator starting inside it |
| PhpStrings.ExplodeFirstCut | src/EventListener/CacheListener.php:178 | when there is a second part, the separator follows the first part, and the remaining parts are the `explode` of the text after that occurrence |
| PhpStrings.ExplodeAround | src/EventListener/CacheListener.php:233 | splitting `a,b` on `,` gives the parts of `a` followed by the parts of `b` |
| PhpStrings.TrimLeft | src/EventListener/CacheListener.php:233 | the result is a suffix, everything dropped is blank, and the result starts with a kept character |
| PhpStrings.TrimRight | src/EventListener/CacheListener.php:233 | the result is a prefix, everything dropped is blank, and the result ends with a kept character |
| PhpStrings.Trim | src/EventListener/CacheListener.php:233 | `trim` never lengthens a string and leaves it starting and ending with a kept character |
| PhpStrings.TrimLeftPadding | src/EventListener/CacheListener.php:233 | `ltrim` drops blank padding exactly up to the first character it keeps |
| PhpStrings.TrimRightPadding | src/EventListener/CacheListener.php:233 | `rtrim` drops blank padding exactly back to the last character it keeps |
| PhpStrings.TrimKeepsUntrimmable | src/EventListener/CacheListener.php:233 | `trim` leaves a string unchanged when both of its ends are kept characters |
| PhpStrings.TrimStripsPadding | src/EventListener/CacheListener.php:233 | `trim` removes exactly the blank padding around a core it keeps |
| PhpStrings.TrimIdempotent | src/EventListener/CacheListener.php:233 | trimming twice is trimming once |
| Listener.GetController | src/EventListener/CacheListener.php:176-183 | the result is empty or has at least two parts; it is non-empty exactly when `::` occurs, and then its parts joined by `::` give `_controller` back; the class is the text before the first `::`, and the method is the text after it up to the next `::` or the end |
| Listener.Check | src/EventListener/CacheListener.php:146-169 | eligible exactly when all hold: enabled, master request, any response successful, `::` in `_controller`, and the class before it exists |
| Listener.GetAnnotation | src/EventListener/CacheListener.php:191-201 | the lookup is the reader's answer for the first two `::`-separated parts of `_controller`, the class and the method |
| Listener.RequestData | src/EventListener/CacheListener.php:130 | a name's value in the key data is its route param if there is one, else its body param |
| Listener.EventKey | src/EventListener/CacheListener.php:130-132 | every hook's key is the hash of `_route`, `_`, and the selected `urlencode(k)_urlencode(v)` fields of the key data joined by `_` |
| Listener.LowerAscii | src/EventListener/CacheListener.php:231 | header names are lowered letter by letter, other characters kept |
| Listener.CacheHeaderNameIsLowered | src/EventListener/CacheListener.php:231 | `PS-CACHE` is looked up under `ps-cache` |
| Listener.HeaderTokens | src/EventListener/CacheListener.php:233 | one token per comma-separated part, token i being part i trimmed |
| Listener.DisableRequested | src/EventListener/CacheListener.php:231-234 | deletion is requested exactly when the header is present and some comma-separated part trims to exactly `PS-CACHE-DISABLE` |
| Listener.HeaderTokensMention | src/EventListener/CacheListener.php:233-234 | a token is among the header's tokens exactly when some part trims to it |
| Listener.CacheListener.constructor | src/EventListener/CacheListener.php:60-66 | `enabled` is the truth value of the enabled parameter; the store starts with what the adapters hold |
| Listener.CacheListener.GetCache | src/EventListener/CacheListener.php:209-217 | a hit exactly when the key is stored, and then the stored response |
| Listener.CacheListener.SetCache | src/EventListener/CacheListener.php:271-277 | the key now holds the response with its lifetime; every other key is unchanged |
| Listener.CacheListener.PrepareAnnotation | src/EventListener/CacheListener.php:254-256 | the annotation built for a hook yields the key of the route and of route params `+` body, with the annotation's lifetime |
| Listener.CacheListener.OnKernelController | src/EventListener/CacheListener.php:119-139 | the outcome and the new controller are `ControllerStep`'s; only the event's controller can change |
| Listener.CacheListener.OnKernelRequest | src/EventListener/CacheListener.php:225-240 | the outcome and the new store are `RequestStep`'s |
| Listener.CacheListener.OnKernelResponse | src/EventListener/CacheListener.php:248-262 | the outcome and the new store are `ResponseStep`'s |
| Lifecycle.ClosedGateChangesNothing | src/EventListener/CacheListener.php:121-123 | when `check` fails, no hook fails or changes the store or the controller |
| Lifecycle.KeyDependsOnRequestOnly | src/EventListener/CacheListener.php:130-132 | every hook keys a request by its route, route params and body only, with a route param winning over a body param |
| Lifecycle.RequestDataOrder | src/EventListener/CacheListener.php:130 | the key data is the route params in order, then the body params they do not shadow, with names distinct |
| Lifecycle.ControllerServesHits | src/EventListener/CacheListener.php:129-137 | on a hit the controller becomes the stored response; on a miss it stays as it was |
| Lifecycle.RequestDeletesOnlyOnDisable | src/EventListener/CacheListener.php:231-239 | a store change by the request hook means all of these: the gate passed, a disable token was sent, the method is annotated; exactly the request's key was removed |
| Lifecycle.ResponseWritesOnce | src/EventListener/CacheListener.php:257-260 | an existing entry is never overwritten |
| Lifecycle.ResponseTouchesOnlyItsKey | src/EventListener/CacheListener.php:257-277 | afterwards the key holds its earlier entry or the response with the annotation's lifetime; no other key changes |
| Lifecycle.ReadAfterWrite | src/EventListener/CacheListener.php:254-259 | a later controller hook for the same route, params and body serves what the response hook stored, or the entry that was already there |
| Lifecycle.DisableForcesRefresh | src/EventListener/CacheListener.php:234-259 | after the request hook deletes the key, the same request's response is stored fresh |
| Lifecycle.SingleToken | src/EventListener/CacheListener.php:233 | a value without commas is one token, trimmed |
| Lifecycle.TokenBetweenCommas | src/EventListener/CacheListener.php:233 | a comma-free piece between two commas is one of the tokens, trimmed |
| Lifecycle.UntrimmedSingleToken | src/EventListener/CacheListener.php:233 | a value with no commas and no padding is its own single token |
| Lifecycle.TokenFirst | src/EventListener/CacheListener.php:233 | a comma-free first piece is the first token, trimmed |
| Lifecycle.TokenLast | src/EventListener/CacheListener.php:233 | a comma-free last piece is the last token, trimmed |
| Lifecycle.PaddedTokenLast | src/EventListener/CacheListener.php:233 | a padded last token is found with its padding removed |
| Lifecycle.PaddedTokenFound | src/EventListener/CacheListener.php:233 | a padded token between commas is found with its padding removed |
| Lifecycle.DisableHeaderAlone | src/EventListener/CacheListener.php:231-234 | the header `PS-CACHE: PS-CACHE-DISABLE` requests the deletion |
| Lifecycle.DisableTokenAmongOthers | src/EventListener/CacheListener.php:233-234 | the disable token is found among other tokens and with blanks around it |
| Lifecycle.DisableTokenFirst | src/EventListener/CacheListener.php:233-234 | `PS-CACHE-DISABLE, x`, with blanks around the token, is found as the first token |
| Lifecycle.DisableTokenLast | src/EventListener/CacheListener.php:233-234 | `x, PS-CACHE-DISABLE`, with blanks around the token, is found |
| Lifecycle.DisableTokenIsCaseSensitive | src/EventListener/CacheListener.php:234 | a lower-case `ps-cache-disable` does not request the deletion |
| Extension.GetAlias | src/DependencyInjection/PhpsedCacheExtension.php:20-23 | the alias is `phpsed_cache`, not the parameter prefix `phpsed.cache` |
| Extension.Truthy | src/DependencyInjection/PhpsedCacheExtension.php:34 | a value is falsy exactly when it is `null`, `false`, `0`, `''`, `'0'` or the empty array |
| Extension.ValidConfig | src/DependencyInjection/Configuration.php:23-29 | an accepted configuration has no keys but `enabled` and `providers`, no integer or string setting, and no `false` for providers; `enabled` may be a boolean or `null`, and providers a list, `null` or `true` |
| Extension.AllValid | src/DependencyInjection/PhpsedCacheExtension.php:28 | `processConfiguration` accepts the configurations exactly when it accepts each of them |
| Extension.ContainerBuilder.SetParameter | src/DependencyInjection/PhpsedCacheExtension.php:33-35 | `setParameter` maps the name to the value and leaves every other parameter as it was |
| Extension.Setting | src/DependencyInjection/PhpsedCacheExtension.php:32-34 | the first configuration's value for the name, `null` when there is no first configuration or no such key |
| Extension.EnabledSetting | src/DependencyInjection/PhpsedCacheExtension.php:32 | the enabled setting is never `null`: it defaults to `false`, and it is a boolean once validation passed |
| Extension.LoadEffect | src/DependencyInjection/PhpsedCacheExtension.php:27-38 | a configuration the tree refuses fails before anything is written; otherwise the enabled parameter is always written, providers are written exactly when truthy, and it fails exactly when providers are falsy and enabled is strictly `true`, with the message naming the annotation |
| Extension.Load | src/DependencyInjection/PhpsedCacheExtension.php:25-39 | the outcome and the new parameter table are `LoadEffect`'s |
| Extension.OnlyFirstConfigRead | src/DependencyInjection/PhpsedCacheExtension.php:32-34 | once every configuration passes validation, those after the first cannot change what `load` does |
| Extension.EnabledWrittenBeforeFailure | src/DependencyInjection/PhpsedCacheExtension.php:33-37 | in the failing case the enabled parameter is already set to `true`, and nothing else was written |
| Extension.DisabledWithoutProvidersLoads | src/DependencyInjection/PhpsedCacheExtension.php:32-38 | with neither setting present, `load` completes with caching off and no providers parameter |
| Extension.ShorthandsReachLoad | src/DependencyInjection/PhpsedCacheExtension.php:32-38 | `providers: true` is written as the providers parameter with caching off; `null` settings count as absent, so `enabled: true` with `providers: null` fails for want of a provider |
| Extension.LaterConfigCanFail | src/DependencyInjection/PhpsedCacheExtension.php:27-28 | a later configuration the tree refuses makes `load` fail, writing nothing, whatever the first one says |
| Extension.NonBooleanEnabledRefused | src/DependencyInjection/PhpsedCacheExtension.php:27-28 | a non-boolean, non-null `enabled`, such as `'yes'`, is refused before anything is written |

## Left out

- `createAdapters` and the `prune` call in the listener's constructor build Redis and PDO adapters and create a table. That is I/O, so the store starts from given contents.
- The chained adapter's fallback order, expiry clock and pruning are not modelled. An entry records its lifetime, but time never passes, so nothing expires.
- Listener.CacheListener.constructor: the exception `getParameter` throws when `phpsed.cache.providers` was never set (caching disabled without providers) is not modelled.
- The SHA-512 digest is a function value. Every property holds for any hash function, and none relies on the hash being collision-free.
- `http_build_query` is modelled only for flat arrays of string keys and string values. Its rules for nested arrays, `null` values, numeric keys and numeric prefixes are left out.
- `urlencode` is modelled on characters read as UTF-8. Invalid byte sequences cannot occur in the model.
- Reflection, `class_exists` and the Doctrine annotation reader are lookups given as parameters. `getMethod` throwing on a missing method is the `ReflectionFailure` outcome.
- The `if (!$this->client)` early return in `onKernelController` is not modelled: the chained adapter is always an object, so that branch never runs.
- The header bag is a map from lower-cased names to first values. The rest of Symfony's name normalisation (`_` becomes `-`) and multi-valued headers are left out.
- `_controller` and `_route` are taken to be strings, and `_route_params` and the body to be flat string arrays.
- Listener.CacheListener.OnKernelResponse: it requires a response, which the response event always carries.
- Listener.CacheListener.OnKernelController: it requires an event without a response, as the controller event has no `getResponse`.
- Extension.ValidConfig: `processConfiguration` is modelled only as the check that every configuration has no keys but `enabled` and `providers`, a boolean or `null` `enabled`, and providers that are a list, `null` or `true`. A failing check is the `InvalidConfiguration` outcome, with no parameter written. The accepted `null` and `true` forms follow the documented behaviour of Symfony's `canBeEnabled` and array nodes; Symfony itself is not part of this model. Its normalisation is not modelled beyond that: the `true`/`false`/`null` shorthands for a whole configuration, and the merged, defaulted result, which `load` discards in favour of the raw first configuration.
- Extension.LoadEffect and Extension.OnlyFirstConfigRead state the parameter writes and the provider error only for configurations that pass that check; for the others they promise only the `InvalidConfiguration` outcome with the table unchanged.
- The YAML service loading is left out.
- Extension.Setting: reading a missing `providers` key, or reading from an empty configuration list, gives `null`. The PHP warning raised by that read is not modelled.
- `getSubscribedEvents` (a constant wiring table), src/PhpsedCache.php (bundle bootstrap) and the check-then-set race between concurrent requests are left out.
