# Locale resolution and URL-sync field transforms

A verified Dafny model of two small pure pieces of the pro-components
repository:

- **Locale resolution** of the layout package (`Locales`, `locales.dfy`).
  `getLanguage` finds a language tag through a fallback chain. Outside a
  browser (server-side rendering) the tag is `''`. In a browser it is the
  `umi_locale` value from local storage, then the global `g_locale`, then
  `navigator.language`. JavaScript `||` skips null, undefined and the empty
  string at each step. The default export looks the tag up in a four-entry
  table (`zh-CN`, `zh-TW`, `en-US`, `it-IT`) and falls back to the `zh-CN`
  bundle for an unknown tag. The environment is the explicit `Env` input, and
  the bundles are four distinct constructors.
- **URL-sync callbacks** of the form demo (`SyncToUrl`, `sync_to_url.dfy`).
  `syncToUrl(values, type)` adds `createTimeRanger = [startTime, endTime]` when
  `type` is `'get'`. For any other type it sets `expirationTime` to undefined.
  The date-range picker's `transform` turns `[a, b]` into
  `{startTime: a, endTime: b}`. Values are a `map<string, Value>`. `Undefined`
  is a real value, because `key: undefined` in an object literal keeps the key.
  Reading a missing field (`values.startTime`) or an index past the end of an
  array gives `Undefined`.

The chain stops at the first truthy source, recognised or not, and only then
looks the tag up. So an unknown stored tag such as `fr-FR` gives `zh-CN` even
when `g_locale` holds a known tag (`Locales.UnknownStorageShadowsGLocale`).

## Model

| member | source | states |
|---|---|---|
| `Locales.Or` | packages/layout/src/locales/index.ts:27 | JavaScript `a \|\| b` on optional strings yields `a` whenever `a` is truthy, always yields one of its two operands, and the result is truthy exactly when `a` or `b` is |
| `Locales.OrElse` | packages/layout/src/locales/index.ts:24-27 | `a \|\| b` with a string `b` yields `a`'s string whenever `a` is truthy, always yields `b` or `a`'s string, and it is empty only when `a` is falsy and `b` is empty |
| `Locales.OrAssociative` | packages/layout/src/locales/index.ts:27 | `(a \|\| b) \|\| c` equals `a \|\| (b \|\| c)`, so the left-grouped chain means the first truthy of the three |
| `Locales.GetLanguage` | packages/layout/src/locales/index.ts:20-28 | outside a browser the tag is `''`; in a browser a non-empty stored value wins; otherwise a non-empty `g_locale` wins; if both are falsy the navigator language is returned |
| `Locales.FirstTruthy` | packages/layout/src/locales/index.ts:27 | reference fallback chain: the value of the first truthy candidate (every earlier one falsy), or the final default when all candidates are falsy |
| `Locales.GetLanguageIsFallbackChain` | packages/layout/src/locales/index.ts:20-28 | in a browser `getLanguage` equals the chain storage, `g_locale`, navigator language; outside one it equals the empty chain ending in `''` |
| `Locales.SsrIgnoresEnvironment` | packages/layout/src/locales/index.ts:21-25 | outside a browser the result is `''` whatever the storage, global and navigator values are |
| `Locales.GetLanguageFromSource` | packages/layout/src/locales/index.ts:20-28 | the detected tag is always `''` (server side), the stored value, the global flag or the navigator language |
| `Locales.Lookup` | packages/layout/src/locales/index.ts:32-38 | a tag of the table gives exactly that tag's bundle; any other tag gives the `zh-CN` bundle; the result is always one of the table's bundles |
| `Locales.ResolveLocale` | packages/layout/src/locales/index.ts:32-38 | the default export returns the bundle of the detected tag when the table has it, and `zh-CN` otherwise; it is total over every `Env` |
| `Locales.TableInjective` | packages/layout/src/locales/index.ts:7-12 | distinct tags of the table map to distinct bundles |
| `Locales.LookupSurjective` | packages/layout/src/locales/index.ts:7-12 | every bundle of the table can be reached through a tag of the table |
| `Locales.LookupUnknown` | packages/layout/src/locales/index.ts:34-37 | a tag that is not in the table, `''` included, gives the `zh-CN` bundle |
| `Locales.SsrResolvesToDefault` | packages/layout/src/locales/index.ts:23-37 | outside a browser the resolution always gives the `zh-CN` bundle |
| `Locales.StoragePreferenceWins` | packages/layout/src/locales/index.ts:26-35 | with a non-empty stored preference, the bundle depends on that value alone, whatever `g_locale` and the navigator language are |
| `Locales.UnknownStorageShadowsGLocale` | packages/layout/src/locales/index.ts:26-37 | an unknown non-empty stored tag gives `zh-CN` even when a later source holds a known tag |
| `SyncToUrl.FieldUpdate` | packages/form/src/demos/sync-to-url.tsx:20-28 | after `{...values, k: v}` the field `k` reads as `v` and every other field reads as before |
| `SyncToUrl.Sync` | packages/form/src/demos/sync-to-url.tsx:16-30 | on `'get'` the keys gain `createTimeRanger`, which holds `[startTime, endTime]`; on any other kind the keys gain `expirationTime`, which holds `Undefined`; every other key keeps its value in both branches |
| `SyncToUrl.Transform` | packages/form/src/demos/sync-to-url.tsx:44-49 | the result has exactly the keys `startTime` and `endTime`, holding the range's first and second elements; a pair `[a, b]` gives exactly `{startTime: a, endTime: b}` |
| `SyncToUrl.GetOverwritesRange` | packages/form/src/demos/sync-to-url.tsx:20-23 | on `'get'` an existing `createTimeRanger` is overwritten, whatever it held |
| `SyncToUrl.GetIdempotent` | packages/form/src/demos/sync-to-url.tsx:17-23 | applying the read branch twice gives the same map as applying it once |
| `SyncToUrl.WriteIdempotent` | packages/form/src/demos/sync-to-url.tsx:26-29 | applying the write branch twice gives the same map as applying it once |
| `SyncToUrl.WriteKindIrrelevant` | packages/form/src/demos/sync-to-url.tsx:17-29 | every kind other than `'get'` has the same effect |
| `SyncToUrl.WriteThenGetKeepsRange` | packages/form/src/demos/sync-to-url.tsx:17-29 | writing and then reading derives the same `createTimeRanger` as reading directly |
| `SyncToUrl.TransformThenGetRoundTrip` | packages/form/src/demos/sync-to-url.tsx:18-22 | merging `transform([a, b])` (lines 44-49) into any map and then reading gives `createTimeRanger = [a, b]` |
| `SyncToUrl.GetThenTransformRoundTrip` | packages/form/src/demos/sync-to-url.tsx:44-49 | passing the range that a read (lines 18-22) derives back through `transform` gives exactly the original `startTime` and `endTime` |
| `SyncToUrl.GetThenTransformRestores` | packages/form/src/demos/sync-to-url.tsx:44-49 | when both times are present, merging `transform` of the derived range back into the read map changes nothing |

## Left out

- A storage read that throws is not modelled. `window.localStorage.getItem('umi_locale')` is called without a guard, so in a browser that blocks storage the call raises an error and the default export raises it too. `Env.storage` holds only a string or null.
- The implementation of `isBrowser` and the real reads of `window.localStorage`, `window.g_locale` and `navigator.language` are environment access. They are the fields of the `Env` input.
- The contents of the `zh-CN`, `zh-TW`, `en-US` and `it-IT` bundle files are not part of this model. Each bundle is an opaque, distinct constructor. Every bundle object is truthy, so the `if (locales[gLocale])` test is modelled as membership in the table.
- JavaScript prototype lookups through `locales[gLocale]`, for keys such as `toString`, are not modelled. The table is a plain finite map.
- The React rendering of the demo is not modelled: field components, labels, widths, placeholders, tooltips and `initialValues`. It has no behaviour of its own.
- The `onFinish` handler and its `message.success` call are not modelled. They are an asynchronous UI side effect.
- This model does not cover how the form library encodes values into URL query strings or when it calls `syncToUrl` and `transform`. That library is not part of this model.
- The order of keys in the object spread is not modelled, because maps are unordered.
- Transform: the input is always an array (`seq<Value>`). When `transform` is called with `undefined` or `null`, the source would throw, and that case is not modelled.
- The value type distinguishes only undefined and arrays. Every other JavaScript value (strings, dates, numbers, null, nested objects) is an opaque `Other` value, because the callbacks only pass such values through.
