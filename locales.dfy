/**
 Locale resolution of the layout package: detect a language tag from the
 runtime environment through a short-circuiting fallback chain, then pick the
 translation bundle for that tag from a fixed four-entry table, defaulting to
 the simplified-Chinese bundle.

 The environment (whether the code runs in a browser, the persisted
 `umi_locale` preference, the global `g_locale` flag and the reported
 navigator language) is an explicit input rather than ambient state.
 */
module Locales {

  datatype Option<+T> = None | Some(value: T)

  /** The four translation bundles; their contents are not modelled, only
      that they are four distinct values. */
  datatype Bundle = ZhCN | ZhTW | EnUS | ItIT

  /** What the code reads from its surroundings. `storage` is the result of
      `localStorage.getItem('umi_locale')` (None for null), `gLocale` the
      global flag (None for undefined), `navLang` the navigator language. */
  datatype Env = Env(isBrowser: bool, storage: Option<string>, gLocale: Option<string>, navLang: string)

  /** The tag used when no known tag is detected. */
  const DefaultTag: string := "zh-CN"

  /** The locale table, keyed by language tag. */
  const Table: map<string, Bundle> :=
    map["zh-CN" := ZhCN, "zh-TW" := ZhTW, "en-US" := EnUS, "it-IT" := ItIT]

  // ---------------------------------------------------------------------------
  // JavaScript truthiness of an optional string

  /** A string-or-null/undefined value is truthy iff it is present and non-empty. */
  predicate Truthy(o: Option<string>) {
    o.Some? && o.value != ""
  }

  /** `a || b` where `b` may itself be absent: a truthy left operand wins,
      the result is one of the two operands, and it is truthy exactly when
      one of them is. */
  function Or(a: Option<string>, b: Option<string>): (r: Option<string>)
    ensures Truthy(a) ==> r == a
    ensures r == a || r == b
    ensures Truthy(r) <==> Truthy(a) || Truthy(b)
  {
    if Truthy(a) then a else b
  }

  /** `a || b` where `b` is always a string, so the result is a string: a
      truthy `a` wins, the result is `b` or the string held by `a`, and it is
      empty only when `a` is falsy and `b` is empty. */
  function OrElse(a: Option<string>, b: string): (r: string)
    ensures Truthy(a) ==> r == a.value
    ensures r == b || (a.Some? && r == a.value)
    ensures r != "" <==> Truthy(a) || b != ""
  {
    if Truthy(a) then a.value else b
  }

  /** `||` groups either way: `(a || b) || c` and `a || (b || c)` agree, so the
      left-grouped chain `lang || g_locale || navigator.language` means
      "the first truthy of the three". */
  lemma OrAssociative(a: Option<string>, b: Option<string>, c: string)
    ensures OrElse(Or(a, b), c) == OrElse(a, OrElse(b, c))
  {
  }

  // ---------------------------------------------------------------------------
  // getLanguage

  /** The detected language tag. Outside a browser `lang` is still
      undefined, so `lang || ''` gives the empty string; in a browser the
      stored preference, then the global flag, then the navigator language
      is taken, each skipped when null, undefined or empty. */
  function GetLanguage(env: Env): (lang: string)
    ensures !env.isBrowser ==> lang == ""
    ensures env.isBrowser && Truthy(env.storage) ==> lang == env.storage.value
    ensures env.isBrowser && !Truthy(env.storage) && Truthy(env.gLocale) ==> lang == env.gLocale.value
    ensures env.isBrowser && !Truthy(env.storage) && !Truthy(env.gLocale) ==> lang == env.navLang
  {
    if !env.isBrowser then
      OrElse(None, "")
    else
      OrElse(Or(env.storage, env.gLocale), env.navLang)
  }

  /** No candidate before index `i` is truthy. */
  predicate FalsyBefore(candidates: seq<Option<string>>, i: nat) {
    forall j :: 0 <= j < i && j < |candidates| ==> !Truthy(candidates[j])
  }

  /** Reference definition of an ordered fallback chain: the value of the
      first truthy candidate, or `last` when every candidate is falsy. */
  function FirstTruthy(candidates: seq<Option<string>>, last: string): (r: string)
    ensures (forall i :: 0 <= i < |candidates| ==> !Truthy(candidates[i])) ==> r == last
    ensures forall i :: 0 <= i < |candidates| && Truthy(candidates[i]) && FalsyBefore(candidates, i)
                        ==> r == candidates[i].value
    decreases |candidates|
  {
    if |candidates| == 0 then last
    else if Truthy(candidates[0]) then candidates[0].value
    else
      var rest := FirstTruthy(candidates[1..], last);
      assert forall i :: 1 <= i < |candidates| ==> candidates[i] == candidates[1..][i - 1];
      rest
  }

  /** In a browser, getLanguage is the fallback chain storage, g_locale,
      navigator language; outside one it is the empty chain ending in ''. */
  lemma GetLanguageIsFallbackChain(env: Env)
    ensures env.isBrowser ==> GetLanguage(env) == FirstTruthy([env.storage, env.gLocale], env.navLang)
    ensures !env.isBrowser ==> GetLanguage(env) == FirstTruthy([], "")
  {
  }

  /** Outside a browser nothing else in the environment matters. */
  lemma SsrIgnoresEnvironment(env1: Env, env2: Env)
    requires !env1.isBrowser && !env2.isBrowser
    ensures GetLanguage(env1) == GetLanguage(env2) == ""
  {
  }

  /** The detected tag always comes from one of the sources of the chain. */
  lemma GetLanguageFromSource(env: Env)
    ensures var lang := GetLanguage(env);
            || (lang == "" && !env.isBrowser)
            || (env.storage.Some? && lang == env.storage.value)
            || (env.gLocale.Some? && lang == env.gLocale.value)
            || lang == env.navLang
  {
  }

  // ---------------------------------------------------------------------------
  // The default export: table lookup with the zh-CN fallback

  /** `locales[tag]` when that entry exists (every bundle object is truthy),
      otherwise `locales['zh-CN']`. */
  function Lookup(tag: string): (b: Bundle)
    ensures tag in Table ==> b == Table[tag]
    ensures tag !in Table ==> b == Table[DefaultTag]
    ensures b in Table.Values
  {
    if tag in Table then Table[tag] else Table[DefaultTag]
  }

  /** The bundle chosen for an environment. */
  function ResolveLocale(env: Env): (b: Bundle)
    ensures GetLanguage(env) in Table ==> b == Table[GetLanguage(env)]
    ensures GetLanguage(env) !in Table ==> b == ZhCN
    ensures b in Table.Values
  {
    Lookup(GetLanguage(env))
  }

  /** Distinct tags of the table name distinct bundles, so a known tag's
      bundle identifies the tag. */
  lemma TableInjective(t1: string, t2: string)
    requires t1 in Table && t2 in Table && Table[t1] == Table[t2]
    ensures t1 == t2
  {
  }

  /** Every bundle of the table is reachable by its own tag. */
  lemma {:induction false} LookupSurjective(b: Bundle)
    ensures exists tag :: tag in Table && Lookup(tag) == b
  {
    match b
    case ZhCN => assert Lookup("zh-CN") == b;
    case ZhTW => assert Lookup("zh-TW") == b;
    case EnUS => assert Lookup("en-US") == b;
    case ItIT => assert Lookup("it-IT") == b;
  }

  /** Unknown tags, the empty tag among them, fall back to zh-CN. */
  lemma LookupUnknown(tag: string)
    requires tag !in Table
    ensures Lookup(tag) == ZhCN
  {
  }

  /** Outside a browser the resolution always yields the zh-CN bundle. */
  lemma SsrResolvesToDefault(env: Env)
    requires !env.isBrowser
    ensures ResolveLocale(env) == ZhCN
  {
  }

  /** A non-empty stored preference decides the bundle alone: the global
      flag and the navigator language are never consulted. */
  lemma StoragePreferenceWins(env: Env, gLocale: Option<string>, navLang: string)
    requires env.isBrowser && Truthy(env.storage)
    ensures ResolveLocale(env) == ResolveLocale(env.(gLocale := gLocale, navLang := navLang))
    ensures ResolveLocale(env) == Lookup(env.storage.value)
  {
  }

  /** The chain stops at the first truthy source, recognised or not: an
      unknown stored tag gives zh-CN even when the global flag holds a
      known tag. */
  lemma UnknownStorageShadowsGLocale(env: Env)
    requires env.isBrowser && Truthy(env.storage) && env.storage.value !in Table
    ensures ResolveLocale(env) == ZhCN
  {
  }
}
