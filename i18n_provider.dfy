/** The translation provider of the React front end: English and German
    message maps, dotted-key resolution that stops at arrays, `{name}`
    placeholders filled from parameters, and the current locale with its
    change guard. The message maps are data and are a parameter here. */
module I18nProvider {
  import opened Wrappers
  import opened Strings
  import opened Translations

  /** `DEFAULT_LOCALE`. */
  const DefaultLocale: string := "en"

  /** `Object.keys(messages)`: English first, then German. */
  const SupportedLocales: seq<string> := ["en", "de"]

  // ----- resolveMessage -----

  /** One step of `resolveMessage`: descend only into an object that is not
      an array and has the segment. */
  function Step(current: Option<Value>, segment: string): (r: Option<Value>)
    ensures r.Some? <==> current.Some? && current.value.Dict? && segment in current.value.entries
  {
    if current.Some? && current.value.Dict? && segment in current.value.entries then Some(current.value.entries[segment])
    else None
  }

  function Walk(current: Option<Value>, segments: seq<string>): Option<Value>
    decreases |segments|
  {
    if segments == [] then current else Walk(Step(current, segments[0]), segments[1..])
  }

  /** What `resolveMessage(map, key)` returns. */
  function Resolve(root: Value, key: string): Option<Value>
  {
    Walk(Some(root), Split(key, '.'))
  }

  lemma {:induction false} WalkNone(segments: seq<string>)
    ensures Walk(None, segments) == None
  {
    if segments != [] {
      WalkNone(segments[1..]);
    }
  }

  /** `resolveMessage`: walk the dotted key through nested objects. */
  method ResolveMessage(root: Value, key: string) returns (r: Option<Value>)
    ensures r == Resolve(root, key)
  {
    var segments := Split(key, '.');
    var current := Some(root);
    var i := 0;
    while i < |segments|
      invariant 0 <= i <= |segments|
      invariant Walk(current, segments[i..]) == Resolve(root, key)
    {
      assert segments[i..][1..] == segments[i + 1..];
      if current.Some? && current.value.Dict? && segments[i] in current.value.entries {
        current := Some(current.value.entries[segments[i]]);
      } else {
        WalkNone(segments[i + 1..]);
        return None;
      }
      i := i + 1;
    }
    r := current;
  }

  /** No key reaches into an array: every resolution that passes through
      an array finds nothing, so array elements cannot be addressed. */
  lemma RefusesArrays(items: seq<Value>, key: string)
    ensures Resolve(Arr(items), key) == None
  {
    var segments := Split(key, '.');
    WalkNone(segments[1..]);
  }

  /** A key without dots reads the top-level entry. */
  lemma TopLevelMessage(m: map<string, Value>, key: string)
    requires '.' !in key
    ensures Resolve(Dict(m), key) == (if key in m then Some(m[key]) else None)
  {
    SplitNone(key, '.');
    assert Walk(Some(Dict(m)), [key]) == Walk(Step(Some(Dict(m)), key), []);
  }

  // ----- String.prototype.replace with a string pattern -----

  /** The first position at or after `from` where `pattern` occurs. */
  function FirstOccurrenceFrom(s: string, pattern: string, from: nat): (r: Option<nat>)
    requires from <= |s| + 1
    ensures r.Some? ==> from <= r.value && OccursAt(s, pattern, r.value)
                        && forall j :: from <= j < r.value ==> !OccursAt(s, pattern, j)
    ensures r.None? ==> forall j :: from <= j ==> !OccursAt(s, pattern, j)
    decreases |s| + 1 - from
  {
    if from > |s| - |pattern| then None
    else if s[from..from + |pattern|] == pattern then Some(from)
    else FirstOccurrenceFrom(s, pattern, from + 1)
  }

  /** `s.indexOf(pattern)`, with `None` for -1. */
  function FirstOccurrence(s: string, pattern: string): (r: Option<nat>)
    ensures r.Some? ==> OccursAt(s, pattern, r.value) && forall j :: 0 <= j < r.value ==> !OccursAt(s, pattern, j)
    ensures r.None? ==> forall j :: 0 <= j ==> !OccursAt(s, pattern, j)
  {
    FirstOccurrenceFrom(s, pattern, 0)
  }

  /** The replacement text with its `$` patterns expanded, for a match
      without capture groups: `$$` is a dollar sign, `$&` the match, `` $` ``
      what precedes it and `$'` what follows it; any other `$` is literal. */
  function Substitute(replacement: string, matched: string, before: string, after: string): string
    decreases |replacement|
  {
    if replacement == [] then []
    else if |replacement| >= 2 && replacement[0] == '$' && replacement[1] == '$' then
      "$" + Substitute(replacement[2..], matched, before, after)
    else if |replacement| >= 2 && replacement[0] == '$' && replacement[1] == '&' then
      matched + Substitute(replacement[2..], matched, before, after)
    else if |replacement| >= 2 && replacement[0] == '$' && replacement[1] == '`' then
      before + Substitute(replacement[2..], matched, before, after)
    else if |replacement| >= 2 && replacement[0] == '$' && replacement[1] == '\'' then
      after + Substitute(replacement[2..], matched, before, after)
    else
      [replacement[0]] + Substitute(replacement[1..], matched, before, after)
  }

  /** A replacement without a dollar sign is inserted as it is. */
  lemma {:induction false} SubstitutePlain(replacement: string, matched: string, before: string, after: string)
    requires '$' !in replacement
    ensures Substitute(replacement, matched, before, after) == replacement
    decreases |replacement|
  {
    if replacement != [] {
      assert replacement[1..] + [] == replacement[1..];
      assert '$' !in replacement[1..] by {
        forall c | c in replacement[1..] ensures c != '$' {
          assert c in replacement;
        }
      }
      SubstitutePlain(replacement[1..], matched, before, after);
      assert [replacement[0]] + replacement[1..] == replacement;
    }
  }

  /** `s.replace(pattern, replacement)`: only the first occurrence is
      replaced; without one, `s` is returned. */
  function ReplaceFirst(s: string, pattern: string, replacement: string): (r: string)
    ensures FirstOccurrence(s, pattern).None? ==> r == s
    ensures forall i :: FirstOccursAt(s, pattern, i) ==>
              r == s[..i] + Substitute(replacement, pattern, s[..i], s[i + |pattern|..]) + s[i + |pattern|..]
  {
    match FirstOccurrence(s, pattern)
    case None => s
    case Some(i) =>
      FirstOccurrenceUnique(s, pattern, i);
      s[..i] + Substitute(replacement, pattern, s[..i], s[i + |pattern|..]) + s[i + |pattern|..]
  }

  /** `pattern` occurs at `i` and nowhere before. */
  predicate FirstOccursAt(s: string, pattern: string, i: int)
  {
    OccursAt(s, pattern, i) && forall j :: 0 <= j < i ==> !OccursAt(s, pattern, j)
  }

  /** There is only one first occurrence. */
  lemma FirstOccurrenceUnique(s: string, pattern: string, k: nat)
    requires FirstOccursAt(s, pattern, k)
    ensures forall i :: FirstOccursAt(s, pattern, i) ==> i == k
  {
  }

  /** A parameter value: a string, or an integer rendered in decimal. */
  datatype Param = Text(text: string) | Number(number: int)

  /** `String(paramValue)`. */
  function ParamText(p: Param): string
  {
    match p
    case Text(s) => s
    case Number(n) => IntToString(n)
  }

  /** `{name}`. */
  function Placeholder(name: string): (r: string)
    ensures |r| == |name| + 2 && r[0] == '{'
  {
    "{" + name + "}"
  }

  /** The `reduce` of `formatMessage`: each parameter, in entry order,
      replaces the first occurrence of its placeholder in what the earlier
      ones left. A message without braces has no placeholder to fill, so the
      parameters leave it as it is. */
  function ApplyParams(text: string, params: seq<(string, Param)>): (r: string)
    ensures '{' !in text ==> r == text
    decreases |params|
  {
    if params == [] then text
    else
      var pattern := Placeholder(params[0].0);
      assert '{' !in text ==> FirstOccurrence(text, pattern).None?;
      ApplyParams(ReplaceFirst(text, pattern, ParamText(params[0].1)), params[1..])
  }

  /** `formatMessage(value, params)`: a non-string value, or no parameters,
      is returned as it is (the empty string for nothing); a string has its
      placeholders filled. */
  function FormatMessage(value: Option<Value>, params: Option<seq<(string, Param)>>): (r: Value)
    ensures value.None? ==> r == Str("")
    ensures value.Some? && (!value.value.Str? || params.None?) ==> r == value.value
    ensures value.Some? && value.value.Str? && params.Some? ==> r == Str(ApplyParams(value.value.text, params.value))
  {
    if value.None? then Str("")
    else if !value.value.Str? || params.None? then value.value
    else Str(ApplyParams(value.value.text, params.value))
  }

  /** A single parameter replaces its placeholder where it first occurs;
      a value without a dollar sign goes in verbatim. */
  lemma OneParam(before: string, name: string, after: string, value: string)
    requires '{' !in before && '$' !in value
    ensures ApplyParams(before + Placeholder(name) + after, [(name, Text(value))]) == before + value + after
  {
    var text := before + Placeholder(name) + after;
    var pattern := Placeholder(name);
    assert OccursAt(text, pattern, |before|) by {
      assert text[|before|..|before| + |pattern|] == pattern;
    }
    var i := FirstOccurrence(text, pattern).value;
    assert i == |before|;
    assert text[..i] == before;
    assert text[i + |pattern|..] == after;
    SubstitutePlain(value, pattern, before, after);
  }

  /** `$&` in a parameter value puts the placeholder itself back, so a
      value is not always inserted verbatim. */
  lemma DollarAmpersandKeepsPlaceholder()
    ensures ApplyParams("{x}", [("x", Text("$&"))]) == "{x}"
  {
    var pattern := Placeholder("x");
    assert OccursAt("{x}", pattern, 0);
    assert FirstOccurrence("{x}", pattern) == Some(0);
    assert Substitute("$&", "{x}", "", "") == "{x}" + Substitute([], "{x}", "", "");
  }

  // ----- The provider -----

  /** The provider state: the current locale, the ref that mirrors it for
      the change guard, and the locale last written to storage. */
  class LocaleState {
    const messages: map<string, Value>
    var locale: string
    var localeRef: string
    var persisted: Option<string>

    predicate Valid()
      reads this
    {
      messages.Keys == {"en", "de"} && locale in SupportedLocales && localeRef == locale && persisted == Some(locale)
    }

    /** Mounting: `initialLocale ?? getInitialLocale()`, then the persisting
        effect writes the locale and aligns the ref. */
    constructor (messages: map<string, Value>, initialLocale: Option<string>)
      requires messages.Keys == {"en", "de"}
      requires initialLocale.Some? ==> initialLocale.value in SupportedLocales
      ensures this.messages == messages
      ensures locale == initialLocale.GetOr(DefaultLocale)
      ensures Valid()
    {
      this.messages := messages;
      locale := initialLocale.GetOr(DefaultLocale);
      localeRef := initialLocale.GetOr(DefaultLocale);
      persisted := Some(initialLocale.GetOr(DefaultLocale));
    }

    /** `t(key, params)`: the message of the current locale, else the
        English one; a string is formatted, another value returned as it is,
        and a key found nowhere is returned itself. */
    function T(key: string, params: Option<seq<(string, Param)>>): (r: Value)
      reads this
      requires Valid()
      ensures var found := if Resolve(messages[locale], key).Some? then Resolve(messages[locale], key)
                           else Resolve(messages[DefaultLocale], key);
              (found.None? ==> r == Str(key))
              && (found.Some? && !found.value.Str? ==> r == found.value)
              && (found.Some? && found.value.Str? ==> r == FormatMessage(found, params))
    {
      var found := match Resolve(messages[locale], key)
                   case Some(v) => Some(v)
                   case None => Resolve(messages[DefaultLocale], key);
      if found.Some? && found.value.Str? then FormatMessage(found, params)
      else found.GetOr(Str(key))
    }

    /** The fallback chain of `t`, both ways: the current locale wins, then
        English, then the key itself. */
    lemma TFallback(key: string)
      requires Valid()
      ensures Resolve(messages[locale], key).Some? ==> T(key, None) == Resolve(messages[locale], key).value
      ensures Resolve(messages[locale], key).None? && Resolve(messages[DefaultLocale], key).Some? ==>
                T(key, None) == Resolve(messages[DefaultLocale], key).value
      ensures Resolve(messages[locale], key).None? && Resolve(messages[DefaultLocale], key).None? ==>
                T(key, None) == Str(key)
    {
    }

    /** A key found in neither map is answered with the key itself, with or
        without parameters. */
    lemma TMissingIsKey(key: string, params: Option<seq<(string, Param)>>)
      requires Valid()
      requires Resolve(messages[locale], key).None? && Resolve(messages[DefaultLocale], key).None?
      ensures T(key, params) == Str(key)
    {
    }

    /** The first effect: prefer the stored locale, else German when the
        navigator language starts with "de", else English; switch to it when
        it differs from the current locale and is supported, and persist. */
    method ApplyInitialPreference(stored: Option<string>, navigatorLanguage: Option<string>)
      requires Valid()
      modifies this
      ensures var preferred := PreferredLocale(stored, navigatorLanguage);
              locale == (if preferred != "" && preferred in SupportedLocales then preferred else old(locale))
      ensures stored.None? ==> (locale == "de" <==> navigatorLanguage.Some? && StartsWith(navigatorLanguage.value, "de"))
      ensures stored.None? && locale != "de" ==> locale == DefaultLocale
      ensures Valid()
    {
      var preferred := PreferredLocale(stored, navigatorLanguage);
      if preferred != "" && preferred != locale && preferred in SupportedLocales {
        locale := preferred;
        localeRef := preferred;
        persisted := Some(preferred);
      }
    }

    /** `setLocale(next)`: ignored for an unsupported locale or the current
        one; otherwise the ref and the state move, and the effect persists. */
    method SetLocale(next: string)
      requires Valid()
      modifies this
      ensures locale == NextLocale(old(locale), next)
      ensures Valid()
    {
      if next !in SupportedLocales || localeRef == next {
        return;
      }
      localeRef := next;
      locale := next;
      persisted := Some(next);
    }
  }

  /** `stored ?? (navigator.language?.startsWith("de") ? "de" : DEFAULT_LOCALE)`. */
  function PreferredLocale(stored: Option<string>, navigatorLanguage: Option<string>): (p: string)
    ensures stored.Some? ==> p == stored.value
    ensures stored.None? ==> p in SupportedLocales
    ensures stored.None? ==> (p == "de" <==> navigatorLanguage.Some? && StartsWith(navigatorLanguage.value, "de"))
    ensures stored.None? && p != "de" ==> p == DefaultLocale
  {
    match stored
    case Some(s) => s
    case None => if navigatorLanguage.Some? && StartsWith(navigatorLanguage.value, "de") then "de" else DefaultLocale
  }

  /** The locale after `setLocale(next)`. */
  function NextLocale(current: string, next: string): (r: string)
    ensures r == next || r == current
    ensures r == next <==> next in SupportedLocales || next == current
  {
    if next in SupportedLocales then next else current
  }

  /** Setting a locale twice is setting it once, and the last supported
      choice wins. */
  lemma NextLocaleIdempotent(current: string, a: string, b: string)
    ensures NextLocale(NextLocale(current, a), a) == NextLocale(current, a)
    ensures b in SupportedLocales ==> NextLocale(NextLocale(current, a), b) == b
  {
  }
}
