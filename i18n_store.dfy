/** The translation store of the Svelte front end: a language chosen from the
    supported ones, dotted-key lookup in that language's dictionary, and the
    labels of the language picker. The dictionaries themselves are data and
    are a parameter here. */
module I18nStore {
  import opened Wrappers
  import opened Strings
  import opened Translations

  /** `Object.keys(translations)`: German first, then English. */
  const SupportedLanguages: seq<string> := ["de", "en"]

  /** The language used when nothing else applies. */
  const DefaultLanguage: string := "de"

  /** One step of `getNestedValue`: descend into `current` when it is an
      object that has `key`, otherwise stop with nothing. Arrays are objects
      too, so an index or "length" descends into an array. */
  function Step(current: Option<Value>, key: string): (r: Option<Value>)
    ensures r.Some? ==> current.Some? && current.value.IsObject()
  {
    if current.Some? && current.value.IsObject() then Property(current.value, key) else None
  }

  /** The walk over a list of keys. */
  function Walk(current: Option<Value>, keys: seq<string>): Option<Value>
    decreases |keys|
  {
    if keys == [] then current else Walk(Step(current, keys[0]), keys[1..])
  }

  /** What `getNestedValue(object, path)` returns. */
  function Lookup(root: Option<Value>, path: string): Option<Value>
  {
    Walk(root, Split(path, '.'))
  }

  /** Once the walk has stopped, it stays stopped. */
  lemma {:induction false} WalkNone(keys: seq<string>)
    ensures Walk(None, keys) == None
  {
    if keys != [] {
      WalkNone(keys[1..]);
    }
  }

  /** Walking a concatenation is walking the two parts in turn. */
  lemma {:induction false} WalkAppend(v: Option<Value>, a: seq<string>, b: seq<string>)
    ensures Walk(v, a + b) == Walk(Walk(v, a), b)
    decreases |a|
  {
    if a == [] {
      assert a + b == b;
    } else {
      assert (a + b)[1..] == a[1..] + b;
      WalkAppend(Step(v, a[0]), a[1..], b);
    }
  }

  /** `getNestedValue`: split the path at dots and descend one key at a
      time, giving up as soon as the current value is not an object or lacks
      the key. */
  method GetNestedValue(root: Option<Value>, path: string) returns (r: Option<Value>)
    ensures r == Lookup(root, path)
  {
    var keys := Split(path, '.');
    var current := root;
    var i := 0;
    while i < |keys|
      invariant 0 <= i <= |keys|
      invariant Walk(current, keys[i..]) == Lookup(root, path)
    {
      assert keys[i..][1..] == keys[i + 1..];
      if current.Some? && current.value.IsObject() && Property(current.value, keys[i]).Some? {
        current := Property(current.value, keys[i]);
      } else {
        WalkNone(keys[i + 1..]);
        return None;
      }
      i := i + 1;
    }
    r := current;
  }

  /** A key without dots reads the top-level entry. */
  lemma TopLevelKey(m: map<string, Value>, key: string)
    requires '.' !in key
    ensures Lookup(Some(Dict(m)), key) == (if key in m then Some(m[key]) else None)
  {
    SplitNone(key, '.');
    assert Walk(Some(Dict(m)), [key]) == Walk(Step(Some(Dict(m)), key), []);
  }

  /** `a.b` is `b` looked up in what `a` gives. */
  lemma DottedKey(root: Option<Value>, a: string, b: string)
    ensures Lookup(root, a + "." + b) == Lookup(Lookup(root, a), b)
  {
    SplitConcat(a, '.', b);
    WalkAppend(root, Split(a, '.'), Split(b, '.'));
  }

  /** A path that goes on past a string leaf finds nothing. */
  lemma PastStringLeaf(root: Option<Value>, a: string, b: string)
    requires Lookup(root, a).Some? && Lookup(root, a).value.Str?
    ensures Lookup(root, a + "." + b) == None
  {
    DottedKey(root, a, b);
    var keys := Split(b, '.');
    WalkNone(keys[1..]);
  }

  /** Unlike the provider's lookup, this one reads array elements by index. */
  lemma ReadsArrayElements(items: seq<Value>, i: nat)
    requires i < |items|
    ensures Lookup(Some(Arr(items)), NatToString(i)) == Some(items[i])
  {
    assert '.' !in NatToString(i) by {
      var s := NatToString(i);
      forall k | 0 <= k < |s| ensures s[k] != '.' {
        assert IsDigit(s[k]);
      }
    }
    SplitNone(NatToString(i), '.');
    ArrayElement(items, i);
    assert Walk(Some(Arr(items)), [NatToString(i)]) == Walk(Step(Some(Arr(items)), NatToString(i)), []);
  }

  /** `getInitialLanguage`: in a browser, the stored language when it is
      supported, else the navigator language's part before the first '-'
      when that is supported; German otherwise. */
  function InitialLanguage(browser: bool, stored: Option<string>, navigatorLanguage: Option<string>): (r: string)
    ensures r in SupportedLanguages
    ensures browser && stored.Some? && stored.value in SupportedLanguages ==> r == stored.value
    ensures var base := Split(navigatorLanguage.GetOr(""), '-')[0];
            browser && (stored.None? || stored.value !in SupportedLanguages) && navigatorLanguage.Some? && base in SupportedLanguages
            ==> r == base
    ensures var base := Split(navigatorLanguage.GetOr(""), '-')[0];
            browser && (stored.None? || stored.value !in SupportedLanguages) && (navigatorLanguage.None? || base !in SupportedLanguages)
            ==> r == DefaultLanguage
    ensures !browser ==> r == DefaultLanguage
  {
    if browser && stored.Some? && stored.value != "" && stored.value in SupportedLanguages then stored.value
    else if browser && navigatorLanguage.Some? && Split(navigatorLanguage.value, '-')[0] != ""
            && Split(navigatorLanguage.value, '-')[0] in SupportedLanguages then Split(navigatorLanguage.value, '-')[0]
    else DefaultLanguage
  }

  /** A regional navigator language selects its base language when nothing
      supported is stored: "en-GB" gives English. */
  lemma RegionalNavigatorLanguage(stored: Option<string>, base: string, region: string)
    requires base in SupportedLanguages
    requires stored.None? || stored.value !in SupportedLanguages
    ensures InitialLanguage(true, stored, Some(base + "-" + region)) == base
  {
    assert '-' !in base;
    SplitFirst(base, '-', region);
  }

  /** One entry of the language picker; `caption` is its `label`. */
  datatype LanguageOption = LanguageOption(value: string, caption: Value)

  /** The store: the current language and the dictionaries. */
  class LanguageStore {
    const translations: map<string, Value>
    var language: string

    predicate Valid()
      reads this
    {
      language in SupportedLanguages && translations.Keys == {"de", "en"}
    }

    /** `writable(getInitialLanguage())`. */
    constructor (translations: map<string, Value>, browser: bool, stored: Option<string>, navigatorLanguage: Option<string>)
      requires translations.Keys == {"de", "en"}
      ensures this.translations == translations
      ensures language == InitialLanguage(browser, stored, navigatorLanguage)
      ensures Valid()
    {
      this.translations := translations;
      language := InitialLanguage(browser, stored, navigatorLanguage);
    }

    /** `translations[$language] ?? translations.de`. */
    function Dictionary(): (d: Option<Value>)
      reads this
      ensures Valid() ==> d == Some(translations[language])
    {
      if language in translations then Some(translations[language])
      else if DefaultLanguage in translations then Some(translations[DefaultLanguage])
      else None
    }

    /** `$t(key)`: the key looked up in the current language's dictionary. */
    function T(key: string): (r: Option<Value>)
      reads this
      ensures Valid() ==> r == Lookup(Some(translations[language]), key)
    {
      Lookup(Dictionary(), key)
    }

    /** `getLanguageLabel(code, dictionary)`: the name the current
        dictionary gives the language, else the name its own dictionary
        gives it, else the code itself. */
    function LanguageLabel(code: string, dictionary: Value): (caption: Value)
      ensures var names := Property(dictionary, "languages").GetOr(Dict(map[]));
              Property(names, code).Some? ==> caption == Property(names, code).value
      ensures caption == Str(code)
              || Property(Property(dictionary, "languages").GetOr(Dict(map[])), code) == Some(caption)
              || (code in translations && Property(Property(translations[code], "languages").GetOr(Dict(map[])), code) == Some(caption))
    {
      var names := Property(dictionary, "languages").GetOr(Dict(map[]));
      var own := (if code in translations then Property(translations[code], "languages") else None).GetOr(Dict(map[]));
      match Property(names, code)
      case Some(name) => name
      case None => Property(own, code).GetOr(Str(code))
    }

    /** The label chain, case by case. */
    lemma LanguageLabelChain(code: string, dictionary: Value, names: map<string, Value>, own: map<string, Value>)
      requires Property(dictionary, "languages") == Some(Dict(names))
      requires code in translations && Property(translations[code], "languages") == Some(Dict(own))
      ensures code in names ==> LanguageLabel(code, dictionary) == names[code]
      ensures code !in names && code in own ==> LanguageLabel(code, dictionary) == own[code]
      ensures code !in names && code !in own ==> LanguageLabel(code, dictionary) == Str(code)
    {
    }

    /** A dictionary without a `languages` table labels every language by
        its code, unless the language's own dictionary names it. */
    lemma LabelWithoutNames(code: string, dictionary: Value)
      requires Property(dictionary, "languages").None?
      requires code !in translations || Property(translations[code], "languages").None?
      ensures LanguageLabel(code, dictionary) == Str(code)
    {
    }

    /** `$languageOptions`: one entry per supported language, in order. */
    function LanguageOptions(): (options: seq<LanguageOption>)
      reads this
      requires Valid()
      ensures |options| == |SupportedLanguages|
      ensures forall k :: 0 <= k < |options| ==>
                options[k].value == SupportedLanguages[k]
                && options[k].caption == LanguageLabel(SupportedLanguages[k], translations[language])
    {
      var dictionary := translations[language];
      seq(|SupportedLanguages|, k requires 0 <= k < |SupportedLanguages| =>
        LanguageOption(SupportedLanguages[k], LanguageLabel(SupportedLanguages[k], dictionary)))
    }

    /** `setLanguage(code)`: switch only to a supported language. */
    method SetLanguage(code: string)
      requires Valid()
      modifies this
      ensures language == (if code in SupportedLanguages then code else old(language))
      ensures Valid()
    {
      if code in SupportedLanguages {
        language := code;
      }
    }
  }
}
