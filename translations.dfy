/** The values a translation dictionary holds: strings, numbers, booleans,
    arrays and nested objects, and how JavaScript reads a property of them. */
module Translations {
  import opened Wrappers
  import opened Strings

  datatype Value =
    | Str(text: string)
    | Num(number: real)
    | Bool(flag: bool)
    | Arr(items: seq<Value>)
    | Dict(entries: map<string, Value>)
  {
    /** `typeof v === "object"` for a value that is present. */
    predicate IsObject()
    {
      Arr? || Dict?
    }
  }

  /** The index `key` names among `n` elements: the canonical decimal
      rendering of an index below `n`, and nothing else ("01", "-1" and
      "1.0" name no element). */
  function IndexNamed(key: string, n: nat): (r: Option<nat>)
    ensures r.Some? ==> r.value < n && NatToString(r.value) == key
    ensures r.None? ==> forall i :: 0 <= i < n ==> NatToString(i) != key
  {
    if n == 0 then None
    else if NatToString(n - 1) == key then Some(n - 1)
    else IndexNamed(key, n - 1)
  }

  /** Every index below `n` is named by its decimal rendering. */
  lemma IndexNamedOf(i: nat, n: nat)
    requires i < n
    ensures IndexNamed(NatToString(i), n) == Some(i)
  {
    var r := IndexNamed(NatToString(i), n);
    NatToStringInjective(r.value, i);
  }

  /** `v[key]`: an own entry of an object, an element or the length of an
      array or a string; a number or a boolean has no own property. */
  function Property(v: Value, key: string): (r: Option<Value>)
    ensures v.Dict? ==> (r.Some? <==> key in v.entries) && (r.Some? ==> r.value == v.entries[key])
    ensures v.Num? || v.Bool? ==> r.None?
    ensures v.Arr? && key == "length" ==> r == Some(Num(|v.items| as real))
  {
    match v
    case Dict(m) => if key in m then Some(m[key]) else None
    case Arr(items) =>
      if key == "length" then Some(Num(|items| as real))
      else (match IndexNamed(key, |items|)
            case Some(i) => Some(items[i])
            case None => None)
    case Str(s) =>
      if key == "length" then Some(Num(|s| as real))
      else (match IndexNamed(key, |s|)
            case Some(i) => Some(Str([s[i]]))
            case None => None)
    case _ => None
  }

  /** An array's elements are its properties "0", "1", … */
  lemma ArrayElement(items: seq<Value>, i: nat)
    requires i < |items|
    ensures Property(Arr(items), NatToString(i)) == Some(items[i])
  {
    IndexNamedOf(i, |items|);
    assert NatToString(i) != "length" by {
      assert IsDigit(NatToString(i)[0]);
    }
  }
}
