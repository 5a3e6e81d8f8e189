/** The part of `URLSearchParams` the portal uses: an ordered list of
    name/value pairs with `get` (first match) and `set` (replace the first
    match and drop the others, or append). The URL encoding of the list is
    not modelled: a list is what is sent and what is read back. */
module QueryParams {
  import opened Wrappers

  type Entries = seq<(string, string)>

  /** `params.get(name)`: the value of the first entry with that name. */
  function Get(e: Entries, name: string): (r: Option<string>)
    ensures r.None? <==> forall k :: 0 <= k < |e| ==> e[k].0 != name
    ensures r.Some? ==> exists k :: 0 <= k < |e| && e[k] == (name, r.value)
  {
    if e == [] then None
    else if e[0].0 == name then Some(e[0].1)
    else
      var r := Get(e[1..], name);
      assert r.Some? ==> exists k :: 0 <= k < |e| && e[k] == (name, r.value) by {
        if r.Some? {
          var k :| 0 <= k < |e[1..]| && e[1..][k] == (name, r.value);
          assert e[k + 1] == e[1..][k];
        }
      }
      r
  }

  /** Every value stored under `name`, in order. */
  function ValuesOf(e: Entries, name: string): seq<string>
  {
    if e == [] then []
    else (if e[0].0 == name then [e[0].1] else []) + ValuesOf(e[1..], name)
  }

  /** The entries with every `name` entry removed. */
  function Without(e: Entries, name: string): (r: Entries)
    ensures forall k :: 0 <= k < |r| ==> r[k].0 != name
  {
    if e == [] then []
    else (if e[0].0 == name then [] else [e[0]]) + Without(e[1..], name)
  }

  function ReplaceFirst(e: Entries, name: string, value: string): Entries
  {
    if e == [] then []
    else if e[0].0 == name then [(name, value)] + Without(e[1..], name)
    else [e[0]] + ReplaceFirst(e[1..], name, value)
  }

  /** `params.set(name, value)`. */
  function Set(e: Entries, name: string, value: string): Entries
  {
    if Get(e, name).Some? then ReplaceFirst(e, name, value) else e + [(name, value)]
  }

  lemma {:induction false} ValuesOfAppend(a: Entries, b: Entries, name: string)
    ensures ValuesOf(a + b, name) == ValuesOf(a, name) + ValuesOf(b, name)
  {
    if a == [] {
      assert a + b == b;
    } else {
      assert (a + b)[0] == a[0];
      assert (a + b)[1..] == a[1..] + b;
      ValuesOfAppend(a[1..], b, name);
    }
  }

  lemma {:induction false} ValuesOfWithout(e: Entries, name: string, other: string)
    ensures ValuesOf(Without(e, name), name) == []
    ensures other != name ==> ValuesOf(Without(e, name), other) == ValuesOf(e, other)
  {
    if e != [] {
      var head: Entries := if e[0].0 == name then [] else [e[0]];
      ValuesOfWithout(e[1..], name, other);
      ValuesOfAppend(head, Without(e[1..], name), name);
      ValuesOfAppend(head, Without(e[1..], name), other);
    }
  }

  lemma {:induction false} ValuesOfReplaceFirst(e: Entries, name: string, value: string, other: string)
    requires Get(e, name).Some?
    ensures ValuesOf(ReplaceFirst(e, name, value), name) == [value]
    ensures other != name ==> ValuesOf(ReplaceFirst(e, name, value), other) == ValuesOf(e, other)
  {
    if e[0].0 == name {
      ValuesOfWithout(e[1..], name, other);
      ValuesOfAppend([(name, value)], Without(e[1..], name), name);
      ValuesOfAppend([(name, value)], Without(e[1..], name), other);
    } else {
      ValuesOfReplaceFirst(e[1..], name, value, other);
      ValuesOfAppend([e[0]], ReplaceFirst(e[1..], name, value), name);
      ValuesOfAppend([e[0]], ReplaceFirst(e[1..], name, value), other);
    }
  }

  lemma {:induction false} GetIsFirstValue(e: Entries, name: string)
    ensures Get(e, name).None? <==> ValuesOf(e, name) == []
    ensures Get(e, name).Some? ==> Get(e, name).value == ValuesOf(e, name)[0]
  {
    if e != [] {
      GetIsFirstValue(e[1..], name);
    }
  }

  /** After `set`, the name holds exactly the one value just set, and every
      other name keeps exactly the values it had, in the same order. */
  lemma SetThenGet(e: Entries, name: string, value: string, other: string)
    ensures ValuesOf(Set(e, name, value), name) == [value]
    ensures Get(Set(e, name, value), name) == Some(value)
    ensures other != name ==> ValuesOf(Set(e, name, value), other) == ValuesOf(e, other)
  {
    var r := Set(e, name, value);
    if Get(e, name).Some? {
      ValuesOfReplaceFirst(e, name, value, other);
    } else {
      GetIsFirstValue(e, name);
      ValuesOfAppend(e, [(name, value)], name);
      ValuesOfAppend(e, [(name, value)], other);
    }
    GetIsFirstValue(r, name);
  }

  /** A mutable `URLSearchParams` object. */
  class SearchParams {
    var entries: Entries

    constructor ()
      ensures entries == []
    {
      entries := [];
    }

    method SetParam(name: string, value: string)
      modifies this
      ensures entries == Set(old(entries), name, value)
    {
      entries := Set(entries, name, value);
    }
  }
}
