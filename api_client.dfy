/** The browser-side client of the captive-portal access API: base-URL
    normalisation, request paths, the `zoneid` header, the URL-encoded logon
    form and the tolerant JSON reading of replies. `fetch` and `JSON.parse`
    are parameters of the client; everything it does around them is here. */
module ApiClient {
  import opened Wrappers
  import opened Strings
  import opened Dtos
  import QueryParams

  // ----- Outcomes -----

  /** What a failed step throws: a `SyntaxError` (from `JSON.parse`), any
      other `Error` with its message, or a thrown value that is not an
      `Error` at all. */
  datatype Failure = SyntaxError(message: string) | OtherError(message: string) | NonError
  {
    predicate IsError() { SyntaxError? || OtherError? }
  }

  /** A call that either returns a value or throws. */
  datatype Outcome<T> = Returned(value: T) | Thrown(error: Failure)

  /** The generic reply wrapper: the HTTP outcome and the parsed payload,
      `None` standing for `null`. */
  datatype ApiResponse<T> = ApiResponse(ok: bool, status: int, data: Option<T>)

  // ----- Base URL and paths -----

  /** `baseUrl.replace(/\/$/, '')`: one trailing slash is removed. */
  function StripTrailingSlash(base: string): (r: string)
    ensures base == r || base == r + "/"
    ensures |base| > 0 && base[|base| - 1] == '/' <==> base == r + "/"
  {
    if |base| > 0 && base[|base| - 1] == '/' then base[..|base| - 1] else base
  }

  /** Only a single slash goes: a base ending in two keeps one, and a base
      without one is kept as it is. */
  lemma StripOnlyOneSlash(host: string)
    ensures StripTrailingSlash(host + "/") == host
    ensures StripTrailingSlash(host + "//") == host + "/"
    ensures (|host| == 0 || host[|host| - 1] != '/') ==> StripTrailingSlash(host) == host
  {
    assert (host + "//")[..|host + "//"| - 1] == host + "/";
  }

  const StatusPrefix: string := "/api/captiveportal/access/status/"
  const LogonPrefix: string := "/api/captiveportal/access/logon/"
  const LogoffPrefix: string := "/api/captiveportal/access/logoff/"

  function StatusPath(zoneId: string): string { StatusPrefix + EncodeUriComponent(zoneId) }
  function LogonPath(zoneId: string): string { LogonPrefix + EncodeUriComponent(zoneId) }
  function LogoffPath(zoneId: string): string { LogoffPrefix + EncodeUriComponent(zoneId) }

  // ----- encodeURIComponent -----

  type Byte = b: int | 0 <= b < 256

  /** The characters `encodeURIComponent` leaves alone. */
  predicate IsUnreserved(c: char)
  {
    ('A' <= c <= 'Z') || ('a' <= c <= 'z') || ('0' <= c <= '9')
    || c == '-' || c == '_' || c == '.' || c == '!' || c == '~' || c == '*' || c == '\'' || c == '(' || c == ')'
  }

  /** The UTF-8 encoding of one code point. */
  function Utf8Bytes(c: char): (bs: seq<Byte>)
    ensures 1 <= |bs| <= 4
    ensures c as int < 0x80 ==> bs == [c as int]
  {
    var n := c as int;
    if n < 0x80 then [n]
    else if n < 0x800 then [0xC0 + n / 0x40, 0x80 + n % 0x40]
    else if n < 0x10000 then [0xE0 + n / 0x1000, 0x80 + (n / 0x40) % 0x40, 0x80 + n % 0x40]
    else [0xF0 + n / 0x40000, 0x80 + (n / 0x1000) % 0x40, 0x80 + (n / 0x40) % 0x40, 0x80 + n % 0x40]
  }

  function Utf8Encode(s: string): seq<Byte>
  {
    if s == [] then [] else Utf8Bytes(s[0]) + Utf8Encode(s[1..])
  }

  function HexUpper(d: nat): (c: char)
    requires d < 16
    ensures IsUnreserved(c) && IsHex(c) && HexValue(c) == d
  {
    "0123456789ABCDEF"[d]
  }

  /** One byte as `%XX`. */
  function Escape(b: Byte): string
  {
    ['%', HexUpper(b / 16), HexUpper(b % 16)]
  }

  /** Every character is unreserved or the escape sign. */
  predicate UriSafe(s: string)
  {
    forall k :: 0 <= k < |s| ==> IsUnreserved(s[k]) || s[k] == '%'
  }

  lemma UriSafeConcat(a: string, b: string)
    requires UriSafe(a) && UriSafe(b)
    ensures UriSafe(a + b)
  {
    forall k | 0 <= k < |a + b| ensures IsUnreserved((a + b)[k]) || (a + b)[k] == '%' {
      if k < |a| {
        assert (a + b)[k] == a[k];
      } else {
        assert (a + b)[k] == b[k - |a|];
      }
    }
  }

  function EscapeAll(bs: seq<Byte>): (r: string)
    ensures |r| == 3 * |bs|
    ensures UriSafe(r)
  {
    if bs == [] then []
    else
      var r := Escape(bs[0]) + EscapeAll(bs[1..]);
      UriSafeConcat(Escape(bs[0]), EscapeAll(bs[1..]));
      r
  }

  function EncodeChar(c: char): (r: string)
    ensures r != []
    ensures UriSafe(r)
  {
    if IsUnreserved(c) then [c] else EscapeAll(Utf8Bytes(c))
  }

  /** `encodeURIComponent(s)`: unreserved characters as they are, every
      other code point as the `%XX` escapes of its UTF-8 bytes. The result
      is empty only for the empty string and holds no `/`, `?` or `#`, so a
      zone id always stays one path segment. */
  function EncodeUriComponent(s: string): (r: string)
    ensures |r| >= |s|
    ensures r == [] <==> s == []
    ensures UriSafe(r)
    ensures '/' !in r && '?' !in r && '#' !in r
  {
    if s == [] then []
    else
      var r := EncodeChar(s[0]) + EncodeUriComponent(s[1..]);
      UriSafeConcat(EncodeChar(s[0]), EncodeUriComponent(s[1..]));
      assert '/' !in r && '?' !in r && '#' !in r by {
        forall c | c in r ensures c != '/' && c != '?' && c != '#' {
          var k :| 0 <= k < |r| && r[k] == c;
          assert IsUnreserved(r[k]) || r[k] == '%';
        }
      }
      r
  }

  /** An identifier made of unreserved characters (a numeric zone id, say)
      is sent as it is. */
  lemma {:induction false} EncodeUnreserved(s: string)
    requires forall k :: 0 <= k < |s| ==> IsUnreserved(s[k])
    ensures EncodeUriComponent(s) == s
  {
    if s != [] {
      EncodeUnreserved(s[1..]);
      assert [s[0]] + s[1..] == s;
    }
  }

  predicate IsHex(c: char)
  {
    ('0' <= c <= '9') || ('A' <= c <= 'F') || ('a' <= c <= 'f')
  }

  function HexValue(c: char): (d: nat)
    requires IsHex(c)
    ensures d < 16
  {
    if '0' <= c <= '9' then c as int - '0' as int
    else if 'A' <= c <= 'F' then c as int - 'A' as int + 10
    else c as int - 'a' as int + 10
  }

  function Prepend(bs: seq<Byte>, o: Option<seq<Byte>>): Option<seq<Byte>>
  {
    match o
    case Some(rest) => Some(bs + rest)
    case None => None
  }

  /** Percent-decoding to bytes: `%XX` gives the byte XX and any other ASCII
      character its own code; a malformed escape or a non-ASCII character
      is refused. */
  function PercentDecode(t: string): Option<seq<Byte>>
  {
    if t == [] then Some([])
    else if t[0] == '%' then
      if |t| >= 3 && IsHex(t[1]) && IsHex(t[2]) then Prepend([HexValue(t[1]) * 16 + HexValue(t[2])], PercentDecode(t[3..]))
      else None
    else if t[0] as int < 0x80 then Prepend([t[0] as int], PercentDecode(t[1..]))
    else None
  }

  /** One escape decodes to its byte. */
  lemma EscapeDecodes(b: Byte, rest: string)
    ensures PercentDecode(Escape(b) + rest) == Prepend([b], PercentDecode(rest))
  {
    var t := Escape(b) + rest;
    assert t[3..] == rest;
    assert t[0] == '%' && t[1] == HexUpper(b / 16) && t[2] == HexUpper(b % 16);
    assert HexValue(t[1]) * 16 + HexValue(t[2]) == b;
  }

  lemma PrependTwice(xs: seq<Byte>, ys: seq<Byte>, o: Option<seq<Byte>>)
    ensures Prepend(xs, Prepend(ys, o)) == Prepend(xs + ys, o)
  {
    if o.Some? {
      assert xs + (ys + o.value) == (xs + ys) + o.value;
    }
  }

  lemma {:induction false} DecodeEscapes(bs: seq<Byte>, rest: string)
    ensures PercentDecode(EscapeAll(bs) + rest) == Prepend(bs, PercentDecode(rest))
  {
    if bs != [] {
      var b, tail := bs[0], EscapeAll(bs[1..]) + rest;
      assert EscapeAll(bs) + rest == Escape(b) + tail;
      EscapeDecodes(b, tail);
      DecodeEscapes(bs[1..], rest);
      PrependTwice([b], bs[1..], PercentDecode(rest));
      assert [b] + bs[1..] == bs;
    } else {
      assert EscapeAll(bs) + rest == rest;
      if PercentDecode(rest).Some? {
        assert [] + PercentDecode(rest).value == PercentDecode(rest).value;
      }
    }
  }

  /** Decoding the escapes gives back the UTF-8 bytes of the original
      string: the encoding loses nothing. */
  lemma {:induction false} DecodeEncode(s: string)
    ensures PercentDecode(EncodeUriComponent(s)) == Some(Utf8Encode(s))
  {
    if s != [] {
      var c := s[0];
      var tail := EncodeUriComponent(s[1..]);
      DecodeEncode(s[1..]);
      if IsUnreserved(c) {
        var t := [c] + tail;
        assert t[1..] == tail;
      } else {
        DecodeEscapes(Utf8Bytes(c), tail);
      }
    }
  }

  // ----- Headers -----

  /** The whitespace `Headers` strips from both ends of a value. */
  predicate IsHttpSpace(c: char)
  {
    c == '\t' || c == '\n' || c == '\r' || c == ' '
  }

  /** Every character of `s` is HTTP whitespace. */
  predicate AllHttpSpace(s: string)
  {
    s == [] || (IsHttpSpace(s[0]) && AllHttpSpace(s[1..]))
  }

  lemma {:induction false} AllHttpSpaceAppend(a: string, b: string)
    requires AllHttpSpace(a) && AllHttpSpace(b)
    ensures AllHttpSpace(a + b)
  {
    if a != [] {
      assert (a + b)[1..] == a[1..] + b;
      AllHttpSpaceAppend(a[1..], b);
    } else {
      assert a + b == b;
    }
  }

  /** `r` is `v[i..j]`, and all `v` has before `i` and from `j` on is HTTP
      whitespace. */
  predicate TrimmedAt(v: string, r: string, i: int, j: int)
  {
    0 <= i <= j <= |v| && r == v[i..j] && AllHttpSpace(v[..i]) && AllHttpSpace(v[j..])
  }

  lemma TrimmedAfterFirst(v: string, r: string, i: int, j: int)
    requires v != [] && IsHttpSpace(v[0]) && TrimmedAt(v[1..], r, i, j)
    ensures TrimmedAt(v, r, i + 1, j + 1)
  {
    var w := v[1..];
    assert r == v[i + 1..j + 1];
    var lead := v[..i + 1];
    assert lead[0] == v[0] && lead[1..] == w[..i];
    assert v[j + 1..] == w[j..];
  }

  lemma TrimmedBeforeLast(v: string, r: string, i: int, j: int)
    requires v != [] && IsHttpSpace(v[|v| - 1]) && TrimmedAt(v[..|v| - 1], r, i, j)
    ensures TrimmedAt(v, r, i, j)
  {
    var w := v[..|v| - 1];
    assert r == v[i..j];
    assert v[..i] == w[..i];
    var last := [v[|v| - 1]];
    assert AllHttpSpace(last) by {
      assert last[1..] == [];
    }
    AllHttpSpaceAppend(w[j..], last);
    assert v[j..] == w[j..] + last;
  }

  /** The value `Headers` stores: `v` without its surrounding HTTP
      whitespace (`StripHttpSpaceSlice` shows that nothing else is cut). */
  function StripHttpSpace(v: string): (r: string)
    ensures r != [] ==> !IsHttpSpace(r[0]) && !IsHttpSpace(r[|r| - 1])
    ensures |r| <= |v|
    decreases |v|
  {
    if v != [] && IsHttpSpace(v[0]) then StripHttpSpace(v[1..])
    else if v != [] && IsHttpSpace(v[|v| - 1]) then StripHttpSpace(v[..|v| - 1])
    else v
  }

  /** The stored value is the slice of `v` between the HTTP whitespace at
      its two ends: only that whitespace is removed. */
  lemma {:induction false} StripHttpSpaceSlice(v: string)
    ensures exists i, j :: TrimmedAt(v, StripHttpSpace(v), i, j)
    decreases |v|
  {
    var r := StripHttpSpace(v);
    if v != [] && IsHttpSpace(v[0]) {
      StripHttpSpaceSlice(v[1..]);
      var i, j :| TrimmedAt(v[1..], r, i, j);
      TrimmedAfterFirst(v, r, i, j);
    } else if v != [] && IsHttpSpace(v[|v| - 1]) {
      StripHttpSpaceSlice(v[..|v| - 1]);
      var i, j :| TrimmedAt(v[..|v| - 1], r, i, j);
      TrimmedBeforeLast(v, r, i, j);
    } else {
      assert TrimmedAt(v, r, 0, |v|);
    }
  }

  lemma StripHttpSpaceKeepsBare(v: string)
    requires v == [] || (!IsHttpSpace(v[0]) && !IsHttpSpace(v[|v| - 1]))
    ensures StripHttpSpace(v) == v
  {
  }

  /** `headers.append(name, value)` on the lower-cased table: a second value
      for the same name is joined to the first with ", ". */
  function AppendOne(m: map<string, string>, name: string, value: string): map<string, string>
  {
    var k := ToLowerAscii(name);
    var v := StripHttpSpace(value);
    if k in m then m[k := m[k] + ", " + v] else m[k := v]
  }

  function AppendAll(m: map<string, string>, pairs: seq<(string, string)>): map<string, string>
    decreases |pairs|
  {
    if pairs == [] then m else AppendAll(AppendOne(m, pairs[0].0, pairs[0].1), pairs[1..])
  }

  /** A name that no later pair mentions keeps what it had. */
  lemma {:induction false} AppendAllKeeps(m: map<string, string>, pairs: seq<(string, string)>, k: string)
    requires forall j :: 0 <= j < |pairs| ==> ToLowerAscii(pairs[j].0) != k
    ensures k in AppendAll(m, pairs) <==> k in m
    ensures k in m ==> AppendAll(m, pairs)[k] == m[k]
    decreases |pairs|
  {
    if pairs != [] {
      AppendAllKeeps(AppendOne(m, pairs[0].0, pairs[0].1), pairs[1..], k);
    }
  }

  predicate DistinctNames(pairs: seq<(string, string)>)
  {
    forall i, j :: 0 <= i < j < |pairs| ==> ToLowerAscii(pairs[i].0) != ToLowerAscii(pairs[j].0)
  }

  /** `new Headers(record)` for a record whose names differ even ignoring
      case: each name maps to its own value, stripped, and nothing else is
      there. */
  lemma {:induction false} RecordHeaders(m: map<string, string>, pairs: seq<(string, string)>)
    requires DistinctNames(pairs)
    requires forall j :: 0 <= j < |pairs| ==> ToLowerAscii(pairs[j].0) !in m
    ensures forall j :: 0 <= j < |pairs| ==>
              ToLowerAscii(pairs[j].0) in AppendAll(m, pairs)
              && AppendAll(m, pairs)[ToLowerAscii(pairs[j].0)] == StripHttpSpace(pairs[j].1)
    ensures forall k :: k in AppendAll(m, pairs) <==> k in m || exists j :: 0 <= j < |pairs| && ToLowerAscii(pairs[j].0) == k
    decreases |pairs|
  {
    if pairs != [] {
      var m' := AppendOne(m, pairs[0].0, pairs[0].1);
      var rest := pairs[1..];
      forall j | 0 <= j < |rest| ensures ToLowerAscii(rest[j].0) !in m' {
        assert rest[j] == pairs[j + 1];
      }
      RecordHeaders(m', rest);
      forall j | 1 <= j < |pairs| ensures ToLowerAscii(pairs[j].0) == ToLowerAscii(rest[j - 1].0) {
      }
      AppendAllKeeps(m', rest, ToLowerAscii(pairs[0].0));
      forall k | k in AppendAll(m, pairs) ensures k in m || exists j :: 0 <= j < |pairs| && ToLowerAscii(pairs[j].0) == k {
        if k !in m' {
          var j :| 0 <= j < |rest| && ToLowerAscii(rest[j].0) == k;
          assert ToLowerAscii(pairs[j + 1].0) == k;
        }
      }
      forall k | k in m || (exists j :: 0 <= j < |pairs| && ToLowerAscii(pairs[j].0) == k) ensures k in AppendAll(m, pairs) {
        if k !in m && k != ToLowerAscii(pairs[0].0) {
          var j :| 0 <= j < |pairs| && ToLowerAscii(pairs[j].0) == k;
          assert ToLowerAscii(rest[j - 1].0) == k;
        }
      }
    }
  }

  /** Names that differ only in case ("Content-Type" and "content-type")
      collide: the second value is appended to the first instead of
      replacing it. */
  lemma CaseInsensitiveCollision(n1: string, a: string, n2: string, b: string)
    requires ToLowerAscii(n1) == ToLowerAscii(n2)
    ensures AppendAll(map[], [(n1, a), (n2, b)]) == map[ToLowerAscii(n1) := StripHttpSpace(a) + ", " + StripHttpSpace(b)]
  {
    var pairs := [(n1, a), (n2, b)];
    var k := ToLowerAscii(n1);
    var m1 := AppendOne(map[], n1, a);
    assert m1 == map[k := StripHttpSpace(a)];
    assert pairs[1..] == [(n2, b)];
    assert AppendAll(map[], pairs) == AppendAll(m1, [(n2, b)]);
    assert [(n2, b)][1..] == [];
    assert AppendAll(m1, [(n2, b)]) == AppendOne(m1, n2, b);
  }

  /** A mutable `Headers` object: lower-cased names to combined values. */
  class Headers {
    var entries: map<string, string>

    constructor Empty()
      ensures entries == map[]
    {
      entries := map[];
    }

    /** `new Headers(record)`: the record's pairs appended in order. */
    constructor FromRecord(pairs: seq<(string, string)>)
      ensures entries == AppendAll(map[], pairs)
    {
      entries := map[];
      new;
      var i := 0;
      while i < |pairs|
        invariant 0 <= i <= |pairs|
        invariant AppendAll(entries, pairs[i..]) == AppendAll(map[], pairs)
      {
        assert pairs[i..][1..] == pairs[i + 1..];
        entries := AppendOne(entries, pairs[i].0, pairs[i].1);
        i := i + 1;
      }
    }

    /** `headers.get(name)`, case-insensitive. */
    function Get(name: string): (r: Option<string>)
      reads this
      ensures r.Some? <==> ToLowerAscii(name) in entries
      ensures r.Some? ==> r.value == entries[ToLowerAscii(name)]
    {
      var k := ToLowerAscii(name);
      if k in entries then Some(entries[k]) else None
    }

    /** `headers.set(name, value)`: replaces every value of the name. */
    method Set(name: string, value: string)
      modifies this
      ensures entries == old(entries)[ToLowerAscii(name) := StripHttpSpace(value)]
    {
      entries := entries[ToLowerAscii(name) := StripHttpSpace(value)];
    }
  }

  /** The `headers` a caller may pass: a plain record of names to values, or
      a `Headers` object. */
  datatype HeadersInit = Record(pairs: seq<(string, string)>) | Instance(obj: Headers)

  /** The caller's `Headers` object, if one was passed. */
  function InitObjects(init: Option<HeadersInit>): set<Headers>
  {
    if init.Some? && init.value.Instance? then {init.value.obj} else {}
  }

  /** The table `normalizeHeaders` yields for `init`. */
  function InitEntries(init: Option<HeadersInit>): map<string, string>
    reads InitObjects(init)
  {
    match init
    case None => map[]
    case Some(Record(pairs)) => AppendAll(map[], pairs)
    case Some(Instance(h)) => h.entries
  }

  /** `{ ...base, ...extra }` on records: a key already present takes the new
      value in place, a new key goes to the end. */
  function ObjectSpread(base: seq<(string, string)>, extra: seq<(string, string)>): seq<(string, string)>
    decreases |extra|
  {
    if extra == [] then base else ObjectSpread(QueryParams.Set(base, extra[0].0, extra[0].1), extra[1..])
  }

  /** `{ literal, ...(options.headers ?? {}) }`: spreading a `Headers`
      object copies nothing, since it has no own enumerable properties. */
  function SpreadHeaders(literal: seq<(string, string)>, extra: Option<HeadersInit>): seq<(string, string)>
  {
    match extra
    case Some(Record(pairs)) => ObjectSpread(literal, pairs)
    case _ => literal
  }

  lemma {:induction false} SetKeys(e: QueryParams.Entries, name: string, value: string, k: string)
    requires k != name && forall j :: 0 <= j < |e| ==> e[j].0 != k
    ensures forall j :: 0 <= j < |QueryParams.Set(e, name, value)| ==> QueryParams.Set(e, name, value)[j].0 != k
  {
    if QueryParams.Get(e, name).Some? {
      ReplaceFirstKeys(e, name, value, k);
    }
  }

  lemma {:induction false} ReplaceFirstKeys(e: QueryParams.Entries, name: string, value: string, k: string)
    requires k != name && forall j :: 0 <= j < |e| ==> e[j].0 != k
    ensures forall j :: 0 <= j < |QueryParams.ReplaceFirst(e, name, value)| ==> QueryParams.ReplaceFirst(e, name, value)[j].0 != k
  {
    if e != [] {
      if e[0].0 == name {
        WithoutKeys(e[1..], name, k);
      } else {
        ReplaceFirstKeys(e[1..], name, value, k);
      }
    }
  }

  lemma {:induction false} WithoutKeys(e: QueryParams.Entries, name: string, k: string)
    requires forall j :: 0 <= j < |e| ==> e[j].0 != k
    ensures forall j :: 0 <= j < |QueryParams.Without(e, name)| ==> QueryParams.Without(e, name)[j].0 != k
  {
    if e != [] {
      WithoutKeys(e[1..], name, k);
    }
  }

  /** Setting a key other than the first entry's leaves that entry first. */
  lemma SetBehindHead(head: (string, string), e: QueryParams.Entries, name: string, value: string)
    requires name != head.0
    ensures QueryParams.Set([head] + e, name, value) == [head] + QueryParams.Set(e, name, value)
  {
    assert ([head] + e)[1..] == e;
  }

  /** Spreading a record whose keys never lower-case to `k` over a one-entry
      literal keeps the literal's entry first and adds no key named `k`. */
  lemma {:induction false} SpreadKeepsHead(head: (string, string), rest: seq<(string, string)>, extra: seq<(string, string)>, k: string)
    requires ToLowerAscii(head.0) == k
    requires forall j :: 0 <= j < |rest| ==> ToLowerAscii(rest[j].0) != k
    requires forall j :: 0 <= j < |extra| ==> ToLowerAscii(extra[j].0) != k
    ensures var r := ObjectSpread([head] + rest, extra);
            |r| >= 1 && r[0] == head && forall j :: 1 <= j < |r| ==> ToLowerAscii(r[j].0) != k
    decreases |extra|
  {
    if extra != [] {
      var (name, value) := extra[0];
      assert name != head.0;
      SetBehindHead(head, rest, name, value);
      var rest' := QueryParams.Set(rest, name, value);
      forall j | 0 <= j < |rest'| ensures ToLowerAscii(rest'[j].0) != k {
        LowerKeysOfSet(rest, name, value, k);
      }
      SpreadKeepsHead(head, rest', extra[1..], k);
    }
  }

  lemma LowerKeysOfSet(e: QueryParams.Entries, name: string, value: string, k: string)
    requires ToLowerAscii(name) != k
    requires forall j :: 0 <= j < |e| ==> ToLowerAscii(e[j].0) != k
    ensures forall j :: 0 <= j < |QueryParams.Set(e, name, value)| ==> ToLowerAscii(QueryParams.Set(e, name, value)[j].0) != k
  {
    var r := QueryParams.Set(e, name, value);
    forall j | 0 <= j < |r| ensures ToLowerAscii(r[j].0) != k {
      if ToLowerAscii(r[j].0) == k {
        var key := r[j].0;
        assert key != name;
        forall i | 0 <= i < |e| ensures e[i].0 != key {
          assert ToLowerAscii(e[i].0) != k;
        }
        SetKeys(e, name, value, key);
      }
    }
  }

  // ----- Requests and responses -----

  /** One request as it reaches `fetch`: the URL, the method, the header
      table and the form body, if any. */
  datatype SentRequest = SentRequest(url: string, httpMethod: string, headers: map<string, string>, body: Option<QueryParams.Entries>)

  /** A reply: the HTTP outcome, the lower-cased header table and the body,
      which may fail to be read. */
  datatype Response = Response(ok: bool, status: int, headers: map<string, string>, body: Outcome<string>)

  /** Caller options: the method, the headers and the body; other fields
      pass through unchanged and are not modelled. */
  datatype RequestOptions = RequestOptions(httpMethod: Option<string>, headers: Option<HeadersInit>, body: Option<QueryParams.Entries>)

  const ZoneIdHeader: string := "zoneid"
  const FormContentType: string := "application/x-www-form-urlencoded"

  function Header(r: Response, name: string): Option<string>
  {
    if name in r.headers then Some(r.headers[name]) else None
  }

  predicate IsJsonType(contentType: string)
  {
    Contains(contentType, "application/json") || Contains(contentType, "application/captive+json")
  }

  /** `response.json()`: read the body, then parse it. */
  function ReadJson<T>(r: Response, parse: string -> Outcome<Option<T>>): Outcome<Option<T>>
  {
    match r.body
    case Thrown(e) => Thrown(e)
    case Returned(text) => parse(text)
  }

  /** `parseJson(response)`. `parse` stands for `JSON.parse`: a JSON `null`
      is `Returned(None)`, malformed text throws `SyntaxError`. An empty
      declared length gives null; a reply not declared as JSON is parsed
      from its text, where an empty text gives null and a syntax error
      escapes; a reply declared as JSON turns a syntax error into null and
      lets any other error escape. */
  function ParseJson<T>(r: Response, parse: string -> Outcome<Option<T>>): (d: Outcome<Option<T>>)
    ensures Header(r, "content-length") == Some("0") ==> d == Returned(None)
    ensures IsJsonType(Header(r, "content-type").GetOr("")) ==> !(d.Thrown? && d.error.SyntaxError?)
    ensures r.body == Returned("") && !IsJsonType(Header(r, "content-type").GetOr("")) ==> d == Returned(None)
    ensures Header(r, "content-length") != Some("0") && !IsJsonType(Header(r, "content-type").GetOr("")) ==>
              (r.body.Thrown? ==> d == Thrown(r.body.error))
              && (r.body.Returned? && r.body.value != "" ==> d == parse(r.body.value))
    ensures var read := ReadJson(r, parse);
            Header(r, "content-length") != Some("0") && IsJsonType(Header(r, "content-type").GetOr("")) ==>
              (read.Thrown? && read.error.SyntaxError? ==> d == Returned(None))
              && (!(read.Thrown? && read.error.SyntaxError?) ==> d == read)
  {
    if Header(r, "content-length") == Some("0") then Returned(None)
    else
      var contentType := Header(r, "content-type").GetOr("");
      if !IsJsonType(contentType) then
        match r.body
        case Thrown(e) => Thrown(e)
        case Returned(text) => if text == "" then Returned(None) else parse(text)
      else
        match ReadJson(r, parse)
        case Thrown(e) => if e.SyntaxError? then Returned(None) else Thrown(e)
        case Returned(v) => Returned(v)
  }

  /** The declared content type only matters for bodies that are empty or
      malformed: a readable, well-formed, non-empty body parses the same way
      whatever the reply calls itself. */
  lemma ParseJsonTypeIrrelevant<T>(r: Response, parse: string -> Outcome<Option<T>>, contentType: string)
    requires r.body.Returned? && r.body.value != "" && parse(r.body.value).Returned?
    ensures var r' := r.(headers := r.headers["content-type" := contentType]);
            ParseJson(r, parse) == ParseJson(r', parse) == (if Header(r, "content-length") == Some("0") then Returned(None) else parse(r.body.value))
  {
  }

  /** A malformed body is null when declared as JSON and an error when not. */
  lemma ParseJsonMalformed<T>(r: Response, parse: string -> Outcome<Option<T>>)
    requires Header(r, "content-length") != Some("0")
    requires r.body.Returned? && r.body.value != "" && parse(r.body.value).Thrown? && parse(r.body.value).error.SyntaxError?
    ensures ParseJson(r, parse) == if IsJsonType(Header(r, "content-type").GetOr("")) then Returned(None) else parse(r.body.value)
  {
  }

  /** `request`: a rejected fetch or a parse failure propagates; otherwise
      `ok` and `status` are copied from the reply and `data` is the parsed
      body. */
  function RequestOutcome<T>(fetched: Outcome<Response>, parse: string -> Outcome<Option<T>>): (o: Outcome<ApiResponse<T>>)
    ensures fetched.Thrown? ==> o == Thrown(fetched.error)
    ensures o.Returned? ==> fetched.Returned? && o.value.ok == fetched.value.ok && o.value.status == fetched.value.status
                            && Returned(o.value.data) == ParseJson(fetched.value, parse)
    ensures fetched.Returned? && ParseJson(fetched.value, parse).Returned? ==> o.Returned?
    ensures fetched.Returned? && ParseJson(fetched.value, parse).Thrown? ==> o == Thrown(ParseJson(fetched.value, parse).error)
  {
    match fetched
    case Thrown(e) => Thrown(e)
    case Returned(resp) =>
      match ParseJson(resp, parse)
      case Thrown(e) => Thrown(e)
      case Returned(data) => Returned(ApiResponse(resp.ok, resp.status, data))
  }

  // ----- Logon form -----

  /** The body `toFormData` builds: `user` only when non-empty, `password`
      only when present and non-empty. */
  function FormEntries(c: LogonRequest): (e: QueryParams.Entries)
    ensures QueryParams.Get(e, "user") == (if c.user != "" then Some(c.user) else None)
    ensures QueryParams.Get(e, "password") == (if c.password.Some? && c.password.value != "" then c.password else None)
    ensures e == [] <==> c.user == "" && (c.password.None? || c.password.value == "")
    ensures |e| <= 2
    ensures forall k :: 0 <= k < |e| ==> e[k].0 == "user" || e[k].0 == "password"
    ensures forall k, l :: 0 <= k < l < |e| ==> e[k].0 != e[l].0
  {
    var withUser := if c.user != "" then QueryParams.Set([], "user", c.user) else [];
    assert QueryParams.Get(withUser, "user") == (if c.user != "" then Some(c.user) else None)
           && QueryParams.Get(withUser, "password").None? by {
      if c.user != "" {
        QueryParams.SetThenGet([], "user", c.user, "password");
        QueryParams.GetIsFirstValue(withUser, "password");
      }
    }
    if c.password.Some? && c.password.value != "" then
      var e := QueryParams.Set(withUser, "password", c.password.value);
      assert QueryParams.Get(e, "user") == QueryParams.Get(withUser, "user") by {
        QueryParams.SetThenGet(withUser, "password", c.password.value, "user");
        QueryParams.GetIsFirstValue(withUser, "user");
        QueryParams.GetIsFirstValue(e, "user");
      }
      e
    else
      withUser
  }

  // ----- The client -----

  /** The API client. `fetchImpl` and `parse` are the injected `fetch` and
      `JSON.parse`; payloads are taken to be status replies, as the
      client's casts declare. */
  class CaptivePortalClient {
    const baseUrl: string
    const fetchImpl: SentRequest -> Outcome<Response>
    const parse: string -> Outcome<Option<ClientStatusResponse>>

    constructor (baseUrl: string, fetchImpl: SentRequest -> Outcome<Response>, parse: string -> Outcome<Option<ClientStatusResponse>>)
      ensures this.baseUrl == StripTrailingSlash(baseUrl)
      ensures this.fetchImpl == fetchImpl && this.parse == parse
    {
      this.baseUrl := StripTrailingSlash(baseUrl);
      this.fetchImpl := fetchImpl;
      this.parse := parse;
    }

    /** What one request yields. */
    function Exchange(sent: SentRequest): Outcome<ApiResponse<ClientStatusResponse>>
    {
      RequestOutcome(fetchImpl(sent), parse)
    }

    /** `normalizeHeaders`: a fresh empty table, a fresh table built from a
      record, or the caller's own `Headers` object. */
    method NormalizeHeaders(init: Option<HeadersInit>) returns (h: Headers)
      ensures h.entries == InitEntries(init)
      ensures init.Some? && init.value.Instance? ==> h == init.value.obj
      ensures !(init.Some? && init.value.Instance?) ==> fresh(h)
    {
      if init.None? {
        h := new Headers.Empty();
      } else if init.value.Record? {
        h := new Headers.FromRecord(init.value.pairs);
      } else {
        h := init.value.obj;
      }
    }

    /** `withZoneId`: the normalised headers with `zoneid` set to the zone,
      replacing whatever the caller put there. A caller's `Headers` object
      is changed in place. */
    method WithZoneId(zoneId: string, init: Option<HeadersInit>) returns (h: Headers)
      modifies InitObjects(init)
      ensures h.entries == old(InitEntries(init))[ZoneIdHeader := StripHttpSpace(zoneId)]
      ensures h.Get("zoneid") == Some(StripHttpSpace(zoneId))
      ensures init.Some? && init.value.Instance? ==> h == init.value.obj
      ensures !(init.Some? && init.value.Instance?) ==> fresh(h)
    {
      h := NormalizeHeaders(init);
      assert ToLowerAscii(ZoneIdHeader) == ZoneIdHeader;
      h.Set(ZoneIdHeader, zoneId);
    }

    /** `request(path, init)`. */
    method Request(path: string, httpMethod: string, headers: Headers, body: Option<QueryParams.Entries>)
      returns (r: Outcome<ApiResponse<ClientStatusResponse>>)
      ensures r == Exchange(SentRequest(baseUrl + path, httpMethod, headers.entries, body))
    {
      r := Exchange(SentRequest(baseUrl + path, httpMethod, headers.entries, body));
    }

    /** `getClientStatus`: GET unless the caller names a method. */
    method GetClientStatus(zoneId: string, options: RequestOptions) returns (r: Outcome<ApiResponse<ClientStatusResponse>>)
      modifies InitObjects(options.headers)
      ensures r == Exchange(SentRequest(baseUrl + StatusPath(zoneId), options.httpMethod.GetOr("GET"),
                                        old(InitEntries(options.headers))[ZoneIdHeader := StripHttpSpace(zoneId)], options.body))
    {
      var headers := WithZoneId(zoneId, options.headers);
      r := Request(StatusPath(zoneId), options.httpMethod.GetOr("GET"), headers, options.body);
    }

    /** `logon`: always POST, with the form content type (unless the
      caller's record overrides it) and the form body built from the
      credentials; the caller's method and body are ignored. */
    method Logon(zoneId: string, credentials: LogonRequest, options: RequestOptions) returns (r: Outcome<ApiResponse<ClientStatusResponse>>)
      ensures r == Exchange(SentRequest(baseUrl + LogonPath(zoneId), "POST", LogonHeaders(zoneId, options.headers),
                                        Some(FormEntries(credentials))))
    {
      var params := ToFormData(credentials);
      var headers := WithZoneId(zoneId, Some(Record(SpreadHeaders([("Content-Type", FormContentType)], options.headers))));
      r := Request(LogonPath(zoneId), "POST", headers, Some(params.entries));
    }

    /** `logoff`: POST unless the caller names a method. */
    method Logoff(zoneId: string, options: RequestOptions) returns (r: Outcome<ApiResponse<ClientStatusResponse>>)
      modifies InitObjects(options.headers)
      ensures r == Exchange(SentRequest(baseUrl + LogoffPath(zoneId), options.httpMethod.GetOr("POST"),
                                        old(InitEntries(options.headers))[ZoneIdHeader := StripHttpSpace(zoneId)], options.body))
    {
      var headers := WithZoneId(zoneId, options.headers);
      r := Request(LogoffPath(zoneId), options.httpMethod.GetOr("POST"), headers, options.body);
    }

    /** `toFormData`. */
    method ToFormData(credentials: LogonRequest) returns (params: QueryParams.SearchParams)
      ensures fresh(params)
      ensures params.entries == FormEntries(credentials)
    {
      params := new QueryParams.SearchParams();
      if credentials.user != "" {
        params.SetParam("user", credentials.user);
      }
      if credentials.password.Some? && credentials.password.value != "" {
        params.SetParam("password", credentials.password.value);
      }
    }
  }

  /** The header table a logon sends. */
  function LogonHeaders(zoneId: string, extra: Option<HeadersInit>): map<string, string>
  {
    AppendAll(map[], SpreadHeaders([("Content-Type", FormContentType)], extra))[ZoneIdHeader := StripHttpSpace(zoneId)]
  }

  /** The caller's record, spread after the form content type, keeps that
      content type when it names none of its own. */
  lemma SpreadContentType(extra: Option<HeadersInit>)
    requires extra.Some? && extra.value.Record? ==>
               forall j :: 0 <= j < |extra.value.pairs| ==> ToLowerAscii(extra.value.pairs[j].0) != "content-type"
    ensures var m := AppendAll(map[], SpreadHeaders([("Content-Type", FormContentType)], extra));
            "content-type" in m && m["content-type"] == FormContentType
  {
    var k := "content-type";
    assert ToLowerAscii("Content-Type") == k;
    var head := ("Content-Type", FormContentType);
    var spread := SpreadHeaders([head], extra);
    if extra.Some? && extra.value.Record? {
      assert [head] + [] == [head];
      SpreadKeepsHead(head, [], extra.value.pairs, k);
    }
    assert |spread| >= 1 && spread[0] == head && forall j :: 1 <= j < |spread| ==> ToLowerAscii(spread[j].0) != k;
    var first := AppendOne(map[], head.0, head.1);
    assert first == map[k := FormContentType];
    AppendAllKeeps(first, spread[1..], k);
  }

  /** A logon always carries the zone in `zoneid`, and carries the form
      content type whenever the caller's headers name no content type of
      their own. */
  lemma LogonHeadersShape(zoneId: string, extra: Option<HeadersInit>)
    requires extra.Some? && extra.value.Record? ==>
               forall j :: 0 <= j < |extra.value.pairs| ==> ToLowerAscii(extra.value.pairs[j].0) != "content-type"
    ensures LogonHeaders(zoneId, extra)[ZoneIdHeader] == StripHttpSpace(zoneId)
    ensures "content-type" in LogonHeaders(zoneId, extra)
    ensures LogonHeaders(zoneId, extra)["content-type"] == FormContentType
  {
    SpreadContentType(extra);
    assert ZoneIdHeader != "content-type";
  }
}
