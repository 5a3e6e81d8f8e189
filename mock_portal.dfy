/** The development stand-in for the portal appliance: a process-wide table
    from "zone:ip" to a session, and the status, logon and logoff handlers
    that read and change it. Request parsing by the web framework, the
    session identifier generator and the clock are parameters. */
module MockPortal {
  import opened Wrappers
  import opened Strings
  import opened Dtos
  import QueryParams

  /** The mock's configuration: the login method it announces and the
      accepted user names with their passwords. */
  datatype Config = Config(authType: AuthType, validUsers: map<string, string>)

  /** The configuration the repository ships. */
  const MockConfig: Config := Config(Normal, map["maker" := "secret", "ats-demo" := "ats-demo123"])

  datatype Session = Session(user: string, authorized: bool, sessionId: string, startTime: real, mac: string)

  const LoopbackIp: string := "127.0.0.1"
  const MacPrefix: string := "02:00:00:00:00:"
  const AnonymousUser: string := "anonymous"

  // ----- Client address -----

  /** The client address: the first comma-separated token of the
      `x-forwarded-for` header, trimmed, or the loopback address when the
      header is missing or empty. */
  function GetIp(forwardedFor: Option<string>): (ip: string)
    ensures forwardedFor.None? || forwardedFor == Some("") ==> ip == LoopbackIp
    ensures forwardedFor.Some? && forwardedFor.value != "" ==> ',' !in ip
    ensures ip != [] ==> !IsSpace(ip[0]) && !IsSpace(ip[|ip| - 1])
  {
    match forwardedFor
    case Some(h) =>
      if h == "" then LoopbackIp
      else
        Trim(Split(h, ',')[0])
    case None => LoopbackIp
  }

  /** When the header lists several addresses, the first one (trimmed) is
      taken and the rest are ignored. */
  lemma GetIpFirstToken(first: string, rest: string)
    requires ',' !in first
    ensures GetIp(Some(first + "," + rest)) == Trim(first)
  {
    SplitFirst(first, ',', rest);
  }

  /** A header holding one address yields that address, trimmed. */
  lemma GetIpSingle(h: string)
    requires h != "" && ',' !in h
    ensures GetIp(Some(h)) == Trim(h)
  {
    SplitNone(h, ',');
  }

  // ----- Session key -----

  /** The session table key `${zoneId}:${ip}`: its first colon separates
      the zone's decimal rendering from the address. */
  function MakeSessionKey(zoneId: int, ip: string): (key: string)
    ensures var z := IntToString(zoneId);
            IndexOf(key, ':') == |z| < |key| && key[..|z|] == z && key[|z| + 1..] == ip
  {
    IndexOfAfter(IntToString(zoneId), ':', ip);
    IntToString(zoneId) + ":" + ip
  }

  /** Distinct (zone, address) pairs never share a session key: the zone's
      decimal rendering holds no colon, so the first colon splits the key. */
  lemma SessionKeyInjective(z1: int, ip1: string, z2: int, ip2: string)
    requires MakeSessionKey(z1, ip1) == MakeSessionKey(z2, ip2)
    ensures z1 == z2 && ip1 == ip2
  {
    var a, b := IntToString(z1), IntToString(z2);
    var key := MakeSessionKey(z1, ip1);
    assert a == key[..|a|] == b;
    IntToStringInjective(z1, z2);
    assert ip1 == key[|a| + 1..] == ip2;
  }

  // ----- Derived MAC address -----

  /** Length of the run of decimal digits that starts `s`. */
  function DigitRun(s: string): (n: nat)
    ensures n <= |s|
    ensures forall k :: 0 <= k < n ==> IsDigit(s[k])
    ensures n < |s| ==> !IsDigit(s[n])
  {
    if s == [] || !IsDigit(s[0]) then 0 else 1 + DigitRun(s[1..])
  }

  predicate AllDigits(s: string)
  {
    forall k :: 0 <= k < |s| ==> IsDigit(s[k])
  }

  /** The value of a string of decimal digits. */
  function DigitsValue(d: string): nat
    requires AllDigits(d)
  {
    if d == [] then 0 else DigitsValue(d[..|d| - 1]) * 10 + DigitValue(d[|d| - 1])
  }

  /** `parseInt(s, 10)`: skip leading whitespace, read an optional sign and
      then the longest run of decimal digits; `None` stands for NaN, the
      result when there is no digit at all. */
  function JsParseInt(s: string): Option<int>
  {
    if s != [] && IsSpace(s[0]) then JsParseInt(s[1..]) else ParseSigned(s)
  }

  /** `parseInt` after the whitespace: an optional sign and a digit run. */
  function ParseSigned(t: string): Option<int>
  {
    var negative := t != [] && t[0] == '-';
    var rest := SignStripped(t);
    var n := DigitRun(rest);
    if n == 0 then None
    else
      var v: int := DigitsValue(rest[..n]);
      if negative then Some(-v) else Some(v)
  }

  /** `parseInt` gives NaN exactly when no digit follows the leading
      whitespace and the optional sign. */
  lemma {:induction false} ParseIntNaN(s: string)
    ensures JsParseInt(s).None? <==> DigitRun(SignStripped(s[LeadingSpaces(s)..])) == 0
  {
    if s != [] && IsSpace(s[0]) {
      ParseIntNaN(s[1..]);
      assert s[1..][LeadingSpaces(s[1..])..] == s[LeadingSpaces(s)..];
    } else {
      assert s[LeadingSpaces(s)..] == s;
    }
  }

  function SignStripped(t: string): string
  {
    if t != [] && (t[0] == '-' || t[0] == '+') then t[1..] else t
  }

  /** `parseInt` reads back what the decimal rendering of a number wrote. */
  lemma {:induction false} DigitsValueOfNatToString(n: nat)
    ensures AllDigits(NatToString(n)) && DigitsValue(NatToString(n)) == n
  {
    var s := NatToString(n);
    if n >= 10 {
      DigitsValueOfNatToString(n / 10);
      assert s[..|s| - 1] == NatToString(n / 10);
    }
  }

  lemma {:induction false} DigitRunOfDigits(d: string)
    requires AllDigits(d)
    ensures DigitRun(d) == |d|
  {
    if d != [] {
      DigitRunOfDigits(d[1..]);
    }
  }

  lemma ParseIntOfDigits(d: string)
    requires d != [] && AllDigits(d)
    ensures JsParseInt(d) == Some(DigitsValue(d))
  {
    assert !IsSpace(d[0]);
    DigitRunOfDigits(d);
    assert d[..|d|] == d;
  }

  lemma ParseIntOfNatToString(n: nat)
    ensures JsParseInt(NatToString(n)) == Some(n)
  {
    DigitsValueOfNatToString(n);
    ParseIntOfDigits(NatToString(n));
  }

  /** `acc + parseInt(part, 10)` where NaN absorbs the addition. */
  function PlusParsed(acc: Option<int>, v: Option<int>): Option<int>
  {
    if acc.Some? && v.Some? then Some(acc.value + v.value) else None
  }

  /** `parts.reduce((acc, part) => acc + parseInt(part, 10), acc)`: a left
      fold over the parts, NaN absorbing every later addition. */
  function SumFrom(acc: Option<int>, parts: seq<string>): Option<int>
    decreases parts
  {
    if parts == [] then acc else SumFrom(PlusParsed(acc, JsParseInt(parts[0])), parts[1..])
  }

  /** The JavaScript remainder, which takes the sign of the dividend. */
  function JsRem(a: int, b: int): (r: int)
    requires b > 0
    ensures -b < r < b
    ensures a >= 0 ==> r == a % b
  {
    if a >= 0 then a % b else -((-a) % b)
  }

  function HexChar(d: nat): char
    requires d < 16
  {
    "0123456789abcdef"[d]
  }

  function HexDigits(n: nat): (s: string)
    ensures |s| >= 1
    ensures n < 16 <==> |s| == 1
  {
    if n < 16 then [HexChar(n)] else HexDigits(n / 16) + [HexChar(n % 16)]
  }

  /** `x.toString(16)` for an integer `x`, NaN rendered as "NaN". */
  function JsHexString(x: Option<int>): string
  {
    match x
    case None => "NaN"
    case Some(i) => if i < 0 then "-" + HexDigits(-i) else HexDigits(i)
  }

  /** `s.padStart(2, "0")`. */
  function PadTwo(s: string): string
  {
    if |s| >= 2 then s else seq(2 - |s|, _ => '0') + s
  }

  /** The MAC address shown for a client: a fixed prefix and the sum of the
      address's dotted parts modulo 255, in hexadecimal. */
  function FakeMacFromIp(ip: string): (mac: string)
    ensures MacPrefix <= mac
  {
    MacFromSum(SumFrom(Some(0), Split(ip, '.')))
  }

  /** The MAC for a given sum of the address's parts (NaN rendered as "NaN"). */
  function MacFromSum(sum: Option<int>): (mac: string)
    ensures MacPrefix <= mac
  {
    var rem := match sum case Some(s) => Some(JsRem(s, 255)) case None => None;
    MacPrefix + PadTwo(JsHexString(rem))
  }

  /** Every part is a non-empty run of decimal digits. */
  predicate NumericParts(parts: seq<string>)
  {
    parts == [] || (parts[0] != [] && AllDigits(parts[0]) && NumericParts(parts[1..]))
  }

  /** The sum of the parts of a dotted address made of decimal numbers. */
  function DottedSum(parts: seq<string>): nat
    requires NumericParts(parts)
  {
    if parts == [] then 0 else DigitsValue(parts[0]) + DottedSum(parts[1..])
  }

  predicate IsNumericDotted(ip: string)
  {
    NumericParts(Split(ip, '.'))
  }

  /** One step of the fold over a numeric part. */
  lemma SumFromDigits(acc: int, parts: seq<string>)
    requires parts != [] && parts[0] != [] && AllDigits(parts[0])
    ensures SumFrom(Some(acc), parts) == SumFrom(Some(acc + DigitsValue(parts[0])), parts[1..])
  {
    ParseIntOfDigits(parts[0]);
    assert PlusParsed(Some(acc), JsParseInt(parts[0])) == Some(acc + DigitsValue(parts[0]));
  }

  /** Folding numeric parts onto a number adds their decimal values. */
  lemma {:induction false} SumOfNumericParts(acc: int, parts: seq<string>)
    requires NumericParts(parts)
    ensures SumFrom(Some(acc), parts) == Some(acc + DottedSum(parts))
    decreases parts
  {
    if parts != [] {
      SumFromDigits(acc, parts);
      SumOfNumericParts(acc + DigitsValue(parts[0]), parts[1..]);
    }
  }

  /** A sum that is a number gives two lower-case hex digits of its
      remainder modulo 255. */
  lemma MacOfSum(n: nat)
    ensures var b := n % 255;
            MacFromSum(Some(n)) == MacPrefix + [HexChar(b / 16), HexChar(b % 16)]
  {
    var b := n % 255;
    assert JsRem(n, 255) == b;
    if b >= 16 {
      assert HexDigits(b / 16) == [HexChar(b / 16)];
    }
  }

  /** Numeric parts give the MAC of their decimal sum. */
  lemma MacOfNumericParts(parts: seq<string>)
    requires NumericParts(parts)
    ensures var b := DottedSum(parts) % 255;
            MacFromSum(SumFrom(Some(0), parts)) == MacPrefix + [HexChar(b / 16), HexChar(b % 16)]
  {
    var n := DottedSum(parts);
    SumOfNumericParts(0, parts);
    assert SumFrom(Some(0), parts) == Some(n);
    MacOfSum(n);
  }

  /** For an address of decimal parts (an IPv4 dotted quad, say) the MAC ends
      in exactly two lower-case hex digits of the digit sum modulo 255, a byte
      in 0..254. */
  lemma MacOfNumericIp(ip: string)
    requires IsNumericDotted(ip)
    ensures var b := DottedSum(Split(ip, '.')) % 255;
            FakeMacFromIp(ip) == MacPrefix + [HexChar(b / 16), HexChar(b % 16)]
  {
    MacOfNumericParts(Split(ip, '.'));
  }

  /** An address with a part that holds no number (an IPv6 address, for
      one) gives the suffix "NaN" instead of a byte. */
  lemma MacOfIpv6Loopback()
    ensures FakeMacFromIp("::1") == MacPrefix + "NaN"
  {
    SplitNone("::1", '.');
    assert DigitRun(SignStripped("::1")) == 0;
  }

  // ----- Replies -----

  /** The status reply for the client at `ip` in zone `zoneId`: the stored
      session's identity when an authorized session exists under that key,
      otherwise NOT_AUTHORIZED with the configured login method and the
      derived MAC. */
  function BuildResponse(sessions: map<string, Session>, config: Config, zoneId: int, ip: string): (r: ClientStatusResponse)
    ensures r.ipAddress == ip
    ensures var key := MakeSessionKey(zoneId, ip);
            r.AuthorizedStatus? <==> key in sessions && sessions[key].authorized
    ensures var key := MakeSessionKey(zoneId, ip);
            r.AuthorizedStatus? ==> (r.userName == sessions[key].user && r.sessionId == sessions[key].sessionId
                                     && r.startTime == sessions[key].startTime && r.macAddress == sessions[key].mac)
    ensures !r.AuthorizedStatus? ==> r == UnauthorizedStatus(ip, Some(FakeMacFromIp(ip)), Some(config.authType))
  {
    var key := MakeSessionKey(zoneId, ip);
    if key in sessions && sessions[key].authorized then
      var s := sessions[key];
      AuthorizedStatus(ip, s.mac, s.user, s.sessionId, s.startTime)
    else
      UnauthorizedStatus(ip, Some(FakeMacFromIp(ip)), Some(config.authType))
  }

  // ----- Logon -----

  /** A logon request body as the framework delivers it: the parameters of
      a URL-encoded form, and the string fields of a JSON body. A body that
      is not an object, `null` included, or that fails to parse, reads as the
      empty map: each gives the same ("", "") as a missing field. */
  datatype LogonBody = LogonBody(form: QueryParams.Entries, json: map<string, string>)

  /** The credentials the handler reads from the body, selected by the
      request's content type; absent fields read as "". */
  function ParseCredentials(contentType: Option<string>, body: LogonBody): (creds: (string, string))
    ensures var ct := contentType.GetOr("");
            !Contains(ct, "application/x-www-form-urlencoded") && !Contains(ct, "application/json") ==> creds == ("", "")
    ensures Contains(contentType.GetOr(""), "application/x-www-form-urlencoded") ==>
              creds == (QueryParams.Get(body.form, "user").GetOr(""), QueryParams.Get(body.form, "password").GetOr(""))
    ensures var ct := contentType.GetOr("");
            Contains(ct, "application/json") && !Contains(ct, "application/x-www-form-urlencoded") ==>
              (creds.0 == if "user" in body.json then body.json["user"] else "")
              && (creds.1 == if "password" in body.json then body.json["password"] else "")
  {
    var ct := contentType.GetOr("");
    if Contains(ct, "application/x-www-form-urlencoded") then
      (QueryParams.Get(body.form, "user").GetOr(""), QueryParams.Get(body.form, "password").GetOr(""))
    else if Contains(ct, "application/json") then
      (if "user" in body.json then body.json["user"] else "", if "password" in body.json then body.json["password"] else "")
    else
      ("", "")
  }

  /** Whether a logon with these credentials succeeds under `config`. */
  predicate Accepts(config: Config, user: string, password: string)
  {
    match config.authType
    case NoAuth => true
    case Normal => user in config.validUsers && config.validUsers[user] != "" && config.validUsers[user] == password
  }

  /** The user name stored for a successful logon. */
  function StoredUser(config: Config, user: string): string
  {
    if config.authType == NoAuth && user == "" then AnonymousUser else user
  }

  /** The session table after a logon attempt: an accepted one stores a
      fresh authorized session under the client's key, a rejected one
      changes nothing, and no other key is touched. */
  function AfterLogon(sessions: map<string, Session>, config: Config, zoneId: int, ip: string,
                      user: string, password: string, sessionId: string, nowMs: int): (after: map<string, Session>)
    ensures !Accepts(config, user, password) ==> after == sessions
    ensures var key := MakeSessionKey(zoneId, ip);
            Accepts(config, user, password) ==>
              key in after && after[key] == Session(StoredUser(config, user), true, sessionId, nowMs as real / 1000.0, FakeMacFromIp(ip))
    ensures forall k :: k != MakeSessionKey(zoneId, ip) ==> (k in after <==> k in sessions)
    ensures forall k :: k != MakeSessionKey(zoneId, ip) && k in after ==> after[k] == sessions[k]
  {
    if Accepts(config, user, password) then
      sessions[MakeSessionKey(zoneId, ip) := Session(StoredUser(config, user), true, sessionId, nowMs as real / 1000.0, FakeMacFromIp(ip))]
    else
      sessions
  }

  /** Logon followed by status: a successful logon makes the very next status
      reply AUTHORIZED with the stored user and the new session; a failed
      one leaves the reply what it was before. */
  lemma LogonThenStatus(sessions: map<string, Session>, config: Config, zoneId: int, ip: string,
                        user: string, password: string, sessionId: string, nowMs: int)
    ensures var r := BuildResponse(AfterLogon(sessions, config, zoneId, ip, user, password, sessionId, nowMs), config, zoneId, ip);
            Accepts(config, user, password) ==>
              r == AuthorizedStatus(ip, FakeMacFromIp(ip), StoredUser(config, user), sessionId, nowMs as real / 1000.0)
    ensures !Accepts(config, user, password) ==>
              BuildResponse(AfterLogon(sessions, config, zoneId, ip, user, password, sessionId, nowMs), config, zoneId, ip)
              == BuildResponse(sessions, config, zoneId, ip)
  {
  }

  /** With the "none" method every logon succeeds, and a blank user name is
      stored as "anonymous". */
  lemma AnonymousLogonAlwaysSucceeds(config: Config, user: string, password: string)
    requires config.authType == NoAuth
    ensures Accepts(config, user, password)
    ensures StoredUser(config, user) == if user == "" then AnonymousUser else user
  {
  }

  /** The shipped credentials: "maker"/"secret" logs in; a wrong password,
      an unknown user, or a blank password for a listed user does not. */
  lemma ShippedCredentials()
    ensures Accepts(MockConfig, "maker", "secret")
    ensures Accepts(MockConfig, "ats-demo", "ats-demo123")
    ensures !Accepts(MockConfig, "maker", "Secret")
    ensures !Accepts(MockConfig, "maker", "")
    ensures !Accepts(MockConfig, "guest", "secret")
  {
  }

  /** A logon changes at most the key of its own (zone, address): every other
      client's status reply is the same before and after. */
  lemma LogonLeavesOthersAlone(sessions: map<string, Session>, config: Config, zoneId: int, ip: string,
                               user: string, password: string, sessionId: string, nowMs: int,
                               otherZone: int, otherIp: string)
    requires (otherZone, otherIp) != (zoneId, ip)
    ensures BuildResponse(AfterLogon(sessions, config, zoneId, ip, user, password, sessionId, nowMs), config, otherZone, otherIp)
            == BuildResponse(sessions, config, otherZone, otherIp)
  {
    if MakeSessionKey(otherZone, otherIp) == MakeSessionKey(zoneId, ip) {
      SessionKeyInjective(otherZone, otherIp, zoneId, ip);
    }
  }

  // ----- Logoff -----

  /** The session table after a logoff: the key is gone, whether or not it
      was there. */
  function AfterLogoff(sessions: map<string, Session>, zoneId: int, ip: string): (after: map<string, Session>)
    ensures MakeSessionKey(zoneId, ip) !in after
    ensures forall k :: k in after <==> k in sessions && k != MakeSessionKey(zoneId, ip)
    ensures forall k :: k in after ==> after[k] == sessions[k]
  {
    sessions - {MakeSessionKey(zoneId, ip)}
  }

  /** Logoff followed by status always answers NOT_AUTHORIZED, and a second
      logoff changes nothing further. */
  lemma LogoffThenStatus(sessions: map<string, Session>, config: Config, zoneId: int, ip: string)
    ensures BuildResponse(AfterLogoff(sessions, zoneId, ip), config, zoneId, ip)
            == UnauthorizedStatus(ip, Some(FakeMacFromIp(ip)), Some(config.authType))
    ensures AfterLogoff(AfterLogoff(sessions, zoneId, ip), zoneId, ip) == AfterLogoff(sessions, zoneId, ip)
  {
  }

  /** A logoff leaves every other client's status reply unchanged. */
  lemma LogoffLeavesOthersAlone(sessions: map<string, Session>, config: Config, zoneId: int, ip: string,
                                otherZone: int, otherIp: string)
    requires (otherZone, otherIp) != (zoneId, ip)
    ensures BuildResponse(AfterLogoff(sessions, zoneId, ip), config, otherZone, otherIp)
            == BuildResponse(sessions, config, otherZone, otherIp)
  {
    if MakeSessionKey(otherZone, otherIp) == MakeSessionKey(zoneId, ip) {
      SessionKeyInjective(otherZone, otherIp, zoneId, ip);
    }
  }

  /** The logoff reply is NOT_AUTHORIZED, which the declared logoff reply
      type (UNKNOWN or AUTHORIZED) does not admit. */
  lemma LogoffReplyOutsideDeclaredType(sessions: map<string, Session>, config: Config, zoneId: int, ip: string)
    ensures !IsLogoffResponse(BuildResponse(AfterLogoff(sessions, zoneId, ip), config, zoneId, ip))
  {
    LogoffThenStatus(sessions, config, zoneId, ip);
  }

  // ----- The store -----

  /** The process-wide session table with its three handlers. */
  class SessionStore {
    const config: Config
    var sessions: map<string, Session>

    constructor (config: Config)
      ensures this.config == config && sessions == map[]
    {
      this.config := config;
      sessions := map[];
    }

    /** GET/POST status: reads the table and changes nothing. */
    method HandleStatus(zoneId: int, forwardedFor: Option<string>) returns (r: ClientStatusResponse)
      ensures r == BuildResponse(sessions, config, zoneId, GetIp(forwardedFor))
    {
      var ip := GetIp(forwardedFor);
      r := BuildResponse(sessions, config, zoneId, ip);
    }

    /** The credential check of the logon handler: with the "none" method
        every attempt succeeds and a blank user becomes "anonymous";
        otherwise the user needs a non-empty expected password equal to the
        one supplied. */
    method Authenticate(suppliedUser: string, password: string) returns (success: bool, user: string)
      ensures success == Accepts(config, suppliedUser, password)
      ensures success ==> user == StoredUser(config, suppliedUser)
    {
      user := suppliedUser;
      success := false;
      if config.authType == NoAuth {
        success := true;
        if user == "" {
          user := AnonymousUser;
        }
      } else {
        if user in config.validUsers {
          var expected := config.validUsers[user];
          if expected != "" && expected == password {
            success := true;
          }
        }
      }
    }

    /** POST logon: on success stores a fresh session under the client's key
        (`sessionId` and `nowMs` stand for `crypto.randomUUID()` and
        `Date.now()`); always answers with the resulting status. */
    method HandleLogon(zoneId: int, forwardedFor: Option<string>, contentType: Option<string>, body: LogonBody,
                       sessionId: string, nowMs: int) returns (r: ClientStatusResponse)
      modifies this
      ensures var ip := GetIp(forwardedFor);
              var creds := ParseCredentials(contentType, body);
              sessions == AfterLogon(old(sessions), config, zoneId, ip, creds.0, creds.1, sessionId, nowMs)
      ensures r == BuildResponse(sessions, config, zoneId, GetIp(forwardedFor))
    {
      var ip := GetIp(forwardedFor);
      var creds := ParseCredentials(contentType, body);
      var success, user := Authenticate(creds.0, creds.1);
      if success {
        sessions := sessions[MakeSessionKey(zoneId, ip) := Session(user, true, sessionId, nowMs as real / 1000.0, FakeMacFromIp(ip))];
      }
      r := BuildResponse(sessions, config, zoneId, ip);
    }

    /** POST logoff: deletes the client's key unconditionally and answers
        with the resulting status. */
    method HandleLogoff(zoneId: int, forwardedFor: Option<string>) returns (r: ClientStatusResponse)
      modifies this
      ensures sessions == AfterLogoff(old(sessions), zoneId, GetIp(forwardedFor))
      ensures r == UnauthorizedStatus(GetIp(forwardedFor), Some(FakeMacFromIp(GetIp(forwardedFor))), Some(config.authType))
    {
      var ip := GetIp(forwardedFor);
      sessions := sessions - {MakeSessionKey(zoneId, ip)};
      r := BuildResponse(sessions, config, zoneId, ip);
    }
  }
}
