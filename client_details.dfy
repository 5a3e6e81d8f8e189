/** The connection details shown to an authorized client: two entries that
    are always there (user name, IP address) and up to three that appear
    only when known (MAC address, session id, session start), the latter
    behind a collapsible. Translations come from a lookup, and rendering a
    time value as local text is an oracle. */
module ClientDetails {
  import opened Wrappers
  import opened Strings
  import opened Dtos

  /** `timestamp < 1_000_000_000_000`: below this a timestamp counts as
      seconds. */
  const SecondsThreshold: real := 1000000000000.0

  /** The largest magnitude of a valid time value, in milliseconds. */
  const MaxTimeValue: real := 8640000000000000.0

  /** Truncation toward zero. */
  function Truncate(x: real): (n: int)
    ensures x >= 0.0 ==> n as real <= x < n as real + 1.0
    ensures x < 0.0 ==> n as real - 1.0 < x <= n as real
  {
    if x >= 0.0 then x.Floor else -((-x).Floor)
  }

  /** `new Date(ms).getTime()`: the time value, or `None` for an invalid
      date (out of range). */
  function TimeValue(ms: real): (t: Option<int>)
    ensures t.Some? <==> -MaxTimeValue <= ms <= MaxTimeValue
    ensures t.Some? ==> t.value == Truncate(ms)
  {
    if -MaxTimeValue <= ms <= MaxTimeValue then Some(Truncate(ms)) else None
  }

  /** The millisecond count a timestamp stands for. */
  function Milliseconds(timestamp: real): (ms: real)
    ensures timestamp < SecondsThreshold ==> ms == timestamp * 1000.0
    ensures timestamp >= SecondsThreshold ==> ms == timestamp
  {
    if timestamp < SecondsThreshold then timestamp * 1000.0 else timestamp
  }

  /** `formatSessionStart(timestamp)`: nothing for 0 or an invalid date,
      otherwise the local rendering of the time value. */
  function FormatSessionStart(timestamp: real, localize: int -> string): (r: Option<string>)
    ensures timestamp == 0.0 ==> r.None?
    ensures r.Some? <==> timestamp != 0.0 && TimeValue(Milliseconds(timestamp)).Some?
    ensures r.Some? ==> r.value == localize(TimeValue(Milliseconds(timestamp)).value)
  {
    if timestamp == 0.0 then None
    else
      match TimeValue(Milliseconds(timestamp))
      case None => None
      case Some(t) => Some(localize(t))
  }

  /** Seconds and milliseconds name the same instant: a timestamp in
      seconds from 1e9 on renders like the same instant in milliseconds. */
  lemma SecondsMatchMilliseconds(seconds: real, localize: int -> string)
    requires 1000000000.0 <= seconds < SecondsThreshold
    ensures FormatSessionStart(seconds, localize) == FormatSessionStart(seconds * 1000.0, localize)
  {
  }

  /** A positive timestamp below the threshold is read as seconds, so the
      shown instant is a thousand times further from the epoch. */
  lemma SmallTimestampsAreSeconds(timestamp: real, localize: int -> string)
    requires 0.0 < timestamp < SecondsThreshold
    ensures FormatSessionStart(timestamp, localize) == Some(localize(Truncate(timestamp * 1000.0)))
  {
  }

  /** A timestamp from 1e12 on is read as milliseconds: it is shown as the
      instant it names, truncated to a whole millisecond, unless it is past
      the largest valid date. */
  lemma LargeTimestampsAreMilliseconds(timestamp: real, localize: int -> string)
    requires timestamp >= SecondsThreshold
    ensures FormatSessionStart(timestamp, localize)
            == (if timestamp <= MaxTimeValue then Some(localize(Truncate(timestamp))) else None)
  {
  }

  /** One label/value line of the details list. */
  datatype DetailEntry = DetailEntry(name: string, value: string)

  /** `translateString(key, fallback)`. */
  function Tr(lookup: string -> Option<string>, key: string, fallback: string): string
  {
    lookup(key).GetOr(fallback)
  }

  /** `field?.trim() || notAvailableLabel`. */
  function OrNotAvailable(field: string, lookup: string -> Option<string>): (v: string)
    ensures Trim(field) != "" ==> v == Trim(field)
    ensures Trim(field) == "" ==> v == Tr(lookup, "authorizedDetails.notAvailable", "Not available")
  {
    if Trim(field) != "" then Trim(field) else Tr(lookup, "authorizedDetails.notAvailable", "Not available")
  }

  /** `importantDetails`: always the user name and then the IP address,
      each trimmed or replaced by the "not available" label. */
  function ImportantDetails(status: ClientStatusResponse, lookup: string -> Option<string>): (d: seq<DetailEntry>)
    requires status.AuthorizedStatus?
    ensures |d| == 2
    ensures d[0].name == Tr(lookup, "authorizedDetails.username", "Username")
    ensures d[1].name == Tr(lookup, "authorizedDetails.ipAddress", "IP address")
    ensures d[0].value == OrNotAvailable(status.userName, lookup)
    ensures d[1].value == OrNotAvailable(status.ipAddress, lookup)
  {
    [DetailEntry(Tr(lookup, "authorizedDetails.username", "Username"), OrNotAvailable(status.userName, lookup)),
     DetailEntry(Tr(lookup, "authorizedDetails.ipAddress", "IP address"), OrNotAvailable(status.ipAddress, lookup))]
  }

  /** Whether a session start is shown: `formatSessionStart` gave text,
      and that text is not empty. */
  predicate HasSessionStart(startTime: real, localize: int -> string)
  {
    var s := FormatSessionStart(startTime, localize);
    s.Some? && s.value != ""
  }

  /** How many optional details a status has. */
  function OptionalCount(status: ClientStatusResponse, localize: int -> string): nat
    requires status.AuthorizedStatus?
  {
    (if Trim(status.macAddress) != "" then 1 else 0)
    + (if Trim(status.sessionId) != "" then 1 else 0)
    + (if HasSessionStart(status.startTime, localize) then 1 else 0)
  }

  /** `optionalDetails`: the MAC address, the session id and the session
      start, in that order, each only when it is known. */
  method OptionalDetails(status: ClientStatusResponse, lookup: string -> Option<string>, localize: int -> string)
    returns (details: seq<DetailEntry>)
    requires status.AuthorizedStatus?
    ensures |details| == OptionalCount(status, localize) <= 3
    ensures Trim(status.macAddress) != "" ==>
              details[0] == DetailEntry(Tr(lookup, "authorizedDetails.macAddress", "MAC address"), Trim(status.macAddress))
    ensures var k := if Trim(status.macAddress) != "" then 1 else 0;
            Trim(status.sessionId) != "" ==>
              details[k] == DetailEntry(Tr(lookup, "authorizedDetails.sessionId", "Session ID"), Trim(status.sessionId))
    ensures HasSessionStart(status.startTime, localize) ==>
              details[|details| - 1]
              == DetailEntry(Tr(lookup, "authorizedDetails.connectedSince", "Connected since"),
                             FormatSessionStart(status.startTime, localize).value)
  {
    details := [];
    var mac := Trim(status.macAddress);
    if mac != "" {
      details := details + [DetailEntry(Tr(lookup, "authorizedDetails.macAddress", "MAC address"), mac)];
    }
    var sessionId := Trim(status.sessionId);
    if sessionId != "" {
      details := details + [DetailEntry(Tr(lookup, "authorizedDetails.sessionId", "Session ID"), sessionId)];
    }
    var connectedSince := FormatSessionStart(status.startTime, localize);
    if connectedSince.Some? && connectedSince.value != "" {
      details := details + [DetailEntry(Tr(lookup, "authorizedDetails.connectedSince", "Connected since"), connectedSince.value)];
    }
  }

  /** The collapsible section, present only with optional details; its
      toggle reads "hide" while expanded and "show" otherwise. */
  datatype Collapsible = Collapsible(toggle: string, content: seq<DetailEntry>)

  function CollapsibleFor(optional: seq<DetailEntry>, expanded: bool, lookup: string -> Option<string>): (c: Option<Collapsible>)
    ensures c.Some? <==> |optional| > 0
    ensures c.Some? ==> c.value.content == optional
  {
    if |optional| > 0 then
      Some(Collapsible(if expanded then Tr(lookup, "authorizedDetails.hideDetails", "Hide additional details")
                       else Tr(lookup, "authorizedDetails.showDetails", "Show additional details"),
                       optional))
    else None
  }

  /** A session without MAC address, session id and start time shows no
      collapsible at all. */
  lemma NoCollapsibleWithoutOptionalDetails(status: ClientStatusResponse, localize: int -> string)
    requires status.AuthorizedStatus?
    ensures OptionalCount(status, localize) == 0 <==>
              Trim(status.macAddress) == "" && Trim(status.sessionId) == "" && !HasSessionStart(status.startTime, localize)
  {
  }
}
