/** The payloads exchanged with the captive-portal access API. */
module Dtos {
  import opened Wrappers

  /** The session state of a client: "AUTHORIZED", "NOT_AUTHORIZED" or "UNKNOWN". */
  datatype ClientState = Authorized | NotAuthorized | Unknown

  /** The wire spelling of each state. */
  function ClientStateName(s: ClientState): string
  {
    match s
    case Authorized => "AUTHORIZED"
    case NotAuthorized => "NOT_AUTHORIZED"
    case Unknown => "UNKNOWN"
  }

  /** The login method the portal offers: "normal" (password) or "none" (terms only). */
  datatype AuthType = Normal | NoAuth

  /** A status, logon or logoff reply, discriminated by its client state. Only
      the authorized variant carries a user and a session; only the
      unauthorized variant carries an `authType`, and its MAC address is
      optional. `startTime` is seconds since the epoch and may be fractional. */
  datatype ClientStatusResponse =
    | AuthorizedStatus(ipAddress: string, macAddress: string, userName: string, sessionId: string, startTime: real)
    | UnauthorizedStatus(ipAddress: string, optionalMac: Option<string>, authType: Option<AuthType>)
    | UnknownStatus(ipAddress: string)
  {
    /** The `clientState` tag of the reply. */
    function ClientStateOf(): (s: ClientState)
      ensures s == Authorized <==> AuthorizedStatus?
      ensures s == NotAuthorized <==> UnauthorizedStatus?
      ensures s == Unknown <==> UnknownStatus?
    {
      match this
      case AuthorizedStatus(_, _, _, _, _) => Authorized
      case UnauthorizedStatus(_, _, _) => NotAuthorized
      case UnknownStatus(_) => Unknown
    }
  }

  /** Logon credentials; the password may be left out. */
  datatype LogonRequest = LogonRequest(user: string, password: Option<string>)

  /** The declared type of a logoff reply: only UNKNOWN or AUTHORIZED. */
  predicate IsLogoffResponse(r: ClientStatusResponse)
  {
    r.UnknownStatus? || r.AuthorizedStatus?
  }

  /** The captive-portal API state of section 5 of RFC 8908. */
  datatype CaptivePortalStatusResponse =
    CaptivePortalStatusResponse(captive: bool, userPortalUrl: Option<string>, secondsRemaining: Option<real>)
}
