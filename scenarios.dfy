/** How the parts fit together: what the client sends is what the mock
    portal reads, and what the mock portal answers is what the login page
    turns into a phase. */
module Scenarios {
  import opened Wrappers
  import opened Strings
  import opened Dtos
  import QueryParams
  import opened ApiClient
  import opened MockPortal
  import LoginController

  /** The content type the client puts on a logon is one the mock reads as
      a form. */
  lemma FormTypeIsRecognised()
    ensures Contains(FormContentType, "application/x-www-form-urlencoded")
  {
    assert OccursAt(FormContentType, "application/x-www-form-urlencoded", 0);
  }

  /** A logon sent by the client, with no headers of the caller's own,
      reaches the mock portal with the same credentials: the user, and the
      password or "" when there is none. Dropping empty fields from the form
      loses nothing, because the mock reads a missing field as "". */
  lemma LogonCredentialsArrive(zoneId: string, c: LogonRequest)
    ensures var headers := LogonHeaders(zoneId, None);
            "content-type" in headers
            && ParseCredentials(Some(headers["content-type"]), LogonBody(FormEntries(c), map[]))
               == (c.user, c.password.GetOr(""))
  {
    LogonHeadersShape(zoneId, None);
    FormTypeIsRecognised();
  }

  /** The page's phase for a mock status reply: the logout section when an
      authorized session exists for the client, the anonymous section when
      the portal is configured without passwords, the password form
      otherwise. */
  lemma MockStatusPhase(sessions: map<string, Session>, config: Config, zoneId: int, ip: string)
    ensures var key := MakeSessionKey(zoneId, ip);
            var p := LoginController.PhaseOf(BuildResponse(sessions, config, zoneId, ip));
            (key in sessions && sessions[key].authorized ==> p == LoginController.Phase.Authorized)
            && (!(key in sessions && sessions[key].authorized) && config.authType == NoAuth ==> p == LoginController.Anonymous)
            && (!(key in sessions && sessions[key].authorized) && config.authType == Normal ==> p == LoginController.Password)
  {
  }

  /** The anonymous button against a portal without passwords: the empty
      credentials the page sends are accepted, the session is stored for the
      user "anonymous", and the reply the page then reads is AUTHORIZED, so
      it redirects. */
  lemma AnonymousLogonAuthorizes(sessions: map<string, Session>, config: Config, zoneId: string, zone: int, ip: string,
                                 sessionId: string, nowMs: int)
    requires config.authType == NoAuth
    ensures "content-type" in LogonHeaders(zoneId, None)
    ensures var creds := ParseCredentials(Some(LogonHeaders(zoneId, None)["content-type"]),
                                          LogonBody(FormEntries(LogonRequest("", Some(""))), map[]));
            var after := AfterLogon(sessions, config, zone, ip, creds.0, creds.1, sessionId, nowMs);
            creds == ("", "")
            && after[MakeSessionKey(zone, ip)].user == AnonymousUser
            && BuildResponse(after, config, zone, ip).AuthorizedStatus?
  {
    LogonCredentialsArrive(zoneId, LogonRequest("", Some("")));
    LogonThenStatus(sessions, config, zone, ip, "", "", sessionId, nowMs);
  }

  /** A password logon with the shipped demo account succeeds on the mock
      portal and the page then shows the logout section. */
  lemma DemoAccountLogsOn(sessions: map<string, Session>, zoneId: string, zone: int, ip: string, sessionId: string, nowMs: int)
    ensures "content-type" in LogonHeaders(zoneId, None)
    ensures var creds := ParseCredentials(Some(LogonHeaders(zoneId, None)["content-type"]),
                                          LogonBody(FormEntries(LogonRequest("maker", Some("secret"))), map[]));
            var after := AfterLogon(sessions, MockConfig, zone, ip, creds.0, creds.1, sessionId, nowMs);
            LoginController.PhaseOf(BuildResponse(after, MockConfig, zone, ip)) == LoginController.Phase.Authorized
  {
    LogonCredentialsArrive(zoneId, LogonRequest("maker", Some("secret")));
    ShippedCredentials();
    var after := AfterLogon(sessions, MockConfig, zone, ip, "maker", "secret", sessionId, nowMs);
    LogonThenStatus(sessions, MockConfig, zone, ip, "maker", "secret", sessionId, nowMs);
    assert BuildResponse(after, MockConfig, zone, ip).AuthorizedStatus?;
  }

  /** After a logoff the page falls back to the login form of the
      configured kind. */
  lemma LogoffThenPhase(sessions: map<string, Session>, config: Config, zoneId: int, ip: string)
    ensures var p := LoginController.PhaseOf(BuildResponse(AfterLogoff(sessions, zoneId, ip), config, zoneId, ip));
            p == (if config.authType == NoAuth then LoginController.Anonymous else LoginController.Password)
  {
    LogoffThenStatus(sessions, config, zoneId, ip);
  }
}
