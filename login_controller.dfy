/** The login page controller, written three times in the repository: the
    `useCaptivePortalLogin` hook, the router `LoginPage` and the app-router
    `page.tsx`. One class models all three; `variant` selects where they
    differ: how `login` stores validation errors, how editing a field
    clears errors, how a form submission reaches `login`, and whether the
    last status reply is kept. The portal API is an oracle `server`, and
    the browser effects (toasts, navigation, reload) are recorded in order. */
module LoginController {
  import opened Wrappers
  import opened Strings
  import opened Dtos
  import QueryParams
  import opened ApiClient
  import Translations
  import I18nProvider

  /** Which copy of the controller is meant. */
  datatype Variant =
    | Hook        // src/hooks/useCaptivePortalLogin.ts
    | RouterPage  // src/pages/LoginPage.tsx
    | AppPage     // src/app/page.tsx

  /** The phase the page is in; it decides which section is shown. */
  datatype Phase = Checking | Password | Anonymous | Authorized

  /** The three calls the controller makes; a logon carries its credentials. */
  datatype RequestKind = StatusCall | LogonCall(credentials: LogonRequest) | LogoffCall

  /** One call as it goes out: what is asked, and for which zone. */
  datatype ApiRequest = ApiRequest(kind: RequestKind, zone: string)

  type Reply = Outcome<ApiResponse<ClientStatusResponse>>

  /** A parsed URL: the parts the redirect reads and changes. */
  datatype Url = Url(protocol: string, host: string, pathname: string, search: QueryParams.Entries, hash: string)

  /** What the page does to the browser. */
  datatype Effect = Toast(title: string) | Navigate(url: Url) | Reload

  /** Per-field error messages; `general` is the form-wide message (the
      `root` error of the form library in the hook and the app page). */
  datatype FieldErrors = FieldErrors(username: Option<string>, password: Option<string>, terms: Option<string>, general: Option<string>)

  const NoErrors: FieldErrors := FieldErrors(None, None, None, None)

  // ----- Zone fallback -----

  /** The zones to try: the configured one and then the empty zone, or the
      empty zone alone. */
  function Candidates(zoneId: string): (c: seq<string>)
    ensures 1 <= |c| <= 2 && c[|c| - 1] == ""
    ensures c[0] == zoneId
  {
    if zoneId != "" then [zoneId, ""] else [""]
  }

  /** Whether a reply sends `withZone` on to the next candidate. */
  predicate MovesOn(o: Reply)
  {
    o.Thrown? || o.value.status == 404
  }

  /** The reply `withZone` ends with. */
  function TryCandidates(cands: seq<string>, kind: RequestKind, server: ApiRequest -> Reply): Reply
    requires |cands| >= 1
  {
    var o := server(ApiRequest(kind, cands[0]));
    if |cands| == 1 || !MovesOn(o) then o else TryCandidates(cands[1..], kind, server)
  }

  /** The calls `withZone` makes, in order. */
  function Attempts(cands: seq<string>, kind: RequestKind, server: ApiRequest -> Reply): seq<ApiRequest>
    requires |cands| >= 1
  {
    var o := server(ApiRequest(kind, cands[0]));
    [ApiRequest(kind, cands[0])] + (if |cands| == 1 || !MovesOn(o) then [] else Attempts(cands[1..], kind, server))
  }

  /** The retry rule: the candidates are tried in order; every call but the
      last moved on (404 or an exception), the last one did not unless it
      was the final candidate; and its reply, whatever it is, is the result:
      a final 404 is returned and a final exception is rethrown. */
  lemma {:induction false} WithZoneRule(cands: seq<string>, kind: RequestKind, server: ApiRequest -> Reply)
    requires |cands| >= 1
    ensures var a := Attempts(cands, kind, server);
            1 <= |a| <= |cands|
            && (forall k :: 0 <= k < |a| ==> a[k] == ApiRequest(kind, cands[k]))
            && (forall k :: 0 <= k < |a| - 1 ==> MovesOn(server(a[k])))
            && (|a| < |cands| ==> !MovesOn(server(a[|a| - 1])))
            && TryCandidates(cands, kind, server) == server(a[|a| - 1])
  {
    var o := server(ApiRequest(kind, cands[0]));
    if |cands| > 1 && MovesOn(o) {
      WithZoneRule(cands[1..], kind, server);
      var rest := Attempts(cands[1..], kind, server);
      var a := Attempts(cands, kind, server);
      assert a == [ApiRequest(kind, cands[0])] + rest;
      forall k | 1 <= k < |a| ensures a[k] == ApiRequest(kind, cands[k]) {
        assert a[k] == rest[k - 1];
      }
    }
  }

  /** With a zone configured, the zone is asked first and the empty zone
      second, and the second call happens exactly when the first moved on;
      without one, a single call for the empty zone is made. */
  lemma WithZoneCalls(zoneId: string, kind: RequestKind, server: ApiRequest -> Reply)
    ensures var first := server(ApiRequest(kind, zoneId));
            zoneId != "" ==>
              Attempts(Candidates(zoneId), kind, server)
              == (if MovesOn(first) then [ApiRequest(kind, zoneId), ApiRequest(kind, "")] else [ApiRequest(kind, zoneId)])
    ensures zoneId == "" ==> Attempts(Candidates(zoneId), kind, server) == [ApiRequest(kind, "")]
    ensures zoneId == "" ==> TryCandidates(Candidates(zoneId), kind, server) == server(ApiRequest(kind, ""))
  {
  }

  // ----- Replies to phases -----

  /** The payload of a reply the controller accepts: `ok` with data. */
  function Accepted(o: Reply): (d: Option<ClientStatusResponse>)
    ensures d.Some? <==> o.Returned? && o.value.ok && o.value.data.Some?
    ensures d.Some? ==> d == o.value.data
  {
    if o.Returned? && o.value.ok then o.value.data else None
  }

  /** The phase a status reply leads to: AUTHORIZED to the logout section,
      NOT_AUTHORIZED with the "none" method to the anonymous section, and
      anything else (UNKNOWN included) to the password form. */
  function PhaseOf(data: ClientStatusResponse): (p: Phase)
    ensures p != Checking
    ensures p == Phase.Authorized <==> data.AuthorizedStatus?
    ensures p == Anonymous <==> data.UnauthorizedStatus? && data.authType == Some(NoAuth)
  {
    if data.AuthorizedStatus? then Phase.Authorized
    else if data.UnauthorizedStatus? && data.authType == Some(NoAuth) then Anonymous
    else Password
  }

  /** Every section can be reached: each phase other than checking is the
      phase of some status reply. */
  lemma PhaseOfOnto(p: Phase)
    requires p != Checking
    ensures exists data :: PhaseOf(data) == p
  {
    var data := match p
                case Authorized => AuthorizedStatus("", "", "", "", 0.0)
                case Anonymous => UnauthorizedStatus("", None, Some(NoAuth))
                case _ => UnknownStatus("");
    assert PhaseOf(data) == p;
  }

  /** The phase after a status check: a failure of any kind ends on the
      password form. */
  function PhaseAfterCheck(o: Reply): (p: Phase)
    ensures Accepted(o).None? ==> p == Password
    ensures p != Checking
  {
    match Accepted(o)
    case Some(d) => PhaseOf(d)
    case None => Password
  }

  // ----- Redirect target -----

  /** Whether `s` starts with `prefix`, ignoring ASCII case. */
  predicate StartsWithIgnoringCase(s: string, prefix: string)
  {
    |prefix| <= |s| && ToLowerAscii(s[..|prefix|]) == prefix
  }

  /** `/^https?:\/\//i.test(raw)`. */
  predicate HasHttpScheme(raw: string)
  {
    StartsWithIgnoringCase(raw, "http://") || StartsWithIgnoringCase(raw, "https://")
  }

  /** The text handed to the URL parser: `raw` itself when it names an
      http(s) scheme, otherwise `raw` behind "https://". */
  function TargetText(raw: string): (t: string)
    ensures HasHttpScheme(t)
    ensures HasHttpScheme(raw) ==> t == raw
  {
    if HasHttpScheme(raw) then raw
    else
      var t := "https://" + raw;
      assert t[..8] == "https://";
      assert ToLowerAscii("https://") == "https://";
      t
  }

  /** `getRedirectTarget`: the `redirurl` query parameter, parsed; a missing
      or empty parameter or one the parser refuses gives no target. */
  function RedirectTarget(query: QueryParams.Entries, parseUrl: string -> Option<Url>): (u: Option<Url>)
    ensures QueryParams.Get(query, "redirurl") in {None, Some("")} ==> u.None?
    ensures u.Some? ==> u == parseUrl(TargetText(QueryParams.Get(query, "redirurl").value))
    ensures var raw := QueryParams.Get(query, "redirurl");
            raw.Some? && raw.value != "" ==> u == parseUrl(TargetText(raw.value))
  {
    match QueryParams.Get(query, "redirurl")
    case None => None
    case Some(raw) => if raw == "" then None else parseUrl(TargetText(raw))
  }

  /** `redirect(preferHttps)`: navigate to the target with `http:` upgraded
      when asked and `refresh` set to the empty string, or reload when
      there is no target. */
  function RedirectEffect(query: QueryParams.Entries, parseUrl: string -> Option<Url>, preferHttps: bool): (e: Effect)
    ensures e.Reload? <==> RedirectTarget(query, parseUrl).None?
    ensures !e.Toast?
    ensures var t := RedirectTarget(query, parseUrl);
            e.Navigate? ==> e.url.protocol == (if preferHttps && t.value.protocol == "http:" then "https:" else t.value.protocol)
  {
    match RedirectTarget(query, parseUrl)
    case None => Reload
    case Some(u) =>
      var proto := if preferHttps && u.protocol == "http:" then "https:" else u.protocol;
      Navigate(u.(protocol := proto, search := QueryParams.Set(u.search, "refresh", "")))
  }

  /** What a redirect does, both ways: it navigates exactly when there is a
      target; the target keeps its host, path and fragment, carries
      `refresh` once with the empty value and every other parameter as it
      was, and its scheme is `https:` when an `http:` target was to be
      upgraded, and unchanged otherwise. */
  lemma RedirectShape(query: QueryParams.Entries, parseUrl: string -> Option<Url>, preferHttps: bool, other: string)
    requires other != "refresh"
    ensures var e := RedirectEffect(query, parseUrl, preferHttps);
            var t := RedirectTarget(query, parseUrl);
            (e == Reload <==> t.None?)
            && (e.Navigate? ==>
                  e.url.host == t.value.host && e.url.pathname == t.value.pathname && e.url.hash == t.value.hash
                  && QueryParams.ValuesOf(e.url.search, "refresh") == [""]
                  && QueryParams.ValuesOf(e.url.search, other) == QueryParams.ValuesOf(t.value.search, other)
                  && e.url.protocol == (if preferHttps && t.value.protocol == "http:" then "https:" else t.value.protocol))
  {
    var t := RedirectTarget(query, parseUrl);
    if t.Some? {
      QueryParams.SetThenGet(t.value.search, "refresh", "", other);
    }
  }

  /** A target given without a scheme is read as an https address. */
  lemma SchemelessTargetIsHttps(query: QueryParams.Entries, parseUrl: string -> Option<Url>, raw: string)
    requires QueryParams.Get(query, "redirurl") == Some(raw) && raw != "" && !HasHttpScheme(raw)
    ensures RedirectTarget(query, parseUrl) == parseUrl("https://" + raw)
  {
  }

  // ----- Validation -----

  /** `canSubmit`: terms accepted and both trimmed fields non-empty. */
  predicate CanSubmit(username: string, password: string, termsAccepted: bool)
  {
    termsAccepted && Trim(username) != "" && Trim(password) != ""
  }

  /** Sets every field error that `next` holds and keeps the others, as
      repeated `setError` calls do. */
  function MergeErrors(current: FieldErrors, next: FieldErrors): (r: FieldErrors)
    ensures next == NoErrors ==> r == current
    ensures next.username.Some? ==> r.username == next.username
    ensures next.password.Some? ==> r.password == next.password
    ensures next.terms.Some? ==> r.terms == next.terms
    ensures next.general.Some? ==> r.general == next.general
    ensures next.username.None? ==> r.username == current.username
    ensures next.password.None? ==> r.password == current.password
    ensures next.terms.None? ==> r.terms == current.terms
    ensures next.general.None? ==> r.general == current.general
  {
    FieldErrors(if next.username.Some? then next.username else current.username,
                if next.password.Some? then next.password else current.password,
                if next.terms.Some? then next.terms else current.terms,
                if next.general.Some? then next.general else current.general)
  }

  /** What `translateString` keeps of a value of `t`: a string, or nothing. */
  function TextOf(v: Translations.Value): (r: Option<string>)
    ensures r.Some? <==> v.Str?
    ensures r.Some? ==> r.value == v.text
  {
    if v.Str? then Some(v.text) else None
  }

  /** The controller with its state. */
  class Controller {
    const variant: Variant
    /** `t(key)` where it yields a string. */
    const lookup: string -> Option<string>
    /** The URL parser; `None` when `new URL` throws. */
    const parseUrl: string -> Option<Url>

    var phase: Phase
    var busy: bool
    var zoneId: string
    var errors: FieldErrors
    /** The last accepted status reply; only the hook keeps one. */
    var clientStatus: Option<ClientStatusResponse>
    /** The query string of the page address. */
    var query: QueryParams.Entries
    var username: string
    var password: string
    var termsAccepted: bool
    /** Browser effects, oldest first. */
    var effects: seq<Effect>
    /** Calls made to the portal API, oldest first. */
    var requests: seq<ApiRequest>

    constructor (variant: Variant, lookup: string -> Option<string>, parseUrl: string -> Option<Url>)
      ensures this.variant == variant && this.lookup == lookup && this.parseUrl == parseUrl
      ensures phase == Checking && !busy && zoneId == "" && errors == NoErrors && clientStatus == None
      ensures query == [] && username == "" && password == "" && !termsAccepted
      ensures effects == [] && requests == []
    {
      this.variant := variant;
      this.lookup := lookup;
      this.parseUrl := parseUrl;
      phase := Checking;
      busy := false;
      zoneId := "";
      errors := NoErrors;
      clientStatus := None;
      query := [];
      username := "";
      password := "";
      termsAccepted := false;
      effects := [];
      requests := [];
    }

    /** `translateString(key, fallback)`. */
    function Tr(key: string, fallback: string): string
    {
      lookup(key).GetOr(fallback)
    }

    function ServerUnavailable(): string
    {
      Tr("errors.serverUnavailable", "Server unavailable.")
    }

    /** The error a failed call ends in: what was thrown, or the
      "server unavailable" error raised for a reply that is not `ok` or
      has no data. */
    function FailureOf(o: Reply): Failure
    {
      if o.Thrown? then o.error else OtherError(ServerUnavailable())
    }

    /** `toastError`: the error's own message when it is an `Error` with a
      non-empty message, the translated fallback otherwise. */
    function ToastText(e: Failure): (title: string)
      ensures e.IsError() && e.message != "" ==> title == e.message
      ensures !(e.IsError() && e.message != "") ==> title == ServerUnavailable()
    {
      if e.IsError() && e.message != "" then e.message else ServerUnavailable()
    }

    /** The errors validation finds: one per failing check and no other. */
    function ValidationErrors(username: string, password: string, termsAccepted: bool): (v: FieldErrors)
      ensures v.username.Some? <==> Trim(username) == ""
      ensures v.password.Some? <==> Trim(password) == ""
      ensures v.terms.Some? <==> !termsAccepted
      ensures v.general.None?
    {
      FieldErrors(if Trim(username) == "" then Some(Tr("errors.usernameRequired", "Username is required.")) else None,
                  if Trim(password) == "" then Some(Tr("errors.passwordRequired", "Password is required.")) else None,
                  if !termsAccepted then Some(Tr("errors.termsAcceptanceRequired", "You must accept the terms of use before continuing.")) else None,
                  None)
    }

    /** The errors `login` leaves after a failed validation: the router page
      replaces the whole set, the other two call `setError` for the failing
      fields and so keep whatever else was set. */
    function ErrorsAfterValidation(current: FieldErrors, found: FieldErrors): FieldErrors
    {
      if variant == RouterPage then found else MergeErrors(current, found)
    }

    /** The errors shown after a logon the portal refused. */
    function AuthFailedErrors(): (e: FieldErrors)
      ensures e.username.None? && e.terms.None? && e.password.Some? && e.general.Some?
    {
      FieldErrors(None, Some(Tr("errors.authenticationFailed", "Authentication failed.")), None,
                  Some(Tr("errors.authenticationInline", "Please check your credentials and try again.")))
    }

    /** `withZone(exec)`: the candidate loop. Returns the reply and the calls
      it made. */
    method WithZone(kind: RequestKind, server: ApiRequest -> Reply) returns (r: Reply, attempts: seq<ApiRequest>)
      ensures r == TryCandidates(Candidates(zoneId), kind, server)
      ensures attempts == Attempts(Candidates(zoneId), kind, server)
    {
      var candidates := Candidates(zoneId);
      var lastError: Option<Failure> := None;
      attempts := [];
      var i := 0;
      while i < |candidates|
        invariant 0 <= i <= |candidates|
        invariant i < |candidates| ==>
                    TryCandidates(candidates[i..], kind, server) == TryCandidates(candidates, kind, server)
                    && attempts + Attempts(candidates[i..], kind, server) == Attempts(candidates, kind, server)
        invariant i == |candidates| ==>
                    lastError.Some? && TryCandidates(candidates, kind, server) == Thrown(lastError.value)
                    && attempts == Attempts(candidates, kind, server)
      {
        var request := ApiRequest(kind, candidates[i]);
        var res := server(request);
        assert candidates[i..][1..] == candidates[i + 1..];
        attempts := attempts + [request];
        if res.Returned? {
          if res.value.status == 404 && i < |candidates| - 1 {
            i := i + 1;
            continue;
          }
          r := res;
          return;
        } else {
          lastError := Some(res.error);
          if i < |candidates| - 1 {
            i := i + 1;
            continue;
          }
        }
        i := i + 1;
      }
      r := Thrown(lastError.GetOr(OtherError(ServerUnavailable())));
    }

    /** `redirect(preferHttps)`. */
    method Redirect(preferHttps: bool)
      modifies this
      ensures effects == old(effects) + [RedirectEffect(query, parseUrl, preferHttps)]
      ensures phase == old(phase) && busy == old(busy) && errors == old(errors) && clientStatus == old(clientStatus)
      ensures requests == old(requests) && zoneId == old(zoneId) && query == old(query)
      ensures username == old(username) && password == old(password) && termsAccepted == old(termsAccepted)
    {
      effects := effects + [RedirectEffect(query, parseUrl, preferHttps)];
    }

    /** The toast a status check shows: one for a failure of any kind, none
        for an accepted reply. */
    function CheckToasts(o: Reply): (toasts: seq<Effect>)
      ensures |toasts| <= 1
      ensures toasts == [] <==> Accepted(o).Some?
    {
      if Accepted(o).None? then [Toast(ToastText(FailureOf(o)))] else []
    }

    /** `checkStatus`: ask for the status and move to the phase it implies;
      on any failure, show the error and fall back to the password form. */
    method CheckStatus(server: ApiRequest -> Reply)
      modifies this
      ensures var o := TryCandidates(Candidates(zoneId), StatusCall, server);
              phase == PhaseAfterCheck(o)
              && requests == old(requests) + Attempts(Candidates(zoneId), StatusCall, server)
              && effects == old(effects) + CheckToasts(o)
              && clientStatus == (if variant == Hook then Accepted(o) else old(clientStatus))
      ensures busy == old(busy) && errors == old(errors) && zoneId == old(zoneId) && query == old(query)
      ensures username == old(username) && password == old(password) && termsAccepted == old(termsAccepted)
    {
      phase := Checking;
      var res, attempts := WithZone(StatusCall, server);
      requests := requests + attempts;
      if res.Returned? && res.value.ok && res.value.data.Some? {
        var data := res.value.data.value;
        if variant == Hook {
          clientStatus := Some(data);
        }
        if data.AuthorizedStatus? {
          phase := Phase.Authorized;
        } else if data.UnauthorizedStatus? && data.authType == Some(NoAuth) {
          phase := Anonymous;
        } else {
          phase := Password;
        }
      } else {
        effects := effects + [Toast(ToastText(FailureOf(res)))];
        phase := Password;
        if variant == Hook {
          clientStatus := None;
        }
      }
    }

    /** `login`: nothing while busy; otherwise validate the trimmed fields
      and stop with the field errors, or send the trimmed credentials and
      redirect (upgrading to https) on AUTHORIZED, show the credential
      errors on any other answer, or toast a failure. */
    method Login(server: ApiRequest -> Reply)
      modifies this
      ensures old(busy) ==> effects == old(effects) && errors == old(errors) && requests == old(requests)
                            && busy && clientStatus == old(clientStatus)
      ensures !old(busy) && !CanSubmit(username, password, termsAccepted) ==>
                errors == ErrorsAfterValidation(old(errors), ValidationErrors(username, password, termsAccepted))
                && effects == old(effects) && requests == old(requests) && !busy && clientStatus == old(clientStatus)
      ensures var creds := LogonRequest(Trim(username), Some(Trim(password)));
              var o := TryCandidates(Candidates(zoneId), LogonCall(creds), server);
              !old(busy) && CanSubmit(username, password, termsAccepted) ==>
                !busy
                && requests == old(requests) + Attempts(Candidates(zoneId), LogonCall(creds), server)
                && (Accepted(o).None? ==> errors == NoErrors && effects == old(effects) + [Toast(ToastText(FailureOf(o)))])
                && (Accepted(o).Some? && Accepted(o).value.AuthorizedStatus? ==>
                      errors == NoErrors && effects == old(effects) + [RedirectEffect(query, parseUrl, true)])
                && (Accepted(o).Some? && !Accepted(o).value.AuthorizedStatus? ==>
                      errors == AuthFailedErrors() && effects == old(effects))
                && clientStatus == (if variant == Hook && Accepted(o).Some? then Accepted(o) else old(clientStatus))
      ensures phase == old(phase) && zoneId == old(zoneId) && query == old(query)
      ensures username == old(username) && password == old(password) && termsAccepted == old(termsAccepted)
    {
      if busy {
        return;
      }
      var trimmedUsername := Trim(username);
      var trimmedPassword := Trim(password);
      var found := NoErrors;
      var hasError := false;
      if trimmedUsername == "" {
        found := found.(username := Some(Tr("errors.usernameRequired", "Username is required.")));
        hasError := true;
      }
      if trimmedPassword == "" {
        found := found.(password := Some(Tr("errors.passwordRequired", "Password is required.")));
        hasError := true;
      }
      if !termsAccepted {
        found := found.(terms := Some(Tr("errors.termsAcceptanceRequired", "You must accept the terms of use before continuing.")));
        hasError := true;
      }
      assert found == ValidationErrors(username, password, termsAccepted);
      if hasError {
        errors := ErrorsAfterValidation(errors, found);
        return;
      }

      SubmitLogon(LogonRequest(trimmedUsername, Some(trimmedPassword)), server);
    }

    /** Submitting the login form. The router page's form calls `login`
      directly. The hook and the app page submit through the form library's
      `handleSubmit`, which first re-validates the registered fields and
      drops the form-wide error; no field has a validation rule, so every
      error is gone before `login` runs. A failed validation therefore shows
      exactly the failing checks on every variant. */
    method Submit(server: ApiRequest -> Reply)
      modifies this
      ensures old(busy) ==> effects == old(effects) && requests == old(requests) && busy
                            && errors == (if variant == RouterPage then old(errors) else NoErrors)
                            && clientStatus == old(clientStatus)
      ensures !old(busy) && !CanSubmit(username, password, termsAccepted) ==>
                errors == ValidationErrors(username, password, termsAccepted)
                && effects == old(effects) && requests == old(requests) && !busy && clientStatus == old(clientStatus)
      ensures var creds := LogonRequest(Trim(username), Some(Trim(password)));
              var o := TryCandidates(Candidates(zoneId), LogonCall(creds), server);
              !old(busy) && CanSubmit(username, password, termsAccepted) ==>
                !busy
                && requests == old(requests) + Attempts(Candidates(zoneId), LogonCall(creds), server)
                && (Accepted(o).None? ==> errors == NoErrors && effects == old(effects) + [Toast(ToastText(FailureOf(o)))])
                && (Accepted(o).Some? && Accepted(o).value.AuthorizedStatus? ==>
                      errors == NoErrors && effects == old(effects) + [RedirectEffect(query, parseUrl, true)])
                && (Accepted(o).Some? && !Accepted(o).value.AuthorizedStatus? ==>
                      errors == AuthFailedErrors() && effects == old(effects))
                && clientStatus == (if variant == Hook && Accepted(o).Some? then Accepted(o) else old(clientStatus))
      ensures phase == old(phase) && zoneId == old(zoneId) && query == old(query)
      ensures username == old(username) && password == old(password) && termsAccepted == old(termsAccepted)
    {
      if variant != RouterPage {
        errors := NoErrors;
      }
      ghost var found := ValidationErrors(username, password, termsAccepted);
      assert MergeErrors(NoErrors, found) == found;
      Login(server);
    }

    /** The network half of `login`: send the credentials with the busy flag
      raised and the errors cleared, then redirect, show the credential
      errors, or toast. */
    method SubmitLogon(creds: LogonRequest, server: ApiRequest -> Reply)
      modifies this
      ensures var o := TryCandidates(Candidates(zoneId), LogonCall(creds), server);
              !busy
              && requests == old(requests) + Attempts(Candidates(zoneId), LogonCall(creds), server)
              && (Accepted(o).None? ==> errors == NoErrors && effects == old(effects) + [Toast(ToastText(FailureOf(o)))])
              && (Accepted(o).Some? && Accepted(o).value.AuthorizedStatus? ==>
                    errors == NoErrors && effects == old(effects) + [RedirectEffect(query, parseUrl, true)])
              && (Accepted(o).Some? && !Accepted(o).value.AuthorizedStatus? ==>
                    errors == AuthFailedErrors() && effects == old(effects))
              && clientStatus == (if variant == Hook && Accepted(o).Some? then Accepted(o) else old(clientStatus))
      ensures phase == old(phase) && zoneId == old(zoneId) && query == old(query)
      ensures username == old(username) && password == old(password) && termsAccepted == old(termsAccepted)
    {
      busy := true;
      errors := NoErrors;
      var res, attempts := WithZone(LogonCall(creds), server);
      requests := requests + attempts;
      if res.Returned? && res.value.ok && res.value.data.Some? {
        var data := res.value.data.value;
        if variant == Hook {
          clientStatus := Some(data);
        }
        if data.AuthorizedStatus? {
          effects := effects + [RedirectEffect(query, parseUrl, true)];
        } else {
          errors := AuthFailedErrors();
        }
      } else {
        effects := effects + [Toast(ToastText(FailureOf(res)))];
      }
      busy := false;
    }

    /** `loginAnonymous`: nothing while busy; otherwise log on with empty
      credentials and redirect without upgrading the scheme on AUTHORIZED,
      or toast. */
    method LoginAnonymous(server: ApiRequest -> Reply)
      modifies this
      ensures old(busy) ==> effects == old(effects) && requests == old(requests) && busy && clientStatus == old(clientStatus)
      ensures var o := TryCandidates(Candidates(zoneId), LogonCall(LogonRequest("", Some(""))), server);
              !old(busy) ==>
                !busy
                && requests == old(requests) + Attempts(Candidates(zoneId), LogonCall(LogonRequest("", Some(""))), server)
                && effects == old(effects) + [
                     if Accepted(o).None? then Toast(ToastText(FailureOf(o)))
                     else if Accepted(o).value.AuthorizedStatus? then RedirectEffect(query, parseUrl, false)
                     else Toast(Tr("errors.anonymousFailed", "Anonymous login failed."))]
                && clientStatus == (if variant == Hook && Accepted(o).Some? then Accepted(o) else old(clientStatus))
      ensures phase == old(phase) && errors == old(errors) && zoneId == old(zoneId) && query == old(query)
      ensures username == old(username) && password == old(password) && termsAccepted == old(termsAccepted)
    {
      if busy {
        return;
      }
      busy := true;
      var res, attempts := WithZone(LogonCall(LogonRequest("", Some(""))), server);
      requests := requests + attempts;
      if res.Returned? && res.value.ok && res.value.data.Some? {
        var data := res.value.data.value;
        if variant == Hook {
          clientStatus := Some(data);
        }
        if data.AuthorizedStatus? {
          Redirect(false);
        } else {
          effects := effects + [Toast(Tr("errors.anonymousFailed", "Anonymous login failed."))];
        }
      } else {
        effects := effects + [Toast(ToastText(FailureOf(res)))];
      }
      busy := false;
    }

    /** `logout`: nothing while busy; otherwise log off and reload when the
      reply is `ok` (whatever its payload), or toast. */
    method Logout(server: ApiRequest -> Reply)
      modifies this
      ensures old(busy) ==> effects == old(effects) && requests == old(requests) && busy && clientStatus == old(clientStatus)
      ensures var o := TryCandidates(Candidates(zoneId), LogoffCall, server);
              var ok := o.Returned? && o.value.ok;
              !old(busy) ==>
                !busy
                && requests == old(requests) + Attempts(Candidates(zoneId), LogoffCall, server)
                && effects == old(effects) + [if ok then Reload else Toast(ToastText(FailureOf(o)))]
                && clientStatus == (if variant == Hook && ok then None else old(clientStatus))
      ensures phase == old(phase) && errors == old(errors) && zoneId == old(zoneId) && query == old(query)
      ensures username == old(username) && password == old(password) && termsAccepted == old(termsAccepted)
    {
      if busy {
        return;
      }
      busy := true;
      var res, attempts := WithZone(LogoffCall, server);
      requests := requests + attempts;
      if res.Returned? && res.value.ok {
        if variant == Hook {
          clientStatus := None;
        }
        effects := effects + [Reload];
      } else {
        effects := effects + [Toast(ToastText(FailureOf(res)))];
      }
      busy := false;
    }

    /** The mount effect: read the page's query and the global `zoneid`
      (anything but a string counts as no zone) and check the status with
      the zone the page had. Setting a different zone renews the zone
      fallback and with it the status check, so the effect runs a second
      time and checks again with the new zone. */
    method Mount(globalZoneId: Option<string>, locationQuery: QueryParams.Entries, server: ApiRequest -> Reply)
      modifies this
      ensures zoneId == globalZoneId.GetOr("") && query == locationQuery
      ensures requests == old(requests) + Attempts(Candidates(old(zoneId)), StatusCall, server)
                          + (if zoneId == old(zoneId) then [] else Attempts(Candidates(zoneId), StatusCall, server))
      ensures phase == PhaseAfterCheck(TryCandidates(Candidates(zoneId), StatusCall, server))
      ensures effects == old(effects) + CheckToasts(TryCandidates(Candidates(old(zoneId)), StatusCall, server))
                         + (if zoneId == old(zoneId) then [] else CheckToasts(TryCandidates(Candidates(zoneId), StatusCall, server)))
      ensures clientStatus == (if variant == Hook then Accepted(TryCandidates(Candidates(zoneId), StatusCall, server))
                               else old(clientStatus))
      ensures busy == old(busy) && errors == old(errors)
      ensures username == old(username) && password == old(password) && termsAccepted == old(termsAccepted)
    {
      query := locationQuery;
      var zone := globalZoneId.GetOr("");
      CheckStatus(server);
      if zone != zoneId {
        zoneId := zone;
        CheckStatus(server);
      }
    }

    /** Editing the user name. The router page clears the field's own error
      and the form-wide one on every change; the form the hook and the app
      page render clears them only when the field itself shows an error. */
    method EditUsername(value: string)
      modifies this
      ensures username == value && password == old(password) && termsAccepted == old(termsAccepted)
      ensures errors == if variant == RouterPage || old(errors).username.Some?
                        then old(errors).(username := None, general := None)
                        else old(errors)
      ensures phase == old(phase) && busy == old(busy) && effects == old(effects) && requests == old(requests)
      ensures zoneId == old(zoneId) && clientStatus == old(clientStatus) && query == old(query)
    {
      username := value;
      if variant == RouterPage || errors.username.Some? {
        errors := errors.(username := None, general := None);
      }
    }

    /** Editing the password, with the same guard as the user name. */
    method EditPassword(value: string)
      modifies this
      ensures password == value && username == old(username) && termsAccepted == old(termsAccepted)
      ensures errors == if variant == RouterPage || old(errors).password.Some?
                        then old(errors).(password := None, general := None)
                        else old(errors)
      ensures phase == old(phase) && busy == old(busy) && effects == old(effects) && requests == old(requests)
      ensures zoneId == old(zoneId) && clientStatus == old(clientStatus) && query == old(query)
    {
      password := value;
      if variant == RouterPage || errors.password.Some? {
        errors := errors.(password := None, general := None);
      }
    }

    /** Ticking or unticking the terms box, with the same guard. */
    method EditTerms(checked: bool)
      modifies this
      ensures termsAccepted == checked && username == old(username) && password == old(password)
      ensures errors == if variant == RouterPage || old(errors).terms.Some?
                        then old(errors).(terms := None, general := None)
                        else old(errors)
      ensures phase == old(phase) && busy == old(busy) && effects == old(effects) && requests == old(requests)
      ensures zoneId == old(zoneId) && clientStatus == old(clientStatus) && query == old(query)
    {
      termsAccepted := checked;
      if variant == RouterPage || errors.terms.Some? {
        errors := errors.(terms := None, general := None);
      }
    }

    /** `headerContent`: the title and description of the phase, each
      translated or else its English text. */
    function HeaderContent(p: Phase): (h: (string, string))
      ensures lookup(HeaderKeys(p).0).Some? ==> h.0 == lookup(HeaderKeys(p).0).value
      ensures lookup(HeaderKeys(p).0).None? ==> h.0 == HeaderFallbacks(p).0
      ensures lookup(HeaderKeys(p).1).Some? ==> h.1 == lookup(HeaderKeys(p).1).value
      ensures lookup(HeaderKeys(p).1).None? ==> h.1 == HeaderFallbacks(p).1
    {
      (Tr(HeaderKeys(p).0, HeaderFallbacks(p).0), Tr(HeaderKeys(p).1, HeaderFallbacks(p).1))
    }

    /** What `translateString(key, fallback)` shows under the provider's
        `t`: the message when the key holds a string, the fallback when it
        holds another value (`t` returns the key itself for a missing key,
        which is a string). */
    ghost function ProviderText(st: I18nProvider.LocaleState, key: string, fallback: string): string
      reads st
      requires st.Valid()
    {
      var v := st.T(key, None);
      if v.Str? then v.text else fallback
    }

    /** Neither the current locale nor English holds the key. */
    ghost predicate Untranslated(st: I18nProvider.LocaleState, key: string)
      reads st
      requires st.Valid()
    {
      I18nProvider.Resolve(st.messages[st.locale], key).None?
      && I18nProvider.Resolve(st.messages[I18nProvider.DefaultLocale], key).None?
    }

    /** A key neither locale holds shows as the key itself: the provider's
        `t` returns the key, which is a string. */
    lemma ProviderTextOfMissing(st: I18nProvider.LocaleState, key: string, fallback: string)
      requires st.Valid()
      requires Untranslated(st, key)
      ensures ProviderText(st, key, fallback) == key
    {
      st.TMissingIsKey(key, None);
    }

    /** `translateString` under the provider's `t`: the message the current
        locale, or else English, holds for the key when that is a string,
        the fallback when it is another value, and the key itself when
        neither locale holds the key. */
    lemma TrFromProvider(st: I18nProvider.LocaleState, key: string, fallback: string)
      requires st.Valid()
      requires lookup(key) == TextOf(st.T(key, None))
      ensures Tr(key, fallback) == ProviderText(st, key, fallback)
      ensures Untranslated(st, key) ==> Tr(key, fallback) == key
    {
      if Untranslated(st, key) {
        st.TMissingIsKey(key, None);
      }
    }

    /** The header under the provider's `t`: each text is what the provider
        shows for its key, so (by `ProviderTextOfMissing`) a key missing from
        both locales shows as the key itself and the English text appears
        only for a key holding a non-string. */
    lemma HeaderFromProvider(st: I18nProvider.LocaleState, p: Phase)
      requires st.Valid()
      requires lookup(HeaderKeys(p).0) == TextOf(st.T(HeaderKeys(p).0, None))
      requires lookup(HeaderKeys(p).1) == TextOf(st.T(HeaderKeys(p).1, None))
      ensures HeaderContent(p).0 == ProviderText(st, HeaderKeys(p).0, HeaderFallbacks(p).0)
      ensures HeaderContent(p).1 == ProviderText(st, HeaderKeys(p).1, HeaderFallbacks(p).1)
    {
      var keys, fallbacks := HeaderKeys(p), HeaderFallbacks(p);
      assert HeaderContent(p) == (Tr(keys.0, fallbacks.0), Tr(keys.1, fallbacks.1));
      TrFromProvider(st, keys.0, fallbacks.0);
      TrFromProvider(st, keys.1, fallbacks.1);
    }

    /** `canSubmit` is exactly "validation finds nothing". */
    lemma CanSubmitIffValid(username: string, password: string, termsAccepted: bool)
      ensures CanSubmit(username, password, termsAccepted) <==> ValidationErrors(username, password, termsAccepted) == NoErrors
    {
    }

    /** After a failed validation in `login` itself the router page holds
      exactly the checks that failed, while the hook and the app page also
      keep any error already set on a field that passed. Through the form
      (`Submit`) nothing is kept on any variant. */
    lemma ValidationErrorsShown(current: FieldErrors, username: string, password: string, termsAccepted: bool)
      requires !CanSubmit(username, password, termsAccepted)
      ensures var e := ErrorsAfterValidation(current, ValidationErrors(username, password, termsAccepted));
              (e.username.Some? <==> Trim(username) == "" || (variant != RouterPage && current.username.Some?))
              && (e.password.Some? <==> Trim(password) == "" || (variant != RouterPage && current.password.Some?))
              && (e.terms.Some? <==> !termsAccepted || (variant != RouterPage && current.terms.Some?))
              && (e.general.Some? <==> variant != RouterPage && current.general.Some?)
    {
    }
  }

  // ----- Derived view state -----

  /** `isAuthorizedStatus` / `authorizedStatus`: the kept reply when it is
      AUTHORIZED, nothing otherwise. */
  function AuthorizedStatusOf(status: Option<ClientStatusResponse>): (r: Option<ClientStatusResponse>)
    ensures r.Some? <==> status.Some? && status.value.AuthorizedStatus?
    ensures r.Some? ==> r == status
  {
    if status.Some? && status.value.ClientStateOf() == Dtos.Authorized then status else None
  }

  predicate ShowPassword(p: Phase) { p == Password }
  predicate ShowAnonymous(p: Phase) { p == Anonymous }
  predicate ShowLogout(p: Phase) { p == Phase.Authorized }

  /** At most one section is shown, none while checking, and exactly one
      once the check is over. */
  lemma SectionsExclusive(p: Phase)
    ensures !(ShowPassword(p) && ShowAnonymous(p)) && !(ShowPassword(p) && ShowLogout(p)) && !(ShowAnonymous(p) && ShowLogout(p))
    ensures p == Checking <==> !ShowPassword(p) && !ShowAnonymous(p) && !ShowLogout(p)
  {
  }

  /** `headerContent`: the translation keys of the title and description
      for each phase; the password phase uses the default pair. */
  function HeaderKeys(p: Phase): (keys: (string, string))
  {
    match p
    case Checking => ("headerTitleChecking", "headerDescriptionChecking")
    case Anonymous => ("headerTitleAnonymous", "headerDescriptionAnonymous")
    case Authorized => ("headerTitleAuthorized", "headerDescriptionAuthorized")
    case Password => ("headerTitle", "headerDescription")
  }

  /** The English header texts. */
  function HeaderFallbacks(p: Phase): (string, string)
  {
    match p
    case Checking => ("Checking your connection...",
                      "Please wait while we verify the current network status of this device.")
    case Anonymous => ("Guest access available",
                       "You can continue with temporary access or sign in with your personal credentials below.")
    case Authorized => ("You are connected to the ATS Network",
                        "This device already has internet access. You can close this window or sign out below if you are finished.")
    case Password => ("Welcome to the ATS Network",
                      "By using this network you agree to comply with the following terms of use. If you do not agree, you may not use the network.")
  }

}
