# Captive portal login: a verified model

The captive portal is the page a guest network shows before it lets a
client out. The login page asks the portal's access API for the client's
status. It then shows one of three sections: a password form, a
terms-only "anonymous" button, or the details of an authorized session
with a logout button. After a successful logon it sends the browser on to
the address it was originally trying to reach (`redirurl`).

This project models the logic behind that page in Dafny:

- **`Dtos`**: the status payloads. This is a union tagged by the client
  state AUTHORIZED, NOT_AUTHORIZED or UNKNOWN.
- **`MockPortal`**: the development stand-in for the portal appliance. It
  keeps a process-wide session table keyed by `zone:ip` and has three
  handlers: status, logon and logoff. It is a class whose `sessions` map
  the handlers update.
- **`ApiClient`**: the browser-side client.
  - base-URL normalisation and request paths, including `encodeURIComponent`;
  - the `zoneid` header on a mutable `Headers` object;
  - the URL-encoded logon form;
  - tolerant JSON reading of replies.
- **`LoginController`**: the login controller. The repository writes it
  three times: a React hook, a router page and a Next.js app page. Here it
  is one class with a `variant` that selects where the copies differ. It
  covers:
  - the zone fallback (`withZone`) and the status check;
  - the three buttons, with their busy flag and field errors;
  - the mount effect, the redirect and the header texts.
- **`I18nStore`** and **`I18nProvider`**: the two translation layers.
  - The Svelte store does a dotted lookup that descends into arrays too. It
    also picks the initial language and builds the language picker.
  - The React provider does a dotted lookup that refuses arrays. It fills
    `{param}` placeholders with `String.prototype.replace` semantics, and
    handles the fallback chain, the initial locale and `setLocale`.
- **`ClientDetails`**: the connection details of an authorized client.
  - The session start can be given in seconds or in milliseconds.
  - There are two entries that are always shown and up to three optional
    ones.
  - The collapsible appears only when there are optional entries.
- **`Scenarios`**: lemmas that join the client, the mock portal and the
  controller. For example, the demo account logs on and the page then
  shows the logout section.
- Support modules:
  - `Strings`: JavaScript `trim`, `split` and decimal rendering.
  - `QueryParams`: `URLSearchParams`.
  - `Translations`: translation values and JavaScript property access.
  - `Wrappers`.

The outside world is passed in as a parameter:

- the network, as a function from request to reply;
- `JSON.parse` and the URL parser;
- the translation dictionaries;
- the session-id generator and the clock;
- the local rendering of a date.

Browser effects are recorded in the controller's `effects` list as
`Toast`, `Navigate` or `Reload`. The calls it makes are recorded in its
`requests` list.

## Model

| member | source | states |
|---|---|---|
| Dtos.ClientStatusResponse.ClientStateOf | src/lib/api/dtos.ts:30-33 | the `clientState` tag is AUTHORIZED, NOT_AUTHORIZED or UNKNOWN exactly for the matching variant, so the tag discriminates the union |
| MockPortal.GetIp | src/app/api/captiveportal/mockPortal.ts:38-41 | a missing or empty `x-forwarded-for` gives 127.0.0.1; otherwise the address holds no comma and has no surrounding whitespace |
| MockPortal.GetIpFirstToken | src/app/api/captiveportal/mockPortal.ts:40 | with several comma-separated addresses, the first one, trimmed, is the client address |
| MockPortal.GetIpSingle | src/app/api/captiveportal/mockPortal.ts:40 | a header holding one address gives that address trimmed |
| MockPortal.MakeSessionKey | src/app/api/captiveportal/mockPortal.ts:46-48 | the key's first colon separates the zone's decimal rendering from the address, so both can be read back from it |
| MockPortal.SessionKeyInjective | src/app/api/captiveportal/mockPortal.ts:46-48 | two (zone, address) pairs share a session key only if they are equal |
| MockPortal.ParseIntNaN | src/app/api/captiveportal/mockPortal.ts:100 | `parseInt(s, 10)` is NaN exactly when no digit follows the leading whitespace and optional sign |
| MockPortal.ParseIntOfNatToString | src/app/api/captiveportal/mockPortal.ts:100 | parsing the decimal rendering of a number gives that number back |
| MockPortal.JsRem | src/app/api/captiveportal/mockPortal.ts:58 | the JavaScript remainder lies strictly between -b and b and agrees with the mathematical one on non-negative operands |
| MockPortal.FakeMacFromIp | src/app/api/captiveportal/mockPortal.ts:54-60 | the fake MAC always starts with `02:00:00:00:00:` |
| MockPortal.MacOfNumericIp | src/app/api/captiveportal/mockPortal.ts:54-60 | for an address of decimal parts, the last byte is the sum of the parts mod 255, in two lowercase hex digits |
| MockPortal.SumOfNumericParts | src/app/api/captiveportal/mockPortal.ts:56 | folding `acc + parseInt(part, 10)` over parts that are all decimal digit strings adds their decimal values to the start value, never giving NaN |
| MockPortal.MacOfSum | src/app/api/captiveportal/mockPortal.ts:58-59 | a numeric sum gives the prefix followed by exactly two lowercase hex digits of the sum mod 255 |
| MockPortal.MacOfIpv6Loopback | src/app/api/captiveportal/mockPortal.ts:56-59 | an address with a non-numeric part (`::1`) gets the suffix `NaN` |
| MockPortal.BuildResponse | src/app/api/captiveportal/mockPortal.ts:66-92 | the reply is AUTHORIZED with the stored user, session id, start time and MAC exactly when an authorized session exists at the client's key; otherwise NOT_AUTHORIZED with the configured login method and the fake MAC; always with the client's address |
| MockPortal.ParseCredentials | src/app/api/captiveportal/mockPortal.ts:115-133 | a form body yields its `user` and `password` parameters and a JSON body its `user` and `password` fields, each "" when missing; the form type wins when both are named, and any other content type yields ("", "") |
| MockPortal.AfterLogon | src/app/api/captiveportal/mockPortal.ts:136-160 | an accepted logon stores an authorized session for the stored user, the new id, the time in seconds and the fake MAC under the client's key; a rejected one leaves the table as it was; no other key changes |
| MockPortal.LogonThenStatus | src/app/api/captiveportal/mockPortal.ts:136-165 | after an accepted logon the reply is AUTHORIZED for the stored user with the new session id; after a rejected one the reply is what it was before |
| MockPortal.AnonymousLogonAlwaysSucceeds | src/app/api/captiveportal/mockPortal.ts:138-141 | with login method "none" every logon is accepted and a blank user is stored as "anonymous" |
| MockPortal.ShippedCredentials | src/app/api/captiveportal/mockPortal.ts:11-19 | the shipped accounts log on with their passwords, while a wrong-case or empty password or an unknown user is refused |
| MockPortal.LogonLeavesOthersAlone | src/app/api/captiveportal/mockPortal.ts:150-160 | a logon changes no other client's status reply |
| MockPortal.AfterLogoff | src/app/api/captiveportal/mockPortal.ts:176 | logoff removes exactly the client's key and keeps every other entry |
| MockPortal.LogoffThenStatus | src/app/api/captiveportal/mockPortal.ts:171-180 | after a logoff the reply is always NOT_AUTHORIZED, and logging off twice equals logging off once |
| MockPortal.LogoffLeavesOthersAlone | src/app/api/captiveportal/mockPortal.ts:176 | a logoff changes no other client's status reply |
| MockPortal.LogoffReplyOutsideDeclaredType | src/lib/api/dtos.ts:51-53 | the logoff reply is NOT_AUTHORIZED, which the declared logoff reply type (UNKNOWN or AUTHORIZED) does not admit |
| MockPortal.SessionStore.constructor | src/app/api/captiveportal/mockPortal.ts:29-30 | the session table starts empty |
| MockPortal.SessionStore.HandleStatus | src/app/api/captiveportal/mockPortal.ts:99-105 | the status handler answers the reply built for the client's address and changes nothing |
| MockPortal.SessionStore.Authenticate | src/app/api/captiveportal/mockPortal.ts:136-148 | the credential check succeeds exactly when the login method is "none" or the user has a non-empty configured password equal to the one supplied; on success the user to store is "anonymous" for a blank name under "none" and the supplied name otherwise |
| MockPortal.SessionStore.HandleLogon | src/app/api/captiveportal/mockPortal.ts:111-166 | the logon handler stores a session exactly for accepted credentials, under the client's key, and answers the status of the new table |
| MockPortal.SessionStore.HandleLogoff | src/app/api/captiveportal/mockPortal.ts:171-180 | the logoff handler deletes the client's key unconditionally and answers NOT_AUTHORIZED |
| ApiClient.StripTrailingSlash | src/lib/api/captivePortalClient.ts:30 | the base URL loses a trailing slash iff it has one, and nothing else |
| ApiClient.StripOnlyOneSlash | src/lib/api/captivePortalClient.js:17-20 | only one slash goes: `x//` becomes `x/`, and a base without a trailing slash is kept |
| ApiClient.EncodeUriComponent | src/lib/api/captivePortalClient.ts:41 | the encoded zone is never shorter, is empty iff the zone is, holds only unreserved characters and escapes, and so holds no `/`, `?` or `#` that could leave the path segment |
| ApiClient.EncodeUnreserved | src/lib/api/captivePortalClient.js:30 | a zone made of unreserved characters (a numeric zone id) is sent as it is |
| ApiClient.DecodeEncode | src/lib/api/captivePortalClient.ts:74 | percent-decoding the encoded zone gives back its UTF-8 bytes |
| ApiClient.StripHttpSpace | src/lib/api/captivePortalClient.ts:114 | a header value is stored without leading or trailing HTTP whitespace, and no longer than given |
| ApiClient.StripHttpSpaceSlice | src/lib/api/captivePortalClient.ts:114 | the stored value is the slice of the given one between its leading and trailing HTTP whitespace, so exactly that whitespace is removed and the zone passed in is what is sent |
| ApiClient.AppendAllKeeps | src/lib/api/captivePortalClient.ts:125 | building headers from pairs leaves every name that no pair mentions as it was |
| ApiClient.RecordHeaders | src/lib/api/captivePortalClient.ts:125 | a record with names distinct ignoring case gives a table holding each name lower-cased with its stripped value, and no other name |
| ApiClient.CaseInsensitiveCollision | src/lib/api/captivePortalClient.js:124-134 | two record names that differ only in case are combined into one header with both values joined by ", " |
| ApiClient.Headers.Get | src/lib/api/captivePortalClient.ts:129 | a header lookup ignores case and finds a value iff the lower-cased name is present |
| ApiClient.Headers.Set | src/lib/api/captivePortalClient.ts:114 | `set` replaces every value of the name with the stripped value and keeps the other headers |
| ApiClient.Headers.Empty | src/lib/api/captivePortalClient.ts:120 | a fresh header table is empty |
| ApiClient.Headers.FromRecord | src/lib/api/captivePortalClient.ts:125 | a table built from a record holds the record's pairs appended in order |
| ApiClient.SpreadKeepsHead | src/lib/api/captivePortalClient.ts:77-80 | spreading the caller's headers over the logon literal keeps the literal's content type when the caller names none |
| ApiClient.ParseJson | src/lib/api/captivePortalClient.ts:128-149 | a declared length of "0" gives null; otherwise a reply not declared as JSON gives null for an empty text, propagates a failed read and is the parse of its text, syntax errors included; a reply declared as JSON turns a syntax error into null, rethrows any other error and returns what it parsed |
| ApiClient.ParseJsonTypeIrrelevant | src/lib/api/captivePortalClient.ts:136-139 | a well-formed non-empty body parses the same whatever content type the reply declares |
| ApiClient.ParseJsonMalformed | src/lib/api/captivePortalClient.js:141-161 | a malformed body is null when declared as JSON and throws the syntax error otherwise |
| ApiClient.RequestOutcome | src/lib/api/captivePortalClient.ts:99-110 | a rejected fetch propagates its error and a failed parse propagates the parse error; otherwise the reply copies `ok` and `status` and carries the parsed body |
| ApiClient.FormEntries | src/lib/api/captivePortalClient.ts:151-160 | the form holds `user` iff the user is non-empty and `password` iff the password is present and non-empty, and it is empty iff both are absent or empty; it has at most two entries, only those two names, and no name twice |
| ApiClient.CaptivePortalClient.constructor | src/lib/api/captivePortalClient.ts:29-32 | the client keeps the base URL without its trailing slash and the given fetch |
| ApiClient.CaptivePortalClient.NormalizeHeaders | src/lib/api/captivePortalClient.ts:118-126 | no headers give a fresh empty table, a record gives a fresh table of its pairs, and a `Headers` object is returned itself |
| ApiClient.CaptivePortalClient.WithZoneId | src/lib/api/captivePortalClient.ts:112-116 | the `zoneid` header is set to the zone, overriding any caller value, and every other header is kept; a caller's object is changed in place |
| ApiClient.CaptivePortalClient.Request | src/lib/api/captivePortalClient.js:97-105 | the request goes to the base URL followed by the path, with the given method, headers and body |
| ApiClient.CaptivePortalClient.GetClientStatus | src/lib/api/captivePortalClient.ts:37-46 | the status call goes to the status path of the zone, by GET unless the caller names a method, with the zone header set |
| ApiClient.CaptivePortalClient.Logon | src/lib/api/captivePortalClient.ts:68-83 | the logon call always POSTs the form of the credentials to the logon path, with the form content type and the zone header |
| ApiClient.CaptivePortalClient.Logoff | src/lib/api/captivePortalClient.ts:88-97 | the logoff call goes to the logoff path, by POST unless the caller names a method, with the zone header set |
| ApiClient.CaptivePortalClient.ToFormData | src/lib/api/captivePortalClient.js:166-175 | the form built by `set` calls is the form the credentials determine |
| ApiClient.LogonHeadersShape | src/lib/api/captivePortalClient.js:63-74 | a logon carries the zone in `zoneid`, and the form content type whenever the caller's headers name no content type |
| LoginController.Candidates | src/hooks/useCaptivePortalLogin.ts:130 | the candidate zones are the configured zone and then the empty zone, or the empty zone alone; never empty, the last one is always "" |
| LoginController.WithZoneRule | src/pages/LoginPage.tsx:101-122 | the zones are tried in order; every call but the last got a 404 or threw; the last one did neither unless it was the final candidate; its reply is the result, so a final 404 is returned and a final exception rethrown |
| LoginController.WithZoneCalls | src/app/page.tsx:106-127 | with a zone configured the zone is asked first, and the empty zone second exactly when the first call got a 404 or threw; without one, a single call for the empty zone is made |
| LoginController.Controller.WithZone | src/hooks/useCaptivePortalLogin.ts:128-149 | the loop returns the reply and the calls that the retry rule determines |
| LoginController.Accepted | src/hooks/useCaptivePortalLogin.ts:155 | a reply is accepted iff it returned with `ok` and a payload |
| LoginController.PhaseOf | src/pages/LoginPage.tsx:130-138 | AUTHORIZED leads to the logout section and only it; NOT_AUTHORIZED with login method "none" leads to the anonymous section and only it; everything else leads to the password form |
| LoginController.PhaseOfOnto | src/pages/LoginPage.tsx:130-138 | each of the three sections after the check is reached by some status reply |
| LoginController.PhaseAfterCheck | src/app/page.tsx:129-149 | any failure of the status check ends on the password form, and a check never leaves the page in the checking phase |
| LoginController.Controller.CheckStatus | src/hooks/useCaptivePortalLogin.ts:151-173 | the phase is the one the status reply implies; a failure toasts and, in the hook, clears the kept status; the calls follow the zone fallback |
| LoginController.Controller.CheckToasts | src/hooks/useCaptivePortalLogin.ts:166-171 | a status check toasts exactly once when it fails in any way and not at all when its reply is accepted |
| LoginController.TargetText | src/pages/LoginPage.tsx:74-83 | the text given to the URL parser always has an http(s) scheme, and is the raw target itself when that has one |
| LoginController.RedirectTarget | src/hooks/useCaptivePortalLogin.ts:101-110 | a missing or empty `redirurl` gives no target, and a non-empty one gives exactly what the URL parser makes of it with `https://` put in front when it names no http(s) scheme |
| LoginController.RedirectShape | src/hooks/useCaptivePortalLogin.ts:112-126 | the page reloads iff there is no target; otherwise it navigates to the target with its host, path and fragment, `refresh` set once to "", every other parameter kept, and `http:` upgraded exactly when asked |
| LoginController.RedirectEffect | src/hooks/useCaptivePortalLogin.ts:112-126 | a redirect reloads exactly when there is no target and never toasts; a navigation uses `https:` for an `http:` target when asked, and the target's own scheme otherwise |
| LoginController.SchemelessTargetIsHttps | src/app/page.tsx:79-88 | a target given without a scheme is read as an https address |
| LoginController.Controller.Redirect | src/pages/LoginPage.tsx:85-99 | a redirect records exactly the navigation or reload the query determines and changes nothing else |
| LoginController.MergeErrors | src/hooks/useCaptivePortalLogin.ts:186-208 | every field the new errors set takes the new message, every field they leave unset keeps its current message, so merging no errors changes nothing |
| LoginController.Controller.ValidationErrors | src/pages/LoginPage.tsx:151-168 | each field error is set exactly when its check fails (blank trimmed user, blank trimmed password, terms not accepted), and there is never a general error |
| LoginController.Controller.CanSubmitIffValid | src/pages/LoginPage.tsx:265 | the submit button is enabled iff validation finds no error |
| LoginController.Controller.ValidationErrorsShown | src/app/page.tsx:151-188 | after a failed validation inside `login`, every failing field has its error; on the router page nothing else is set, while the hook and the app page keep an error already set on a passing field |
| LoginController.Controller.Submit | src/components/login/PasswordLoginForm.tsx:39 | a form submission that fails validation shows exactly the failing checks on every variant, because the hook's and the app page's `handleSubmit` clears all errors before `login`; otherwise as `Login` |
| LoginController.Controller.AuthFailedErrors | src/pages/LoginPage.tsx:189-195 | a refused logon marks the password field and the general error, and no other field |
| LoginController.Controller.ToastText | src/hooks/useCaptivePortalLogin.ts:86-99 | a toast shows the error's message when it is an error with a message, and the "server unavailable" text otherwise |
| LoginController.Controller.Login | src/hooks/useCaptivePortalLogin.ts:175-248 | while busy nothing happens; a failed validation sets the failing field errors with no call, the router page replacing the whole set and the other two keeping the rest; otherwise the trimmed credentials are sent, then AUTHORIZED redirects with the https upgrade, any other answer shows the credential errors, and a failure toasts; busy is cleared on every path |
| LoginController.Controller.SubmitLogon | src/app/page.tsx:190-220 | the network half of a login: the calls follow the zone fallback and the outcome is redirect, credential errors or toast, with busy cleared |
| LoginController.Controller.LoginAnonymous | src/pages/LoginPage.tsx:206-227 | while busy nothing happens; otherwise empty credentials are sent, and AUTHORIZED redirects without upgrading the scheme while anything else toasts; busy is cleared |
| LoginController.Controller.Logout | src/app/page.tsx:248-262 | while busy nothing happens; otherwise a logoff is sent, an `ok` reply reloads whatever its payload and anything else toasts; busy is cleared |
| LoginController.Controller.Mount | src/hooks/useCaptivePortalLogin.ts:291-300 | mounting takes the page query and the global zone, checks the status with the old zone, and checks again with the new zone when it differs; the phase, the kept status (hook only) and the toasts are those of the two checks, the new zone's last |
| LoginController.Controller.constructor | src/pages/LoginPage.tsx:37-50 | the page starts checking, not busy, without errors, zone, status, input, effects or calls |
| LoginController.Controller.EditUsername | src/components/login/PasswordLoginForm.tsx:67-73 | editing the user name sets it; the field's error and the general one are cleared always on the router page (LoginPage.tsx:357-359) and only when the field shows an error on the hook and app page; nothing else changes |
| LoginController.Controller.EditPassword | src/components/login/PasswordLoginForm.tsx:96-102 | editing the password sets it; the field's error and the general one are cleared always on the router page (LoginPage.tsx:383-385) and only when the field shows an error on the hook and app page; nothing else changes |
| LoginController.Controller.EditTerms | src/components/login/PasswordLoginForm.tsx:114-119 | ticking the terms sets them; their error and the general one are cleared always on the router page (LoginPage.tsx:422-424) and only when the terms show an error on the hook and app page; nothing else changes |
| LoginController.Controller.HeaderContent | src/hooks/useCaptivePortalLogin.ts:316-354 | each header text is the string `t` gives for the phase's key, and the built-in English text exactly when `t` gives no string |
| LoginController.TextOf | src/hooks/useCaptivePortalLogin.ts:79-85 | `translateString` keeps a value of `t` exactly when it is a string |
| LoginController.Controller.TrFromProvider | src/hooks/useCaptivePortalLogin.ts:79-85 | when `lookup` agrees with the provider's `t` on the key, a text is the translation when the key holds a string, the fallback when it holds another value, and the raw key when neither locale has it |
| LoginController.Controller.ProviderTextOfMissing | src/lib/i18n.tsx:106-117 | what the provider makes of `translateString` for a key neither locale holds is the key itself, never the English fallback |
| LoginController.Controller.HeaderFromProvider | src/hooks/useCaptivePortalLogin.ts:316-354 | when `lookup` agrees with the provider's `t` on the two header keys, each header text is what the provider shows for its key: with `ProviderTextOfMissing`, a header key missing from both locales shows as the key itself, and the English text appears only for a key holding a non-string |
| LoginController.AuthorizedStatusOf | src/hooks/useCaptivePortalLogin.ts:19-23 | the authorized status is present iff the kept status is AUTHORIZED, and is that status |
| LoginController.SectionsExclusive | src/hooks/useCaptivePortalLogin.ts:356-361 | at most one of the password, anonymous and logout sections shows, and none shows exactly while checking |
| QueryParams.SetThenGet | src/lib/api/captivePortalClient.ts:154 | after `set(name, v)` the name has the one value v and every other name keeps its values |
| QueryParams.GetIsFirstValue | src/app/api/captiveportal/mockPortal.ts:124 | `get` gives the first value of the name, or nothing when it has none |
| QueryParams.SearchParams.SetParam | src/lib/api/captivePortalClient.ts:157 | the mutable parameter list is replaced by the one `set` determines |
| Strings.Trim | src/app/api/captiveportal/mockPortal.ts:40 | the trimmed text is a slice of the input with only whitespace before and after it, and it neither starts nor ends with whitespace, so exactly the surrounding whitespace is removed |
| Strings.JoinSplit | src/lib/i18n.ts:280 | splitting at a separator and joining the pieces again gives the input back |
| Strings.SplitConcat | src/lib/i18n.tsx:46 | splitting `a.b` gives the pieces of `a` followed by the pieces of `b` |
| Translations.Property | src/lib/i18n.ts:284-285 | a property of an object is its own entry; of an array, "length" or a canonical index; a number or boolean has none |
| Translations.IndexNamed | src/lib/i18n.ts:284 | a key names an array element iff it is the canonical decimal rendering of an index in range |
| Translations.ArrayElement | src/lib/i18n.ts:284-285 | an array's element i is its property named by the decimal rendering of i |
| I18nStore.GetNestedValue | src/lib/i18n.ts:279-292 | the loop returns what the dotted walk over objects and arrays defines |
| I18nStore.WalkAppend | src/lib/i18n.ts:283-289 | walking a concatenation of keys walks the two parts in turn |
| I18nStore.TopLevelKey | src/lib/i18n.ts:283-288 | a key without dots reads the top-level entry, and nothing when it is absent |
| I18nStore.DottedKey | src/lib/i18n.ts:279-292 | `a.b` is `b` looked up in the value `a` gives |
| I18nStore.PastStringLeaf | src/lib/i18n.ts:284-287 | a path that goes on past a string leaf finds nothing |
| I18nStore.ReadsArrayElements | src/lib/i18n.ts:284-285 | an index key reads an array element |
| I18nStore.InitialLanguage | src/lib/i18n.ts:254-268 | the initial language is always supported: in a browser the stored one when it is supported, else the navigator language's part before the first `-` when that is supported, else German; German outside a browser |
| I18nStore.RegionalNavigatorLanguage | src/lib/i18n.ts:261-263 | with nothing supported stored, a regional navigator language such as `en-GB` selects its base language |
| I18nStore.LanguageStore.constructor | src/lib/i18n.ts:270 | the store starts in the initial language |
| I18nStore.LanguageStore.Dictionary | src/lib/i18n.ts:295 | `t` reads the dictionary of the current language |
| I18nStore.LanguageStore.LanguageLabelChain | src/lib/i18n.ts:304-308 | a language is labelled by the current dictionary's name for it, else by its own dictionary's name, else by its code |
| I18nStore.LanguageStore.LanguageLabel | src/lib/i18n.ts:304-308 | the current dictionary's name for a language wins, and every label is a name one of the two tables gives, or the code |
| I18nStore.LanguageStore.T | src/lib/i18n.ts:294-297 | `$t` looks the key up in the current language's dictionary |
| I18nStore.LanguageStore.LabelWithoutNames | src/lib/i18n.ts:305-307 | without any `languages` table a language is labelled by its code |
| I18nStore.LanguageStore.LanguageOptions | src/lib/i18n.ts:310-316 | one option per supported language, in declaration order, each with its label |
| I18nStore.LanguageStore.SetLanguage | src/lib/i18n.ts:318-322 | the language changes exactly when the code is supported |
| I18nProvider.Step | src/lib/i18n.tsx:50-51 | one step descends iff the current value is a plain object holding the segment |
| I18nProvider.ResolveMessage | src/lib/i18n.tsx:45-58 | the loop returns what the dotted walk over plain objects defines |
| I18nProvider.RefusesArrays | src/lib/i18n.tsx:50 | no key resolves inside an array |
| I18nProvider.TopLevelMessage | src/lib/i18n.tsx:45-58 | a key without dots reads the top-level entry |
| I18nProvider.FirstOccurrence | src/lib/i18n.tsx:64 | the position found is where the pattern occurs first, and nothing is found iff it occurs nowhere |
| I18nProvider.ReplaceFirst | src/lib/i18n.tsx:64 | at the first occurrence of the pattern, the pattern is replaced by the `$`-expanded replacement and the text around it is kept; a pattern that does not occur leaves the text unchanged |
| I18nProvider.SubstitutePlain | src/lib/i18n.tsx:64 | a replacement without `$` is inserted as it is |
| I18nProvider.FormatMessage | src/lib/i18n.tsx:60-67 | a missing value gives ""; a non-string value or missing parameters give the value itself; a string with parameters is always a string, with the parameters applied in order |
| I18nProvider.ApplyParams | src/lib/i18n.tsx:63-66 | a message without braces is left unchanged by any parameters, whatever their names and values |
| I18nProvider.OneParam | src/lib/i18n.tsx:64 | a single parameter replaces its placeholder where it first occurs |
| I18nProvider.DollarAmpersandKeepsPlaceholder | src/lib/i18n.tsx:64 | a parameter value `$&` puts the placeholder itself back |
| I18nProvider.LocaleState.constructor | src/lib/i18n.tsx:70-71 | the provider starts in the given locale or English |
| I18nProvider.LocaleState.TFallback | src/lib/i18n.tsx:106-117 | `t` answers from the current locale, else from English, else with the key |
| I18nProvider.LocaleState.T | src/lib/i18n.tsx:106-117 | a key found in neither locale gives the key, a non-string message is returned as it is, and a string message is formatted with the parameters |
| I18nProvider.LocaleState.TMissingIsKey | src/lib/i18n.tsx:114 | a key found in neither locale is answered with the key, with or without parameters |
| I18nProvider.LocaleState.ApplyInitialPreference | src/lib/i18n.tsx:73-83 | the first effect switches to the preferred locale only when it is supported and different; with nothing stored the page ends up German exactly when the navigator language starts with "de", and English otherwise |
| I18nProvider.PreferredLocale | src/lib/i18n.tsx:76 | the stored locale wins; otherwise the preference is German exactly when the navigator language starts with "de", and English otherwise |
| I18nProvider.LocaleState.SetLocale | src/lib/i18n.tsx:97-104 | the locale changes exactly to a supported locale that differs from the current one |
| I18nProvider.NextLocale | src/lib/i18n.tsx:98 | the next locale is the requested one iff it is supported or already current, and the current one otherwise |
| I18nProvider.NextLocaleIdempotent | src/lib/i18n.tsx:97-104 | setting a locale twice is setting it once, and the last supported locale set wins |
| ClientDetails.TimeValue | src/components/login/AuthorizedClientDetails.tsx:30-34 | a date is valid iff its time value is within ±8.64e15 ms, and a valid date's time value is the millisecond count truncated toward zero |
| ClientDetails.Milliseconds | src/components/login/AuthorizedClientDetails.tsx:29 | a timestamp below 1e12 is multiplied by 1000, and one from 1e12 on is taken as milliseconds unchanged |
| ClientDetails.FormatSessionStart | src/components/login/AuthorizedClientDetails.tsx:24-37 | 0 shows nothing; otherwise text is shown iff the date is valid, and it is the local rendering of that instant |
| ClientDetails.SecondsMatchMilliseconds | src/components/login/AuthorizedClientDetails.tsx:29 | a timestamp in seconds renders like the same instant given in milliseconds |
| ClientDetails.SmallTimestampsAreSeconds | src/components/login/AuthorizedClientDetails.tsx:29 | a positive timestamp below 1e12 is read as seconds |
| ClientDetails.LargeTimestampsAreMilliseconds | src/components/login/AuthorizedClientDetails.tsx:24-37 | a timestamp from 1e12 on is shown as the instant it names in milliseconds, truncated, or not at all when it is past the largest valid date |
| ClientDetails.OrNotAvailable | src/components/login/AuthorizedClientDetails.tsx:51 | a field shows trimmed, or as "not available" when it is blank |
| ClientDetails.ImportantDetails | src/components/login/AuthorizedClientDetails.tsx:47-59 | exactly two entries, the user name and then the IP address |
| ClientDetails.OptionalDetails | src/components/login/AuthorizedClientDetails.tsx:61-85 | at most three entries, one per known MAC, session id and session start, in that order |
| ClientDetails.CollapsibleFor | src/components/login/AuthorizedClientDetails.tsx:100-120 | the collapsible is shown iff there are optional entries, and holds exactly them |
| ClientDetails.NoCollapsibleWithoutOptionalDetails | src/components/login/AuthorizedClientDetails.tsx:61-85 | there are no optional entries iff MAC and session id are blank and no session start is shown |
| Scenarios.LogonCredentialsArrive | src/lib/api/captivePortalClient.ts:151-160 | a logon sent by the client reaches the mock portal with the same user and password, "" standing for none |
| Scenarios.MockStatusPhase | src/app/api/captiveportal/mockPortal.ts:66-92 | the page shows the logout section for an authorized client and the section for the configured login method otherwise |
| Scenarios.AnonymousLogonAuthorizes | src/app/api/captiveportal/mockPortal.ts:138-141 | the anonymous button against a terms-only portal stores an "anonymous" session and the reply is AUTHORIZED |
| Scenarios.DemoAccountLogsOn | src/app/api/captiveportal/mockPortal.ts:15-18 | the shipped demo account logs on and the page then shows the logout section |
| Scenarios.LogoffThenPhase | src/app/api/captiveportal/mockPortal.ts:171-180 | after a logoff the page falls back to the login form of the configured kind |

## Left out

- Network, JSON and URL parsing: `fetch`, `Response` bodies, `JSON.parse` and the URL parser are function parameters. Their own behaviour is not modelled.
- `getRfcStatus` is not modelled. It is `getClientStatus` on another path with an `Accept` header; the model keeps only the status payload type.
- The route wrappers and the `NODE_ENV` gate are not modelled. The handlers take the zone as an integer, so the NaN zone that `parseInt` of a non-numeric zone gives (key `NaN:ip`) is outside the model.
- `crypto.randomUUID()` and `Date.now()` are parameters. So is `toLocaleString`, which renders a time value; numbers are reals with no IEEE rounding.
- Timestamps: NaN and infinities are not modelled. `new Date` truncates toward zero within ±8.64e15 ms and is invalid beyond.
- Translation dictionary contents are a parameter.
- Keys inherited from `Object.prototype` (`"toString" in {}` is true in JavaScript) are not modelled; lookups see own entries only.
- Strings are sequences of code points, not of UTF-16 units. Lone surrogates, which make `encodeURIComponent` throw, are not modelled.
- `Headers` throwing on names or values that are not byte strings is not modelled. Arrays of pairs as `HeadersInit`, and `RequestInit` fields other than method, headers and body, are also left out.
- The JSON reply is taken to be a status payload, as the client's casts assume. A payload of another shape is not modelled.
- `String(value)` of non-integer numeric parameters is not modelled: parameters are strings or integers. The order of integer-like keys in `Object.entries` is taken to be the insertion order.
- Browser effects are not modelled beyond the recorded `Toast`, `Navigate` and `Reload` effects. These include `document.title`, meta tags, cookies, `localStorage` writes and their errors, and the `lang` attribute. The Svelte store's persisting subscription is out for the same reason.
- React scheduling is not modelled. State updates are sequential, and the two status checks of the mount effect complete in order. Real interleaving of concurrent handlers is out. Of the form library only what changes the shown errors is modelled: `handleSubmit` clearing every error before `login` (`Submit`) and the guarded `clearErrors` calls on edit (`EditUsername`, `EditPassword`, `EditTerms`); its re-validation on change only touches the edited field, whose error those guards already clear, because no field has a validation rule.
- Thrown values that are not `Error` instances are modelled only as "no message" (`NonError`).
- The JS `LogonRequest` typedef requires a password; the TS one makes it optional. The model follows the TS type, which covers both.
- Presentational components are JSX only and are not modelled.
- ParseCredentials: a JSON field is taken to be a string. `body.user ?? ""` keeps a number or a boolean as it is; under "none" a falsy one such as `0` is stored as "anonymous", and under "normal" a non-string password never matches. These cases are not modelled. A `null` or non-object JSON body is modelled, as the empty map: it gives ("", "") as the source does.
- Mount: the mount effect depends on `checkStatus`, which changes whenever `t` changes. So every locale switch, including the provider's first switch to a stored or German preference, runs the effect again, with one more status check on the current zone. The model runs the effect only for the mount and the zone change; a caller models a later locale switch as one more `CheckStatus`.
