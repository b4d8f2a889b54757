# Timesheet front-end: session, guards, error text, entry store and API queries

This project models the decision logic of a Nuxt timesheet front-end in Dafny and proves
properties of it. It covers:

- **Session** (`app/composables/useAuth.ts`). The session is the `auth_token` cookie and the
  `auth_user` state. When the page loads, the user is rebuilt from the token's claims.
  Login and register store the backend's answer and go to `/dashboard`. Logout clears
  everything and goes to `/login`, whatever the backend said.
- **Token payload decoding** (`decodeJwtPayload`, which appears in both `useAuth.ts` and
  `manager-only.ts`). The middle segment is taken, base64url is mapped to base64, the text
  is padded to a multiple of four, and the result is decoded and parsed. Any failure gives
  no payload. The model defines this once.
- **Route guards.**
  - `auth.ts` sends signed-out visitors to `/login`.
  - `manager-only.ts` sends users whose roles are all `employee` to `/timesheets`. Roles
    come from three claims, are normalised and are lower-cased.
  - `require-organization.ts` sends users without an organisation to onboarding. It is
    skipped on the server and on the onboarding page, and it fails closed on errors.
- **Error classification** (`app/utils/errorMessages.ts`). Whatever was thrown is turned
  into a title, a message and a code, according to its status.
- **Timesheet store** (`app/composables/useTimesheets.ts`). The store loads the
  organisation, its projects, the week's timesheet (creating it when missing) and its
  entries. It adds draft rows, and it saves and deletes rows with their per-row state. It
  also holds the week-start arithmetic and the `YYYY-MM-DD` formatter.
- **Query building** in `projectsApi.ts`, `notificationsApi.ts` and `timesheetsApi.ts`. Each
  wrapper includes a parameter under its own truthiness rule and adds `?` only for a
  non-empty query.

Stateful code is modelled as classes whose fields the methods update:

- `Auth.Session` is the cookie and user state.
- `Timesheets.TimesheetStore` holds the store's refs.
- `Timesheets.EntryRow` is one table row, updated in place through aliases.
- `Http.SearchParams` is a local `URLSearchParams`.

Everything else is functions over datatypes. Each API call's answer is a parameter of the
operation that awaits it: a `Result` for values and an `Outcome` for `void` calls. A
rejection carries the thrown value as `ErrorMessages.FetchError`.

The runtime's primitives are modelled as follows:

- `atob` and `JSON.parse` are the two function fields of `Jwt.Host`.
- Dates are day numbers. Day 0 is 1970-01-01, a Thursday.
- The calendar fields of a day (`getFullYear`, `getMonth`, `getDate`) come from a
  `calendar` function parameter.

Points where the code's behaviour may surprise; the model follows the code:

- A role claim given as an array is not split on commas, and its items are not trimmed.
  Only a string claim is split and trimmed. `ManagerOnly.ArrayClaimIsNotSplit` and
  `ManagerOnly.PaddedRole` pin this down.
- Login and register always go to `/dashboard`. No landing path depends on the role.
- `useAuth.logout` calls `authApi.logout`, which `app/api/authApi.ts` does not define, so
  the call always throws and the throw is swallowed. The model passes the revoke outcome as
  a parameter. The session ends cleared whatever that outcome is, so the modelled state
  matches the code in either case.
- A failure to look up organisations in `require-organization.ts` redirects to onboarding
  (fail closed).

## Model

| member | source | states |
|---|---|---|
| Jwt.PayloadSegment | app/composables/useAuth.ts:89-90 | there is a second segment exactly when the token holds a `.`, and that segment holds no `.` |
| Jwt.CompactPayload | app/middleware/manager-only.ts:37 | for `header.payload.signature`, and for `header.payload`, the segment read is `payload` |
| Jwt.ToBase64Alphabet | app/composables/useAuth.ts:93 | `-`→`+` and `_`→`/` keeps the length, leaves no `-` or `_`, and leaves every other character in place |
| Jwt.AlphabetRoundTrip | app/composables/useAuth.ts:93 | mapping back from the base64 to the base64url alphabet restores any segment without `+` or `/` |
| Jwt.PadToQuad | app/composables/useAuth.ts:94 | `padEnd(ceil(length/4)*4, "=")`, with `length` in UTF-16 units: the result is a multiple of four units, adds at most three `=`, and keeps the input as its prefix |
| Jwt.PadToQuadIsCeiling | app/composables/useAuth.ts:94 | the padded UTF-16 length is the least multiple of four not below the input's |
| Jwt.PadToQuadAligned | app/composables/useAuth.ts:94 | input whose UTF-16 length is already a multiple of four is not padded |
| Jwt.PadToQuadAstral | app/composables/useAuth.ts:94 | a character outside the BMP is two units, so it gets two `=` |
| Jwt.Base64Input | app/middleware/manager-only.ts:41-42 | what `atob` receives: the segment in the base64 alphabet, followed only by `=`, to a multiple of four UTF-16 units |
| Jwt.AlphabetKeepsUtf16Length | app/composables/useAuth.ts:93-94 | the alphabet rewrite keeps the UTF-16 length that `padEnd` pads from |
| Jwt.DecodePayload | app/composables/useAuth.ts:88-100 | no payload without a non-empty second segment; with one, the result is exactly `JSON.parse` of what `atob` gives for its base64 form, or nothing when either fails |
| Jwt.MalformedTokensHaveNoPayload | app/middleware/manager-only.ts:37-38 | a token without a dot, or with an empty second segment, has no payload under any decoder |
| Jwt.CompactTokenDecodes | app/middleware/manager-only.ts:36-49 | a compact token with a non-empty payload segment decodes to exactly what `atob` and `JSON.parse` make of that segment |
| Jwt.TwoPartTokenDecodes | app/middleware/manager-only.ts:36-49 | a `header.payload` token with no signature part decodes the same way |
| Json.Get | app/middleware/manager-only.ts:15 | a property is found only on an object that has the key; arrays and scalars have none |
| Json.StringAt | app/composables/useAuth.ts:72 | `typeof payload[key] === "string"` holds exactly when the property is a string, and that string is the result |
| Json.Coalesce | app/utils/errorMessages.ts:17-18 | `a ?? b`: `a` unless it is undefined or null, else `b` |
| Auth.PreferredString | app/composables/useAuth.ts:72-82 | the short claim if it is a string, else the legacy URI claim if it is a string, else `""` |
| Auth.UserFromPayload | app/composables/useAuth.ts:70-85 | a user exists exactly when the payload is an object with a non-empty preferred subject. Its id is the `sub` string or, when `sub` is not a string, the legacy name-identifier claim. Its email is the `email` string; when that is not a string, the legacy emailaddress string; else empty |
| Auth.EmptySubjectHidesLegacyClaim | app/composables/useAuth.ts:72-84 | a string `sub` that is empty wins over the legacy claim, so there is no user |
| Auth.NonStringSubjectIgnored | app/composables/useAuth.ts:72-76 | a non-string `sub` falls through to the legacy name-identifier claim |
| Auth.GetUserFromToken | app/composables/useAuth.ts:68-85 | no user when the payload does not decode or is not an object; for a decoded payload the user is the one its claims name |
| Auth.Session.constructor | app/composables/useAuth.ts:11-15 | a reloaded page has the cookie's token and no user |
| Auth.Session.IsAuthed | app/composables/useAuth.ts:16 | `!!token`: signed in exactly when the token is present and not empty |
| Auth.Session.Rehydrate | app/composables/useAuth.ts:18-21 | the user is derived from the token only when there is no user and the token is non-empty; the token never changes |
| Auth.Session.Establish | app/composables/useAuth.ts:26-30 | the token is the one issued, and the user comes from the response body rather than from the token |
| Auth.Session.Login | app/composables/useAuth.ts:23-33 | sends the login payload; on success it stores token and user and goes to `/dashboard`; on failure the error propagates and the session is unchanged |
| Auth.Session.Register | app/composables/useAuth.ts:35-45 | the same as login, with the registration payload |
| Auth.Session.Logout | app/composables/useAuth.ts:47-56 | whatever the revoke call does, the token and user are cleared, the session is signed out, and the result is `/login` |
| AuthGuard.AuthRedirect | app/middleware/auth.ts:3-6 | redirects to `/login` exactly when the token is missing or empty |
| AuthGuard.EmptyTokenIsSignedOut | app/middleware/auth.ts:5 | an empty token is treated like a missing one |
| AuthGuard.UndecodableTokenAllowed | app/middleware/auth.ts:3-6 | a non-empty token passes even when its payload does not decode |
| AuthGuard.Run | app/middleware/auth.ts:3-6 | the guard rehydrates the session without touching the token, then decides on that token |
| AuthGuard.LogoutThenGuard | app/composables/useAuth.ts:47-56 | after logout, whatever the revoke did, the guard sends the visitor to `/login` |
| ManagerOnly.StringItems | app/middleware/manager-only.ts:25 | the filter keeps exactly the string items of the array |
| ManagerOnly.StringItemsAppend | app/middleware/manager-only.ts:25 | the filter keeps order: it distributes over concatenation |
| ManagerOnly.Trims | app/middleware/manager-only.ts:30 | each piece is replaced by its trim, in place |
| ManagerOnly.NonEmptyMembers | app/middleware/manager-only.ts:31 | `.filter(Boolean)` keeps exactly the non-empty strings |
| ManagerOnly.NonEmptyAppend | app/middleware/manager-only.ts:31 | `.filter(Boolean)` keeps the strings in their order |
| ManagerOnly.TrimmedNonEmpty | app/middleware/manager-only.ts:30-31 | no more roles are kept than there are pieces |
| ManagerOnly.TrimmedNonEmptyTrimmed | app/middleware/manager-only.ts:30-31 | kept roles are non-empty and trimmed |
| ManagerOnly.TrimmedNonEmptyCommaFree | app/middleware/manager-only.ts:30-31 | pieces without a comma give roles without a comma |
| ManagerOnly.TrimmedNonEmptyMembers | app/middleware/manager-only.ts:30-31 | a role is kept exactly when it is the non-empty trim of some piece |
| ManagerOnly.TrimmedNonEmptyAppend | app/middleware/manager-only.ts:30-31 | the kept roles follow the order of their pieces |
| ManagerOnly.SplitRoleList | app/middleware/manager-only.ts:28-31 | a role is kept exactly when it is the non-empty trim of one of the string's comma-separated pieces |
| ManagerOnly.SplitRoleListPiece | app/middleware/manager-only.ts:28-31 | a piece without a comma gives its trimmed text, or nothing when that is empty |
| ManagerOnly.SplitRoleListAppend | app/middleware/manager-only.ts:28-31 | the roles of `a,b` are the roles of `a` followed by those of `b` |
| ManagerOnly.NormalizeRoles | app/middleware/manager-only.ts:22-34 | a falsy value, or one that is neither array nor string, gives no roles; an array gives its string items unchanged; a string gives its split, trimmed, non-empty pieces |
| ManagerOnly.LowerNonEmpty | app/middleware/manager-only.ts:18-19 | the roles kept are exactly the lower-cased non-empty inputs, each non-empty and lower-case |
| ManagerOnly.LowerNonEmptyAppend | app/middleware/manager-only.ts:17-19 | lower-casing and filtering distribute over the flattened claims |
| ManagerOnly.RolesFromPayload | app/middleware/manager-only.ts:13-19 | a payload that is not an object has no roles; every role is non-empty and lower-case |
| ManagerOnly.RolesInClaimOrder | app/middleware/manager-only.ts:14-19 | roles come from the URI claim, then `role`, then `roles`, each in its own order |
| ManagerOnly.GetRolesFromToken | app/middleware/manager-only.ts:10-13 | a missing or empty token, or an undecodable payload, has no roles; otherwise the roles are those of the decoded payload |
| ManagerOnly.IsEmployeeOnly | app/middleware/manager-only.ts:6 | employee-only exactly when the set of roles is `{"employee"}` |
| ManagerOnly.EmployeeOnlySet | app/middleware/manager-only.ts:6 | `length > 0 && every(r => r === "employee")` is the same as the role set being `{"employee"}` |
| ManagerOnly.ManagerOnlyGuard | app/middleware/manager-only.ts:3-8 | redirects exactly when there is at least one role and all roles are `employee`, and only ever to `/timesheets` |
| ManagerOnly.Run | app/middleware/manager-only.ts:3-8 | the guard rehydrates the session user as `useAuth()` does, without touching the token, then decides on that token's roles |
| ManagerOnly.NoRolesNoRedirect | app/middleware/manager-only.ts:6 | a token without roles is let through |
| ManagerOnly.AnyOtherRoleAllowed | app/middleware/manager-only.ts:6 | a single role other than `employee` is enough to be let through |
| ManagerOnly.TrimKeeps | app/middleware/manager-only.ts:30 | trimming introduces no character that was not in the string |
| ManagerOnly.TrimTrimmed | app/middleware/manager-only.ts:30 | a string with no blank at either end is not changed by trimming |
| ManagerOnly.TrimBlankPrefix | app/middleware/manager-only.ts:30 | trimming drops a leading blank |
| ManagerOnly.SplitCommaPair | app/middleware/manager-only.ts:29 | `"a, b".split(",")` is `[a, " b"]` |
| ManagerOnly.SplitCommaBlank | app/middleware/manager-only.ts:28-31 | `"a, b"` normalises to `[a, b]` |
| ManagerOnly.StringClaimIsSplit | app/middleware/manager-only.ts:15-18 | a string `role` claim `"A, B"` yields the two roles, lower-cased |
| ManagerOnly.ArrayClaimIsNotSplit | app/middleware/manager-only.ts:24-25 | an array claim is neither split nor trimmed: non-strings are dropped and a comma item stays one role |
| ManagerOnly.PaddedRole | app/middleware/manager-only.ts:6-31 | `[" employee"]` is not employee-only, while the string `" employee"` is |
| ManagerOnly.LowerOfLower | app/middleware/manager-only.ts:18 | lower-casing a lower-case role changes nothing |
| ManagerOnly.PaddedArrayRole | app/middleware/manager-only.ts:24-25 | an array item with a leading blank keeps its blank as a role |
| ManagerOnly.PaddedStringRole | app/middleware/manager-only.ts:27-31 | a string claim with a leading blank yields the trimmed role |
| RequireOrganization.Decide | app/middleware/require-organization.ts:6-17 | the onboarding page and server rendering pass without a lookup; otherwise the lookup happens, and the guard redirects to onboarding exactly when the lookup failed or gave a null or empty list |
| RequireOrganization.NoRedirectLoop | app/middleware/require-organization.ts:7-15 | the page the guard redirects to is never redirected again by it |
| ErrorMessages.Status | app/utils/errorMessages.ts:17 | `e.status ?? e.response.status` |
| ErrorMessages.Data | app/utils/errorMessages.ts:18 | `e.data` when defined and non-null, otherwise the response's `_data ?? data`, and nothing without a response |
| ErrorMessages.BackendMessage | app/utils/errorMessages.ts:63-68 | the data's string `message` first, else a string `statusMessage`, else none |
| ErrorMessages.Presentable | app/utils/errorMessages.ts:70 | a shown message is non-empty and at most 160 characters; every non-empty BMP message of at most 160 characters is shown |
| ErrorMessages.ToUiError | app/utils/errorMessages.ts:13-83 | total, always with a title, message and code. NETWORK exactly for no status or 0; UNAUTHORIZED, FORBIDDEN and RATE_LIMIT exactly for 401, 403 and 429; SERVER_ERROR exactly from 500 up, and each of these five branches returns its own fixed title and message. Every other status gets the fallback title and the status in decimal, with the backend message when it is present, non-empty and at most 160 UTF-16 units, and the generic message otherwise |
| ErrorMessages.LongMessageHidden | app/utils/errorMessages.ts:70 | 81 characters outside the BMP are 162 UTF-16 units, so they get the generic message |
| ErrorMessages.WideLength | app/utils/errorMessages.ts:70 | characters outside the BMP count twice in `length` |
| Http.Path | app/api/projectsApi.ts:34 | a path built from segments starts with `/` |
| Http.PathSegments | app/api/projectsApi.ts:53 | a path splits back into its segments when no segment holds `/` |
| Http.PathAvoids | app/api/projectsApi.ts:46 | a character in no segment is not in the path |
| Http.PathSnoc | app/api/notificationsApi.ts:42 | one more segment appends `/segment` |
| Http.OrganizationPath | app/api/timesheetsApi.ts:27 | the segments `v1`, `organizations`, id give `/v1/organizations/{id}` |
| Http.QueryString | app/api/projectsApi.ts:45 | the query string is empty exactly when there are no pairs |
| Http.SingleQuery | app/api/projectsApi.ts:45 | one pair is written `key=value` |
| Http.QueryRoundTrip | app/api/projectsApi.ts:45 | reading a query string back gives the pairs, when keys avoid `=` and `&` and values avoid `&` |
| Http.WithQuery | app/api/projectsApi.ts:46 | the bare path for an empty query, otherwise path + `?` + query |
| Http.QueryMark | app/api/timesheetsApi.ts:27 | the URL holds a `?` exactly when the query is non-empty |
| Http.SetPair | app/api/projectsApi.ts:43-44 | `set`: a new key goes at the end; an existing key's first pair takes the value in place, its later pairs go, and every other pair stays in order; afterwards the key has exactly the new value |
| Http.ReplacedAt | app/api/projectsApi.ts:43-44 | `set` on a present key whose first pair is at a given position: the new pair goes there, earlier pairs stay, later pairs with the key go |
| Http.ReplacedPrefix | app/api/projectsApi.ts:43-44 | `set` leaves every pair before the key's first pair where it was |
| Http.WithoutMembers | app/api/projectsApi.ts:43-44 | dropping a key keeps exactly the pairs with other keys, so the key no longer occurs |
| Http.FirstIndex | app/api/projectsApi.ts:43-44 | the first position holding the key: no earlier pair has it |
| Http.SearchParams.Set | app/api/projectsApi.ts:43-44 | the object's pairs become `SetPair` of the old pairs |
| ProjectsApi.ProjectsPathText | app/api/projectsApi.ts:34-53 | the collection and item paths are `/v1/organizations/{org}/projects[/{id}]` |
| ProjectsApi.Create | app/api/projectsApi.ts:33-38 | POSTs the payload to `/v1/organizations/{org}/projects` |
| ProjectsApi.GetById | app/api/projectsApi.ts:51-56 | GETs `/v1/organizations/{org}/projects/{id}` with no body |
| ProjectsApi.Update | app/api/projectsApi.ts:59-64 | PATCHes the payload to `/v1/organizations/{org}/projects/{id}` |
| ProjectsApi.ListQuery | app/api/projectsApi.ts:41-45 | `isActive` is sent exactly when given (`false` included); `clientId` is sent exactly when non-empty; `isActive` comes first; keys are distinct |
| ProjectsApi.ListRequest | app/api/projectsApi.ts:45-47 | a GET without body on the projects path, followed by `?query` only when some parameter is sent |
| ProjectsApi.List | app/api/projectsApi.ts:41-48 | building the query with `set` yields the specified GET request |
| ProjectsApi.ListUrlQuery | app/api/projectsApi.ts:46 | `?` appears exactly when some parameter is sent |
| ProjectsApi.InactiveWithoutClient | app/api/projectsApi.ts:43-46 | `{isActive: false, clientId: ""}` gives the path followed by `?isActive=false` |
| ProjectsApi.CreateShape | app/api/projectsApi.ts:33-38 | create POSTs the payload to the projects path, whose segments name the organisation whole |
| ProjectsApi.ItemShapes | app/api/projectsApi.ts:51-64 | getById GETs with no body and update PATCHes the payload, both on the project's own path, whose segments name the organisation and project whole |
| NotificationsApi.DefinedParams | app/api/notificationsApi.ts:28-32 | the reduce keeps at most one pair per entry |
| NotificationsApi.DefinedParamsAppend | app/api/notificationsApi.ts:28-32 | the reduce distributes over concatenation, so entry order is kept |
| NotificationsApi.DefinedParamsKeys | app/api/notificationsApi.ts:28-32 | only keys of the record appear |
| NotificationsApi.ListRequest | app/api/notificationsApi.ts:26-36 | a GET without body on the notifications path, followed by `?query` only when `params` is given and some entry is defined |
| NotificationsApi.List | app/api/notificationsApi.ts:25-37 | folding the entries one by one into a record, then serialising it, yields the specified GET request |
| NotificationsApi.DefinedParamsMiddle | app/api/notificationsApi.ts:28-32 | an entry contributes its own pair in place |
| NotificationsApi.ListQueryRules | app/api/notificationsApi.ts:26-35 | no params gives the bare path; an undefined entry is dropped; `false` and `0` are sent as `"false"` and `"0"` |
| NotificationsApi.UndefinedEntryDropped | app/api/notificationsApi.ts:29 | an undefined entry contributes nothing, wherever it stands |
| NotificationsApi.FlagEntrySent | app/api/notificationsApi.ts:30 | `false` is sent as `"false"` in its place |
| NotificationsApi.CountEntrySent | app/api/notificationsApi.ts:30 | `0` is sent as `"0"` in its place |
| NotificationsApi.AllUndefinedBarePath | app/api/notificationsApi.ts:26-35 | an empty or all-undefined record gives the bare path |
| NotificationsApi.NotificationsPathText | app/api/notificationsApi.ts:35 | the path is `/v1/organizations/{org}/notifications` |
| NotificationsApi.ActionPathText | app/api/notificationsApi.ts:42-63 | an action path is `/v1/organizations/{org}/notifications/{action}` |
| NotificationsApi.ActionPath | app/api/notificationsApi.ts:40-68 | an action's path is the notifications path plus `/action`, and splits into whole segments |
| NotificationsApi.ActionUrl | app/api/notificationsApi.ts:40-68 | a URL written out as an action path is the notifications path plus `/action` and splits into whole segments |
| NotificationsApi.MarkRead | app/api/notificationsApi.ts:40-48 | POSTs `{ ids }` to `/v1/organizations/{org}/notifications/mark-read` |
| NotificationsApi.MarkAllRead | app/api/notificationsApi.ts:51-58 | POSTs no body to `/v1/organizations/{org}/notifications/mark-all-read` |
| NotificationsApi.CreateReminder | app/api/notificationsApi.ts:61-68 | POSTs no body to `/v1/organizations/{org}/notifications/reminder` |
| NotificationsApi.MarkReadShape | app/api/notificationsApi.ts:40-48 | markRead POSTs a body carrying the ids to `.../notifications/mark-read` |
| NotificationsApi.MarkAllReadShape | app/api/notificationsApi.ts:51-58 | markAllRead POSTs no body to `.../notifications/mark-all-read` |
| NotificationsApi.ReminderShape | app/api/notificationsApi.ts:61-68 | createReminder POSTs no body to `.../notifications/reminder` |
| TimesheetsApi.TimesheetsPathText | app/api/timesheetsApi.ts:27-33 | the path is `/v1/organizations/{org}/timesheets` |
| TimesheetsApi.ListQuery | app/api/timesheetsApi.ts:24-25 | `weekStartDate` is sent exactly when it is non-empty, and then it is the only pair |
| TimesheetsApi.ListRequest | app/api/timesheetsApi.ts:26-28 | a GET without body on the timesheets path, followed by `?weekStartDate=…` only when a week start is sent |
| TimesheetsApi.List | app/api/timesheetsApi.ts:23-29 | building the query with `set` yields the specified GET request |
| TimesheetsApi.Create | app/api/timesheetsApi.ts:32-37 | POSTs the payload to `/v1/organizations/{org}/timesheets` |
| TimesheetsApi.ListShape | app/api/timesheetsApi.ts:23-28 | list is a GET without a body on the timesheets path; `?` appears exactly when a week start is sent, and the bare path otherwise |
| TimesheetsApi.CreateShape | app/api/timesheetsApi.ts:31-37 | create is a POST with the payload on the timesheets path, whose segments name the organisation whole |
| Timesheets.EntryRow.Draft | app/composables/useTimesheets.ts:68-79 | a draft is new, has project `""`, the given work date, null optional fields and no error |
| Timesheets.EntryRow.FromServer | app/composables/useTimesheets.ts:64-115 | a row built from a server entry shows it, with a null error |
| Timesheets.ReplaceById | app/composables/useTimesheets.ts:116-118 | same length; rows with the id become the saved row; the other rows stay in place |
| Timesheets.RemoveById | app/composables/useTimesheets.ts:131-138 | exactly the rows without the id remain; nothing changes when no row has it |
| Timesheets.RemoveByIdAppend | app/composables/useTimesheets.ts:131-138 | the filter keeps order |
| Timesheets.NormalizePayload | app/composables/useTimesheets.ts:95-106 | no field is left undefined; project and work date are kept; task id and duration (0 included) are kept when defined, else null; empty times and notes become null; the payload is unchanged exactly when it is already normalised |
| Timesheets.EnsureTimesheet | app/composables/useTimesheets.ts:56-60 | the week's timesheets are listed first; the first one is used when there is one; a timesheet is created, with a second request, exactly when the list is null or empty; a listing error propagates |
| Timesheets.LoadEntries | app/composables/useTimesheets.ts:62-65 | one fresh row per entry, in order, each showing its entry with a null error |
| Timesheets.FirstOrganization | app/composables/useTimesheets.ts:35-39 | an organisation exists exactly when the list is non-empty, and it is the first one |
| Timesheets.TimesheetStore.constructor | app/composables/useTimesheets.ts:20-27 | empty state, loading, and the week start is the formatted `WeekStartDay` of `now`, the Monday of the week holding it |
| Timesheets.TimesheetStore.WeekLabel | app/composables/useTimesheets.ts:28 | the label is `Week of ` followed by the week start |
| Timesheets.TimesheetStore.LoadTimesheet | app/composables/useTimesheets.ts:30-54 | `loading` is false on every exit. A lookup failure or an empty list gives the UI error or "No organization" and nothing loads. An organisation with an empty id stops silently. Otherwise the first failure is reported and what loaded before it stays; on success the projects, the timesheet and fresh rows for the entries are stored |
| Timesheets.TimesheetStore.AddEntryRow | app/composables/useTimesheets.ts:67-81 | exactly one fresh draft `new-{now}` for the current week is appended, and earlier rows are kept |
| Timesheets.TimesheetStore.SaveEntry | app/composables/useTimesheets.ts:83-125 | does nothing without org and timesheet ids. Missing project or date gives "Missing details" and no call. Otherwise a new row is created and an existing one updated with the normalised payload. On success the rows with the id are replaced by a fresh row showing the saved entry and the others are kept; on failure the rows are kept and the row shows the error. `isSaving` ends false |
| Timesheets.TimesheetStore.DeleteEntry | app/composables/useTimesheets.ts:127-145 | a row already being deleted is left alone. A new row is removed locally with no call, even with nothing loaded. An existing row needs both ids and is removed only after the server confirms; otherwise it shows the error. `isDeleting` ends false |
| WeekDates.DayOfWeek | app/composables/useTimesheets.ts:165 | `getDay()` lies in 0–6 |
| WeekDates.StepBackToMonday | app/composables/useTimesheets.ts:166-167 | the step back `(day + 6) % 7` lies in 0–6 and lands on a Monday |
| WeekDates.WeekStartDay | app/composables/useTimesheets.ts:163-170 | the day the week start moves to is a Monday at most six days before the date |
| WeekDates.GetWeekStart | app/composables/useTimesheets.ts:163-170 | the result is a Monday at midnight, at most six days before the date, namely `WeekStartDay` of the date |
| WeekDates.MondaysAWeekApart | app/composables/useTimesheets.ts:166-167 | two Mondays less than a week apart are the same day |
| WeekDates.WeekStartUnique | app/composables/useTimesheets.ts:163-170 | only one day can be the week start of a date, so all seven days of a week share it |
| WeekDates.TwoDigitsValue | app/composables/useTimesheets.ts:174-175 | `padStart(2, "0")` of a number below 100 is two digits that read back as the number |
| WeekDates.FourDigits | app/composables/useTimesheets.ts:173 | a year from 1000 to 9999 is written with four digits |
| WeekDates.FormatDateFields | app/composables/useTimesheets.ts:172-177 | `formatDateForInput`: for a calendar month and day, the text is the year followed by `-MM-DD`, month and day as two-character fields |
| WeekDates.DateFields | app/composables/useTimesheets.ts:176 | in `year-mm-dd`, the dashes and fields sit at fixed distances from the end |
| WeekDates.FormatDateSplits | app/composables/useTimesheets.ts:172-177 | the formatted date splits at `-` into exactly the year, month and day fields |
| WeekDates.FormatDateRoundTrip | app/composables/useTimesheets.ts:172-177 | the formatted date splits at `-` into three digit strings: the year, a two-digit 1-based month and a two-digit day, which read back as the inputs |
| WeekDates.FormatDateLength | app/composables/useTimesheets.ts:172-177 | a year from 1000 to 9999 gives the ten characters of `YYYY-MM-DD` |
| Strings.Split | app/middleware/manager-only.ts:29 | `split` gives at least one piece, exactly one when the separator is absent, and no piece holds the separator |
| Strings.JoinSplit | app/middleware/manager-only.ts:29 | joining the pieces of a split restores the string |
| Strings.SplitJoin | app/middleware/manager-only.ts:29 | splitting a join of separator-free pieces gives the pieces back |
| Strings.SplitAfter | app/middleware/manager-only.ts:29 | the first separator ends the first piece |
| Strings.SplitConcat | app/middleware/manager-only.ts:29 | splitting at a separator between two strings gives the pieces of each in turn |
| Strings.Trim | app/middleware/manager-only.ts:30 | `trim` removes exactly the leading and trailing white space |
| Strings.LowerChar | app/middleware/manager-only.ts:18 | `toLowerCase` on one character: a capital A-Z becomes the letter in the same place of `abcdefghijklmnopqrstuvwxyz`; any other character is kept; no capital is left |
| Strings.ToLower | app/middleware/manager-only.ts:18 | `toLowerCase` keeps the length and maps each character by LowerChar: a capital becomes the letter in the same place of the lower-case alphabet, and every other character is kept |
| Strings.ToLowerIdempotent | app/middleware/manager-only.ts:18 | lower-casing twice is lower-casing once |
| Strings.Utf16Length | app/utils/errorMessages.ts:70 | `length` counts UTF-16 units: between one and two per character, one each inside the BMP |
| Strings.Utf16LengthAppend | app/utils/errorMessages.ts:70 | `length` of a concatenation is the sum of the lengths |
| Strings.Utf16LengthSameWidths | app/composables/useAuth.ts:93-94 | strings whose characters take the same units pairwise have the same `length` |
| Strings.NatToDecimal | app/composables/useTimesheets.ts:69 | `String(n)` is digits with no leading zero, one digit exactly below 10 |
| Strings.DecimalRoundTrip | app/composables/useTimesheets.ts:174 | the decimal text reads back as the number |
| Strings.IntToString | app/utils/errorMessages.ts:74 | `String(status)` reads back as the integer, with a `-` for negatives |
| Strings.PadStart | app/composables/useTimesheets.ts:174-175 | `padStart` reaches the width, keeps the string at the end and fills before it |
| Strings.PadEnd | app/middleware/manager-only.ts:42 | `padEnd` reaches the width in UTF-16 units, keeps the string at the start and fills after it |

## Left out

- The HTTP client (`app/api/apiClient.ts`) is not part of this model. Requests are values
  (`Http.Request`, `Timesheets.EntryCall`), and answers are parameters.
- The path-only wrappers `authApi.ts`, `clientsApi.ts`, `organizationsApi.ts` and
  `timesheetEntriesApi.ts` are not part of this model. Their calls appear only as the
  requests and answers of the code that uses them.
- Percent-encoding in `URLSearchParams` is not modelled. Keys and values are written as
  they are, so `Http.QueryRoundTrip` requires keys without `=` or `&` and values without `&`.
- `atob` and `JSON.parse` are uninterpreted. They are the fields of `Jwt.Host`, and a throw
  is `None`. The `typeof atob !== "function"` check is folded into the host's `atob`.
- Strings.ToLower: `toLowerCase` is modelled for ASCII letters only. Unicode case mapping is
  not modelled.
- Strings.IntToString: `String(n)` uses exponent form from 10^21 up, and for non-integer
  numbers it prints fractions. The model covers integers below 10^21, which includes every
  HTTP status.
- Number values in claims, statuses, `durationMinutes` and the notifications `take` parameter
  are integers. `Number(...)` in `saveEntry` is the identity on the numbers the type allows.
- The notifications `params` values follow their declared type, a boolean,
  a number or `undefined`. A `null` value, which the `reduce` would send as `"null"`, is
  not modelled.
- WeekDates: time zones and daylight-saving shifts are not modelled. A local day is a whole
  day number. The calendar conversion from a day to year, month and day is a parameter.
  `WeekDates.FormatDateRoundTrip` covers years from 0 up. A negative year would print its
  own `-`.
- Timesheets.TimesheetStore.LoadTimesheet: the two calls under `Promise.all` are made one
  after the other. When both fail, the projects error is the one reported. In the code it
  is whichever rejection settles first.
- Timesheets.TimesheetStore.AddEntryRow: `Date.now()` is the parameter `now`. Draft ids
  are not proved unique, because the code does not make them so.
- Concurrency between overlapping calls (a save or delete started while another is in
  flight) is not modelled. Each action runs to completion. The `isDeleting` guard is
  modelled only as a check on the state at entry.
- NotificationsApi.List: the `params` record is modelled as its entries, with distinct
  keys, as `Object.entries` lists them.
- Strings.PadStart: the width is counted in characters, not UTF-16 units. It is only applied
  to decimal digits, where the two counts agree.
- `console.error` logging, navigation
  side effects (a navigation is returned as a path), `nuxt.config.ts`,
  `server/routes/_nuxt.get.ts` and `useNav.ts` are not modelled.
- Token signature and expiry are not checked by the code, so they are not modelled.
