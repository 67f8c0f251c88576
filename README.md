# Gym membership front end: membership and access-control core in Dafny

This project models the logic core of a React front end for a fitness
facility's membership system. An administrator logs in, browses and searches
the member list, registers members, extends or edits a member's subscription
end date, and deletes members after a confirmation. A member looks themselves
up by mobile number, sees whether their plan is active and how many days are
left, and updates their body weight.

The model covers the decisions the pages make: which request is sent and
when, what each response does to the page state, how the member list is
filtered, how expiry is derived from dates, and when the admin session guard
lets the dashboard render. The backend is not modelled. Each call is a
`Request` value that a page appends to its `sent` log, and the call's result
comes back as a `Response` (`Ok(data)` or `Failed`), passed in by the caller
of a `Complete…` method. Each React component whose state changes becomes a
class. Its `useState` variables are fields, and every handler is a method.
A handler that awaits a call is split in two: the part up to the request, and
the part that handles the response.

Files and modules:

- `wrappers.dfy` (`Wrappers`): `Option`.
- `text.dfy` (`Text`): `toLowerCase`, `includes`, `split(' ')[0]` and
  `slice(k)`, each with a reference characterisation.
- `dates.dfy` (`Dates`): calendar dates and the `yyyy-MM-dd` text form
  (section 5.6 of RFC 3339, `full-date`). `FormatIso` is date-fns
  `format(d, "yyyy-MM-dd")`, `ParseIso` reads that text back, and the two are
  proved mutually inverse.
- `expiry.dfy` (`Expiry`): the two expiry rules. The admin card uses
  `end < now`. The portal uses `Math.ceil((end - now) / 86400000) < 0`, with
  integer ceiling division. The model proves where the two disagree.
- `backend.dfy` (`Backend`): the member record, the requests and the two
  outcomes of a call.
- `storage.dfy` (`Storage`): `localStorage` as a map, with writes as values.
- `protected_route.dfy` (`ProtectedRoute`): the dashboard guard, and the
  admin session's lifetime over any sequence of store writes.
- `admin_login.dfy` (`AdminLogin`): the admin login page.
- `admin_dashboard.dfy` (`AdminDashboard`): the member list, fetch effect,
  search filter and logout; the member card's edit and delete state; and the
  intake form.
- `user_portal.dfy` (`UserPortal`): the member portal.

Where the code and the design description disagree, the model follows the
code:

- A failed list fetch leaves the previous list in place; it is not emptied.
- A failed delete returns the card to its idle state and dismisses the
  prompt; it does not return to the prompt.
- The portal calls a plan EXPIRED only once a full day has passed since its
  end. The admin card calls it expired one millisecond after the end.
  `Expiry.RulesDisagreeIff` gives the exact window where the two differ.
- All four text inputs of the intake form carry the HTML `required`
  attribute, including the one labelled "Trainer (Optional)". The browser
  refuses to submit the form while any of them is empty.
- When the admin credential call succeeds with `admin` false, nothing is
  written and `isLoading` stays true, so the page stays on the loader.

## Model

| member | source | states |
|---|---|---|
| `Text.Lower` | src/pages/AdminDashboard.jsx:34 | `toLowerCase` keeps each character or replaces it by the same ASCII letter in the other case, and leaves no upper-case ASCII letter, so each character becomes its own lower-case form |
| `Text.LowerCharEqIff` | src/pages/AdminDashboard.jsx:34 | two characters lower-case to the same character iff they are equal or the same ASCII letter in its two cases |
| `Text.LowerEqIff` | src/pages/AdminDashboard.jsx:34 | two strings lower-case to the same string iff they differ at most in the case of ASCII letters (both directions) |
| `Text.LowerIdempotent` | src/pages/AdminDashboard.jsx:34 | lower-casing an already lower-cased string changes nothing |
| `Text.IncludesHasOccurrence` | src/pages/AdminDashboard.jsx:34-35 | when `includes` is true, the needle occurs at some index |
| `Text.OccurrenceIncluded` | src/pages/AdminDashboard.jsx:34-35 | an occurrence at any index makes `includes` true |
| `Text.IncludesIff` | src/pages/AdminDashboard.jsx:34-35 | `includes` holds iff the needle occurs at some index (both directions) |
| `Text.Includes` | src/pages/AdminDashboard.jsx:34-35 | `includes` holds for the empty needle, and only for a needle no longer than the hay |
| `Text.FirstWord` | src/pages/UserPortal.jsx:97 | `split(' ')[0]` is a prefix of the name with no space, and is either the whole name or ends just before a space |
| `Text.FirstWordUnique` | src/pages/UserPortal.jsx:97 | those three facts determine the greeting uniquely |
| `Text.SliceFrom` | src/pages/UserPortal.jsx:120 | `slice(k)` has length `max(0, n - k)`, and its characters are those of the original from index `k` |
| `Dates.DaysInMonth` | src/pages/AdminDashboard.jsx:160 | month lengths lie between 28 and 31; a month has 29 days only when it is February of a leap year |
| `Dates.DigitChar` | src/pages/AdminDashboard.jsx:160 | the digit written for `n` reads back as `n` |
| `Dates.NumberOf` | src/pages/AdminDashboard.jsx:150 | a string of `k` digits has a value below `10^k` |
| `Dates.Padded` | src/pages/AdminDashboard.jsx:160 | zero padding gives exactly `width` digits, which read back as `n` |
| `Dates.PaddedNumberOf` | src/pages/AdminDashboard.jsx:160 | padding a digit string's value to the string's own width gives the string back |
| `Dates.FormatIso` | src/pages/AdminDashboard.jsx:290-292 | `format(d, "yyyy-MM-dd")` is 10 characters long, with dashes at positions 4 and 7 |
| `Dates.ParseIso` | src/pages/AdminDashboard.jsx:150 | only 10-character strings with dashes at positions 4 and 7 are accepted |
| `Dates.ParseFormat` | src/pages/AdminDashboard.jsx:160 | parsing a formatted date gives the same date |
| `Dates.FormatParse` | src/pages/AdminDashboard.jsx:150 | formatting a parsed date gives the same string, so the accepted strings are exactly the formatted ones |
| `Dates.FormatInjective` | src/pages/AdminDashboard.jsx:290-292 | two different dates are never sent as the same text |
| `Dates.MonthDaySuffix` | src/pages/UserPortal.jsx:120 | the text after `yyyy-` is the padded month, a dash and the padded day |
| `Dates.FormatExample` | src/pages/AdminDashboard.jsx:290-292 | a 2024 date with a one-digit month and day is written `2024-0M-0D`, e.g. `2024-02-01` |
| `Expiry.CeilDiv` | src/pages/UserPortal.jsx:88 | `Math.ceil(a / b)` is the integer `q` with `b(q-1) < a <= bq` |
| `Expiry.CeilDivUnique` | src/pages/UserPortal.jsx:88 | no other integer has that property |
| `Expiry.DaysLeft` | src/pages/UserPortal.jsx:88 | `daysLeft`, the ceiling of the time to the end in whole days |
| `Expiry.PortalExpired` | src/pages/UserPortal.jsx:89 | the portal's rule: EXPIRED iff `daysLeft < 0` |
| `Expiry.CardExpired` | src/pages/AdminDashboard.jsx:152-154 | the admin card's rule: expired iff the end is strictly before now |
| `Expiry.DisplayDays` | src/pages/UserPortal.jsx:115 | `Math.max(0, daysLeft)` is never negative; it is 0 iff `daysLeft <= 0`, and otherwise equals `daysLeft` |
| `Expiry.DaysLeftBounds` | src/pages/UserPortal.jsx:88 | `daysLeft` is the number of days to the end, rounded up |
| `Expiry.PortalExpiredIff` | src/pages/UserPortal.jsx:89 | the portal shows EXPIRED iff the end is at least one full day before now |
| `Expiry.PortalExpiredImpliesCardExpired` | src/pages/AdminDashboard.jsx:152-154 | whatever the portal calls expired, the admin card (`end < now`) calls expired too |
| `Expiry.RulesDisagreeIff` | src/pages/UserPortal.jsx:88-89 | the card and the portal disagree exactly when the end lies within the last day before now |
| `Expiry.RulesDisagreeExample` | src/pages/AdminDashboard.jsx:152-154 | one millisecond past the end, the card says expired while the portal says ACTIVE with 0 days |
| `Expiry.EndEqualToNowIsActive` | src/pages/AdminDashboard.jsx:154 | an end equal to now is active under both rules (the comparison is strict) |
| `Expiry.FiveDaysPastExample` | src/pages/UserPortal.jsx:88-115 | an end five days past gives `daysLeft = -5`, EXPIRED, and 0 days shown |
| `Expiry.DisplayDaysWhenActive` | src/pages/UserPortal.jsx:115 | while the plan is ACTIVE, the days shown are the raw `daysLeft` |
| `Storage.Apply` | src/pages/AdminLogin.jsx:32 | `setItem` stores the value under its key, `removeItem` deletes the key, and no other key changes |
| `Storage.ApplyAll` | src/pages/AdminLogin.jsx:32 | a sequence of `setItem`/`removeItem` writes (the login write and the logout removal at src/pages/AdminDashboard.jsx:39) leaves every key that none of them touches as it was |
| `Storage.LocalStorage.constructor` | src/components/ProtectedRoute.jsx:6 | the store starts with the given entries |
| `Storage.LocalStorage.GetItem` | src/components/ProtectedRoute.jsx:6 | `getItem` returns the stored value, or `null` when the key is absent |
| `Storage.LocalStorage.SetItem` | src/pages/AdminLogin.jsx:32 | the new entries are the old ones after a `setItem` write |
| `Storage.LocalStorage.RemoveItem` | src/pages/AdminDashboard.jsx:39 | the new entries are the old ones after a `removeItem` write |
| `ProtectedRoute.Guard` | src/components/ProtectedRoute.jsx:4-15 | renders the children unchanged iff `getItem('admin_token')` is exactly `'true'`, else redirects to `/admin` with replace; it only reads the store |
| `ProtectedRoute.OnlyExactTokenOpens` | src/components/ProtectedRoute.jsx:6 | a missing token keeps the guard shut; a stored value opens it iff it is exactly `"true"` |
| `ProtectedRoute.IsAuthenticated` | src/components/ProtectedRoute.jsx:6 | the session test: `admin_token` is stored and equals `"true"` |
| `ProtectedRoute.LastTokenWrite` | src/components/ProtectedRoute.jsx:6 | the result is a write to `admin_token` after which no write in the sequence touches the token; none iff no write touches it |
| `ProtectedRoute.GuardAfterWrites` | src/components/ProtectedRoute.jsx:6 | after any sequence of writes, the guard is open iff the last write to the token set it to `"true"`, or, when no write touched it, iff it was open before |
| `ProtectedRoute.SessionOpensAtLoginUntilLogout` | src/pages/AdminLogin.jsx:32 | after the login write, the guard stays open through writes to other keys, and the logout removal (src/pages/AdminDashboard.jsx:39) shuts it |
| `AdminLogin.LoginPage.constructor` | src/pages/AdminLogin.jsx:10-12 | empty credentials, no loader, nothing sent |
| `AdminLogin.LoginPage.SetUsername` | src/pages/AdminLogin.jsx:94 | the username input updates only the username |
| `AdminLogin.LoginPage.SetPassword` | src/pages/AdminLogin.jsx:107 | the password input updates only the password |
| `AdminLogin.LoginPage.HandleLogin` | src/pages/AdminLogin.jsx:15-26 | an empty username or password blocks the request and leaves `isLoading` false; otherwise `isLoading` turns on and exactly the credential request is sent |
| `AdminLogin.LoginPage.CompleteLogin` | src/pages/AdminLogin.jsx:29-41 | `admin` true writes `admin_token = 'true'` (the guard now opens) and goes to `/admin/dashboard`; `admin` false writes nothing and keeps the loader; a failure writes nothing and clears `isLoading` |
| `AdminDashboard.FilterMembers` | src/pages/AdminDashboard.jsx:33-36 | a member is kept iff it is listed and matches; each matching member keeps its number of occurrences, and every other member has none |
| `AdminDashboard.Matches` | src/pages/AdminDashboard.jsx:34-35 | the search predicate: the lower-cased query in the lower-cased name, or the raw query in the mobile number |
| `AdminDashboard.MatchesIff` | src/pages/AdminDashboard.jsx:33-36 | the match is a case-insensitive occurrence in the name, or an exact occurrence in the mobile number |
| `AdminDashboard.FilterIsSubsequence` | src/pages/AdminDashboard.jsx:33 | the filtered list keeps the backend's order: it is a subsequence of the list |
| `AdminDashboard.FilterEmptyQuery` | src/pages/AdminDashboard.jsx:14 | the empty search keeps every member |
| `AdminDashboard.FilterIdempotent` | src/pages/AdminDashboard.jsx:33-36 | filtering the filtered list again with the same query changes nothing |
| `AdminDashboard.NameMatchIgnoresQueryCase` | src/pages/AdminDashboard.jsx:34 | two queries that differ only in the case of ASCII letters, compared character by character, match the same names |
| `AdminDashboard.NameMatchIgnoresNameCase` | src/pages/AdminDashboard.jsx:34 | two names that differ only in the case of ASCII letters are matched by the same queries |
| `AdminDashboard.Dashboard.constructor` | src/pages/AdminDashboard.jsx:13-31 | mounting starts with an empty list, empty search, the form hidden and the loader on, and sends one list request |
| `AdminDashboard.Dashboard.Listing` | src/pages/AdminDashboard.jsx:113-133 | the skeleton iff loading; otherwise the filtered members, or the "no members found" note when no member matches |
| `AdminDashboard.Dashboard.RunFetchEffect` | src/pages/AdminDashboard.jsx:20-22 | each run turns the loader on and sends the list request; the list is kept until the response |
| `AdminDashboard.Dashboard.CompleteFetch` | src/pages/AdminDashboard.jsx:23-30 | success replaces the list wholesale with the response; failure keeps the list; the loader is off either way |
| `AdminDashboard.Dashboard.FlipRefresh` | src/pages/AdminDashboard.jsx:131 | `onUpdate` flips `refresh`, which re-runs the fetch |
| `AdminDashboard.Dashboard.CreateSucceeded` | src/pages/AdminDashboard.jsx:107 | a successful create flips `refresh` (the fetch re-runs) and hides the form |
| `AdminDashboard.Dashboard.SetSearch` | src/pages/AdminDashboard.jsx:90 | typing changes only the query; nothing is sent |
| `AdminDashboard.Dashboard.ToggleCreate` | src/pages/AdminDashboard.jsx:95 | the button toggles only the form's visibility |
| `AdminDashboard.Dashboard.Logout` | src/pages/AdminDashboard.jsx:38-41 | removes `admin_token` so the guard shuts, and goes to `/` |
| `AdminDashboard.ParseDraft` | src/pages/AdminDashboard.jsx:150 | the draft is empty iff the stored end date is `""`; a parsed draft formats back to the stored text |
| `AdminDashboard.SaveBody` | src/pages/AdminDashboard.jsx:160 | an empty draft sends `""`; a picked day sends text that parses back to that day; an invalid date sends nothing |
| `AdminDashboard.SeededDraftResends` | src/pages/AdminDashboard.jsx:150-161 | in a time zone at or east of UTC, saving an untouched draft sends the stored end date back unchanged |
| `AdminDashboard.MemberCard.constructor` | src/pages/AdminDashboard.jsx:146-150 | a new card is not editing, saving or deleting, and its draft is seeded from the record |
| `AdminDashboard.MemberCard.Valid` | src/pages/AdminDashboard.jsx:245-246 | a save is in flight only in edit mode; the constructor establishes it and every card method keeps it |
| `AdminDashboard.MemberCard.StartEdit` | src/pages/AdminDashboard.jsx:264 | enters edit mode and keeps the draft |
| `AdminDashboard.MemberCard.CancelEdit` | src/pages/AdminDashboard.jsx:245 | leaves edit mode unless a save is in flight, and never resets the draft |
| `AdminDashboard.MemberCard.PickEndDate` | src/pages/AdminDashboard.jsx:233 | the picker replaces the draft with the picked day, or clears it |
| `AdminDashboard.MemberCard.Save` | src/pages/AdminDashboard.jsx:157-161 | while not saving, sends exactly `UpdateSubscription(id, body)` and turns on `isSaving`; an invalid draft sends nothing |
| `AdminDashboard.MemberCard.CompleteSave` | src/pages/AdminDashboard.jsx:161-174 | success leaves edit mode and calls `onUpdate` (the list refetches); failure stays in edit mode and leaves the list alone; `isSaving` is false afterwards |
| `AdminDashboard.MemberCard.ClickDelete` | src/pages/AdminDashboard.jsx:193-206 | unless a delete is in flight, brings up the confirmation prompt; nothing is sent |
| `AdminDashboard.MemberCard.CancelDelete` | src/pages/AdminDashboard.jsx:200-202 | dismisses the prompt and changes nothing else |
| `AdminDashboard.MemberCard.ConfirmDelete` | src/pages/AdminDashboard.jsx:178-181 | the only action that sends the delete request; it turns on `isDeleting` |
| `AdminDashboard.MemberCard.CompleteDelete` | src/pages/AdminDashboard.jsx:181-189 | success calls `onUpdate` (the list refetches); failure clears `isDeleting` and does not call `onUpdate` |
| `AdminDashboard.InitialFormData` | src/pages/AdminDashboard.jsx:281 | the form starts with exactly the four text fields, all empty |
| `AdminDashboard.RequiredInputsFilled` | src/pages/AdminDashboard.jsx:317-320 | the browser lets the form submit only when all four `required` inputs (line 347) are non-empty |
| `AdminDashboard.FormatOptional` | src/pages/AdminDashboard.jsx:290-292 | an unpicked date is sent as `""`, and only an unpicked one; a picked date is sent as text that parses back to it |
| `AdminDashboard.TextFields` | src/pages/AdminDashboard.jsx:289 | the spread copies every input's text |
| `AdminDashboard.ComposeRecord` | src/pages/AdminDashboard.jsx:288-294 | `finalData`: the spread of the form, then the three date texts and `is_paid: true` written over it |
| `AdminDashboard.ComposedRecordKeys` | src/pages/AdminDashboard.jsx:288-294 | the record has the form's keys plus the three date keys and `is_paid` |
| `AdminDashboard.ComposedAddedFields` | src/pages/AdminDashboard.jsx:290-293 | `is_paid` is true, and each date key holds the formatted pick or `""`, whatever the form held under that key |
| `AdminDashboard.ComposedInputFields` | src/pages/AdminDashboard.jsx:289 | every input other than the four added keys keeps its text |
| `AdminDashboard.Truthy` | src/pages/AdminDashboard.jsx:295 | JavaScript truthiness of a record field: absent, `""` and `false` are falsy |
| `AdminDashboard.DatesMissing` | src/pages/AdminDashboard.jsx:295 | the check `!finalData.joining_date \|\| !finalData.subscription_end_date` |
| `AdminDashboard.DatesMissingOfTexts` | src/pages/AdminDashboard.jsx:295 | with JavaScript truthiness, the date check blocks exactly when the joining or end date text is empty |
| `AdminDashboard.DatesMissingIff` | src/pages/AdminDashboard.jsx:295 | the record's date check blocks iff the joining date or the end date was not picked; the start date may be empty |
| `AdminDashboard.ComposedDatesRoundTrip` | src/pages/AdminDashboard.jsx:290-292 | the picked joining and end dates parse back from the record |
| `AdminDashboard.ComposeExample` | src/pages/AdminDashboard.jsx:288-294 | registering Jane Doe on 2024-02-01 with an end of 2024-08-01 gives `is_paid` true and those two texts |
| `AdminDashboard.IntakeForm.constructor` | src/pages/AdminDashboard.jsx:281-284 | the form starts empty, with no dates picked and nothing sent |
| `AdminDashboard.IntakeForm.HandleChange` | src/pages/AdminDashboard.jsx:306 | updates exactly the named field and keeps the others |
| `AdminDashboard.IntakeForm.SelectJoinDate` | src/pages/AdminDashboard.jsx:324 | sets only the joining date |
| `AdminDashboard.IntakeForm.SelectStartDate` | src/pages/AdminDashboard.jsx:325 | sets only the start date |
| `AdminDashboard.IntakeForm.SelectEndDate` | src/pages/AdminDashboard.jsx:326 | sets only the end date |
| `AdminDashboard.IntakeForm.Submit` | src/pages/AdminDashboard.jsx:315-347 | an empty `required` input blocks the submit; then a missing joining or end date blocks the create request; otherwise exactly the composed record is sent |
| `AdminDashboard.IntakeForm.HandleSubmit` | src/pages/AdminDashboard.jsx:286-300 | no create request is sent iff the joining or end date is missing; otherwise the composed record is sent |
| `AdminDashboard.IntakeForm.CompleteSubmit` | src/pages/AdminDashboard.jsx:300-303 | success refetches the list and hides the form; failure keeps the form filled in and leaves the dashboard alone |
| `UserPortal.Render` | src/pages/UserPortal.jsx:40-120 | the loader whenever loading, whatever the member; else the login screen iff there is no member; else the greeting is the first word of the name, EXPIRED iff a full day has passed since the end, the days shown are `max(0, daysLeft)`, and "Plan Ends" is `slice(5)` of the end date |
| `UserPortal.PlanEndsShowsMonthDay` | src/pages/UserPortal.jsx:120 | for a `yyyy-MM-dd` end date, "Plan Ends" shows the five characters `MM-dd` |
| `UserPortal.GreetingExample` | src/pages/UserPortal.jsx:97 | the greeting for "Jane Doe" is "Jane" |
| `UserPortal.Portal.constructor` | src/pages/UserPortal.jsx:8-12 | nobody is logged in, there is no loader, the weight is empty and nothing has been sent |
| `UserPortal.Portal.Current` | src/pages/UserPortal.jsx:40-43 | the page shows the loader iff loading, and the login screen iff not loading with no member |
| `UserPortal.Portal.SetMobile` | src/pages/UserPortal.jsx:72 | typing changes only the mobile number |
| `UserPortal.Portal.HandleLogin` | src/pages/UserPortal.jsx:15-21 | an empty number returns without a request and without the loader; otherwise the loader turns on and exactly the lookup is sent |
| `UserPortal.Portal.CompleteLogin` | src/pages/UserPortal.jsx:21-25 | a found member becomes the session, and the weight becomes `weight \|\| ''`; an unknown number leaves no member; the loader is off either way |
| `Wrappers.Option.GetOr` | src/pages/UserPortal.jsx:23 | `weight \|\| ''`: the stored weight when there is one, else the default |
| `UserPortal.Portal.Logout` | src/pages/UserPortal.jsx:99 | drops the member, with no backend call |
| `UserPortal.Portal.SetWeight` | src/pages/UserPortal.jsx:146 | typing changes only the weight text |
| `UserPortal.Portal.HandleUpdate` | src/pages/UserPortal.jsx:30-33 | sends the raw weight text for the member's id, unchecked, and turns on the loader |
| `UserPortal.Portal.CompleteUpdate` | src/pages/UserPortal.jsx:33-37 | success turns on the acknowledgement; the loader is off either way |
| `UserPortal.Portal.AcknowledgementExpires` | src/pages/UserPortal.jsx:35 | the timer clears the acknowledgement and nothing else |

## Left out

- JSX markup, styling, icons, animations, toasts and `alert`s are
  presentation. Notifications are not modelled, not even as events.
- `src/components/GymLoader.jsx` (visual only) and `src/App.jsx` (the route
  table) are not part of this model. Navigation is modelled only as the path
  a handler returns (`AdminLogin.LoginPage.CompleteLogin`,
  `AdminDashboard.Dashboard.Logout`) or the guard's `Redirect`.
- `src/api.js` and the HTTP transport are replaced by the `Request` values in
  each page's `sent` log and by the `Response` passed to each `Complete…`
  method. The backend's own behaviour is not modelled. So properties about
  what a later fetch returns (the edited date appears, exactly one record is
  gone) are not stated.
- Timers. The 300 ms delay before the dashboard loader comes down and the
  two 800 ms delays (before the admin token write, and before the member
  lookup) are taken as immediate. The 2000 ms acknowledgement reset is an
  explicit later step.
- Concurrency and response order. Each awaited call is modelled as resolving
  before the next one on the same page starts, so responses that arrive out
  of order, and double submits of the intake form, are not modelled.
- `AdminDashboard.IntakeForm.CompleteSubmit`: the form keeps no in-flight
  flag, so the model does not pair a create response with a create request.
- `AdminDashboard.MemberCard.ClickDelete`: the toast library can stack
  several confirmation toasts; the model has one prompt flag.
- Card lifetime. Each fetch shows the skeleton, which remounts every card, so
  a card's draft is seeded only by its constructor. The remount itself (cards
  created from the filtered list) is not modelled.
- `UserPortal.Render` and `Expiry`: `new Date(string)` parsing, time zones,
  and the `NaN` behaviour of an invalid date are left out. The end instant
  and "now" are integer milliseconds passed as parameters. The floating-point
  division behind `Math.ceil` is taken as exact, which it is for
  millisecond values of realistic dates.
- `AdminDashboard.ParseDraft`: models `new Date(s)` as a strict `yyyy-MM-dd`
  parse. Any other non-empty string is an Invalid Date, although JavaScript
  also accepts other date formats.
- `Dates.FormatIso`: years are limited to 1-9999, where `yyyy` gives
  exactly four digits. date-fns' local-time formatting, which can shift the
  day for a UTC-parsed date, is not modelled.
- `AdminDashboard.SeededDraftResends`: holds only in a time zone at or east
  of UTC. `new Date("yyyy-MM-dd")` is UTC midnight, and `format` writes
  local time, so west of UTC an untouched draft is sent back as the
  previous day. Time zones are not modelled, so this shift is not shown.
- `Text.Lower`: maps only the ASCII letters A-Z. JavaScript's
  `toLowerCase` also folds other Unicode letters.
- `UserPortal.Portal.CompleteLogin`: the member's weight is an optional text.
  A numeric weight of 0, which `||` also turns into `''`, is not told apart
  from a present weight.
- `localStorage` persistence across reloads: the store is an in-memory map.
- The header line with the member count and the trainer placeholder `'—'`
  are display text and are not modelled.
