# Lost & Found client — a Dafny model

This project models the browser client of a campus Lost & Found service. It
is a React application. Its own logic is the bookkeeping it does around the
server:

- **Local tables.** Users, reported items and the administrator's
  security-question pool live in `localStorage`. The user dashboard reports,
  edits and deletes items and attaches security questions to found items.
  The admin dashboard moderates pending items, activates and deactivates
  users, and maintains the question pool.
- **Sign-in.** The authentication context signs users in against the
  `users` table in an ordered sequence of checks. It keeps a password-free
  session record and supports logout and partial updates.
- **Routing.** A private-route guard and a public-route guard decide, for
  every path and every signed-in user, whether a page renders or where the
  browser is redirected.
- **Listing.** The public home page filters server items by search text,
  category and tab. It builds the claim-answer form and its payload, and
  picks a placeholder image. The lost-items page filters out the signed-in
  user's own reports.
- **Forms.** The sign-in, registration, password-reset and profile forms
  validate their fields with react-hook-form rules and shape the requests
  they send.

Whether a claimant's answers are right is decided by the server. The client
only forwards the answers and reacts to the reply, so there is no
answer-matching logic here.

Each core source file is one Dafny module:

| module | file |
|---|---|
| `Common` | shared JavaScript string/array semantics: `trim`, ASCII `toLowerCase`, `includes`, order-keeping `filter`/`map` |
| `Records` | the stored user, session, local item and REST item records |
| `Validation` | the email, strong-password and confirmation rules shared by the auth forms |
| `AuthContext` | `auth_context.dfy` — `login`/`logout`/`updateUser` as the class `AuthProvider`, `checkAuth`/`isAdmin` as predicates |
| `PrivateRoute`, `AppRoutes` | `routes.dfy` — the guards and the route table |
| `LoginForm`, `RegisterForm`, `ResetPasswordForm`, `UserProfileForm` | `forms.dfy` |
| `HomePage`, `LostItemsPage` | `pages.dfy` |
| `UserDashboard` | `user_dashboard.dfy` — the views as functions, the handlers as methods of the class `Dashboard` |
| `AdminDashboard` | `admin_dashboard.dfy` — the table rewrites as functions, the handlers as methods of the class `Dashboard` |

### Modelling conventions

- **Tables as sequences.** Each `localStorage` table is a `seq` of records,
  rewritten as a whole by `Filter` or `Map`. Both keep the order of the
  records.
- **Dashboard classes.** Each dashboard class holds the stored table and the
  list the page shows. Its `Valid()` says that the shown list is the one the
  page would load from the table. Every handler keeps `Valid()`, and the
  lemmas beside it show why: the page's own update of its list agrees with
  recomputing the list from the rewritten table.
- **Strings.**
  - Strings are `seq<char>`.
  - `.length` and react-hook-form's `minLength` count UTF-16 code units. `Common.Utf16Length` counts two for every character above U+FFFF, and every length rule uses it.
  - `toLowerCase` is modelled on the ASCII letters.
  - `trim` strips the ECMAScript white-space and line-terminator characters.
- **Rule order.** A react-hook-form rule set reports its first failing rule,
  in the order required, minLength, pattern, validate.
- **Passed in as parameters.** Ids (`Date.now()`), timestamps
  (`toISOString()`), the random index of `getRandomImage` and the outcome of
  a network request are parameters.

## Model

| member | source | states |
|---|---|---|
| Common.TrimEmptyIffBlank | src/components/user/UserDashboard.jsx:116-118 | `!s.trim()` holds exactly when every character of `s` is white space |
| Common.Utf16Length | src/components/auth/Login.jsx:86-92 | `s.length` in UTF-16 code units: between one and two per character, and equal to the character count exactly when no character is astral |
| Common.Lower | src/components/pages/HomePage.jsx:106-111 | lower-casing keeps the length, maps each character on its own, leaves no upper-case ASCII letter |
| Common.LowerIdempotent | src/components/pages/HomePage.jsx:113-115 | lower-casing twice is lower-casing once |
| Common.Filter | src/components/user/UserDashboard.jsx:168 | `filter` keeps exactly the elements that pass, never lengthens the list |
| Common.FilterCounts | src/components/user/UserDashboard.jsx:168 | each kept element occurs as often as in the input, each dropped one not at all |
| Common.FilterAppend | src/components/pages/HomePage.jsx:104-125 | filtering distributes over concatenation, so the kept elements keep their relative order |
| Common.FilterCommutes | src/components/user/UserDashboard.jsx:168-171 | two filters can be applied in either order |
| Common.MapFilterCommute | src/components/user/UserDashboard.jsx:127-140 | a rewrite that never changes whether an element passes a filter can be applied before or after it |
| AuthContext.ErrorMessage | src/context/AuthContext.jsx:30-40 | every login failure carries a non-empty message |
| AuthContext.FindByEmail | src/context/AuthContext.jsx:28 | the lookup returns the first record with the email, and none exactly when no record has it |
| AuthContext.Authenticate | src/context/AuthContext.jsx:27-40 | the failures in their order: unknown email iff no record has it; deactivated iff the first match is inactive; wrong password iff it is active with another password; success only for the first, active, matching record |
| AuthContext.ReplaceByEmail | src/context/AuthContext.jsx:47-49 | every record with the signed-in email is replaced by the signed-in record, every other record kept in place |
| AuthContext.LoginTouchesOnlyLastLogin | src/context/AuthContext.jsx:42-50 | with one record per email, only the signed-in record's `lastLogin` changes |
| AuthContext.SessionOf | src/context/AuthContext.jsx:52-59 | the session holds id, email, username, role, active flag and last login of the user, and no password |
| AuthContext.Merge | src/context/AuthContext.jsx:76 | `{...user, ...patch}`: every key the patch carries wins; with no user the result is the patch |
| AuthContext.MergeKeepsOtherKeys | src/context/AuthContext.jsx:76 | every key the patch lacks keeps the user's value |
| AuthContext.MergeIdempotent | src/context/AuthContext.jsx:74-78 | applying the same update twice is applying it once; an empty update changes nothing |
| AuthContext.AdminIsAuthenticated | src/context/AuthContext.jsx:84-86 | `isAdmin()` holds iff a user with role `admin` is signed in, and implies `checkAuth()` |
| AuthContext.AuthProvider.constructor | src/context/AuthContext.jsx:11-23 | a parsable stored user becomes the current user; a missing or malformed one leaves no user |
| AuthContext.AuthProvider.Login | src/context/AuthContext.jsx:25-67 | on failure the table and the current user are unchanged and the error is the first failing check; on success the table is rewritten by email with the new `lastLogin` and the password-free session is returned and becomes the current user |
| AuthContext.AuthProvider.Logout | src/context/AuthContext.jsx:69-72 | no user afterwards, so `checkAuth()` is false; the table is unchanged |
| AuthContext.AuthProvider.UpdateUser | src/context/AuthContext.jsx:74-78 | the current user becomes the merge of the old one with the patch |
| PrivateRoute.Guard | src/routes/PrivateRoute.jsx:4-16 | no user goes to `/login`; a non-admin on an admin-only route goes to `/dashboard`; it renders exactly when a user is present and the route admits the role |
| PrivateRoute.PlainGuardAdmitsAnyUser | src/routes/PrivateRoute.jsx:4 | without `adminOnly` every signed-in user passes |
| AppRoutes.PublicGuard | src/routes/AppRoutes.jsx:20-29 | renders iff nobody is signed in; an admin goes to `/admin/dashboard`, anyone else to `/dashboard` |
| AppRoutes.Resolve | src/routes/AppRoutes.jsx:36-109 | an unmatched path goes to `/login`; a matched one is decided by its route's guard |
| AppRoutes.ResetLinkCarriesToken | src/routes/AppRoutes.jsx:62-69 | `/reset-password/<token>` selects the reset page with that token |
| AppRoutes.RootAndUnknownGoToLogin | src/routes/AppRoutes.jsx:100-108 | `/` and every unmatched path redirect to `/login` for any user |
| AppRoutes.OnlyAdminDashboardIsAdminOnly | src/routes/AppRoutes.jsx:72-96 | a non-admin reaches `/dashboard` and `/user/dashboard` and is sent away from `/admin/dashboard` |
| AppRoutes.DashboardOfUserRenders | src/routes/AppRoutes.jsx:24-25 | the dashboard a public route sends a signed-in user to renders for that user |
| AppRoutes.RedirectsSettle | src/routes/AppRoutes.jsx:20-109 | every visit renders after at most two redirects; a second one happens only for a signed-in user first sent to `/login` |
| Validation.FirstIndexOf | src/components/auth/Login.jsx:67 | the position of the first occurrence of a character, none iff it does not occur |
| Validation.LastIndexOf | src/components/auth/Login.jsx:67 | the position of the last occurrence of a character, none iff it does not occur |
| Validation.EmailCheckSound | src/components/auth/Login.jsx:67 | whatever the backtracking-free matcher accepts, the email regular expression matches |
| Validation.FirstAtIsSplit | src/components/auth/Login.jsx:67 | in a match, the `@` of the split is the first `@` |
| Validation.LastDotIsSplit | src/components/auth/Login.jsx:67 | in a match, the dot before the top-level domain is the last dot after the `@` |
| Validation.EmailCheckComplete | src/components/auth/Login.jsx:67 | whatever the regular expression matches, the matcher accepts |
| Validation.EmailCheckCorrect | src/components/auth/Register.jsx:100 | the matcher accepts exactly the strings of the form local@domain.tld the regular expression describes |
| Validation.EmailError | src/components/auth/Login.jsx:64-70 | no error iff the pattern matches; empty input reports "required", other input the pattern message |
| Validation.NewPasswordError | src/components/auth/Register.jsx:118-130 | no error iff the password is strong; empty reports "required", 1 to 7 UTF-16 code units the length message, anything longer that is not strong the pattern message |
| Validation.ConfirmError | src/components/auth/Register.jsx:145-149 | no error iff the confirmation is non-empty and equal to the password; a differing one reports the mismatch |
| Validation.ErrorText | src/components/auth/Login.jsx:37 | the thrown message when it is non-empty, else the fallback |
| LoginForm.PasswordError | src/components/auth/Login.jsx:86-92 | no error iff at least 6 UTF-16 code units; empty reports "required", shorter reports the length message |
| LoginForm.AstralCharactersCountTwice | src/components/auth/Login.jsx:86-92 | three emoji are six code units and pass the 6-unit minimum, though they are three characters |
| LoginForm.Submittable | src/components/auth/Login.jsx:58-92 | react-hook-form lets the submission through iff the email matches the pattern and the password has at least 6 UTF-16 code units (the browser's own email check is left out) |
| LoginForm.Destination | src/components/auth/Login.jsx:29-34 | admins go to `/admin/dashboard`, everyone else to `/user/dashboard` |
| LoginForm.AfterLogin | src/components/auth/Login.jsx:24-38 | navigates iff the login resolved, to the role's page; a failure shows its message when non-empty and `Login failed. Please try again.` when empty |
| LoginForm.DestinationRenders | src/components/auth/Login.jsx:29-34 | the page a login navigates to renders for the new session |
| LoginForm.FailureShowsReason | src/components/auth/Login.jsx:36-37 | each login failure is shown with its own message |
| LoginForm.Submit | src/components/auth/Login.jsx:19-41 | an invalid form does nothing; a valid one navigates iff `Authenticate` succeeds on the table, and then the table holds the new `lastLogin`, the session is the current user and the path is its role's page; a failure shows the first failing check and changes nothing |
| RegisterForm.UsernameError | src/components/auth/Register.jsx:71-82 | no error iff at least 3 characters, all letters, digits or `_`; the length message exactly for 1 or 2 UTF-16 code units, then the pattern message |
| RegisterForm.Submittable | src/components/auth/Register.jsx:65-164 | react-hook-form lets the submission through iff all four validated fields pass; the admin code has no rule (the browser's own email check is left out) |
| RegisterForm.RequestBody | src/components/auth/Register.jsx:30-35 | `username` is the entered email, `name` the entered username, the password is passed on, role `USER` |
| RegisterForm.BodyIgnoresAdminCode | src/components/auth/Register.jsx:30-35 | neither the admin code nor the confirmation reaches the request |
| RegisterForm.SentBodyIsWellFormed | src/components/auth/Register.jsx:30-35 | a body that is sent carries a well-formed email, a strong password and a name of at least 3 characters |
| RegisterForm.AfterRegister | src/components/auth/Register.jsx:38-51 | any resolved request navigates to `/login`, whatever its HTTP status; a rejected one shows its message when non-empty and `Registration failed. Please try again.` when empty |
| ResetPasswordForm.Submittable | src/components/auth/ResetPassword.jsx:64-92 | the form submits iff the password is strong and the confirmation is non-empty and equal |
| ResetPasswordForm.ResetRequest | src/components/auth/ResetPassword.jsx:21-24 | the request carries the token and the new password |
| ResetPasswordForm.RequestIgnoresConfirm | src/components/auth/ResetPassword.jsx:21-24 | the confirmation is not sent |
| ResetPasswordForm.RequestCarriesLinkToken | src/components/auth/ResetPassword.jsx:8 | the token sent is the last segment of the link that opened the page, and the password sent is strong |
| ResetPasswordForm.AfterReset | src/components/auth/ResetPassword.jsx:26-40 | success shows the success alert and leads to `/login`; failure shows the danger alert and stays |
| UserProfileForm.LengthRule | src/components/user/UserProfile.jsx:249-254 | no error iff non-empty and at least the minimum length in UTF-16 code units; messages in rule order |
| UserProfileForm.PhoneError | src/components/user/UserProfile.jsx:223-228 | no error iff exactly ten decimal digits |
| UserProfileForm.Check | src/components/user/UserProfile.jsx:161-306 | first and last name required; phone ten digits; address at least 10 UTF-16 code units; city and state at least 2 |
| UserProfileForm.EmailAndDepartmentUnchecked | src/components/user/UserProfile.jsx:206-344 | the email and the department never affect validation |
| UserProfileForm.Disabled | src/components/user/UserProfile.jsx:165-207 | the email input is always disabled, every other input exactly when not editing |
| UserProfileForm.EditingEnablesAllButEmail | src/components/user/UserProfile.jsx:165-326 | in edit mode every field but the email is enabled; outside it all are disabled |
| HomePage.FilteredItems | src/components/pages/HomePage.jsx:104-125 | the items that pass the search, category and tab tests, each as often as in the input |
| HomePage.FilteredItemsKeepOrder | src/components/pages/HomePage.jsx:105 | the filter result is an order-preserving subsequence |
| HomePage.SearchIgnoresCase | src/components/pages/HomePage.jsx:106-111 | the search term's case never matters |
| HomePage.CategoryIgnoresCase | src/components/pages/HomePage.jsx:113-115 | a category other than `all` is compared case-insensitively |
| HomePage.EmptySearchNeedsSomeText | src/components/pages/HomePage.jsx:106-111 | an empty search passes exactly the items with a name, description or location present |
| HomePage.UpperCaseTabMatchesNothing | src/components/pages/HomePage.jsx:117-121 | a type tab holding an upper-case letter matches no item |
| HomePage.LostAndFoundTabsDisjoint | src/components/pages/HomePage.jsx:117-121 | no item is in both the lost and the found tab |
| HomePage.ClaimForm | src/components/pages/HomePage.jsx:190-196 | one row per fetched question, same order, id and text copied, empty answer |
| HomePage.Payload | src/components/pages/HomePage.jsx:223-228 | one entry per row, same order, id from `questionId`, the selected item's id |
| HomePage.Answered | src/components/pages/HomePage.jsx:223-226 | the rows with the typed answers filled in |
| HomePage.PayloadFollowsQuestions | src/components/pages/HomePage.jsx:190-228 | the payload follows the fetched questions one to one, with the typed answers and the item id |
| HomePage.ClaimButtonNeedsUnclaimedFound | src/components/pages/HomePage.jsx:422-423 | the claim button appears only on found items, never on status `claimed` or on lost items |
| HomePage.ClaimedTabAndButtonDisagree | src/components/pages/HomePage.jsx:422-423 | an item with status `Claimed` is in the claimed tab and still shows the claim button |
| HomePage.ImagePool | src/components/pages/HomePage.jsx:50-59 | the claimed pool iff the status is claimed in any case; else the lost pool for `lost`, the found pool for anything else |
| HomePage.RandomImage | src/components/pages/HomePage.jsx:50-59 | the picked image comes from the item's pool |
| HomePage.CardImage | src/components/pages/HomePage.jsx:329 | a present image URL is shown; otherwise a placeholder from the pool |
| HomePage.ImagePoolsDisjoint | src/components/pages/HomePage.jsx:35-48 | no URL is in two pools |
| LostItemsPage.LostView | src/components/pages/DisplayLostItemsPage.jsx:32-35 | the lost items not reported by the signed-in user, each as often as fetched |
| LostItemsPage.SignedOutSeesAllLost | src/components/pages/DisplayLostItemsPage.jsx:34 | with nobody signed in every lost item is shown |
| LostItemsPage.OwnItemsHidden | src/components/pages/DisplayLostItemsPage.jsx:34 | the signed-in user's own items are never shown |
| LostItemsPage.StatusLabel | src/components/pages/DisplayLostItemsPage.jsx:101 | a present non-empty status is shown as is; a missing or empty one as `pending`; the badge is never empty |
| LostItemsPage.ClaimDisabled | src/components/pages/DisplayLostItemsPage.jsx:116 | the claim button is disabled exactly when the badge reads `claimed` |
| LostItemsPage.ClaimCaption | src/components/pages/DisplayLostItemsPage.jsx:118 | the button reads `Already Claimed` exactly when it is disabled, `Claim This Item` otherwise |
| LostItemsPage.NoAddQuestionsInView | src/components/pages/DisplayLostItemsPage.jsx:121 | the "Add Questions" button never renders on a listed item |
| LostItemsPage.Page.constructor | src/components/pages/DisplayLostItemsPage.jsx:32-38 | both lists start as the lost view |
| LostItemsPage.Page.Delete | src/components/pages/DisplayLostItemsPage.jsx:48-76 | after an OK response the item leaves both lists, the rest keep their order; otherwise only the error is set |
| UserDashboard.MyItems | src/components/user/UserDashboard.jsx:53 | exactly the items the user reported |
| UserDashboard.ListedItems | src/components/user/UserDashboard.jsx:57-69 | other users' items of the kind with status `approved` or `expected` |
| UserDashboard.ViewsDisjoint | src/components/user/UserDashboard.jsx:53-69 | own items are in neither list, no item is in both, and a pending item is listed for nobody |
| UserDashboard.AdminMarkOnlyFromProcessing | src/components/user/UserDashboard.jsx:77-79 | `isAdminItem` never holds of a report just made, and editing an item or adding questions to it keeps it as it was |
| UserDashboard.StatusBadge | src/components/user/UserDashboard.jsx:179-188 | one of five variants; `secondary` exactly for the statuses outside the four open ones |
| UserDashboard.BadgeTellsOpenStatusesApart | src/components/user/UserDashboard.jsx:179-188 | two open statuses never share a badge |
| UserDashboard.FilledQuestions | src/components/user/UserDashboard.jsx:116-118 | the rows whose question and answer are both non-blank |
| UserDashboard.FoundCheckMeansSomeRowFilled | src/components/user/UserDashboard.jsx:115-123 | the found-item check passes iff some row is filled in |
| UserDashboard.QuestionsFor | src/components/user/UserDashboard.jsx:81-94 | the form opens with the item's questions when it has some; with no item, no list or an empty list it is exactly one blank row |
| UserDashboard.ChangeQuestion | src/components/user/UserDashboard.jsx:244-250 | only rows with the id change, and only the named field |
| UserDashboard.AddBlank | src/components/user/UserDashboard.jsx:252-254 | one blank row is appended after the existing ones |
| UserDashboard.RemoveQuestion | src/components/user/UserDashboard.jsx:256-258 | exactly the rows with the id are removed, the rest kept with their counts |
| UserDashboard.RemoveUndoesAdd | src/components/user/UserDashboard.jsx:252-258 | removing a row just added by a fresh id restores the list |
| UserDashboard.AppendQuestions | src/components/user/UserDashboard.jsx:209-218 | only the selected item changes: its questions, a missing list counting as empty, are followed by the new ones |
| UserDashboard.AppendQuestionsTwice | src/components/user/UserDashboard.jsx:290-299 | two appends are one append of both lists |
| UserDashboard.StoredQuestions | src/components/user/UserDashboard.jsx:134-150 | a found item stores the whole form list, blank rows included; any other item stores none |
| UserDashboard.ReportErrors | src/components/user/UserDashboard.jsx:572-641 | no error iff type, name, category, location and description are all non-empty; each field's `required` message appears exactly when that field is empty |
| UserDashboard.NewItem | src/components/user/UserDashboard.jsx:143-151 | a new report carries the form data, the user's email, status `pending` and both timestamps |
| UserDashboard.EditItem | src/components/user/UserDashboard.jsx:127-136 | an edit keeps id, reporter, creation time and admin mark, takes the form data, is `pending` again |
| UserDashboard.EditStore | src/components/user/UserDashboard.jsx:127-137 | only the items with the edited id change |
| UserDashboard.EditKeepsOwnership | src/components/user/UserDashboard.jsx:127-140 | an edit never changes how many items the user owns |
| UserDashboard.DeleteKeepsView | src/components/user/UserDashboard.jsx:168-171 | removing the id from the view gives the view of the new table |
| UserDashboard.AppendKeepsView | src/components/user/UserDashboard.jsx:209-232 | appending questions on the view gives the view of the rewritten table |
| UserDashboard.NewReportKeepsView | src/components/user/UserDashboard.jsx:153-155 | appending the report to the view gives the view of the new table |
| UserDashboard.FoundRefusalNeedsWhiteSpaceRow | src/components/user/UserDashboard.jsx:114-123 | when the browser lets a found report through and no row is filled, some row has a non-empty input that is white space only |
| UserDashboard.SubmittedItemAwaitsReview | src/components/user/UserDashboard.jsx:143-147 | a report just made or edited can be edited and deleted and is listed for nobody |
| UserDashboard.Dashboard.constructor | src/components/user/UserDashboard.jsx:40-74 | the three lists computed from the table, one blank row in each question list |
| UserDashboard.Dashboard.OpenForm | src/components/user/UserDashboard.jsx:81-96 | the form targets the item (or a new report) with its questions or one blank row |
| UserDashboard.Dashboard.Submit | src/components/user/UserDashboard.jsx:110-162 | a form with an empty field, or a found report with an empty question or answer input, changes nothing; a found item without a filled row is refused with the danger banner and nothing written; otherwise the edit or the new report is written without empty rows, the view stays the user's slice, the form is reset and the banner reads "updated" or "reported" |
| UserDashboard.Dashboard.Delete | src/components/user/UserDashboard.jsx:164-177 | the items with the id leave the table and the view, the rest keep their order |
| UserDashboard.Dashboard.SaveSecurityQuestion | src/components/user/UserDashboard.jsx:195-242 | blank question or answer writes nothing; otherwise the question is appended to the selected item in table and view, with the success banner |
| UserDashboard.Dashboard.SaveSecurityQuestions | src/components/user/UserDashboard.jsx:276-322 | any incomplete row writes nothing; otherwise all rows are appended to the selected item, the dialog resets and the success banner is shown |
| UserDashboard.Dashboard.ChangeFormQuestion | src/components/user/UserDashboard.jsx:244-250 | the form list is edited by `ChangeQuestion`, nothing else changes |
| UserDashboard.Dashboard.AddFormQuestion | src/components/user/UserDashboard.jsx:252-254 | one blank row appended to the form list |
| UserDashboard.Dashboard.RemoveFormQuestion | src/components/user/UserDashboard.jsx:256-258 | the rows with the id leave the form list |
| UserDashboard.Dashboard.ChangeNewQuestion | src/components/user/UserDashboard.jsx:264-270 | the dialog list is edited by `ChangeQuestion`, nothing else changes |
| UserDashboard.Dashboard.AddNewQuestion | src/components/user/UserDashboard.jsx:260-262 | one blank row appended to the dialog list |
| UserDashboard.Dashboard.RemoveNewQuestion | src/components/user/UserDashboard.jsx:272-274 | the rows with the id leave the dialog list |
| AdminDashboard.NonAdminUsers | src/components/admin/AdminDashboard.jsx:36 | the users tab holds exactly the users not named `admin` |
| AdminDashboard.PendingItems | src/components/admin/AdminDashboard.jsx:40 | the queue holds exactly the items with status `pending` |
| AdminDashboard.ToggleActive | src/components/admin/AdminDashboard.jsx:58-76 | only the records with the id change, and only in their active flag, which flips |
| AdminDashboard.ToggleActiveTwice | src/components/admin/AdminDashboard.jsx:58-76 | toggling twice restores the table |
| AdminDashboard.ToggleKeepsUsersView | src/components/admin/AdminDashboard.jsx:60-77 | toggling the shown list gives the list of the toggled table |
| AdminDashboard.DeactivatedUserCannotSignIn | src/components/admin/AdminDashboard.jsx:69-76 | after deactivating the user a login finds, that login fails as deactivated whatever the password |
| AdminDashboard.ReactivatedUserCanSignIn | src/components/admin/AdminDashboard.jsx:69-76 | after reactivating, the user's own password signs in again |
| AdminDashboard.StatusOf | src/components/admin/AdminDashboard.jsx:292-299 | the two buttons set `approved` and `rejected`, never `pending` |
| AdminDashboard.WithStatus | src/components/admin/AdminDashboard.jsx:91-94 | only the items with the id change, only in their status, whatever it was |
| AdminDashboard.ModerationLeavesPendingView | src/components/admin/AdminDashboard.jsx:91-97 | a non-pending decision takes the item out of the queue; the queue the page keeps is the queue of the new table |
| AdminDashboard.AddedQuestion | src/components/admin/AdminDashboard.jsx:114-126 | blank text is refused with its message; otherwise one active record with the typed text is appended |
| AdminDashboard.ToggleQuestion | src/components/admin/AdminDashboard.jsx:143-149 | only the records with the id change, only in their active flag, which flips |
| AdminDashboard.ToggleQuestionTwice | src/components/admin/AdminDashboard.jsx:143-149 | toggling twice restores the pool |
| AdminDashboard.WithoutQuestion | src/components/admin/AdminDashboard.jsx:164 | exactly the records with the id are removed |
| AdminDashboard.DeleteKeepsOthers | src/components/admin/AdminDashboard.jsx:164 | the other records keep their counts; deleting an absent id changes nothing |
| AdminDashboard.DeleteUndoesAdd | src/components/admin/AdminDashboard.jsx:119-164 | deleting a question just added under a fresh id restores the pool |
| AdminDashboard.Dashboard.constructor | src/components/admin/AdminDashboard.jsx:30-55 | the users tab, the queue and the pool loaded from the tables |
| AdminDashboard.Dashboard.ToggleUserStatus | src/components/admin/AdminDashboard.jsx:58-85 | table and list both toggled, the list stays the table's view, the success message set |
| AdminDashboard.Dashboard.Moderate | src/components/admin/AdminDashboard.jsx:88-105 | the table takes the decision's status, the row leaves the queue, the queue stays the table's view |
| AdminDashboard.Dashboard.AddQuestion | src/components/admin/AdminDashboard.jsx:108-138 | blank text sets only the error; otherwise the pool and the list get the new question |
| AdminDashboard.Dashboard.ToggleQuestionStatus | src/components/admin/AdminDashboard.jsx:141-159 | the pool and the list toggled together |
| AdminDashboard.Dashboard.DeleteQuestion | src/components/admin/AdminDashboard.jsx:162-174 | the pool and the list lose the records with the id |

## Left out

- Network requests (`fetch`, `axios`): item loading, question fetching, the answer-validation POST, profile load and save, and the register, reset and forgot-password requests. Their outcome is a parameter (`FetchResult`, `responseOk`, `ok`).
- The server's decision on claim answers (src/components/pages/HomePage.jsx:230-258): the client has no answer-matching logic.
- The dummy questions shown when fetching the claim questions fails (src/components/pages/HomePage.jsx:199-216): error-path filler.
- `JSON.parse`/`JSON.stringify` and the `try`/`catch` paths they feed: every table is a well-formed `seq` of records. The only parse outcome kept is a malformed stored user, which leaves nobody signed in.
- Concurrent writes to `localStorage` from several tabs.
- `setTimeout` message clearing, `window.confirm`, `alert`, `console`, loading flags and modal visibility flags: presentation only. Delete handlers are modelled as called after a confirmed dialog.
- `toLocaleString` formatting of dates.
- `Lower`: only ASCII letters are lower-cased; `toLowerCase` on other scripts is not modelled.
- `UserDashboard.StatusBadge`: the source looks the status up in an object literal, so a status naming an inherited property such as `constructor` yields a truthy non-string. The model treats every unknown status as `secondary`.
- `UserDashboard.Dashboard.OpenForm`: the react-hook-form `setValue` of every key of the item is not modelled; the form data arrive in `Submit` as `ReportData`.
- The claim handlers of the user dashboard call functions that are not defined anywhere (src/components/user/UserDashboard.jsx:473, 542), so they have no behaviour to model.
- `Validation.EmailError`, `LoginForm.Submittable`, `RegisterForm.Submittable`: the email inputs are `type="email"` inside forms without `noValidate` (src/components/auth/Login.jsx:58-62, src/components/auth/Register.jsx:65-95). The browser's own handling of such inputs is not modelled: it strips surrounding white space before the pattern sees the value, and it blocks some addresses the pattern accepts (such as `a@b..cc`). These members describe the react-hook-form rules alone.
- `UserDashboard.Dashboard.SaveSecurityQuestion`, `UserDashboard.Dashboard.SaveSecurityQuestions` and the `…NewQuestion` handlers model code that the page cannot reach. The single-question dialog opens only through `handleAddSecurityQuestion` (src/components/user/UserDashboard.jsx:190), which nothing calls. `handleSaveSecurityQuestions` and the new-question handlers (src/components/user/UserDashboard.jsx:260-322) are not referenced in the render. They are modelled as written.
- The report form's type select offers only the empty value, `lost` and `found` (src/components/user/UserDashboard.jsx:577-584); `UserDashboard.ReportData` admits any string, and the model handles every one.
- React Router's case-insensitive matching and optional trailing slash: `AppRoutes.Match` compares paths exactly.
- The profile page's edit-mode toggling and its load and save: only the field rules and the disabled state are modelled.
- src/components/auth/ForgotPassword.jsx (one request, its email rule is `Validation.EmailError`), src/components/user/MyClaimedItems.jsx, src/components/pages/ItemDetailsPage.jsx, src/components/Navigation.jsx and src/App.jsx (fetching and display only) are not part of this model.
