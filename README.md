# IEEE club events portal: front-end logic in Dafny

This project models the decision and list logic of the portal's Next.js
front end:
- the public pages: the home page's club strip, the event list with search and status filter, and the contact page;
- the admin pages: sign-in, the dashboard figures, event management, creating an event, and the registration review;
- the shared components: the event card, the navigation bar, the route guard, the registration form, the form builder and the gradient heading;
- the password reset form.

Every fetched list, the current time, the auth flags and the answers of
the backend are inputs. Alerts, router pushes and posted request bodies
are returned as outcome values.

The modules follow the source files:

| module | source file |
|---|---|
| `FormBuilder` | components/FormBuilder.js |
| `EventCard` | components/EventCard.js |
| `EventsPage` | app/events/page.js |
| `AdminRegistrations` | app/admin/registrations/page.js |
| `AuthReview` | app/auth/page.js |
| `AdminDashboard` | app/admin/page.js |
| `HomePage` | app/page.js |
| `DynamicForm` | components/DynamicForm.js |
| `AdminEvents` | app/admin/events/page.js |
| `UpdatePassword` | app/update_password/page.js |
| `NewEvent` | app/admin/events/new/page.js |
| `GradientText` | components/GradientText.js |
| `Navbar` | components/Navbar.js |
| `ProtectedRoute` | components/ProtectedRoute.js |
| `AdminLogin` | app/admin/login/page.js |
| `ContactPage` | app/contact/page.js |

Shared modules:
- `Wrappers`: `Option`, `Result`.
- `JsString`: `trim`, `toLowerCase`, `startsWith`, `includes`, `split`, `join`.
- `JsValue`: dynamically typed values, truthiness, `String(v)`, the spread update `{ ...m, [k]: v }`.
- `Seqs`: `Array.prototype.filter` and the subsequence order.
- `Records`: the event, participant and field rows.

The code's own form decides each model's form:
- State that a component updates step by step is a `class` whose methods carry `modifies` clauses: the form builder's list with its session-storage draft, the registration form's errors, the contact page's submit state, and the browser's local storage in the logout purge.
- Loops are methods whose loop invariants tie their result to a specification function: the club `reduce`, the `validateForm` loop, the two `forEach` loops that collect registrations, the dashboard tallies, and the two logout passes.
- Everything else is functions over datatypes, with lemmas for the properties that relate several calls.

## Model

| member | source | states |
|---|---|---|
| FormBuilder.Inserted | components/FormBuilder.js:50-61 | `addField(index)` yields one more field; as a multiset the list gains exactly the new field (type 'text', empty label, not required, no options); for an index from -1 to the last position it sits at `index + 1` with the fields before and after it unchanged, so `addField(-1)` puts it first |
| FormBuilder.InsertedKeepsOrder | components/FormBuilder.js:58-61 | the fields already present keep their relative order after an insert |
| FormBuilder.NewFieldNotSaved | components/FormBuilder.js:95 | a field just added has a blank label and is not among the fields a save sends |
| FormBuilder.Merge | components/FormBuilder.js:66 | `{ ...field, ...updates }`: each property of the update overrides, the others and the id stay |
| FormBuilder.MergeLaws | components/FormBuilder.js:66 | an update mentioning nothing changes nothing; applying an update twice equals applying it once |
| FormBuilder.Updated | components/FormBuilder.js:64-68 | `updateField` changes only position `index`, to the merged field; the length and every other position are unchanged |
| FormBuilder.Removed | components/FormBuilder.js:70-73 | removing drops exactly the element at `index` (the list is the prefix before it followed by the suffix after it); an index outside the list removes nothing |
| FormBuilder.RemovedMultiset | components/FormBuilder.js:71 | removing takes away exactly one occurrence of the removed field |
| FormBuilder.RemovedKeepsOrder | components/FormBuilder.js:71 | the remaining fields keep their order |
| FormBuilder.Moved | components/FormBuilder.js:75-91 | moving keeps the length; 'up' at index 0 and 'down' at the last index leave the list unchanged |
| FormBuilder.MovedSwaps | components/FormBuilder.js:79-90 | any other move swaps the field with its neighbour in that direction and leaves every other position alone |
| FormBuilder.MovedPermutes | components/FormBuilder.js:79-90 | a move is a permutation of the fields |
| FormBuilder.MoveUpThenDown | components/FormBuilder.js:75-91 | moving a field up and then down again restores the list |
| FormBuilder.MoveDownThenUp | components/FormBuilder.js:75-91 | moving a field down and then up again restores the list |
| FormBuilder.SpliceMoveUp | components/FormBuilder.js:82-84 | the two `splice` calls of an upward move are exactly the swap with the field above |
| FormBuilder.SpliceMoveDown | components/FormBuilder.js:85-88 | the two `splice` calls of a downward move are exactly the swap with the field below |
| FormBuilder.ValidFields | components/FormBuilder.js:95 | the saved fields are exactly the fields whose label is not blank, in their original order and each as often as it occurs in the list |
| FormBuilder.SaveRequest | components/FormBuilder.js:93-99 | a save is refused exactly when the list is non-empty and every label is blank; otherwise it sends the valid fields, and it sends the empty list exactly for an empty list |
| FormBuilder.ParseOptions | components/FormBuilder.js:213-216 | for any typed text: every parsed option is non-empty, has no surrounding whitespace and holds no comma; the options are the trimmed comma-separated pieces in their order, each non-empty trimmed piece kept as often as it occurs and the empty ones dropped; no piece with a non-blank text is lost |
| FormBuilder.TrimAll | components/FormBuilder.js:215 | `map(s => s.trim())` keeps the number of pieces and trims each |
| FormBuilder.SplitOptionsText | components/FormBuilder.js:212 | the text the options input shows splits at ',' into the first option and the others each preceded by a space |
| FormBuilder.TrimSpacedOptions | components/FormBuilder.js:215 | trimming those pieces gives the options back |
| FormBuilder.ParseOptionsOfText | components/FormBuilder.js:212-216 | parsing the shown text of well-formed options gives the options back |
| FormBuilder.ParseOptionsStable | components/FormBuilder.js:212-216 | showing parsed options and parsing the text again changes nothing |
| FormBuilder.Builder.constructor | components/FormBuilder.js:29-48 | the list starts from the session-storage draft when there is one, otherwise from `initialFields`, and is stored as the draft; nothing is saving |
| FormBuilder.Builder.SetFields | components/FormBuilder.js:43-48 | setting the list also stores it as the draft |
| FormBuilder.Builder.AddField | components/FormBuilder.js:50-61 | the new list is `Inserted` of the old one and becomes the draft |
| FormBuilder.Builder.UpdateField | components/FormBuilder.js:64-68 | the new list is `Updated` of the old one and becomes the draft |
| FormBuilder.Builder.RemoveField | components/FormBuilder.js:70-73 | the new list is `Removed` of the old one and becomes the draft |
| FormBuilder.Builder.MoveField | components/FormBuilder.js:75-91 | the new list is `Moved` of the old one; the guarded no-op moves leave the draft unchanged, and every other move stores the new list |
| FormBuilder.Builder.HandleSave | components/FormBuilder.js:93-114 | refused exactly when `SaveRequest` refuses, and then nothing changes; otherwise it sends the valid fields and the saving flag ends false; a successful save clears the draft, a failed one keeps it; the list never changes |
| EventCard.GetEventStatus | components/EventCard.js:33-68 | the status for each combination of `now`, the end date, the registration dates and the two flags, a date that does not parse comparing false: 'Completed' past the end date regardless of the rest, then 'Inactive', 'Opens …' with the registration start, 'Registration Closed', 'Registration Open' (both dates parse with start ≤ now < end, or neither date is set), and 'Closed' in every remaining case |
| EventCard.ClosedCases | components/EventCard.js:59-67 | for a live event with registration open: a single registration date, `now` equal to the registration end, or a lone registration date that does not parse all give 'Closed' |
| EventCard.FormatEventDate | components/EventCard.js:11-30 | 'Date TBA' exactly when there is no start date; a date that does not parse makes the formatting throw; otherwise the start and the optional end |
| EventCard.Button | components/EventCard.js:80-155 | the caption is 'View Details' exactly when completed, 'View Event' when active and not completed, 'Inactive' otherwise; disabled exactly when inactive |
| EventsPage.FilterEvents | app/events/page.js:42-68 | the result is an order-preserving subsequence of the events; it holds exactly the events `Selected` accepts (matching the search term when one is set, active and not completed under 'active', registration open under 'open'), each as often as in the list; with no term and 'all' it is the whole list |
| EventsPage.StagedIsSelected | app/events/page.js:44-65 | the search stage followed by the status stage keeps exactly what one filter on both tests keeps |
| EventsPage.EmptyListMessage | app/events/page.js:115-117 | 'No events match …' exactly when a search term or a status filter is set |
| JsString.Trim | components/GradientText.js:15 | `trim` leaves no whitespace at either end, keeps only characters of its input, is empty exactly for a blank string, and keeps a trimmed string as it is |
| JsString.TrimIsMiddle | components/GradientText.js:15 | the input is a blank stretch, then the result of `trim`, then another blank stretch: `trim` returns the untouched middle of its input |
| JsString.TrimStart | components/GradientText.js:15 | the result is a suffix not starting with whitespace |
| JsString.TrimStartDropsBlank | components/GradientText.js:15 | what `trimStart` drops is whitespace |
| JsString.TrimEnd | components/GradientText.js:15 | the result is a prefix not ending with whitespace |
| JsString.TrimEndDropsBlank | components/GradientText.js:15 | what `trimEnd` drops is whitespace |
| JsString.TrimAfterSpace | components/FormBuilder.js:215 | a space in front of a trimmed, non-empty string is removed again by `trim` |
| JsString.ToLower | app/events/page.js:48-49 | `toLowerCase` keeps the length and lowers each character |
| JsString.LowerChar | app/events/page.js:48-49 | an ASCII capital becomes its small letter; any other character stays |
| JsString.UpperChar | app/auth/page.js:193 | an ASCII small letter becomes its capital; any other character stays |
| JsString.CaseRoundTrip | app/auth/page.js:193 | upper- and lower-casing undo each other on the ASCII letters |
| JsString.Includes | app/events/page.js:48-49 | `includes` holds exactly when the substring occurs at some position |
| JsString.Split | components/FormBuilder.js:215 | `split` yields at least one piece |
| JsString.SplitPieces | components/FormBuilder.js:215 | no piece holds the separator, and joining the pieces with it gives the string back |
| JsString.SplitOfJoin | components/FormBuilder.js:212-215 | splitting a join of separator-free pieces gives the pieces back |
| JsValue.With | components/DynamicForm.js:24 | `{ ...m, [key]: v }` sets that key and leaves every other key and value as it was |
| AdminEvents.Scope | app/admin/events/page.js:36-43 | a super admin sees every event; any other admin sees exactly the events they created, in list order and each as often as in the list |
| AdminEvents.CanManage | app/admin/events/page.js:125 | `canManage` holds exactly for a super admin or the event's creator |
| AdminEvents.ScopedEventsAreManageable | app/admin/events/page.js:122-125 | every event in the admin's scope can be managed by that admin |
| AdminEvents.Badge | app/admin/events/page.js:137-143 | 'Completed' past the end date, else 'Active' when active, else 'Inactive' |
| AdminEvents.ShowsOpenBadge | app/admin/events/page.js:145 | the 'Open' badge shows exactly when the event is not completed and has registration open |
| AdminEvents.EmptyListMessage | app/admin/events/page.js:110 | the empty-list message depends only on the super-admin flag: 'No events found in the system.' for a super admin, 'You have not created any events yet.' otherwise |
| AdminRegistrations.FindIndex | app/admin/registrations/page.js:84 | a found position lies inside the list |
| AdminRegistrations.FindIndexFirstMatch | app/admin/registrations/page.js:84 | `find` finds nothing exactly when no event has the id, and otherwise stops at the first event with it |
| AdminRegistrations.TitleFor | app/admin/registrations/page.js:89 | the annotated title is never empty |
| AdminRegistrations.TitleForFirstMatch | app/admin/registrations/page.js:84-89 | the title is that of the first event with the id unless it is empty; with no such event it is 'Unknown Event' |
| AdminRegistrations.AnnotateSnoc | app/admin/registrations/page.js:86-92 | annotating one more participant appends its registration |
| AdminRegistrations.PushAnnotated | app/admin/registrations/page.js:86-92 | the inner loop appends each participant, annotated with the event title and id, in order |
| AdminRegistrations.PushResult | app/admin/registrations/page.js:81-94 | one outer iteration adds the annotated participants of a successful response with a participant array, and nothing otherwise |
| AdminRegistrations.Flatten | app/admin/registrations/page.js:80-94 | the outer loop over the responses builds the collected list of the specification |
| AdminRegistrations.FlattenedStep | app/admin/registrations/page.js:82 | a response that failed or has no participant array contributes nothing |
| AdminRegistrations.FlattenedSound | app/admin/registrations/page.js:81-94 | every collected registration is a participant of a delivered response, annotated with that response's event title and id |
| AdminRegistrations.ContributionComplete | app/admin/registrations/page.js:86-92 | a delivered response contributes each of its participants |
| AdminRegistrations.FlattenedComplete | app/admin/registrations/page.js:81-94 | every participant of every delivered response is collected |
| AdminRegistrations.FlattenedLength | app/admin/registrations/page.js:81-94 | the collected list is as long as the delivered participant arrays together |
| AdminRegistrations.InsertNewest | app/admin/registrations/page.js:97 | one step of the sort adds exactly the inserted registration |
| AdminRegistrations.InsertNewestSorted | app/admin/registrations/page.js:97 | inserting keeps a newest-first list newest first |
| AdminRegistrations.SortNewestFirst | app/admin/registrations/page.js:97 | the sorted list is a permutation of its input, newest `created_at` first |
| AdminRegistrations.InsertNewestStable | app/admin/registrations/page.js:97 | an insertion step puts the new registration in front of every registration with the same `created_at` and changes the order of none of them |
| AdminRegistrations.SortNewestFirstStable | app/admin/registrations/page.js:97 | the sort is stable: for every timestamp, the registrations created at it appear in their input order |
| AdminRegistrations.FetchRegistrations | app/admin/registrations/page.js:39-105 | no session, a failed events request or a failed participants request leaves the list unchanged; an empty scope gives the empty list; otherwise the list is a permutation of the collected registrations, ordered newest first |
| AdminRegistrations.ByStatus | app/admin/registrations/page.js:183-186 | 'all' returns the list unchanged; any other filter returns exactly the registrations with that status, in list order and each as often as in the list |
| AdminRegistrations.FilterButtonCounts | app/admin/registrations/page.js:217-244 | each button's number is the length of the list that filter selects, and 'All' is the list length |
| AdminRegistrations.CountersPartition | app/admin/registrations/page.js:217-244 | when every status is pending, approved or rejected, the three status counts add up to 'All' |
| AdminRegistrations.EmptyListText | app/admin/registrations/page.js:252 | the empty-list text names the filter; for 'all' it has no status word, leaving the two spaces of the template |
| AuthReview.InitialFilter | app/auth/page.js:62 | the initial filter is the `filter` query parameter when it is set, otherwise 'pending' |
| AuthReview.StatusLabel | app/auth/page.js:193 | the label keeps the length, its first character is the upper case of the status's first character, and the rest of the status is unchanged |
| AuthReview.StatusLabelIdempotent | app/auth/page.js:193 | labelling a label again changes nothing |
| AuthReview.Badge | app/auth/page.js:184-190 | orange exactly for pending, green exactly for approved, red otherwise |
| AuthReview.Footer | app/auth/page.js:222-260 | the approve and reject actions appear exactly for a pending registration; any other shows 'Approved' exactly when approved, otherwise 'Rejected', with the review date |
| AuthReview.IsUrl | app/auth/page.js:289 | a response is a link exactly when the field type is 'url' or the value is a string starting with 'http://' or 'https://' |
| AuthReview.DisplayValue | app/auth/page.js:307 | 'Yes'/'No' for booleans, 'N/A' for null, undefined and '', `String(value)` otherwise |
| AuthReview.FieldShown | app/auth/page.js:288-309 | a link targets the value and reads `value || 'N/A'`; any other response shows its display text |
| AuthReview.FallbackText | app/auth/page.js:317 | `String(value) || 'N/A'` is the string form when it is non-empty and 'N/A' otherwise |
| AuthReview.Details | app/auth/page.js:286-318 | with form fields there is one row per field with its label and shown response, and a missing responses object throws; without form fields there is one entry per response key |
| AuthReview.NoResponsesNote | app/auth/page.js:322 | the note requires no form fields and no responses |
| AuthReview.NoteIffDialogEmpty | app/auth/page.js:286-323 | the note shows exactly when the dialog has no other content |
| AdminDashboard.ActiveEvents | app/admin/page.js:50-54 | the active events are exactly the scoped events that are active and not past their end date, in order and each as often as in the scope |
| AdminDashboard.ActiveEventsMatchEventsPage | app/admin/page.js:50-54 | the dashboard's active list equals the public events page's 'active' list without a search term |
| AdminDashboard.StatusCount | app/admin/page.js:70-71 | a status count never exceeds the number of participants |
| AdminDashboard.TallyParticipants | app/admin/page.js:68-73 | the loop sums the approved and the pending counts of the delivered responses; other responses add nothing |
| AdminDashboard.AnnotatedStatusCount | app/admin/page.js:70-71 | annotating participants does not change how many have a status |
| AdminDashboard.TallyCountsCollected | app/admin/page.js:68-73 | the tally of a status is the number of registrations with that status that the review page collects for the same responses |
| AdminDashboard.FilterLengthOfPermutation | app/admin/registrations/page.js:217-235 | a status count is the same for any ordering of the registrations |
| AdminDashboard.TallyMatchesReviewCounters | app/admin/page.js:70-71 | the dashboard's approved and pending figures equal the review page's 'Approved' and 'Pending' numbers |
| AdminDashboard.FetchStats | app/admin/page.js:32-89 | a failed events request leaves the figures unchanged; the totals count all events and the scoped events (the same for a super admin), the active figure is the active list's length, an empty scope gives zero tallies, and otherwise the tallies are the loop's sums |
| AdminDashboard.PendingAlert | app/admin/page.js:125-133 | the alert shows exactly when something is pending, and reads 'Registrations' exactly when more than one is pending |
| HomePage.Dedup | app/page.js:43-48 | the unique list is never longer than the input |
| HomePage.UniqueClubs | app/page.js:43-48 | the `reduce` with its linear `find` builds exactly the unique list |
| HomePage.DedupDistinct | app/page.js:44 | no two clubs on the page share a name |
| HomePage.DedupListed | app/page.js:43-48 | every name of the input is on the page, and no other |
| HomePage.DedupFirstOccurrence | app/page.js:43-48 | every club on the page is the first of its name in the input, and every such first club is on the page |
| HomePage.DedupSubseq | app/page.js:43-48 | the page keeps the input order |
| HomePage.DedupOfDistinct | app/page.js:43-48 | clubs with distinct names pass unchanged |
| HomePage.DedupIdempotent | app/page.js:43-48 | making the list unique twice equals doing it once |
| DynamicForm.RequiredErrorsKeys | components/DynamicForm.js:36-43 | an id has an error exactly when a required field with that id has a falsy value; non-required fields never cause one |
| DynamicForm.RequiredErrorsMessage | components/DynamicForm.js:41 | the message under an id is '<label> is required' for the last required field with that id |
| DynamicForm.ValidIffRequiredFilled | components/DynamicForm.js:45 | the form is valid exactly when every required field has a truthy value |
| DynamicForm.CollectErrors | components/DynamicForm.js:35-43 | the `forEach` builds exactly the recorded errors |
| DynamicForm.FormState.constructor | components/DynamicForm.js:17-18 | no errors, not submitting |
| DynamicForm.FormState.HandleInputChange | components/DynamicForm.js:20-32 | the parent receives the form data with only that key changed; that field's error is cleared, every other error stays |
| DynamicForm.FormState.ValidateForm | components/DynamicForm.js:34-46 | the errors become the recorded ones, and the form is valid exactly when there are none |
| DynamicForm.FormState.HandleSubmit | components/DynamicForm.js:48-65 | `onSubmit` receives the form data exactly when the form is valid, after which the submitting flag is false; an invalid form leaves the flag alone |
| UpdatePassword.CheckPasswords | app/update_password/page.js:48-58 | fewer than 6 characters gives the length message, which wins over the mismatch message; a mismatch gives 'Passwords do not match.'; only a long enough, matching pair is sent |
| UpdatePassword.HandlePasswordUpdate | app/update_password/page.js:44-58 | the error is cleared and then set by a failed check; submitting starts exactly when both checks pass |
| UpdatePassword.OnUpdateResponse | app/update_password/page.js:62-77 | an error shows its message and resets submitting; success navigates to '/auth' |
| NewEvent.DateOrderError | app/admin/events/new/page.js:80-88 | an event end strictly before its start gives the event message first; otherwise a registration end strictly before its start gives the registration message; otherwise the form passes |
| NewEvent.EqualOrMissingDatesPass | app/admin/events/new/page.js:80-88 | equal dates, or a date missing on either side, pass both checks |
| NewEvent.ToIsoString | app/admin/events/new/page.js:17-21 | an empty value becomes null; any other value is its ISO text, or the conversion throws |
| NewEvent.ChooseBanner | app/admin/events/new/page.js:104-110 | the uploaded URL in upload mode with a file, the typed URL in url mode, and '' otherwise |
| NewEvent.Banner | app/admin/events/new/page.js:104-110 | `finalBannerUrl`: the uploaded URL when the upload succeeds, the typed URL, or ''; nothing when the upload throws |
| NewEvent.EventPayload | app/admin/events/new/page.js:112-120 | the payload has the form's keys plus the four dates, `banner_url` and `form_fields`; `form_fields` is empty, the dates are converted and the other keys keep their values; a throwing conversion produces no payload |
| NewEvent.HandleSubmit | app/admin/events/new/page.js:76-145 | a date-order error alerts and posts nothing; no session alerts and goes to '/admin/login'; otherwise the posted request is exactly `EventPayload` of the form with the banner, and a failed upload or conversion posts nothing and alerts 'An error occurred'; a successful answer goes to the event's form builder without an alert, a refusal alerts its error, a failed request alerts 'An error occurred', and neither navigates |
| GradientText.Render | components/GradientText.js:10-25 | non-string or empty children are rendered unchanged; otherwise rest and last character together are the trimmed text, the last part has length 1 exactly when the trimmed text is non-empty and is never whitespace, and whitespace-only text gives two empty parts |
| Navbar.LocalStorage.constructor | components/Navbar.js:62-64 | the storage holds the given keys, each once, and their values |
| Navbar.LocalStorage.RemoveItem | components/Navbar.js:70 | `removeItem` removes that key and value only, and the others keep their order; keys stay unique |
| Navbar.CollectSupabaseKeys | components/Navbar.js:63-69 | the first pass collects exactly the 'sb-' keys, in storage order, without changing the storage |
| Navbar.RemoveAll | components/Navbar.js:70 | the second pass removes exactly the collected keys; the other keys keep their values and order |
| Navbar.HandleLogout | components/Navbar.js:49-76 | after logout no 'sb-' key remains, every other key keeps its value and order, and the browser goes to '/' |
| Navbar.IsActive | components/Navbar.js:20 | `isActive(path)` holds exactly when the pathname equals the path |
| Navbar.PortalCaption | components/Navbar.js:148 | 'Super Admin Portal' exactly for a super admin |
| Navbar.DesktopLinks | components/Navbar.js:90-174 | the bar starts with Home and Events |
| Navbar.DesktopCases | components/Navbar.js:90-174 | the bar for a visitor, a user, a super admin and an admin |
| Navbar.DesktopVisibility | components/Navbar.js:109-172 | Contact shows exactly for a logged-in non-admin, Club Profile exactly for an admin who is not a super admin, the portal for every admin, Profile and Logout for every user, and the login links for a visitor |
| Navbar.MobileLinks | components/Navbar.js:185-271 | the mobile menu equals the desktop bar for a user; a visitor gets Login/Register above Admin Login |
| Navbar.MobileSameLinks | components/Navbar.js:185-271 | both menus hold the same links |
| Navbar.OneHighlightAtMost | components/Navbar.js:91-141 | at most one link is highlighted for any path |
| ProtectedRoute.Decide | components/ProtectedRoute.js:14-43 | while loading: spinner and no redirect; once loaded, a redirect to '/admin/login' exactly without a user or without admin rights; the children exactly for a loaded admin; nothing otherwise |
| AdminLogin.IsAdminRole | app/admin/login/page.js:49-50 | admin exactly for the roles 'admin' and 'super_admin'; a missing row is not an admin |
| AdminLogin.HandleLogin | app/admin/login/page.js:18-65 | an admin goes to '/admin'; a non-admin is signed out and shown 'Access Denied …'; a sign-in or lookup error shows its message; loading always ends false |
| ContactPage.ShouldRedirect | app/contact/page.js:26-34 | once loaded, the page sends visitors and admins home |
| ContactPage.ShowsForm | app/contact/page.js:64 | the form shows exactly to a loaded, logged-in non-admin |
| ContactPage.ShowsOrRedirects | app/contact/page.js:26-64 | once loaded, the page either shows the form or redirects, never both |
| ContactPage.Page.constructor | app/contact/page.js:14-20 | an empty form, not submitting, not submitted |
| ContactPage.Page.HandleSubmit | app/contact/page.js:37-61 | the form data is posted; success marks the form submitted and resets its three fields; a refusal or an error alerts and keeps the data; submitting always ends false |
| ContactPage.Page.SendAnother | app/contact/page.js:166 | 'Send Another Message' clears `submitted` only |
| Seqs.FilterMembers | app/admin/registrations/page.js:185 | `filter` keeps exactly the elements that pass the test |
| Seqs.FilterSubseq | app/admin/registrations/page.js:185 | `filter` keeps the original order |
| Seqs.FilterMultiset | app/admin/registrations/page.js:185 | `filter` keeps each passing element as often as it occurs |
| Seqs.FilterCounts | app/admin/registrations/page.js:185 | the multiplicity statement for every element at once |
| Seqs.FilterFilter | app/events/page.js:44-65 | two filters in a row keep what one filter on both tests keeps |
| Seqs.FilterConcat | app/admin/page.js:68-72 | filtering a concatenation is concatenating the filtered parts |
| Seqs.FilterDistinct | components/Navbar.js:70 | filtering a list without repeated elements leaves none repeated, so `removeItem` keeps storage keys unique |

## Left out

- Strings: `toLowerCase` and `toUpperCase` act on ASCII letters only.
- Lengths (the six-character password rule) count Unicode characters rather than UTF-16 code units.
- `new Date`, `parseISO`, `toISOString` and the Asia/Kolkata formatting of `formatEventDate` are parameters or integers. `now` is an input. A stored date is a millisecond timestamp or an Invalid Date (`Records.Timestamp`), without the text it came from; which texts `parseISO` and `new Date` accept is not modelled. In the new-event form, `parse` returns `None` for an Invalid Date. The formatted date texts themselves are not modelled.
- A number is an `int`: fractional values (`String(2.5)` in `AuthReview.DisplayValue` and `AuthReview.FallbackText`) are not modelled, because no floating point is.
- Objects other than arrays inside response and form values are not modelled; `String(v)` covers the other value kinds.
- Details: in `AuthReview.Details` the responses are a map, so the order of the `Object.entries` rows (the key order of the stored JSON object, app/auth/page.js:310-315) is not captured; the contract states which keys are shown and with which text.
- The backend is external: Supabase auth and storage, `fetch`, `Promise.all` and the JSON answers are inputs (the fetched lists, session present or not, success or failure). Alerts and router pushes are returned outcomes.
- The form builder's `uuidv4()` id is a parameter. Session storage is modelled only as the builder's `draft` field, written whenever the list changes and cleared by a successful save.
- The intermediate `isSaving = true` of `handleSave` is not observable in the model; the method ends with it false.
- FormBuilder.Builder.UpdateField and FormBuilder.Builder.MoveField require the index to lie inside the list. The buttons and inputs only ever call them with the index of a rendered field, and the disabled move buttons at the ends are the early returns of `moveField` (components/FormBuilder.js:150-160).
- The dashboard's sign-out and the Navbar's ignored `signOut` answer are not modelled; the logout purge runs whatever the answer is.
- The mobile menu toggle and all animations are not modelled.
- The review page under /auth has placeholder fetch, approve and reject handlers in the source (app/auth/page.js:79-89), so only its rendering rules and initial filter are modelled. As written the page never leaves its loading spinner: `loading` starts true (app/auth/page.js:60) and nothing clears it, so the list under the spinner test at line 98 is not reached. Its list filter is the same as the admin review page's, and AdminRegistrations.ByStatus models both.
- The approve and reject handlers of the admin review page, and the delete action of the admin event list, are not modelled; they are confirmation dialogs around a single backend call.
- JsValue.With models the one-key updates of both `handleInputChange` and `handleFormChange` (app/admin/events/new/page.js:149-151).
- AdminRegistrations.SortNewestFirst models the in-place `sort` as a function on sequences: a stable insertion sort by `created_at`, newest first. The array is not sorted in place.
- AdminRegistrations.TitleFor: its own ensures only says the title is non-empty; which event's title it is, is stated by AdminRegistrations.TitleForFirstMatch.
- AdminRegistrations.FindIndex: its own ensures only bounds the position; the first-match property is in AdminRegistrations.FindIndexFirstMatch.
- HomePage.Dedup: its own ensures only bounds the length; its meaning is in the HomePage lemmas.
- The email helper, the profile, club-profile, event detail, edit and participant pages, the API route and the backend test script are not part of this model.
