# Voice-call admin console: selection, roster and candidate-list model

A Dafny model of the list and record logic of a React admin console for an
AI voice-screening service. Recruiters keep user records in folders, tick users
in a table, and start or schedule batch phone calls through a remote REST API.
The model covers three components:

- **User table** (`src/components/UsersTable.jsx`, module `UsersTable`). The
  checked user ids are a `seq<UserId>`. A row checkbox toggles an id: every
  occurrence is removed if present, otherwise the id is appended. The header
  checkbox clears the selection or selects every shown user. An effect passes
  the selection to the parent, and another re-syncs the "select all" flag with
  a length test. A lookup table gives the call-status badge, with a grey
  default. The class `Table` holds the `users` prop, `selectedUserIds` and
  `selectAll`. Pure functions build each new selection.
- **Users page** (`src/pages/Users.jsx`, module `UsersPage`). The class `Page`
  holds the roster, the folders, the chosen folder, the filtered view, the
  selection reported by the table, and the modal flags. `Valid()` says the
  view is the one the folder-filter effect derives. Each handler is a method,
  and its `ensures` gives the whole new state as a `PageState` snapshot:
  refresh, filter, save, delete, batch call, scheduled batch, and the guarded
  "Place Call" and "Schedule" buttons. A HTTP result is a method parameter
  (`Option`/`bool`), and the request is returned as a `Request` value.
  `FolderSwitchKeepsSelection` works through one concrete case. A user is
  checked in folder 1's view, then the view switches to folder 2. The user
  stays selected, and the length test then ticks "select all" even though
  folder 2's only user is unchecked.
- **Candidate list** (`src/components/Users.jsx`, module `CandidateScreen`).
  This is an older screen where each candidate carries its own `selected`
  flag. It covers fetching and mapping, toggling by id, and the two checks
  before a batch call. The selected candidates, or the candidate with one id,
  are then optimistically marked "called". The add-candidate form has an
  editable question list and drops blank questions. The class `Screen` holds
  the state, and `ScreenState` is its snapshot.

Shared modules: `Wrappers` (Option), `Seqs` (occurrence count, subsequence,
duplicate-freedom), `Records` (user, folder and form records), and `JsStrings`
(ECMAScript `trim` and truthiness of strings).

Observations from the code that the model keeps:
- The selection's "select all" test compares lengths only, not ids
  (`SyncFlagIgnoresIdentity`). It means "every shown user is checked" only when
  the selection is duplicate-free and holds only shown ids
  (`SyncFlagMeansAllShownSelected`).
- `UsersTable` takes an `onDelete` prop but never renders a control that calls
  it. `UsersPage.Page.HandleDeleteUser` is modelled as written, but the UI
  cannot reach it.
- In `src/components/Users.jsx` nothing writes `conversationInstructions`
  except the reset to `""`. So the instruction check in `placeCallsNow` always
  rejects once some candidate is selected.
- `placeCallsNow` in `src/components/Users.jsx` is defined at line 51 and never
  referenced again: no markup calls it and no immediate-call dialog is
  rendered. `CandidateScreen.Screen.PlaceCallsNow` is modelled as written, but
  the UI cannot reach it.
- Locally added candidates get a numeric `Date.now()` id, and fetched ones a
  server `user_id`. Under `===` these are never equal (`CandidateId` has two
  constructors).

Behaviour the code does not have (the model follows the code):
- Deleted ids are not purged from the selection.
- There is no 10-second polling (it is commented out).
- No instruction payload is sent with batch calls.
- The schedule time is not built from separate date and time fields. It is the
  `datetime-local` string, passed through unchanged.
- A batch call refreshes the roster only when the post succeeds, not
  unconditionally.

## Model

| member | source | states |
|---|---|---|
| UsersTable.StatusClass | src/components/UsersTable.jsx:13-19 | "completed" gets the green badge, "pending" the yellow one, and "busy", "failed" and "no-answer" the red one. A status outside these five, or no status at all, gets the grey default of the `??` at line 125, and only those do. |
| UsersTable.Without | src/components/UsersTable.jsx:32 | The filter removes every occurrence of the id. Every other id keeps its membership. The result is an order-preserving subsequence, shorter by exactly the number of occurrences removed. |
| UsersTable.Toggle | src/components/UsersTable.jsx:29-37 | The toggled id is present afterwards exactly when it was absent before. Every other id keeps its membership. A present id has all its occurrences removed, leaving an order-preserving subsequence that is strictly shorter. An absent id is appended at the end. |
| UsersTable.UserIds | src/components/UsersTable.jsx:44 | Select-all builds the id list in user order: it has the same length as the users and its i-th entry is the i-th user's id. |
| UsersTable.ToggleKeepsDistinct | src/components/UsersTable.jsx:31-35 | Toggling keeps a duplicate-free selection duplicate-free. |
| UsersTable.ToggleTwiceAbsent | src/components/UsersTable.jsx:31-35 | Toggling an absent id twice restores the exact original list. |
| UsersTable.ToggleTwicePresent | src/components/UsersTable.jsx:31-35 | Toggling a present id twice gives the list without it plus one copy at the end. The set of ids is unchanged. |
| UsersTable.ToggleAllParity | src/components/UsersTable.jsx:29-37 | After any series of toggles, an id is selected exactly when its initial membership differs from "toggled an odd number of times". |
| UsersTable.SelectAllThenSync | src/components/UsersTable.jsx:40-63 | If the header click is followed by the sync effect, the box ends ticked exactly when it was clear and at least one user is shown. |
| UsersTable.SyncFlagMeansAllShownSelected | src/components/UsersTable.jsx:57-63 | Suppose the selection is duplicate-free and holds only shown ids. Then the length-based flag implies that every shown user is selected. |
| UsersTable.SyncFlagIgnoresIdentity | src/components/UsersTable.jsx:57-63 | Some selection and some user list satisfy the length test while a shown user is unselected. The test is not set equality. |
| UsersTable.Table.constructor | src/components/UsersTable.jsx:23-24 | A new table has an empty selection, a clear box, and the given users. |
| UsersTable.Table.HandleCheckboxChange | src/components/UsersTable.jsx:29-37 | The selection becomes the toggle of the old selection. The flag and the users are untouched (frame). |
| UsersTable.Table.HandleSelectAllChange | src/components/UsersTable.jsx:40-47 | A ticked box empties the selection. A clear box sets the selection to the shown users' ids, in order. The box is then negated. |
| UsersTable.Table.SelectionEffects | src/components/UsersTable.jsx:50-63 | The parent's callback, if there is one, receives the current selection unchanged. The box is ticked exactly when the selection is as long as the users list and that list is not empty. |
| UsersTable.Table.ReceiveUsers | src/components/UsersTable.jsx:57-63 | A new `users` prop re-syncs the box from the lengths. The selection is kept (frame). |
| UsersPage.FolderMembers | src/pages/Users.jsx:60 | The result is exactly the users whose folder is the given one, each as often as in the roster, as an order-preserving subsequence. A user without a folder is excluded. |
| UsersPage.FilterByFolder | src/pages/Users.jsx:58-64 | The empty folder id gives the whole roster. Any other id gives exactly the users of that folder, in roster order and with each such user as often as in the roster (`FolderMembers`). The view is always a subsequence of the roster. |
| UsersPage.FilterNoLonger | src/pages/Users.jsx:58-64 | The filtered view is never longer than the roster. |
| UsersPage.Refreshed | src/pages/Users.jsx:37-55 | If both fetches answer, users and folders are replaced together and the view is re-derived. If either fails, both are kept. `loading` is false either way, and no other field changes. |
| UsersPage.Page.constructor | src/pages/Users.jsx:18-33 | The initial state is: loading, empty lists, the "All" filter, no selection, and every modal closed. |
| UsersPage.Page.FetchData | src/pages/Users.jsx:37-55 | The new state is `Refreshed` of the old one, and the view invariant is kept. |
| UsersPage.Page.FilterUsers | src/pages/Users.jsx:74-76 | The chosen folder becomes the argument, "" (All) by default, and the view is re-derived. Nothing else changes. |
| UsersPage.Page.HandleSelectionChange | src/pages/Users.jsx:209 | The page's selection becomes exactly the list the table reports. |
| UsersPage.Page.OpenAdd | src/pages/Users.jsx:135-139 | Opens the form in create mode with no user chosen. |
| UsersPage.Page.OpenEdit | src/pages/Users.jsx:214-218 | Opens the form in edit mode for the given user. |
| UsersPage.Page.OpenView | src/pages/Users.jsx:210-213 | Opens the instructions view for the given user. |
| UsersPage.Page.OpenDelete | src/pages/Users.jsx:219-222 | Opens the delete dialog for the given user. |
| UsersPage.Page.PlaceCallClicked | src/pages/Users.jsx:145-149 | With a non-empty selection, the confirm dialog opens. With an empty one, the operator is alerted and the state does not change. |
| UsersPage.Page.ScheduleClicked | src/pages/Users.jsx:155-159 | The same guard, for the schedule dialog. |
| UsersPage.Page.HandleSaveUser | src/pages/Users.jsx:79-91 | Edit mode posts an update and otherwise a create. Only a successful post closes the form and refreshes. A failed post changes nothing. |
| UsersPage.Page.HandleDeleteUser | src/pages/Users.jsx:93-101 | With no user chosen, nothing is sent and nothing changes. Otherwise the chosen user's id is deleted, and only on success does the dialog close and the roster refresh. |
| UsersPage.Page.CallUsersNow | src/pages/Users.jsx:103-111 | One batch request carries exactly the given ids. The roster refreshes only on success. |
| UsersPage.Page.CallUsersInBatch | src/pages/Users.jsx:113-124 | One scheduling request carries exactly the given ids and time. The roster refreshes only on success. |
| UsersPage.Page.ConfirmCall | src/pages/Users.jsx:253-256 | The batch carries the page's current selection. The dialog closes whatever the outcome, and the roster refreshes only on success. |
| UsersPage.Page.ConfirmSchedule | src/pages/Users.jsx:263-266 | The same, for a scheduled batch with the chosen time. |
| CandidateScreen.ToCandidates | src/components/Users.jsx:27-35 | Each record gives one candidate, in order and with the same length. The candidate has the record's id, name and number, and is unselected, uncalled, with an empty transcript and no questions. |
| CandidateScreen.ToggleSelected | src/components/Users.jsx:45-49 | Only candidates with the matching id have `selected` flipped. All others and the length are unchanged. |
| CandidateScreen.ToggleSelectedTwice | src/components/Users.jsx:45-49 | Ticking the same checkbox twice restores the list. |
| CandidateScreen.SelectedCandidates | src/components/Users.jsx:52 | The result holds exactly the selected candidates, each as often as in the list, as an order-preserving subsequence. It is empty exactly when no candidate is selected. |
| CandidateScreen.IdsOf | src/components/Users.jsx:66-72 | One id per candidate, in order: the `user_id` of each start-call request. |
| CandidateScreen.MarkSelectedCalled | src/components/Users.jsx:76-82 | Every selected candidate gets `callStatus = true` and the placeholder transcript. Unselected candidates are unchanged, and all `selected` flags are kept. |
| CandidateScreen.MarkSelectedCalledIdempotent | src/components/Users.jsx:76-82 | Marking twice is the same as marking once. |
| CandidateScreen.MarkKeepsSelection | src/components/Users.jsx:66-82 | The candidates that are selected after marking are exactly the marked versions of those selected before. So the ids sent are the ids marked. |
| CandidateScreen.MarkCalledById | src/components/Users.jsx:103-109 | Only candidates whose id matches are marked called with the placeholder. All others are unchanged. |
| CandidateScreen.CheckPlaceCalls | src/components/Users.jsx:52-61 | With no candidate selected, the result is the first rejection. With some selected and blank instructions, it is the second. It proceeds exactly when some candidate is selected and the instructions are not blank. |
| CandidateScreen.CheckPlaceCallsUsesTrim | src/components/Users.jsx:58 | The instruction rejection is exactly `selectedCandidates.length !== 0` together with an empty `trim()`. |
| CandidateScreen.RemoveAt | src/components/Users.jsx:132-134 | An index inside the list removes exactly that entry (`qs[..i] + qs[i+1..]`). An index past the end removes nothing. |
| CandidateScreen.NonBlankQuestions | src/components/Users.jsx:149 | Only non-blank questions remain. Every non-blank question is kept with its multiplicity, and the result is an order-preserving subsequence. |
| CandidateScreen.Screen.constructor | src/components/Users.jsx:10-21 | The initial state has no candidates, all modals closed, empty inputs, and one empty question field. |
| CandidateScreen.Screen.FetchUsers | src/components/Users.jsx:24-40 | On success the list is replaced by the mapped records. On failure nothing changes. |
| CandidateScreen.Screen.HandleCheckboxChange | src/components/Users.jsx:45-49 | The list becomes the toggle by id. Nothing else changes. |
| CandidateScreen.Screen.PlaceCallsNow | src/components/Users.jsx:51-92 | A failed check sends nothing and changes nothing. Otherwise one start-call per selected candidate carries only its id. If all calls succeed: the selected candidates are marked, the dialog closes and the instructions are cleared. If any fails: only `loading` changes, ending false. |
| CandidateScreen.Screen.PlaceSingleCall | src/components/Users.jsx:94-116 | One start-call is sent for the candidate's id. On success only matching candidates are marked, and `loading` ends false. |
| CandidateScreen.Screen.HandleAddQuestionChange | src/components/Users.jsx:122-126 | The list is copied into a fresh array, and only index `i` is written. The length is preserved, and so is every other entry and field. |
| CandidateScreen.Screen.AddQuestionField | src/components/Users.jsx:128-130 | Appends one `""` question. Nothing else changes. |
| CandidateScreen.Screen.RemoveQuestionField | src/components/Users.jsx:132-134 | The question list loses exactly index `i`. Nothing else changes. |
| CandidateScreen.Screen.HandleAddCandidate | src/components/Users.jsx:136-157 | An empty name or phone is rejected with no change. Otherwise one unselected, uncalled candidate with the non-blank questions is appended. The form is then closed and cleared, and the questions are reset to `[""]`. |
| JsStrings.TrimStart | src/components/Users.jsx:58 | Leading whitespace is stripped: the result is a suffix after a blank prefix and does not start with whitespace. |
| JsStrings.TrimEnd | src/components/Users.jsx:58 | Trailing whitespace is stripped: the result is a prefix before a blank suffix and does not end with whitespace. |
| JsStrings.TrimIsCoreSlice | src/components/Users.jsx:58 | `trim()` returns a slice of the string with only whitespace on either side, and the slice neither starts nor ends with whitespace. |
| JsStrings.TrimEmptyIffBlank | src/components/Users.jsx:149 | `s.trim()` is empty exactly when every character is ECMAScript whitespace or a line terminator. |

## Left out

- HTTP requests, `toast`, `alert` and `console` are I/O. Each request's outcome is a parameter of the handler that makes it, and each request is returned as a value.
- Asynchrony is not modelled: each handler runs to completion before the next. Interleavings such as a double-clicked batch call (two independent requests) or a refresh overlapping another are out of scope. The interim `loading = true` of a refresh is set and cleared within one method.
- React effects are modelled as explicit steps. For the table these are `SelectionEffects` and `ReceiveUsers`. For the page, the folder-filter effect runs at the end of each method that changes its inputs.
- The table remounts whenever `loading` toggles (src/pages/Users.jsx:178), which resets its selection to `[]` and reports that to the page. This is not modelled: `Table` objects live as long as the caller keeps them.
- UsersTable.StatusClass: looks up the five own keys only. JavaScript's lookup would also find names inherited from `Object.prototype` (such as "constructor"), which the model does not reproduce.
- The table's single-row call (`callUser`, src/components/UsersTable.jsx:66-75) changes no state: it only posts and shows a toast. The recording player modal is display only.
- Rendering, CSS other than the status badges, `toLocaleString` of the schedule time, the `folder_name ?? "N/A"` label, and animations are display only.
- The form modals (user, folder, upload, schedule, confirm, delete, view), routing, the sidebar and the dashboard are thin field binding or display. The schedule dialog's disabled button for an empty date is one of them.
- In the candidate screen, the text-input setters, the `openTranscript` modal and the buttons that only open dialogs set one field from the UI. Fields of `Screen` can be assigned directly instead.
- CandidateScreen.Screen.HandleAddQuestionChange: requires an index inside the list, which is the only kind the rendered form produces. A larger index would make JavaScript grow a sparse array, which is not modelled.
- `Date.now()` is the parameter `now` of `HandleAddCandidate`. Its uniqueness is not modelled.
- Strings are sequences of Unicode scalar values, where JavaScript uses UTF-16 code units. Every character `trim` removes lies in the Basic Multilingual Plane, so the two agree for trimming.
