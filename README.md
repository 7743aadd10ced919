# User admin screen: a verified model

This project models the logic of a small React admin screen for a remote
collection of users. The screen lists, filters, sorts, selects, deletes and
creates users. The model covers these parts:

- **The user state coordinator** (`UserProvider`). It holds the loaded users, the
  loading flag, the error, the selected ids, the sort, the raw filter and its
  debounced copy. Its callbacks are `fetchUsers`, `addUser`, `deleteUsers`,
  `toggleSelect`, `setFilter` and `setSort`. It is the class
  `UserContext.UserStore`. Every request the provider would put on the network
  is appended to its `sent` log, so the contracts can say what was posted,
  deleted and fetched.
- **The query string** `fetchUsers` builds, in module `Query`. The module also
  has a decoder, `DecodeQuery`, which reads the parameters back the way a
  `URLSearchParams.get` reader does, except that it reads a missing key as
  `""`, which the endpoint treats as no constraint. It serves as the inverse the builder is
  proved against.
- **The selection primitive and its fold**, in module `Selection`.
- **The list page**, class `UserListPage.ListPage`. It covers select-all as a
  loop over `toggleSelect`, the delete flow behind the confirmation dialog,
  and the toolbar choice.
- **The table's decisions**, in module `UserTable`: the next sort on a header
  click, the header checkbox, the view precedence and the row marks.
- **The creation form.** Module `FormValidation` holds `validate`, the email
  and phone patterns, and the avatar URL. Class `UserForm.Form` is the form's
  state machine: reset on open, re-validation after the first submit, and
  `handleSubmit`.
- **The application shell**, class `App.WelcomeGate`. It is the welcome-screen
  gate over a persisted `hasVisited` flag.

Network calls are replaced by outcome parameters:

- `Outcome` is `Success` or `Failure`, for the POST and the DELETE fan-out.
- `Response` is `Ok(data)` or `Fail`, for the GET.

Browser storage is an explicit `map<string, string>`. Strings are `seq<char>`.
Trimming, `\s`, `\d` and upper-casing are restricted to ASCII.

Two facts about the source that shape the model:

- `addUser` posts its payload unchanged. The form derives the avatar before
  the call (src/widgets/user-form/UserForm.tsx:112-113).
- The avatar URL joins the letter to the image address with `&text=`
  (src/widgets/user-form/UserForm.tsx:98).

## Model

| member | source | states |
|---|---|---|
| Types.ParseSortField | src/shared/types/types.ts:11 | Reading a sort field name back is the exact inverse of writing it: `ParseSortField(s) == Some(f)` iff `SortFieldName(f) == s`. |
| Types.ParseSortOrder | src/entities/user/model/UserContext.tsx:11 | Reading a sort order back is the exact inverse of writing it. `SortOrderName` gives the literal sent as `order`. |
| Types.UserIds | src/pages/user-list/UserListPage.tsx:44 | `users.map(n => n.id)`: the same length, and position i holds the id of user i. |
| Text.ToUpper | src/widgets/user-form/UserForm.tsx:97 | A lower-case ASCII letter maps to its upper-case letter; every other character is unchanged. |
| Text.Trim | src/widgets/user-form/UserForm.tsx:74 | `s.trim()`: white space is dropped from the start, then from the end. Its meaning is stated by `TrimStartSuffix`, `TrimEndPrefix` and `BlankIffAllSpace`. |
| Text.IsBlank | src/widgets/user-form/UserForm.tsx:74-81 | `!s.trim()`: the trimmed string is empty. `BlankIffAllSpace` proves this is the same as "every character is white space". |
| Text.TrimStartSuffix | src/widgets/user-form/UserForm.tsx:74 | The start of a trim is the suffix of the input that begins at its first non-space character; everything dropped is white space. |
| Text.TrimEndPrefix | src/widgets/user-form/UserForm.tsx:74 | The end of a trim is the prefix that ends at the last non-space character; everything dropped is white space. |
| Text.BlankIffAllSpace | src/widgets/user-form/UserForm.tsx:74-85 | `!s.trim()` holds exactly when every character of `s` is white space. `IsSpace` is the white-space set shared by `\s` and `trim`. |
| Text.TrimStartsAtFirstNonSpace | src/widgets/user-form/UserForm.tsx:97 | The trimmed form of a non-blank string starts with the string's first non-space character. |
| Selection.Remove | src/entities/user/model/UserContext.tsx:84 | `filter(y => y !== x)`: `x` is gone, every other id keeps its membership, and the list is untouched when `x` is absent. |
| Selection.Toggled | src/entities/user/model/UserContext.tsx:84 | `id` is in the result iff it was not in the input; every other id keeps its membership. |
| Selection.ToggledNoDup | src/entities/user/model/UserContext.tsx:84 | A duplicate-free selection stays duplicate-free after a toggle. |
| Selection.ToggledKeepsOthers | src/entities/user/model/UserContext.tsx:84 | Apart from `id`, the selection after a toggle is the same sequence as before, so the other ids keep their relative order. |
| Selection.ToggleTwiceAbsent | src/entities/user/model/UserContext.tsx:84 | Toggling an unselected id twice restores the selection exactly. |
| Selection.ToggleTwicePresent | src/entities/user/model/UserContext.tsx:84 | Toggling a selected id twice moves it to the end. |
| Selection.ToggleAll | src/pages/user-list/UserListPage.tsx:45-52 | A `forEach` of `toggleSelect` calls: the ids are toggled one at a time, first to last. `ToggleAllKeepsOthers`, `ToggleAllAppendsFresh` and `ToggleAllOwnPrefix` state what this does. |
| Selection.ToggleAllKeepsOthers | src/pages/user-list/UserListPage.tsx:45-52 | An id outside the toggled batch is selected afterwards exactly when it was selected before. |
| Selection.ToggleAllAppendsFresh | src/pages/user-list/UserListPage.tsx:45-49 | Toggling distinct, unselected ids one after another appends them in order. |
| Selection.ToggleAllOwnPrefix | src/pages/user-list/UserListPage.tsx:52 | Toggling the first k ids of a duplicate-free selection leaves exactly the rest of it. |
| Query.BuildParams | src/entities/user/model/UserContext.tsx:37-42 | The parameter buffer filled one append at a time equals the specification `QueryParams` of the debounced filter and the sort. |
| Query.QueryParamsFilterKeys | src/entities/user/model/UserContext.tsx:38-40 | Each filter key appears iff its value is non-empty (untrimmed), and then with that value. `OptionalParam` is the truthiness test that guards each append. |
| Query.QueryParamsTail | src/entities/user/model/UserContext.tsx:41-42 | `sortBy` and then `order` always close the query, after one entry per non-empty filter value. |
| Query.QueryParamsOrder | src/entities/user/model/UserContext.tsx:37-42 | The keys appear in the order name, email, phone, sortBy, order. |
| Query.LookupQuery | src/entities/user/model/UserContext.tsx:37-42 | Reading any key of the built query gives its filter value, sort field name or sort order name, and "" for other keys. |
| Query.QueryRoundTrip | src/entities/user/model/UserContext.tsx:37-42 | Decoding the built query gives back exactly the filter and the sort it was built from. |
| UserContext.WithFilterField | src/entities/user/model/UserContext.tsx:87-89 | The changed field takes the new value and the other two filter fields are unchanged. |
| UserContext.DeleteRequests | src/entities/user/model/UserContext.tsx:71-73 | One DELETE per id, in the order of the ids. |
| UserContext.UserStore.constructor | src/entities/user/model/UserContext.tsx:23-28 | The initial state: no users, not loading, no error, empty selection, sort by name ascending, all filters "", and nothing sent. |
| UserContext.UserStore.ToggleSelect | src/entities/user/model/UserContext.tsx:83-85 | The selection becomes `Toggled(old selection, id)` and stays duplicate-free. |
| UserContext.UserStore.SetFilter | src/entities/user/model/UserContext.tsx:87-89 | Only the chosen raw filter field changes. The debounced filter stays one of the values the raw filter has had. |
| UserContext.UserStore.DebounceElapsed | src/entities/user/model/UserContext.tsx:31 | After the debounce window the debounced filter equals the raw filter. |
| UserContext.UserStore.SetSort | src/entities/user/model/UserContext.tsx:91-93 | The sort is replaced wholesale. |
| UserContext.UserStore.BeginFetch | src/entities/user/model/UserContext.tsx:33-44 | Loading is set, the error is cleared, and a GET with the query of the debounced filter and the sort is sent. |
| UserContext.UserStore.CompleteFetch | src/entities/user/model/UserContext.tsx:44-51 | On success the users are replaced by the response. On failure the users are kept and the load error is set. Loading ends false either way. |
| UserContext.UserStore.FetchUsers | src/entities/user/model/UserContext.tsx:33-52 | The whole fetch: one GET; afterwards not loading. The error is null on success and the load message on failure. The users are replaced only on success. |
| UserContext.UserStore.AddUser | src/entities/user/model/UserContext.tsx:58-67 | The payload is posted unchanged. On success the list is refetched and never appended to locally. On failure the add error is set, no GET is sent and the failure is reported. |
| UserContext.UserStore.DeleteUsers | src/entities/user/model/UserContext.tsx:69-81 | One DELETE per id, in order. On success the selection is emptied and the list refetched. On failure the delete error is set, the selection is kept and the failure is reported. |
| UserListPage.ToggledIds | src/pages/user-list/UserListPage.tsx:44-49 | The ids select-all toggles are exactly the loaded ids that were not selected when the click happened. |
| UserListPage.ToggledIdsNoDup | src/pages/user-list/UserListPage.tsx:44-49 | Distinct loaded ids give distinct toggled ids. |
| UserListPage.ToggledIdsAllSelected | src/pages/user-list/UserListPage.tsx:46 | When every loaded id is already selected, select-all toggles nothing. |
| UserListPage.SelectAll | src/pages/user-list/UserListPage.tsx:42-53 | The selection after a select-all click. Checked: the loaded ids missing from the snapshot taken at the click are toggled. Unchecked: the snapshot's own ids are toggled. `SelectAllChecked`, `SelectAllTwice` and `SelectAllUnchecked` state the result. |
| UserListPage.SelectAllChecked | src/pages/user-list/UserListPage.tsx:43-49 | With distinct loaded ids, select-all keeps the selected ids in their order and appends the unselected loaded ids in list order. Every loaded id ends up selected. |
| UserListPage.SelectAllTwice | src/pages/user-list/UserListPage.tsx:46 | A second select-all right after the first issues no toggles and leaves the selection unchanged. |
| UserListPage.SelectAllUnchecked | src/pages/user-list/UserListPage.tsx:52 | Unchecking select-all empties a duplicate-free selection. |
| UserListPage.SelectAllChecksHeader | src/pages/user-list/UserListPage.tsx:42-50 | After select-all on a selection of displayed ids, the header checkbox as written (from the counts) is checked and not indeterminate. |
| UserListPage.SelectAllMarksEveryRow | src/pages/user-list/UserListPage.tsx:42-50 | Whatever the selection held before, select-all marks every displayed row, so the header drawn from the row marks is checked. |
| UserListPage.ToolbarFor | src/pages/user-list/UserListPage.tsx:55-87 | The toolbar shows the count and the delete action iff the selected count is positive; otherwise the title and the add button. |
| UserListPage.ListPage.constructor | src/pages/user-list/UserListPage.tsx:28 | The delete dialog starts closed. |
| UserListPage.ListPage.HandleSelectAllClick | src/pages/user-list/UserListPage.tsx:42-53 | The loop reads the selection once and calls `toggleSelect` per id. The ids it toggles and the resulting selection are exactly `ToggledIds` and `SelectAll` of that snapshot. |
| UserListPage.ListPage.ToggleUnselected | src/pages/user-list/UserListPage.tsx:43-50 | The checked branch toggles exactly `ToggledIds` of the snapshot, in list order, and the selection becomes that batch of toggles applied to the snapshot. |
| UserListPage.ListPage.ToggleSelected | src/pages/user-list/UserListPage.tsx:52 | The unchecked branch toggles each id of the snapshot in order, and the selection becomes that batch of toggles applied to the snapshot. |
| UserListPage.ListPage.OpenDeleteDialog | src/pages/user-list/UserListPage.tsx:78-84 | The delete button, present only while something is selected, opens the dialog. |
| UserListPage.ListPage.CloseDeleteDialog | src/pages/user-list/UserListPage.tsx:101 | Cancelling closes the dialog. |
| UserListPage.ListPage.HandleDelete | src/pages/user-list/UserListPage.tsx:31-40 | The current selection is passed to `deleteUsers`: one DELETE per selected id. On success the selection is emptied and the refetch decides users, error and loading. On failure the selection, users and loading are kept and the delete error is set. The dialog is closed either way. |
| UserTable.NextSort | src/widgets/user-table/UserTable.tsx:38-41 | The clicked field becomes the sort field. The order is descending iff that field was active in ascending order. |
| UserTable.SortTwiceOnActiveField | src/widgets/user-table/UserTable.tsx:38-40 | Two clicks on the active field give back the starting sort. |
| UserTable.SortOtherField | src/widgets/user-table/UserTable.tsx:38-40 | Clicking an inactive field sorts ascending, and a second click sorts descending. |
| UserTable.HeaderCheckbox | src/widgets/user-table/UserTable.tsx:84-85 | The header checkbox as written, from the two counts: never both checked and indeterminate, and neither without rows and a selection. |
| UserTable.RowSelected | src/widgets/user-table/UserTable.tsx:125 | `selectedUsers.includes(user.id)`: a row is marked exactly when its id is in the selection. |
| UserTable.RowToggleFlipsOnlyThatRow | src/widgets/user-table/UserTable.tsx:125 | A row is marked iff its id is selected; toggling one id flips that row's mark and no other. |
| UserTable.HeaderCheckboxByRows | src/widgets/user-table/UserTable.tsx:84-85 | The header derived from the displayed rows' marks is never both checked and indeterminate. |
| UserTable.HeaderCheckboxAgreesOnDisplayedSelection | src/widgets/user-table/UserTable.tsx:84-85 | When the selection holds only displayed ids, each once, the counts give the same header as the row marks. |
| UserTable.HeaderCheckedWithNoRowMarked | src/widgets/user-table/UserTable.tsx:84-85 | With two stale selected ids and two other rows shown, the header is drawn checked although no row is marked. |
| UserTable.ViewFor | src/widgets/user-table/UserTable.tsx:46-68 | Loading gives the spinner. Otherwise a non-empty error gives "Ошибка: " and the error. Otherwise an empty list gives "not found". Otherwise the rows are drawn. |
| UserTable.HasError | src/widgets/user-table/UserTable.tsx:54 | The truthiness test `if (error)`: the error is set and is not the empty string. |
| FormValidation.EmailPatternIsShape | src/widgets/user-form/UserForm.tsx:78 | The email regex accepts exactly the strings with no white space and exactly one '@', with a non-empty local part. The domain must hold a '.' that is neither its first nor its last character. |
| FormValidation.MatchesEmailPattern | src/widgets/user-form/UserForm.tsx:78 | The email regex: an '@' and a later '.' cut the string into three non-empty runs without white space or '@'. `EmailPatternIsShape` proves this equals the shape stated in words. |
| FormValidation.MaskedPhoneMatches | src/widgets/user-form/UserForm.tsx:31 | Every completely filled phone mask passes the phone regex, and its ten digits can be read back. `MaskedPhone` is the input mask "+7 000 000-00-00" filled with ten digits. |
| FormValidation.PhonePatternIsMask | src/widgets/user-form/UserForm.tsx:83 | The phone regex accepts nothing but a filled mask of ten digits. |
| FormValidation.MatchesPhonePattern | src/widgets/user-form/UserForm.tsx:83 | The phone regex, one pattern item per character: "+7 ", three digits, a space, three digits, "-", two digits, "-", two digits. `MaskedPhoneMatches` and `PhonePatternIsMask` prove this equals a filled mask. |
| FormValidation.MaskOfOwnDigits | src/widgets/user-form/UserForm.tsx:31 | A 16-character string with the mask's separators in place is the mask filled with its own digits. |
| FormValidation.Validate | src/widgets/user-form/UserForm.tsx:72-87 | The errors object filled field by field equals the specification `ValidationErrors` of the fields. |
| FormValidation.ValidationErrorsAt | src/widgets/user-form/UserForm.tsx:72-87 | A key has an entry iff its own rule fails, and the entry is that rule's message. |
| FormValidation.ValidationKeys | src/widgets/user-form/UserForm.tsx:72-87 | Only name, username, email and phone can carry errors. The zipcode never does and does not affect the others. |
| FormValidation.RequiredFieldRules | src/widgets/user-form/UserForm.tsx:74-75 | There is a name or username error iff that field is blank after trimming, and its message is the required message. |
| FormValidation.EmailRule | src/widgets/user-form/UserForm.tsx:76-80 | A blank email gets the required message. Otherwise the email gets the format message iff it lacks the accepted shape. |
| FormValidation.PhoneRule | src/widgets/user-form/UserForm.tsx:81-85 | A blank phone gets the required message. Otherwise there is a format error iff the phone is not `+7 ddd ddd-dd-dd`. |
| FormValidation.AvatarUrl | src/widgets/user-form/UserForm.tsx:96-99 | The URL is the fixed image prefix ending in `&text=`, followed by exactly one character (the avatar letter). |
| FormValidation.AvatarLetterRule | src/widgets/user-form/UserForm.tsx:96-98 | The letter is 'U' for a blank name. Otherwise it is the upper-cased first non-space character of the name. |
| FormValidation.AvatarLetter | src/widgets/user-form/UserForm.tsx:97 | The avatar letter: the upper-cased first character of the trimmed name, or 'U' when the trimmed name is empty. `AvatarLetterRule` states it without `trim`. |
| UserForm.Payload | src/widgets/user-form/UserForm.tsx:110-113 | `addUser` receives the five fields as typed, and a photo that is the derived avatar URL. |
| UserForm.NoErrorsIff | src/widgets/user-form/UserForm.tsx:72-87 | A form has no errors iff name and username are not blank, the email has the accepted shape, and the phone is a filled mask. |
| UserForm.Form.SubmitDisabled | src/widgets/user-form/UserForm.tsx:130 | Outside a submission, the submit button is disabled iff a submit has happened and the current fields have errors. |
| UserForm.Form.constructor | src/widgets/user-form/UserForm.tsx:51-58 | The form starts closed, with empty fields, no errors and not submitted. |
| UserForm.Form.Open | src/widgets/user-form/UserForm.tsx:60-70 | Opening a closed form resets all five fields to "", clears the errors and clears the submitted flag. Opening an open form changes nothing. |
| UserForm.Form.Close | src/widgets/user-form/UserForm.tsx:133 | The parent closes the dialog, through the Dialog's `onClose` or the Cancel button (line 202). Closing keeps the fields and errors. |
| UserForm.Form.SetField | src/widgets/user-form/UserForm.tsx:89-94 | Exactly one field changes. Once submitted, the errors shown always equal the validation of the current fields. |
| UserForm.Form.HandleSubmit | src/widgets/user-form/UserForm.tsx:101-121 | The form becomes submitted and shows `validate` of its fields. With errors, nothing is sent, the store is untouched and the form stays open. Otherwise `addUser` gets the payload. On success the form closes and the refetch decides users, error and loading. On failure the users and loading are kept and the add error is set. `submitting` is false afterwards. |
| UserForm.Form.SendPayload | src/widgets/user-form/UserForm.tsx:109-120 | `addUser` is called with the payload exactly once, and the dialog closes iff it succeeds. On success the refetch decides users, error and loading. On failure the users and loading are kept and the add error is set. `submitting` is false afterwards. |
| UserForm.Form.HandleKeyDown | src/widgets/user-form/UserForm.tsx:123-128 | Enter submits, with the same outcome as `handleSubmit`: the errors shown, the payload posted only when there are none, the sent log, the dialog closing on success, and the store after success or failure. Any other key changes nothing. |
| App.ScreenFor | src/app/App.tsx:43-49 | Exactly one of the welcome screen and the list page is shown, chosen by `showWelcome`. |
| App.IsFirstVisit | src/app/App.tsx:15 | `!localStorage.getItem('hasVisited')`: a first visit when the key is missing, and also when it holds the empty string, which is falsy. |
| App.WelcomeGate.constructor | src/app/App.tsx:12 | `showWelcome` starts false. |
| App.WelcomeGate.Startup | src/app/App.tsx:14-20 | On a first visit the welcome screen is shown and `hasVisited` is stored as "true". Otherwise nothing changes. Afterwards it is never a first visit. |
| App.WelcomeGate.CloseWelcome | src/app/App.tsx:22-24 | Closing hides the welcome screen and leaves the storage alone. |
| App.WelcomeGate.OpenWelcome | src/app/App.tsx:26-28 | Opening shows the welcome screen and leaves the storage alone. |
| App.TwoLoads | src/app/App.tsx:14-20 | Across two page loads sharing a storage, the welcome screen appears on the first load iff it is a first visit, and never on the second. |

## Left out

- The welcome screen's canvas animation (src/widgets/welcome-screen/WelcomeScreen.tsx) is presentation with floating point and randomness.
- `useDebounce`: its source is not part of this model. The timer is replaced by the explicit step `DebounceElapsed`. A ghost history records that the debounced filter is always some earlier raw filter.
- The effect that refetches when the sort or the debounced filter changes is not modelled as an automatic trigger. `FetchUsers` is the call it makes.
- HTTP is abstracted:
  - Each request is an entry in `sent`, and its result is an outcome parameter.
  - The `Promise.all` fan-out is all-or-nothing, so a partial server-side delete is not modelled.
  - Responses arriving out of order (the stale-response race between overlapping fetches) are not modelled.
  - The refetch after an add or delete is not awaited by the source. The model runs it to completion inside the call.
- UserForm.Form.HandleSubmit: runs atomically. So a second Enter press while a submission is pending (which the source allows, because the key handler ignores the disabled button) is not modelled.
- The phone input mask (`IMaskInput`) is a foreign library. Only the regex check on the string it produces is modelled, plus the lemma that a filled mask passes it.
- `trim`, `\s`, `\d` and `toUpperCase` are restricted to ASCII. JavaScript's Unicode white space and case mapping are not modelled.
- Snackbar notices, console logging, MUI and framer-motion rendering, and the sort labels' markup are left out. A returned flag stands for the success or error notice.
- src/entities/user/ui/UserItem.tsx, src/features/filter-users/ui/UserFilters.tsx, src/features/add-user/ui/AddUserButton.tsx and src/shared/ui/ConfirmationDialog.tsx only forward callbacks. They are not modelled beyond the handlers they call.
- Real `localStorage` is an explicit map handed in at mount. Storage failures are not modelled.
- UserTable.HeaderCheckbox: states the two exclusivity facts rather than repeating its two count comparisons. Its relation to the row marks is stated by `HeaderCheckboxAgreesOnDisplayedSelection`.

## Findings

| source | as written | input that shows it | evidently intended | confidence | as-written member | corrected member |
|---|---|---|---|---|---|---|
| src/widgets/user-table/UserTable.tsx:84-85 | The header checkbox compares the number of selected ids with the number of rows shown. | A refetch after a filter change keeps the selection. With ids 3 and 4 selected and only users 1 and 2 shown, the header is checked although no shown row is marked. | The header reflects the marks of the rows shown: checked iff there are rows and all are marked, indeterminate iff some but not all are. | medium; not executed | UserTable.HeaderCheckedWithNoRowMarked | UserTable.HeaderCheckboxByRows |
