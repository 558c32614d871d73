# Admin dashboard: account filter and form state machines

This project models the parts of the admin dashboard front-end that hold logic: three pieces.

- **The account list filter** (`accounts.dfy`, module `Accounts`). The accounts page keeps its records in a list. The table shows the records that pass three tests at once:
  - the employee id contains the employee-id search text, compared after lower-casing both sides;
  - the name contains the name search text, compared the same way;
  - the status selector passes: `'all'` passes every record, `'active'` needs the active flag set, `'inactive'` needs it cleared.

  `FilterAccounts` is a pure function over `seq<Account>`. It builds a new list and cannot change the record list. Lower-casing and substring search live in `text.dfy` (module `Text`). The page's four mock records are the constant `MockData`.
- **The account creation form** (`create_account.dfy`, class `CreateAccount.CreateAccountPage`). Its state is the five form fields, the `loading` flag and the snackbar. Submitting first checks that the password and its confirmation agree. On a mismatch it shows an error snackbar and stops. Otherwise it sets `loading`, waits for a simulated call, reports success, resets the form and clears `loading`.
- **The login form** (`login.dfy`, class `Login.LoginPage`). Its state is two fields, `loading`, an optional error message, and the route last pushed to the router (`navigatedTo`). The handler checks that both fields are non-empty. When both are filled, it sets `loading`, waits, navigates to `/dashboard` and clears `loading`. A successful login does not clear an earlier error; only closing the alert does.

Each submit handler is split at its `await`:
- `BeginSubmit` is the synchronous part before the simulated call;
- `CompleteSubmit(rejected)` is the part after it, taken as one atomic step;
- `HandleSubmit` runs both in a row.

`PressSubmit` models a press of the submit button, which goes through the browser's form submission before the handler runs. A press does nothing while `loading` is set, because the button is `disabled={loading}`. A press also does nothing while a field marked `required` is empty, because the browser's form validation stops the submit. Those fields are the four text inputs of the account creation page and both inputs of the login page. The handlers' own checks (`BeginSubmit`) still model the code, but some of their paths cannot be reached by a press:
- the login handler's empty-field guard never fires from a press, so a press never changes the login error;
- the account creation handler never sees both passwords empty from a press.

The login page's inputs are disabled while `loading` is set (`EditField`). The account creation page disables only its button, so its fields can still be edited while the call is pending. A successful completion then clears those edits along with the rest of the form.

The simulated calls never reject. The `rejected` parameter exists so that the `catch` branches are modelled; the page as written always behaves as with `rejected == false`.

The source does not restrict the status selector value to three strings: it is any string. A value other than the three the selector offers passes no record (`UnknownStatusIsEmpty`). Record ids are unique in the mock data (`MockIdsUnique`). The table is keyed by id, and filtering a list with unique ids gives a list with unique ids (`FilterKeepsUniqueIds`). Nothing in the page enforces uniqueness, and the other lemmas do not assume it; `FilterMultiplicity` covers lists with repeated records too.

## Model

| member | source | states |
|---|---|---|
| `Text.LowerChar` | src/app/accounts/page.tsx:196-201 | the lower-cased character is never an ASCII capital; a character that is not a capital is left unchanged; a capital maps to the lower-case letter at the same alphabet position |
| `Text.ToLower` | src/app/accounts/page.tsx:196-201 | lower-casing keeps the length, lower-cases each character in place, and leaves no ASCII capital |
| `Text.ToLowerIdempotent` | src/app/accounts/page.tsx:196-201 | lower-casing an already lower-cased string changes nothing |
| `Text.ToLowerOfLowerIsSelf` | src/app/accounts/page.tsx:196-201 | a string without ASCII capitals is its own lower-case form |
| `Text.Contains` | src/app/accounts/page.tsx:196-201 | the model of `includes`: the empty query is contained in every string, and a contained query is never longer than the string |
| `Text.ContainsIffOccurs` | src/app/accounts/page.tsx:196-201 | the recursive substring search used for `includes` holds exactly when the query occurs at some index of the field (both directions) |
| `Text.ContainsSameLength` | src/app/accounts/page.tsx:196-201 | between strings of equal length, `includes` holds exactly when they are equal |
| `Text.ContainsEmpty` | src/app/accounts/page.tsx:196-201 | every string includes the empty query |
| `Text.ContainsSelf` | src/app/accounts/page.tsx:196-201 | every string includes itself |
| `Accounts.MatchesText` | src/app/accounts/page.tsx:196-201 | the case-insensitive field test: an empty search text passes every field, and a passing search text is never longer than the field |
| `Accounts.MatchesStatus` | src/app/accounts/page.tsx:202-205 | `'all'` passes both flags; any other value passes exactly when it is `'active'` with the flag set or `'inactive'` with it cleared, so unknown values pass nothing |
| `Accounts.Matches` | src/app/accounts/page.tsx:196-207 | the filter callback is the conjunction of the three tests; with both search texts empty only the status test is left |
| `Accounts.FilterAccounts` | src/app/accounts/page.tsx:195-208 | the result is no longer than the record list, and every record in it comes from the list and passes all three tests |
| `Accounts.SubsequenceLength` | src/app/accounts/page.tsx:195 | a subsequence is never longer than the sequence it is taken from |
| `Accounts.SubsequenceMembers` | src/app/accounts/page.tsx:195 | every element of a subsequence is an element of the sequence it is taken from |
| `Accounts.SubsequenceKeepsUniqueIds` | src/app/accounts/page.tsx:195 | deleting records from a list whose ids are unique leaves the ids unique |
| `Accounts.FilterIsSubsequence` | src/app/accounts/page.tsx:195 | the result is an order-preserving subsequence of the record list |
| `Accounts.FilterKeepsUniqueIds` | src/app/accounts/page.tsx:195-208 | when the record list has unique ids, every filtered result has unique ids |
| `Accounts.FilterMembership` | src/app/accounts/page.tsx:196-207 | a record is in the result if and only if it is in the list and passes the employee-id, name and status tests at once |
| `Accounts.FilterMultiplicity` | src/app/accounts/page.tsx:195-208 | a record occurs in the result as often as in the list when it passes the tests, and not at all otherwise |
| `Accounts.FilterEmptyQueryIsIdentity` | src/app/accounts/page.tsx:195-208 | with empty search texts and status `'all'` the result is the whole record list, in the same order |
| `Accounts.StatusNarrowsAll` | src/app/accounts/page.tsx:202-205 | status `'active'` (`'inactive'`) gives exactly the `'all'` result restricted, in order, to the records whose active flag is set (cleared) |
| `Accounts.StatusPartition` | src/app/accounts/page.tsx:202-205 | for fixed search texts, no record is in both the `'active'` and the `'inactive'` result, and together they make up the `'all'` result with the same multiplicities |
| `Accounts.UnknownStatusIsEmpty` | src/app/accounts/page.tsx:202-205 | a status value other than `'all'`, `'active'` and `'inactive'` yields an empty result |
| `Accounts.FilterIgnoresQueryCase` | src/app/accounts/page.tsx:196-201 | search texts that agree after lower-casing select the same rows |
| `Accounts.RecordCaseIrrelevant` | src/app/accounts/page.tsx:196-201 | records whose employee id and name agree after lower-casing, and whose active flags agree, pass or fail the tests alike |
| `Accounts.SixCharIdQuery` | src/app/accounts/page.tsx:196-198 | a six-character employee id matches the query `"emp001"` exactly when it lower-cases to `"emp001"` |
| `Accounts.MockIdsUnique` | src/app/accounts/page.tsx:49-82 | the four mock records carry the ids 1 to 4 in order, so no two share an id |
| `Accounts.MockRowMatchesEmp001` | src/app/accounts/page.tsx:49-82 | of the four mock records, only the first passes the query `"emp001"` with an empty name query and status `'all'` |
| `Accounts.MockInactiveScenario` | src/app/accounts/page.tsx:49-82 | on the mock records, empty search texts with status `'inactive'` give exactly record 3 |
| `Accounts.MockCaseInsensitiveScenario` | src/app/accounts/page.tsx:49-82 | on the mock records, the lower-case query `"emp001"` gives exactly the record with employee id `"EMP001"` |
| `CreateAccount.CreateAccountPage.constructor` | src/app/create-account/page.tsx:32-46 | the form starts with empty strings and `isAdmin` false, `loading` false, and a closed snackbar with an empty message and severity success |
| `CreateAccount.CreateAccountPage.SetEmployeeId` | src/app/create-account/page.tsx:113-114 | replaces the employee id and leaves the other four fields, `loading` and the snackbar unchanged |
| `CreateAccount.CreateAccountPage.SetName` | src/app/create-account/page.tsx:137 | replaces the name and leaves the other four fields, `loading` and the snackbar unchanged |
| `CreateAccount.CreateAccountPage.SetPassword` | src/app/create-account/page.tsx:167-168 | replaces the password and leaves the other four fields, `loading` and the snackbar unchanged |
| `CreateAccount.CreateAccountPage.SetConfirmPassword` | src/app/create-account/page.tsx:202-203 | replaces the confirmation and leaves the other four fields, `loading` and the snackbar unchanged |
| `CreateAccount.CreateAccountPage.SetIsAdmin` | src/app/create-account/page.tsx:244-245 | replaces the admin flag and leaves the other four fields, `loading` and the snackbar unchanged |
| `CreateAccount.CreateAccountPage.CloseSnackbar` | src/app/create-account/page.tsx:292-299 | closing sets `open` false and keeps the message and severity; form and `loading` unchanged |
| `CreateAccount.CreateAccountPage.BeginSubmit` | src/app/create-account/page.tsx:48-59 | the call is pending exactly when the passwords agree, including both empty; on a mismatch the snackbar is open with severity error and the mismatch message, and `loading` and the form are unchanged; otherwise `loading` is set and the snackbar is untouched |
| `CreateAccount.CreateAccountPage.CompleteSubmit` | src/app/create-account/page.tsx:60-83 | `loading` ends false whatever the outcome; on success the snackbar reports creation with severity success and the form is reset to empty strings with `isAdmin` false; on rejection it reports failure with severity error and the form is kept |
| `CreateAccount.CreateAccountPage.SubmitDisabled` | src/app/create-account/page.tsx:272 | the submit button is disabled exactly while `loading` is set |
| `CreateAccount.CreateAccountPage.PressSubmit` | src/app/create-account/page.tsx:92-272 | while `loading` is set, or while the employee id, name, password or confirmation is empty (`required`), a press changes nothing; otherwise it is the first half of the submit handler: a mismatch gives the error snackbar, a match sets `loading` |
| `CreateAccount.CreateAccountPage.HandleSubmit` | src/app/create-account/page.tsx:48-84 | the whole handler: mismatch gives the error snackbar with form and `loading` unchanged; a passing check ends with `loading` false, and with the success snackbar and a reset form unless the call rejected |
| `Login.LoginPage.constructor` | src/app/login/page.tsx:20-25 | both fields start empty, `loading` false, no error and no navigation |
| `Login.LoginPage.HandleChange` | src/app/login/page.tsx:27-33 | the field named by the input takes the new value and the other field keeps its value; `loading`, error and navigation unchanged |
| `Login.LoginPage.EditField` | src/app/login/page.tsx:158-185 | typing into a disabled input (while `loading`) changes nothing; otherwise it is `HandleChange` |
| `Login.LoginPage.CloseAlert` | src/app/login/page.tsx:143-146 | closing the alert clears the error and changes nothing else |
| `Login.LoginPage.BeginSubmit` | src/app/login/page.tsx:35-43 | the call is pending exactly when both fields are non-empty; otherwise the required-fields message is set and neither `loading` nor the navigation changes; a pending call sets `loading` and keeps the error |
| `Login.LoginPage.CompleteSubmit` | src/app/login/page.tsx:44-52 | `loading` ends false whatever the outcome; success navigates to `/dashboard` and keeps a previous error; rejection sets the failure message and does not navigate |
| `Login.LoginPage.ControlsDisabled` | src/app/login/page.tsx:158-202 | both inputs and the submit button are disabled exactly while `loading` is set |
| `Login.LoginPage.PressSubmit` | src/app/login/page.tsx:83-202 | a press starts the call (sets `loading`) exactly when `loading` was clear and both required fields are filled; otherwise nothing changes; a press never changes the form, the error or the navigation |
| `Login.LoginPage.HandleSubmit` | src/app/login/page.tsx:35-53 | the whole handler: an empty field gives the required-fields error with no loading and no navigation; both fields filled end with `loading` false and, unless the call rejected, navigation to `/dashboard` with the earlier error kept |

## Left out

- The delays (`setTimeout` of 1500 ms and 1000 ms) and the `await` are not modelled as time. Each wait is the single step between `BeginSubmit` and `CompleteSubmit`.
- `router.push` is recorded as the route in `navigatedTo`; the navigation itself is not modelled.
- The `catch` branches can never run, because the simulated calls never reject. They are modelled through the `rejected` parameter only.
- Lower-casing is ASCII only. Full Unicode `toLowerCase` is not modelled. The mock names are Hangul, which has no case, so the mock scenarios are unaffected.
- Strings are sequences of Dafny characters. JavaScript's UTF-16 code units are not modelled.
- The show/hide toggles for the password fields on the account creation page (`showPassword`, `showConfirmPassword`) only change how the fields are displayed, so they are not modelled.
- `Login.LoginPage.HandleChange`: an input name other than `employeeId` or `password` would add an extra key to the JavaScript form object. The model keeps the two fields unchanged and drops the extra key. No such input exists on the page.
- The snackbar's auto-hide after 6000 ms is not modelled; only the explicit close actions are.
- DataGrid pagination, sorting and rendering are not modelled. Neither are the unwired edit, delete and create buttons of the accounts page.
- The dashboard page, the admin-system page, the theme, the root layout, the client layout and the main layout's drawer toggle are not modelled. They hold static data, styling and framework routing, not logic.
