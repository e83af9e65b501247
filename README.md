# Repair-report system — a verified model

The repair-report application lets university members file equipment faults for a room
(building, room number, category, details, date, optional photo). They can follow and edit
their reports. An administrator sets each report's status to one of three states (รอดำเนินการ,
กำลังดำเนินการ or เสร็จสิ้น), in any order, and adds notes. This project models the core of the
application in Dafny:

- **`ReportRoutes`** (`reports.dfy`) models the Express report router.
  - The collection is a map from id to document, with an append-only log of socket broadcasts.
  - GET by id, PATCH, POST, GET all and DELETE are methods of `ReportStore`.
  - Each method gives its exact status code, message and new collection for every modelled
    branch (the 500 answers of an unexpected database failure are left out, see below).
  - Express dispatches to the first matching route. So the admin-only PATCH handler and the
    second POST handler are never reached, and the generic merge of `Patch` also serves
    every status and note change.
- **`AuthContext`** (`auth_context.dfy`) models the session provider. That covers the token in
  local storage, the start-up verification, login and logout.
- **`RegisterPage`** (`register.dfy`) models the registration page:
  - the e-mail pattern, including its unescaped dots;
  - the five-criterion password strength with its colour and label;
  - the passwords-match effect;
  - the debounced availability check;
  - form validity and submission.
- **`LoginPage`** (`login.dfy`) models the login page:
  - the e-mail pattern;
  - the three-second cooldown after a failed login, and its timer;
  - the button's state and caption;
  - submission, which logs the user into the session.
- **`ReportFields`**, **`ReportFormPage`** and **`EditReportFormPage`** (`report_fields.dfy`,
  `report_form.dfy`, `edit_report_form.dfy`) model the create and edit forms:
  - the required-field validation;
  - the all-fields `isFormValid` test;
  - image choice, drop and removal;
  - the multipart payload;
  - for the edit page, loading a stored report into the form.
- **`AdminPage`** (`admin.dfy`) models the admin list:
  - the per-report notes rebuilt on every fetch;
  - status change, note saving and deletion.
- **`DashboardPage`** (`dashboard.dfy`) models the dashboard: the student id shown from the
  e-mail, the colour of each status, and fetching the list.
- **`Text`** and **`Domain`** (`text.dfy`, `domain.dfy`) are shared helpers:
  - the JavaScript string operations the pages rely on: `trim`, UTF-16 `length`,
    `split(c)[0]`, `startsWith` and the regular-expression dot;
  - the report document type.

Network answers, timers and user confirmations are inputs to the operations that consume them.

The PATCH handler merges the whole request body into the stored document
(backend/routes/reports.js:46,59-63), so a caller it permits can rewrite `createdBy` like any
other field (`ReportRoutes.PatchBodyReassignsCreator`).

## Model

| member | source | states |
|---|---|---|
| ReportRoutes.ReportStore.constructor | backend/routes/reports.js:1-18 | The collection starts empty with no broadcasts, and the store invariant holds. |
| ReportRoutes.ReportStore.Get | backend/routes/reports.js:21-31 | An unknown id answers 404 "Report not found". A known id answers 200 with the stored document. |
| ReportRoutes.ReportStore.Patch | backend/routes/reports.js:34-70 | Checks run in this order: unknown id gives 404; a caller who is neither creator nor admin gives 403 and nothing changes; a new upload onto a report that already has an image gives 400 and nothing changes (the old-image deletion calls an undeclared `fs`). Otherwise every body key, plus the upload's path, overwrites the document, other fields are kept, the updated document is broadcast and returned with 200. The store invariant is kept. |
| ReportRoutes.ReportStore.Create | backend/routes/reports.js:73-92 | If validation fails, 400 and nothing changes. Otherwise a fresh id holds the body with `createdBy` forced to the caller and `imagePath` set from the upload, stamped with the creation time. It is broadcast and returned with 201. |
| ReportRoutes.ReportStore.List | backend/routes/reports.js:95-102 | Always 200. Every stored document appears exactly once and nothing else does, ordered newest first by creation time. |
| ReportRoutes.ReportStore.Delete | backend/routes/reports.js:139-157 | 404 comes before 403, as in PATCH. On success the document is removed, its id is broadcast, and the answer is "Report deleted successfully". |
| ReportRoutes.UpdateData | backend/routes/reports.js:46-57 | The update holds exactly the body's keys plus `imagePath` when a file came. It has the body's values, and the file path under `imagePath`. |
| ReportRoutes.Merge | backend/routes/reports.js:59-63 | Keys of the update overwrite the document; every other field keeps its value; no key is lost. |
| ReportRoutes.MergeAgreeing | backend/routes/reports.js:59-63 | An update that repeats values the document already holds leaves the document unchanged. |
| ReportRoutes.NewReportFields | backend/routes/reports.js:75-82 | The new document has the body's keys plus `createdBy`, and `imagePath` when a file came. The creator is always the caller, even if the body names another. |
| ReportRoutes.InsertByDate | backend/routes/reports.js:97 | Inserting into a newest-first list keeps it newest first; the result is one longer and holds exactly the old reports and the new one. |
| ReportRoutes.InsertByDatePermutes | backend/routes/reports.js:97 | Inserting adds exactly one copy of the new report and loses no report, counting duplicates. |
| ReportRoutes.InsertKeepsDistinct | backend/routes/reports.js:97 | Inserting a report whose id is new keeps ids distinct. |
| ReportRoutes.InsertKeepsListing | backend/routes/reports.js:97 | Inserting the document filed under a new key extends the listing by exactly that key. |
| ReportRoutes.PatchBodyReassignsCreator | backend/routes/reports.js:46-63 | A body naming `createdBy` replaces the creator, so ownership is not protected by PATCH. |
| AuthContext.Initial | frontend/src/contexts/AuthContext.js:9-11 | Before the check runs, the session holds the token found in local storage, and is logged out, consistent and loading. |
| AuthContext.Startup | frontend/src/contexts/AuthContext.js:14-30 | Loading always ends. With no stored token, or an empty one (`if (token)` is falsy), nothing else changes and an empty token stays stored. A verified non-empty token logs in that user. A rejected token is removed from storage. A consistent logged-out session stays consistent. |
| AuthContext.AfterLogin | frontend/src/contexts/AuthContext.js:35-39 | The token is stored, the session is logged in with the given user, and it is consistent. |
| AuthContext.AfterLogout | frontend/src/contexts/AuthContext.js:41-45 | The token is removed, the session is logged out with no user, and it is consistent. |
| AuthContext.LogoutIdempotent | frontend/src/contexts/AuthContext.js:41-45 | Logging out twice equals logging out once. |
| AuthContext.LogoutAfterLogin | frontend/src/contexts/AuthContext.js:35-45 | Logout after login restores the logged-out state, whatever the login stored. |
| AuthContext.StartupWithoutToken | frontend/src/contexts/AuthContext.js:14-30 | A fresh start without a token ends logged out with children rendered. |
| AuthContext.StartupWithEmptyToken | frontend/src/contexts/AuthContext.js:14-30 | A fresh start with an empty stored token asks the server nothing, keeps the empty token and ends logged out with children rendered. |
| AuthContext.StartupWithRejectedToken | frontend/src/contexts/AuthContext.js:14-30 | A fresh start with a non-empty token the server rejects drops it and ends logged out with children rendered. |
| AuthContext.AuthProvider.constructor | frontend/src/contexts/AuthContext.js:8-11 | The provider starts in the initial session. |
| AuthContext.AuthProvider.CheckLoggedIn | frontend/src/contexts/AuthContext.js:13-33 | The provider's new state is `Startup` of its old state. |
| AuthContext.AuthProvider.Login | frontend/src/contexts/AuthContext.js:35-39 | The provider's new state is `AfterLogin` of its old state. |
| AuthContext.AuthProvider.Logout | frontend/src/contexts/AuthContext.js:41-45 | The provider's new state is `AfterLogout` of its old state. |
| RegisterPage.Address | frontend/src/pages/Register.js:54-57 | An address assembled from a local part and two dot characters is nine characters longer than the local part. |
| RegisterPage.AddressIsValid | frontend/src/pages/Register.js:54-57 | Any non-empty local part over `[a-zA-Z0-9._-]`, followed by "@up", one character, "ac", one character and "th", is accepted. Each of those single characters is any UTF-16 unit except a line terminator. |
| RegisterPage.ValidEmailIsAddress | frontend/src/pages/Register.js:54-57 | Conversely, every accepted address has exactly that shape. |
| RegisterPage.CountMetBounds | frontend/src/pages/Register.js:91-99 | The number of criteria met is at most the number checked. It equals that number exactly when all are met, and is zero exactly when none is met. |
| RegisterPage.CalculatePasswordStrength | frontend/src/pages/Register.js:91-99 | The strength counts the criteria met: length of at least 6 UTF-16 units, a lower-case letter, an upper-case letter, a digit, a symbol from `$@#&!`. It is at most 5, is 5 exactly when all are met, and 0 exactly when none is. |
| RegisterPage.ColorMatchesLabel | frontend/src/pages/Register.js:101-105 | The bar colour and the strength caption agree: red goes with low, yellow with medium (strength 2 or 3), green with high. |
| RegisterPage.ValidFormHasMatchingPasswords | frontend/src/pages/Register.js:107-116 | A valid form has a non-empty confirmation that equals the password. |
| RegisterPage.RegisterForm.constructor | frontend/src/pages/Register.js:9-18 | The form starts empty: passwords match, the e-mail counts as available, nothing is loading, strength is 0. |
| RegisterPage.RegisterForm.PasswordEffect | frontend/src/pages/Register.js:22-25 | The effect re-establishes the match flag and the strength for the current passwords, and touches nothing else. |
| RegisterPage.RegisterForm.SetPassword | frontend/src/pages/Register.js:22-25 | Typing a password updates it, and (through the effect) the match flag and strength. |
| RegisterPage.RegisterForm.SetConfirmPassword | frontend/src/pages/Register.js:22-25 | Typing the confirmation updates it and the match flag. |
| RegisterPage.RegisterForm.SetEmail | frontend/src/pages/Register.js:151 | Typing the address changes only the address. |
| RegisterPage.RegisterForm.CheckEmail | frontend/src/pages/Register.js:27-52 | A request is sent exactly for a non-blank, pattern-valid address, and it carries the current address; availability then waits for the answer. Any other address counts as available at once. |
| RegisterPage.RegisterForm.ReceiveAvailability | frontend/src/pages/Register.js:34-44 | The answer decides availability, and a failed request counts as available, whatever the address is by then. |
| RegisterPage.StaleAnswerApplies | frontend/src/pages/Register.js:27-52 | An answer "taken" for an address that was checked, arriving after the user typed another address, marks the new address unavailable: the effect's cleanup cancels only the timer. |
| RegisterPage.RegisterForm.BeginSubmit | frontend/src/pages/Register.js:59-69 | An invalid form sends nothing and changes nothing. A valid form sends exactly (email, password), starts loading and clears the error. Whatever is sent has a valid address and matching passwords. When the submit button is enabled (Register.js:231), the request is sent. |
| RegisterPage.RegisterForm.FinishSubmit | frontend/src/pages/Register.js:69-81 | Loading ends. Success leads to the login page. Failure shows the server's message, or the default message when the server gives none. |
| LoginPage.AddressValidIff | frontend/src/pages/Login.js:37-40 | `local + "@up.ac.th"` is accepted exactly when `local` is a non-empty run of `[a-zA-Z0-9._-]`. |
| LoginPage.LoginEmailAcceptedAtRegistration | frontend/src/pages/Login.js:37-40 | Every address the login page accepts is accepted at registration too. |
| LoginPage.RegistrationAcceptsMore | frontend/src/pages/Register.js:55 | The converse fails: "a@upXacYth" can register but can never log in. |
| LoginPage.AfterFailure | frontend/src/pages/Login.js:58-59 | A failure sets a three-second cooldown and marks the password invalid. |
| LoginPage.NextSecond | frontend/src/pages/Login.js:25-35 | A running cooldown drops by one second; while it stays above 0 the password mark is kept, and when it reaches 0 the password is marked valid; with no cooldown nothing changes. The cooldown invariant is kept. |
| LoginPage.TicksCountDown | frontend/src/pages/Login.js:25-35 | After n seconds the cooldown is the old one minus n, floored at 0. Until it is over the password mark is kept; once it is over the password is valid again. |
| LoginPage.FailureLocksThreeSeconds | frontend/src/pages/Login.js:25-35 | After a failure the form is still locked, with the password marked invalid, after two seconds, and fully open after three. |
| LoginPage.DisabledIff | frontend/src/pages/Login.js:21-23 | The button is disabled exactly when the address is invalid, the password is blank, a request is in flight, or a cooldown runs. |
| LoginPage.ButtonLabel | frontend/src/pages/Login.js:143-144 | Loading text takes priority, then "รอ n วินาที" while a cooldown runs, otherwise the login caption. |
| LoginPage.LoginForm.constructor | frontend/src/pages/Login.js:10-17 | The form starts empty with no cooldown and a valid password mark. |
| LoginPage.LoginForm.SetEmail | frontend/src/pages/Login.js:21-23 | Typing the address updates it and the validity flag, and leaves the cooldown alone. |
| LoginPage.LoginForm.SetPassword | frontend/src/pages/Login.js:21-23 | Typing the password updates it and the validity flag, and leaves the cooldown alone. |
| LoginPage.LoginForm.Tick | frontend/src/pages/Login.js:25-35 | A timer tick advances the cooldown by `NextSecond` and changes nothing else. |
| LoginPage.LoginForm.BeginSubmit | frontend/src/pages/Login.js:42-50 | An invalid form or a running cooldown sends nothing. Otherwise (email, password) is sent, loading starts and the error is cleared. |
| LoginPage.LoginForm.FinishSubmit | frontend/src/pages/Login.js:50-62 | Success logs the returned user and token into the session and goes home. Failure shows the error and starts the cooldown. Loading ends either way. |
| ReportFields.EveryFieldIsAFormKey | frontend/src/pages/ReportForm.js:19-26 | Every form field is one of the six keys of the form object. |
| ReportFields.FormData.With | frontend/src/pages/ReportForm.js:34-41 | The edited field takes the new value and every other field keeps its value. |
| ReportFields.RequiredFieldErrors | frontend/src/pages/ReportForm.js:90-98 | There is an entry exactly for each failing field (blank name, room or details; empty building or category), with that field's message. |
| ReportFields.AddError | frontend/src/pages/ReportForm.js:91-96 | One check adds exactly the failing field's key, and keeps every entry its own field's message. |
| ReportFields.CheckedInOrderIsRequired | frontend/src/pages/ReportForm.js:90-98 | Running the five checks in their written order builds exactly the required-field error map. |
| ReportFields.ValidateSucceedsIff | frontend/src/pages/ReportForm.js:90-98 | Validation passes exactly when name, room and details are not blank and building and category are not empty. |
| ReportFields.FilledFormPassesValidation | frontend/src/pages/ReportForm.js:129 | A form whose submit button is enabled always passes validation. |
| ReportFields.ValidationIsLaxer | frontend/src/pages/ReportForm.js:90-129 | The converse fails: validation ignores the date and accepts a building of spaces, both of which the button test rejects. |
| ReportFields.PayloadOf | frontend/src/pages/ReportForm.js:107-113 | The payload holds the six form values under their keys, in form order, then the image under "image" when one is chosen. |
| ReportFields.ComposePayload | frontend/src/pages/ReportForm.js:107-113 | The append loop produces exactly `PayloadOf`. |
| ReportFields.PayloadKeys | frontend/src/pages/ReportForm.js:107-113 | A key occurs in the payload exactly when it is a form key, or "image" with an image chosen. |
| ReportFields.TextFields | frontend/src/pages/ReportForm.js:107-113 | The server's body has a key exactly when some text part carries it. |
| ReportFields.TextFieldsValue | frontend/src/pages/ReportForm.js:107-113 | When keys are distinct, the server reads each text part's value under its key. |
| ReportFields.FormKeyIsNotReserved | frontend/src/pages/ReportForm.js:19-26 | No form key is "image", `imagePath` or `createdBy`. |
| ReportFields.KeyInjective | frontend/src/pages/ReportForm.js:19-26 | Different fields have different keys. |
| ReportFields.PayloadBody | frontend/src/pages/ReportForm.js:107-113 | The server reads the submitted form back exactly: each form key carries its field's value, and there are no other keys. |
| ReportFormPage.ReportForm.constructor | frontend/src/pages/ReportForm.js:19-30 | The form starts empty except the date, which is the date part of the current timestamp. There is no image, no preview and no errors. |
| ReportFormPage.ReportForm.HandleChange | frontend/src/pages/ReportForm.js:34-41 | The field takes the value and its error becomes "". |
| ReportFormPage.ReportForm.HandleImageChange | frontend/src/pages/ReportForm.js:43-53 | A chosen file becomes the image and the preview; no file changes nothing. |
| ReportFormPage.ReportForm.HandleDrop | frontend/src/pages/ReportForm.js:67-79 | A dropped file is taken exactly when its type starts with "image/"; otherwise nothing changes. |
| ReportFormPage.ReportForm.HandleImageDelete | frontend/src/pages/ReportForm.js:55-61 | Image and preview are cleared. |
| ReportFormPage.ReportForm.Validate | frontend/src/pages/ReportForm.js:90-98 | The error map is replaced by the required-field errors, and the result is true exactly when there are none. |
| ReportFormPage.ReportForm.HandleSubmit | frontend/src/pages/ReportForm.js:101-113 | An invalid form sends nothing. A valid form sends `PayloadOf` the form and image. A form whose submit button is enabled (`isFormValid`) is always sent. |
| ReportFormPage.SubmittedFormIsStored | frontend/src/pages/ReportForm.js:101-121 | A created report stores each form value under its key, the caller as creator, and the upload's path when an image was sent, and no other keys. |
| EditReportFormPage.FormFromReport | frontend/src/pages/EditReportForm.js:44-51 | Each field is loaded from the stored document. The date is the part before the first 'T': a prefix of the stored value with no 'T', that stops only at a 'T' or at the end, so it is the whole stored value when that has none. |
| EditReportFormPage.EditReportForm.constructor | frontend/src/pages/EditReportForm.js:19-32 | The page starts loading, with an empty form dated today. |
| EditReportFormPage.EditReportForm.Load | frontend/src/pages/EditReportForm.js:37-78 | A fetched report with a date fills the form, previews its stored image when it has one, and ends loading. A failed fetch, or a report without a date (whose `split` throws), changes nothing and goes to the dashboard. |
| EditReportFormPage.EditReportForm.Submit | frontend/src/pages/EditReportForm.js:147-168 | An invalid form sends nothing. A valid form sends `PayloadOf` the form and image as a PATCH of the page's id. |
| EditReportFormPage.EditKeepsStoredImage | frontend/src/pages/EditReportForm.js:101-163 | Removing the preview sends no removal instruction: an edit without a new file keeps the stored image path. |
| EditReportFormPage.UntouchedEditChangesNothing | frontend/src/pages/EditReportForm.js:44-163 | Loading a report that has every field and a plain date, then submitting untouched, writes back exactly what was stored. |
| AdminPage.NotesOfKeys | frontend/src/pages/Admin.js:26-29 | There is a note entry for exactly the listed ids. |
| AdminPage.NotesOfValues | frontend/src/pages/Admin.js:26-29 | With distinct ids, each listed report's entry is its stored note, or "" when it has none. |
| AdminPage.StatusBody | frontend/src/pages/Admin.js:38 | The status change carries the status, and the edited note only when the page holds one for the id. |
| AdminPage.NoteBody | frontend/src/pages/Admin.js:65 | Saving carries the edited note only when the page holds one for the id. |
| AdminPage.StatusChangeTouchesOnlyStatusAndNote | frontend/src/pages/Admin.js:36-43 | After the server's merge the status is set and the note is set when sent. Every other field, the creator included, keeps its value. |
| AdminPage.SavingUneditedNoteChangesNothing | frontend/src/pages/Admin.js:26-65 | Saving the note shown right after a refresh leaves a report that has a note unchanged. |
| AdminPage.AdminPanel.constructor | frontend/src/pages/Admin.js:7-9 | The page starts with no reports, no error and no notes. |
| AdminPage.AdminPanel.FetchReports | frontend/src/pages/Admin.js:11-34 | A listing replaces the reports and rebuilds the notes as `NotesOf` the listing. A failure only sets "Failed to fetch reports". |
| AdminPage.AdminPanel.HandleNoteChange | frontend/src/pages/Admin.js:56-61 | Only the edited report's note changes. |
| AdminPage.AdminPanel.UpdateReport | frontend/src/pages/Admin.js:36-43 | Sends `StatusBody`. Success is followed by a refetch: a listing replaces reports and notes and leaves the error, a failed refetch only sets the fetch error. Failure sets "Failed to update report" and changes nothing else. |
| AdminPage.AdminPanel.DeleteReport | frontend/src/pages/Admin.js:45-54 | Nothing is sent or changed unless the user confirms. A confirmed delete is followed by a refetch on success (a listing replaces reports and notes and leaves the error; a failed refetch only sets the fetch error), or sets "Failed to delete report" on failure and changes nothing else. |
| AdminPage.AdminPanel.SaveNote | frontend/src/pages/Admin.js:63-70 | Sends `NoteBody`; only a failure changes state, setting "Failed to save note". |
| DashboardPage.UsernameFromEmail | frontend/src/pages/Dashboard.js:35-37 | The name shown is the prefix of the address before its first '@', and contains no '@'. |
| DashboardPage.UsernameOfUniversityAddress | frontend/src/pages/Dashboard.js:35-37 | For every address the login page accepts, the name shown is the part before "@up.ac.th". |
| DashboardPage.Greeting | frontend/src/pages/Dashboard.js:74-78 | The greeting appears exactly for a user with a non-empty e-mail, and shows that user's name. |
| DashboardPage.StatusColor | frontend/src/pages/Dashboard.js:104-110 | Yellow exactly for pending, blue exactly for in progress, green for anything else. |
| DashboardPage.StatusOptionsHaveDistinctColors | frontend/src/pages/Dashboard.js:104-110 | The three statuses the admin can choose get three different colours, and completed is green. |
| DashboardPage.Dashboard.constructor | frontend/src/pages/Dashboard.js:7-9 | The page starts loading with no reports and no error. |
| DashboardPage.Dashboard.BeginFetch | frontend/src/pages/Dashboard.js:18 | A fetch starts loading. |
| DashboardPage.Dashboard.FinishFetch | frontend/src/pages/Dashboard.js:19-27 | A listing replaces the reports and clears the error. A failure keeps the reports and sets the error message. Loading ends either way. |
| Text.TrimStart | frontend/src/pages/Register.js:111 | The result is a suffix of the input, whatever was removed is whitespace, and the result does not start with whitespace. |
| Text.TrimEnd | frontend/src/pages/Register.js:111 | The result is a prefix of the input, whatever was removed is whitespace, and the result does not end with whitespace. |
| Text.TrimEmptyIffBlank | frontend/src/pages/Login.js:22 | `trim()` gives "" exactly when every character is ECMAScript whitespace or a line terminator. |
| Text.Utf16Length | frontend/src/pages/Register.js:93 | `length` counts UTF-16 code units: between one and two per character. |
| Text.BeforeFirst | frontend/src/pages/Dashboard.js:36 | `split(sep)[0]` is a prefix without `sep` that stops at the first `sep` or at the end. |
| Text.BeforeFirstUnique | frontend/src/pages/Dashboard.js:36 | Any prefix with those properties is that result. |
| Text.NatToDecimal | frontend/src/pages/Login.js:144 | The decimal rendering of a count is non-empty, all digits, denotes the count (`DecimalValue`), and starts with a zero only for 0. |
| Domain.FieldOr | frontend/src/pages/Admin.js:28 | `report[key] \|\| ''` reads the stored value when the field is present, and "" otherwise. |

## Left out

- Mongoose persistence and the report schema are not modelled. `models/Report.js` is not part of this model. That leaves out:
  - defaults such as the initial status;
  - casting of the date and of ids;
  - the `CastError` that a malformed id raises;
  - the `updatedAt` stamp.
  `ReportStore.Create` takes the outcome of `save()` validation as the input `saved`.
- The catch branches that answer 500 on database failure (GET by id, GET all, DELETE) are not modelled. The store never fails.
- The `error: error.message` field of the 400 answers of PATCH and POST is not modelled; their bodies carry only the message.
- ReportRoutes.ReportStore.Patch: request bodies are maps from string to string, so JSON values other than strings are not modelled. In particular a JSON body `{"createdBy": null}` from the owner would be merged and leave a report without a creator, after which `report.createdBy.toString()` throws for every caller: PATCH answers 400 and DELETE answers 500. The store invariant that every report has a creator rules this case out.
- ReportRoutes.ReportStore.Delete: the 500 answer for a report whose creator was cleared by such a PATCH is not modelled, for the same reason.
- The upload middleware and the file system are left out. An uploaded file appears as its stored path; the deletion of an old image file is not modelled. Only the ReferenceError it raises, and its 400 answer, are modelled.
- The authentication middleware is left out. The caller's id and role are inputs. The edit page reads a `token` that the session provider does not supply, and request headers are not modelled.
- The admin-only PATCH /:id handler and the second POST / handler are not modelled because routing never reaches them.
- The `/counts` endpoints, the navigation bar, footer, history, progress and guide pages are presentation or context and are not modelled.
- Timers are explicit steps. That covers the 500 ms debounce of the availability check, the one-second cooldown timer and React's effect scheduling. `RegisterForm.CheckEmail` and `LoginForm.Tick` are called where the timer would fire, and `RegisterForm.ReceiveAvailability` where the answer arrives.
- `FileReader` is left out. The preview is set to the chosen file when it is chosen, not when reading ends.
- `formatFileSize` and the strength bar's width use floating point and are not modelled.
- Toast messages, `alert`, `window.confirm` (an input), console logging and navigation targets other than the returned flags are left out.
- Domain.FieldOr: a missing field reads as "" rather than `undefined`, so the edit page's fields that are absent from the stored document load as "". On the page, a missing `name`, `roomNumber` or `details` would make `trim()` throw at validation (EditReportForm.js:138-141); a missing `building` or `category` only gets its error entry.
- ReportRoutes.ReportStore.List: the order among reports with equal creation times is not fixed, just as the database's sort leaves it unspecified.
- EditReportFormPage.UntouchedEditChangesNothing: it assumes the stored date is already a plain date. The real schema stores a `Date`, which the server casts back from the date part, and that cast is not modelled.
