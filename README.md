# DoTask in Dafny

DoTask is a small task manager. An Express/SQLite JSON backend registers users, logs them in with bcrypt
password hashes and JSON Web Tokens, and serves per-user CRUD over a `tasks` table. A browser client keeps the
task list in memory and mirrors every successful call. The client exists twice: as classes (`AuthManager`,
`TaskManager`) and as the older procedural scripts (`auth.js`, `tasks.js`).

This project models:

- **the backend** (`Server`). The `users` and `tasks` tables are maps in a class `Store` with their two
  AUTOINCREMENT counters. The bearer-token middleware is a pure header parser followed by an abstract
  verification step. Each of the eight routes is a method whose contract gives the status and body for
  every branch, and the new tables.
- **the client task list** (`TaskList`, `TaskManagerComponent`, `TasksScript`). `tasksData`, the pending
  delete id, the task form and the handlers are modelled, each updating state only after its awaited call
  succeeds. The outcome of each call is a parameter.
- **the `Utils` helpers** (`Utils`). `getInitials`, and `validateEmail`, whose regular expression is
  rewritten as a scan that is proved equal to the pattern.
- **the authentication controller** (`AuthForms`, `AuthManagerComponent`, `AuthScript`). The login and
  registration validators of both clients are two separate functions. The three-view state machine, the
  stored token and the routing of a failed call to a field error or a toast are modelled too.
- **end-to-end sessions** (`ServerScenarios`, `EndToEnd`). These chain routes, and route responses handed to
  the client, and state what both sides hold afterwards.

bcrypt and JWT are the four function values of a `Crypto` datatype. `SoundCrypto` states the two facts the
libraries guarantee: a password matches its own hash, and a signed token verifies to its claims. Network
outcomes, the stored token, the date formatted by `toISOString` and the category select's default option
are parameters.

The model follows the code, including where it departs from what such an API usually does:

- A bearer-token API usually checks the scheme word; this middleware never checks "Bearer". Any header
  whose second space-separated word is non-empty is tried as a token (`TokenIsSecondWord`).
- A header with no second word, such as "Bearer" alone, gets 401 and not 403.
- A wrong login is not always a toast. Both clients put the server's "Invalid credentials" under the
  password field.
- The signing secret has a built-in default rather than being required at start-up. The secret is not
  modelled (see Left out).

## Model

| member | source | states |
|---|---|---|
| Text.JoinSplit | frontend/js/core/Utils.js:63-64 | joining the pieces of `split(sep)` with `sep` gives back the original string |
| Text.SplitPiecesAvoidSeparator | frontend/js/core/Utils.js:64 | no piece of `split(sep)` contains the separator |
| Text.ToLower | frontend/js/core/Utils.js:51 | same length; every character is the ASCII lower-case of the input character at that index |
| Text.ToUpper | frontend/js/core/Utils.js:67 | same length; every character is the ASCII upper-case of the input character at that index |
| Text.TextLeTotal | backend/server.js:167 | any two `due_date` texts are ordered one way or the other |
| Text.TextLeTransitive | backend/server.js:167 | the text order on `due_date` is transitive |
| Text.NatToString | frontend/js/tasks.js:211 | an id rendered into a URL is a non-empty run of decimal digits |
| Text.ParseIntNatToString | frontend/js/tasks.js:322 | `Number.parseInt` of an id rendered as text gives the id back |
| Utils.GetInitials | frontend/js/core/Utils.js:60-69 | a falsy name gives ""; the result has at most two characters and no lower-case ASCII letter |
| Utils.FirstCharsOfSplit | frontend/js/core/Utils.js:63-66 | the first characters of the `split(" ")` pieces are exactly the characters that start a word |
| Utils.InitialsAreWordStarts | frontend/js/core/Utils.js:63-68 | the initials are the first two word-start characters, upper-cased |
| Utils.InitialsOfOneWord | frontend/js/core/Utils.js:63-68 | a one-word name gives exactly its first character, upper-cased |
| Utils.WordStartsIgnoreRepeatedSpaces | frontend/js/core/Utils.js:64-65 | doubling a space anywhere leaves the word-start characters unchanged |
| Utils.InitialsIgnoreRepeatedSpaces | frontend/js/core/Utils.js:63-68 | empty pieces from repeated spaces contribute nothing: doubling a space leaves the initials unchanged |
| Utils.ScanAcceptsMatches | frontend/js/core/Utils.js:50 | every text the scan accepts matches `^[^\s@]+@[^\s@]+\.[^\s@]+$` |
| Utils.MatchesScanAccepts | frontend/js/core/Utils.js:50 | every match of the pattern is accepted by the scan |
| Utils.ValidateEmailIsPattern | frontend/js/core/Utils.js:49-52 | `validateEmail` is true exactly when the lower-cased text matches the pattern |
| Utils.LowerKeepsMatch | frontend/js/core/Utils.js:51 | lower-casing neither creates nor destroys a match at given "@" and "." positions |
| Utils.ValidateEmailIgnoresCase | frontend/js/core/Utils.js:51 | `validateEmail` is true exactly when the raw text matches the pattern, so case never matters |
| Utils.AcceptedEmailShape | frontend/js/core/Utils.js:50 | an accepted address has no white space and exactly one "@", which is not first, followed later by a "." that is neither the domain's first nor its last character |
| Server.NoSpaceNoToken | backend/server.js:63-68 | a header without a space carries no token (hence 401) |
| Server.TokenIsSecondWord | backend/server.js:64 | the token is the second space-separated word, whatever the scheme word is |
| Server.DoubleSpaceNoToken | backend/server.js:64-68 | two spaces after the scheme leave the second word empty: no token |
| Server.ClientHeaderRoundTrip | frontend/js/core/ApiService.js:21-26 | the middleware reads back exactly the token the client stored; no stored token is no token |
| Server.SignedTokenAuthenticates | backend/server.js:62-78 | a token the server signed, sent as the client sends it, authenticates as the claims it was signed with |
| Server.NewRow | backend/server.js:186-188 | the inserted row has the fresh id, the caller as owner, `completed` false and non-empty title and category |
| Server.UpdatedRow | backend/server.js:244-246 | id and owner are kept; title, category, description and due date are the body's; an omitted `completed` keeps the stored value, a `null` one stores NULL (read as false) and a given one is stored |
| Server.ToggleBodyOnlyFlips | frontend/js/components/TaskManager.js:301-307 | sending a row's own fields with `completed` negated flips `completed` and changes nothing else |
| Server.UpdateIdempotent | backend/server.js:244-246 | applying the same update twice equals applying it once |
| Server.DueLeTotal | backend/server.js:167 | any two due dates, NULL included, are ordered one way or the other |
| Server.DueLeTransitive | backend/server.js:167 | the due-date order is transitive |
| Server.InsertByDue | backend/server.js:167 | inserting into the listing adds exactly that row: one longer, same multiset plus the row |
| Server.InsertByDueMembers | backend/server.js:167 | after an insertion the listing holds exactly the old rows and the new one |
| Server.InsertByDueSorted | backend/server.js:167 | insertion keeps the listing ordered by due date |
| Server.InsertByDueDistinct | backend/server.js:167 | inserting a row with a new id keeps the ids distinct |
| Server.Store.constructor | backend/server.js:31-57 | empty tables satisfying the store invariant |
| Server.Store.Register | backend/server.js:87-122 | a missing field gives 400 "All fields are required" and a taken email gives 400 "Email already in use", both with the users table unchanged; otherwise exactly one user is inserted under the next id with the hashed password and 201 is returned; emails stay unique |
| Server.Store.Login | backend/server.js:124-159 | a missing field gives 400; 200 exactly when a user with that email has a matching password, with a token signed over that user's id, email and name; every other case gives the same 401 "Invalid credentials" |
| Server.Store.Validate | backend/server.js:161-163 | 401 without a token, 403 for a token that does not verify, otherwise 200 with the token's claims |
| Server.Store.ListTasks | backend/server.js:166-174 | the caller's rows and only theirs, each once, as stored, and dated rows in ascending date order |
| Server.Store.CreateTask | backend/server.js:176-208 | 401/403 before 400 for a missing title or category, both with no change; otherwise one new row under a fresh id, owned by the caller, `completed` false, returned with 201 |
| Server.Store.GetTask | backend/server.js:210-222 | the caller's own row with 200; an absent id and another user's row both give 404 |
| Server.Store.UpdateTask | backend/server.js:224-267 | 401/403, then 400 for a missing title or category, then 404 for an absent or foreign row, each with no change; otherwise only that row changes, to `UpdatedRow`, and is returned |
| Server.Store.DeleteTask | backend/server.js:269-289 | 404 for an absent or foreign row with no change; otherwise exactly that row is removed |
| ServerScenarios.RegisterThenLogin | backend/server.js:87-159 | after registering, logging in with the same credentials yields a token for the new user's id, email and name |
| ServerScenarios.RegisterTwice | backend/server.js:97-104 | a second registration of the same email is refused and the table grows by one user only |
| ServerScenarios.CreateThenGet | backend/server.js:176-222 | a created task fetched back has `completed` false and the submitted title, category and due date (NULL included) |
| ServerScenarios.OtherUserGetsNotFound | backend/server.js:210-289 | get, update and delete by another user all answer 404, and the table is the old one plus exactly the owner's new row |
| ServerScenarios.DeleteTwice | backend/server.js:269-289 | after a delete the row is in no listing, and a second delete answers 404 |
| ServerScenarios.EarlierDueListedFirst | backend/server.js:167 | in a listing, a row dated strictly earlier comes before a row dated later |
| ServerScenarios.JanuaryBeforeMarch | backend/server.js:167 | a listing puts the task due 2024-01-01 before the task due 2024-03-01 |
| TaskList.ScriptAuthHeader | frontend/js/tasks.js:42 | the scripts always send a header starting "Bearer " |
| TaskList.ScriptHeaderAgreesWhenStored | frontend/js/tasks.js:215 | with a token stored, the scripts' header equals the ApiService header |
| TaskList.ScriptHeaderWithoutToken | frontend/js/tasks.js:197-215 | without a token the scripts send the token "null" and get 403 where the ApiService's empty header gets 401 |
| TaskList.FindById | frontend/js/components/TaskManager.js:296 | `find` gives nothing exactly when no entry has the id, and otherwise an entry of the list with that id |
| TaskList.FindByIdFirst | frontend/js/components/TaskManager.js:296 | `find` returns the first entry with the id |
| TaskList.Toggled | frontend/js/components/TaskManager.js:314 | same length and order; each entry differs at most in `completed`, which changes exactly in the entries with that id |
| TaskList.ToggleTwice | frontend/js/components/TaskManager.js:314 | toggling the same id twice restores the list |
| TaskList.ToggleAgreesWithServer | frontend/js/components/TaskManager.js:301-314 | the toggled entry equals the row the server stores for the request the client sent |
| TaskList.ToggledCopiesAgree | frontend/js/tasks.js:203-228 | if every copy of the task was the stored row, every copy after the toggle is the server's new row |
| TaskList.Replaced | frontend/js/components/TaskManager.js:392 | same length and order; entries with the parsed id become the server's row and all others are untouched |
| TaskList.ReplaceAbsent | frontend/js/components/TaskManager.js:392 | an edit whose id no entry has leaves the list unchanged |
| TaskList.ReplaceIdempotent | frontend/js/components/TaskManager.js:392 | repeating an edit with the same row changes nothing more |
| TaskList.EditFormMatchesItsTask | frontend/js/components/TaskManager.js:392 | an edit opened from a task matches exactly that task's entries once its id is parsed back |
| TaskList.Without | frontend/js/components/TaskManager.js:419 | the remaining entries are exactly those without the id, and the list does not grow |
| TaskList.WithoutConcat | frontend/js/tasks.js:358 | filtering distributes over concatenation, so the remaining entries keep their relative order |
| TaskList.WithoutAbsent | frontend/js/tasks.js:358 | deleting an id no entry has leaves the list unchanged |
| TaskList.WithoutPresentShrinks | frontend/js/tasks.js:358 | deleting an id some entry has shortens the list |
| TaskList.NewTaskForm | frontend/js/components/TaskManager.js:329-338 | the creation form has the "Nova Tarefa" heading, an empty id, empty inputs, the default category, the box unchecked and the date enabled |
| TaskList.EditTaskForm | frontend/js/components/TaskManager.js:345-367 | the edit form carries the task's id (parsed back to that id), title, category and description or ""; a falsy due date checks the box and disables an empty date input; a formatted date unchecks and enables it |
| TaskList.NoDueDateChanged | frontend/js/components/TaskManager.js:55-62 | checking the box empties and disables the date input, unchecking enables it, nothing else changes |
| TaskList.DueDateChanged | frontend/js/components/TaskManager.js:65-69 | a non-empty date unchecks the box, nothing else changes |
| TaskList.Submitted | frontend/js/components/TaskManager.js:110-115 | the payload's due date is null exactly when "no due date" is checked, and is otherwise the date input |
| TaskList.EditUnchangedRewritesTwoColumns | frontend/js/components/TaskManager.js:345-392 | saving an edit form as it opened PUTs to the task's own item, replaces its entries, and rewrites only description (NULL becomes "") and due date |
| TaskList.DateListenersDecidePayload | frontend/js/tasks.js:424-438 | entering a date sends it; checking "no due date" afterwards sends null |
| TaskList.SaveRequest | frontend/js/tasks.js:297-310 | PUT to `/api/tasks/<id>` exactly when the id field is non-empty, POST to `/api/tasks` otherwise, with the payload |
| TaskList.AfterSave | frontend/js/tasks.js:320-327 | an edit keeps the length; a creation appends the server's row after unchanged entries |
| TaskManagerComponent.TaskManager.constructor | frontend/js/components/TaskManager.js:17-38 | empty list, no pending delete, modal and form closed |
| TaskManagerComponent.TaskManager.LoadTasks | frontend/js/components/TaskManager.js:124-139 | success replaces the list wholesale, failure keeps it and shows the error toast |
| TaskManagerComponent.TaskManager.ToggleTaskCompletion | frontend/js/components/TaskManager.js:294-323 | an unknown id sends nothing and changes nothing; otherwise the body copies the task with `completed` negated, and only success flips the entries with that id |
| TaskManagerComponent.TaskManager.OpenNewTaskForm | frontend/js/components/TaskManager.js:329-338 | the form becomes the blank creation form and is shown |
| TaskManagerComponent.TaskManager.OpenEditTaskForm | frontend/js/components/TaskManager.js:345-367 | the form is filled from the task; it is shown unless formatting the due date throws |
| TaskManagerComponent.TaskManager.CloseTaskForm | frontend/js/components/TaskManager.js:373-375 | the form is hidden and its inputs kept |
| TaskManagerComponent.TaskManager.OnNoDueDateChange | frontend/js/components/TaskManager.js:55-62 | the form changes as `NoDueDateChanged` says |
| TaskManagerComponent.TaskManager.OnDueDateChange | frontend/js/components/TaskManager.js:65-69 | the form changes as `DueDateChanged` says |
| TaskManagerComponent.TaskManager.SaveTask | frontend/js/components/TaskManager.js:382-407 | an edit exactly when the id field is non-empty; success edits or appends and closes the form; failure keeps the list |
| TaskManagerComponent.TaskManager.HandleTaskFormSubmit | frontend/js/components/TaskManager.js:107-118 | the request carries the form's payload, whose due date is null exactly when the box is checked |
| TaskManagerComponent.TaskManager.DeleteTask | frontend/js/components/TaskManager.js:414-426 | success removes every entry with the id; failure keeps the list |
| TaskManagerComponent.TaskManager.ShowDeleteConfirmation | frontend/js/components/TaskManager.js:261-267 | the id is remembered and the modal opened |
| TaskManagerComponent.TaskManager.CloseDeleteConfirmation | frontend/js/components/TaskManager.js:273-276 | the modal is closed and the id reset to null |
| TaskManagerComponent.TaskManager.ConfirmDelete | frontend/js/components/TaskManager.js:88-95 | with a truthy pending id, DELETE it, filter it out on success, show the success or failure toast, close the modal and reset the id to null; otherwise nothing at all |
| TasksScript.TasksPage.constructor | frontend/js/tasks.js:1-23 | empty list, no pending delete, modal and form closed |
| TasksScript.TasksPage.LoadTasks | frontend/js/tasks.js:35-65 | no stored token sends nothing and changes nothing; success replaces the list wholesale |
| TasksScript.TasksPage.ToggleTaskCompletion | frontend/js/tasks.js:195-238 | an unknown id sends nothing and changes nothing; otherwise the body negates `completed`, and only success flips that id's entries |
| TasksScript.TasksPage.OpenNewTaskForm | frontend/js/tasks.js:241-256 | the form becomes the blank creation form and is shown |
| TasksScript.TasksPage.OpenEditTaskForm | frontend/js/tasks.js:259-286 | the form is filled from the task; it is shown unless formatting the due date throws |
| TasksScript.TasksPage.CloseTaskForm | frontend/js/tasks.js:289-292 | the form is hidden and its inputs kept |
| TasksScript.TasksPage.OnNoDueDateChange | frontend/js/tasks.js:424-431 | the form changes as `NoDueDateChanged` says |
| TasksScript.TasksPage.OnDueDateChange | frontend/js/tasks.js:434-438 | the form changes as `DueDateChanged` says |
| TasksScript.TasksPage.SaveTask | frontend/js/tasks.js:295-337 | PUT or POST by the id field; success edits or appends and closes the form; failure keeps the list |
| TasksScript.TasksPage.SubmitTaskForm | frontend/js/tasks.js:453-464 | the request carries the form's payload, whose due date is null exactly when the box is checked |
| TasksScript.TasksPage.DeleteTask | frontend/js/tasks.js:340-366 | success filters out the entries with the id; failure keeps the list |
| TasksScript.TasksPage.ShowDeleteConfirmation | frontend/js/tasks.js:173-179 | the id is remembered and the modal opened |
| TasksScript.TasksPage.CloseDeleteConfirmation | frontend/js/tasks.js:182-185 | the modal is closed and the id reset to null |
| TasksScript.TasksPage.ConfirmDelete | frontend/js/tasks.js:469-474 | with a truthy pending id, DELETE it, filter it out on success, show the success or failure toast, close the modal and reset the id to null; otherwise nothing at all |
| AuthForms.ContainersFor | frontend/js/components/AuthManager.js:241-277 | exactly one container is visible, the view's own |
| AuthForms.ChangeFor | frontend/js/components/AuthManager.js:241-277 | the notification names the view and says authenticated exactly for the tasks view |
| AuthForms.CheckNewEmail | frontend/js/components/AuthManager.js:184-190 | no error exactly when the email is non-empty and passes `validateEmail`; "E-mail inválido" exactly when it is non-empty and fails |
| AuthForms.CheckNewPassword | frontend/js/components/AuthManager.js:192-198 | no error exactly when the password has at least six characters; at most one error, on the password field |
| AuthForms.LoginErrors | frontend/js/components/AuthManager.js:116-129 | no error (so a request) exactly when email and password are both non-empty; each missing one is flagged on its own field |
| AuthForms.RegisterErrors | frontend/js/components/AuthManager.js:177-200 | no error exactly when the name is non-empty, the email is non-empty and passes `validateEmail`, and the password has at least six characters; one error per field at most |
| AuthForms.LegacyRegisterErrors | frontend/js/auth.js:190-210 | no error exactly when name and email are non-empty and the password has at least six characters; never an email-format error |
| AuthForms.RegisterIsLegacyPlusEmailFormat | frontend/js/components/AuthManager.js:187 | the component accepts exactly what auth.js accepts and `validateEmail` passes; name and password errors coincide |
| AuthForms.LegacyAcceptsMalformedEmail | frontend/js/auth.js:197-200 | auth.js sends a registration for the address "ana", which the component refuses as malformed |
| AuthForms.LoginFailure | frontend/js/auth.js:159-163 | "Invalid credentials" goes under the password field exactly; anything else is an error toast with the message, or a generic text when it is empty |
| AuthForms.RegisterFailure | frontend/js/auth.js:245-249 | "Email already in use" goes under the email field exactly; anything else is an error toast |
| AuthManagerComponent.AuthManager.constructor | frontend/js/components/AuthManager.js:18-34 | the stored token, the page's containers, no errors and both buttons enabled |
| AuthManagerComponent.AuthManager.ShowLoginView | frontend/js/components/AuthManager.js:241-249 | only the login container is visible and the notification says not authenticated |
| AuthManagerComponent.AuthManager.ShowRegisterView | frontend/js/components/AuthManager.js:255-263 | only the register container is visible and the notification says not authenticated |
| AuthManagerComponent.AuthManager.ShowTasksView | frontend/js/components/AuthManager.js:269-277 | only the tasks container is visible and the notification says authenticated |
| AuthManagerComponent.AuthManager.CheckAuthStatus | frontend/js/components/AuthManager.js:80-98 | no token shows the login view without a request; a validated token shows the tasks view; a failed validation removes the token, shows the login view and says the session expired |
| AuthManagerComponent.AuthManager.SendLogin | frontend/js/components/AuthManager.js:131-154 | success stores the returned token and shows the tasks view; failure keeps the token and view; the button ends enabled |
| AuthManagerComponent.AuthManager.HandleLogin | frontend/js/components/AuthManager.js:105-155 | invalid input sends nothing and shows its errors; otherwise as `SendLogin`, with the errors cleared |
| AuthManagerComponent.AuthManager.SendRegistration | frontend/js/components/AuthManager.js:202-224 | success shows the login view; failure keeps the view; the token is never touched; the button ends enabled |
| AuthManagerComponent.AuthManager.HandleRegister | frontend/js/components/AuthManager.js:162-225 | invalid input, a malformed email included, sends nothing and shows its errors; otherwise as `SendRegistration` |
| AuthManagerComponent.AuthManager.Logout | frontend/js/components/AuthManager.js:231-235 | the token is removed and the login view shown |
| AuthScript.AuthPage.constructor | frontend/js/auth.js:91-95 | the stored token, the page's containers, no errors and both buttons enabled |
| AuthScript.AuthPage.ShowLoginView | frontend/js/auth.js:40-44 | only the login container is visible |
| AuthScript.AuthPage.ShowRegisterView | frontend/js/auth.js:47-51 | only the register container is visible |
| AuthScript.AuthPage.ShowTasksView | frontend/js/auth.js:54-65 | only the tasks container is visible, and the tasks are loaded when a token is stored |
| AuthScript.AuthPage.CheckAuthStatus | frontend/js/auth.js:7-37 | no token shows the login view; a validated token enters the tasks view; a failed validation removes the token, shows the login view and says the session expired |
| AuthScript.AuthPage.SendLogin | frontend/js/auth.js:127-169 | success stores the token and enters the tasks view; failure keeps token, view and list; the button ends enabled |
| AuthScript.AuthPage.SubmitLogin | frontend/js/auth.js:98-170 | invalid input sends nothing and shows its errors; otherwise as `SendLogin` |
| AuthScript.AuthPage.SendRegistration | frontend/js/auth.js:214-255 | success shows the login view; failure keeps the view; the button ends enabled |
| AuthScript.AuthPage.SubmitRegistration | frontend/js/auth.js:174-256 | checked by `LegacyRegisterErrors`, with no email-format rule; invalid input sends nothing |
| AuthScript.AuthPage.Logout | frontend/js/auth.js:276-280 | the token is removed and the login view shown |
| EndToEnd.Reply | frontend/js/core/ApiService.js:73-79 | resolves exactly for a 2xx status; a rejection carries the body's non-empty error, or else a non-empty generic text |
| EndToEnd.ValidationReply | frontend/js/core/ApiService.js:45-50 | resolves exactly for a 2xx validation answer, to the user it names; a non-2xx answer throws the same non-empty message as `Reply`, the body's error or "Erro na requisição: <status>" |
| EndToEnd.RowReply | frontend/js/core/ApiService.js:102-108 | resolves exactly for a 2xx row answer, to that row; a non-2xx answer throws the same non-empty message as `Reply` |
| EndToEnd.WrongPasswordFlagsPasswordField | backend/server.js:139-153 | an unknown email or a wrong password puts the credentials error under the password field and keeps the token and view |
| EndToEnd.ServerRegisters | backend/server.js:87-122 | a filled-in form with a new address stores the user under the next id and resolves |
| EndToEnd.LoginThroughPage | frontend/js/components/AuthManager.js:136-141 | logging in stores the token the server signed for that user and shows the tasks view |
| EndToEnd.PageRegistered | frontend/js/components/AuthManager.js:207-211 | an accepted registration shows the login view with the success toast and keeps the token |
| EndToEnd.RegisterThroughPage | frontend/js/components/AuthManager.js:162-225 | a valid registration stores the user on the server and moves the page to the login view |
| EndToEnd.LoginThenReload | frontend/js/components/AuthManager.js:80-98 | after login, the reload's validation accepts the stored token as that user and the page stays in the tasks view |
| EndToEnd.RegisterLoginReload | backend/server.js:87-163 | register, log in and reload: the page holds the token for the new user and the server validates it as that user |
| EndToEnd.ToggleKeepsClientInStep | frontend/js/components/TaskManager.js:294-323 | after a toggle the server's row is flipped and every client copy of the task equals it |

## Left out

- The 500 answers are not modelled: database errors, failed inserts and the `try`/`catch` around each route. The store never fails.
- The `created_at` column and its clock are left out. SQLite stores `completed` as 0 or 1; it is a boolean here.
- Server.UpdatedRow: a `completed: null` in an update body is stored as false, where SQLite stores NULL. The client reads both as false, but the row it gets back carries `null` rather than `false`.
- bcrypt and JWT internals, token expiry and the JWT_SECRET default are left out. `Crypto` is abstract, and `SoundCrypto` is assumed only where a scenario needs it.
- Hashing is a function, so the same password always gives the same hash. This is harmless, because only `compare` is ever used on a hash.
- The race between the ownership check and the UPDATE or DELETE is not modelled, since the model is sequential.
- Static file serving, the catch-all route and server start-up are file-system and process I/O.
- `req.params.id` is an integer here. Text ids that SQLite would not match, such as "abc", are not modelled.
- Server.Store.ListTasks: places NULL due dates first, as SQLite does, but its contract states only the order of dated rows: SQLite decides where NULL sorts, and the API does not promise it.
- Server.Store.ListTasks: its date order holds only for due dates that do not read as numbers, such as the client's `YYYY-MM-DD`. The `due_date DATETIME` column has NUMERIC affinity, so SQLite stores a due date such as "9" or "10" as a number and lists it numerically, before all text. The model compares every due date as text.
- DOM rendering is left out: `renderTasks`, `createTaskElement`, `toggleTaskDetails`, `formatDate`, and the new-user hint with its timers and `hintShown` flag.
- `new Date(...).toISOString()` in `openEditTaskForm` is not modelled, because it depends on the time zone. Its `YYYY-MM-DD` result is the parameter `isoDate`, and `None` stands for the throw on an invalid date.
- What the category select resets to is the parameter `defaultCategory`.
- User typing into the title, description and category inputs is not an operation. Those form fields are set directly.
- Utils.GetInitials: takes whole characters, where `charAt(0)` and `substring(0, 2)` count UTF-16 code units. A word starting with a character outside the Basic Multilingual Plane differs: for "😀 Bob" the code returns the emoji's two code units alone, and the model returns the emoji followed by "B".
- Case mapping is ASCII only. Password length counts characters, not UTF-16 code units, so astral characters are treated differently.
- JSON values of the wrong type in request bodies (numbers, objects) are not modelled. Body members are optional strings, and a task body's `completed` is absent, `null` or a boolean.
- `parseInt` reads decimal text only. Its "0x" prefix is not modelled, and ids never carry one.
- ApiService is folded into the header function `ClientAuthHeader` and the reply functions of `EndToEnd`. NotificationSystem, BaseComponent, UIManager, app.js and create-user.js are not part of this model. A toast is the `notice` field holding the last one shown.
- The DOM containers, forms and buttons are assumed present, so the `if (element)` guards always pass.
- `init` calling `checkAuthStatus` is modelled as the caller running `CheckAuthStatus` after the constructor.
- tasks.js declares a second global `showTasksView` that only shows the tasks container and loads the tasks. Which declaration wins depends on script order, which is not modelled. `AuthScript.AuthPage.ShowTasksView` covers the behaviour both share.
- Each client component keeps its own last-notice field, whereas the page shares one notification area.
