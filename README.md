# Student record form: a Dafny model

The system is a small web form for student records. A record has seven text fields: `studentId`, `firstName`, `lastName`, `email`, `birthDate`, `enrollmentDate` and `program`. Two interchangeable back ends store records in a `students` table and serve the same JSON API:

- a PHP script (`server.php`);
- an Express server (`server.js`).

The API has four operations:

- check whether an ID exists;
- fetch a record;
- create a record;
- update a record's six non-key columns.

The page script (`app.js`) drives the form. The user types an ID and the page checks it. A found record is loaded and can be updated. A missing ID opens the form for a new entry. Save and Update validate the form before they send anything.

The model has five modules:

- `Text` (`text.dfy`): substring search, as both languages' `strpos`/`includes` use it.
- `Students` (`students.dfy`): the shared data.
  - The row and column datatypes.
  - The table with its two unique constraints, on the key and on `email`.
  - The INSERT and UPDATE statements as functions.
  - A `Database` class whose methods execute them in place.
  - The JSON response shapes.
- `PhpServer` (`php_server.dfy`): the PHP back end.
  - `validateStudentData` as a specification function plus a method that appends each check's message in turn, as the source does.
  - The four handlers, each as an outcome function, a method on the `Database`, or both.
  - The dispatcher on method and URI.
  - Lemmas about what validation reports and about sequences of requests.
- `ExpressServer` (`express_server.dfy`): the Express back end's four handlers. They check JavaScript truthiness and, on create, one date comparison. They rely on the store for uniqueness. The module also compares this back end with the PHP one.
- `FormController` (`form_controller.dfy`): the page.
  - JavaScript `String.prototype.trim` and the email pattern `/^[^\s@]+@[^\s@]+\.[^\s@]+$/`, each characterized by an independent definition.
  - `validateForm`.
  - The three `fetch` helpers.
  - The form's state transitions as pure functions.
  - A `StudentForm` class whose fields are the inputs' values, their `disabled` flags and the status notice. Its methods are the page's handlers, each proved against the matching transition function.

## Environment as parameters

The model makes these external behaviours into parameters:

- PHP's `filter_var(..., FILTER_VALIDATE_EMAIL)` and `new DateTime(...)`: the `PhpServer.PhpLibrary` parameter.
- JavaScript `new Date(...)`: a parameter `jsDate: string -> Option<int>`. `None` stands for an unparsable date (NaN).
- The reply each `fetch` receives: a `Reply` parameter. It is one of:
  - an OK body;
  - a status that is not OK;
  - a rejected promise.

## Behaviour the proofs bring out

These are consequences of the code as written. Where a comment or a branch in the source shows a different intent, that intent is cited beside the behaviour.

- **ID field after Reset.** `initializeForm` is commented "Disable all inputs except studentId" (`app.js:34`), but it never sets the ID field's flag (`app.js:30-57`). When a record is found, the ID field is locked (`app.js:272`). After that, Reset leaves every input and both submit buttons disabled, and nothing on the page enables them again (`FormController.ResetAfterFoundRecordLocksForm`).
- **Duplicate notice on save.** `handleSave` shows "Student ID or email already exists" when the thrown error's text contains "already exists" (`app.js:364-365`). Both back ends refuse a duplicate with status 400, and `saveRecord` turns every such reply into "Server error: <status>" (`app.js:201-203`). That text never contains "already exists", so a server refusal always shows the generic failure. Only a rejected `fetch` whose own message contains the phrase reaches the duplicate notice (`FormController.SaveStep`, `FormController.RejectedCreateNeverReportsDuplicate`).
- **Dates that do not parse.** The Express server (`server.js:102-104`) and the page (`app.js:153-163`) refuse an enrollment date at or before the birth date. They compare `new Date(...)` values. A date that does not parse is NaN, and every comparison with NaN is false, so such a date passes both checks (`ExpressServer.UnparsableDateIsNotRejected`).
- **Email collision on update.** PHP checks the email against the other rows and answers 400 "Email already exists for another student" (`server.php:271-280`). Express does not check, so the store's unique constraint makes the UPDATE fail, and it answers 500 with the store's error text (`server.js:135-138`; `ExpressServer.EmailCollisionOnUpdate`).
- **Update of a missing ID.** Both back ends validate the body before they look the ID up (`server.php:254-269`, `server.js:127-142`). An invalid body for a missing ID is answered 400, not 404 (`PhpServer.UpdateOutcome`, `ExpressServer.UpdateOutcome`).
- **Validation differs between the two back ends and the page.**
  - Only the PHP server checks the ID pattern.
  - Only PHP and the page check the email's form.
  - PHP's `empty("0")` refuses a "0" name that Express accepts (`ExpressServer.ZeroNameOnlyExpressAccepts`).
  - No side checks `program` against the select's options.

## Model

| member | source | states |
|---|---|---|
| Students.InsertRow | server.js:106-115 | An INSERT is refused exactly when the key or the email is already present, and then the table is unchanged. Otherwise it adds exactly that row and keeps the table's key and email uniqueness. |
| Students.UpdateRow | server.js:131-142 | An UPDATE by key matches 0 rows when the key is absent. It is refused exactly when another row holds the new email. Otherwise it overwrites that row's six columns and nothing else. The key set and uniqueness are preserved. |
| Students.WithColumns | server.php:283-286 | Each of the six columns an UPDATE sets (names, email, both dates, program) takes the new value, and the key is kept. |
| Students.Database.constructor | server.php:12-34 | The connection starts on a table that satisfies the uniqueness invariant. |
| Students.Database.Insert | server.php:225-240 | Executing an INSERT changes the stored table exactly as `InsertRow` says, and keeps the invariant. |
| Students.Database.Update | server.php:283-298 | Executing an UPDATE changes the stored table exactly as `UpdateRow` says, and keeps the invariant. |
| PhpServer.IdPatternExamples | server.php:50 | `/^[A-Z0-9]+$/`, with PCRE `$` also matching before a final newline: concrete IDs accepted and refused. |
| PhpServer.ValidateStudentData | server.php:47-89 | The method's checks, run one after another, collect exactly the messages of the validation function. |
| PhpServer.ValidationErrorsShape | server.php:47-89 | The validator reports no message exactly when every rule holds. It reports at most eight messages, in rule order, and a rule's message exactly when that rule is broken. |
| PhpServer.ReportsRule | server.php:47-89 | A rule's message is reported if and only if the rule is broken. |
| PhpServer.ValidationErrorsInOrder | server.php:48-88 | The messages are the concatenation of the eight checks in source order. |
| PhpServer.StudentIdError | server.php:50-52 | The ID message is never reported when the ID check is off. When it is on, the message is reported exactly when the ID is empty or does not match the pattern. |
| PhpServer.EmptyDateReportsOnlyRequired | server.php:79-86 | With an empty date, the date-order message is not reported, and the missing date's "required" message is. |
| PhpServer.ValidFieldsPresent | server.php:47-89 | Data with no messages has every field non-empty and a valid email. Its ID matches the pattern when checked, and its birth date comes before its enrollment date. |
| PhpServer.HandleCheckStudent | server.php:133-164 | An empty ID is refused with 400. Otherwise the answer is 200, with `exists` true and the stored row exactly when the ID is stored. |
| PhpServer.HandleGetRecord | server.php:166-194 | An empty ID is refused with 400. Otherwise the answer is 200 with the row exactly when the ID is stored, and 404 "Record not found" otherwise. |
| PhpServer.CreateOutcome | server.php:196-247 | The create is answered 200 exactly when validation passes and neither the ID nor the email is stored, and then the table gains exactly that row. Every refusal is a 400 that leaves the table unchanged, checked in order: validation, ID, email. The invariant is kept. |
| PhpServer.HandleCreateStudent | server.php:196-247 | The handler's answer and its change to the database are those of `CreateOutcome`. |
| PhpServer.UpdateOutcome | server.php:249-305 | The update is answered 200 exactly when the ID is non-empty, validation passes, the ID is stored and no other row holds the email. Each failure has its own answer, in the source's order. An empty ID gives 400 "Student ID is required". Then an invalid body gives 400 with the validator's messages. Then a missing row gives 404, and another row's email gives 400. Every failure leaves the table unchanged. The key set and the invariant are kept. |
| PhpServer.HandleUpdateStudent | server.php:249-305 | The handler's answer and its change to the database are those of `UpdateOutcome`. |
| PhpServer.LastSegment | server.php:92-94 | The ID taken from the path is its suffix after the last `/`, and contains no `/`. |
| PhpServer.Route | server.php:92-131 | The endpoint chosen for each method and URI: OPTIONS is the preflight that ends the script before routing (server.php:8-11), GET with "check", then "record", POST to ".../create" and PUT with "update". A GET, POST or PUT matching none of these is an unknown endpoint, any other method is refused, and the ID is the last path segment. |
| PhpServer.RecordUriWithCheckRoutesToCheck | server.php:97-104 | A record URI whose ID contains "check" is routed to the check endpoint. |
| PhpServer.Dispatch | server.php:92-131 | Each routed request is answered by its handler, and only create and update can change the table. The preflight is answered 200 with no body, an unknown endpoint 404 "Endpoint not found", and a method other than GET, POST, PUT or OPTIONS 405. The invariant is kept. |
| PhpServer.Serve | server.php:92-131 | Serving a request changes the database and answers as `Dispatch` says. |
| PhpServer.CreateThenCheck | server.php:225-240 | After a successful create, checking and fetching the new ID find exactly the created row. |
| PhpServer.UpdateKeepingOwnEmail | server.php:271-280 | A valid update of a stored student that keeps that student's own email always succeeds. |
| PhpServer.UpdateTouchesOneRow | server.php:283-286 | A successful update leaves every other student's row unchanged. |
| ExpressServer.HandleCheck | server.js:38-65 | The answer is always 200, with `exists` true and the stored row exactly when the ID is stored. |
| ExpressServer.HandleRecord | server.js:68-91 | The answer is 200 with the row exactly when the ID is stored, and 404 "Record not found" otherwise. |
| ExpressServer.CreateOutcome | server.js:94-119 | The create is answered 200 exactly when every field is truthy, the dates are not in the wrong order, and the INSERT succeeds. Otherwise it is a 400 that leaves the table unchanged: missing fields, then date order, then duplicate. |
| ExpressServer.HandleCreate | server.js:94-119 | The handler's answer and its change to the database are those of `CreateOutcome`. |
| ExpressServer.UpdateOutcome | server.js:122-146 | Missing columns give 400, and a missing ID gives 404. A collision gives 500 exactly when the row exists and another row holds the email. Otherwise the answer is 200 and the row's columns are overwritten. The key set and the invariant are kept. |
| ExpressServer.HandleUpdate | server.js:122-146 | The handler's answer and its change to the database are those of `UpdateOutcome`. |
| ExpressServer.CreateThenLookup | server.js:106-117 | After a successful create, check and record lookups find exactly the created row. |
| ExpressServer.UnparsableDateIsNotRejected | server.js:102-104 | An enrollment date `new Date` cannot parse passes the date-order check, so the create succeeds. |
| ExpressServer.CreateAgreesWhenPhpAccepts | server.js:94-119 | When the PHP server accepts a create and the two date parsers agree, the Express server answers it and changes the table identically. |
| ExpressServer.ZeroNameOnlyExpressAccepts | server.js:98-100 | A first name "0" is truthy in JavaScript, so Express accepts it. It is `empty()` in PHP, so PHP refuses it with the first-name message. |
| ExpressServer.EmailCollisionOnUpdate | server.js:135-138 | An update to another student's email is a 400 with a message in PHP, and a 500 store error in Express. Both leave the table unchanged. |
| FormController.TrimStart | app.js:101 | Leading white space removed: the result is no longer than its input and does not start with white space. |
| FormController.TrimStartSplits | app.js:101 | The input is white space followed by the result. |
| FormController.TrimEnd | app.js:101 | Trailing white space removed: the result is no longer than its input and does not end with white space. |
| FormController.TrimEndSplits | app.js:101 | The input is the result followed by white space. |
| FormController.Trim | app.js:101-122 | `trim()` is empty exactly when the input is all white space. A non-empty result starts and ends with a character that is not white space. |
| FormController.TrimIsInfix | app.js:101-122 | `trim()` is a contiguous part of its input, with only white space before and after it. |
| FormController.TrimOfTrimmed | app.js:341-345 | Trimming a trimmed string changes nothing. |
| FormController.MatchHasEmailShape | app.js:169-172 | A string the pattern matches has no white space and one `@` with text before it. It has a `.` after the `@` that has at least one character on each side. |
| FormController.EmailShapeMatches | app.js:169-172 | Every string of that shape matches the pattern. |
| FormController.EmailPatternCharacterized | app.js:169-172 | The pattern matches exactly the strings of that shape. |
| FormController.ValidEmailIsTrimmed | app.js:122-130 | An email that matches the pattern is non-blank and is its own `trim()`. |
| FormController.Decimal | app.js:180 | `${status}` is a non-empty string of decimal digits. |
| FormController.DecimalRoundTrip | app.js:180 | Reading the decimal text back gives the status. |
| FormController.ServerErrorIsNotDuplicate | app.js:201-203 | "Server error: <status>" never contains "already exists". |
| FormController.ApiCall | app.js:175-232 | A helper returns the body exactly when the reply is OK. Otherwise it throws "Server error: <status>", or passes on the rejection's message. |
| FormController.RecordFields | app.js:198 | The JSON body of a save decodes on the server to the record sent. |
| FormController.ColumnsFields | app.js:220 | The JSON body of an update decodes to the six columns and carries no `studentId`. |
| FormController.Initialized | app.js:30-57 | Reset blanks every value and locks the data fields and both submit buttons. It enables Reset, hides the notice, keeps the ID field's flag and leaves the form consistent. |
| FormController.Populated | app.js:294-309 | Loading a record sets the six data values from the record, "" where absent, and unlocks the six data fields. The ID value, the ID, Save, Update and Reset flags, and the notice are unchanged. The ID, Save and Update flags are set afterwards by the ID check (`IdCheckStep`). |
| FormController.OpenedForNewEntry | app.js:312-332 | A new entry keeps the ID, blanks the data values, unlocks the data fields and Save, and locks Update. |
| FormController.FormValidCharacterized | app.js:96-166 | The form passes exactly when each of the following holds:<br>- ID, names and email are not all white space;<br>- the email has the pattern's shape;<br>- the dates and program are non-empty;<br>- two parsable dates are in order. |
| FormController.IdCheckStep | app.js:256-291 | A blank ID only shows a message and sends nothing. Otherwise the trimmed ID is sent. A found record fills and unlocks the form, a missing one opens a new entry, and any failure only shows a message. |
| FormController.SaveStep | app.js:335-370 | A record is posted exactly when the form is valid, and the record has the ID, names and email trimmed, with the dates and program as entered. The reset is scheduled exactly when the reply reports success, and then the success notice shows. A 200 reply without `success` leaves the "Saving" notice. A reply that is not OK shows the generic failure. A rejected request shows the duplicate notice exactly when its message contains "already exists", and the generic failure otherwise. No value or flag changes. |
| FormController.UpdateStep | app.js:373-402 | An update is sent exactly when the form is valid, with the trimmed ID in the path and the names and email trimmed; the dates and program are sent as entered. The reset is scheduled exactly on success, with the success notice. A 200 reply without `success` leaves the "Updating" notice, and any error shows the failure notice. No value or flag changes. |
| FormController.StudentForm.constructor | app.js:235 | On page load the form is in the state `initializeForm` gives the page's defaults. |
| FormController.StudentForm.InitializeForm | app.js:30-57 | The fields are updated exactly as `Initialized` says, and the form stays consistent. |
| FormController.StudentForm.PopulateForm | app.js:294-309 | The values and flags are updated exactly as `Populated` says. |
| FormController.StudentForm.EnableFormForNewEntry | app.js:312-332 | The values and flags are updated exactly as `OpenedForNewEntry` says. |
| FormController.StudentForm.ValidateForm | app.js:96-166 | Checking the fields one after another yields exactly `FormValid` of the current values. |
| FormController.StudentForm.HandleStudentIdCheck | app.js:256-291 | The new state and the ID sent are those of `IdCheckStep`, and the form stays consistent. |
| FormController.StudentForm.HandleSave | app.js:335-370 | The new state, the record posted and the scheduled reset are those of `SaveStep`. |
| FormController.StudentForm.HandleUpdate | app.js:373-402 | The new state, the request sent and the scheduled reset are those of `UpdateStep`. |
| FormController.TransitionsKeepConsistency | app.js:256-402 | Every handler keeps the lock flags consistent:<br>- Reset is enabled;<br>- at most one submit button is enabled;<br>- the ID is locked while Update is enabled;<br>- the data fields are unlocked while a submit button is. |
| FormController.RejectedCreateNeverReportsDuplicate | app.js:362-368 | A save the server refuses with a status that is not OK never shows the duplicate notice. |
| FormController.ResetAfterFoundRecordLocksForm | app.js:30-57 | After a record was found, Reset leaves the ID, the data fields and both submit buttons disabled, and a second Reset changes nothing. |
| FormController.SavePayloadShape | app.js:341-349 | The record a valid form posts has a trimmed non-empty ID, non-empty names and the email that was validated. |
| FormController.ValidFormPassesExpressCreateChecks | app.js:341-354 | Express answers a record the page accepts with either 200 "created" or 400 duplicate, never with a field or date error. |
| FormController.ValidFormPassesExpressUpdateChecks | app.js:378-391 | Express never answers an update the page accepts with "All fields are required". |

## Left out

- The SQL engine, the connection setup and the store's collation are not modelled. Keys and emails compare as exact strings.
- Store failures other than a unique-key violation are not modelled: a lost connection, or a prepared statement that fails. These are the back ends' 500 paths other than Express's update collision.
- HTTP plumbing is not modelled:
  - CORS headers;
  - the OPTIONS preflight's headers;
  - `parse_url` beyond taking the path;
  - JSON decoding errors;
  - Express's routing, under which a path with an empty ID never reaches a handler;
  - status texts.
- Request values other than strings are not modelled: numbers, booleans and `null` in the JSON body. A body is a map from field names to strings.
- Dates are stored as the strings sent. The DATE column's typing and normalisation are not modelled.
- PHP `new DateTime` throwing on an unparsable date is not modelled. `PhpLibrary.dateTime` gives an instant for every string.
- `filter_var(..., FILTER_VALIDATE_EMAIL)` and JavaScript date parsing are parameters, not implementations.
- The page's error texts under each field, the notice's wording and styling, `clearErrorMessages`, `showStatusMessage` and `hideStatusMessage` are not modelled. The notice is an enumeration of the situations the page reports.
- Focus handling and console logging are left out.
- The 1.5-second `setTimeout` before Reset (`app.js:358-360`, `395-397`) is left out. Save and Update report that a reset was scheduled, and the reset itself is `InitializeForm`.
- `async` interleaving is left out. Each handler runs to completion with the reply it receives. Two handlers racing over one form, a blur and an Enter on the same ID for example, are not modelled.
- URL encoding of the ID in the page's requests is left out. The ID is passed as typed and trimmed.
- The page markup's defaults are assumed rather than read: every control enabled and every value blank before `initializeForm` first runs, and `form.reset()` restoring blank values.
