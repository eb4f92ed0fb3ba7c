# PHP REST API: people and messages, modelled in Dafny

The repository serves two small REST resources from PHP scripts.

- **People** is served by the class `PeopleAPI`. There are two copies of it: `apiTest.php`, the reference, and `api.php`, a near-duplicate.
  - The constructor opens a database connection. A failure there is recorded as status 500.
  - `handleRequest()` answers 500 if the connection failed. It then rejects an `id` query value that is not numeric once sanitised. Otherwise it dispatches on the method to `handleGet`, `handlePost`, `handlePut` or `handleDelete`. Any other method gets 405.
  - Input is taken from the JSON body, or from the form fields when the JSON is empty. `sanitizeInput()` applies `strip_tags` and then `htmlspecialchars(…, ENT_QUOTES)` to every string, recursively. `validatePersonData()` then requires `firstname`, `lastname` and `phone` to be set and non-blank after `trim()`.
- **Messages** is served by `debug_api.php`.
  - `Main::__construct()` routes GET and POST to `MessageService` and answers 405 to anything else.
  - GET filters the message table by `source` and/or `target` and orders the rows by `sent`. POST validates two usernames and a message, then inserts the row.

The model replaces the database with an in-memory table:

- people are a `map<int, Person>` plus the next AUTO_INCREMENT value;
- messages are a `seq<MessageRow>` in insertion order, plus the next id.

Each SQL statement becomes an operation on these values. The model has three layers:

- **Value modules.** `PhpValues` and `PhpStrings` model the PHP values and built-ins the handlers depend on: `isset`, `empty`, `trim`, string coercion, `is_numeric`, `strip_tags`, `htmlspecialchars`.
- **Specification modules.** `PeopleInput`, `People` and `Messages` give each handler's reply and its effect on the table as functions of the request and the table.
- **Class modules.** `PeopleServer` and `MessageServer` hold the PHP classes as Dafny classes with mutable fields. Each method is proved to produce exactly what the corresponding specification function says.

PHP 8 semantics are assumed throughout. Four kinds of call throw an `Error`, which is not an `Exception`:

- `trim()` on an array throws `TypeError`;
- calling an undefined method throws `Error`;
- calling `bindParam()` with one argument throws `ArgumentCountError`;
- `this->…` without `$` (debug_api.php:128) reads the undefined constant `this` and throws `Error`.

No `catch (Exception …)`, `catch (PDOException …)` or `catch (mysqli_sql_exception …)` catches these, so the script ends with a fatal error. The model records this as a `Fatal` (`MsgFatal`) reply and makes no claim about its status code.

Some behaviours of the message code, stated as the code has them:

- a username is 3 to 20 characters from `[A-Za-z0-9_]` (debug_api.php:95), with one trailing newline admitted by the pattern's `$`;
- GET and POST use their parameters as received, without trimming;
- a stored POST is answered 201 with `{message: $newId}`, which is null as written (see "Findings");
- GET reads the `text` column and reports it under the key `message`.

The message model is built on two corrected lines, both listed under "Findings". At debug_api.php:128 the target is checked with `isValidUsername()`. At debug_api.php:249 the reply carries the id of the new row. `Messages.GetReply`, `Messages.PostOutcome` and everything built on them (routing, the script, `MessageServer`) use these corrected lines. `Messages.GetReplyAsWritten` and `Messages.PostOutcomeAsWritten` model the two lines as written, and lemmas relate each to its corrected version.

## Model

| member | source | states |
|---|---|---|
| PhpValues.Lookup | apiTest.php:445 | `$data[$field]` finds the value stored under the key; when it finds none, no entry has that key |
| PhpValues.LookupFindsUniqueKey | apiTest.php:445 | in an array without repeated keys, `$data[$field]` is the value of the one entry with that key |
| PhpValues.IsSetFieldIff | apiTest.php:445 | on an array without repeated keys, `isset($data[$field])` holds exactly when an entry with that key has a non-null value |
| PhpValues.EmptyValues | apiTest.php:423 | `empty()` holds for exactly six values: null, false, 0, "", "0" and the empty array |
| PhpValues.IsNumeric | apiTest.php:99 | a string `is_numeric` accepts holds only digits and signs |
| PhpValues.IntToString | apiTest.php:229 | the decimal spelling of an id: at least one character; all digits exactly when the id is not negative |
| PhpValues.IntToStringRoundTrip | apiTest.php:97-99 | the spelling of any integer passes `is_numeric` and parses back to the same integer, so a reported id can be sent back as `?id=` |
| PhpValues.ToPhpString | apiTest.php:445 | the string `trim()` receives: strings unchanged; only an array cannot be converted, and `trim()` then throws |
| PhpValues.Trim | apiTest.php:445 | `trim()` is empty exactly when the argument holds only trim characters; otherwise the result neither starts nor ends with one |
| PhpValues.TrimTakesInfix | apiTest.php:445 | `trim()` returns a contiguous part of its argument and removes only trim characters before and after it |
| PhpStrings.HtmlSpecialChars | apiTest.php:473 | the escaped text contains no `<`, `>`, `"` or `'` and is no shorter than its input |
| PhpStrings.UnescapeInvertsHtmlSpecialChars | apiTest.php:473 | escaping loses nothing: decoding the five entities gives back the original text |
| PhpStrings.HtmlSpecialCharsKeepsPlainText | apiTest.php:473 | text without `& < > " '` is left unchanged |
| PhpStrings.StripTags | apiTest.php:470 | stripping tags never lengthens the text |
| PhpStrings.StripResultIsTagFree | apiTest.php:470 | no tag opener is left in what `strip_tags` keeps |
| PhpStrings.StripTagsIdempotent | apiTest.php:470 | stripping twice gives the same text as stripping once |
| PhpStrings.StripTagsKeepsTextWithoutLt | apiTest.php:470 | text without `<` passes through `strip_tags` unchanged |
| PeopleInput.Sanitize | apiTest.php:459-477 | keeps the structure of the input (keys, array lengths, non-string scalars) and leaves no markup character in any string |
| PeopleInput.SanitizeKeepsPlainText | apiTest.php:459-477 | a string without special characters, such as a decimal id, is not changed by sanitising |
| PeopleInput.NumericIdIsPlainText | apiTest.php:97-99 | an id that passes `is_numeric` has no special characters, so sanitising leaves it unchanged |
| PeopleInput.LookupSanitized | apiTest.php:459-465 | a key of a sanitised array holds the sanitised value of that key |
| PeopleInput.ChosenInput | apiTest.php:408-425 | uses the decoded JSON when it is non-empty; otherwise uses the form fields if there are any; otherwise the result is empty |
| PeopleInput.SanitizedInput | apiTest.php:427-432 | an array input is sanitised value by value; a scalar input is returned unchanged |
| PeopleInput.GetInputData | apiTest.php:408-433 | the foreach that overwrites each entry yields the sanitised input, and no string in it has markup left |
| PeopleInput.FieldCheck | apiTest.php:445 | a field passes only when it is set; the check throws only when the field holds an array |
| PeopleInput.CheckFields | apiTest.php:444-448 | the checks pass exactly when every field passes |
| PeopleInput.CheckFieldsStopsAtFirstFailure | apiTest.php:444-448 | the first field that does not pass decides the result; fields after it are not consulted |
| PeopleInput.PersonDataCheck | apiTest.php:441-451 | validation passes only when firstname, lastname and phone are all set |
| PeopleInput.PersonDataCheckPassIff | apiTest.php:441-451 | validation passes iff firstname, lastname and phone are each set, not an array, and not blank after `trim()` |
| PeopleInput.ValidatePersonData | apiTest.php:441-451 | the guard loop with early return gives the same verdict as the field checks in order |
| People.GetOutcome | apiTest.php:155-189 | GET never changes the table and answers 200, 204 or 404 |
| People.PostOutcome | apiTest.php:203-238 | only a 201 changes the table. A 201 means validation passed, the row went in under the old counter value with exactly the validated fields, and the reply carries that id. The table stays valid |
| People.PutOutcome | apiTest.php:261-317 | PUT never adds or removes a row. Only a 200 changes the table; it means the id was present, the body valid, and only that row was replaced |
| People.DeleteOutcome | apiTest.php:340-374 | only a 200 changes the table; it means the id was present, and exactly that key is removed |
| People.RequestOutcome | apiTest.php:84-148 | every request keeps the table valid and never lowers the id counter |
| People.ScriptOutcome | apiTest.php:20-23 | a preflight OPTIONS request gets 200 with no body and leaves the table unchanged; every request keeps the table valid |
| People.ConnectionFailureAnswers500 | apiTest.php:87-90 | after a failed connection every request gets 500 with the connection message, and the table is unchanged |
| People.InvalidIdAnswers400 | apiTest.php:97-107 | an id that is not numeric once sanitised gets 400 "Invalid ID format" for every method, before dispatch, with the table unchanged |
| People.UnsupportedMethodAnswers405 | apiTest.php:128-134 | a method other than GET, POST, PUT or DELETE gets 405 and the table is unchanged |
| People.GetWithoutId | apiTest.php:157-171 | without an id: 200 with every row, or 204 "No people found" when the table is empty; the table is unchanged |
| People.GetWithId | apiTest.php:172-188 | with an id: 404 when no row has it; otherwise 200 with that row (apiTest.php) or a one-row list (api.php); the table is unchanged |
| People.StoredPersonFromJson | apiTest.php:224-226 | the stored fields are the submitted strings with tags stripped and special characters escaped |
| People.PostRejectsInvalidInput | apiTest.php:207-215 | input that fails validation gets 400 and nothing is inserted |
| People.PostCreatesRow | apiTest.php:217-238 | a valid POST gets 201 with the new id. That id was free before and now holds exactly the three fields. No other row changes |
| People.PutAndDeleteNeedAnId | apiTest.php:263-270 | PUT or DELETE without an id gets 400 and changes nothing |
| People.PutChecksBodyBeforeExistence | apiTest.php:275-283 | a PUT with an invalid body gets 400 even when the id does not exist |
| People.AbsentIdAnswers404 | apiTest.php:286-298 | PUT with a valid body, or DELETE, on an absent id gets 404 and the table is unchanged |
| People.PutReplacesOnlyThatRow | apiTest.php:300-317 | a valid PUT on an existing row gets 200, replaces the three fields of that row, and changes no other row |
| People.DeleteRemovesOnlyThatRow | apiTest.php:366-374 | a DELETE on an existing row gets 200, removes that key, and changes no other row |
| People.ReportedIdSelectsRow | apiTest.php:229-238 | the id POST reports is numeric, survives sanitising, and selects the new row |
| People.PostThenGet | apiTest.php:229-238 | a GET with the id a POST reported returns the row that POST stored |
| People.DeleteThenGet | apiTest.php:366-374 | a GET for a deleted id gets 404 |
| People.ApiPostAlwaysFails | api.php:204 | in api.php every POST ends in a PHP Error, and nothing is inserted |
| People.ApiPutOnExistingRowFails | api.php:297 | in api.php a valid PUT on an existing row ends in a PHP Error, and nothing is updated |
| PeopleServer.PeopleApi.constructor | apiTest.php:43-68 | status 500 exactly when the connection fails, and then the result holds the connection message |
| PeopleServer.PeopleApi.HandleGet | apiTest.php:155-198 | the fields and the table end as People.GetOutcome says |
| PeopleServer.PeopleApi.HandlePost | apiTest.php:203-254 | the fields and the table end as People.PostOutcome says |
| PeopleServer.PeopleApi.HandlePut | apiTest.php:261-333 | the fields and the table end as People.PutOutcome says |
| PeopleServer.PeopleApi.HandleDelete | apiTest.php:340-390 | the fields and the table end as People.DeleteOutcome says |
| PeopleServer.PeopleApi.HandleRequest | apiTest.php:84-148 | the reply and the table are those of People.RequestOutcome |
| PeopleServer.RunScript | apiTest.php:493-495 | a run of the script gives People.ScriptOutcome, and the table stays valid |
| Messages.IsValidUsername | debug_api.php:87-97 | a valid name is non-empty and has 3 to 21 characters; all but the last are word characters, and the last is a word character or the admitted newline |
| Messages.UsernameWithoutNewline | debug_api.php:87-97 | a name without a newline is valid iff it has 3 to 20 characters, all from `[A-Za-z0-9_]` |
| Messages.UsernameLength | debug_api.php:95 | a valid name has 3 to 21 characters; the 21st can only be the admitted trailing newline |
| Messages.UsernameTrailingNewline | debug_api.php:95 | the pattern's `$` admits "bob\n", which is not all word characters |
| Messages.MessageCheckAcceptsAnyText | debug_api.php:100-105 | `isValidMessage` accepts any text that is set, including the empty one, and rejects only an unset message |
| Messages.Selects | debug_api.php:142-154 | a selected row has the given source, if a source is given, and the given target, if a target is given; with no source, the target must match |
| Messages.Param | debug_api.php:111-112 | a parameter counts as empty exactly when it is absent or its value is empty, since the default `""` is itself empty |
| Messages.Filter | debug_api.php:142-154 | the query result is never longer than the table |
| Messages.FilterKeepsSelectedRows | debug_api.php:142-154 | the query keeps each row the WHERE clause matches as many times as the table holds it, and no other row |
| Messages.InsertBySent | debug_api.php:144 | inserting into a list ordered by `sent` keeps it ordered and adds exactly that row |
| Messages.SortBySent | debug_api.php:144 | `ORDER BY sent ASC` gives a list ordered by `sent` that is a permutation of its input |
| Messages.InsertKeepsTableOrderOfTies | debug_api.php:144 | the inserted row goes before every row sent at the same time |
| Messages.SortKeepsTableOrderOfTies | debug_api.php:144 | rows sent at the same time keep their table order |
| Messages.Entries | debug_api.php:167-175 | the listing has one entry per selected row |
| Messages.EntriesKeepRowFields | debug_api.php:167-175 | each entry carries its row's id, `sent`, source and target, and the `text` column as `message`; different row lists give different listings |
| Messages.GetGuardsPass | debug_api.php:116-138 | once the guards pass, source and target differ and at least one of them is a valid username |
| Messages.GetReply | debug_api.php:107-182 | corrected at debug_api.php:128: GET answers 200, 204 or 400; 400 exactly when a guard fails; a 200 lists at least one message |
| Messages.GetListsSelection | debug_api.php:142-180 | once the guards pass, the answer lists exactly the matching rows, ordered by `sent`, each with its own fields; an empty selection gets 204 |
| Messages.GetReplyAsWritten | debug_api.php:116-138 | as written, GET dies with the undefined-constant Error exactly when a non-empty target reaches line 128 (the source is absent or a valid username); otherwise it gives the corrected GET's answer |
| Messages.GetByTargetDiesAsWritten | debug_api.php:128 | as written, `?target=bob` ends in a PHP Error; the corrected GET answers 200 or 204 |
| Messages.TargetCheckAsWrittenChecksNothing | debug_api.php:128 | the message check would accept "bob smith", which is no username |
| Messages.GetWithoutTargetAgrees | debug_api.php:128 | without a target, GET as written and corrected agree |
| Messages.InsertReply | debug_api.php:248-260 | 201 with the reported id exactly when the insert affected a row; otherwise 500 |
| Messages.PostGuardsPass | debug_api.php:204-241 | once the guards pass, source, target and message are set, both names have 3 to 21 characters, and the two names differ |
| Messages.PostOutcome | debug_api.php:197-261 | corrected at debug_api.php:249: a failed guard gets 400 with no insert. 201 happens exactly when the guards pass and the row is stored; the row is appended under the next id and that id is reported. Only a 201 changes the table, and the table stays valid |
| Messages.PostOutcomeAsWritten | debug_api.php:249 | as written, POST changes the table as the corrected POST does and gives the same 400 or 500; only the body of a 201 differs, reporting a null id |
| Messages.PostLosesIdAsWritten | debug_api.php:249-254 | as written, a stored message is answered with `{message: null}`; corrected, the answer carries the id of the new row |
| Messages.PostGuardOrder | debug_api.php:204-241 | an unset source or target, an unset message, or equal users each lead to rejection |
| Messages.PostThenGet | debug_api.php:244-256 | a stored message is listed by a GET for its two users, with its id, time and text |
| Messages.RouteOutcome | debug_api.php:287-299 | built on the corrected lines 128 and 249: methods other than GET and POST get 405 and no handler runs; GET and POST go to their handlers |
| Messages.ScriptOutcome | debug_api.php:33-50 | built on the corrected lines 128 and 249: a failed connection gets 500 for every request. The table changes only through a 201 POST, and it stays valid |
| MessageServer.MessageService.constructor | debug_api.php:72-85 | the service reads the table it was given |
| MessageServer.MessageService.Get | debug_api.php:107-195 | corrected at debug_api.php:128: the guards and the loop that appends one entry per row give Messages.GetReply |
| MessageServer.MessageService.Post | debug_api.php:197-273 | corrected at debug_api.php:249: the reply and the table are those of Messages.PostOutcome |
| MessageServer.Route | debug_api.php:278-300 | built on the corrected lines 128 and 249: the reply and the table are those of Messages.RouteOutcome |
| MessageServer.RunScript | debug_api.php:305-308 | built on the corrected lines 128 and 249: a run of the script gives Messages.ScriptOutcome, and the table stays valid |

## Left out

- PhpValues.IsNumeric: PHP 8's `is_numeric` also accepts leading and trailing white space, a decimal point and an exponent (such as `" 7"`, `"7 "`, `"1.5"`, `"1e3"`). The model accepts only an optional sign followed by decimal digits. Such ids survive sanitising, and get 400 in the model only.
- PhpStrings.StripTags: a simplified scan. A `<` that is not followed by white space opens a tag, and the tag runs to the next `>`. PHP's handling of quotes inside tags, comments, nesting depth and `<?`/`<!` is not modelled.
- PhpValues.Value: floats and objects are not modelled. `json_decode` is always called with `true`, and floats play no part in the handlers' decisions.
- Reading `php://input` and running `json_decode` are not modelled. A request carries the decoded body, or None, plus the form fields.
- The database is an in-memory table, and the connection is a boolean. Credentials, the DSN, `setAttribute` and `__destruct` are not modelled.
- Error and exception branches of the storage layer are not modelled. This covers `PDOException` / `mysqli_sql_exception` (500 "Database error" with details), `execute()` returning false (500 "Failed to …") and `handleRequest`'s `catch (Exception …)`. Nothing in the model throws an `Exception`. For `debug_api.php`, a failed insert is the `stored` flag, which gives affected rows 0 and then 500.
- HTTP headers, CORS, `http_response_code`, JSON encoding and pretty-printing are not modelled. Replies are a status code plus a structured body. The `details` field of error bodies is left out.
- The `Location` header set after a POST (apiTest.php:233, and the malformed one at api.php:227) is not modelled. In api.php that line is never reached anyway.
- People.Body: `SELECT *` row order and the `id` column inside each row are not modelled. GET answers with the rows as a map from id to person.
- MySQL comparison rules are not modelled. Collation (case and trailing-space insensitivity) and the conversion a bound `PARAM_INT` applies are replaced by exact string equality and by `ParseInt` of the sanitised id.
- Messages.SortBySent: rows with the same `sent` come out in table order. MySQL's `ORDER BY sent` leaves their order unspecified, so the model fixes one of the orders the database may return.
- Messages.MessageRow: `sent` is an integer that the database assigns (the `now` parameter), not a DATETIME.
- Query and form values that are arrays (`?source[]=x`) are not modelled. Parameters of `debug_api.php` are strings.
- MessageService's "no database connection" branch (debug_api.php:76-83) is not modelled: `get_connection()` cannot return null once `DBAccess` has connected.
- The `message`/`text` column mismatch is not modelled. The INSERT writes a `message` column and the SELECT reads a `text` column. With only one of the two columns, one statement fails. With both, both run, and GET reports the `text` column, which the INSERT leaves NULL or at its default. The model has a single text column that POST writes and GET reads.
- Invalid UTF-8 is not modelled. Strings are sequences of Unicode characters. In PHP, `htmlspecialchars(…, ENT_QUOTES, 'UTF-8')` (apiTest.php:473) turns a field holding invalid UTF-8 into `""`, which then fails validation; the model has no such input.
- Warnings that `display_errors` prints (for example an unset `message` field, or the undefined property at debug_api.php:249) are not modelled. Once such output is sent, a later `http_response_code` call can no longer change the status. The model reports the status codes the code sets.
- `debug_log`/`error_log` output, `getBaseUrl` and `$_SERVER` reads other than the method are not modelled.
- The race between the existence check and the write of PUT/DELETE under concurrent requests is not modelled. It is concurrency, and the code does nothing about it.
- Under PHP 7, debug_api.php:128 (`this` without `$`) is a parse error and no request is served at all. The model follows PHP 8, where the line parses and throws when it runs.

## Findings

| source | as written | input that shows it | evidently intended | confidence | as-written member | corrected member |
|---|---|---|---|---|---|---|
| api.php:204 | calls `valudatePersonData`, which PeopleAPI does not define; the `Error` is not caught | any POST request | `$this->validatePersonData($inputData)`, as in apiTest.php:208 | high; not executed | People.ApiPostAlwaysFails | People.PostCreatesRow |
| api.php:297 | `bindParam(':id, $id, PDO::PARAM_INT')`, a single string argument, throws `ArgumentCountError` | PUT `?id=1` with a valid body when row 1 exists | `bindParam(':id', $id, PDO::PARAM_INT)` | high; not executed | People.ApiPutOnExistingRowFails | People.PutReplacesOnlyThatRow |
| debug_api.php:128 | `this->isValidMessage($target)`: `this` is an undefined constant, and the check is the message check, not the username check | GET `?target=bob` | `$this->isValidUsername($target)` | high; not executed | Messages.GetByTargetDiesAsWritten | Messages.GetListsSelection |
| debug_api.php:249 | `$stmt->conn->insert_id`: mysqli_stmt has no `conn` property, so the id read is null | any POST that passes the guards and is stored | `$stmt->insert_id` | high; not executed | Messages.PostLosesIdAsWritten | Messages.PostOutcome |
