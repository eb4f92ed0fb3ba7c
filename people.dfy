/**
 * The people resource as a function of the request and the table: what
 * PeopleAPI::handleRequest() and its four handlers answer, and what they do
 * to the table. Both copies of the class are covered: apiTest.php (the
 * reference) and api.php, which differs in messages, in the shape of a GET by
 * id, and in two calls that end the script with a PHP Error.
 */
module People {
  import opened PhpValues
  import opened PhpStrings
  import opened PeopleInput

  datatype Person = Person(firstname: string, lastname: string, phone: string)

  /** The people table: rows by id, and the next AUTO_INCREMENT value. */
  datatype Table = Table(rows: map<int, Person>, nextId: nat)
  {
    /** Every id in use is below the counter, so the next insert gets a fresh id. */
    predicate Valid()
    {
      forall id :: id in rows ==> id < nextId
    }
  }

  /** Which copy of PeopleAPI: apiTest.php or api.php. */
  datatype Variant = ApiTestPhp | ApiPhp

  /** What `$this->result` holds when sendResponse() encodes it. */
  datatype Body =
    | Nothing                              // no output at all
    | Rows(rows: map<int, Person>)         // fetchAll(): a JSON list of rows
    | OneRow(key: int, person: Person)     // fetch(): a single row
    | Info(message: string)                // {message}
    | Error(message: string)               // {error: true, message}
    | Saved(id: string, message: string)   // {id, message}

  /**
   * The HTTP answer, or an uncaught PHP Error: neither handleRequest() nor
   * the handlers catch Error (only Exception and PDOException), so the script
   * dies with a fatal error instead of sending its response.
   */
  datatype Reply = Reply(status: int, body: Body) | Fatal(error: string)
  {
    /** The script answered with this status code. */
    predicate Is(code: int)
    {
      Reply? && status == code
    }
  }

  datatype Outcome = Outcome(reply: Reply, table: Table)

  // ---------------------------------------------------------------------
  // The texts of the two copies

  function ConnectFailMessage(v: Variant): string
  {
    match v
    case ApiTestPhp => "Failed to connect to Database error"
    case ApiPhp => "Database connection Error"
  }

  function InvalidIdMessage(v: Variant): string
  {
    match v
    case ApiTestPhp => "Invalid ID format"
    case ApiPhp => "Invalid ID Format"
  }

  function MissingFieldsMessage(v: Variant): string
  {
    match v
    case ApiTestPhp => "Missing required fields (firstname, lastname, phone)"
    case ApiPhp => "Missing required fields(firstname, lastname, phone)"
  }

  function CreatedMessage(v: Variant): string
  {
    match v
    case ApiTestPhp => "Person created successfully"
    case ApiPhp => "Succesfully created person entry"
  }

  function UpdatedMessage(v: Variant): string
  {
    match v
    case ApiTestPhp => "Person updated successfully"
    case ApiPhp => "Succesfully updated person entry"
  }

  function DeletedMessage(v: Variant): string
  {
    match v
    case ApiTestPhp => "Person deleted successfully"
    case ApiPhp => "Succesfully deleted person entry"
  }

  const MethodNotAllowed := "Method not allowed"
  const NoPeopleFound := "No people found"
  const PersonNotFound := "Person not found"
  const PutNeedsId := "ID is required for PUT requests"
  const DeleteNeedsId := "ID is required for DELETE requests"

  /** trim() given an array (a field sent as a JSON list or object). */
  const TrimTypeError := "TypeError: trim(): Argument #1 ($string) must be of type string, array given"
  /** api.php:204 calls a method that does not exist. */
  const UndefinedValidate := "Error: Call to undefined method PeopleAPI::valudatePersonData()"
  /** api.php:297 passes bindParam() one argument. */
  const BindParamArgCount := "ArgumentCountError: PDOStatement::bindParam() expects at least 2 arguments, 1 given"

  // ---------------------------------------------------------------------
  // Handlers

  /** `is_numeric($id)` for a query value: query values are strings or arrays. */
  predicate IsNumericValue(v: Value)
  {
    v.Str? && IsNumeric(v.s)
  }

  /** The id handed to a handler: absent, or a sanitised numeric string. */
  predicate ValidId(id: Option<string>)
  {
    id.Some? ==> IsNumeric(id.value)
  }

  /** The row a numeric id selects when PDO binds it with PARAM_INT. */
  function KeyOf(id: string): int
    requires IsNumeric(id)
  {
    ParseInt(id)
  }

  /** The row the three validated fields make, as PDO binds them with PARAM_STR. */
  function PersonFrom(data: Value): Person
    requires PersonDataCheck(data).Pass?
  {
    assert FieldCheck(data, RequiredFields[0]).Pass?;
    assert FieldCheck(data, RequiredFields[1]).Pass?;
    assert FieldCheck(data, RequiredFields[2]).Pass?;
    Person(FieldText(data, "firstname"), FieldText(data, "lastname"), FieldText(data, "phone"))
  }

  /** handleGet($id): all rows, or the row with that id. The table is only read. */
  function GetOutcome(v: Variant, id: Option<string>, t: Table): (o: Outcome)
    requires ValidId(id)
    ensures o.table == t
    ensures o.reply.Reply? && o.reply.status in {200, 204, 404}
  {
    var reply :=
      if id.None? then
        if |t.rows| > 0 then Reply(200, Rows(t.rows)) else Reply(204, Info(NoPeopleFound))
      else
        var key := KeyOf(id.value);
        if key !in t.rows then Reply(404, Error(PersonNotFound))
        else if v == ApiTestPhp then Reply(200, OneRow(key, t.rows[key]))
        else Reply(200, Rows(map[key := t.rows[key]]));
    Outcome(reply, t)
  }

  /** handlePost(): validate the sanitised input, then insert it under a fresh id. */
  function PostOutcome(v: Variant, body: RequestBody, t: Table): (o: Outcome)
    ensures !o.reply.Is(201) ==> o.table == t
    ensures o.reply.Is(201) ==>
      && PersonDataCheck(SanitizedInput(body)).Pass?
      && o.table == Table(t.rows[t.nextId := PersonFrom(SanitizedInput(body))], t.nextId + 1)
      && o.reply.body == Saved(IntToString(t.nextId), CreatedMessage(v))
    ensures t.Valid() ==> o.table.Valid()
  {
    var input := SanitizedInput(body);
    if v == ApiPhp then Outcome(Fatal(UndefinedValidate), t)
    else
      match PersonDataCheck(input)
      case Fail => Outcome(Reply(400, Error(MissingFieldsMessage(v))), t)
      case Throws => Outcome(Fatal(TrimTypeError), t)
      case Pass =>
        var id := t.nextId;
        Outcome(Reply(201, Saved(IntToString(id), CreatedMessage(v))),
                Table(t.rows[id := PersonFrom(input)], id + 1))
  }

  /** handlePut($id): id required, body validated, row must exist, then all three fields replaced. */
  function PutOutcome(v: Variant, id: Option<string>, body: RequestBody, t: Table): (o: Outcome)
    requires ValidId(id)
    ensures o.table.nextId == t.nextId && o.table.rows.Keys == t.rows.Keys
    ensures !o.reply.Is(200) ==> o.table == t
    ensures o.reply.Is(200) ==>
      && id.Some? && KeyOf(id.value) in t.rows
      && PersonDataCheck(SanitizedInput(body)).Pass?
      && o.table.rows == t.rows[KeyOf(id.value) := PersonFrom(SanitizedInput(body))]
  {
    if id.None? then Outcome(Reply(400, Error(PutNeedsId)), t)
    else
      var input := SanitizedInput(body);
      match PersonDataCheck(input)
      case Fail => Outcome(Reply(400, Error(MissingFieldsMessage(v))), t)
      case Throws => Outcome(Fatal(TrimTypeError), t)
      case Pass =>
        var key := KeyOf(id.value);
        if key !in t.rows then Outcome(Reply(404, Error(PersonNotFound)), t)
        else if v == ApiPhp then Outcome(Fatal(BindParamArgCount), t)
        else
          Outcome(Reply(200, Saved(id.value, UpdatedMessage(v))),
                  Table(t.rows[key := PersonFrom(input)], t.nextId))
  }

  /** handleDelete($id): id required, row must exist, then it is removed. */
  function DeleteOutcome(v: Variant, id: Option<string>, t: Table): (o: Outcome)
    requires ValidId(id)
    ensures o.table.nextId == t.nextId
    ensures !o.reply.Is(200) ==> o.table == t
    ensures o.reply.Is(200) ==>
      id.Some? && KeyOf(id.value) in t.rows && o.table.rows == t.rows - {KeyOf(id.value)}
  {
    if id.None? then Outcome(Reply(400, Error(DeleteNeedsId)), t)
    else
      var key := KeyOf(id.value);
      if key !in t.rows then Outcome(Reply(404, Error(PersonNotFound)), t)
      else Outcome(Reply(200, Info(DeletedMessage(v))), Table(t.rows - {key}, t.nextId))
  }

  /**
   * handleRequest(): a failed connection answers with the constructor's
   * error; a present id must be numeric once sanitised; then the method
   * selects the handler.
   */
  function RequestOutcome(v: Variant, failed: bool, verb: string, idParam: Option<Value>,
                          body: RequestBody, t: Table): (o: Outcome)
    ensures t.Valid() ==> o.table.Valid()
    ensures o.table.nextId >= t.nextId
  {
    if failed then Outcome(Reply(500, Error(ConnectFailMessage(v))), t)
    else if idParam.Some? && !IsNumericValue(Sanitize(idParam.value)) then
      Outcome(Reply(400, Error(InvalidIdMessage(v))), t)
    else
      var id := if idParam.Some? then Some(Sanitize(idParam.value).s) else None;
      if verb == "GET" then GetOutcome(v, id, t)
      else if verb == "POST" then PostOutcome(v, body, t)
      else if verb == "PUT" then PutOutcome(v, id, body, t)
      else if verb == "DELETE" then DeleteOutcome(v, id, t)
      else Outcome(Reply(405, Error(MethodNotAllowed)), t)
  }

  /**
   * The script: a preflight OPTIONS request is answered 200 with no body
   * before PeopleAPI is constructed; otherwise the object is built (its
   * connection succeeding or not) and handles the request.
   */
  function ScriptOutcome(v: Variant, connects: bool, verb: string, idParam: Option<Value>,
                         body: RequestBody, t: Table): (o: Outcome)
    ensures verb == "OPTIONS" ==> o == Outcome(Reply(200, Nothing), t)
    ensures t.Valid() ==> o.table.Valid()
  {
    if verb == "OPTIONS" then Outcome(Reply(200, Nothing), t)
    else RequestOutcome(v, !connects, verb, idParam, body, t)
  }

  // ---------------------------------------------------------------------
  // Properties of handleRequest()

  /** A failed connection answers 500 to every request and leaves the table alone. */
  lemma ConnectionFailureAnswers500(v: Variant, verb: string, idParam: Option<Value>,
                                    body: RequestBody, t: Table)
    requires verb != "OPTIONS"
    ensures ScriptOutcome(v, false, verb, idParam, body, t)
         == Outcome(Reply(500, Error(ConnectFailMessage(v))), t)
  {
  }

  /** A present id that is not numeric once sanitised is refused before any handler runs. */
  lemma InvalidIdAnswers400(v: Variant, verb: string, idParam: Option<Value>,
                            body: RequestBody, t: Table)
    requires idParam.Some? && !IsNumericValue(Sanitize(idParam.value))
    ensures RequestOutcome(v, false, verb, idParam, body, t)
         == Outcome(Reply(400, Error(InvalidIdMessage(v))), t)
  {
  }

  /** A method other than GET, POST, PUT and DELETE answers 405 and leaves the table alone. */
  lemma UnsupportedMethodAnswers405(v: Variant, verb: string, idParam: Option<Value>,
                                    body: RequestBody, t: Table)
    requires verb !in {"GET", "POST", "PUT", "DELETE"}
    requires idParam.Some? ==> IsNumericValue(Sanitize(idParam.value))
    ensures RequestOutcome(v, false, verb, idParam, body, t)
         == Outcome(Reply(405, Error(MethodNotAllowed)), t)
  {
  }

  /** GET without id: every row with 200, or 204 on an empty table. */
  lemma GetWithoutId(v: Variant, body: RequestBody, t: Table)
    ensures RequestOutcome(v, false, "GET", None, body, t)
         == Outcome(if |t.rows| > 0 then Reply(200, Rows(t.rows)) else Reply(204, Info(NoPeopleFound)), t)
  {
  }

  /**
   * GET with a numeric id: 404 when no row has it; otherwise 200 with that
   * row (apiTest.php) or with a list holding just that row (api.php).
   */
  lemma GetWithId(v: Variant, id: string, body: RequestBody, t: Table)
    requires IsNumeric(id)
    ensures var o := RequestOutcome(v, false, "GET", Some(Str(id)), body, t);
      && o.table == t
      && (KeyOf(id) !in t.rows ==> o.reply == Reply(404, Error(PersonNotFound)))
      && (KeyOf(id) in t.rows && v == ApiTestPhp ==> o.reply == Reply(200, OneRow(KeyOf(id), t.rows[KeyOf(id)])))
      && (KeyOf(id) in t.rows && v == ApiPhp ==> o.reply == Reply(200, Rows(map[KeyOf(id) := t.rows[KeyOf(id)]])))
  {
    NumericIdIsPlainText(id);
  }

  /** POST (apiTest.php) with input that fails validation answers 400 and inserts nothing. */
  lemma PostRejectsInvalidInput(body: RequestBody, t: Table)
    requires PersonDataCheck(SanitizedInput(body)) == Fail
    ensures RequestOutcome(ApiTestPhp, false, "POST", None, body, t)
         == Outcome(Reply(400, Error(MissingFieldsMessage(ApiTestPhp))), t)
  {
  }

  /**
   * POST (apiTest.php) with valid input answers 201 with the new id; that id
   * was free, now holds exactly the three submitted fields, and no other row
   * changed.
   */
  lemma PostCreatesRow(body: RequestBody, t: Table)
    requires t.Valid()
    requires PersonDataCheck(SanitizedInput(body)).Pass?
    ensures var o := RequestOutcome(ApiTestPhp, false, "POST", None, body, t);
      && o.reply == Reply(201, Saved(IntToString(t.nextId), CreatedMessage(ApiTestPhp)))
      && t.nextId !in t.rows
      && o.table.rows.Keys == t.rows.Keys + {t.nextId}
      && o.table.rows[t.nextId] == PersonFrom(SanitizedInput(body))
      && forall k :: k in t.rows ==> o.table.rows[k] == t.rows[k]
  {
    var o := RequestOutcome(ApiTestPhp, false, "POST", None, body, t);
    assert o == PostOutcome(ApiTestPhp, body, t);
    assert o.table.rows == t.rows[t.nextId := PersonFrom(SanitizedInput(body))];
  }

  /** What sanitizeInput() makes of a submitted string. */
  function Cleaned(s: string): string
  {
    HtmlSpecialChars(StripTags(s))
  }

  /**
   * A JSON object whose three fields are strings is stored as those strings
   * with tags stripped and special characters escaped, whatever else the
   * object holds.
   */
  lemma StoredPersonFromJson(es: seq<Entry>, form: seq<Entry>, first: string, last: string, phone: string)
    requires Lookup(es, StrKey("firstname")) == Some(Str(first))
    requires Lookup(es, StrKey("lastname")) == Some(Str(last))
    requires Lookup(es, StrKey("phone")) == Some(Str(phone))
    requires PersonDataCheck(SanitizedInput(RequestBody(Some(Arr(es)), form))).Pass?
    ensures PersonFrom(SanitizedInput(RequestBody(Some(Arr(es)), form)))
         == Person(Cleaned(first), Cleaned(last), Cleaned(phone))
  {
    assert es != [];
    LookupSanitized(es, StrKey("firstname"));
    LookupSanitized(es, StrKey("lastname"));
    LookupSanitized(es, StrKey("phone"));
  }

  /** PUT or DELETE without an id answers 400 and changes nothing. */
  lemma PutAndDeleteNeedAnId(v: Variant, body: RequestBody, t: Table)
    ensures RequestOutcome(v, false, "PUT", None, body, t) == Outcome(Reply(400, Error(PutNeedsId)), t)
    ensures RequestOutcome(v, false, "DELETE", None, body, t) == Outcome(Reply(400, Error(DeleteNeedsId)), t)
  {
  }

  /** PUT validates the body before looking for the row: a bad body is 400 even for a missing row. */
  lemma PutChecksBodyBeforeExistence(v: Variant, id: string, body: RequestBody, t: Table)
    requires IsNumeric(id)
    requires PersonDataCheck(SanitizedInput(body)) == Fail
    ensures RequestOutcome(v, false, "PUT", Some(Str(id)), body, t)
         == Outcome(Reply(400, Error(MissingFieldsMessage(v))), t)
  {
    NumericIdIsPlainText(id);
    assert RequestOutcome(v, false, "PUT", Some(Str(id)), body, t) == PutOutcome(v, Some(id), body, t);
  }

  /** PUT or DELETE of an id no row has answers 404 and leaves the table unchanged. */
  lemma AbsentIdAnswers404(v: Variant, id: string, body: RequestBody, t: Table)
    requires IsNumeric(id) && KeyOf(id) !in t.rows
    ensures PersonDataCheck(SanitizedInput(body)).Pass? ==>
      RequestOutcome(v, false, "PUT", Some(Str(id)), body, t) == Outcome(Reply(404, Error(PersonNotFound)), t)
    ensures RequestOutcome(v, false, "DELETE", Some(Str(id)), body, t)
         == Outcome(Reply(404, Error(PersonNotFound)), t)
  {
    NumericIdIsPlainText(id);
  }

  /** PUT (apiTest.php) of an existing row replaces its three fields and nothing else. */
  lemma PutReplacesOnlyThatRow(id: string, body: RequestBody, t: Table)
    requires IsNumeric(id) && KeyOf(id) in t.rows
    requires PersonDataCheck(SanitizedInput(body)).Pass?
    ensures var o := RequestOutcome(ApiTestPhp, false, "PUT", Some(Str(id)), body, t);
      && o.reply == Reply(200, Saved(id, UpdatedMessage(ApiTestPhp)))
      && o.table.rows.Keys == t.rows.Keys
      && o.table.rows[KeyOf(id)] == PersonFrom(SanitizedInput(body))
      && forall k :: k in t.rows && k != KeyOf(id) ==> o.table.rows[k] == t.rows[k]
  {
    NumericIdIsPlainText(id);
    var input := SanitizedInput(body);
    var o := PutOutcome(ApiTestPhp, Some(id), body, t);
    assert o == Outcome(Reply(200, Saved(id, UpdatedMessage(ApiTestPhp))),
                        Table(t.rows[KeyOf(id) := PersonFrom(input)], t.nextId));
    assert RequestOutcome(ApiTestPhp, false, "PUT", Some(Str(id)), body, t) == o;
  }

  /** DELETE of an existing row answers 200 and removes that key only. */
  lemma DeleteRemovesOnlyThatRow(v: Variant, id: string, body: RequestBody, t: Table)
    requires IsNumeric(id) && KeyOf(id) in t.rows
    ensures var o := RequestOutcome(v, false, "DELETE", Some(Str(id)), body, t);
      && o.reply == Reply(200, Info(DeletedMessage(v)))
      && o.table.rows.Keys == t.rows.Keys - {KeyOf(id)}
      && forall k :: k in o.table.rows ==> o.table.rows[k] == t.rows[k]
  {
    NumericIdIsPlainText(id);
  }

  // ---------------------------------------------------------------------
  // Requests in sequence

  /** The id POST reports reaches the same row when sent back as `?id=`. */
  lemma ReportedIdSelectsRow(n: nat)
    ensures var id := IntToString(n);
      IsNumeric(id) && KeyOf(id) == n
      && Sanitize(Str(id)) == Str(id)
  {
    var id := IntToString(n);
    IntToStringRoundTrip(n);
    NumericIdIsPlainText(id);
  }

  /**
   * POST then GET (apiTest.php): a GET with the id the POST answered with
   * returns the three fields the POST stored.
   */
  lemma PostThenGet(body: RequestBody, t: Table)
    requires t.Valid()
    requires PersonDataCheck(SanitizedInput(body)).Pass?
    ensures var posted := RequestOutcome(ApiTestPhp, false, "POST", None, body, t);
      && posted.reply.Reply? && posted.reply.body.Saved?
      && RequestOutcome(ApiTestPhp, false, "GET", Some(Str(posted.reply.body.id)), body, posted.table).reply
         == Reply(200, OneRow(t.nextId, PersonFrom(SanitizedInput(body))))
  {
    var id := IntToString(t.nextId);
    var posted := RequestOutcome(ApiTestPhp, false, "POST", None, body, t);
    assert posted == PostOutcome(ApiTestPhp, body, t);
    assert posted.reply == Reply(201, Saved(id, CreatedMessage(ApiTestPhp)));
    assert t.nextId in posted.table.rows && posted.table.rows[t.nextId] == PersonFrom(SanitizedInput(body));
    ReportedIdSelectsRow(t.nextId);
    assert RequestOutcome(ApiTestPhp, false, "GET", Some(Str(id)), body, posted.table)
        == GetOutcome(ApiTestPhp, Some(id), posted.table);
  }

  /** DELETE then GET of the same id: the GET answers 404. */
  lemma DeleteThenGet(v: Variant, id: string, body: RequestBody, t: Table)
    requires IsNumeric(id) && KeyOf(id) in t.rows
    ensures var deleted := RequestOutcome(v, false, "DELETE", Some(Str(id)), body, t);
      RequestOutcome(v, false, "GET", Some(Str(id)), body, deleted.table).reply
      == Reply(404, Error(PersonNotFound))
  {
    NumericIdIsPlainText(id);
  }

  // ---------------------------------------------------------------------
  // api.php as written

  /** api.php: POST never reaches the insert; every POST ends in a PHP Error. */
  lemma ApiPostAlwaysFails(body: RequestBody, t: Table)
    ensures RequestOutcome(ApiPhp, false, "POST", None, body, t) == Outcome(Fatal(UndefinedValidate), t)
  {
  }

  /** api.php: a valid PUT of an existing row ends in a PHP Error and updates nothing. */
  lemma ApiPutOnExistingRowFails(id: string, body: RequestBody, t: Table)
    requires IsNumeric(id) && KeyOf(id) in t.rows
    requires PersonDataCheck(SanitizedInput(body)).Pass?
    ensures RequestOutcome(ApiPhp, false, "PUT", Some(Str(id)), body, t) == Outcome(Fatal(BindParamArgCount), t)
  {
    NumericIdIsPlainText(id);
  }
}
