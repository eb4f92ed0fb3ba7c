/**
 * The PeopleAPI object as the scripts use it: the constructor records a
 * failed connection in the status code and the result, handleRequest()
 * routes the request, and each handler overwrites `statusCode` and `result`
 * and runs its statements against the table. Every method is proved to do
 * what the functions of module People say.
 */
module PeopleServer {
  import opened PhpValues
  import opened PeopleInput
  import opened People

  class PeopleApi {
    /** Which copy of the class this object is. */
    const variant: Variant
    /** The people table behind the PDO connection. */
    var table: Table
    /** `$this->statusCode` */
    var statusCode: int
    /** `$this->result` */
    var result: Body

    /** What the client receives: the PHP Error that ended the script, or sendResponse(). */
    function Respond(error: Option<string>): Reply
      reads this
    {
      if error.Some? then Fatal(error.value) else Reply(statusCode, result)
    }

    /** The state the constructor leaves: 200, or 500 with the connection error. */
    predicate Constructed()
      reads this
    {
      statusCode == 200 || (statusCode == 500 && result == Error(ConnectFailMessage(variant)))
    }

    /** __construct(): open the connection; on failure set 500 and the error message. */
    constructor(variant: Variant, connects: bool, t: Table)
      ensures this.variant == variant && table == t
      ensures Constructed()
      ensures statusCode == 500 <==> !connects
    {
      this.variant := variant;
      table := t;
      if connects {
        statusCode := 200;
        result := Rows(map[]);  // the initial `[]`
      } else {
        statusCode := 500;
        result := Error(ConnectFailMessage(variant));
      }
    }

    /** handleGet($id) */
    method HandleGet(id: Option<string>) returns (error: Option<string>)
      requires ValidId(id)
      modifies this
      ensures Respond(error) == GetOutcome(variant, id, old(table)).reply
      ensures table == GetOutcome(variant, id, old(table)).table
    {
      error := None;
      if id.None? {
        var people := table.rows;
        if |people| > 0 {
          statusCode := 200;
          result := Rows(people);
        } else {
          statusCode := 204;
          result := Info(NoPeopleFound);
        }
      } else {
        var key := KeyOf(id.value);
        if key in table.rows {
          statusCode := 200;
          result := if variant == ApiTestPhp then OneRow(key, table.rows[key])
                    else Rows(map[key := table.rows[key]]);
        } else {
          statusCode := 404;
          result := Error(PersonNotFound);
        }
      }
    }

    /** handlePost() */
    method HandlePost(body: RequestBody) returns (error: Option<string>)
      modifies this
      ensures Respond(error) == PostOutcome(variant, body, old(table)).reply
      ensures table == PostOutcome(variant, body, old(table)).table
    {
      var inputData := GetInputData(body);
      if variant == ApiPhp {
        return Some(UndefinedValidate);
      }
      var check := ValidatePersonData(inputData);
      if check == Throws {
        return Some(TrimTypeError);
      }
      if check == Fail {
        statusCode := 400;
        result := Error(MissingFieldsMessage(variant));
        return None;
      }
      var id := table.nextId;
      table := Table(table.rows[id := PersonFrom(inputData)], id + 1);
      statusCode := 201;
      result := Saved(IntToString(id), CreatedMessage(variant));
      error := None;
    }

    /** handlePut($id) */
    method HandlePut(id: Option<string>, body: RequestBody) returns (error: Option<string>)
      requires ValidId(id)
      modifies this
      ensures Respond(error) == PutOutcome(variant, id, body, old(table)).reply
      ensures table == PutOutcome(variant, id, body, old(table)).table
    {
      if id.None? {
        statusCode := 400;
        result := Error(PutNeedsId);
        return None;
      }
      var inputData := GetInputData(body);
      var check := ValidatePersonData(inputData);
      if check == Throws {
        return Some(TrimTypeError);
      }
      if check == Fail {
        statusCode := 400;
        result := Error(MissingFieldsMessage(variant));
        return None;
      }
      var key := KeyOf(id.value);
      if key !in table.rows {
        statusCode := 404;
        result := Error(PersonNotFound);
        return None;
      }
      if variant == ApiPhp {
        return Some(BindParamArgCount);
      }
      table := Table(table.rows[key := PersonFrom(inputData)], table.nextId);
      statusCode := 200;
      result := Saved(id.value, UpdatedMessage(variant));
      error := None;
    }

    /** handleDelete($id) */
    method HandleDelete(id: Option<string>) returns (error: Option<string>)
      requires ValidId(id)
      modifies this
      ensures Respond(error) == DeleteOutcome(variant, id, old(table)).reply
      ensures table == DeleteOutcome(variant, id, old(table)).table
    {
      error := None;
      if id.None? {
        statusCode := 400;
        result := Error(DeleteNeedsId);
        return;
      }
      var key := KeyOf(id.value);
      if key !in table.rows {
        statusCode := 404;
        result := Error(PersonNotFound);
        return;
      }
      table := Table(table.rows - {key}, table.nextId);
      statusCode := 200;
      result := Info(DeletedMessage(variant));
    }

    /** handleRequest(): the connection check, the id check, then the handler for the method. */
    method HandleRequest(verb: string, idParam: Option<Value>, body: RequestBody) returns (reply: Reply)
      requires Constructed()
      modifies this
      ensures reply == RequestOutcome(variant, old(statusCode) == 500, verb, idParam, body, old(table)).reply
      ensures table == RequestOutcome(variant, old(statusCode) == 500, verb, idParam, body, old(table)).table
    {
      if statusCode == 500 {
        return Reply(statusCode, result);
      }
      var id: Option<string> := None;
      if idParam.Some? {
        var sanitized := Sanitize(idParam.value);
        if !IsNumericValue(sanitized) {
          statusCode := 400;
          result := Error(InvalidIdMessage(variant));
          return Reply(statusCode, result);
        }
        id := Some(sanitized.s);
      }
      var error: Option<string> := None;
      if verb == "GET" {
        error := HandleGet(id);
      } else if verb == "POST" {
        error := HandlePost(body);
      } else if verb == "PUT" {
        error := HandlePut(id, body);
      } else if verb == "DELETE" {
        error := HandleDelete(id);
      } else {
        statusCode := 405;
        result := Error(MethodNotAllowed);
      }
      reply := Respond(error);
    }
  }

  /**
   * One run of the script: answer a preflight OPTIONS request at once;
   * otherwise construct PeopleAPI over the table and let it handle the
   * request. Returns the reply and the table afterwards.
   */
  method RunScript(variant: Variant, connects: bool, verb: string, idParam: Option<Value>,
                   body: RequestBody, t: Table) returns (reply: Reply, after: Table)
    ensures Outcome(reply, after) == ScriptOutcome(variant, connects, verb, idParam, body, t)
    ensures t.Valid() ==> after.Valid()
  {
    if verb == "OPTIONS" {
      return Reply(200, Nothing), t;
    }
    var api := new PeopleApi(variant, connects, t);
    reply := api.HandleRequest(verb, idParam, body);
    after := api.table;
  }
}
