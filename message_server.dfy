/**
 * MessageService and the entry point of debug_api.php: GET runs its guards
 * one by one, queries, and builds the `messages` list by appending one entry
 * per row; POST runs its guards and inserts. Each method is proved to do
 * what the functions of module Messages say.
 */
module MessageServer {
  import opened PhpValues
  import opened Messages

  class MessageService {
    /** The message table behind `$this->conn`. */
    var table: MessageTable

    constructor(t: MessageTable)
      ensures table == t
    {
      table := t;
    }

    /** GET(), with the target checked by isValidUsername() at line 128. */
    method Get(query: map<string, string>) returns (reply: MsgReply)
      ensures reply == GetReply(query, table)
    {
      var source := if "source" in query then query["source"] else "";
      var target := if "target" in query then query["target"] else "";
      if EmptyString(source) && EmptyString(target) {
        return MsgReply(400, NoBody);
      }
      if !EmptyString(source) && !IsValidUsername(source) {
        return MsgReply(400, NoBody);
      }
      if !EmptyString(target) && !IsValidUsername(target) {
        return MsgReply(400, NoBody);
      }
      if !EmptyString(source) && !EmptyString(target) && source == target {
        return MsgReply(400, NoBody);
      }
      assert GetGuardsPass(source, target);
      var messageData := Selected(table, source, target);
      if messageData == [] {
        return MsgReply(204, NoBody);
      }
      var messages: seq<MessageEntry> := [];
      for i := 0 to |messageData|
        invariant |messages| == i
        invariant forall j :: 0 <= j < i ==> messages[j] == ToEntry(messageData[j])
      {
        var row := messageData[i];
        var entry := MessageEntry(row.id, row.sent, row.source, row.target, row.text);
        messages := messages + [entry];
      }
      assert messages == Entries(messageData);
      reply := MsgReply(200, Listing(messages));
    }

    /**
     * POST(): the guards in order, then the insert; `stored` is whether the
     * database took the row and `now` the `sent` value it gave it.
     */
    method Post(form: map<string, string>, stored: bool, now: int) returns (reply: MsgReply)
      modifies this
      ensures reply == PostOutcome(form, stored, now, old(table)).reply
      ensures table == PostOutcome(form, stored, now, old(table)).table
    {
      if "source" !in form || "target" !in form {
        return MsgReply(400, NoBody);
      }
      var source := form["source"];
      var target := form["target"];
      var message := if "message" in form then Some(form["message"]) else None;
      if !IsValidUsername(source) {
        return MsgReply(400, NoBody);
      }
      if !IsValidUsername(target) {
        return MsgReply(400, NoBody);
      }
      if !IsValidMessage(message) {
        return MsgReply(400, NoBody);
      }
      if source == target {
        return MsgReply(400, NoBody);
      }
      var newId := table.nextId;
      var affected := 0;
      if stored {
        table := MessageTable(table.rows + [MessageRow(newId, source, target, message.value, now)], newId + 1);
        affected := 1;
      }
      if affected > 0 {
        reply := MsgReply(201, Created(Some(newId)));
      } else {
        reply := MsgReply(500, NoBody);
      }
    }
  }

  /** Main::__construct(): refuse anything but GET and POST, else hand the request to the service. */
  method Route(service: MessageService, verb: string, query: map<string, string>, form: map<string, string>,
               stored: bool, now: int) returns (reply: MsgReply)
    modifies service
    ensures reply == RouteOutcome(verb, query, form, stored, now, old(service.table)).reply
    ensures service.table == RouteOutcome(verb, query, form, stored, now, old(service.table)).table
  {
    if verb != "GET" && verb != "POST" {
      return MsgReply(405, NoBody);
    }
    if verb == "GET" {
      reply := service.Get(query);
    } else {
      reply := service.Post(form, stored, now);
    }
  }

  /**
   * One run of the script: connect (DBAccess answers 500 and exits on
   * failure), build the service over the table, and route the request.
   */
  method RunScript(connects: bool, verb: string, query: map<string, string>, form: map<string, string>,
                   stored: bool, now: int, t: MessageTable) returns (reply: MsgReply, after: MessageTable)
    ensures MsgOutcome(reply, after) == ScriptOutcome(connects, verb, query, form, stored, now, t)
    ensures t.Valid() ==> after.Valid()
  {
    if !connects {
      return MsgReply(500, Failure(ConnectionFailed)), t;
    }
    var service := new MessageService(t);
    reply := Route(service, verb, query, form, stored, now);
    after := service.table;
  }
}
