/**
 * The message resource of debug_api.php as functions of the request and the
 * message table: the two validators of MessageService, what GET selects and
 * how it orders and maps it, the guard sequence of POST and its insert, and
 * the routing of Main::__construct().
 */
module Messages {
  import opened PhpValues

  /** One row of the message table. */
  datatype MessageRow = MessageRow(id: nat, source: string, target: string, text: string, sent: int)

  /** The message table: rows in insertion order, and the next AUTO_INCREMENT value. */
  datatype MessageTable = MessageTable(rows: seq<MessageRow>, nextId: nat)
  {
    /** Ids increase in insertion order and stay below the counter. */
    predicate Valid()
    {
      && (forall i, j :: 0 <= i < j < |rows| ==> rows[i].id < rows[j].id)
      && (forall i :: 0 <= i < |rows| ==> rows[i].id < nextId)
    }
  }

  /** One element of the `messages` list GET returns. */
  datatype MessageEntry = MessageEntry(id: int, sent: int, source: string, target: string, message: string)

  datatype MsgBody =
    | NoBody                             // exit without output
    | Listing(messages: seq<MessageEntry>) // {messages: [...]}
    | Created(message: Option<int>)      // {message: newId}
    | Failure(error: string)             // {error, ...}

  /** The HTTP answer, or the uncaught PHP Error that ended the script. */
  datatype MsgReply = MsgReply(status: int, body: MsgBody) | MsgFatal(error: string)
  {
    predicate Is(code: int)
    {
      MsgReply? && status == code
    }
  }

  datatype MsgOutcome = MsgOutcome(reply: MsgReply, table: MessageTable)

  const ConnectionFailed := "Database connection has fialed"
  /** What PHP 8 throws for `this->...` (a constant named `this`, which is undefined). */
  const UndefinedThis := "Error: Undefined constant \"this\""

  // ---------------------------------------------------------------------
  // isValidUsername() and isValidMessage()

  predicate IsWordChar(c: char)
  {
    ('a' <= c <= 'z') || ('A' <= c <= 'Z') || ('0' <= c <= '9') || c == '_'
  }

  predicate WordChars(s: string)
  {
    forall i :: 0 <= i < |s| ==> IsWordChar(s[i])
  }

  /** The subject `[a-zA-Z0-9_]{3,20}` matches in full. */
  predicate WordOf3To20(s: string)
  {
    3 <= |s| <= 20 && WordChars(s)
  }

  /**
   * isValidUsername() on a string (query and form values always are one):
   * not empty(), and matched by `/^[a-zA-Z0-9_]{3,20}$/`. Without the D
   * modifier PCRE's `$` also matches just before a final "\n", so one
   * trailing newline is admitted.
   */
  predicate IsValidUsername(u: string)
    ensures IsValidUsername(u) ==>
      && !EmptyString(u) && 3 <= |u| <= 21
      && WordChars(u[..|u| - 1]) && (IsWordChar(u[|u| - 1]) || u[|u| - 1] == '\n')
  {
    && !EmptyString(u)
    && (WordOf3To20(u) || (|u| > 0 && u[|u| - 1] == '\n' && WordOf3To20(u[..|u| - 1])))
  }

  /** For a name without newlines: valid iff 3 to 20 characters, all in [A-Za-z0-9_]. */
  lemma UsernameWithoutNewline(u: string)
    requires forall i :: 0 <= i < |u| ==> u[i] != '\n'
    ensures IsValidUsername(u) <==> 3 <= |u| <= 20 && WordChars(u)
  {
  }

  /** A valid name spans at most 21 characters, and 20 unless it ends in the admitted newline. */
  lemma UsernameLength(u: string)
    requires IsValidUsername(u)
    ensures 3 <= |u| <= 21
    ensures |u| == 21 ==> u[20] == '\n'
  {
  }

  /** The pattern's `$` lets a name with one trailing newline through. */
  lemma UsernameTrailingNewline()
    ensures IsValidUsername("bob\n") && !WordChars("bob\n")
  {
    assert "bob\n"[..3] == "bob";
    assert !IsWordChar("bob\n"[3]);
  }

  /** isValidMessage(): `isset($message)`, the value is set and not null; nothing else is checked. */
  predicate IsValidMessage(m: Option<string>)
  {
    m.Some?
  }

  /** isValidMessage() accepts any text at all, the empty one included, and rejects only an unset message. */
  lemma MessageCheckAcceptsAnyText(m: string)
    ensures IsValidMessage(Some(m))
    ensures !IsValidMessage(None)
  {
  }

  // ---------------------------------------------------------------------
  // GET

  /** `isset($_GET[k]) ? $_GET[k] : ""` */
  function Param(query: map<string, string>, k: string): (r: string)
    ensures EmptyString(r) <==> k !in query || EmptyString(query[k])
  {
    if k in query then query[k] else ""
  }

  /** The WHERE clause GET chooses: both users, only the source, or only the target. */
  predicate Selects(source: string, target: string, r: MessageRow)
    ensures Selects(source, target, r) && !EmptyString(source) ==> r.source == source
    ensures Selects(source, target, r) && !EmptyString(target) ==> r.target == target
    ensures Selects(source, target, r) && EmptyString(source) ==> r.target == target
  {
    if !EmptyString(source) && !EmptyString(target) then r.source == source && r.target == target
    else if !EmptyString(source) then r.source == source
    else r.target == target
  }

  /** The rows the WHERE clause keeps, in table order. */
  function Filter(rows: seq<MessageRow>, source: string, target: string): (r: seq<MessageRow>)
    ensures |r| <= |rows|
  {
    if rows == [] then []
    else if Selects(source, target, rows[0]) then [rows[0]] + Filter(rows[1..], source, target)
    else Filter(rows[1..], source, target)
  }

  /**
   * The WHERE clause keeps every selected row, as often as the table holds
   * it, and no other row.
   */
  lemma {:induction false} FilterKeepsSelectedRows(rows: seq<MessageRow>, source: string, target: string)
    ensures forall x :: multiset(Filter(rows, source, target))[x]
                     == if Selects(source, target, x) then multiset(rows)[x] else 0
    ensures forall x :: x in Filter(rows, source, target) <==> x in rows && Selects(source, target, x)
  {
    if rows != [] {
      FilterKeepsSelectedRows(rows[1..], source, target);
      assert rows == [rows[0]] + rows[1..];
    }
    forall x ensures x in Filter(rows, source, target) <==> x in rows && Selects(source, target, x) {
      assert x in Filter(rows, source, target) <==> x in multiset(Filter(rows, source, target));
      assert x in rows <==> x in multiset(rows);
    }
  }

  predicate SortedBySent(rows: seq<MessageRow>)
  {
    forall i, j :: 0 <= i < j < |rows| ==> rows[i].sent <= rows[j].sent
  }

  /** No row of `rows` was sent before `b`. */
  predicate SentFrom(b: int, rows: seq<MessageRow>)
  {
    forall i :: 0 <= i < |rows| ==> b <= rows[i].sent
  }

  /** A row sent no later than every row of a sorted sequence can go in front of it. */
  lemma SortedCons(a: MessageRow, rest: seq<MessageRow>)
    requires SortedBySent(rest) && SentFrom(a.sent, rest)
    ensures SortedBySent([a] + rest)
  {
    var r := [a] + rest;
    forall i, j | 0 <= i < j < |r| ensures r[i].sent <= r[j].sent {
      if i == 0 {
        assert r[j] == rest[j - 1];
      } else {
        assert r[i] == rest[i - 1] && r[j] == rest[j - 1];
      }
    }
  }

  /** Insert `x` into sorted `rows` before the first row not sent before it. */
  function InsertBySent(x: MessageRow, rows: seq<MessageRow>): (r: seq<MessageRow>)
    requires SortedBySent(rows)
    ensures SortedBySent(r)
    ensures multiset(r) == multiset(rows) + multiset{x}
    ensures forall b :: b <= x.sent && SentFrom(b, rows) ==> SentFrom(b, r)
  {
    if rows == [] then [x]
    else if x.sent <= rows[0].sent then
      SortedCons(x, rows);
      [x] + rows
    else
      var rest := InsertBySent(x, rows[1..]);
      assert SentFrom(rows[0].sent, rows[1..]);
      assert SentFrom(rows[0].sent, rest);
      SortedCons(rows[0], rest);
      assert multiset(rows) == multiset{rows[0]} + multiset(rows[1..]) by {
        assert rows == [rows[0]] + rows[1..];
      }
      assert forall b :: SentFrom(b, rows) ==> b <= rows[0].sent && SentFrom(b, rows[1..]);
      [rows[0]] + rest
  }

  /**
   * `ORDER BY sent ASC`, as an insertion sort that keeps rows sent at the
   * same time in table order (SortKeepsTableOrderOfTies).
   */
  function SortBySent(rows: seq<MessageRow>): (r: seq<MessageRow>)
    ensures SortedBySent(r)
    ensures multiset(r) == multiset(rows)
  {
    if rows == [] then []
    else
      assert rows == [rows[0]] + rows[1..];
      InsertBySent(rows[0], SortBySent(rows[1..]))
  }

  /** The rows of `rows` sent at time `s`, in their order. */
  function SentAt(rows: seq<MessageRow>, s: int): seq<MessageRow>
  {
    if rows == [] then [] else (if rows[0].sent == s then [rows[0]] else []) + SentAt(rows[1..], s)
  }

  lemma SentAtCons(a: MessageRow, rest: seq<MessageRow>, s: int)
    ensures SentAt([a] + rest, s) == (if a.sent == s then [a] else []) + SentAt(rest, s)
  {
    assert ([a] + rest)[0] == a && ([a] + rest)[1..] == rest;
  }

  lemma {:induction false} InsertKeepsTableOrderOfTies(x: MessageRow, rows: seq<MessageRow>, s: int)
    requires SortedBySent(rows)
    ensures SentAt(InsertBySent(x, rows), s)
         == (if x.sent == s then [x] else []) + SentAt(rows, s)
  {
    if rows == [] {
      assert InsertBySent(x, rows) == [x] + [];
      SentAtCons(x, [], s);
    } else if x.sent <= rows[0].sent {
      assert InsertBySent(x, rows) == [x] + rows;
      SentAtCons(x, rows, s);
    } else {
      var rest := InsertBySent(x, rows[1..]);
      assert InsertBySent(x, rows) == [rows[0]] + rest;
      InsertKeepsTableOrderOfTies(x, rows[1..], s);
      SentAtCons(rows[0], rest, s);
      SentAtCons(rows[0], rows[1..], s);
      assert rows == [rows[0]] + rows[1..];
      // x was sent after rows[0], so at most one of the two belongs to time s.
      if x.sent == s {
        assert SentAt(rest, s) == [x] + SentAt(rows[1..], s);
        assert SentAt([rows[0]] + rest, s) == SentAt(rest, s);
        assert SentAt(rows, s) == SentAt(rows[1..], s);
      } else {
        assert SentAt(rest, s) == SentAt(rows[1..], s);
      }
    }
  }

  /** The sort is stable: for every time, the rows sent then come out in table order. */
  lemma {:induction false} SortKeepsTableOrderOfTies(rows: seq<MessageRow>, s: int)
    ensures SentAt(SortBySent(rows), s) == SentAt(rows, s)
  {
    if rows != [] {
      SortKeepsTableOrderOfTies(rows[1..], s);
      InsertKeepsTableOrderOfTies(rows[0], SortBySent(rows[1..]), s);
    }
  }

  /** The result set of GET's query. */
  function Selected(t: MessageTable, source: string, target: string): seq<MessageRow>
  {
    SortBySent(Filter(t.rows, source, target))
  }

  /** One row as GET reports it: the id as an int and the `text` column as `message`. */
  function ToEntry(r: MessageRow): MessageEntry
  {
    MessageEntry(r.id, r.sent, r.source, r.target, r.text)
  }

  function Entries(rows: seq<MessageRow>): (es: seq<MessageEntry>)
    ensures |es| == |rows|
  {
    seq(|rows|, i requires 0 <= i < |rows| => ToEntry(rows[i]))
  }

  /**
   * The listing loses nothing: each entry carries its row's id, time, users
   * and text, so different result sets give different listings.
   */
  lemma {:induction false} EntriesKeepRowFields(a: seq<MessageRow>, b: seq<MessageRow>)
    ensures forall i :: 0 <= i < |a| ==>
      && Entries(a)[i].id == a[i].id && Entries(a)[i].sent == a[i].sent
      && Entries(a)[i].source == a[i].source && Entries(a)[i].target == a[i].target
      && Entries(a)[i].message == a[i].text
    ensures Entries(a) == Entries(b) ==> a == b
  {
    if Entries(a) == Entries(b) {
      assert |a| == |b|;
      forall i | 0 <= i < |a| ensures a[i] == b[i] {
        assert Entries(a)[i] == Entries(b)[i];
      }
    }
  }

  /** The guards of GET, all but the query; the target is checked as a username. */
  predicate GetGuardsPass(source: string, target: string)
    ensures GetGuardsPass(source, target) ==>
      source != target && (IsValidUsername(source) || IsValidUsername(target))
  {
    && !(EmptyString(source) && EmptyString(target))
    && (EmptyString(source) || IsValidUsername(source))
    && (EmptyString(target) || IsValidUsername(target))
    && !(!EmptyString(source) && !EmptyString(target) && source == target)
  }

  /**
   * GET: 400 when no user is given, when a given user is not a valid
   * username, or when both are the same; then 204 when nothing is selected,
   * else 200 with the selected rows in order of `sent`.
   */
  function GetReply(query: map<string, string>, t: MessageTable): (r: MsgReply)
    ensures r.MsgReply? && r.status in {200, 204, 400}
    ensures r.Is(400) <==> !GetGuardsPass(Param(query, "source"), Param(query, "target"))
    ensures r.Is(200) ==> r.body.Listing? && r.body.messages != []
  {
    var source := Param(query, "source");
    var target := Param(query, "target");
    if !GetGuardsPass(source, target) then MsgReply(400, NoBody)
    else
      var data := Selected(t, source, target);
      if data == [] then MsgReply(204, NoBody)
      else MsgReply(200, Listing(Entries(data)))
  }

  /** GET lists exactly the selected rows, in order of `sent`, and each entry carries its row's fields. */
  lemma GetListsSelection(query: map<string, string>, t: MessageTable)
    requires GetGuardsPass(Param(query, "source"), Param(query, "target"))
    ensures var source, target := Param(query, "source"), Param(query, "target");
      var data := Selected(t, source, target);
      && multiset(data) == multiset(Filter(t.rows, source, target))
      && (forall x :: x in data <==> x in t.rows && Selects(source, target, x))
      && SortedBySent(data)
      && GetReply(query, t) == (if data == [] then MsgReply(204, NoBody) else MsgReply(200, Listing(Entries(data))))
      && (GetReply(query, t).Is(200) ==>
            forall i :: 0 <= i < |data| ==> GetReply(query, t).body.messages[i] == ToEntry(data[i]))
  {
    var source, target := Param(query, "source"), Param(query, "target");
    var data := Selected(t, source, target);
    FilterKeepsSelectedRows(t.rows, source, target);
    forall x | x in data ensures x in Filter(t.rows, source, target) {
      assert x in multiset(data);
    }
    forall x | x in Filter(t.rows, source, target) ensures x in data {
      assert x in multiset(Filter(t.rows, source, target));
    }
  }

  /** GET as written: PHP 8 throws an Error at line 128 whenever a non-empty target reaches it. */
  function GetReplyAsWritten(query: map<string, string>, t: MessageTable): (r: MsgReply)
    ensures !r.MsgFatal? ==> r == GetReply(query, t)
    ensures r.MsgFatal? <==>
      && !EmptyString(Param(query, "target"))
      && (EmptyString(Param(query, "source")) || IsValidUsername(Param(query, "source")))
    ensures r.MsgFatal? ==> r == MsgFatal(UndefinedThis)
  {
    var source := Param(query, "source");
    var target := Param(query, "target");
    if EmptyString(source) && EmptyString(target) then MsgReply(400, NoBody)
    else if !EmptyString(source) && !IsValidUsername(source) then MsgReply(400, NoBody)
    else if !EmptyString(target) then MsgFatal(UndefinedThis)
    else GetReply(query, t)
  }

  /** As written, asking for the messages sent to a user never answers. */
  lemma GetByTargetDiesAsWritten(t: MessageTable)
    ensures GetReplyAsWritten(map["target" := "bob"], t) == MsgFatal(UndefinedThis)
    ensures GetReply(map["target" := "bob"], t).status in {200, 204}
  {
  }

  /**
   * Even read as `$this->isValidMessage($target)`, line 128 would accept
   * any target: "bob smith" is no username but passes the message check.
   */
  lemma TargetCheckAsWrittenChecksNothing()
    ensures IsValidMessage(Some("bob smith")) && !IsValidUsername("bob smith")
  {
    assert !IsWordChar("bob smith"[3]);
  }

  /** Without a target the corrected GET and the code as written agree. */
  lemma GetWithoutTargetAgrees(query: map<string, string>, t: MessageTable)
    requires EmptyString(Param(query, "target"))
    ensures GetReplyAsWritten(query, t) == GetReply(query, t)
  {
  }

  // ---------------------------------------------------------------------
  // POST

  /** The guards of POST, in order: source and target set and valid, message set, users differ. */
  predicate PostGuardsPass(form: map<string, string>)
    ensures PostGuardsPass(form) ==>
      && "source" in form && "target" in form && "message" in form
      && 3 <= |form["source"]| <= 21 && 3 <= |form["target"]| <= 21
      && form["source"] != form["target"]
  {
    && "source" in form && "target" in form
    && IsValidUsername(form["source"])
    && IsValidUsername(form["target"])
    && IsValidMessage(if "message" in form then Some(form["message"]) else None)
    && form["source"] != form["target"]
  }

  /** The answer to the insert: 201 with the reported id when a row was affected, else 500. */
  function InsertReply(affected: nat, reported: Option<int>): (r: MsgReply)
    ensures r.Is(201) <==> affected > 0
    ensures r.Is(201) ==> r.body == Created(reported)
    ensures !r.Is(201) ==> r == MsgReply(500, NoBody)
  {
    if affected > 0 then MsgReply(201, Created(reported)) else MsgReply(500, NoBody)
  }

  /**
   * POST: the guards, then the INSERT. `stored` is whether the database
   * took the row (affected_rows is 1, else 0); `now` is the `sent` value the
   * database gives it.
   */
  function PostOutcome(form: map<string, string>, stored: bool, now: int, t: MessageTable): (o: MsgOutcome)
    ensures !PostGuardsPass(form) ==> o == MsgOutcome(MsgReply(400, NoBody), t)
    ensures !o.reply.Is(201) ==> o.table == t
    ensures o.reply.Is(201) <==> PostGuardsPass(form) && stored
    ensures o.reply.Is(201) ==>
      && o.reply.body == Created(Some(t.nextId))
      && o.table == MessageTable(t.rows + [MessageRow(t.nextId, form["source"], form["target"], form["message"], now)],
                                 t.nextId + 1)
    ensures t.Valid() ==> o.table.Valid()
  {
    if !PostGuardsPass(form) then MsgOutcome(MsgReply(400, NoBody), t)
    else
      var id := t.nextId;
      var row := MessageRow(id, form["source"], form["target"], form["message"], now);
      var after := if stored then MessageTable(t.rows + [row], id + 1) else t;
      MsgOutcome(InsertReply(if stored then 1 else 0, Some(id)), after)
  }

  /** POST as written: the id is read from `$stmt->conn`, which mysqli_stmt does not have, so it is null. */
  function PostOutcomeAsWritten(form: map<string, string>, stored: bool, now: int, t: MessageTable): (o: MsgOutcome)
    ensures o.table == PostOutcome(form, stored, now, t).table
    ensures !PostOutcome(form, stored, now, t).reply.Is(201) ==> o == PostOutcome(form, stored, now, t)
    ensures PostOutcome(form, stored, now, t).reply.Is(201) ==> o.reply == MsgReply(201, Created(None))
  {
    var o := PostOutcome(form, stored, now, t);
    if o.reply.Is(201) then MsgOutcome(InsertReply(1, None), o.table) else o
  }

  /** As written, a successful POST stores the row but reports no id for it. */
  lemma PostLosesIdAsWritten(form: map<string, string>, now: int, t: MessageTable)
    requires PostGuardsPass(form)
    ensures PostOutcomeAsWritten(form, true, now, t).reply == MsgReply(201, Created(None))
    ensures PostOutcome(form, true, now, t).reply == MsgReply(201, Created(Some(t.nextId)))
    ensures PostOutcome(form, true, now, t).table.rows[|t.rows|].id == t.nextId
  {
  }

  /** An unset source or target, an unset message, or equal users each lead to rejection. */
  lemma PostGuardOrder(form: map<string, string>)
    ensures !("source" in form && "target" in form) ==> !PostGuardsPass(form)
    ensures "source" in form && "target" in form && form["source"] == form["target"] ==> !PostGuardsPass(form)
    ensures "source" in form && "target" in form && "message" !in form ==> !PostGuardsPass(form)
    ensures PostGuardsPass(form) ==> "message" in form
  {
  }

  /** A message POST stored is listed by a GET for its two users, with its id, time and text. */
  lemma PostThenGet(form: map<string, string>, now: int, t: MessageTable)
    requires PostGuardsPass(form)
    ensures var after := PostOutcome(form, true, now, t).table;
      var query := map["source" := form["source"], "target" := form["target"]];
      var reply := GetReply(query, after);
      && reply.Is(200)
      && MessageEntry(t.nextId, now, form["source"], form["target"], form["message"]) in reply.body.messages
  {
    var after := PostOutcome(form, true, now, t).table;
    var source, target := form["source"], form["target"];
    var query := map["source" := source, "target" := target];
    assert Param(query, "source") == source && Param(query, "target") == target;
    var row := MessageRow(t.nextId, source, target, form["message"], now);
    assert row in after.rows by { assert after.rows[|t.rows|] == row; }
    assert GetGuardsPass(source, target);
    GetListsSelection(query, after);
    var data := Selected(after, source, target);
    assert row in data;
    var i :| 0 <= i < |data| && data[i] == row;
    assert Entries(data)[i] == ToEntry(row);
  }

  // ---------------------------------------------------------------------
  // Main::__construct() and the script

  /** Main::__construct(): only GET and POST reach MessageService; others get 405. */
  function RouteOutcome(verb: string, query: map<string, string>, form: map<string, string>,
                        stored: bool, now: int, t: MessageTable): (o: MsgOutcome)
    ensures verb !in {"GET", "POST"} ==> o == MsgOutcome(MsgReply(405, NoBody), t)
    ensures verb == "GET" ==> o == MsgOutcome(GetReply(query, t), t)
    ensures verb == "POST" ==> o == PostOutcome(form, stored, now, t)
  {
    if verb !in {"GET", "POST"} then MsgOutcome(MsgReply(405, NoBody), t)
    else if verb == "GET" then MsgOutcome(GetReply(query, t), t)
    else PostOutcome(form, stored, now, t)
  }

  /** The script: DBAccess answers 500 when it cannot connect; otherwise Main routes the request. */
  function ScriptOutcome(connects: bool, verb: string, query: map<string, string>, form: map<string, string>,
                         stored: bool, now: int, t: MessageTable): (o: MsgOutcome)
    ensures !connects ==> o == MsgOutcome(MsgReply(500, Failure(ConnectionFailed)), t)
    ensures t.Valid() ==> o.table.Valid()
    ensures o.table != t ==> verb == "POST" && o.reply.Is(201)
  {
    if !connects then MsgOutcome(MsgReply(500, Failure(ConnectionFailed)), t)
    else RouteOutcome(verb, query, form, stored, now, t)
  }
}
