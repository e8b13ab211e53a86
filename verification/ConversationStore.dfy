/** The conversation database as rows with `seq` and `active`. Each SQL statement asks an
    oracle whether it succeeds, so every failure point of an operation is an input. */
module ConversationStore {
  import opened Text
  import opened Types

  // --- Row encoding ----------------------------------------------------------------

  datatype Row = Row(
    id: nat,
    conversation: string,
    seqNo: int,
    role: string,
    content: string,
    extra: Json,
    active: bool)

  /** Text bound as a C string ends at its first NUL. */
  function CString(s: string): string {
    if s == "" || s[0] == '\0' then "" else [s[0]] + CString(s[1..])
  }

  function Stored(m: Message): Message { m.(content := CString(m.content)) }

  function RoleToString(r: Role): string {
    match r
    case System => "system"
    case User => "user"
    case Assistant => "assistant"
    case Tool => "tool"
  }

  function StringToRole(s: string): Role {
    if s == "system" then System
    else if s == "user" then User
    else if s == "assistant" then Assistant
    else if s == "tool" then Tool
    else System
  }

  function CallToJson(tc: ToolCall): Json {
    JObject(map["id" := JString(tc.id), "name" := JString(tc.name), "arguments" := tc.arguments])
  }

  function CallsToJson(tcs: seq<ToolCall>): seq<Json> {
    if tcs == [] then [] else CallsToJson(tcs[..|tcs| - 1]) + [CallToJson(tcs[|tcs| - 1])]
  }

  function With(fields: map<string, Json>, key: string, value: Option<Json>): map<string, Json> {
    if value.Some? then fields[key := value.value] else fields
  }

  function TextField(s: Option<string>): Option<Json> {
    if s.Some? then Some(JString(s.value)) else None
  }

  /** Fields shared by the `extra_json` column and an exported line. */
  function OptionalFields(fields: map<string, Json>, m: Message): map<string, Json> {
    var f1 := With(fields, "name", TextField(m.name));
    var f2 := With(f1, "tool_calls", if m.toolCalls.Some? then Some(JArray(CallsToJson(m.toolCalls.value))) else None);
    var f3 := With(f2, "tool_call_id", TextField(m.toolCallId));
    var f4 := With(f3, "mode", if m.mode != "" then Some(JString(m.mode)) else None);
    With(f4, "plan_file", if m.planFile != "" then Some(JString(m.planFile)) else None)
  }

  /** A message without optional fields is stored as JSON null. */
  function MessageToExtra(m: Message): Json {
    var fields := OptionalFields(map[], m);
    if fields == map[] then JNull else JObject(fields)
  }

  function CallFromJson(j: Json): Option<ToolCall> {
    if j.JObject? && "id" in j.fields && j.fields["id"].JString?
       && "name" in j.fields && j.fields["name"].JString? && "arguments" in j.fields
    then Some(ToolCall(j.fields["id"].s, j.fields["name"].s, j.fields["arguments"]))
    else None
  }

  function CallsFromJson(js: seq<Json>): Option<seq<ToolCall>> {
    if js == [] then Some([])
    else
      var init, last := CallsFromJson(js[..|js| - 1]), CallFromJson(js[|js| - 1]);
      if init.None? || last.None? then None else Some(init.value + [last.value])
  }

  function GetText(fields: map<string, Json>, key: string): Option<string> {
    if key in fields && fields[key].JString? then Some(fields[key].s) else None
  }

  /** A field that is present but not a string stops the decoding. */
  predicate BadText(fields: map<string, Json>, key: string) {
    key in fields && !fields[key].JString?
  }

  function GetCalls(fields: map<string, Json>): Option<seq<ToolCall>> {
    if "tool_calls" in fields && fields["tool_calls"].JArray? then CallsFromJson(fields["tool_calls"].items) else None
  }

  function OrEmpty(s: Option<string>): string { if s.Some? then s.value else "" }

  function RowToMessage(role: string, content: string, extra: Json): Message {
    var m := Plain(StringToRole(role), content);
    if !extra.JObject? || BadText(extra.fields, "name") then m
    else
      var f := extra.fields;
      var m1 := m.(name := GetText(f, "name"));
      if "tool_calls" in f && GetCalls(f).None? then m1
      else
        var m2 := m1.(toolCalls := GetCalls(f));
        if BadText(f, "tool_call_id") then m2
        else m2.(toolCallId := GetText(f, "tool_call_id"),
                 mode := OrEmpty(GetText(f, "mode")), planFile := OrEmpty(GetText(f, "plan_file")))
  }

  function Decode(r: Row): Message { RowToMessage(r.role, r.content, r.extra) }

  lemma CallsSnoc(tcs: seq<ToolCall>, tc: ToolCall, js: seq<Json>, j: Json)
    ensures CallsToJson(tcs + [tc]) == CallsToJson(tcs) + [CallToJson(tc)]
    ensures CallsFromJson(js + [j]) ==
            if CallsFromJson(js).None? || CallFromJson(j).None? then None
            else Some(CallsFromJson(js).value + [CallFromJson(j).value])
  {
    assert (tcs + [tc])[..|tcs|] == tcs && (js + [j])[..|js|] == js;
  }

  lemma {:induction false} CallsRoundTrip(tcs: seq<ToolCall>)
    ensures CallsFromJson(CallsToJson(tcs)) == Some(tcs)
  {
    if tcs != [] {
      var init, tc := tcs[..|tcs| - 1], tcs[|tcs| - 1];
      assert CallFromJson(CallToJson(tc)) == Some(tc);
      hide CallsToJson, CallsFromJson, CallToJson, CallFromJson;
      CallsRoundTrip(init);
      CallsSnoc(init, tc, CallsToJson(init), CallToJson(tc));
      assert tcs == init + [tc];
    }
  }

  lemma {:induction false} CStringFacts(s: string)
    ensures '\0' !in CString(s) && |CString(s)| <= |s|
    ensures CString(s) == s <==> '\0' !in s
    ensures CString(CString(s)) == CString(s)
  {
    if s != "" {
      CStringFacts(s[1..]);
      assert s == [s[0]] + s[1..];
      if s[0] != '\0' {
        assert CString(s)[0] == s[0] && CString(s)[1..] == CString(s[1..]);
      }
    }
  }

  lemma FieldsRoundTrip(m: Message, fields: map<string, Json>)
    requires "name" !in fields && "tool_calls" !in fields && "tool_call_id" !in fields
    requires "mode" !in fields && "plan_file" !in fields
    ensures var f := OptionalFields(fields, m);
            && !BadText(f, "name") && GetText(f, "name") == m.name
            && ("tool_calls" in f <==> m.toolCalls.Some?) && GetCalls(f) == m.toolCalls
            && !BadText(f, "tool_call_id") && GetText(f, "tool_call_id") == m.toolCallId
            && OrEmpty(GetText(f, "mode")) == m.mode && OrEmpty(GetText(f, "plan_file")) == m.planFile
            && ("name" in f <==> m.name.Some?) && ("tool_call_id" in f <==> m.toolCallId.Some?)
            && ("mode" in f <==> m.mode != "") && ("plan_file" in f <==> m.planFile != "")
  {
    if m.toolCalls.Some? { CallsRoundTrip(m.toolCalls.value); }
  }

  /** Role names are read back, and every other name reads as system. */
  lemma RolesRoundTrip(r: Role, name: string)
    ensures StringToRole(RoleToString(r)) == r
    ensures StringToRole(name) != System ==> name == RoleToString(StringToRole(name))
  {
  }

  /** A stored message reads back as itself, all optional fields included, exactly when its
      content holds no NUL. */
  lemma RowRoundTrip(m: Message)
    ensures RowToMessage(RoleToString(m.role), CString(m.content), MessageToExtra(m)) == Stored(m)
    ensures Stored(m) == m <==> '\0' !in m.content
  {
    CStringFacts(m.content);
    hide CString;
    ReadBack(m, CString(m.content));
  }

  lemma ReadBack(m: Message, content: string)
    ensures RowToMessage(RoleToString(m.role), content, MessageToExtra(m)) == m.(content := content)
  {
    FieldsRoundTrip(m, map[]);
    hide OptionalFields, GetCalls, BadText, GetText, OrEmpty;
  }

  // --- The tables ------------------------------------------------------------------

  /** Every statement the store runs; `i` counts the messages of one operation. */
  datatype Stmt =
    | Open | PrepCreate | Create | PrepDelete | Delete | PrepCheck | PrepLoad
    | PrepSeq(i: nat) | ReadSeq(i: nat) | PrepInsert(i: nat) | Insert(i: nat)
    | PrepMeta | UpdateMeta | Begin | PrepArchive | Archive | PrepTouch | Touch | Commit

  type Oracle = Stmt -> bool

  datatype Db = Db(conversations: set<string>, rows: seq<Row>, nextId: nat)

  /** Rows of one conversation in table order. */
  function RowsOf(rows: seq<Row>, c: string): seq<Row> {
    if rows == [] then []
    else RowsOf(rows[..|rows| - 1], c) + if rows[|rows| - 1].conversation == c then [rows[|rows| - 1]] else []
  }

  function Actives(rows: seq<Row>): seq<Row> {
    if rows == [] then []
    else Actives(rows[..|rows| - 1]) + if rows[|rows| - 1].active then [rows[|rows| - 1]] else []
  }

  function Decoded(rows: seq<Row>): seq<Message> {
    if rows == [] then [] else Decoded(rows[..|rows| - 1]) + [Decode(rows[|rows| - 1])]
  }

  /** `COALESCE(MAX(seq), -1) + 1`. */
  function NextSeq(rows: seq<Row>, c: string): nat {
    if rows == [] then 0
    else
      var n, last := NextSeq(rows[..|rows| - 1], c), rows[|rows| - 1];
      if last.conversation == c && last.seqNo >= n then last.seqNo + 1 else n
  }

  function Place(rows: seq<Row>, r: Row): seq<Row> {
    if rows == [] || rows[|rows| - 1].seqNo <= r.seqNo then rows + [r]
    else Place(rows[..|rows| - 1], r) + [rows[|rows| - 1]]
  }

  /** `ORDER BY seq ASC`, ties in table order. */
  function BySeq(rows: seq<Row>): seq<Row> {
    if rows == [] then [] else Place(BySeq(rows[..|rows| - 1]), rows[|rows| - 1])
  }

  function LoadRows(db: Db, c: string, activeOnly: bool): seq<Message> {
    Decoded(BySeq(if activeOnly then Actives(RowsOf(db.rows, c)) else RowsOf(db.rows, c)))
  }

  function MakeRow(db: Db, c: string, seqNo: int, m: Message): Row {
    Row(db.nextId, c, seqNo, RoleToString(m.role), CString(m.content), MessageToExtra(m), true)
  }

  function AddRow(db: Db, c: string, seqNo: int, m: Message): Db {
    db.(rows := db.rows + [MakeRow(db, c, seqNo, m)], nextId := db.nextId + 1)
  }

  /** The number the next row gets. A failing read is silent and yields 0. */
  function SeqRead(db: Db, c: string, i: nat, ok: Oracle): nat {
    if ok(ReadSeq(i)) then NextSeq(db.rows, c) else 0
  }

  /** The row reaches the table; the foreign key refuses unknown conversations. */
  predicate Inserts(db: Db, c: string, i: nat, ok: Oracle) {
    ok(PrepSeq(i)) && ok(PrepInsert(i)) && ok(Insert(i)) && c in db.conversations
  }

  function Appended(db: Db, c: string, m: Message, ok: Oracle): Db {
    if ok(Open) && Inserts(db, c, 0, ok) then AddRow(db, c, SeqRead(db, c, 0, ok), m) else db
  }

  function Deactivate(rows: seq<Row>, c: string): seq<Row> {
    if rows == [] then []
    else
      var last := rows[|rows| - 1];
      Deactivate(rows[..|rows| - 1], c) + [if last.conversation == c then last.(active := false) else last]
  }

  function InsertFrom(db: Db, c: string, ms: seq<Message>, i: nat, ok: Oracle): Option<Db>
    requires i <= |ms|
    decreases |ms| - i
  {
    if i == |ms| then Some(db)
    else if !Inserts(db, c, i, ok) then None
    else InsertFrom(AddRow(db, c, SeqRead(db, c, i, ok), ms[i]), c, ms, i + 1, ok)
  }

  /** The committed outcome of a compaction, absent when any statement fails. */
  function Compacted(db: Db, c: string, ms: seq<Message>, ok: Oracle): Option<Db> {
    if !(ok(Open) && ok(Begin) && ok(PrepArchive) && ok(Archive)) then None
    else
      var inserted := InsertFrom(db.(rows := Deactivate(db.rows, c)), c, ms, 0, ok);
      if inserted.Some? && ok(PrepTouch) && ok(Touch) && ok(Commit) then inserted else None
  }

  /** The statements that write row `i` succeed. */
  predicate RowSucceeds(i: nat, ok: Oracle) { ok(PrepSeq(i)) && ok(PrepInsert(i)) && ok(Insert(i)) }

  /** Every statement of a compaction to `n` messages succeeds, number reads aside. */
  predicate CompactSucceeds(n: nat, ok: Oracle) {
    && ok(Open) && ok(Begin) && ok(PrepArchive) && ok(Archive)
    && (forall i: nat :: i < n ==> RowSucceeds(i, ok))
    && ok(PrepTouch) && ok(Touch) && ok(Commit)
  }

  /** Which rows a compaction could insert does not depend on the numbers it reads. */
  lemma {:induction false} InsertsAll(db: Db, c: string, ms: seq<Message>, i: nat, ok: Oracle)
    requires i <= |ms|
    ensures InsertFrom(db, c, ms, i, ok).Some? <==> forall j: nat :: i <= j < |ms| ==> Inserts(db, c, j, ok)
    decreases |ms| - i
  {
    if i < |ms| && Inserts(db, c, i, ok) {
      var mid := AddRow(db, c, SeqRead(db, c, i, ok), ms[i]);
      InsertsAll(mid, c, ms, i + 1, ok);
      assert forall j: nat :: Inserts(mid, c, j, ok) <==> Inserts(db, c, j, ok);
    }
  }

  /** A compaction commits exactly when every statement succeeds, number reads aside, and the
      conversation exists or gets no rows. */
  lemma CommitsExactly(db: Db, c: string, ms: seq<Message>, ok: Oracle)
    ensures Compacted(db, c, ms, ok).Some? <==> CompactSucceeds(|ms|, ok) && (ms == [] || c in db.conversations)
  {
    var archived := db.(rows := Deactivate(db.rows, c));
    InsertsAll(archived, c, ms, 0, ok);
    assert forall j: nat :: Inserts(archived, c, j, ok) <==> RowSucceeds(j, ok) && c in db.conversations;
    hide InsertFrom, Deactivate, Inserts, RowSucceeds;
    if ms != [] && Compacted(db, c, ms, ok).Some? { assert Inserts(archived, c, 0, ok); }
  }

  function WithoutRows(rows: seq<Row>, c: string): seq<Row> {
    if rows == [] then []
    else WithoutRows(rows[..|rows| - 1], c) + if rows[|rows| - 1].conversation == c then [] else [rows[|rows| - 1]]
  }

  function Removed(db: Db, c: string): Db {
    Db(db.conversations - {c}, WithoutRows(db.rows, c), db.nextId)
  }

  // --- The store -------------------------------------------------------------------

  class SqliteStore {
    var conversations: set<string>
    var rows: seq<Row>
    var nextId: nat

    function State(): Db
      reads this
    {
      Db(conversations, rows, nextId)
    }

    constructor ()
      ensures State() == Db({}, [], 1)
    {
      conversations, rows, nextId := {}, [], 1;
    }

    /** `id` is the generated identifier; the primary key refuses a collision. */
    method CreateConversation(id: string, ok: Oracle) returns (created: bool)
      modifies this
      ensures created <==> ok(Open) && ok(PrepCreate) && ok(Create) && id !in old(conversations)
      ensures State() == if created then old(State()).(conversations := old(conversations) + {id}) else old(State())
    {
      if !ok(Open) || !ok(PrepCreate) { return false; }
      if !ok(Create) || id in conversations { return false; }
      conversations := conversations + {id};
      created := true;
    }

    /** A row can be written although the call reports an error: the metadata update comes
        after the insert and is not in the same transaction. */
    method Append(c: string, m: Message, ok: Oracle) returns (success: bool)
      modifies this
      ensures State() == Appended(old(State()), c, m, ok)
      ensures rows != old(rows) <==> ok(Open) && RowSucceeds(0, ok) && c in old(conversations)
      ensures rows != old(rows) ==>
                && |rows| == |old(rows)| + 1 && rows[..|old(rows)|] == old(rows)
                && rows[|old(rows)|].conversation == c && rows[|old(rows)|].active
                && nextId == old(nextId) + 1 && rows[|old(rows)|].id == old(nextId)
                && Decode(rows[|old(rows)|]) == Stored(m)
      ensures success <==> rows != old(rows) && ok(PrepMeta) && ok(UpdateMeta)
    {
      RowRoundTrip(m);
      hide RowToMessage, MessageToExtra, RoleToString, NextSeq;
      if !ok(Open) { return false; }
      if !ok(PrepSeq(0)) { return false; }
      var nextSeq := 0;
      if ok(ReadSeq(0)) { nextSeq := NextSeq(rows, c); }
      if !ok(PrepInsert(0)) { return false; }
      if !ok(Insert(0)) || c !in conversations { return false; }
      rows := rows + [Row(nextId, c, nextSeq, RoleToString(m.role), CString(m.content), MessageToExtra(m), true)];
      nextId := nextId + 1;
      success := ok(PrepMeta) && ok(UpdateMeta);
    }

    /** All or nothing: the tables hold the compacted conversation or what they held before. */
    method ArchiveAndCompact(c: string, compressed: seq<Message>, ok: Oracle) returns (success: bool)
      modifies this
      ensures success <==> Compacted(old(State()), c, compressed, ok).Some?
      ensures success <==>
                CompactSucceeds(|compressed|, ok) && (compressed == [] || c in old(conversations))
      ensures (forall stmt :: ok(stmt)) && c in old(conversations) ==> success
      ensures State() == if success then Compacted(old(State()), c, compressed, ok).value else old(State())
    {
      CommitsExactly(State(), c, compressed, ok);
      hide CompactSucceeds;
      if !ok(Open) || !ok(Begin) { return false; }
      var savedRows, savedId := rows, nextId;
      if !ok(PrepArchive) || !ok(Archive) { return false; }
      rows := Deactivate(rows, c);
      ghost var target := InsertFrom(State(), c, compressed, 0, ok);
      for i := 0 to |compressed|
        invariant conversations == old(conversations)
        invariant InsertFrom(State(), c, compressed, i, ok) == target
      {
        var inserted := InsertCompressed(c, compressed[i], i, ok);
        if !inserted {
          rows, nextId := savedRows, savedId;
          return false;
        }
      }
      if !ok(PrepTouch) || !ok(Touch) || !ok(Commit) {
        rows, nextId := savedRows, savedId;
        return false;
      }
      success := true;
    }

    method InsertCompressed(c: string, m: Message, i: nat, ok: Oracle) returns (inserted: bool)
      modifies this
      ensures inserted <==> Inserts(old(State()), c, i, ok)
      ensures inserted ==> State() == AddRow(old(State()), c, SeqRead(old(State()), c, i, ok), m)
      ensures !inserted ==> State() == old(State())
    {
      if !ok(PrepSeq(i)) { return false; }
      var nextSeq := 0;
      if ok(ReadSeq(i)) { nextSeq := NextSeq(rows, c); }
      if !ok(PrepInsert(i)) { return false; }
      if !ok(Insert(i)) || c !in conversations { return false; }
      rows := rows + [Row(nextId, c, nextSeq, RoleToString(m.role), CString(m.content), MessageToExtra(m), true)];
      nextId := nextId + 1;
      inserted := true;
    }

    method Load(c: string, activeOnly: bool, ok: Oracle) returns (messages: Option<seq<Message>>)
      ensures messages == if ok(Open) && ok(PrepCheck) && c in conversations && ok(PrepLoad)
                          then Some(LoadRows(State(), c, activeOnly)) else None
    {
      if !ok(Open) || !ok(PrepCheck) { return None; }
      if c !in conversations { return None; }
      if !ok(PrepLoad) { return None; }
      messages := Some(LoadRows(State(), c, activeOnly));
    }

    /** Deleting a conversation cascades to its rows. */
    method Remove(c: string, ok: Oracle) returns (removed: Option<bool>)
      modifies this
      ensures removed == if ok(Open) && ok(PrepDelete) && ok(Delete) then Some(c in old(conversations)) else None
      ensures State() == if removed == Some(true) then Removed(old(State()), c) else old(State())
    {
      if !ok(Open) || !ok(PrepDelete) || !ok(Delete) { return None; }
      removed := Some(c in conversations);
      if c in conversations {
        conversations := conversations - {c};
        rows := WithoutRows(rows, c);
      }
    }
  }
}
