/** Export of a conversation as one JSON object per line, and import of such a text. */
module JsonLines {
  import opened Text
  import opened Types
  import opened ConversationStore
  import opened StoreSafety

  /** JSON text: `dump` writes a value on one line, `parse` reads one back. */
  datatype Codec = Codec(dump: Json -> string, parse: string -> Option<Json>)

  ghost predicate Lawful(codec: Codec) {
    forall j {:trigger codec.dump(j)} ::
      codec.parse(codec.dump(j)) == Some(j) && '\n' !in codec.dump(j) && codec.dump(j) != ""
  }

  // --- Export ----------------------------------------------------------------------

  function LineOf(m: Message): Json {
    JObject(OptionalFields(map["role" := JString(RoleToString(m.role)), "content" := JString(m.content)], m))
  }

  function DumpedLines(ms: seq<Message>, codec: Codec): seq<string> {
    if ms == [] then [] else [codec.dump(LineOf(ms[0]))] + DumpedLines(ms[1..], codec)
  }

  /** Every line closed by a line break. */
  function Lines(parts: seq<string>): string {
    if parts == [] then "" else parts[0] + "\n" + Lines(parts[1..])
  }

  lemma {:induction false} LinesSnoc(parts: seq<string>, p: string)
    ensures Lines(parts + [p]) == Lines(parts) + p + "\n"
  {
    if parts == [] {
      assert [p][1..] == [];
    } else {
      assert (parts + [p])[1..] == parts[1..] + [p];
      LinesSnoc(parts[1..], p);
    }
  }

  lemma {:induction false} DumpedSnoc(ms: seq<Message>, m: Message, codec: Codec)
    ensures DumpedLines(ms + [m], codec) == DumpedLines(ms, codec) + [codec.dump(LineOf(m))]
  {
    if ms == [] {
      assert [m][1..] == [];
    } else {
      assert (ms + [m])[1..] == ms[1..] + [m];
      DumpedSnoc(ms[1..], m, codec);
    }
  }

  method ExportJsonl(store: SqliteStore, c: string, codec: Codec, ok: Oracle) returns (text: Option<string>)
    ensures text == if ok(Open) && ok(PrepCheck) && c in store.conversations && ok(PrepLoad)
                    then Some(Lines(DumpedLines(LoadRows(store.State(), c, true), codec))) else None
  {
    var msgs := store.Load(c, true, ok);
    if msgs.None? { return None; }
    var out := "";
    for i := 0 to |msgs.value|
      invariant out == Lines(DumpedLines(msgs.value[..i], codec))
    {
      assert msgs.value[..i + 1] == msgs.value[..i] + [msgs.value[i]];
      DumpedSnoc(msgs.value[..i], msgs.value[i], codec);
      LinesSnoc(DumpedLines(msgs.value[..i], codec), codec.dump(LineOf(msgs.value[i])));
      out := out + codec.dump(LineOf(msgs.value[i])) + "\n";
    }
    assert msgs.value[..|msgs.value|] == msgs.value;
    text := Some(out);
  }

  // --- Import ----------------------------------------------------------------------

  datatype LineResult = Parsed(m: Message) | BadLine | Throws

  /** A call of an imported line: missing texts are empty, missing arguments are null, and
      a field of the wrong type throws. */
  function ReadCall(j: Json): Option<ToolCall> {
    if !j.JObject? || BadText(j.fields, "id") || BadText(j.fields, "name") then None
    else
      Some(ToolCall(OrEmpty(GetText(j.fields, "id")), OrEmpty(GetText(j.fields, "name")),
                    if "arguments" in j.fields then j.fields["arguments"] else JNull))
  }

  function ReadCalls(js: seq<Json>): Option<seq<ToolCall>> {
    if js == [] then Some([])
    else
      var init, last := ReadCalls(js[..|js| - 1]), ReadCall(js[|js| - 1]);
      if init.None? || last.None? then None else Some(init.value + [last.value])
  }

  function ReadFields(f: map<string, Json>): LineResult {
    if "role" !in f || !f["role"].JString? then BadLine
    else if BadText(f, "content") then Throws
    else
      var hasCalls := "tool_calls" in f && f["tool_calls"].JArray?;
      var calls := if hasCalls then ReadCalls(f["tool_calls"].items) else None;
      if hasCalls && calls.None? then Throws
      else
        Parsed(Message(StringToRole(f["role"].s), OrEmpty(GetText(f, "content")), GetText(f, "name"), calls,
                       GetText(f, "tool_call_id"), OrEmpty(GetText(f, "mode")), OrEmpty(GetText(f, "plan_file"))))
  }

  function ReadLine(line: string, codec: Codec): LineResult {
    var j := codec.parse(line);
    if j.None? || !j.value.JObject? then BadLine else ReadFields(j.value.fields)
  }

  ghost predicate BadCall(j: Json) {
    !j.JObject? || ("id" in j.fields && !j.fields["id"].JString?) || ("name" in j.fields && !j.fields["name"].JString?)
  }

  lemma {:induction false} ReadCallsFail(js: seq<Json>)
    ensures ReadCalls(js).None? <==> exists i :: 0 <= i < |js| && BadCall(js[i])
  {
    if js != [] {
      var init, last := js[..|js| - 1], js[|js| - 1];
      ReadCallsFail(init);
      assert ReadCall(last).None? <==> BadCall(last);
      assert js[|js| - 1] == last && forall i :: 0 <= i < |init| ==> js[i] == init[i];
      hide BadCall, ReadCall;
      if i :| 0 <= i < |init| && BadCall(init[i]) { assert BadCall(js[i]); }
    }
  }

  /** A field that is a text, and what stands for one that is missing or is none. */
  function TextOr(f: map<string, Json>, key: string, default: string): string {
    if key in f && f[key].JString? then f[key].s else default
  }

  /** An object is no message exactly when it has no role that is a text. It throws when its
      content is present but no text, or one of its calls cannot be read. */
  lemma FieldsMeaning(f: map<string, Json>)
    ensures ReadFields(f) == BadLine <==> "role" !in f || !f["role"].JString?
    ensures ReadFields(f) == Throws <==>
            && "role" in f && f["role"].JString?
            && (("content" in f && !f["content"].JString?)
                || ("tool_calls" in f && f["tool_calls"].JArray?
                    && exists i :: 0 <= i < |f["tool_calls"].items| && BadCall(f["tool_calls"].items[i])))
    ensures ReadFields(f).Parsed? ==>
              var m := ReadFields(f).m;
              && m.role == StringToRole(TextOr(f, "role", "")) && m.content == TextOr(f, "content", "")
              && m.mode == TextOr(f, "mode", "") && m.planFile == TextOr(f, "plan_file", "")
              && (m.name.Some? <==> "name" in f && f["name"].JString?)
              && (m.name.Some? ==> m.name.value == TextOr(f, "name", ""))
              && (m.toolCallId.Some? <==> "tool_call_id" in f && f["tool_call_id"].JString?)
              && (m.toolCallId.Some? ==> m.toolCallId.value == TextOr(f, "tool_call_id", ""))
              && (m.toolCalls.Some? <==> "tool_calls" in f && f["tool_calls"].JArray?)
  {
    if "tool_calls" in f && f["tool_calls"].JArray? { ReadCallsFail(f["tool_calls"].items); }
    hide ReadCalls, BadCall, StringToRole;
  }

  /** Lines as `std::getline` yields them: an unterminated last line counts when non-empty. */
  function InputLines(text: string): seq<string> {
    Blocks(text, "\n") + if Rest(text, "\n") == "" then [] else [Rest(text, "\n")]
  }

  datatype Outcome = Imported | NotCreated | ParseError | Threw | AppendFailed

  predicate AppendOk(db: Db, c: string, ok: Oracle) {
    ok(Open) && Inserts(db, c, 0, ok) && ok(PrepMeta) && ok(UpdateMeta)
  }

  function AfterFailedAppend(db: Db, c: string, ok: Oracle): Db {
    if ok(Open) && ok(PrepDelete) && ok(Delete) && c in db.conversations then Removed(db, c) else db
  }

  /** `oracles(i)` serves the append of line `i` and its cleanup. Only a failed append
      removes the partial conversation; a line that does not parse leaves it behind. */
  function ImportFrom(db: Db, c: string, lines: seq<string>, i: nat, codec: Codec, oracles: nat -> Oracle)
    : (Db, Outcome)
    requires i <= |lines|
    decreases |lines| - i
  {
    if i == |lines| then (db, Imported)
    else if lines[i] == "" then ImportFrom(db, c, lines, i + 1, codec, oracles)
    else
      match ReadLine(lines[i], codec)
      case BadLine => (db, ParseError)
      case Throws => (db, Threw)
      case Parsed(m) =>
        var next := Appended(db, c, m, oracles(i));
        if AppendOk(db, c, oracles(i)) then ImportFrom(next, c, lines, i + 1, codec, oracles)
        else (AfterFailedAppend(next, c, oracles(i)), AppendFailed)
  }

  method ImportJsonl(store: SqliteStore, text: string, id: string, codec: Codec, create: Oracle, oracles: nat -> Oracle)
    returns (outcome: Outcome)
    modifies store
    ensures create(Open) && create(PrepCreate) && create(Create) && id !in old(store.conversations) ==>
      var start := old(store.State()).(conversations := old(store.conversations) + {id});
      (store.State(), outcome) == ImportFrom(start, id, InputLines(text), 0, codec, oracles)
    ensures !(create(Open) && create(PrepCreate) && create(Create) && id !in old(store.conversations)) ==>
      store.State() == old(store.State()) && outcome == NotCreated
  {
    var created := store.CreateConversation(id, create);
    if !created { return NotCreated; }
    var lines := InputLines(text);
    ghost var target := ImportFrom(store.State(), id, lines, 0, codec, oracles);
    for i := 0 to |lines|
      invariant ImportFrom(store.State(), id, lines, i, codec, oracles) == target
    {
      if lines[i] == "" { continue; }
      var line := ReadLine(lines[i], codec);
      if line.BadLine? { return ParseError; }
      if line.Throws? { return Threw; }
      var appended := store.Append(id, line.m, oracles(i));
      if !appended {
        var _ := store.Remove(id, oracles(i));
        return AppendFailed;
      }
    }
    outcome := Imported;
  }

  // --- What an import leaves -------------------------------------------------------

  /** The messages of the first `k` lines; blank lines give none. */
  function MessagesIn(lines: seq<string>, codec: Codec, k: nat): seq<Message>
    requires k <= |lines|
  {
    if k == 0 then []
    else
      var r := ReadLine(lines[k - 1], codec);
      MessagesIn(lines, codec, k - 1) + if lines[k - 1] != "" && r.Parsed? then [r.m] else []
  }

  /** The import goes on behind this line. */
  predicate Passes(line: string, codec: Codec, ok: Oracle) {
    line == "" || (ReadLine(line, codec).Parsed? && ok(Open) && RowSucceeds(0, ok) && ok(PrepMeta) && ok(UpdateMeta))
  }

  /** The rows of `c` have grown by these messages and no others have changed. */
  ghost predicate Grown(db: Db, next: Db, c: string, ms: seq<Message>) {
    && next.conversations == db.conversations && Written(next, c) == Written(db, c) + StoredAll(ms)
    && forall d :: d != c ==> Written(next, d) == Written(db, d)
  }

  lemma GrowsOne(db: Db, mid: Db, c: string, ms: seq<Message>, m: Message, ok: Oracle)
    requires Grown(db, mid, c, ms) && c in db.conversations
    ensures ok(Open) && RowSucceeds(0, ok) ==> Grown(db, Appended(mid, c, m, ok), c, ms + [m])
    ensures !(ok(Open) && RowSucceeds(0, ok)) ==> Appended(mid, c, m, ok) == mid
  {
    if ok(Open) && RowSucceeds(0, ok) {
      var next := AddRow(mid, c, SeqRead(mid, c, 0, ok), m);
      assert Appended(mid, c, m, ok) == next && next.conversations == mid.conversations;
      hide Written, AddRow, SeqRead;
      forall d
        ensures Written(next, d) == Written(mid, d) + if d == c then [Stored(m)] else []
      {
        AddWritten(mid, c, SeqRead(mid, c, 0, ok), m, d);
      }
      assert StoredAll(ms + [m]) == StoredAll(ms) + [Stored(m)];
      AppendAssoc(Written(db, c), StoredAll(ms), [Stored(m)]);
      assert forall d :: Written(mid, d) + [] == Written(mid, d);
    }
  }

  lemma ImportNext(db: Db, c: string, lines: seq<string>, i: nat, codec: Codec, oracles: nat -> Oracle)
    requires i < |lines| && c in db.conversations && Passes(lines[i], codec, oracles(i))
    ensures var next := if lines[i] == "" then db else Appended(db, c, ReadLine(lines[i], codec).m, oracles(i));
            ImportFrom(db, c, lines, i, codec, oracles) == ImportFrom(next, c, lines, i + 1, codec, oracles)
  {
    hide ReadLine, Appended;
  }

  lemma MessagesNext(lines: seq<string>, codec: Codec, i: nat)
    requires i < |lines|
    ensures lines[i] == "" ==> MessagesIn(lines, codec, i + 1) == MessagesIn(lines, codec, i)
    ensures lines[i] != "" && ReadLine(lines[i], codec).Parsed? ==>
              MessagesIn(lines, codec, i + 1) == MessagesIn(lines, codec, i) + [ReadLine(lines[i], codec).m]
  {
    hide ReadLine;
    assert MessagesIn(lines, codec, i) + [] == MessagesIn(lines, codec, i);
  }

  /** The lines before one that stops the import are written, in order. */
  lemma {:induction false} ImportPasses(db: Db, c: string, lines: seq<string>, k: nat, codec: Codec,
                                        oracles: nat -> Oracle) returns (mid: Db)
    requires k <= |lines| && c in db.conversations
    requires forall j: nat :: j < k ==> Passes(lines[j], codec, oracles(j))
    ensures ImportFrom(db, c, lines, 0, codec, oracles) == ImportFrom(mid, c, lines, k, codec, oracles)
    ensures Grown(db, mid, c, MessagesIn(lines, codec, k))
  {
    mid := db;
    if k == 0 {
      assert StoredAll([]) == [] && Written(db, c) + [] == Written(db, c);
    } else {
      var i := k - 1;
      hide ImportFrom, MessagesIn, Grown, ReadLine, Appended;
      mid := ImportPasses(db, c, lines, i, codec, oracles);
      assert Passes(lines[i], codec, oracles(i));
      GrownKeeps(db, mid, c, MessagesIn(lines, codec, i));
      ImportNext(mid, c, lines, i, codec, oracles);
      MessagesNext(lines, codec, i);
      if lines[i] != "" {
        GrowsOne(db, mid, c, MessagesIn(lines, codec, i), ReadLine(lines[i], codec).m, oracles(i));
        mid := Appended(mid, c, ReadLine(lines[i], codec).m, oracles(i));
      }
    }
  }

  lemma GrownKeeps(db: Db, next: Db, c: string, ms: seq<Message>)
    requires Grown(db, next, c, ms)
    ensures next.conversations == db.conversations
  {
  }

  /** Every import into a new conversation, from its lines and the failing statements. It ends
      behind the last line or at the first line `k` that is malformed, throws, or is not
      stored; the lines before are written. Only when a message is not stored the conversation
      is removed again, if that succeeds; otherwise it keeps them, and the message as well if
      only its metadata failed. */
  lemma ImportOutcome(db: Db, c: string, lines: seq<string>, k: nat, codec: Codec, oracles: nat -> Oracle)
    requires k <= |lines| && c in db.conversations
    requires forall j: nat :: j < k ==> Passes(lines[j], codec, oracles(j))
    requires k < |lines| ==> !Passes(lines[k], codec, oracles(k))
    ensures var (next, outcome) := ImportFrom(db, c, lines, 0, codec, oracles);
            var ms := MessagesIn(lines, codec, k);
            if k == |lines| then outcome == Imported && Grown(db, next, c, ms)
            else
              match ReadLine(lines[k], codec)
              case BadLine => outcome == ParseError && Grown(db, next, c, ms)
              case Throws => outcome == Threw && Grown(db, next, c, ms)
              case Parsed(m) =>
                var ok := oracles(k);
                && outcome == AppendFailed
                && (ok(Open) && ok(PrepDelete) && ok(Delete) ==>
                      && next.conversations == db.conversations - {c} && Written(next, c) == []
                      && forall d :: d != c ==> Written(next, d) == Written(db, d))
                && (!(ok(Open) && ok(PrepDelete) && ok(Delete)) ==>
                      Grown(db, next, c, if ok(Open) && RowSucceeds(0, ok) then ms + [m] else ms))
  {
    var mid := ImportPasses(db, c, lines, k, codec, oracles);
    var ms := MessagesIn(lines, codec, k);
    GrownKeeps(db, mid, c, ms);
    hide Grown, ReadLine, Written, Appended, Removed;
    if k < |lines| && ReadLine(lines[k], codec).Parsed? {
      var m, ok := ReadLine(lines[k], codec).m, oracles(k);
      GrowsOne(db, mid, c, ms, m, ok);
      var last := Appended(mid, c, m, ok);
      RemovedAll(db, last, c, if ok(Open) && RowSucceeds(0, ok) then ms + [m] else ms);
    }
  }

  lemma RemovedAll(db: Db, last: Db, c: string, ms: seq<Message>)
    requires Grown(db, last, c, ms)
    ensures var next := Removed(last, c);
            && last.conversations == db.conversations && next.conversations == db.conversations - {c}
            && Written(next, c) == [] && forall d :: d != c ==> Written(next, d) == Written(db, d)
  {
    hide RowsOf, WithoutRows;
    forall d
      ensures d == c ==> Written(Removed(last, c), d) == []
      ensures d != c ==> Written(Removed(last, c), d) == Written(last, d)
    {
      WithoutFacts(last.rows, c, d);
    }
  }

  // --- Round trip ------------------------------------------------------------------

  lemma {:induction false} ReadCallsBack(tcs: seq<ToolCall>)
    ensures ReadCalls(CallsToJson(tcs)) == Some(tcs)
  {
    if tcs != [] {
      var init, tc := tcs[..|tcs| - 1], tcs[|tcs| - 1];
      assert ReadCall(CallToJson(tc)) == Some(tc);
      hide CallToJson, ReadCall, CallsToJson, ReadCalls;
      ReadCallsBack(init);
      CallsSnoc(init, tc, [], JNull);
      ReadCallsSnoc(CallsToJson(init), CallToJson(tc));
      assert tcs == init + [tc];
    }
  }

  lemma ReadCallsSnoc(js: seq<Json>, j: Json)
    ensures ReadCalls(js + [j]) == if ReadCalls(js).None? || ReadCall(j).None? then None
                                   else Some(ReadCalls(js).value + [ReadCall(j).value])
  {
    assert (js + [j])[..|js|] == js;
  }

  lemma FieldsKeep(m: Message, fields: map<string, Json>, key: string)
    requires key !in ["name", "tool_calls", "tool_call_id", "mode", "plan_file"] && key in fields
    ensures key in OptionalFields(fields, m) && OptionalFields(fields, m)[key] == fields[key]
  {
  }

  lemma CallsField(m: Message, fields: map<string, Json>)
    requires "tool_calls" !in fields
    ensures var f := OptionalFields(fields, m);
            ("tool_calls" in f <==> m.toolCalls.Some?) &&
            (m.toolCalls.Some? ==> f["tool_calls"] == JArray(CallsToJson(m.toolCalls.value)))
  {
  }

  /** An exported line reads back as the message. */
  lemma LineRoundTrip(m: Message, codec: Codec)
    requires Lawful(codec)
    ensures ReadLine(codec.dump(LineOf(m)), codec) == Parsed(m)
  {
    var fields := map["role" := JString(RoleToString(m.role)), "content" := JString(m.content)];
    var f := OptionalFields(fields, m);
    assert codec.parse(codec.dump(LineOf(m))) == Some(JObject(f));
    FieldsRoundTrip(m, fields);
    FieldsKeep(m, fields, "role");
    FieldsKeep(m, fields, "content");
    CallsField(m, fields);
    assert f["role"] == JString(RoleToString(m.role)) && StringToRole(RoleToString(m.role)) == m.role;
    assert !BadText(f, "content") && OrEmpty(GetText(f, "content")) == m.content;
    hide OptionalFields, CallsToJson, ReadCalls, GetCalls, BadText, GetText, OrEmpty, StringToRole, RoleToString;
    if m.toolCalls.Some? { ReadCallsBack(m.toolCalls.value); }
    assert ReadFields(f) == Parsed(m);
  }

  /** A text is the lines its line breaks close, and the rest behind the last one if there is
      any. */
  lemma {:induction false} LinesSplit(parts: seq<string>, last: string)
    requires '\n' !in last && forall p :: p in parts ==> '\n' !in p
    ensures Blocks(Lines(parts) + last, "\n") == parts && Rest(Lines(parts) + last, "\n") == last
    ensures InputLines(Lines(parts) + last) == if last == "" then parts else parts + [last]
  {
    if parts == [] {
      assert Lines(parts) + last == last && parts + [last] == [last];
      NoBreak(last);
      CutOnce(last, "\n");
    } else {
      var head, tail := parts[0], Lines(parts[1..]) + last;
      assert Lines(parts) + last == head + "\n" + tail && parts == [head] + parts[1..] && head in parts;
      assert parts + [] == parts;
      hide Blocks, Rest, Lines;
      LinesSplit(parts[1..], last);
      LineFirst(head, tail);
    }
  }

  lemma LineFirst(head: string, tail: string)
    requires '\n' !in head
    ensures Blocks(head + "\n" + tail, "\n") == [head] + Blocks(tail, "\n")
    ensures Rest(head + "\n" + tail, "\n") == Rest(tail, "\n")
  {
    var text := head + "\n" + tail;
    FirstBreak(head, tail);
    CutOnce(text, "\n");
    assert text[..|head|] == head && text[|head| + 1..] == tail;
    hide Find, Blocks, Rest;
  }

  lemma NoBreak(s: string)
    requires '\n' !in s
    ensures Find(s, "\n", 0).None?
  {
    FindLeftmost(s, "\n", 0);
    forall j | 0 <= j < |s|
      ensures !At(s, "\n", j)
    {
      BreakAt(s, j);
    }
    hide Find;
  }

  lemma BreakAt(s: string, j: nat)
    requires j < |s|
    ensures At(s, "\n", j) ==> s[j] == '\n' && s[j] in s
  {
    if At(s, "\n", j) { assert s[j..j + 1][0] == s[j]; }
  }

  lemma FirstBreak(head: string, tail: string)
    requires '\n' !in head
    ensures Find(head + "\n" + tail, "\n", 0) == Some(|head|)
  {
    var s := head + "\n" + tail;
    forall j | 0 <= j < |head|
      ensures !At(s, "\n", j)
    {
      assert s[j..j + 1][0] == head[j];
    }
    assert s[|head|..|head| + 1] == "\n";
    FindIs(s, "\n", 0, |head|);
  }

  ghost predicate AllOk(oracles: nat -> Oracle) { forall i: nat :: AlwaysOk(oracles(i)) }

  lemma ImportOne(db: Db, c: string, m: Message, lines: seq<string>, i: nat, codec: Codec, oracles: nat -> Oracle)
    requires i < |lines| && lines[i] != "" && ReadLine(lines[i], codec) == Parsed(m)
    requires c in db.conversations && AlwaysOk(oracles(i))
    ensures ImportFrom(db, c, lines, i, codec, oracles) ==
            ImportFrom(AddRow(db, c, NextSeq(db.rows, c), m), c, lines, i + 1, codec, oracles)
  {
    hide ReadLine, AddRow, NextSeq;
  }

  lemma {:induction false} ImportAppends(db: Db, c: string, ms: seq<Message>, lines: seq<string>, i: nat,
                                         codec: Codec, oracles: nat -> Oracle, d: string, activeOnly: bool)
    requires Valid(db) && c in db.conversations && AllOk(oracles)
    requires i <= |ms| == |lines|
    requires forall k :: 0 <= k < |ms| ==>
               lines[k] != "" && ReadLine(lines[k], codec) == Parsed(ms[k]) && Stored(ms[k]) == ms[k]
    ensures var (next, outcome) := ImportFrom(db, c, lines, i, codec, oracles);
            && outcome == Imported && Valid(next)
            && LoadRows(next, d, activeOnly) == LoadRows(db, d, activeOnly) + if d == c then ms[i..] else []
    decreases |ms| - i
  {
    if i < |ms| {
      var mid := ImportedOne(db, c, ms[i], lines, i, codec, oracles, d, activeOnly);
      hide *;
      ImportAppends(mid, c, ms, lines, i + 1, codec, oracles, d, activeOnly);
      TailAppend(LoadRows(db, d, activeOnly), ms, i);
    }
  }

  lemma TailAppend<T>(front: seq<T>, s: seq<T>, i: nat)
    requires i < |s|
    ensures (front + [s[i]]) + s[i + 1..] == front + s[i..]
  {
  }

  lemma ImportedOne(db: Db, c: string, m: Message, lines: seq<string>, i: nat, codec: Codec, oracles: nat -> Oracle,
                    d: string, activeOnly: bool) returns (mid: Db)
    requires Valid(db) && c in db.conversations && AllOk(oracles) && Stored(m) == m
    requires i < |lines| && lines[i] != "" && ReadLine(lines[i], codec) == Parsed(m)
    ensures Valid(mid) && c in mid.conversations
    ensures ImportFrom(db, c, lines, i, codec, oracles) == ImportFrom(mid, c, lines, i + 1, codec, oracles)
    ensures LoadRows(mid, d, activeOnly) ==
            if d == c then LoadRows(db, d, activeOnly) + [m] else LoadRows(db, d, activeOnly)
  {
    mid := AddRow(db, c, NextSeq(db.rows, c), m);
    assert AlwaysOk(oracles(i));
    ImportOne(db, c, m, lines, i, codec, oracles);
    AddKeepsValid(db, c, m);
    AddLoads(db, c, m, d);
  }

  lemma {:induction false} DumpedFacts(ms: seq<Message>, codec: Codec)
    requires Lawful(codec)
    ensures |DumpedLines(ms, codec)| == |ms|
    ensures forall k :: 0 <= k < |ms| ==> DumpedLines(ms, codec)[k] == codec.dump(LineOf(ms[k]))
    ensures forall p :: p in DumpedLines(ms, codec) ==> '\n' !in p
  {
    if ms != [] { DumpedFacts(ms[1..], codec); }
  }

  /** Importing the export of any conversation makes a new conversation that loads as the
      original, and leaves every other conversation as it was. */
  lemma RoundTrip(db: Db, c: string, id: string, codec: Codec, oracles: nat -> Oracle, d: string)
    requires Valid(db) && id !in db.conversations && Lawful(codec) && AllOk(oracles) && d != id
    ensures var ms := LoadRows(db, c, true);
            var start := db.(conversations := db.conversations + {id});
            var (next, outcome) := ImportFrom(start, id, InputLines(Lines(DumpedLines(ms, codec))), 0, codec, oracles);
            && outcome == Imported && Valid(next)
            && LoadRows(next, id, true) == ms
            && LoadRows(next, d, true) == LoadRows(db, d, true)
  {
    var ms := LoadRows(db, c, true);
    var start := db.(conversations := db.conversations + {id});
    var lines := DumpedLines(ms, codec);
    CreateKeeps(db, id);
    NoRowsYet(db, id);
    LoadedStored(db, c);
    DumpedFacts(ms, codec);
    LinesSplit(lines, "");
    assert Lines(lines) + "" == Lines(lines);
    forall k | 0 <= k < |ms|
      ensures lines[k] != "" && ReadLine(lines[k], codec) == Parsed(ms[k])
    {
      LineRoundTrip(ms[k], codec);
      assert codec.dump(LineOf(ms[k])) != "";
    }
    assert LoadRows(start, id, true) == [] && LoadRows(start, d, true) == LoadRows(db, d, true);
    hide LoadRows, DumpedLines, InputLines, Lines, ImportFrom, Valid, LineOf;
    ImportAppends(start, id, ms, lines, 0, codec, oracles, id, true);
    ImportAppends(start, id, ms, lines, 0, codec, oracles, d, true);
    assert ms[0..] == ms;
  }
}
