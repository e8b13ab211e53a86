/** Server-sent events: a byte stream that arrives in arbitrary chunks is cut at blank
    lines, and every block becomes at most one event. */
module SseParser {
  import opened Text

  datatype SseEvent = SseEvent(event: string, data: string, id: string)

  const BLANK: string := "\n\n"

  // --- One block -------------------------------------------------------------------

  function StripSpace(value: string): string {
    if value != "" && value[0] == ' ' then value[1..] else value
  }

  /** Field name and value of a line; comments and lines without a colon have none. */
  function FieldOf(line: string): Option<(string, string)> {
    var colon := Find(line, ":", 0);
    if colon.None? || colon.value == 0 then None
    else Some((line[..colon.value], StripSpace(line[colon.value + 1..])))
  }

  function StepLine(ev: SseEvent, line: string): SseEvent {
    match FieldOf(line)
    case None => ev
    case Some((field, value)) =>
      if field == "event" then ev.(event := value)
      else if field == "data" then ev.(data := if ev.data != "" then ev.data + "\n" + value else value)
      else if field == "id" then ev.(id := value)
      else ev
  }

  function FoldLines(lines: seq<string>): SseEvent {
    if lines == [] then SseEvent("", "", "")
    else StepLine(FoldLines(lines[..|lines| - 1]), lines[|lines| - 1])
  }

  function BlockEvents(text: string): seq<SseEvent> {
    var ev := FoldLines(Pieces(text, '\n', 0));
    if ev.data != "" || ev.event != "" then [ev] else []
  }

  /** The per-line loop of one block. */
  method ParseBlock(text: string) returns (event: SseEvent)
    ensures event == FoldLines(Pieces(text, '\n', 0))
  {
    hide Pieces, At;
    event := SseEvent("", "", "");
    var currentData := "";
    var lines := Split(text, '\n');
    for i := 0 to |lines|
      invariant event.data == "" && event.(data := currentData) == FoldLines(lines[..i])
    {
      assert lines[..i + 1][..i] == lines[..i];
      var line := lines[i];
      if line != "" && line[0] == ':' {
        FindIs(line, ":", 0, 0);
        continue;
      }
      var colonPos := Find(line, ":", 0);
      if colonPos.None? { continue; }
      var field := line[..colonPos.value];
      var value := line[colonPos.value + 1..];
      if value != "" && value[0] == ' ' { value := value[1..]; }
      if field == "event" {
        event := event.(event := value);
      } else if field == "data" {
        if currentData != "" { currentData := currentData + "\n"; }
        currentData := currentData + value;
      } else if field == "id" {
        event := event.(id := value);
      }
    }
    assert lines[..|lines|] == lines;
    event := event.(data := currentData);
  }

  method EmitBlock(text: string) returns (events: seq<SseEvent>)
    ensures events == BlockEvents(text)
  {
    var event := ParseBlock(text);
    events := if event.data != "" || event.event != "" then [event] else [];
  }

  // --- Cutting the stream ----------------------------------------------------------

  function Events(blocks: seq<string>): seq<SseEvent> {
    if blocks == [] then [] else BlockEvents(blocks[0]) + Events(blocks[1..])
  }

  lemma {:induction false} EventsAppend(a: seq<string>, b: seq<string>)
    ensures Events(a + b) == Events(a) + Events(b)
  {
    if a == [] {
      assert a + b == b;
    } else {
      assert (a + b)[1..] == a[1..] + b;
      EventsAppend(a[1..], b);
    }
  }

  lemma EventsSnoc(a: seq<string>, text: string)
    ensures Events(a + [text]) == Events(a) + BlockEvents(text)
  {
    EventsAppend(a, [text]);
    assert [text][1..] == [];
  }

  class Parser {
    var buffer: string

    constructor ()
      ensures buffer == ""
    {
      buffer := "";
    }

    /** Appends a chunk and emits every event completed by it. */
    method Feed(chunk: string) returns (emitted: seq<SseEvent>)
      modifies this
      ensures emitted == Events(Blocks(old(buffer) + chunk, BLANK))
      ensures buffer == Rest(old(buffer) + chunk, BLANK)
    {
      buffer := buffer + chunk;
      ghost var all, finalRest := Blocks(buffer, BLANK), Rest(buffer, BLANK);
      ghost var done := [];
      emitted := [];
      while true
        invariant all == done + Blocks(buffer, BLANK) && finalRest == Rest(buffer, BLANK)
        invariant emitted == Events(done)
        decreases |buffer|
      {
        CutOnce(buffer, BLANK);
        var pos := Find(buffer, BLANK, 0);
        if pos.None? { break; }
        var eventText := buffer[..pos.value];
        buffer := buffer[pos.value + 2..];
        var events := EmitBlock(eventText);
        AppendAssoc(done, [eventText], Blocks(buffer, BLANK));
        EventsSnoc(done, eventText);
        done := done + [eventText];
        emitted := emitted + events;
      }
      assert all == done;
    }

    /** Chunk invariance: whatever the cuts, the events and the leftover are those of the
        whole stream. */
    method FeedAll(chunks: seq<string>) returns (emitted: seq<SseEvent>)
      requires !Contains(buffer, BLANK)
      modifies this
      ensures emitted == Events(Blocks(old(buffer) + Concat(chunks), BLANK))
      ensures buffer == Rest(old(buffer) + Concat(chunks), BLANK)
      ensures !Contains(buffer, BLANK)
    {
      emitted := [];
      ghost var start, seen := buffer, buffer;
      NotContained(buffer, BLANK);
      CutOnce(buffer, BLANK);
      for i := 0 to |chunks|
        invariant seen == start + Concat(chunks[..i])
        invariant emitted == Events(Blocks(seen, BLANK)) && buffer == Rest(seen, BLANK)
      {
        ConcatPrefix(chunks, i);
        AppendAssoc(start, Concat(chunks[..i]), chunks[i]);
        FeedStep(seen, chunks[i]);
        var more := Feed(chunks[i]);
        emitted := emitted + more;
        seen := seen + chunks[i];
      }
      assert chunks[..|chunks|] == chunks;
      RestSettled(seen, BLANK);
    }
  }

  /** One chunk more, at the level of events. */
  lemma FeedStep(seen: string, chunk: string)
    ensures Events(Blocks(seen + chunk, BLANK)) ==
            Events(Blocks(seen, BLANK)) + Events(Blocks(Rest(seen, BLANK) + chunk, BLANK))
    ensures Rest(seen + chunk, BLANK) == Rest(Rest(seen, BLANK) + chunk, BLANK)
  {
    RestStep(seen, chunk, BLANK);
    BlocksStep(seen, chunk, BLANK);
    EventsAppend(Blocks(seen, BLANK), Blocks(Rest(seen, BLANK) + chunk, BLANK));
  }

  // --- What an event means ---------------------------------------------------------

  /** The value a line gives to the field `name`, as zero or one element. */
  function ValueOf(line: string, name: string): seq<string> {
    var f := FieldOf(line);
    if f.Some? && f.value.0 == name then [f.value.1] else []
  }

  /** A line is a field exactly when a colon follows a name; one space behind the colon is not
      part of the value, any other is. */
  lemma FieldMeaning(name: string, value: string, line: string)
    requires name != "" && ':' !in name
    ensures FieldOf(name + ": " + value) == Some((name, value))
    ensures value == "" || value[0] != ' ' ==> FieldOf(name + ":" + value) == Some((name, value))
    ensures FieldOf(line).None? <==> ':' !in line || line[0] == ':'
  {
    FieldCut(name, value);
    FieldCut(name, " " + value);
    assert (" " + value)[1..] == value && name + ": " + value == name + ":" + (" " + value);
    FindLeftmost(line, ":", 0);
    assert forall i :: 0 <= i < |line| ==> (line[i] == ':' <==> At(line, ":", i));
  }

  lemma FieldCut(name: string, value: string)
    requires name != "" && ':' !in name
    ensures FieldOf(name + ":" + value) == Some((name, StripSpace(value)))
  {
    var line := name + ":" + value;
    FirstAt(name, ':', value);
    assert [':'] == ":" && line[..|name|] == name && line[|name| + 1..] == value;
    hide Find, StripSpace;
  }

  function Values(lines: seq<string>, name: string): seq<string> {
    if lines == [] then []
    else Values(lines[..|lines| - 1], name) + ValueOf(lines[|lines| - 1], name)
  }

  function DropLeadingEmpty(vs: seq<string>): seq<string> {
    if vs != [] && vs[0] == "" then DropLeadingEmpty(vs[1..]) else vs
  }

  function LastOr(vs: seq<string>, default: string): string {
    if vs == [] then default else vs[|vs| - 1]
  }

  lemma {:induction false} DropSnoc(vs: seq<string>, v: string)
    ensures DropLeadingEmpty(vs + [v]) ==
            if DropLeadingEmpty(vs) == [] then DropLeadingEmpty([v]) else DropLeadingEmpty(vs) + [v]
  {
    if vs == [] {
      assert vs + [v] == [v];
    } else if vs[0] == "" {
      assert (vs + [v])[1..] == vs[1..] + [v];
      DropSnoc(vs[1..], v);
    }
  }

  lemma {:induction false} DropHead(vs: seq<string>)
    ensures var d := DropLeadingEmpty(vs); d != [] ==> d[0] != "" && Join(d, "\n") != ""
  {
    if vs != [] && vs[0] == "" { DropHead(vs[1..]); }
  }

  lemma DataStep(ev: SseEvent, vs: seq<string>, line: string)
    requires ev.data == Join(DropLeadingEmpty(vs), "\n")
    ensures StepLine(ev, line).data == Join(DropLeadingEmpty(vs + ValueOf(line, "data")), "\n")
  {
    if ValueOf(line, "data") == [] {
      assert vs + [] == vs;
    } else {
      var v := FieldOf(line).value.1;
      DropSnoc(vs, v);
      DropHead(vs);
      if DropLeadingEmpty(vs) != [] {
        JoinSnoc(DropLeadingEmpty(vs), v, "\n");
      }
    }
  }

  lemma LastStep(current: string, vs: seq<string>, line: string, name: string)
    requires current == LastOr(vs, "")
    ensures (if ValueOf(line, name) == [] then current else ValueOf(line, name)[0]) ==
            LastOr(vs + ValueOf(line, name), "")
  {
    if ValueOf(line, name) == [] {
      assert vs + [] == vs;
    }
  }

  /** An event's data is its data values joined by line breaks after leading empty values
      are dropped; `event` and `id` are the last value given. */
  lemma {:induction false} EventMeaning(lines: seq<string>)
    ensures FoldLines(lines).data == Join(DropLeadingEmpty(Values(lines, "data")), "\n")
    ensures FoldLines(lines).event == LastOr(Values(lines, "event"), "")
    ensures FoldLines(lines).id == LastOr(Values(lines, "id"), "")
  {
    if lines != [] {
      var init, line := lines[..|lines| - 1], lines[|lines| - 1];
      EventMeaning(init);
      MeaningStep(FoldLines(init), Values(init, "event"), Values(init, "data"), Values(init, "id"), line);
    }
  }

  /** A record becomes an event exactly when it gives a data value that is not empty, or an
      event name last that is not empty; the fields are those of its lines. */
  lemma BlockMeaning(text: string)
    ensures var lines := Pieces(text, '\n', 0);
            var data, event := DropLeadingEmpty(Values(lines, "data")), LastOr(Values(lines, "event"), "");
            BlockEvents(text) ==
            if data == [] && event == "" then []
            else [SseEvent(event, Join(data, "\n"), LastOr(Values(lines, "id"), ""))]
  {
    var lines := Pieces(text, '\n', 0);
    EventMeaning(lines);
    DropHead(Values(lines, "data"));
    hide FoldLines, Values, DropLeadingEmpty, Pieces;
  }

  lemma MeaningStep(ev: SseEvent, events: seq<string>, data: seq<string>, ids: seq<string>, line: string)
    requires ev.event == LastOr(events, "") && ev.id == LastOr(ids, "")
    requires ev.data == Join(DropLeadingEmpty(data), "\n")
    ensures var ev' := StepLine(ev, line);
            && ev'.data == Join(DropLeadingEmpty(data + ValueOf(line, "data")), "\n")
            && ev'.event == LastOr(events + ValueOf(line, "event"), "")
            && ev'.id == LastOr(ids + ValueOf(line, "id"), "")
  {
    DataStep(ev, data, line);
    LastStep(ev.event, events, line, "event");
    LastStep(ev.id, ids, line, "id");
  }

  /** Data values as section 9.2.6 of the WHATWG HTML Standard collects them: there a line
      without a colon is a field name with an empty value. */
  function StandardValueOf(line: string): seq<string> {
    if line == "data" then [""] else ValueOf(line, "data")
  }

  function StandardValues(lines: seq<string>): seq<string> {
    if lines == [] then []
    else StandardValues(lines[..|lines| - 1]) + StandardValueOf(lines[|lines| - 1])
  }

  function Size(vs: seq<string>): nat {
    if vs == [] then 0 else Size(vs[..|vs| - 1]) + |vs[|vs| - 1]|
  }

  lemma SizeSnoc(vs: seq<string>, v: string)
    ensures Size(vs + [v]) == Size(vs) + |v|
  {
    assert (vs + [v])[..|vs|] == vs;
  }

  lemma NoColon(line: string)
    requires ':' !in line
    ensures FieldOf(line) == None
  {
    FindLeftmost(line, ":", 0);
    forall j | 0 <= j < |line|
      ensures !At(line, ":", j)
    {
      assert line[j..j + 1][0] == line[j];
    }
  }

  lemma FitStep(vs: seq<string>, std: seq<string>, add: seq<string>, addStd: seq<string>)
    requires Size(vs) == Size(std) && |vs| <= |std| && (|vs| == |std| ==> vs == std)
    requires |addStd| <= 1 && (add == addStd || (add == [] && addStd == [""]))
    ensures var vs', std' := vs + add, std + addStd;
            Size(vs') == Size(std') && |vs'| <= |std'| && (|vs'| == |std'| ==> vs' == std')
  {
    hide Size;
    if addStd == [] {
      assert vs + [] == vs && std + [] == std;
    } else {
      assert addStd == [addStd[0]];
      SizeSnoc(std, addStd[0]);
      if add == [] {
        assert vs + [] == vs;
      } else {
        SizeSnoc(vs, addStd[0]);
      }
    }
  }

  lemma {:induction false} ValuesFit(lines: seq<string>)
    ensures var vs, std := Values(lines, "data"), StandardValues(lines);
            Size(vs) == Size(std) && |vs| <= |std| && (|vs| == |std| ==> vs == std)
  {
    if lines != [] {
      var init := lines[..|lines| - 1];
      ValuesFit(init);
      var line := lines[|lines| - 1];
      NoColon("data");
      FitStep(Values(init, "data"), StandardValues(init), ValueOf(line, "data"), StandardValueOf(line));
    }
  }

  lemma {:induction false} DropSize(vs: seq<string>)
    ensures Size(DropLeadingEmpty(vs)) == Size(vs)
    ensures |DropLeadingEmpty(vs)| <= |vs|
  {
    if vs != [] {
      var init, last := vs[..|vs| - 1], vs[|vs| - 1];
      DropSize(init);
      DropSnoc(init, last);
      SizeSnoc(init, last);
      SizeSnoc(DropLeadingEmpty(init), last);
      assert vs == init + [last];
    }
  }

  lemma {:induction false} JoinSize(vs: seq<string>)
    ensures |Join(vs, "\n")| == Size(vs) + if vs == [] then 0 else |vs| - 1
  {
    if |vs| > 1 {
      var init := vs[..|vs| - 1];
      JoinSize(init);
      JoinSnoc(init, vs[|vs| - 1], "\n");
      assert vs == init + [vs[|vs| - 1]];
    }
  }

  /** In the standard a line may also end in CR LF. A stream in which every line does holds no
      blank line for the parser: by `FeedAll` it emits nothing, however the bytes arrive. */
  lemma CrLfUnread(s: string)
    requires forall i :: 0 <= i < |s| && s[i] == '\n' ==> i > 0 && s[i - 1] == '\r'
    ensures Events(Blocks(s, BLANK)) == [] && Rest(s, BLANK) == s
  {
    forall p | 0 <= p <= |s| - 2
      ensures !At(s, BLANK, p)
    {
      var q := p + 1;
      assert s[p..p + 2][0] == s[p] && s[p..p + 2][1] == s[q];
      assert s[q] == '\n' ==> s[q - 1] == '\r';
    }
    FindLeftmost(s, BLANK, 0);
    CutOnce(s, BLANK);
  }

  /** The data equals the standard's exactly when at most one data value is present, or the
      first is non-empty and every data line has its colon. Lines here end in LF. */
  lemma DataAsStandard(lines: seq<string>)
    ensures FoldLines(lines).data == Join(StandardValues(lines), "\n") <==>
            |StandardValues(lines)| <= 1 ||
            (StandardValues(lines)[0] != "" && Values(lines, "data") == StandardValues(lines))
  {
    var vs, std := Values(lines, "data"), StandardValues(lines);
    EventMeaning(lines);
    ValuesFit(lines);
    DropSize(vs);
    JoinSize(DropLeadingEmpty(vs));
    JoinSize(std);
    if |std| == 1 && vs == [] {
      assert Size(std) == |std[0]|;
    }
    if vs == std && vs != [] && vs[0] == "" {
      DropSize(vs[1..]);
    }
  }

  /** Two data lines whose first is empty: the standard keeps a leading line break, the
      parser does not, whatever the second value is. */
  lemma DataDiffersFromStandard(value: string)
    ensures var lines := ["data" + ":" + "", "data" + ":" + value];
            FoldLines(lines).data != Join(StandardValues(lines), "\n")
  {
    var first, second := "data" + ":" + "", "data" + ":" + value;
    var lines := [first, second];
    NoColonIn("data", "");
    NoColonIn("data", value);
    StandardSnoc([], first);
    StandardSnoc([first], second);
    assert [] + [first] == [first] && [first] + [second] == lines;
    DataAsStandard(lines);
  }

  lemma StandardSnoc(lines: seq<string>, line: string)
    ensures StandardValues(lines + [line]) == StandardValues(lines) + StandardValueOf(line)
  {
    assert (lines + [line])[..|lines|] == lines;
  }

  /** The field name ends at the first colon. */
  lemma NoColonIn(field: string, value: string)
    requires field != "" && ':' !in field
    ensures FieldOf(field + ":" + value) == Some((field, StripSpace(value)))
  {
    var line := field + ":" + value;
    forall j | 0 <= j < |field|
      ensures !At(line, ":", j)
    {
      assert line[j..j + 1][0] == field[j];
    }
    assert line[|field|..|field| + 1] == ":";
    FindIs(line, ":", 0, |field|);
    assert line[..|field|] == field && line[|field| + 1..] == value;
  }
}
