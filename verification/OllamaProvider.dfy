/** Newline-delimited JSON streaming: a cursor walks the buffer line by line, and every tool
    call gets the next id of a counter that outlives the chunks. */
module OllamaProvider {
  import opened Text
  import opened Types
  import opened CallProviderStep

  datatype OllamaCall = OllamaCall(name: string, arguments: Json)

  /** What the JSON reader makes of one line. `broken` marks a type error inside the call
      that follows `calls`: its id is already taken and the rest of the line is skipped. */
  datatype Line =
    | Malformed
    | ErrorLine(message: string)
    | Body(content: Option<string>, calls: seq<OllamaCall>, broken: bool, done: Option<Option<Usage>>)

  const NEWLINE: string := "\n"

  function Id(n: nat): string {
    "tc_" + Decimal(n)
  }

  /** A line without its carriage return; blank lines are skipped. */
  function Trimmed(line: string): Option<string> {
    if line == "" || line == "\r" then None
    else if line[|line| - 1] == '\r' then Some(line[..|line| - 1])
    else Some(line)
  }

  function NamedCalls(calls: seq<OllamaCall>, counter: nat): seq<StreamChunk> {
    if calls == [] then []
    else
      var n := |calls| - 1;
      NamedCalls(calls[..n], counter)
      + [CallChunk(ToolCallEnd, ToolCall(Id(counter + n), calls[n].name, calls[n].arguments))]
  }

  function TextChunks(content: Option<string>): seq<StreamChunk> {
    if content.Some? && content.value != "" then [Chunk(Content, content.value)] else []
  }

  function DoneChunks(body: Line): seq<StreamChunk>
    requires body.Body?
  {
    if body.broken || body.done.None? then [] else [Chunk(Done, "").(usage := body.done.value)]
  }

  function LineChunks(raw: string, counter: nat, read: string -> Line): seq<StreamChunk> {
    var line := Trimmed(raw);
    if line.None? then []
    else
      match read(line.value)
      case Malformed => []
      case ErrorLine(message) => [Chunk(Error, message)]
      case Body(content, calls, _, _) =>
        TextChunks(content) + NamedCalls(calls, counter) + DoneChunks(read(line.value))
  }

  function LineCounter(raw: string, counter: nat, read: string -> Line): nat {
    var line := Trimmed(raw);
    if line.Some? && read(line.value).Body?
    then counter + |read(line.value).calls| + if read(line.value).broken then 1 else 0
    else counter
  }

  function CounterAfter(lines: seq<string>, counter: nat, read: string -> Line): nat {
    if lines == [] then counter
    else CounterAfter(lines[1..], LineCounter(lines[0], counter, read), read)
  }

  function AllLineChunks(lines: seq<string>, counter: nat, read: string -> Line): seq<StreamChunk> {
    if lines == [] then []
    else
      LineChunks(lines[0], counter, read)
      + AllLineChunks(lines[1..], LineCounter(lines[0], counter, read), read)
  }

  class NdjsonStream {
    var ndjsonBuffer: string
    var toolCallCounter: nat

    constructor ()
      ensures ndjsonBuffer == "" && toolCallCounter == 0
    {
      ndjsonBuffer := "";
      toolCallCounter := 0;
    }

    method OnLine(raw: string, read: string -> Line) returns (chunks: seq<StreamChunk>)
      modifies this`toolCallCounter
      ensures chunks == LineChunks(raw, old(toolCallCounter), read)
      ensures toolCallCounter == LineCounter(raw, old(toolCallCounter), read)
    {
      var line := raw;
      if line == "" || (|line| == 1 && line[0] == '\r') { return []; }
      if line[|line| - 1] == '\r' { line := line[..|line| - 1]; }
      if line == "" { return []; }
      match read(line) {
        case Malformed => return [];
        case ErrorLine(message) => return [Chunk(Error, message)];
        case Body(content, calls, broken, done) =>
          var named := NameCalls(calls);
          var tail := [];
          if broken {
            toolCallCounter := toolCallCounter + 1;
          } else if done.Some? {
            tail := [Chunk(Done, "").(usage := done.value)];
          }
          chunks := TextChunks(content) + named + tail;
      }
    }

    method NameCalls(calls: seq<OllamaCall>) returns (chunks: seq<StreamChunk>)
      modifies this`toolCallCounter
      ensures chunks == NamedCalls(calls, old(toolCallCounter))
      ensures toolCallCounter == old(toolCallCounter) + |calls|
    {
      chunks := [];
      for i := 0 to |calls|
        invariant toolCallCounter == old(toolCallCounter) + i
        invariant chunks == NamedCalls(calls[..i], old(toolCallCounter))
      {
        assert calls[..i + 1][..i] == calls[..i];
        var call := ToolCall(Id(toolCallCounter), calls[i].name, calls[i].arguments);
        toolCallCounter := toolCallCounter + 1;
        chunks := chunks + [CallChunk(ToolCallEnd, call)];
      }
      assert calls[..|calls|] == calls;
    }

    /** The `on_data` callback. */
    method OnData(data: string, read: string -> Line) returns (chunks: seq<StreamChunk>)
      modifies this
      ensures var lines := Blocks(old(ndjsonBuffer) + data, NEWLINE);
              && chunks == AllLineChunks(lines, old(toolCallCounter), read)
              && toolCallCounter == CounterAfter(lines, old(toolCallCounter), read)
      ensures ndjsonBuffer == Rest(old(ndjsonBuffer) + data, NEWLINE)
    {
      hide Find, Blocks, Rest, AllLineChunks, CounterAfter, LineChunks, LineCounter;
      ndjsonBuffer := ndjsonBuffer + data;
      ghost var buffer := ndjsonBuffer;
      ghost var lines := Blocks(buffer, NEWLINE);
      ghost var allChunks := AllLineChunks(lines, toolCallCounter, read);
      ghost var finalCounter := CounterAfter(lines, toolCallCounter, read);
      var pos := 0;
      chunks := [];
      assert buffer[0..] == buffer;
      while true
        modifies this`toolCallCounter
        invariant pos <= |buffer| && Rest(buffer, NEWLINE) == Rest(buffer[pos..], NEWLINE)
        invariant allChunks == chunks + AllLineChunks(Blocks(buffer[pos..], NEWLINE), toolCallCounter, read)
        invariant finalCounter == CounterAfter(Blocks(buffer[pos..], NEWLINE), toolCallCounter, read)
        decreases |buffer| - pos
      {
        ConsumeLine(buffer, pos, toolCallCounter, read);
        var newline := Find(ndjsonBuffer, NEWLINE, pos);
        if newline.None? { break; }
        var line := ndjsonBuffer[pos..newline.value];
        pos := newline.value + 1;
        var more := OnLine(line, read);
        AppendAssoc(chunks, more, AllLineChunks(Blocks(buffer[pos..], NEWLINE), toolCallCounter, read));
        chunks := chunks + more;
      }
      if pos > 0 {
        ndjsonBuffer := ndjsonBuffer[pos..];
      }
    }
  }

  /** What the line at the cursor contributes. */
  lemma ConsumeLine(s: string, pos: nat, counter: nat, read: string -> Line)
    requires pos <= |s|
    ensures var newline, lines := Find(s, NEWLINE, pos), Blocks(s[pos..], NEWLINE);
            if newline.None? then
              && AllLineChunks(lines, counter, read) == [] && CounterAfter(lines, counter, read) == counter
              && Rest(s[pos..], NEWLINE) == s[pos..]
            else
              var line, next := s[pos..newline.value], Blocks(s[newline.value + 1..], NEWLINE);
              var counter' := LineCounter(line, counter, read);
              && AllLineChunks(lines, counter, read) ==
                 LineChunks(line, counter, read) + AllLineChunks(next, counter', read)
              && CounterAfter(lines, counter, read) == CounterAfter(next, counter', read)
              && Rest(s[pos..], NEWLINE) == Rest(s[newline.value + 1..], NEWLINE)
  {
    NoLines(counter, read);
    hide Find, At, Blocks, Rest, AllLineChunks, CounterAfter, LineChunks, LineCounter;
    CursorStep(s, pos);
    var newline := Find(s, NEWLINE, pos);
    if newline.Some? {
      LinesHead(s[pos..newline.value], Blocks(s[newline.value + 1..], NEWLINE), counter, read);
    }
  }

  lemma NoLines(counter: nat, read: string -> Line)
    ensures AllLineChunks([], counter, read) == [] && CounterAfter([], counter, read) == counter
  {
  }

  /** The call ends with the id `tc_N`. */
  ghost predicate EndsCall(chunk: StreamChunk, call: OllamaCall, n: nat) {
    chunk == CallChunk(ToolCallEnd, ToolCall("tc_" + Decimal(n), call.name, call.arguments))
  }

  /** The text, then each call with the next id, then the end. */
  ghost predicate Lays(chunks: seq<StreamChunk>, text: seq<StreamChunk>, calls: seq<OllamaCall>, counter: nat,
                       end: seq<StreamChunk>)
  {
    && |chunks| == |text| + |calls| + |end|
    && chunks[..|text|] == text && chunks[|text| + |calls|..] == end
    && (forall i :: 0 <= i < |calls| ==> EndsCall(chunks[|text| + i], calls[i], counter + i))
  }

  /** What one line emits, and the counter behind it. */
  ghost predicate LineEmits(line: Line, counter: nat, chunks: seq<StreamChunk>, next: nat) {
    match line
    case Malformed => chunks == [] && next == counter
    case ErrorLine(message) => chunks == [Chunk(Error, message)] && next == counter
    case Body(content, calls, broken, done) =>
      var text := if content.Some? && content.value != "" then [Chunk(Content, content.value)] else [];
      var end := if done.Some? && !broken then [Chunk(Done, "").(usage := done.value)] else [];
      next == counter + |calls| + (if broken then 1 else 0) && Lays(chunks, text, calls, counter, end)
  }

  /** A line counts without the carriage return it may end in; blank lines say nothing. The
      others emit their text, one ended call for each of theirs with the next ids, and, unless
      the line broke off, the end with its usage. */
  lemma LineMeaning(text: string, cr: string, counter: nat, read: string -> Line)
    requires cr == "\r" || (cr == "" && (text == "" || text[|text| - 1] != '\r'))
    ensures var chunks, next := LineChunks(text + cr, counter, read), LineCounter(text + cr, counter, read);
            && (text == "" ==> chunks == [] && next == counter)
            && (text != "" ==> LineEmits(read(text), counter, chunks, next))
  {
    hide *;
    TrimmedIs(text, cr);
    LineIs(text + cr, counter, read);
  }

  lemma LineIs(raw: string, counter: nat, read: string -> Line)
    ensures Trimmed(raw).None? ==> LineChunks(raw, counter, read) == [] && LineCounter(raw, counter, read) == counter
    ensures Trimmed(raw).Some? ==>
              LineEmits(read(Trimmed(raw).value), counter, LineChunks(raw, counter, read),
                        LineCounter(raw, counter, read))
  {
    hide Trimmed, NamedCalls, TextChunks, DoneChunks, LineEmits;
    if Trimmed(raw).Some? {
      NotBody(read(Trimmed(raw).value), counter);
      if read(Trimmed(raw).value).Body? { BodyEmits(read(Trimmed(raw).value), counter); }
    }
  }

  lemma TrimmedIs(text: string, cr: string)
    requires cr == "\r" || (cr == "" && (text == "" || text[|text| - 1] != '\r'))
    ensures Trimmed(text + cr) == if text == "" then None else Some(text)
  {
    if cr == "\r" { assert (text + cr)[..|text|] == text; } else { assert text + cr == text; }
  }

  lemma NotBody(line: Line, counter: nat)
    ensures line == Malformed ==> LineEmits(line, counter, [], counter)
    ensures line.ErrorLine? ==> LineEmits(line, counter, [Chunk(Error, line.message)], counter)
  {
  }

  lemma BodyEmits(body: Line, counter: nat)
    requires body.Body?
    ensures LineEmits(body, counter, TextChunks(body.content) + NamedCalls(body.calls, counter) + DoneChunks(body),
                      counter + |body.calls| + if body.broken then 1 else 0)
  {
    hide NamedCalls, Lays;
    NamedAre(body.calls, counter);
    LaidOut(TextChunks(body.content), NamedCalls(body.calls, counter), body.calls, counter, DoneChunks(body));
  }

  lemma LaidOut(text: seq<StreamChunk>, named: seq<StreamChunk>, calls: seq<OllamaCall>, counter: nat,
                end: seq<StreamChunk>)
    requires |named| == |calls| && forall i :: 0 <= i < |calls| ==> EndsCall(named[i], calls[i], counter + i)
    ensures Lays(text + named + end, text, calls, counter, end)
  {
    hide EndsCall;
    var all := text + named + end;
    assert forall i :: 0 <= i < |calls| ==> all[|text| + i] == named[i];
  }

  lemma {:induction false} NamedAre(calls: seq<OllamaCall>, counter: nat)
    ensures |NamedCalls(calls, counter)| == |calls|
    ensures forall i :: 0 <= i < |calls| ==> EndsCall(NamedCalls(calls, counter)[i], calls[i], counter + i)
  {
    if calls != [] { NamedAre(calls[..|calls| - 1], counter); }
  }

  lemma LinesHead(line: string, rest: seq<string>, counter: nat, read: string -> Line)
    ensures var counter' := LineCounter(line, counter, read);
            && AllLineChunks([line] + rest, counter, read) ==
               LineChunks(line, counter, read) + AllLineChunks(rest, counter', read)
            && CounterAfter([line] + rest, counter, read) == CounterAfter(rest, counter', read)
  {
    assert ([line] + rest)[1..] == rest;
  }

  /** The cursor cuts the line that cutting the tail would cut. */
  lemma CursorStep(s: string, pos: nat)
    requires pos <= |s|
    ensures var newline := Find(s, NEWLINE, pos);
            if newline.None? then Blocks(s[pos..], NEWLINE) == [] && Rest(s[pos..], NEWLINE) == s[pos..]
            else
              && Blocks(s[pos..], NEWLINE) == [s[pos..newline.value]] + Blocks(s[newline.value + 1..], NEWLINE)
              && Rest(s[pos..], NEWLINE) == Rest(s[newline.value + 1..], NEWLINE)
  {
    FindFrom(s, NEWLINE, pos);
    CutOnce(s[pos..], NEWLINE);
    var newline := Find(s, NEWLINE, pos);
    if newline.Some? {
      assert s[pos..][..newline.value - pos] == s[pos..newline.value];
      assert s[pos..][newline.value - pos + 1..] == s[newline.value + 1..];
    }
  }

  lemma {:induction false} LinesSplit(a: seq<string>, b: seq<string>, counter: nat, read: string -> Line)
    ensures CounterAfter(a + b, counter, read) == CounterAfter(b, CounterAfter(a, counter, read), read)
    ensures AllLineChunks(a + b, counter, read) ==
            AllLineChunks(a, counter, read) + AllLineChunks(b, CounterAfter(a, counter, read), read)
  {
    if a == [] {
      assert a + b == b;
    } else {
      var next := LineCounter(a[0], counter, read);
      assert (a + b)[0] == a[0] && (a + b)[1..] == a[1..] + b;
      LinesSplit(a[1..], b, next, read);
      Glue(LineChunks(a[0], counter, read), AllLineChunks(a[1..] + b, next, read), AllLineChunks(a[1..], next, read),
           AllLineChunks(b, CounterAfter(a[1..], next, read), read));
    }
  }

  /** Chunk invariance with ids: for every cutting of the byte stream, the emitted chunks,
      `tc_N` ids included, and the leftover are those of the whole stream, and no id is
      given to two calls. */
  method StreamAll(datas: seq<string>, read: string -> Line) returns (chunks: seq<StreamChunk>, rest: string)
    ensures chunks == AllLineChunks(Blocks(Concat(datas), NEWLINE), 0, read)
    ensures rest == Rest(Concat(datas), NEWLINE)
    ensures Distinct(Ids(CallsOf(chunks)))
  {
    var stream := new NdjsonStream();
    chunks := [];
    ghost var lines: seq<string> := [];
    CutOnce("", NEWLINE);
    for i := 0 to |datas|
      invariant fresh(stream)
      invariant lines == Blocks(Concat(datas[..i]), NEWLINE)
      invariant stream.ndjsonBuffer == Rest(Concat(datas[..i]), NEWLINE)
      invariant stream.toolCallCounter == CounterAfter(lines, 0, read)
      invariant chunks == AllLineChunks(lines, 0, read)
    {
      ConcatPrefix(datas, i);
      RestStep(Concat(datas[..i]), datas[i], NEWLINE);
      BlocksStep(Concat(datas[..i]), datas[i], NEWLINE);
      ghost var more := Blocks(stream.ndjsonBuffer + datas[i], NEWLINE);
      LinesSplit(lines, more, 0, read);
      var emitted := stream.OnData(datas[i], read);
      chunks := chunks + emitted;
      lines := lines + more;
    }
    assert datas[..|datas|] == datas;
    IdsDistinct(lines, 0, read);
    rest := stream.ndjsonBuffer;
  }

  // --- Ids -------------------------------------------------------------------------

  function Ids(calls: seq<ToolCall>): seq<string> {
    seq(|calls|, i requires 0 <= i < |calls| => calls[i].id)
  }

  lemma IdsSplit(a: seq<ToolCall>, b: seq<ToolCall>)
    ensures Ids(a + b) == Ids(a) + Ids(b)
  {
  }

  ghost predicate DrawnId(id: string, lo: nat, hi: nat) {
    exists n: nat :: lo <= n < hi && id == Id(n)
  }

  /** Every id was drawn from the counter while it ran from `lo` to `hi`. */
  ghost predicate Drawn(ids: seq<string>, lo: nat, hi: nat) {
    forall i :: 0 <= i < |ids| ==> DrawnId(ids[i], lo, hi)
  }

  lemma IdInjective(m: nat, n: nat)
    requires Id(m) == Id(n)
    ensures m == n
  {
    assert Id(m)[3..] == Decimal(m) && Id(n)[3..] == Decimal(n);
    DecimalInjective(m, n);
  }

  lemma DrawnLater(a: seq<string>, b: seq<string>, lo: nat, mid: nat, hi: nat)
    requires lo <= mid <= hi
    requires Distinct(a) && Drawn(a, lo, mid) && Distinct(b) && Drawn(b, mid, hi)
    ensures Distinct(a + b) && Drawn(a + b, lo, hi)
  {
    forall i, j | 0 <= i < |a| && 0 <= j < |b|
      ensures a[i] != b[j]
    {
      assert DrawnId(a[i], lo, mid) && DrawnId(b[j], mid, hi);
      var m: nat :| lo <= m < mid && a[i] == Id(m);
      var n: nat :| mid <= n < hi && b[j] == Id(n);
      if a[i] == b[j] { IdInjective(m, n); }
    }
    forall i | 0 <= i < |a + b|
      ensures DrawnId((a + b)[i], lo, hi)
    {
      assert if i < |a| then DrawnId(a[i], lo, mid) else DrawnId(b[i - |a|], mid, hi);
    }
  }

  lemma {:induction false} NamedCallsOf(calls: seq<OllamaCall>, counter: nat)
    ensures |CallsOf(NamedCalls(calls, counter))| == |calls|
    ensures forall i :: 0 <= i < |calls| ==> CallsOf(NamedCalls(calls, counter))[i].id == Id(counter + i)
  {
    if calls != [] {
      var init, last := calls[..|calls| - 1], calls[|calls| - 1];
      assert calls == init + [last];
      hide *;
      NamedCallsOf(init, counter);
      NamedSnoc(init, last, counter);
    }
  }

  lemma NamedSnoc(calls: seq<OllamaCall>, call: OllamaCall, counter: nat)
    ensures CallsOf(NamedCalls(calls + [call], counter)) ==
            CallsOf(NamedCalls(calls, counter)) + [ToolCall(Id(counter + |calls|), call.name, call.arguments)]
  {
    var last := CallChunk(ToolCallEnd, ToolCall(Id(counter + |calls|), call.name, call.arguments));
    assert (calls + [call])[..|calls|] == calls;
    assert NamedCalls(calls + [call], counter) == NamedCalls(calls, counter) + [last];
    hide NamedCalls, CallsOf, Id;
    CollectSnoc(NamedCalls(calls, counter), last);
  }

  lemma LineIds(raw: string, counter: nat, read: string -> Line)
    ensures counter <= LineCounter(raw, counter, read)
    ensures var ids := Ids(CallsOf(LineChunks(raw, counter, read)));
            Distinct(ids) && Drawn(ids, counter, LineCounter(raw, counter, read))
  {
    var line := Trimmed(raw);
    if line.Some? {
      var body := read(line.value);
      match body {
        case Malformed =>
        case ErrorLine(message) => CollectOne(Chunk(Error, message));
        case Body(content, calls, _, _) =>
          NamedCallsOf(calls, counter);
          BodyCalls(TextChunks(content), NamedCalls(calls, counter), DoneChunks(body));
          NamedIds(CallsOf(NamedCalls(calls, counter)), counter, LineCounter(raw, counter, read));
      }
    }
  }

  lemma BodyCalls(text: seq<StreamChunk>, named: seq<StreamChunk>, done: seq<StreamChunk>)
    requires |text| <= 1 && |done| <= 1
    requires forall c :: c in text || c in done ==> c.kind != ToolCallEnd
    ensures CallsOf(text + named + done) == CallsOf(named)
  {
    NoCallsIn(text);
    NoCallsIn(done);
    hide CallsOf;
    CollectSplit(text, named);
    CollectSplit(text + named, done);
  }

  lemma NoCallsIn(chunks: seq<StreamChunk>)
    requires |chunks| <= 1
    requires forall c :: c in chunks ==> c.kind != ToolCallEnd
    ensures CallsOf(chunks) == []
  {
    if chunks != [] {
      CollectOne(chunks[0]);
      assert chunks == [chunks[0]];
    }
  }

  lemma NamedIds(calls: seq<ToolCall>, lo: nat, hi: nat)
    requires lo + |calls| <= hi
    requires forall i :: 0 <= i < |calls| ==> calls[i].id == Id(lo + i)
    ensures Distinct(Ids(calls)) && Drawn(Ids(calls), lo, hi)
  {
    forall i, j | 0 <= i < j < |calls|
      ensures calls[i].id != calls[j].id
    {
      if calls[i].id == calls[j].id { IdInjective(lo + i, lo + j); }
    }
    forall i | 0 <= i < |calls|
      ensures DrawnId(Ids(calls)[i], lo, hi)
    {
      assert Ids(calls)[i] == Id(lo + i);
    }
  }

  lemma {:induction false} IdsDistinct(lines: seq<string>, counter: nat, read: string -> Line)
    ensures counter <= CounterAfter(lines, counter, read)
    ensures var ids := Ids(CallsOf(AllLineChunks(lines, counter, read)));
            Distinct(ids) && Drawn(ids, counter, CounterAfter(lines, counter, read))
  {
    if lines != [] {
      var mid := LineCounter(lines[0], counter, read);
      LineIds(lines[0], counter, read);
      IdsDistinct(lines[1..], mid, read);
      var now, later := LineChunks(lines[0], counter, read), AllLineChunks(lines[1..], mid, read);
      CollectSplit(now, later);
      IdsSplit(CallsOf(now), CallsOf(later));
      DrawnLater(Ids(CallsOf(now)), Ids(CallsOf(later)), counter, mid, CounterAfter(lines, counter, read));
    }
  }
}
