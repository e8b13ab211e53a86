/** From network chunks to one response: the chunk callback of the provider step, and the
    whole streaming path from raw bytes to the collected message. */
module CallProviderStep {
  import opened Text
  import opened Types
  import opened OpenAIProvider
  import Sse = SseParser
  import opened Compression = ContextCompressor

  datatype Response = Response(content: string, toolCalls: seq<ToolCall>, stopReason: string)

  function TextOf(chunks: seq<StreamChunk>): string {
    if chunks == [] then ""
    else
      var last := chunks[|chunks| - 1];
      TextOf(chunks[..|chunks| - 1]) + if last.kind == Content then last.data else ""
  }

  function CallsOf(chunks: seq<StreamChunk>): seq<ToolCall> {
    if chunks == [] then []
    else
      var last := chunks[|chunks| - 1];
      CallsOf(chunks[..|chunks| - 1]) +
      if last.kind == ToolCallEnd && last.toolCall.Some? then [last.toolCall.value] else []
  }

  function ReasonOf(chunks: seq<StreamChunk>): string {
    if chunks == [] then ""
    else
      var last := chunks[|chunks| - 1];
      if last.finishReason.Some? && last.finishReason.value != "" then last.finishReason.value
      else ReasonOf(chunks[..|chunks| - 1])
  }

  lemma CollectSnoc(chunks: seq<StreamChunk>, c: StreamChunk)
    ensures TextOf(chunks + [c]) == if c.kind == Content then TextOf(chunks) + c.data else TextOf(chunks)
    ensures CallsOf(chunks + [c]) ==
            if c.kind == ToolCallEnd && c.toolCall.Some? then CallsOf(chunks) + [c.toolCall.value] else CallsOf(chunks)
    ensures ReasonOf(chunks + [c]) ==
            if c.finishReason.Some? && c.finishReason.value != "" then c.finishReason.value else ReasonOf(chunks)
  {
    assert (chunks + [c])[..|chunks|] == chunks;
  }

  function StopReason(calls: seq<ToolCall>, reason: string): string {
    if calls != [] then "tool_calls" else if reason != "" then reason else "stop"
  }

  function Collect(chunks: seq<StreamChunk>): Response {
    Response(TextOf(chunks), CallsOf(chunks), StopReason(CallsOf(chunks), ReasonOf(chunks)))
  }

  /** The locals the callback accumulates into. */
  class ChunkCollector {
    var accumulatedContent: string
    var accumulatedCalls: seq<ToolCall>
    var finishReason: string
    ghost var seen: seq<StreamChunk>

    ghost predicate Valid()
      reads this
    {
      && accumulatedContent == TextOf(seen)
      && accumulatedCalls == CallsOf(seen)
      && finishReason == ReasonOf(seen)
    }

    constructor ()
      ensures Valid() && seen == []
    {
      accumulatedContent := "";
      accumulatedCalls := [];
      finishReason := "";
      seen := [];
    }

    method OnChunk(chunk: StreamChunk)
      requires Valid()
      modifies this
      ensures Valid() && seen == old(seen) + [chunk]
    {
      CollectSnoc(seen, chunk);
      if chunk.kind == Content {
        accumulatedContent := accumulatedContent + chunk.data;
      }
      if chunk.kind == ToolCallEnd && chunk.toolCall.Some? {
        accumulatedCalls := accumulatedCalls + [chunk.toolCall.value];
      }
      if chunk.finishReason.Some? && chunk.finishReason.value != "" {
        finishReason := chunk.finishReason.value;
      }
      seen := seen + [chunk];
    }

    method OnChunks(chunks: seq<StreamChunk>)
      requires Valid()
      modifies this
      ensures Valid() && seen == old(seen) + chunks
    {
      for i := 0 to |chunks|
        invariant Valid() && seen == old(seen) + chunks[..i]
      {
        assert chunks[..i + 1] == chunks[..i] + [chunks[i]];
        AppendAssoc(old(seen), chunks[..i], [chunks[i]]);
        OnChunk(chunks[i]);
      }
      assert chunks[..|chunks|] == chunks;
    }

    method Finish() returns (response: Response)
      requires Valid()
      ensures response == Collect(seen)
    {
      var hasToolCalls := accumulatedCalls != [];
      response := Response(accumulatedContent, accumulatedCalls,
        if hasToolCalls then "tool_calls" else if finishReason != "" then finishReason else "stop");
    }
  }

  // --- Events to chunks ------------------------------------------------------------

  /** The JSON reader: the first choice of an event's data, if it has one, and the parse
      of an argument text. */
  datatype Codec = Codec(decode: string -> Option<Delta>, parse: string -> Option<Json>)

  function EventCalls(calls: seq<ToolCall>, e: Sse.SseEvent, codec: Codec): seq<ToolCall> {
    if e.data == "[DONE]" || codec.decode(e.data).None? then calls
    else PayloadCalls(calls, codec.decode(e.data).value)
  }

  function EventChunks(calls: seq<ToolCall>, e: Sse.SseEvent, codec: Codec): seq<StreamChunk> {
    if e.data == "[DONE]" then [Chunk(Done, "")]
    else if codec.decode(e.data).None? then []
    else PayloadChunks(calls, codec.decode(e.data).value, codec.parse)
  }

  function AllEventCalls(calls: seq<ToolCall>, es: seq<Sse.SseEvent>, codec: Codec): seq<ToolCall> {
    if es == [] then calls
    else EventCalls(AllEventCalls(calls, es[..|es| - 1], codec), es[|es| - 1], codec)
  }

  function AllEventChunks(calls: seq<ToolCall>, es: seq<Sse.SseEvent>, codec: Codec): seq<StreamChunk> {
    if es == [] then []
    else
      AllEventChunks(calls, es[..|es| - 1], codec)
      + EventChunks(AllEventCalls(calls, es[..|es| - 1], codec), es[|es| - 1], codec)
  }

  method OnSseEvents(acc: CallAccumulator, es: seq<Sse.SseEvent>, codec: Codec)
    returns (chunks: seq<StreamChunk>)
    modifies acc
    ensures acc.accumulatingCalls == AllEventCalls(old(acc.accumulatingCalls), es, codec)
    ensures chunks == AllEventChunks(old(acc.accumulatingCalls), es, codec)
  {
    chunks := [];
    for i := 0 to |es|
      invariant acc.accumulatingCalls == AllEventCalls(old(acc.accumulatingCalls), es[..i], codec)
      invariant chunks == AllEventChunks(old(acc.accumulatingCalls), es[..i], codec)
    {
      assert es[..i + 1][..i] == es[..i];
      var more := OnSseEvent(acc, es[i], codec);
      chunks := chunks + more;
    }
    assert es[..|es|] == es;
  }

  method OnSseEvent(acc: CallAccumulator, e: Sse.SseEvent, codec: Codec) returns (chunks: seq<StreamChunk>)
    modifies acc
    ensures acc.accumulatingCalls == EventCalls(old(acc.accumulatingCalls), e, codec)
    ensures chunks == EventChunks(old(acc.accumulatingCalls), e, codec)
  {
    if e.data == "[DONE]" {
      return [Chunk(Done, "")];
    }
    var parsed := codec.decode(e.data);
    if parsed.None? { return []; }
    chunks := acc.ParseSseChunk(parsed.value, codec.parse);
  }

  lemma {:induction false} EventsSplit(calls: seq<ToolCall>, a: seq<Sse.SseEvent>, b: seq<Sse.SseEvent>, codec: Codec)
    ensures AllEventCalls(calls, a + b, codec) == AllEventCalls(AllEventCalls(calls, a, codec), b, codec)
    ensures AllEventChunks(calls, a + b, codec) ==
            AllEventChunks(calls, a, codec) + AllEventChunks(AllEventCalls(calls, a, codec), b, codec)
  {
    if b == [] {
      assert a + b == a;
    } else {
      var init := b[..|b| - 1];
      assert (a + b)[..|a + b| - 1] == a + init;
      EventsSplit(calls, a, init, codec);
      AppendAssoc(AllEventChunks(calls, a, codec), AllEventChunks(AllEventCalls(calls, a, codec), init, codec),
                  EventChunks(AllEventCalls(calls, a + init, codec), b[|b| - 1], codec));
    }
  }

  // --- What a response means -------------------------------------------------------

  /** The payloads of an event list, in order. */
  function Payloads(es: seq<Sse.SseEvent>, codec: Codec): seq<Delta> {
    if es == [] then []
    else if es[0].data == "[DONE]" || codec.decode(es[0].data).None? then Payloads(es[1..], codec)
    else [codec.decode(es[0].data).value] + Payloads(es[1..], codec)
  }

  /** The payloads of a whole byte stream. */
  function Streamed(bytes: string, codec: Codec): seq<Delta> {
    Payloads(Sse.Events(Blocks(bytes, Sse.BLANK)), codec)
  }

  /** `b` unless it is empty. */
  function Later(a: string, b: string): string { if b != "" then b else a }

  lemma {:induction false} CollectSplit(a: seq<StreamChunk>, b: seq<StreamChunk>)
    ensures TextOf(a + b) == TextOf(a) + TextOf(b)
    ensures CallsOf(a + b) == CallsOf(a) + CallsOf(b)
    ensures ReasonOf(a + b) == Later(ReasonOf(a), ReasonOf(b))
  {
    if b == [] {
      assert a + b == a;
    } else {
      var init, last := b[..|b| - 1], b[|b| - 1];
      assert (a + b)[..|a + b| - 1] == a + init;
      CollectSplit(a, init);
      AppendAssoc(TextOf(a), TextOf(init), if last.kind == Content then last.data else "");
      AppendAssoc(CallsOf(a), CallsOf(init),
                  if last.kind == ToolCallEnd && last.toolCall.Some? then [last.toolCall.value] else []);
    }
  }

  lemma CollectOne(c: StreamChunk)
    ensures TextOf([c]) == if c.kind == Content then c.data else ""
    ensures CallsOf([c]) == if c.kind == ToolCallEnd && c.toolCall.Some? then [c.toolCall.value] else []
    ensures ReasonOf([c]) == if c.finishReason.Some? then c.finishReason.value else ""
  {
    assert [c][..0] == [];
  }

  lemma CollectDelta(calls: seq<ToolCall>, d: ToolDelta)
    ensures var chunks := DeltaChunks(calls, d);
            TextOf(chunks) == ReasonOf(chunks) == "" && CallsOf(chunks) == []
  {
    CollectBegin(Pad(calls, d.index)[d.index], d);
    CollectArgument(d);
    CollectSplit(BeginChunks(Pad(calls, d.index)[d.index], d), ArgumentChunks(d));
  }

  lemma CollectBegin(before: ToolCall, d: ToolDelta)
    ensures var chunks := BeginChunks(before, d);
            TextOf(chunks) == ReasonOf(chunks) == "" && CallsOf(chunks) == []
  {
    if d.id.Some? { CollectOne(BeginChunks(before, d)[0]); }
  }

  lemma CollectArgument(d: ToolDelta)
    ensures TextOf(ArgumentChunks(d)) == ReasonOf(ArgumentChunks(d)) == "" && CallsOf(ArgumentChunks(d)) == []
  {
    if d.arguments.Some? { CollectOne(ArgumentChunks(d)[0]); }
  }

  lemma {:induction false} CollectDeltas(calls: seq<ToolCall>, ds: seq<ToolDelta>)
    ensures TextOf(AllDeltaChunks(calls, ds)) == ReasonOf(AllDeltaChunks(calls, ds)) == ""
    ensures CallsOf(AllDeltaChunks(calls, ds)) == []
  {
    if ds != [] {
      var init := ds[..|ds| - 1];
      CollectDeltas(calls, init);
      CollectDelta(ApplyAll(calls, init), ds[|ds| - 1]);
      CollectSplit(AllDeltaChunks(calls, init), DeltaChunks(ApplyAll(calls, init), ds[|ds| - 1]));
    }
  }

  lemma {:induction false} CollectEnds(calls: seq<ToolCall>, parse: string -> Option<Json>)
    ensures TextOf(EndChunks(calls, parse)) == ReasonOf(EndChunks(calls, parse)) == ""
    ensures CallsOf(EndChunks(calls, parse)) == FinishAll(calls, parse)
  {
    if calls != [] {
      var init, last := calls[..|calls| - 1], calls[|calls| - 1];
      CollectEnds(init, parse);
      EndsSnoc(init, last, parse);
      assert calls == init + [last];
      var end := CallChunk(ToolCallEnd, OpenAIProvider.Finish(last, parse));
      CollectOne(end);
      CollectSplit(EndChunks(init, parse), [end]);
    }
  }

  lemma EndsSnoc(init: seq<ToolCall>, last: ToolCall, parse: string -> Option<Json>)
    ensures FinishAll(init + [last], parse) == FinishAll(init, parse) + [OpenAIProvider.Finish(last, parse)]
    ensures EndChunks(init + [last], parse) ==
            EndChunks(init, parse) + [CallChunk(ToolCallEnd, OpenAIProvider.Finish(last, parse))]
  {
  }

  lemma CollectFinish(calls: seq<ToolCall>, d: Delta, parse: string -> Option<Json>)
    ensures TextOf(FinishChunks(calls, d, parse)) == ""
    ensures ReasonOf(FinishChunks(calls, d, parse)) == if d.finish.Some? then d.finish.value else ""
    ensures CallsOf(FinishChunks(calls, d, parse)) == if d.finish.Some? then FinishAll(calls, parse) else []
  {
    if d.finish.Some? {
      var mark := Chunk(Content, "").(finishReason := d.finish);
      CollectOne(mark);
      CollectEnds(calls, parse);
      CollectSplit([mark], EndChunks(calls, parse));
    }
  }

  lemma CollectPayload(calls: seq<ToolCall>, d: Delta, parse: string -> Option<Json>)
    ensures TextOf(PayloadChunks(calls, d, parse)) == if d.content.Some? then d.content.value else ""
    ensures CallsOf(PayloadChunks(calls, d, parse)) ==
            if d.finish.Some? then FinishAll(ApplyAll(calls, d.calls), parse) else []
    ensures ReasonOf(PayloadChunks(calls, d, parse)) == if d.finish.Some? then d.finish.value else ""
  {
    hide TextOf, CallsOf, ReasonOf, ApplyAll, AllDeltaChunks, FinishChunks, ContentChunks, UsageChunks, FinishAll;
    CollectContentAndUsage(d);
    CollectDeltas(calls, d.calls);
    CollectFinish(ApplyAll(calls, d.calls), d, parse);
    CollectFour(ContentChunks(d), AllDeltaChunks(calls, d.calls),
                FinishChunks(ApplyAll(calls, d.calls), d, parse), UsageChunks(d));
  }

  lemma CollectContentAndUsage(d: Delta)
    ensures TextOf(ContentChunks(d)) == if d.content.Some? then d.content.value else ""
    ensures TextOf(UsageChunks(d)) == "" && ReasonOf(ContentChunks(d)) == ReasonOf(UsageChunks(d)) == ""
    ensures CallsOf(ContentChunks(d)) == [] && CallsOf(UsageChunks(d)) == []
  {
    if d.content.Some? { CollectOne(ContentChunks(d)[0]); }
    if d.usage.Some? { CollectOne(UsageChunks(d)[0]); }
  }

  lemma CollectFour(a: seq<StreamChunk>, b: seq<StreamChunk>, c: seq<StreamChunk>, d: seq<StreamChunk>)
    requires TextOf(b) == "" && TextOf(c) == "" && TextOf(d) == ""
    requires ReasonOf(a) == "" && ReasonOf(b) == "" && ReasonOf(d) == ""
    ensures TextOf(a + b + c + d) == TextOf(a)
    ensures CallsOf(a + b + c + d) == CallsOf(a) + CallsOf(b) + CallsOf(c) + CallsOf(d)
    ensures ReasonOf(a + b + c + d) == ReasonOf(c)
  {
    CollectSplit(a, b);
    CollectSplit(a + b, c);
    CollectSplit(a + b + c, d);
  }

  lemma {:induction false} CollectEvents(es: seq<Sse.SseEvent>, open: seq<ToolDelta>, codec: Codec)
    ensures var chunks := AllEventChunks(ApplyAll([], open), es, codec);
            && TextOf(chunks) == DeliveredText(Payloads(es, codec))
            && CallsOf(chunks) == DeliveredCalls(Payloads(es, codec), open, codec.parse)
            && ReasonOf(chunks) == DeliveredReason(Payloads(es, codec))
  {
    if es != [] {
      var calls, e, rest := ApplyAll([], open), es[0], es[1..];
      assert es == [e] + rest && [e][..0] == [];
      EventsSplit(calls, [e], rest, codec);
      assert AllEventCalls(calls, [e], codec) == EventCalls(calls, e, codec);
      assert AllEventChunks(calls, [e], codec) == EventChunks(calls, e, codec);
      CollectSplit(EventChunks(calls, e, codec), AllEventChunks(EventCalls(calls, e, codec), rest, codec));
      if e.data == "[DONE]" || codec.decode(e.data).None? {
        if e.data == "[DONE]" { CollectOne(Chunk(Done, "")); }
        CollectEvents(rest, open, codec);
      } else {
        var d := codec.decode(e.data).value;
        var group := open + d.calls;
        CollectPayload(calls, d, codec.parse);
        ApplyAllAppend([], open, d.calls);
        FlushedMeaning(group, codec.parse);
        CollectEvents(rest, if d.finish.Some? then [] else group, codec);
        PayloadsHead(d, Payloads(rest, codec), open, codec.parse);
      }
    }
  }

  lemma PayloadsHead(d: Delta, ps: seq<Delta>, open: seq<ToolDelta>, parse: string -> Option<Json>)
    ensures DeliveredText([d] + ps) == (if d.content.Some? then d.content.value else "") + DeliveredText(ps)
    ensures DeliveredCalls([d] + ps, open, parse) ==
            if d.finish.Some? then Assembled(open + d.calls, parse) + DeliveredCalls(ps, [], parse)
            else DeliveredCalls(ps, open + d.calls, parse)
    ensures DeliveredReason([d] + ps) == Later(if d.finish.Some? then d.finish.value else "", DeliveredReason(ps))
  {
    assert ([d] + ps)[1..] == ps;
  }

  /** Streaming end to end. For every way the network cuts the bytes, the response holds the
      text, the assembled calls and the last reason of the whole byte stream. */
  method StreamChat(chunks: seq<string>, codec: Codec) returns (response: Response)
    ensures response.content == DeliveredText(Streamed(Concat(chunks), codec))
    ensures response.toolCalls == DeliveredCalls(Streamed(Concat(chunks), codec), [], codec.parse)
    ensures response.toolCalls != [] ==> response.stopReason == "tool_calls"
    ensures response.toolCalls == [] && DeliveredReason(Streamed(Concat(chunks), codec)) != "" ==>
              response.stopReason == DeliveredReason(Streamed(Concat(chunks), codec))
    ensures response.toolCalls == [] && DeliveredReason(Streamed(Concat(chunks), codec)) == "" ==>
              response.stopReason == "stop"
  {
    var parser := new Sse.Parser();
    var acc := new CallAccumulator();
    var collector := new ChunkCollector();
    ghost var events: seq<Sse.SseEvent> := [];
    assert "" + Concat([]) == "";
    assert Find("", Sse.BLANK, 0).None?;
    for i := 0 to |chunks|
      invariant fresh(parser) && fresh(acc) && fresh(collector)
      invariant parser.buffer == Rest(Concat(chunks[..i]), Sse.BLANK)
      invariant events == Sse.Events(Blocks(Concat(chunks[..i]), Sse.BLANK))
      invariant acc.accumulatingCalls == AllEventCalls([], events, codec)
      invariant collector.Valid() && collector.seen == AllEventChunks([], events, codec)
    {
      ConcatPrefix(chunks, i);
      Sse.FeedStep(Concat(chunks[..i]), chunks[i]);
      var more := parser.Feed(chunks[i]);
      EventsSplit([], events, more, codec);
      var emitted := OnSseEvents(acc, more, codec);
      collector.OnChunks(emitted);
      events := events + more;
    }
    assert chunks[..|chunks|] == chunks;
    CollectEvents(events, [], codec);
    response := collector.Finish();
  }

  // --- Compression before the call -------------------------------------------------

  function WithPrompt(systemPrompt: string, history: seq<Message>): seq<Message> {
    if systemPrompt != "" then [Plain(System, systemPrompt)] + history else history
  }

  function WithoutPrompt(list: seq<Message>): seq<Message> {
    if list != [] && list[0].role == System then list[1..] else list
  }

  /** `live` ends in the last `k` messages of `history`. */
  ghost predicate KeepsLast(history: seq<Message>, live: seq<Message>, k: nat) {
    && k <= |live| && k <= |history|
    && forall i :: |history| - k <= i < |history| ==> live[i - |history| + |live|] == history[i]
  }

  /** How many of the last messages the compressor leaves alone. */
  function Protected(st: Settings, list: seq<Message>): int { Min(st.protectLastN, |list| - st.Head(list) - 1) }

  lemma ShapeKeepsLast(history: seq<Message>, list: seq<Message>, out: seq<Message>, live: seq<Message>,
                       head: nat, tail: nat, k: nat, summary: string)
    requires list == history || (list != [] && list[1..] == history)
    requires out == live || (out != [] && out[1..] == live)
    requires k < |list| - head && Shape(list, out, head, tail, |list| - k, summary)
    ensures KeepsLast(history, live, k)
  {
    assert k <= |history| && k <= |live|;
    forall i | |history| - k <= i < |history|
      ensures live[i - |history| + |live|] == history[i]
    {
      var at := i + |list| - |history|;
      assert out[at - tail + head + 1] == list[at];
    }
  }

  /** A compressed list still starts with the prompt it was given, if there was one, and ends
      in the protected last messages of the history. */
  lemma ReplacementKeepsPrompt(st: Settings, systemPrompt: string, history: seq<Message>, list: seq<Message>,
                               summary: string, out: seq<Message>)
    requires list == WithPrompt(systemPrompt, history)
    requires st.HasMiddle(list) && out == st.Result(list, summary)
    ensures 0 <= Protected(st, list)
    ensures KeepsLast(history, WithoutPrompt(out), Protected(st, list))
    ensures systemPrompt != "" ==> out == WithPrompt(systemPrompt, WithoutPrompt(out))
  {
    hide Settings.Result, Settings.Head, Settings.To, Settings.HasMiddle, Shape, KeepsLast;
    CompressionShape(st, list, summary);
    SystemInHead(st, list);
    ShapeKeepsLast(history, list, out, WithoutPrompt(out), st.Head(list), st.To(list), Protected(st, list), summary);
    if systemPrompt != "" {
      PromptFirst(Plain(System, systemPrompt), list, out, st.Head(list), st.To(list), st.Same(list), summary);
    }
  }

  lemma SystemInHead(st: Settings, list: seq<Message>)
    ensures list != [] && list[0].role == System ==> 1 <= st.Head(list)
  {
    HeadFacts(list, list, st.first, st.protectFirstN);
    hide HeadSize;
  }

  lemma PromptFirst(prompt: Message, list: seq<Message>, out: seq<Message>, head: nat, tail: nat, same: nat,
                    summary: string)
    requires prompt.role == System && 1 <= head && list != [] && list[0] == prompt
    requires Shape(list, out, head, tail, same, summary)
    ensures out == [prompt] + out[1..]
  {
  }

  lemma SummarisedIs(st: Settings, ms: seq<Message>, reply: Option<string>, hasProvider: bool, abort: bool)
    ensures var o := st.Attempt(ms, reply, hasProvider, abort);
            o.Summarised? ==> st.HasMiddle(ms) && o.list == st.Result(ms, st.SummaryText(ms, reply))
  {
    hide PruneThrows, RenderThrows, Settings.HasMiddle, Settings.Result, Settings.SummaryText, Settings.Middle;
  }

  /** The request to the model, and the history that replaces the live one. None is an
      exception that leaves the step. The system prompt never enters the history, the
      history only shrinks, and its protected last messages stay as they are. */
  method BuildRequest(systemPrompt: string, history: seq<Message>, compressor: Compressor?, reply: Option<string>)
    returns (request: Option<seq<Message>>, live: seq<Message>, applied: bool)
    requires compressor != null ==> compressor.Valid()
    modifies compressor
    ensures compressor != null ==> compressor.Valid()
    ensures request.None? ==> live == history && !applied
    ensures !applied ==> live == history
    ensures compressor == null ==>
              && !applied
              && request == Some(if systemPrompt != "" then [Plain(System, systemPrompt)] + history else history)
    ensures compressor != null ==>
              var messages := WithPrompt(systemPrompt, history);
              && old(compressor.Now()).Answers(
                   messages, compressor.config.enable && TotalTokens(messages) > compressor.thresholdTokens,
                   if compressor.hasProvider then reply else None, compressor.hasProvider,
                   compressor.config.abortOnSummaryFailure, request, compressor.lastCompressed)
              && (applied <==> compressor.lastCompressed && request.Some? && |request.value| < |messages|)
    ensures applied ==> request.Some? && |request.value| < |WithPrompt(systemPrompt, history)|
                        && live == WithoutPrompt(request.value)
    ensures applied ==>
              && |live| < |history| && (systemPrompt != "" ==> request.value == WithPrompt(systemPrompt, live))
              && 0 <= old(Protected(compressor.Now(), WithPrompt(systemPrompt, history)))
              && KeepsLast(history, live, old(Protected(compressor.Now(), WithPrompt(systemPrompt, history))))
  {
    var messages := WithPrompt(systemPrompt, history);
    live, applied := history, false;
    if compressor == null { return Some(messages), live, applied; }
    ghost var now := compressor.Now();
    SummarisedIs(now, messages, compressor.Reply(reply), compressor.hasProvider,
                 compressor.config.abortOnSummaryFailure);
    hide Settings.Answers, Settings.Attempt, Settings.HasMiddle, Settings.Result, Settings.SummaryText, Settings.Head,
         TotalTokens, KeepsLast;
    ghost var expected := compressor.Expected(messages, reply);
    var result := compressor.Compress(messages, reply);
    if result.None? { return None, live, applied; }
    request := result;
    if compressor.lastCompressed && |result.value| < |messages| {
      applied := true;
      live := WithoutPrompt(result.value);
      ReplacementKeepsPrompt(now, systemPrompt, history, messages,
                             now.SummaryText(messages, compressor.Reply(reply)), result.value);
    }
  }
}
