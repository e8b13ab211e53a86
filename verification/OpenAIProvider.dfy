/** Streamed chat completions: deltas of several tool calls arrive interleaved, each tagged
    with the index of its call, and are assembled until a finish reason flushes them. */
module OpenAIProvider {
  import opened Text
  import opened Types

  datatype ToolDelta = ToolDelta(index: nat, id: Option<string>, name: Option<string>, arguments: Option<string>)

  /** The first choice of one payload. A JSON type error ends the handling of a payload
      early, so a payload with one is the shorter delta that precedes the error. */
  datatype Delta = Delta(content: Option<string>, calls: seq<ToolDelta>, finish: Option<string>, usage: Option<Usage>)

  const BLANK_CALL := ToolCall("", "", JNull)

  // --- Assembly as a function of the deltas ----------------------------------------

  /** Room for index `index`: blank calls are added until it exists. */
  function Pad(calls: seq<ToolCall>, index: nat): (r: seq<ToolCall>)
    ensures |r| == if |calls| <= index then index + 1 else |calls|
    ensures forall k :: 0 <= k < |r| ==> r[k] == if k < |calls| then calls[k] else BLANK_CALL
    decreases index - |calls|
  {
    if |calls| <= index then Pad(calls + [BLANK_CALL], index) else calls
  }

  function AddArguments(current: Json, more: string): Json {
    if current.JString? then JString(current.s + more) else JString(more)
  }

  function Absorb(call: ToolCall, d: ToolDelta): ToolCall {
    ToolCall(
      if d.id.Some? then d.id.value else call.id,
      if d.name.Some? then call.name + d.name.value else call.name,
      if d.arguments.Some? then AddArguments(call.arguments, d.arguments.value) else call.arguments)
  }

  function ApplyDelta(calls: seq<ToolCall>, d: ToolDelta): seq<ToolCall> {
    var room := Pad(calls, d.index);
    room[d.index := Absorb(room[d.index], d)]
  }

  function ApplyAll(calls: seq<ToolCall>, ds: seq<ToolDelta>): seq<ToolCall> {
    if ds == [] then calls else ApplyDelta(ApplyAll(calls, ds[..|ds| - 1]), ds[|ds| - 1])
  }

  function BeginChunks(before: ToolCall, d: ToolDelta): seq<StreamChunk> {
    if d.id.Some? then [CallChunk(ToolCallBegin, before.(id := d.id.value))] else []
  }

  function ArgumentChunks(d: ToolDelta): seq<StreamChunk> {
    if d.arguments.Some? then [Chunk(ToolCallDelta, d.arguments.value)] else []
  }

  function DeltaChunks(calls: seq<ToolCall>, d: ToolDelta): seq<StreamChunk> {
    BeginChunks(Pad(calls, d.index)[d.index], d) + ArgumentChunks(d)
  }

  function AllDeltaChunks(calls: seq<ToolCall>, ds: seq<ToolDelta>): seq<StreamChunk> {
    if ds == [] then []
    else AllDeltaChunks(calls, ds[..|ds| - 1]) + DeltaChunks(ApplyAll(calls, ds[..|ds| - 1]), ds[|ds| - 1])
  }

  /** The raw argument text becomes JSON when it parses and stays text otherwise. */
  function Finish(call: ToolCall, parse: string -> Option<Json>): ToolCall {
    if call.arguments.JString? && parse(call.arguments.s).Some?
    then call.(arguments := parse(call.arguments.s).value)
    else call
  }

  /** What a flush makes of a call: argument text that parses is parsed, nothing else changes. */
  ghost predicate Flushed(call: ToolCall, r: ToolCall, parse: string -> Option<Json>) {
    && r.id == call.id && r.name == call.name
    && (call.arguments.JString? && parse(call.arguments.s).Some? ==> Some(r.arguments) == parse(call.arguments.s))
    && (call.arguments.JString? && parse(call.arguments.s).None? ==> r.arguments == JString(call.arguments.s))
    && (!call.arguments.JString? ==> r.arguments == call.arguments)
  }

  function FinishAll(calls: seq<ToolCall>, parse: string -> Option<Json>): seq<ToolCall> {
    seq(|calls|, k requires 0 <= k < |calls| => Finish(calls[k], parse))
  }

  function EndChunks(calls: seq<ToolCall>, parse: string -> Option<Json>): seq<StreamChunk> {
    seq(|calls|, k requires 0 <= k < |calls| => CallChunk(ToolCallEnd, Finish(calls[k], parse)))
  }

  function ContentChunks(d: Delta): seq<StreamChunk> {
    if d.content.Some? then [Chunk(Content, d.content.value)] else []
  }

  function FinishChunks(calls: seq<ToolCall>, d: Delta, parse: string -> Option<Json>): seq<StreamChunk> {
    if d.finish.Some? then [Chunk(Content, "").(finishReason := d.finish)] + EndChunks(calls, parse) else []
  }

  function UsageChunks(d: Delta): seq<StreamChunk> {
    if d.usage.Some? then [Chunk(Content, "").(usage := d.usage)] else []
  }

  /** Every chunk one payload emits when the calls so far are `calls`. */
  function PayloadChunks(calls: seq<ToolCall>, d: Delta, parse: string -> Option<Json>): seq<StreamChunk> {
    ContentChunks(d) + AllDeltaChunks(calls, d.calls)
    + FinishChunks(ApplyAll(calls, d.calls), d, parse) + UsageChunks(d)
  }

  function PayloadCalls(calls: seq<ToolCall>, d: Delta): seq<ToolCall> {
    if d.finish.Some? then [] else ApplyAll(calls, d.calls)
  }

  /** The argument fragments, and the ids of the calls begun, that chunks announce. */
  function Fragments(chunks: seq<StreamChunk>): seq<string> {
    if chunks == [] then []
    else
      var last := chunks[|chunks| - 1];
      Fragments(chunks[..|chunks| - 1]) + if last.kind == ToolCallDelta then [last.data] else []
  }

  function Begun(chunks: seq<StreamChunk>): seq<string> {
    if chunks == [] then []
    else
      var last := chunks[|chunks| - 1];
      Begun(chunks[..|chunks| - 1])
      + if last.kind == ToolCallBegin && last.toolCall.Some? then [last.toolCall.value.id] else []
  }

  function GivenFragments(ds: seq<ToolDelta>): seq<string> {
    if ds == [] then []
    else
      var more := ds[|ds| - 1].arguments;
      GivenFragments(ds[..|ds| - 1]) + if more.Some? then [more.value] else []
  }

  function GivenIds(ds: seq<ToolDelta>): seq<string> {
    if ds == [] then []
    else
      var id := ds[|ds| - 1].id;
      GivenIds(ds[..|ds| - 1]) + if id.Some? then [id.value] else []
  }

  lemma {:induction false} EmitsAppend(a: seq<StreamChunk>, b: seq<StreamChunk>)
    ensures Fragments(a + b) == Fragments(a) + Fragments(b)
    ensures Begun(a + b) == Begun(a) + Begun(b)
  {
    if b == [] {
      assert a + b == a;
    } else {
      assert (a + b)[..|a + b| - 1] == a + b[..|b| - 1];
      EmitsAppend(a, b[..|b| - 1]);
    }
  }

  lemma {:induction false} EmitsNothing(chunks: seq<StreamChunk>)
    requires forall c :: c in chunks ==> c.kind != ToolCallDelta && c.kind != ToolCallBegin
    ensures Fragments(chunks) == [] && Begun(chunks) == []
  {
    if chunks != [] { EmitsNothing(chunks[..|chunks| - 1]); }
  }

  lemma DeltaEmits(calls: seq<ToolCall>, d: ToolDelta)
    ensures Fragments(DeltaChunks(calls, d)) == if d.arguments.Some? then [d.arguments.value] else []
    ensures Begun(DeltaChunks(calls, d)) == if d.id.Some? then [d.id.value] else []
  {
    var begin, arguments := BeginChunks(Pad(calls, d.index)[d.index], d), ArgumentChunks(d);
    EmitsAppend(begin, arguments);
    assert Fragments(begin) == [] && Begun(begin) == if d.id.Some? then [d.id.value] else [] by {
      if d.id.Some? { assert begin[..0] == []; }
    }
    assert Begun(arguments) == [] && Fragments(arguments) == if d.arguments.Some? then [d.arguments.value] else [] by {
      if d.arguments.Some? { assert arguments[..0] == []; }
    }
  }

  lemma {:induction false} DeltasEmit(calls: seq<ToolCall>, ds: seq<ToolDelta>)
    ensures Fragments(AllDeltaChunks(calls, ds)) == GivenFragments(ds)
    ensures Begun(AllDeltaChunks(calls, ds)) == GivenIds(ds)
  {
    if ds != [] {
      var init := ds[..|ds| - 1];
      DeltasEmit(calls, init);
      DeltaEmits(ApplyAll(calls, init), ds[|ds| - 1]);
      EmitsAppend(AllDeltaChunks(calls, init), DeltaChunks(ApplyAll(calls, init), ds[|ds| - 1]));
    }
  }

  /** One payload announces every argument fragment and every call id its deltas carry, in
      order and once each. */
  lemma PayloadEmits(calls: seq<ToolCall>, d: Delta, parse: string -> Option<Json>)
    ensures Fragments(PayloadChunks(calls, d, parse)) == GivenFragments(d.calls)
    ensures Begun(PayloadChunks(calls, d, parse)) == GivenIds(d.calls)
  {
    var content, deltas := ContentChunks(d), AllDeltaChunks(calls, d.calls);
    var finish, usage := FinishChunks(ApplyAll(calls, d.calls), d, parse), UsageChunks(d);
    hide *;
    QuietChunks(ApplyAll(calls, d.calls), d, parse);
    EmitsNothing(content);
    EmitsNothing(finish);
    EmitsNothing(usage);
    DeltasEmit(calls, d.calls);
    EmitsAppend(content, deltas);
    EmitsAppend(content + deltas, finish);
    EmitsAppend(content + deltas + finish, usage);
    PayloadIs(calls, d, parse);
  }

  lemma QuietChunks(calls: seq<ToolCall>, d: Delta, parse: string -> Option<Json>)
    ensures forall c :: c in ContentChunks(d) ==> c.kind != ToolCallDelta && c.kind != ToolCallBegin
    ensures forall c :: c in FinishChunks(calls, d, parse) ==> c.kind != ToolCallDelta && c.kind != ToolCallBegin
    ensures forall c :: c in UsageChunks(d) ==> c.kind != ToolCallDelta && c.kind != ToolCallBegin
  {
    hide Finish;
  }

  lemma PayloadIs(calls: seq<ToolCall>, d: Delta, parse: string -> Option<Json>)
    ensures PayloadChunks(calls, d, parse) ==
            ContentChunks(d) + AllDeltaChunks(calls, d.calls)
            + FinishChunks(ApplyAll(calls, d.calls), d, parse) + UsageChunks(d)
  {
  }

  /** The mutable state of `stream_chat`. */
  class CallAccumulator {
    var accumulatingCalls: seq<ToolCall>
    var content: string

    constructor ()
      ensures accumulatingCalls == [] && content == ""
    {
      accumulatingCalls := [];
      content := "";
    }

    method ParseSseChunk(delta: Delta, parse: string -> Option<Json>) returns (chunks: seq<StreamChunk>)
      modifies this
      ensures accumulatingCalls == PayloadCalls(old(accumulatingCalls), delta)
      ensures content == old(content) + if delta.content.Some? then delta.content.value else ""
      ensures chunks == PayloadChunks(old(accumulatingCalls), delta, parse)
      ensures delta.content.Some? ==> chunks != [] && chunks[0] == Chunk(Content, delta.content.value)
      ensures delta.usage.Some? ==>
                chunks != [] && chunks[|chunks| - 1] == Chunk(Content, "").(usage := delta.usage)
    {
      var contentChunks, finishChunks, usageChunks := [], [], [];
      if delta.content.Some? {
        content := content + delta.content.value;
        contentChunks := [Chunk(Content, delta.content.value)];
      } else {
        assert content + "" == content;
      }
      var callChunks := ApplyCallDeltas(delta.calls);
      if delta.finish.Some? {
        var ends := FlushCalls(parse);
        finishChunks := [Chunk(Content, "").(finishReason := delta.finish)] + ends;
      }
      if delta.usage.Some? {
        usageChunks := [Chunk(Content, "").(usage := delta.usage)];
      }
      chunks := contentChunks + callChunks + finishChunks + usageChunks;
    }

    method ApplyCallDeltas(ds: seq<ToolDelta>) returns (chunks: seq<StreamChunk>)
      modifies this`accumulatingCalls
      ensures accumulatingCalls == ApplyAll(old(accumulatingCalls), ds)
      ensures chunks == AllDeltaChunks(old(accumulatingCalls), ds)
    {
      chunks := [];
      for i := 0 to |ds|
        invariant accumulatingCalls == ApplyAll(old(accumulatingCalls), ds[..i])
        invariant chunks == AllDeltaChunks(old(accumulatingCalls), ds[..i])
      {
        assert ds[..i + 1][..i] == ds[..i];
        var more := ApplyCallDelta(ds[i]);
        chunks := chunks + more;
      }
      assert ds[..|ds|] == ds;
    }

    method ApplyCallDelta(d: ToolDelta) returns (chunks: seq<StreamChunk>)
      modifies this`accumulatingCalls
      ensures accumulatingCalls == ApplyDelta(old(accumulatingCalls), d)
      ensures chunks == DeltaChunks(old(accumulatingCalls), d)
      ensures d.id.Some? ==>
                chunks != [] && chunks[0].kind == ToolCallBegin && chunks[0].toolCall.Some?
                && chunks[0].toolCall.value.id == d.id.value
      ensures d.arguments.Some? ==>
                chunks != [] && chunks[|chunks| - 1] == Chunk(ToolCallDelta, d.arguments.value)
    {
      chunks := [];
      ghost var room := Pad(accumulatingCalls, d.index);
      while |accumulatingCalls| <= d.index
        invariant Pad(accumulatingCalls, d.index) == room
        decreases d.index - |accumulatingCalls|
      {
        accumulatingCalls := accumulatingCalls + [BLANK_CALL];
      }
      var acc := accumulatingCalls[d.index];
      if d.id.Some? {
        acc := acc.(id := d.id.value);
        chunks := chunks + [CallChunk(ToolCallBegin, acc)];
      }
      if d.name.Some? {
        acc := acc.(name := acc.name + d.name.value);
      }
      if d.arguments.Some? {
        var text := d.arguments.value;
        acc := acc.(arguments := if acc.arguments.JString? then JString(acc.arguments.s + text) else JString(text));
        chunks := chunks + [Chunk(ToolCallDelta, text)];
      }
      accumulatingCalls := accumulatingCalls[d.index := acc];
    }

    method FlushCalls(parse: string -> Option<Json>) returns (chunks: seq<StreamChunk>)
      modifies this`accumulatingCalls
      ensures accumulatingCalls == []
      ensures chunks == EndChunks(old(accumulatingCalls), parse)
      ensures forall k :: 0 <= k < |chunks| ==>
                chunks[k].kind == ToolCallEnd && chunks[k].toolCall.Some?
                && Flushed(old(accumulatingCalls)[k], chunks[k].toolCall.value, parse)
    {
      chunks := [];
      for i := 0 to |accumulatingCalls|
        invariant chunks == EndChunks(accumulatingCalls[..i], parse)
      {
        var tc := accumulatingCalls[i];
        if tc.arguments.JString? {
          var parsed := parse(tc.arguments.s);
          if parsed.Some? { tc := tc.(arguments := parsed.value); }
        }
        chunks := chunks + [CallChunk(ToolCallEnd, tc)];
        assert accumulatingCalls[..i + 1][..i] == accumulatingCalls[..i];
      }
      assert accumulatingCalls[..|accumulatingCalls|] == accumulatingCalls;
      accumulatingCalls := [];
    }
  }

  // --- What assembly means ---------------------------------------------------------

  /** The deltas of call `k`, in arrival order. */
  function Sub(ds: seq<ToolDelta>, k: nat): seq<ToolDelta> {
    if ds == [] then []
    else
      var last := ds[|ds| - 1];
      Sub(ds[..|ds| - 1], k) + if last.index == k then [last] else []
  }

  /** One more than the largest index mentioned. */
  function Top(ds: seq<ToolDelta>): nat {
    if ds == [] then 0
    else
      var t, last := Top(ds[..|ds| - 1]), ds[|ds| - 1].index;
      if t <= last then last + 1 else t
  }

  function Names(ds: seq<ToolDelta>): string {
    if ds == [] then ""
    else
      var name := ds[|ds| - 1].name;
      Names(ds[..|ds| - 1]) + if name.Some? then name.value else ""
  }

  /** The raw argument text, absent when no delta carried any. */
  function ArgumentText(ds: seq<ToolDelta>): Option<string> {
    if ds == [] then None
    else
      var t, more := ArgumentText(ds[..|ds| - 1]), ds[|ds| - 1].arguments;
      if more.None? then t else if t.None? then more else Some(t.value + more.value)
  }

  function LastId(ds: seq<ToolDelta>): string {
    if ds == [] then ""
    else
      var id := ds[|ds| - 1].id;
      if id.Some? then id.value else LastId(ds[..|ds| - 1])
  }

  /** Call `k` as the stream describes it: last id, concatenated names, concatenated
      argument text. No other call's deltas take part. */
  function Described(ds: seq<ToolDelta>): ToolCall {
    var text := ArgumentText(ds);
    ToolCall(LastId(ds), Names(ds), if text.None? then JNull else JString(text.value))
  }

  lemma {:induction false} SubEmptyAboveTop(ds: seq<ToolDelta>, k: nat)
    ensures Sub(ds, k) != [] ==> k < Top(ds)
    ensures Top(ds) != 0 ==> Sub(ds, Top(ds) - 1) != []
  {
    if ds != [] {
      var init := ds[..|ds| - 1];
      SubEmptyAboveTop(init, k);
    }
  }

  lemma DescribedStep(ds: seq<ToolDelta>, d: ToolDelta)
    ensures Described(ds + [d]) == Absorb(Described(ds), d)
  {
    assert (ds + [d])[..|ds|] == ds;
  }

  /** Assembly, call by call: there are `Top(ds)` calls and call `k` is what its own deltas
      describe, whatever came between them. */
  lemma {:induction false} AssemblyPerIndex(ds: seq<ToolDelta>)
    ensures |ApplyAll([], ds)| == Top(ds)
    ensures forall k: nat :: k < Top(ds) ==> ApplyAll([], ds)[k] == Described(Sub(ds, k))
  {
    if ds != [] {
      var init, d := ds[..|ds| - 1], ds[|ds| - 1];
      AssemblyPerIndex(init);
      var before := ApplyAll([], init);
      assert ApplyAll([], ds) == ApplyDelta(before, d);
      forall k: nat | k < Top(ds)
        ensures ApplyAll([], ds)[k] == Described(Sub(ds, k))
      {
        SubEmptyAboveTop(init, k);
        var mine := Sub(init, k);
        if k >= Top(init) { assert mine == [] && Described([]) == BLANK_CALL; }
        if k == d.index {
          assert Sub(ds, k) == mine + [d];
          DescribedStep(mine, d);
        } else {
          assert Sub(ds, k) == mine + [];
          assert mine + [] == mine;
        }
      }
    }
  }

  lemma TopAtMost(ds: seq<ToolDelta>, es: seq<ToolDelta>)
    requires Top(ds) != 0 ==> Sub(ds, Top(ds) - 1) == Sub(es, Top(ds) - 1)
    ensures Top(ds) <= Top(es)
  {
    if Top(ds) != 0 {
      SubEmptyAboveTop(ds, Top(ds) - 1);
      SubEmptyAboveTop(es, Top(ds) - 1);
    }
  }

  /** Interleaving: two delta streams that agree call by call assemble the same list. */
  lemma InterleavingIrrelevant(ds: seq<ToolDelta>, es: seq<ToolDelta>)
    requires forall k: nat :: Sub(ds, k) == Sub(es, k)
    ensures ApplyAll([], ds) == ApplyAll([], es)
  {
    TopAtMost(ds, es);
    TopAtMost(es, ds);
    AssemblyPerIndex(ds);
    AssemblyPerIndex(es);
    var xs, ys := ApplyAll([], ds), ApplyAll([], es);
    forall k: nat | k < Top(ds)
      ensures xs[k] == ys[k]
    {
      assert Sub(ds, k) == Sub(es, k);
    }
  }

  lemma {:induction false} ApplyAllAppend(calls: seq<ToolCall>, a: seq<ToolDelta>, b: seq<ToolDelta>)
    ensures ApplyAll(calls, a + b) == ApplyAll(ApplyAll(calls, a), b)
  {
    if b == [] {
      assert a + b == a;
    } else {
      assert (a + b)[..|a + b| - 1] == a + b[..|b| - 1];
      ApplyAllAppend(calls, a, b[..|b| - 1]);
    }
  }

  /** The arguments of a finished call as its deltas give them: null when they carried no
      text, the parsed value of the text when it parses, the text itself when it does not. */
  function Arguments(text: Option<string>, parse: string -> Option<Json>): Json {
    match text
    case None => JNull
    case Some(t) => match parse(t) case Some(value) => value case None => JString(t)
  }

  /** The finished calls of one group of deltas, in index order. */
  function Assembled(ds: seq<ToolDelta>, parse: string -> Option<Json>): (calls: seq<ToolCall>)
    ensures |calls| == Top(ds)
  {
    seq(Top(ds), k requires 0 <= k < Top(ds) =>
      ToolCall(LastId(Sub(ds, k)), Names(Sub(ds, k)), Arguments(ArgumentText(Sub(ds, k)), parse)))
  }

  /** What a flush delivers: call `k` has the last id, the concatenated names and the parsed
      argument text of exactly the deltas with index `k`. */
  lemma FlushedMeaning(ds: seq<ToolDelta>, parse: string -> Option<Json>)
    ensures FinishAll(ApplyAll([], ds), parse) == Assembled(ds, parse)
    ensures forall k: nat :: k < Top(ds) ==>
              var call, own := Assembled(ds, parse)[k], Sub(ds, k);
              && call.id == LastId(own) && call.name == Names(own)
              && (ArgumentText(own).None? ==> call.arguments == JNull)
              && (ArgumentText(own).Some? && parse(ArgumentText(own).value).Some? ==>
                    call.arguments == parse(ArgumentText(own).value).value)
              && (ArgumentText(own).Some? && parse(ArgumentText(own).value).None? ==>
                    call.arguments == JString(ArgumentText(own).value))
  {
    AssemblyPerIndex(ds);
  }

  /** The calls a payload list delivers: each finish closes the group of deltas since the
      previous finish, and deltas after the last finish deliver nothing. */
  function DeliveredCalls(ps: seq<Delta>, open: seq<ToolDelta>, parse: string -> Option<Json>): seq<ToolCall> {
    if ps == [] then []
    else
      var group := open + ps[0].calls;
      if ps[0].finish.Some? then Assembled(group, parse) + DeliveredCalls(ps[1..], [], parse)
      else DeliveredCalls(ps[1..], group, parse)
  }

  function DeliveredText(ps: seq<Delta>): string {
    if ps == [] then ""
    else (if ps[0].content.Some? then ps[0].content.value else "") + DeliveredText(ps[1..])
  }

  /** The last finish reason that is not empty. */
  function DeliveredReason(ps: seq<Delta>): string {
    if ps == [] then ""
    else if DeliveredReason(ps[1..]) != "" then DeliveredReason(ps[1..])
    else if ps[0].finish.Some? then ps[0].finish.value
    else ""
  }
}
