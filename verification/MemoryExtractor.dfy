/** Background extraction of memories: the worker's queue under all interleavings with its
    callers, and the batches and watermarks of a conversation. */
module MemoryExtractor {
  import opened Text
  import opened ConversationStore
  import opened StoreSafety
  import Types

  // --- The queue -------------------------------------------------------------------

  /** The shared state. The last three fields are history variables: every accepted request,
      every processed one, and whether the worker has left its loop. */
  datatype Shared = Shared(
    queue: seq<string>,
    queued: set<string>,
    inFlight: Option<string>,
    stop: bool,
    accepted: seq<string>,
    done: seq<string>,
    exited: bool)

  /** One critical section of a caller or of the worker. */
  datatype Step = Request(id: string) | Stop | Work

  function Enqueued(s: Shared, id: string): Shared {
    if id == "" || s.stop || id in s.queued then s
    else s.(queue := s.queue + [id], queued := s.queued + {id}, accepted := s.accepted + [id])
  }

  function Taken(s: Shared): Shared
    requires s.queue != []
  {
    s.(queue := s.queue[1..], inFlight := Some(s.queue[0]))
  }

  function Finished(s: Shared): Shared
    requires s.inFlight.Some?
  {
    s.(queued := s.queued - {s.inFlight.value}, inFlight := None, done := s.done + [s.inFlight.value])
  }

  /** The worker's next move: finish, take the front, leave, or wait. */
  function Worked(s: Shared): Shared {
    if s.exited then s
    else if s.inFlight.Some? then Finished(s)
    else if s.queue != [] then Taken(s)
    else if s.stop then s.(exited := true)
    else s
  }

  function Next(s: Shared, step: Step): Shared {
    match step
    case Request(id) => Enqueued(s, id)
    case Stop => s.(stop := true)
    case Work => Worked(s)
  }

  function Run(s: Shared, steps: seq<Step>): Shared
    decreases |steps|
  {
    if steps == [] then s else Run(Next(s, steps[0]), steps[1..])
  }

  /** The request being processed and those waiting, in order. */
  function Held(s: Shared): seq<string> {
    if s.inFlight.Some? then [s.inFlight.value] + s.queue else s.queue
  }

  ghost predicate Tracks(queued: set<string>, ids: seq<string>) {
    forall id :: id in queued <==> id in ids
  }

  /** Requests are served once each, in order; the ids held for deduplication are those
      waiting and the one being processed, without duplicates. */
  ghost predicate Invariant(s: Shared) {
    && s.accepted == s.done + Held(s)
    && Tracks(s.queued, Held(s)) && Distinct(Held(s))
    && (s.exited ==> s.stop && Held(s) == [])
  }

  const IDLE: Shared := Shared([], {}, None, false, [], [], false)

  lemma EnqueueSafe(s: Shared, id: string)
    requires Invariant(s)
    ensures Invariant(Enqueued(s, id))
  {
    var next := Enqueued(s, id);
    if next != s {
      assert Held(next) == Held(s) + [id];
      AppendAssoc(s.done, Held(s), [id]);
    }
  }

  lemma FinishSafe(s: Shared)
    requires Invariant(s) && s.inFlight.Some?
    ensures Invariant(Finished(s))
  {
    ReleaseFirst(s.queued, s.inFlight.value, s.queue);
    AppendAssoc(s.done, [s.inFlight.value], s.queue);
  }

  lemma ReleaseFirst(queued: set<string>, id: string, rest: seq<string>)
    requires Tracks(queued, [id] + rest) && Distinct([id] + rest)
    ensures Tracks(queued - {id}, rest) && Distinct(rest)
  {
    var ids := [id] + rest;
    assert forall i :: 0 <= i < |rest| ==> rest[i] == ids[i + 1];
    assert id !in rest by {
      assert forall j :: 0 < j < |ids| ==> ids[0] != ids[j];
      assert ids[1..] == rest;
    }
    forall other
      ensures other in queued - {id} <==> other in rest
    {
      assert other in queued <==> other in ids;
    }
  }

  lemma StepSafe(s: Shared, step: Step)
    requires Invariant(s)
    ensures Invariant(Next(s, step))
  {
    match step {
      case Request(id) => EnqueueSafe(s, id);
      case Stop =>
      case Work =>
        if s.inFlight.Some? && !s.exited {
          FinishSafe(s);
        } else {
          assert !s.exited && s.queue != [] ==> Held(Taken(s)) == Held(s);
        }
    }
  }

  /** The protocol invariant in every interleaving of requests, stop and worker. */
  lemma {:induction false} RunSafe(s: Shared, steps: seq<Step>)
    requires Invariant(s)
    ensures Invariant(Run(s, steps))
    decreases |steps|
  {
    if steps != [] {
      StepSafe(s, steps[0]);
      RunSafe(Next(s, steps[0]), steps[1..]);
    }
  }

  function Works(steps: seq<Step>): nat {
    if steps == [] then 0 else (if steps[0].Work? then 1 else 0) + Works(steps[1..])
  }

  /** Worker moves a stopped extractor still needs. */
  function Remaining(s: Shared): nat {
    if s.exited then 0 else |s.queue| + |Held(s)| + 1
  }

  /** After a stop the worker drains the queue and leaves, however its moves interleave with
      late requests: everything accepted has then been processed, in order. */
  lemma {:induction false} Drains(s: Shared, steps: seq<Step>)
    requires Invariant(s) && s.stop && Works(steps) >= Remaining(s)
    ensures var end := Run(s, steps);
            end.exited && end.queue == [] && end.queued == {} && end.done == s.accepted
    decreases |steps|
  {
    if steps == [] || s.exited {
      StillOut(s, steps);
    } else {
      StepSafe(s, steps[0]);
      var next := Next(s, steps[0]);
      assert next.stop && next.accepted == s.accepted;
      Drains(next, steps[1..]);
    }
  }

  lemma {:induction false} StillOut(s: Shared, steps: seq<Step>)
    requires Invariant(s) && s.stop && s.exited
    ensures Run(s, steps) == s && s.queued == {} && s.done == s.accepted
    decreases |steps|
  {
    if steps != [] { StillOut(s, steps[1..]); }
    assert s.done + [] == s.done;
  }

  /** When a request has no effect. While a conversation is being processed new requests for
      it are dropped, also after its rows have been read. */
  lemma RequestDropped(s: Shared, id: string)
    requires Invariant(s)
    ensures Enqueued(s, id) == s <==> id == "" || s.stop || id in s.queue || s.inFlight == Some(id)
  {
    assert id in s.queued <==> id in Held(s);
    if id != "" && !s.stop && id !in s.queued {
      assert |Enqueued(s, id).queue| == |s.queue| + 1;
    }
  }

  // --- One batch -------------------------------------------------------------------

  datatype Config = Config(maxMessages: int, maxChars: nat)

  /** What may go wrong in one extraction. A watermark row that cannot be read looks like no
      watermark; `rowsRead` is where reading the messages stops. */
  datatype Faults = Faults(open: bool, prepMark: bool, readMark: bool, prepLoad: bool,
                           rowsRead: nat, provider: bool, wrote: bool)

  predicate Wanted(r: Row, c: string, mark: nat) {
    r.conversation == c && r.active && r.id > mark && (r.role == "user" || r.role == "assistant")
  }

  function Pending(rows: seq<Row>, c: string, mark: nat): seq<Row> {
    if rows == [] then []
    else
      var last := rows[|rows| - 1];
      Pending(rows[..|rows| - 1], c, mark) + if Wanted(last, c, mark) then [last] else []
  }

  /** The newest `limit` rows, oldest first; a negative limit is none. */
  function Newest(rows: seq<Row>, limit: int): seq<Row> {
    if limit < 0 || |rows| <= limit then rows else rows[|rows| - limit..]
  }

  function Clip(r: Row, budget: nat): string {
    var text := CString(r.content);
    if |text| > budget then text[..budget] else text
  }

  /** What a message charges to the budget, and how it appears in the batch. */
  function Cost(text: string): nat { if text == "" then 0 else |text| + 8 }

  function Part(r: Row, text: string): string {
    if text == "" then "" else r.role + ": " + text + "\n\n"
  }

  /** How many rows are read before the budget is used up. */
  function Reach(rows: seq<Row>, budget: nat): (n: nat)
    ensures n <= |rows| && (rows != [] ==> n > 0)
  {
    if rows == [] then 0
    else
      var cost := Cost(Clip(rows[0], budget));
      if cost > 0 && cost >= budget then 1 else 1 + Reach(rows[1..], budget - cost)
  }

  function Serialized(rows: seq<Row>, budget: nat): string {
    if rows == [] then ""
    else
      var text := Clip(rows[0], budget);
      Part(rows[0], text) +
      if Cost(text) > 0 && Cost(text) >= budget then "" else Serialized(rows[1..], budget - Cost(text))
  }

  predicate HasUser(rows: seq<Row>) { exists r :: r in rows && r.role == "user" }

  method ReadBatch(rows: seq<Row>, config: Config) returns (count: nat, batch: string, hasUser: bool)
    ensures count == Reach(rows, config.maxChars) && batch == Serialized(rows, config.maxChars)
    ensures hasUser == HasUser(rows[..count])
  {
    hide ReadSoFar, HasUser, Clip, Part;
    count, batch, hasUser := 0, "", false;
    var budget: int := config.maxChars;
    ReadStart(rows, budget);
    NoUser();
    while count < |rows|
      invariant 0 <= count <= |rows| && 0 <= budget
      invariant hasUser == HasUser(rows[..count])
      invariant ReadSoFar(rows, config.maxChars, count, batch, budget)
    {
      var r := rows[count];
      ReadOne(rows, config.maxChars, count, batch, budget);
      UserSnoc(rows, count);
      if r.role == "user" { hasUser := true; }
      var text := Clip(r, budget);
      count := count + 1;
      if text != "" {
        batch := batch + Part(r, text);
        budget := budget - Cost(text);
        if budget <= 0 { return; }
      }
    }
    ReadEnd(rows, config.maxChars, batch, budget);
  }

  /** The loop has read `count` rows and left the rest to be read with `budget`. */
  ghost predicate ReadSoFar(rows: seq<Row>, max: nat, count: nat, batch: string, budget: nat)
    requires count <= |rows|
  {
    && count + Reach(rows[count..], budget) == Reach(rows, max)
    && batch + Serialized(rows[count..], budget) == Serialized(rows, max)
  }

  lemma ReadStart(rows: seq<Row>, max: nat)
    ensures ReadSoFar(rows, max, 0, "", max)
  {
    assert rows[0..] == rows;
  }

  lemma ReadOne(rows: seq<Row>, max: nat, count: nat, batch: string, budget: nat)
    requires count < |rows| && ReadSoFar(rows, max, count, batch, budget)
    ensures var text := Clip(rows[count], budget);
            var longer := batch + Part(rows[count], text);
            if text == "" then ReadSoFar(rows, max, count + 1, batch, budget)
            else if Cost(text) >= budget then count + 1 == Reach(rows, max) && longer == Serialized(rows, max)
            else ReadSoFar(rows, max, count + 1, longer, budget - Cost(text))
  {
    var text := Clip(rows[count], budget);
    var part := Part(rows[count], text);
    assert rows[count..][1..] == rows[count + 1..];
    if text == "" {
      assert "" + Serialized(rows[count + 1..], budget) == Serialized(rows[count + 1..], budget);
    } else if Cost(text) >= budget {
      assert part + "" == part;
    } else {
      AppendAssoc(batch, part, Serialized(rows[count + 1..], budget - Cost(text)));
    }
  }

  lemma ReadEnd(rows: seq<Row>, max: nat, batch: string, budget: nat)
    requires ReadSoFar(rows, max, |rows|, batch, budget)
    ensures |rows| == Reach(rows, max) && batch == Serialized(rows, max)
  {
  }

  lemma NoUser()
    ensures !HasUser([])
  {
  }

  lemma UserMeansRows(rows: seq<Row>)
    requires HasUser(rows)
    ensures rows != []
  {
  }

  lemma UserSnoc(rows: seq<Row>, i: nat)
    requires i < |rows|
    ensures HasUser(rows[..i + 1]) <==> HasUser(rows[..i]) || rows[i].role == "user"
  {
    assert rows[..i + 1] == rows[..i] + [rows[i]];
    assert rows[i] in rows[..i + 1];
  }

  function Mark(marks: map<string, nat>, c: string): nat { if c in marks then marks[c] else 0 }

  /** The rows one extraction of `c` reads into its batch. */
  function Batch(marks: map<string, nat>, c: string, rows: seq<Row>, config: Config, f: Faults): seq<Row> {
    var mark := if f.readMark then Mark(marks, c) else 0;
    var chosen := Newest(Pending(rows, c, mark), config.maxMessages);
    var seen := if f.rowsRead < |chosen| then chosen[..f.rowsRead] else chosen;
    seen[..Reach(seen, config.maxChars)]
  }

  predicate Succeeds(marks: map<string, nat>, c: string, rows: seq<Row>, config: Config, f: Faults) {
    && f.open && f.prepMark && f.prepLoad && f.provider && f.wrote
    && HasUser(Batch(marks, c, rows, config, f))
  }

  function Extracted(marks: map<string, nat>, c: string, rows: seq<Row>, config: Config, f: Faults): map<string, nat> {
    var batch := Batch(marks, c, rows, config, f);
    if Succeeds(marks, c, rows, config, f) && batch != [] then marks[c := batch[|batch| - 1].id] else marks
  }

  /** The mark moves to the last row read exactly when nothing failed and a user spoke. */
  lemma ExtractedIs(marks: map<string, nat>, c: string, rows: seq<Row>, config: Config, f: Faults)
    ensures var batch := Batch(marks, c, rows, config, f);
            if f.open && f.prepMark && f.prepLoad && f.provider && f.wrote
               && exists i :: 0 <= i < |batch| && batch[i].role == "user"
            then batch != [] && Extracted(marks, c, rows, config, f) == marks[c := batch[|batch| - 1].id]
            else Extracted(marks, c, rows, config, f) == marks
  {
    hide Batch;
    var batch := Batch(marks, c, rows, config, f);
    if HasUser(batch) {
      UserMeansRows(batch);
      var r :| r in batch && r.role == "user";
      var i :| 0 <= i < |batch| && batch[i] == r;
    }
  }

  class Extractor {
    const config: Config
    var queue: seq<string>
    var queued: set<string>
    var stop: bool
    var watermarks: map<string, nat>
    ghost var inFlight: Option<string>
    ghost var accepted: seq<string>
    ghost var done: seq<string>
    ghost var exited: bool

    ghost function State(): Shared
      reads this
    {
      Shared(queue, queued, inFlight, stop, accepted, done, exited)
    }

    constructor (config: Config, watermarks: map<string, nat>)
      ensures State() == IDLE && Invariant(State())
      ensures this.config == config && this.watermarks == watermarks
    {
      this.config, this.watermarks := config, watermarks;
      queue, queued, stop, inFlight, accepted, done, exited := [], {}, false, None, [], [], false;
    }

    method Enqueue(id: string)
      modifies this
      ensures State() == Enqueued(old(State()), id) && watermarks == old(watermarks)
    {
      if id == "" { return; }
      if stop { return; }
      if id in queued { return; }
      queued := queued + {id};
      queue := queue + [id];
      accepted := accepted + [id];
    }

    method Shutdown()
      modifies this
      ensures State() == Next(old(State()), Stop) && watermarks == old(watermarks)
    {
      stop := true;
    }

    /** The locked part of the worker's loop; `None` with `leave` false is the wait. */
    method Take() returns (id: Option<string>, leave: bool)
      requires inFlight.None? && !exited
      modifies this
      ensures State() == Worked(old(State())) && watermarks == old(watermarks)
      ensures leave == exited && id == inFlight
    {
      if queue == [] {
        exited := stop;
        return None, stop;
      }
      id, leave := Some(queue[0]), false;
      inFlight := id;
      queue := queue[1..];
    }

    /** What the worker does with a request it took. `rows` is the message table at the time
        it is read. Every way out releases the id. */
    method Process(id: string, rows: seq<Row>, f: Faults)
      requires inFlight == Some(id) && !exited
      modifies this
      ensures State() == Worked(old(State()))
      ensures watermarks == Extracted(old(watermarks), id, rows, config, f)
      ensures queued == old(queued) - {id} && queue == old(queue) && inFlight.None? && done == old(done) + [id]
      ensures var batch := Batch(old(watermarks), id, rows, config, f);
              if f.open && f.prepMark && f.prepLoad && f.provider && f.wrote
                 && exists i :: 0 <= i < |batch| && batch[i].role == "user"
              then batch != [] && watermarks == old(watermarks)[id := batch[|batch| - 1].id]
              else watermarks == old(watermarks)
    {
      ExtractedIs(watermarks, id, rows, config, f);
      hide Pending, Newest, Reach, Serialized, HasUser, Invariant;
      if f.open && f.prepMark && f.prepLoad {
        var mark := 0;
        if f.readMark && id in watermarks { mark := watermarks[id]; }
        var chosen := Newest(Pending(rows, id, mark), config.maxMessages);
        var seen := if f.rowsRead < |chosen| then chosen[..f.rowsRead] else chosen;
        var count, batch, hasUser := ReadBatch(seen, config);
        if hasUser && f.provider && f.wrote {
          UserMeansRows(seen[..count]);
          watermarks := watermarks[id := seen[count - 1].id];
        }
      }
      queued := queued - {id};
      inFlight, done := None, done + [id];
    }
  }

  // --- What a batch reaches --------------------------------------------------------

  /** What rows charge to the budget: their text and eight bytes each, nothing if empty. */
  function Spent(rows: seq<Row>): nat {
    if rows == [] then 0
    else
      var n := |CString(rows[0].content)|;
      (if n == 0 then 0 else n + 8) + Spent(rows[1..])
  }

  /** What is left of the budget in front of row `i`. */
  function Left(rows: seq<Row>, i: nat, budget: nat): nat
    requires i <= |rows|
  {
    var spent := Spent(rows[..i]);
    if spent <= budget then budget - spent else 0
  }

  /** A row in the batch: its role and as much of its text as there is room for. */
  function Entry(r: Row, room: nat): string {
    var text := CString(r.content);
    var kept := text[..if |text| <= room then |text| else room];
    if kept == "" then "" else r.role + ": " + kept + "\n\n"
  }

  function EntriesOf(rows: seq<Row>, n: nat, budget: nat): seq<string>
    requires n <= |rows|
  {
    seq(n, i requires 0 <= i < n => Entry(rows[i], Left(rows, i, budget)))
  }

  lemma LeftNext(rows: seq<Row>, i: nat, budget: nat)
    requires i < |rows|
    requires var cost := Cost(Clip(rows[0], budget)); cost == 0 || cost < budget
    ensures Left(rows, i + 1, budget) == Left(rows[1..], i, budget - Cost(Clip(rows[0], budget)))
  {
    assert rows[..i + 1][0] == rows[0] && rows[..i + 1][1..] == rows[1..][..i];
  }

  /** The batch is the entries of the rows reached, in order. */
  lemma {:induction false} BatchIsEntries(rows: seq<Row>, budget: nat)
    ensures Serialized(rows, budget) == Concat(EntriesOf(rows, Reach(rows, budget), budget))
  {
    if rows != [] {
      var text, n := Clip(rows[0], budget), Reach(rows, budget);
      var entries, rest := EntriesOf(rows, n, budget), budget - Cost(text);
      assert rows[..0] == [] && entries[0] == Part(rows[0], text);
      if Cost(text) > 0 && Cost(text) >= budget {
        assert entries[1..] == [] && Part(rows[0], text) + "" == Part(rows[0], text);
      } else {
        BatchIsEntries(rows[1..], rest);
        forall i | 0 <= i < n - 1
          ensures entries[1..][i] == EntriesOf(rows[1..], n - 1, rest)[i]
        {
          LeftNext(rows, i, budget);
        }
        assert entries[1..] == EntriesOf(rows[1..], n - 1, rest);
      }
    }
  }

  /** A row is reached exactly when the rows before it leave some of the budget. With no
      budget at all every row is passed over in silence. */
  lemma {:induction false} ReachedWithinBudget(rows: seq<Row>, budget: nat, i: nat)
    requires i < |rows|
    ensures i < Reach(rows, budget) <==> i == 0 || budget == 0 || Spent(rows[..i]) < budget
  {
    if i > 0 {
      var cost := Cost(Clip(rows[0], budget));
      assert rows[..i][0] == rows[0] && rows[..i][1..] == rows[1..][..i - 1];
      if cost == 0 || cost < budget { ReachedWithinBudget(rows[1..], budget - cost, i - 1); }
    }
  }

  /** No batch is longer than the budget, one frame and five bytes per message: the frame of
      an assistant message is charged as if it were a user's. */
  lemma {:induction false} BatchLength(rows: seq<Row>, budget: nat)
    requires forall r :: r in rows ==> |r.role| <= 9
    ensures |Serialized(rows, budget)| <= budget + 8 + 5 * Reach(rows, budget)
  {
    if rows != [] {
      var text, more := Clip(rows[0], budget), rows[1..];
      var cost, part := Cost(text), Part(rows[0], text);
      PartLength(rows[0], budget);
      hide Clip, Part;
      if cost == 0 || cost < budget {
        BatchLength(more, budget - cost);
        assert |Serialized(rows, budget)| == |part| + |Serialized(more, budget - cost)|;
        assert Reach(rows, budget) == 1 + Reach(more, budget - cost);
      } else {
        assert Serialized(rows, budget) == part + "" && Reach(rows, budget) == 1;
      }
    }
  }

  lemma PartLength(r: Row, budget: nat)
    requires |r.role| <= 9
    ensures var text := Clip(r, budget); |text| <= budget && |Part(r, text)| <= Cost(text) + 5
  {
    hide CString;
  }

  predicate Increasing(rows: seq<Row>) {
    forall i, j :: 0 <= i < j < |rows| ==> rows[i].id < rows[j].id
  }

  lemma {:induction false} PendingFacts(rows: seq<Row>, c: string, mark: nat)
    requires Increasing(rows)
    ensures Increasing(Pending(rows, c, mark))
    ensures forall r :: r in Pending(rows, c, mark) <==> r in rows && Wanted(r, c, mark)
  {
    if rows != [] {
      var init, last := rows[..|rows| - 1], rows[|rows| - 1];
      PendingFacts(init, c, mark);
      assert rows == init + [last];
      forall r | r in Pending(init, c, mark)
        ensures r.id < last.id
      {
        assert r in init;
      }
    }
  }

  /** A batch is a run of consecutive pending rows. */
  lemma BatchSlice(marks: map<string, nat>, c: string, rows: seq<Row>, config: Config, f: Faults)
    returns (p: seq<Row>, k: nat, n: nat)
    requires f.readMark && Increasing(rows)
    ensures p == Pending(rows, c, Mark(marks, c)) && k + n <= |p|
    ensures Batch(marks, c, rows, config, f) == p[k..k + n]
    ensures k == 0 <==> config.maxMessages < 0 || |p| <= config.maxMessages
    ensures Increasing(p) && forall r :: r in p ==> r.id > Mark(marks, c)
    ensures forall r :: r in p <==> r in rows && Wanted(r, c, Mark(marks, c))
  {
    p := Pending(rows, c, Mark(marks, c));
    PendingFacts(rows, c, Mark(marks, c));
    k := if config.maxMessages < 0 || |p| <= config.maxMessages then 0 else |p| - config.maxMessages;
    var chosen := Newest(p, config.maxMessages);
    assert chosen == p[k..];
    var seen := if f.rowsRead < |chosen| then chosen[..f.rowsRead] else chosen;
    n := Reach(seen, config.maxChars);
    PendingWanted(rows, c, Mark(marks, c));
    hide Pending, Newest, Reach, Increasing;
    SubSlice(p, k, 0, n);
    assert seen[..n] == chosen[..n] == chosen[0..n];
  }

  lemma IncreasingAt(rows: seq<Row>, i: nat, j: nat)
    requires Increasing(rows) && i < |rows| && j < |rows|
    ensures rows[i].id < rows[j].id <==> i < j
  {
    if i > j { assert rows[j].id < rows[i].id; }
  }

  /** Every pending row after the old watermark and up to the new one is in the batch. */
  ghost predicate NothingSkipped(rows: seq<Row>, c: string, from: nat, to: nat, batch: seq<Row>) {
    forall r :: r in rows && Wanted(r, c, from) && r.id <= to ==> r in batch
  }

  /** One extraction moves the watermark forward to the last row it read, or leaves it; it
      skips no pending row exactly when it does not move or all pending rows fit the limit. */
  lemma ExtractionCovers(marks: map<string, nat>, c: string, rows: seq<Row>, config: Config, f: Faults)
    requires f.readMark && Increasing(rows)
    ensures var next, batch := Extracted(marks, c, rows, config, f), Batch(marks, c, rows, config, f);
            && (forall d :: d != c ==> Mark(next, d) == Mark(marks, d))
            && (Succeeds(marks, c, rows, config, f) ==>
                  && Mark(next, c) > Mark(marks, c)
                  && (NothingSkipped(rows, c, Mark(marks, c), Mark(next, c), batch) <==>
                      config.maxMessages < 0 || |Pending(rows, c, Mark(marks, c))| <= config.maxMessages))
            && (!Succeeds(marks, c, rows, config, f) ==> next == marks)
  {
    if Succeeds(marks, c, rows, config, f) {
      var p, k, n, next := SuccessReads(marks, c, rows, config, f);
      var from := Mark(marks, c);
      hide *;
      assert NothingSkipped(rows, c, from, next, p[k..k + n]) <==> k == 0 by {
        SkippedBefore(rows, c, from, p, k, n);
      }
    }
  }

  lemma SuccessMoves(marks: map<string, nat>, c: string, rows: seq<Row>, config: Config, f: Faults)
    requires Succeeds(marks, c, rows, config, f)
    ensures var batch := Batch(marks, c, rows, config, f);
            batch != [] && Mark(Extracted(marks, c, rows, config, f), c) == batch[|batch| - 1].id
  {
    UserMeansRows(Batch(marks, c, rows, config, f));
    hide Batch, HasUser;
  }

  lemma SuccessReads(marks: map<string, nat>, c: string, rows: seq<Row>, config: Config, f: Faults)
    returns (p: seq<Row>, k: nat, n: nat, next: nat)
    requires f.readMark && Increasing(rows) && Succeeds(marks, c, rows, config, f)
    ensures 0 < n && k + n <= |p| && p == Pending(rows, c, Mark(marks, c)) && Increasing(p)
    ensures Batch(marks, c, rows, config, f) == p[k..k + n]
    ensures next == Mark(Extracted(marks, c, rows, config, f), c) == p[k + n - 1].id > Mark(marks, c)
    ensures k == 0 <==> config.maxMessages < 0 || |p| <= config.maxMessages
    ensures forall r :: r in p <==> r in rows && Wanted(r, c, Mark(marks, c))
  {
    hide *;
    var batch := Batch(marks, c, rows, config, f);
    SuccessMoves(marks, c, rows, config, f);
    next := batch[|batch| - 1].id;
    p, k, n := BatchSlice(marks, c, rows, config, f);
    assert batch == p[k..k + n];
    assert batch[|batch| - 1] == p[k + n - 1] && p[k + n - 1] in p;
  }

  lemma SkippedBefore(rows: seq<Row>, c: string, from: nat, p: seq<Row>, k: nat, n: nat)
    requires 0 < n && k + n <= |p| && Increasing(p) && forall r :: r in p <==> r in rows && Wanted(r, c, from)
    ensures NothingSkipped(rows, c, from, p[k + n - 1].id, p[k..k + n]) <==> k == 0
  {
    hide Wanted;
    if k == 0 {
      ReadFromStart(p, n);
    } else {
      FirstUnread(p, k, n);
    }
  }

  lemma ReadFromStart(p: seq<Row>, n: nat)
    requires Increasing(p) && 0 < n <= |p|
    ensures forall r :: r in p && r.id <= p[n - 1].id ==> r in p[0..n]
  {
    forall i | 0 <= i < |p| && p[i].id <= p[n - 1].id
      ensures p[i] in p[0..n]
    {
      IncreasingAt(p, n - 1, i);
      assert p[0..n][i] == p[i];
    }
  }

  lemma FirstUnread(p: seq<Row>, k: nat, n: nat)
    requires Increasing(p) && 0 < k && 0 < n && k + n <= |p|
    ensures p[0] in p && p[0].id <= p[k + n - 1].id && p[0] !in p[k..k + n]
  {
    IncreasingAt(p, 0, k + n - 1);
    forall i | k <= i < k + n
      ensures p[i] != p[0]
    {
      IncreasingAt(p, 0, i);
    }
  }

  // --- Over many extractions -------------------------------------------------------

  /** One extraction in a run, over the message table of its time. */
  datatype Event = Event(rows: seq<Row>, f: Faults)

  datatype Progress = Progress(marks: map<string, nat>, read: seq<Row>)

  function Extract(p: Progress, c: string, config: Config, e: Event): Progress {
    Progress(Extracted(p.marks, c, e.rows, config, e.f),
             if !Succeeds(p.marks, c, e.rows, config, e.f) then p.read
             else p.read + Batch(p.marks, c, e.rows, config, e.f))
  }

  function ExtractAll(p: Progress, c: string, config: Config, events: seq<Event>): Progress
    decreases |events|
  {
    if events == [] then p else ExtractAll(Extract(p, c, config, events[0]), c, config, events[1..])
  }

  ghost predicate ReadInOrder(p: Progress, c: string) {
    Increasing(p.read) && forall r :: r in p.read ==> r.id <= Mark(p.marks, c)
  }

  lemma ExtractInOrder(p: Progress, c: string, config: Config, e: Event)
    requires ReadInOrder(p, c) && e.f.readMark && Increasing(e.rows)
    ensures ReadInOrder(Extract(p, c, config, e), c)
  {
    if Succeeds(p.marks, c, e.rows, config, e.f) {
      var pending, k, n, _ := SuccessReads(p.marks, c, e.rows, config, e.f);
      assert forall r :: r in pending ==> r.id > Mark(p.marks, c) by {
        PendingWanted(e.rows, c, Mark(p.marks, c));
      }
      var next := Extract(p, c, config, e);
      assert next.read == p.read + pending[k..k + n] && Mark(next.marks, c) == pending[k + n - 1].id;
      hide Extract, Extracted, Batch, Pending, Mark;
      ExtendOrdered(p.read, Mark(p.marks, c), pending, k, n);
    }
  }

  lemma ExtendOrdered(read: seq<Row>, mark: nat, p: seq<Row>, k: nat, n: nat)
    requires Increasing(read) && forall r :: r in read ==> r.id <= mark
    requires Increasing(p) && (forall r :: r in p ==> r.id > mark) && 0 < n && k + n <= |p|
    ensures Increasing(read + p[k..k + n]) && forall r :: r in read + p[k..k + n] ==> r.id <= p[k + n - 1].id
  {
    var batch := p[k..k + n];
    assert forall i :: 0 <= i < |read| ==> read[i] in read;
    forall i | k <= i < k + n
      ensures mark < p[i].id <= p[k + n - 1].id
    {
      IncreasingAt(p, k + n - 1, i);
      assert p[i] in p;
    }
    assert forall i :: 0 <= i < n ==> mark < batch[i].id <= p[k + n - 1].id;
  }

  /** However the table changes between extractions, no row enters two batches that counted,
      and rows are read in the order they were written. A message can be in several rows:
      see `CompactionPendsAgain`. */
  lemma {:induction false} ReadOnce(p: Progress, c: string, config: Config, events: seq<Event>)
    requires ReadInOrder(p, c) && forall e :: e in events ==> e.f.readMark && Increasing(e.rows)
    ensures ReadInOrder(ExtractAll(p, c, config, events), c)
    decreases |events|
  {
    if events != [] {
      ExtractInOrder(p, c, config, events[0]);
      hide ReadInOrder, Increasing, Extract;
      ReadOnce(Extract(p, c, config, events[0]), c, config, events[1..]);
    }
  }

  lemma {:induction false} PendingWanted(rows: seq<Row>, c: string, mark: nat)
    ensures forall r :: r in Pending(rows, c, mark) ==> Wanted(r, c, mark)
  {
    if rows != [] { PendingWanted(rows[..|rows| - 1], c, mark); }
  }

  ghost predicate NeverBack(f: Faults) {
    forall marks, c, rows, config :: Mark(Extracted(marks, c, rows, config, f), c) >= Mark(marks, c)
  }

  /** A watermark never moves back, exactly when its row can be read or the extraction
      stops before writing it: an unreadable row counts as 0, and the budget may then end
      the batch below the old watermark. */
  lemma WatermarkNeverBack(f: Faults)
    ensures NeverBack(f) <==>
            f.readMark || f.rowsRead == 0 || !(f.open && f.prepMark && f.prepLoad && f.provider && f.wrote)
  {
    if f.readMark || f.rowsRead == 0 || !(f.open && f.prepMark && f.prepLoad && f.provider && f.wrote) {
      forall marks, c, rows, config
        ensures Mark(Extracted(marks, c, rows, config, f), c) >= Mark(marks, c)
      {
        ReadableMark(f, marks, c, rows, config);
      }
    } else {
      UnreadableMark(f);
    }
  }

  lemma ReadableMark(f: Faults, marks: map<string, nat>, c: string, rows: seq<Row>, config: Config)
    requires f.readMark || f.rowsRead == 0 || !(f.open && f.prepMark && f.prepLoad && f.provider && f.wrote)
    ensures Mark(Extracted(marks, c, rows, config, f), c) >= Mark(marks, c)
  {
    var batch := Batch(marks, c, rows, config, f);
    if Succeeds(marks, c, rows, config, f) && batch != [] {
      var pending := Pending(rows, c, Mark(marks, c));
      PendingWanted(rows, c, Mark(marks, c));
      var chosen := Newest(pending, config.maxMessages);
      assert batch[|batch| - 1] in chosen && forall r :: r in chosen ==> r in pending;
    }
  }

  lemma UnreadableMark(f: Faults)
    requires !f.readMark && f.rowsRead > 0 && f.open && f.prepMark && f.prepLoad && f.provider && f.wrote
    ensures !NeverBack(f)
  {
    var row := Row(1, "c", 0, "user", "x", Types.JNull, true);
    var marks, config := map["c" := 2], Config(-1, 1);
    assert Pending([row], "c", 0) == [row] by {
      assert [row][..0] == [];
    }
    var batch := Batch(marks, "c", [row], config, f);
    assert batch == [row] && batch[0] in batch;
    assert Mark(Extracted(marks, "c", [row], config, f), "c") == 1;
  }

  // --- The table the ids come from -------------------------------------------------

  ghost predicate IdsOrdered(db: Db) {
    Increasing(db.rows) && forall r :: r in db.rows ==> r.id < db.nextId
  }

  lemma {:induction false} InsertOrdered(db: Db, c: string, ms: seq<Types.Message>, i: nat, ok: Oracle)
    requires i <= |ms| && IdsOrdered(db) && InsertFrom(db, c, ms, i, ok).Some?
    ensures IdsOrdered(InsertFrom(db, c, ms, i, ok).value)
    decreases |ms| - i
  {
    if i < |ms| { InsertOrdered(AddRow(db, c, SeqRead(db, c, i, ok), ms[i]), c, ms, i + 1, ok); }
  }

  lemma {:induction false} WithoutOrdered(rows: seq<Row>, c: string)
    requires Increasing(rows)
    ensures Increasing(WithoutRows(rows, c)) && forall r :: r in WithoutRows(rows, c) ==> r in rows
  {
    if rows != [] {
      var init, last := rows[..|rows| - 1], rows[|rows| - 1];
      WithoutOrdered(init, c);
      assert rows == init + [last];
      forall r | r in WithoutRows(init, c)
        ensures r.id < last.id
      {
        assert r in init;
      }
    }
  }

  /** Message ids ascend in the table through every run of the store, which is what makes
      `ORDER BY id` the order of writing. */
  lemma {:induction false} StoreIdsOrdered(db: Db, ops: seq<Op>)
    requires IdsOrdered(db)
    ensures IdsOrdered(StoreSafety.Run(db, ops))
    decreases |ops|
  {
    if ops != [] {
      StoreStepOrdered(db, ops[0]);
      hide IdsOrdered, StoreSafety.Step;
      StoreIdsOrdered(StoreSafety.Step(db, ops[0]), ops[1..]);
    }
  }

  lemma StoreStepOrdered(db: Db, op: Op)
    requires IdsOrdered(db)
    ensures IdsOrdered(StoreSafety.Step(db, op))
  {
    match op {
      case CreateOp(_, _) =>
      case AppendOp(_, _, _) =>
      case CompactOp(c, ms, ok) =>
        hide IdsOrdered;
        if Compacted(db, c, ms, ok).Some? { CompactOrdered(db, c, ms, ok); }
      case RemoveOp(c, _) =>
        WithoutOrdered(db.rows, c);
    }
  }

  lemma CompactOrdered(db: Db, c: string, ms: seq<Types.Message>, ok: Oracle)
    requires IdsOrdered(db) && Compacted(db, c, ms, ok).Some?
    ensures IdsOrdered(Compacted(db, c, ms, ok).value)
  {
    var archived := db.(rows := Deactivate(db.rows, c));
    assert Compacted(db, c, ms, ok) == InsertFrom(archived, c, ms, 0, ok);
    hide Compacted, InsertFrom, Deactivate;
    DeactivateMembers(db.rows, c);
    InsertOrdered(archived, c, ms, 0, ok);
  }

  // --- Messages written again --------------------------------------------------------

  function Spoken(ms: seq<Types.Message>): seq<Types.Message> {
    if ms == [] then []
    else
      var last := ms[|ms| - 1];
      Spoken(ms[..|ms| - 1]) + if last.role == Types.User || last.role == Types.Assistant then [last] else []
  }

  lemma {:induction false} SpokenAppend(a: seq<Types.Message>, b: seq<Types.Message>)
    ensures Spoken(a + b) == Spoken(a) + Spoken(b)
  {
    if b == [] {
      assert a + b == a;
    } else {
      SpokenAppend(a, b[..|b| - 1]);
      assert (a + b)[..|a + b| - 1] == a + b[..|b| - 1];
    }
  }

  lemma PendingSnoc(rows: seq<Row>, r: Row, c: string, mark: nat)
    ensures Wanted(r, c, mark) ==> Pending(rows + [r], c, mark) == Pending(rows, c, mark) + [r]
    ensures !Wanted(r, c, mark) ==> Pending(rows + [r], c, mark) == Pending(rows, c, mark)
  {
    assert (rows + [r])[..|rows|] == rows;
    assert Pending(rows, c, mark) + [] == Pending(rows, c, mark);
    hide Wanted;
  }

  lemma {:induction false} ArchivedNotPending(rows: seq<Row>, c: string, mark: nat)
    ensures Pending(Deactivate(rows, c), c, mark) == []
  {
    if rows != [] {
      var init, last := rows[..|rows| - 1], rows[|rows| - 1];
      ArchivedNotPending(init, c, mark);
      assert rows == init + [last];
      DeactivateSnoc(init, last, c);
      var last' := if last.conversation == c then last.(active := false) else last;
      PendingSnoc(Deactivate(init, c), last', c, mark);
    }
  }

  lemma WantedWhenSpoken(db: Db, c: string, seqNo: int, m: Types.Message, mark: nat)
    requires mark < db.nextId
    ensures var r := MakeRow(db, c, seqNo, m);
            Decode(r) == Stored(m) && Spoken([Stored(m)]) == if Wanted(r, c, mark) then [Stored(m)] else []
  {
    RowRoundTrip(m);
    assert [Stored(m)][..0] == [] && Spoken([]) == [];
    hide MessageToExtra, RowToMessage, CString;
    assert Wanted(MakeRow(db, c, seqNo, m), c, mark) <==> m.role == Types.User || m.role == Types.Assistant;
  }

  /** A new row is pending for every watermark below its id, if a user or the model speaks. */
  lemma AddedPending(db: Db, c: string, seqNo: int, m: Types.Message, mark: nat)
    requires mark < db.nextId
    ensures Decoded(Pending(AddRow(db, c, seqNo, m).rows, c, mark)) ==
            Decoded(Pending(db.rows, c, mark)) + Spoken([Stored(m)])
  {
    var r := MakeRow(db, c, seqNo, m);
    assert AddRow(db, c, seqNo, m).rows == db.rows + [r];
    hide *;
    WantedWhenSpoken(db, c, seqNo, m, mark);
    PendingSnoc(db.rows, r, c, mark);
    DecodedSnoc(Pending(db.rows, c, mark), r);
    assert Decoded(Pending(db.rows, c, mark)) + [] == Decoded(Pending(db.rows, c, mark));
    assert Pending(db.rows, c, mark) + [] == Pending(db.rows, c, mark);
  }

  lemma {:induction false} InsertedPending(db: Db, c: string, ms: seq<Types.Message>, i: nat, ok: Oracle, mark: nat)
    requires i <= |ms| && mark < db.nextId && InsertFrom(db, c, ms, i, ok).Some?
    ensures Decoded(Pending(InsertFrom(db, c, ms, i, ok).value.rows, c, mark)) ==
            Decoded(Pending(db.rows, c, mark)) + Spoken(StoredAll(ms[i..]))
    decreases |ms| - i
  {
    if i == |ms| {
      assert StoredAll(ms[i..]) == [];
    } else {
      var mid := AddRow(db, c, SeqRead(db, c, i, ok), ms[i]);
      assert InsertFrom(db, c, ms, i, ok) == InsertFrom(mid, c, ms, i + 1, ok) && mark < mid.nextId;
      AddedPending(db, c, SeqRead(db, c, i, ok), ms[i], mark);
      hide *;
      InsertedPending(mid, c, ms, i + 1, ok, mark);
      StoredHead(ms, i);
      SpokenAppend([Stored(ms[i])], StoredAll(ms[i + 1..]));
      AppendAssoc(Decoded(Pending(db.rows, c, mark)), Spoken([Stored(ms[i])]), Spoken(StoredAll(ms[i + 1..])));
    }
  }

  /** A committed compaction writes kept messages into new rows: for every watermark a row of
      before can have left, pending afterwards is exactly what the user and the model say in
      the compacted list, whatever of it was extracted earlier. */
  lemma CompactionPendsAgain(db: Db, c: string, ms: seq<Types.Message>, ok: Oracle, mark: nat)
    requires Compacted(db, c, ms, ok).Some? && mark < db.nextId
    ensures Decoded(Pending(Compacted(db, c, ms, ok).value.rows, c, mark)) == Spoken(StoredAll(ms))
  {
    var archived := db.(rows := Deactivate(db.rows, c));
    assert Compacted(db, c, ms, ok) == InsertFrom(archived, c, ms, 0, ok) && ms[0..] == ms;
    assert Decoded([]) == [] && [] + Spoken(StoredAll(ms)) == Spoken(StoredAll(ms));
    hide *;
    ArchivedNotPending(db.rows, c, mark);
    InsertedPending(archived, c, ms, 0, ok, mark);
  }

  // --- The prompt ------------------------------------------------------------------

  const PLACEHOLDER: string := "{user_input}"

  /** One turn of the loop that puts the batch into the prompt. */
  function Filled(prompt: string, batch: string): string {
    var pos := Find(prompt, PLACEHOLDER, 0);
    if pos.None? then prompt else prompt[..pos.value] + batch + prompt[pos.value + |PLACEHOLDER|..]
  }

  function FilledTimes(prompt: string, batch: string, k: nat): string {
    if k == 0 then prompt else Filled(FilledTimes(prompt, batch, k - 1), batch)
  }

  lemma FilledAgain(prompt: string, batch: string)
    requires Find(prompt, PLACEHOLDER, 0).Some? && Contains(batch, PLACEHOLDER)
    ensures Contains(Filled(prompt, batch), PLACEHOLDER)
  {
    var pos := Find(prompt, PLACEHOLDER, 0).value;
    var i :| 0 <= i <= |batch| - |PLACEHOLDER| && At(batch, PLACEHOLDER, i);
    assert Filled(prompt, batch) == prompt[..pos] + batch + prompt[pos + |PLACEHOLDER|..];
    hide Filled, Find, At;
    AtInside(prompt[..pos], batch, prompt[pos + |PLACEHOLDER|..], PLACEHOLDER, i);
  }

  lemma AtInside(before: string, s: string, after: string, pat: string, i: nat)
    requires At(s, pat, i)
    ensures At(before + s + after, pat, |before| + i)
  {
    var all := before + s + after;
    assert all[|before|..|before| + |s|] == s;
    assert all[|before| + i..|before| + i + |pat|] == s[i..i + |pat|];
  }

  lemma {:induction false} NeverFilled(prompt: string, batch: string, k: nat)
    requires Contains(prompt, PLACEHOLDER) && Contains(batch, PLACEHOLDER)
    ensures Contains(FilledTimes(prompt, batch, k), PLACEHOLDER)
  {
    hide Contains, Find;
    if k > 0 {
      NeverFilled(prompt, batch, k - 1);
      NotContained(FilledTimes(prompt, batch, k - 1), PLACEHOLDER);
      FilledAgain(FilledTimes(prompt, batch, k - 1), batch);
    }
  }

  /** What a batch looks like: it starts with a role and ends with a blank line. */
  predicate Framed(batch: string) {
    batch == "" ||
    (("user: " <= batch || "assistant: " <= batch) && batch[|batch| - 1] == '\n')
  }

  lemma PartFramed(r: Row, text: string)
    requires r.role == "user" || r.role == "assistant"
    ensures Framed(Part(r, text))
  {
    var part := Part(r, text);
    if text != "" {
      assert part[..|r.role| + 2] == r.role + ": ";
      assert part == (r.role + ": " + text) + "\n\n";
    }
  }

  lemma FramedAppend(a: string, b: string)
    requires Framed(a) && Framed(b)
    ensures Framed(a + b)
  {
    if a == "" { assert a + b == b; }
    if b == "" { assert a + b == a; }
  }

  lemma {:induction false} SerializedFramed(rows: seq<Row>, budget: nat)
    requires forall r :: r in rows ==> r.role == "user" || r.role == "assistant"
    ensures Framed(Serialized(rows, budget))
  {
    if rows != [] {
      var text := Clip(rows[0], budget);
      PartFramed(rows[0], text);
      hide Framed, Part, Clip;
      assert Framed("") by { EmptyFramed(); }
      if Cost(text) > 0 && Cost(text) >= budget {
        FramedAppend(Part(rows[0], text), "");
      } else {
        SerializedFramed(rows[1..], budget - Cost(text));
        FramedAppend(Part(rows[0], text), Serialized(rows[1..], budget - Cost(text)));
      }
    }
  }

  lemma EmptyFramed()
    ensures Framed("")
  {
  }

  lemma AtMeans(s: string, j: nat, k: nat)
    requires k < |PLACEHOLDER|
    ensures At(s, PLACEHOLDER, j) ==> s[j + k] == PLACEHOLDER[k]
  {
    if At(s, PLACEHOLDER, j) { assert s[j..j + |PLACEHOLDER|][k] == s[j + k]; }
  }

  lemma NotThere(s: string, j: nat, k: nat)
    requires k < |PLACEHOLDER| && (j + k < |s| ==> s[j + k] != PLACEHOLDER[k])
    ensures !At(s, PLACEHOLDER, j)
  {
    AtMeans(s, j, k);
  }

  lemma AtWithin(before: string, s: string, after: string, j: nat)
    requires |before| <= j && j + |PLACEHOLDER| <= |before| + |s|
    ensures At(before + s + after, PLACEHOLDER, j) <==> At(s, PLACEHOLDER, j - |before|)
  {
    var all, n := before + s + after, |PLACEHOLDER|;
    assert all[j..j + n] == s[j - |before|..j - |before| + n];
  }

  /** A framed batch without a placeholder cannot complete one with the text around it. */
  lemma NothingCompleted(head: string, batch: string, rest: string, j: nat)
    requires batch != "" && Framed(batch) && !Contains(batch, PLACEHOLDER)
    requires j < |head| + |batch| && (j + |PLACEHOLDER| <= |head| ==> !At(head, PLACEHOLDER, j))
    ensures !At(head + batch + rest, PLACEHOLDER, j)
  {
    var all := head + batch + rest;
    if j + |PLACEHOLDER| <= |head| {
      AtWithin("", head, batch + rest, j);
      assert "" + head + (batch + rest) == all;
    } else if j < |head| {
      StartsInside(head, batch, rest, j);
    } else if j + |PLACEHOLDER| <= |head| + |batch| {
      AtWithin(head, batch, rest, j);
    } else {
      var k := |head| + |batch| - 1 - j;
      assert all[j + k] == batch[|batch| - 1] == '\n' != PLACEHOLDER[k];
      NotThere(all, j, k);
    }
  }

  /** A role differs from every later part of the placeholder. */
  lemma StartsInside(head: string, batch: string, rest: string, j: nat)
    requires batch != "" && Framed(batch) && j < |head| < j + |PLACEHOLDER|
    ensures !At(head + batch + rest, PLACEHOLDER, j)
  {
    var all, k := head + batch + rest, |head| - j;
    assert all[j + k] == batch[0] && all[j + k + 1] == batch[1] && all[j + k + 4] == batch[4];
    assert batch[0] == PLACEHOLDER[k] ==> (k == 1 || k == 9) && batch[1] == 's' && batch[4] == ':';
    NotThere(all, j, if batch[0] != PLACEHOLDER[k] then k else if k == 1 then 5 else 10);
  }

  /** How many placeholders a text holds. */
  function Holders(s: string): nat { |Blocks(s, PLACEHOLDER)| }

  lemma {:induction false} FindSkips(s: string, n: nat)
    requires forall j :: 0 <= j < n ==> !At(s, PLACEHOLDER, j)
    ensures Find(s, PLACEHOLDER, 0) == Find(s, PLACEHOLDER, n)
  {
    hide At;
    if n > 0 { FindSkips(s, n - 1); }
  }

  lemma HoldersCut(s: string)
    ensures var at := Find(s, PLACEHOLDER, 0);
            Holders(s) == if at.None? then 0 else 1 + Holders(s[at.value + |PLACEHOLDER|..])
  {
    CutOnce(s, PLACEHOLDER);
  }

  lemma HoldersShift(front: string, rest: string)
    requires forall j :: 0 <= j < |front| ==> !At(front + rest, PLACEHOLDER, j)
    ensures Holders(front + rest) == Holders(rest)
  {
    hide *;
    FindSkips(front + rest, |front|);
    FindFrom(front + rest, PLACEHOLDER, |front|);
    assert (front + rest)[|front|..] == rest;
    var later := Find(rest, PLACEHOLDER, 0);
    HoldersCut(front + rest);
    HoldersCut(rest);
    if later.Some? { BehindFront(front, rest, later.value + |PLACEHOLDER|); }
  }

  lemma BehindFront(front: string, rest: string, i: nat)
    requires i <= |rest|
    ensures (front + rest)[|front| + i..] == rest[i..]
  {
  }

  /** One turn removes one placeholder when the batch holds none. */
  lemma FilledFewer(prompt: string, batch: string)
    requires batch != "" && Framed(batch) && !Contains(batch, PLACEHOLDER) && Contains(prompt, PLACEHOLDER)
    ensures Holders(Filled(prompt, batch)) + 1 == Holders(prompt)
  {
    NotContained(prompt, PLACEHOLDER);
    var pos := Find(prompt, PLACEHOLDER, 0).value;
    var head, rest := prompt[..pos], prompt[pos + |PLACEHOLDER|..];
    assert Filled(prompt, batch) == head + batch + rest;
    hide *;
    forall j | 0 <= j < |head| + |batch|
      ensures !At(head + batch + rest, PLACEHOLDER, j)
    {
      if j + |PLACEHOLDER| <= |head| { NotInHead(prompt, PLACEHOLDER, pos, j); }
      NothingCompleted(head, batch, rest, j);
    }
    HoldersCut(prompt);
    HoldersShift(head + batch, rest);
  }

  lemma NotInHead(s: string, pat: string, pos: nat, j: nat)
    requires pat != "" && Find(s, pat, 0) == Some(pos) && j + |pat| <= pos
    ensures pos <= |s| && !At(s[..pos], pat, j)
  {
    FindLeftmost(s, pat, 0);
    assert !At(s, pat, j);
    assert s[..pos][j..j + |pat|] == s[j..j + |pat|];
  }

  lemma NoHolder(s: string)
    ensures Holders(s) == 0 <==> !Contains(s, PLACEHOLDER)
  {
    NotContained(s, PLACEHOLDER);
    CutOnce(s, PLACEHOLDER);
  }

  /** One turn with an empty batch shortens the prompt. */
  lemma FilledShorter(prompt: string)
    requires Contains(prompt, PLACEHOLDER)
    ensures |Filled(prompt, "")| < |prompt|
  {
    NotContained(prompt, PLACEHOLDER);
  }

  lemma {:induction false} FilledFirst(prompt: string, batch: string, k: nat)
    ensures FilledTimes(prompt, batch, k + 1) == FilledTimes(Filled(prompt, batch), batch, k)
  {
    hide Filled;
    if k > 0 { FilledFirst(prompt, batch, k - 1); }
  }

  /** The text still holds a placeholder, so the loop takes another turn. */
  predicate Fillable(s: string) { Contains(s, PLACEHOLDER) }

  lemma FillableFacts(prompt: string, batch: string)
    ensures FilledTimes(prompt, batch, 0) == prompt
    ensures Fillable(prompt) ==> |Filled(prompt, "")| < |prompt|
    ensures Fillable(prompt) <==> Holders(prompt) > 0
    ensures Fillable(prompt) && batch != "" && Framed(batch) && !Fillable(batch) ==>
              Holders(Filled(prompt, batch)) + 1 == Holders(prompt)
  {
    NoHolder(prompt);
    hide Contains, Filled, Framed, Holders;
    if Fillable(prompt) {
      FilledShorter(prompt);
      if batch != "" && Framed(batch) && !Fillable(batch) { FilledFewer(prompt, batch); }
    }
  }

  lemma {:induction false} EmptyUsesUp(prompt: string) returns (k: nat)
    ensures !Fillable(FilledTimes(prompt, "", k))
    decreases |prompt|
  {
    hide *;
    FillableFacts(prompt, "");
    k := 0;
    if Fillable(prompt) {
      k := EmptyUsesUp(Filled(prompt, ""));
      FilledFirst(prompt, "", k);
      k := k + 1;
    }
  }

  /** A batch without a placeholder uses them up, in as many turns as there are. */
  lemma {:induction false} BatchUsesUp(prompt: string, batch: string, k: nat)
    requires batch != "" && Framed(batch) && !Fillable(batch) && Holders(prompt) == k
    ensures !Fillable(FilledTimes(prompt, batch, k))
    decreases k
  {
    hide *;
    FillableFacts(prompt, batch);
    if k > 0 {
      BatchUsesUp(Filled(prompt, batch), batch, k - 1);
      FilledFirst(prompt, batch, k - 1);
    }
  }

  /** The loop that fills the prompt ends exactly when the prompt holds no placeholder or the
      batch holds none; otherwise it runs forever and the conversation is never released. */
  lemma FillingEnds(prompt: string, rows: seq<Row>, budget: nat)
    requires forall r :: r in rows ==> r.role == "user" || r.role == "assistant"
    ensures var batch := Serialized(rows, budget);
            (exists k: nat :: !Contains(FilledTimes(prompt, batch, k), PLACEHOLDER)) <==>
            !Contains(prompt, PLACEHOLDER) || !Contains(batch, PLACEHOLDER)
  {
    var batch := Serialized(rows, budget);
    SerializedFramed(rows, budget);
    assert FilledTimes(prompt, batch, 0) == prompt;
    hide Contains, FilledTimes, Serialized, Framed;
    if !Contains(prompt, PLACEHOLDER) {
      assert !Contains(FilledTimes(prompt, batch, 0), PLACEHOLDER);
    } else if !Contains(batch, PLACEHOLDER) {
      if batch == "" {
        var k := EmptyUsesUp(prompt);
      } else {
        BatchUsesUp(prompt, batch, Holders(prompt));
      }
    } else {
      forall k: nat
        ensures Contains(FilledTimes(prompt, batch, k), PLACEHOLDER)
      {
        NeverFilled(prompt, batch, k);
      }
    }
  }
}
