/** Detection of repetitive tool use over bounded windows of the call log, and the step of a
    turn that acts on it. */
module LoopDetector {
  import opened Text
  import opened Types

  datatype Action = Continue | Warn | Block | Break
  {
    function Rank(): nat {
      match this
      case Continue => 0
      case Warn => 1
      case Block => 2
      case Break => 3
    }
  }

  datatype ToolResult = ToolResult(output: string, isError: bool)

  datatype CallRecord = CallRecord(signature: string, resultHash: string, toolName: string)

  datatype Thresholds = Thresholds(exactRepeat: int, pingPong: int, noProgress: int)

  const CALL_WINDOW: nat := 20
  const RESULT_WINDOW: nat := 50

  function CallSignature(call: ToolCall, dump: Json -> string): string {
    call.name + ":" + dump(call.arguments)
  }

  function ResultSignature(result: ToolResult): string {
    (if result.isError then "E" else "O") + (if |result.output| > 64 then result.output[..64] else result.output)
  }

  function Record(call: ToolCall, result: ToolResult, dump: Json -> string): CallRecord {
    CallRecord(CallSignature(call, dump), ResultSignature(result), call.name)
  }

  function Last<T>(s: seq<T>, k: nat): seq<T> {
    if |s| <= k then s else s[|s| - k..]
  }

  function Min(a: nat, b: nat): nat { if a <= b then a else b }

  function Outcomes(log: seq<CallRecord>): seq<(string, string)> {
    seq(|log|, i requires 0 <= i < |log| => (log[i].toolName, log[i].resultHash))
  }

  // --- What the three scans compute ------------------------------------------------

  /** Calls at the end of `calls` with this signature. */
  function TrailingSame(calls: seq<CallRecord>, signature: string): (n: nat)
    ensures n <= |calls|
  {
    if calls == [] || calls[|calls| - 1].signature != signature then 0
    else 1 + TrailingSame(calls[..|calls| - 1], signature)
  }

  /** Calls at the end of `calls` that each differ in tool from the call after them. */
  function Alternations(calls: seq<CallRecord>, current: string): (n: nat)
    ensures n <= |calls|
  {
    if calls == [] || calls[|calls| - 1].toolName == current then 0
    else 1 + Alternations(calls[..|calls| - 1], calls[|calls| - 1].toolName)
  }

  /** This tool's latest results that equal `hash`; other tools do not interrupt the run. */
  function SameResults(outcomes: seq<(string, string)>, tool: string, hash: string): nat {
    if outcomes == [] then 0
    else
      var init, last := outcomes[..|outcomes| - 1], outcomes[|outcomes| - 1];
      if last.0 != tool then SameResults(init, tool, hash)
      else if last.1 == hash then 1 + SameResults(init, tool, hash)
      else 0
  }

  function CallsOf(outcomes: seq<(string, string)>, tool: string): nat {
    if outcomes == [] then 0
    else CallsOf(outcomes[..|outcomes| - 1], tool) + if outcomes[|outcomes| - 1].0 == tool then 1 else 0
  }

  /** The cast of `threshold - 1` to `size_t` makes a non-positive threshold unreachable. */
  predicate TooFew(size: nat, threshold: int) { threshold <= 0 || size < threshold - 1 }

  predicate ExactRepeat(calls: seq<CallRecord>, signature: string, threshold: int) {
    !TooFew(|calls|, threshold) && 1 + TrailingSame(calls, signature) >= threshold
  }

  predicate PingPong(calls: seq<CallRecord>, tool: string, threshold: int) {
    !TooFew(|calls|, threshold) && Alternations(calls, tool) >= threshold
  }

  predicate NoProgress(outcomes: seq<(string, string)>, tool: string, hash: string, threshold: int) {
    SameResults(outcomes, tool, hash) + 1 >= threshold
  }

  function Decide(calls: seq<CallRecord>, outcomes: seq<(string, string)>, r: CallRecord, th: Thresholds): Action {
    if NoProgress(outcomes, r.toolName, r.resultHash, th.noProgress) then Break
    else if ExactRepeat(calls, r.signature, th.exactRepeat) then Block
    else if PingPong(calls, r.toolName, th.pingPong) then Warn
    else Continue
  }

  /** The verdict on `r` after `log`: what `check` sees of the log is its two windows. */
  function Verdict(log: seq<CallRecord>, r: CallRecord, th: Thresholds): Action {
    Decide(Last(log, CALL_WINDOW), Last(Outcomes(log), RESULT_WINDOW), r, th)
  }

  // --- The detector ----------------------------------------------------------------

  class Detector {
    const dump: Json -> string
    var thresholds: Thresholds
    var recentCalls: seq<CallRecord>
    var toolResultHistory: seq<(string, string)>
    /** Every call checked since the last reset. */
    ghost var log: seq<CallRecord>

    ghost predicate Valid()
      reads this
    {
      recentCalls == Last(log, CALL_WINDOW) && toolResultHistory == Last(Outcomes(log), RESULT_WINDOW)
    }

    constructor (dump: Json -> string)
      ensures Valid() && log == [] && this.dump == dump && thresholds == Thresholds(3, 4, 5)
    {
      this.dump := dump;
      thresholds := Thresholds(3, 4, 5);
      recentCalls, toolResultHistory, log := [], [], [];
    }

    method IsExactRepeat(call: ToolCall) returns (repeated: bool)
      ensures repeated == ExactRepeat(recentCalls, CallSignature(call, dump), thresholds.exactRepeat)
    {
      if TooFew(|recentCalls|, thresholds.exactRepeat) { return false; }
      var signature := CallSignature(call, dump);
      var count, i := 1, |recentCalls|;
      assert recentCalls[..i] == recentCalls;
      while i > 0 && recentCalls[i - 1].signature == signature
        invariant 0 <= i <= |recentCalls|
        invariant count + TrailingSame(recentCalls[..i], signature) == 1 + TrailingSame(recentCalls, signature)
      {
        assert recentCalls[..i][..i - 1] == recentCalls[..i - 1];
        count, i := count + 1, i - 1;
      }
      repeated := count >= thresholds.exactRepeat;
    }

    method IsPingPong(call: ToolCall) returns (alternating: bool)
      ensures alternating == PingPong(recentCalls, call.name, thresholds.pingPong)
    {
      if TooFew(|recentCalls|, thresholds.pingPong) { return false; }
      var current := call.name;
      var alternations, i := 0, |recentCalls|;
      assert recentCalls[..i] == recentCalls;
      while i > 0
        invariant 0 <= i <= |recentCalls|
        invariant alternations + Alternations(recentCalls[..i], current) == Alternations(recentCalls, call.name)
      {
        if recentCalls[i - 1].toolName == current { break; }
        assert recentCalls[..i][..i - 1] == recentCalls[..i - 1];
        alternations, current, i := alternations + 1, recentCalls[i - 1].toolName, i - 1;
      }
      alternating := alternations >= thresholds.pingPong;
    }

    method IsNoProgress(call: ToolCall, result: ToolResult) returns (stuck: bool)
      ensures stuck == NoProgress(toolResultHistory, call.name, ResultSignature(result), thresholds.noProgress)
    {
      var hash := ResultSignature(result);
      var same, i := 0, |toolResultHistory|;
      assert toolResultHistory[..i] == toolResultHistory;
      while i > 0
        invariant 0 <= i <= |toolResultHistory|
        invariant same + SameResults(toolResultHistory[..i], call.name, hash)
               == SameResults(toolResultHistory, call.name, hash)
      {
        var outcome := toolResultHistory[i - 1];
        assert toolResultHistory[..i][..i - 1] == toolResultHistory[..i - 1];
        if outcome.0 == call.name {
          if outcome.1 != hash { break; }
          same := same + 1;
        }
        i := i - 1;
      }
      stuck := same + 1 >= thresholds.noProgress;
    }

    method Check(call: ToolCall, result: ToolResult) returns (action: Action)
      requires Valid()
      modifies this
      ensures Valid() && thresholds == old(thresholds)
      ensures log == old(log) + [CallRecord(CallSignature(call, dump), ResultSignature(result), call.name)]
      ensures action == Verdict(old(log), Record(call, result, dump), thresholds)
    {
      var r := Record(call, result, dump);
      var exact := IsExactRepeat(call);
      var pong := IsPingPong(call);
      var stuck := IsNoProgress(call, result);
      LastSnoc(log, r, CALL_WINDOW);
      LastSnoc(Outcomes(log), (call.name, r.resultHash), RESULT_WINDOW);
      assert Outcomes(log + [r]) == Outcomes(log) + [(call.name, r.resultHash)];
      var calls, outcomes := recentCalls + [r], toolResultHistory + [(call.name, r.resultHash)];
      ghost var allCalls, allOutcomes := calls, outcomes;
      while |calls| > CALL_WINDOW
        invariant Last(calls, CALL_WINDOW) == Last(allCalls, CALL_WINDOW)
      {
        calls := calls[1..];
      }
      while |outcomes| > RESULT_WINDOW
        invariant Last(outcomes, RESULT_WINDOW) == Last(allOutcomes, RESULT_WINDOW)
      {
        outcomes := outcomes[1..];
      }
      recentCalls, toolResultHistory, log := calls, outcomes, log + [r];
      if stuck { return Break; }
      if exact { return Block; }
      if pong { return Warn; }
      action := Continue;
    }

    method Reset()
      modifies this
      ensures Valid() && log == [] && thresholds == old(thresholds)
    {
      recentCalls, toolResultHistory, log := [], [], [];
    }
  }

  lemma LastSnoc<T>(s: seq<T>, x: T, k: nat)
    requires k > 0
    ensures Last(Last(s, k) + [x], k) == Last(s + [x], k)
  {
  }

  // --- What the verdicts mean ------------------------------------------------------

  lemma LastInit<T>(s: seq<T>, k: nat)
    requires 0 < k < |s|
    ensures Last(s, k)[..k - 1] == Last(s[..|s| - 1], k - 1) && Last(s, k)[k - 1] == s[|s| - 1]
  {
  }

  /** The scan for identical calls counts exactly the run at the end of the log. */
  lemma {:induction false} ExactMeaning(calls: seq<CallRecord>, signature: string, k: nat)
    ensures TrailingSame(calls, signature) >= k <==>
            k <= |calls| && forall i :: |calls| - k <= i < |calls| ==> calls[i].signature == signature
  {
    if calls != [] && k > 0 {
      var init := calls[..|calls| - 1];
      ExactMeaning(init, signature, k - 1);
      assert k <= |calls| ==> forall i :: |calls| - k <= i < |init| ==> calls[i] == init[i];
    }
  }

  /** The tools of the last `k` calls followed by the current one. */
  function Tail(calls: seq<CallRecord>, current: string, k: nat): seq<string>
    requires k <= |calls|
  {
    seq(k, i requires 0 <= i < k => calls[|calls| - k + i].toolName) + [current]
  }

  predicate AdjacentDiffer(names: seq<string>) {
    forall i :: 0 <= i < |names| - 1 ==> names[i] != names[i + 1]
  }

  lemma {:induction false} PingPongMeaning(calls: seq<CallRecord>, current: string, k: nat)
    ensures Alternations(calls, current) >= k <==> k <= |calls| && AdjacentDiffer(Tail(calls, current, k))
  {
    if calls != [] && 0 < k <= |calls| {
      var init, before := calls[..|calls| - 1], calls[|calls| - 1].toolName;
      PingPongMeaning(init, before, k - 1);
      TailSnoc(calls, current, k);
      AdjacentSnoc(Tail(init, before, k - 1), current);
    }
  }

  lemma TailSnoc(calls: seq<CallRecord>, current: string, k: nat)
    requires 0 < k <= |calls|
    ensures Tail(calls, current, k) ==
            Tail(calls[..|calls| - 1], calls[|calls| - 1].toolName, k - 1) + [current]
  {
  }

  lemma AdjacentSnoc(names: seq<string>, current: string)
    requires names != []
    ensures AdjacentDiffer(names + [current]) <==> AdjacentDiffer(names) && names[|names| - 1] != current
  {
    var all := names + [current];
    if AdjacentDiffer(all) {
      forall i | 0 <= i < |names| - 1
        ensures names[i] != names[i + 1]
      {
        assert all[i] != all[i + 1];
      }
      assert all[|names| - 1] != all[|names|];
    }
  }

  /** The results of one tool, in order. */
  function OfTool(outcomes: seq<(string, string)>, tool: string): seq<string> {
    if outcomes == [] then []
    else
      var last := outcomes[|outcomes| - 1];
      OfTool(outcomes[..|outcomes| - 1], tool) + if last.0 == tool then [last.1] else []
  }

  predicate EndsIn(s: seq<string>, x: string, k: nat) {
    k <= |s| && forall i :: |s| - k <= i < |s| ==> s[i] == x
  }

  lemma EndsSnoc(s: seq<string>, y: string, x: string, k: nat)
    ensures EndsIn(s + [y], x, k) <==> k == 0 || (y == x && EndsIn(s, x, k - 1))
  {
    var all := s + [y];
    assert forall i :: 0 <= i < |s| ==> all[i] == s[i];
    if k > 0 && EndsIn(all, x, k) { assert all[|s|] == x; }
  }

  /** The scan for results counts exactly the run at the end of that tool's results. */
  lemma {:induction false} ProgressMeaning(outcomes: seq<(string, string)>, tool: string, hash: string, k: nat)
    ensures SameResults(outcomes, tool, hash) >= k <==> EndsIn(OfTool(outcomes, tool), hash, k)
  {
    if outcomes != [] {
      var init, last := outcomes[..|outcomes| - 1], outcomes[|outcomes| - 1];
      if last.0 == tool {
        if k > 0 { ProgressMeaning(init, tool, hash, k - 1); }
        EndsSnoc(OfTool(init, tool), last.1, hash, k);
      } else {
        ProgressMeaning(init, tool, hash, k);
        assert OfTool(init, tool) + [] == OfTool(init, tool);
      }
    }
  }

  /** The verdict from the last 20 calls and the last 50 results: break when the tool's latest
      results all equal this one, else block when the latest calls all equal this one, else
      warn when no two neighbours of the latest calls are of the same tool. */
  lemma VerdictMeaning(log: seq<CallRecord>, r: CallRecord, th: Thresholds)
    ensures var calls := if |log| > 20 then log[|log| - 20..] else log;
            var seen := if |log| > 50 then log[|log| - 50..] else log;
            var results := OfTool(Outcomes(seen), r.toolName);
            Verdict(log, r, th) ==
            if th.noProgress <= 1 || EndsIn(results, r.resultHash, th.noProgress - 1) then Break
            else if 1 <= th.exactRepeat <= |calls| + 1
                    && (forall i :: |calls| + 1 - th.exactRepeat <= i < |calls| ==> calls[i].signature == r.signature)
            then Block
            else if 1 <= th.pingPong <= |calls| && AdjacentDiffer(Tail(calls, r.toolName, th.pingPong)) then Warn
            else Continue
  {
    var calls, outcomes := Last(log, CALL_WINDOW), Last(Outcomes(log), RESULT_WINDOW);
    assert outcomes == Outcomes(Last(log, RESULT_WINDOW));
    hide TrailingSame, Alternations, SameResults, AdjacentDiffer, EndsIn, OfTool, Outcomes;
    if th.noProgress > 1 { ProgressMeaning(outcomes, r.toolName, r.resultHash, th.noProgress - 1); }
    if th.exactRepeat >= 1 { ExactMeaning(calls, r.signature, th.exactRepeat - 1); }
    if th.pingPong >= 1 { PingPongMeaning(calls, r.toolName, th.pingPong); }
  }

  // --- Windows against the whole log -----------------------------------------------

  lemma {:induction false} TrailingWindow(calls: seq<CallRecord>, signature: string, w: nat)
    ensures TrailingSame(Last(calls, w), signature) == Min(w, TrailingSame(calls, signature))
  {
    if 0 < w < |calls| {
      LastInit(calls, w);
      TrailingWindow(calls[..|calls| - 1], signature, w - 1);
    } else if w == 0 {
      assert Last(calls, w) == [];
    }
  }

  lemma {:induction false} AlternationWindow(calls: seq<CallRecord>, current: string, w: nat)
    ensures Alternations(Last(calls, w), current) == Min(w, Alternations(calls, current))
  {
    if 0 < w < |calls| {
      LastInit(calls, w);
      AlternationWindow(calls[..|calls| - 1], calls[|calls| - 1].toolName, w - 1);
    } else if w == 0 {
      assert Last(calls, w) == [];
    }
  }

  lemma {:induction false} SameAtMost(outcomes: seq<(string, string)>, tool: string, hash: string)
    ensures SameResults(outcomes, tool, hash) <= CallsOf(outcomes, tool)
  {
    if outcomes != [] { SameAtMost(outcomes[..|outcomes| - 1], tool, hash); }
  }

  lemma {:induction false} ResultWindow(outcomes: seq<(string, string)>, tool: string, hash: string, w: nat)
    ensures SameResults(Last(outcomes, w), tool, hash)
         == Min(SameResults(outcomes, tool, hash), CallsOf(Last(outcomes, w), tool))
  {
    if 0 < w < |outcomes| {
      LastInit(outcomes, w);
      ResultWindow(outcomes[..|outcomes| - 1], tool, hash, w - 1);
    } else if w == 0 {
      assert Last(outcomes, w) == [];
    } else {
      SameAtMost(outcomes, tool, hash);
    }
  }

  ghost predicate ExactAgrees(threshold: int) {
    forall log, signature :: ExactRepeat(Last(log, CALL_WINDOW), signature, threshold)
                          == ExactRepeat(log, signature, threshold)
  }

  /** The 20-call window decides identical calls as the whole log would, on every log,
      exactly for thresholds up to 21. */
  lemma ExactWindow(threshold: int)
    ensures ExactAgrees(threshold) <==> threshold <= CALL_WINDOW + 1
  {
    forall log: seq<CallRecord>, signature: string
      ensures threshold <= CALL_WINDOW + 1 ==>
                ExactRepeat(Last(log, CALL_WINDOW), signature, threshold) == ExactRepeat(log, signature, threshold)
    {
      TrailingWindow(log, signature, CALL_WINDOW);
    }
    if threshold > CALL_WINDOW + 1 {
      var same := seq(threshold - 1, _ => CallRecord("", "", ""));
      ExactMeaning(same, "", threshold - 1);
      TrailingWindow(same, "", CALL_WINDOW);
      assert ExactRepeat(same, "", threshold) && !ExactRepeat(Last(same, CALL_WINDOW), "", threshold);
    }
  }

  ghost predicate PingPongAgrees(threshold: int) {
    forall log, tool :: PingPong(Last(log, CALL_WINDOW), tool, threshold) == PingPong(log, tool, threshold)
  }

  /** The window decides alternation as the whole log would exactly up to threshold 20. */
  lemma PingPongWindow(threshold: int)
    ensures PingPongAgrees(threshold) <==> threshold <= CALL_WINDOW
  {
    forall log: seq<CallRecord>, tool: string
      ensures threshold <= CALL_WINDOW ==>
                PingPong(Last(log, CALL_WINDOW), tool, threshold) == PingPong(log, tool, threshold)
    {
      AlternationWindow(log, tool, CALL_WINDOW);
    }
    if threshold > CALL_WINDOW {
      var swap := Swapping(threshold, "a", "b");
      SwappingAlternates(threshold, "a", "b");
      AlternationWindow(swap, "a", CALL_WINDOW);
      assert PingPong(swap, "a", threshold) && !PingPong(Last(swap, CALL_WINDOW), "a", threshold);
    }
  }

  /** `n` calls that alternate between two tools, the last one of tool `b`. */
  function Swapping(n: nat, a: string, b: string): (calls: seq<CallRecord>)
    ensures |calls| == n
  {
    if n == 0 then [] else Swapping(n - 1, b, a) + [CallRecord("", "", b)]
  }

  lemma {:induction false} SwappingAlternates(n: nat, a: string, b: string)
    requires a != b
    ensures Alternations(Swapping(n, a, b), a) == n
  {
    if n > 0 {
      SwappingAlternates(n - 1, b, a);
      assert Swapping(n, a, b)[..n - 1] == Swapping(n - 1, b, a);
    }
  }

  /** The no-progress verdict never fires on the window alone; it fires exactly when the
      whole log shows the pattern and the window holds enough calls of that tool. */
  lemma NoProgressWindow(log: seq<CallRecord>, r: CallRecord, threshold: int)
    ensures var all, window := Outcomes(log), Last(Outcomes(log), RESULT_WINDOW);
            NoProgress(window, r.toolName, r.resultHash, threshold) <==>
            NoProgress(all, r.toolName, r.resultHash, threshold) && CallsOf(window, r.toolName) + 1 >= threshold
  {
    ResultWindow(Outcomes(log), r.toolName, r.resultHash, RESULT_WINDOW);
  }

  /** With thresholds in range and this tool's latest calls inside the result window, the
      detector answers as one that remembers every call since the reset. */
  lemma VerdictOfWholeLog(log: seq<CallRecord>, r: CallRecord, th: Thresholds)
    requires th.exactRepeat <= CALL_WINDOW + 1 && th.pingPong <= CALL_WINDOW
    requires CallsOf(Last(Outcomes(log), RESULT_WINDOW), r.toolName) + 1 >= th.noProgress
    ensures Verdict(log, r, th) == Decide(log, Outcomes(log), r, th)
  {
    ExactWindow(th.exactRepeat);
    PingPongWindow(th.pingPong);
    NoProgressWindow(log, r, th.noProgress);
  }

  // --- What ping-pong does not mean ------------------------------------------------

  function Names(names: seq<string>): set<string> { set n | n in names }

  /** Two tools taking turns, which is what the setting is documented to detect. */
  predicate TwoToolsAlternate(names: seq<string>) {
    AdjacentDiffer(names) && forall i :: 0 <= i < |names| - 2 ==> names[i] == names[i + 2]
  }

  /** The code fires on any calls whose neighbours differ. Where it fires, two tools really
      take turns exactly when no third tool is among the calls it looked at. */
  lemma PingPongIsTwoTools(calls: seq<CallRecord>, tool: string, threshold: nat)
    requires threshold > 0 && PingPong(calls, tool, threshold)
    ensures var names := Tail(calls, tool, threshold);
            TwoToolsAlternate(names) <==> Names(names) == {names[0], names[1]}
  {
    PingPongMeaning(calls, tool, threshold);
    var names := Tail(calls, tool, threshold);
    if TwoToolsAlternate(names) {
      forall i | 0 <= i < |names|
        ensures names[i] in {names[0], names[1]}
      {
        EverySecond(names, i);
      }
      assert names[0] in Names(names) && names[1] in Names(names);
      assert Names(names) == {names[0], names[1]};
    } else if Names(names) == {names[0], names[1]} {
      forall i | 0 <= i < |names| - 2
        ensures names[i] == names[i + 2]
      {
        assert names[i] in Names(names) && names[i + 1] in Names(names) && names[i + 2] in Names(names);
        assert names[i] != names[i + 1] && names[i + 1] != names[i + 2];
      }
    }
  }

  lemma {:induction false} EverySecond(names: seq<string>, i: nat)
    requires TwoToolsAlternate(names) && i < |names|
    ensures names[i] == names[i % 2]
  {
    if i >= 2 {
      EverySecond(names, i - 2);
      assert names[i - 2] == names[i - 2 + 2];
    }
  }

  /** Five different tools in a row are reported as alternation at the default threshold. */
  lemma FiveToolsReported()
    ensures var log := [CallRecord("a:", "", "a"), CallRecord("b:", "", "b"),
                        CallRecord("c:", "", "c"), CallRecord("d:", "", "d")];
            && Verdict(log, CallRecord("e:", "", "e"), Thresholds(3, 4, 5)) == Warn
            && !TwoToolsAlternate(Tail(log, "e", 4))
  {
    var log := [CallRecord("a:", "", "a"), CallRecord("b:", "", "b"),
                CallRecord("c:", "", "c"), CallRecord("d:", "", "d")];
    PingPongMeaning(log, "e", 4);
    ExactMeaning(log, "e:", 1);
    var names := Tail(log, "e", 4);
    assert names == ["a", "b", "c", "d", "e"] && names[0] != names[0 + 2];
    var outcomes := [("a", ""), ("b", ""), ("c", ""), ("d", "")];
    assert Outcomes(log) == outcomes;
    SameAtMost(outcomes, "e", "");
    NeverCalled(outcomes, "e");
  }

  lemma {:induction false} NeverCalled(outcomes: seq<(string, string)>, tool: string)
    requires forall i :: 0 <= i < |outcomes| ==> outcomes[i].0 != tool
    ensures CallsOf(outcomes, tool) == 0
  {
    if outcomes != [] { NeverCalled(outcomes[..|outcomes| - 1], tool); }
  }

  /** Calls of tools without a colon in their names count as identical exactly when names and
      dumped arguments are. */
  lemma CallsConfused(a: ToolCall, b: ToolCall, dump: Json -> string)
    requires ':' !in a.name && ':' !in b.name
    ensures CallSignature(a, dump) == CallSignature(b, dump) <==>
            a.name == b.name && dump(a.arguments) == dump(b.arguments)
  {
    if CallSignature(a, dump) == CallSignature(b, dump) {
      CutsAlike(a.name, dump(a.arguments), b.name, dump(b.arguments), ':');
    }
  }

  /** Results count as identical by their error flag and first 64 bytes, so different
      results are confused exactly when both fill those bytes with the same text. */
  lemma ResultsConfused(a: ToolResult, b: ToolResult)
    ensures ResultSignature(a) == ResultSignature(b) <==>
            || a == b
            || (a.isError == b.isError && |a.output| >= 64 && |b.output| >= 64 && a.output[..64] == b.output[..64])
  {
    var sa, sb := ResultSignature(a), ResultSignature(b);
    assert sa[1..] == if |a.output| > 64 then a.output[..64] else a.output;
    assert sb[1..] == if |b.output| > 64 then b.output[..64] else b.output;
    if sa == sb {
      assert sa[0] == sb[0] && sa[1..] == sb[1..];
    }
  }

  // --- The step of a turn ----------------------------------------------------------

  const BLOCKED: string := "[System: Repeated identical tool call detected. Breaking loop.]"

  class TurnContext {
    var pendingToolCalls: seq<ToolCall>
    var toolResults: seq<ToolResult>
    var messages: seq<Message>
    var shouldStop: bool

    constructor (calls: seq<ToolCall>, results: seq<ToolResult>, messages: seq<Message>)
      ensures pendingToolCalls == calls && toolResults == results && this.messages == messages && !shouldStop
    {
      pendingToolCalls, toolResults, this.messages, shouldStop := calls, results, messages, false;
    }
  }

  /** Calls without a result and results without a call are not looked at. */
  function Records(calls: seq<ToolCall>, results: seq<ToolResult>, dump: Json -> string): seq<CallRecord> {
    seq(Min(|calls|, |results|), i requires 0 <= i < Min(|calls|, |results|) => Record(calls[i], results[i], dump))
  }

  function Worse(a: Action, b: Action): Action { if b.Rank() > a.Rank() then b else a }

  function Worst(log: seq<CallRecord>, records: seq<CallRecord>, th: Thresholds): Action {
    if records == [] then Continue
    else
      var n := |records| - 1;
      Worse(Worst(log, records[..n], th), Verdict(log + records[..n], records[n], th))
  }

  /** Some call, judged after all calls before it, gets this verdict. */
  ghost predicate Judged(log: seq<CallRecord>, records: seq<CallRecord>, th: Thresholds, a: Action) {
    exists k :: 0 <= k < |records| && Verdict(log + records[..k], records[k], th) == a
  }

  lemma JudgedSnoc(log: seq<CallRecord>, records: seq<CallRecord>, th: Thresholds, a: Action)
    requires records != []
    ensures var n := |records| - 1;
            Judged(log, records, th, a) <==>
            Judged(log, records[..n], th, a) || Verdict(log + records[..n], records[n], th) == a
  {
    hide Verdict;
    var n := |records| - 1;
    assert forall k :: 0 <= k < n ==> records[..n][..k] == records[..k];
    if Judged(log, records[..n], th, a) {
      var k :| 0 <= k < n && Verdict(log + records[..n][..k], records[..n][k], th) == a;
      assert Verdict(log + records[..k], records[k], th) == a;
    }
  }

  /** The worst action is break if some call is judged so, each after all calls before it, else
      block if one is, else warn if one is. */
  lemma {:induction false} WorstIsMaximal(log: seq<CallRecord>, records: seq<CallRecord>, th: Thresholds)
    ensures Worst(log, records, th) ==
            if Judged(log, records, th, Break) then Break
            else if Judged(log, records, th, Block) then Block
            else if Judged(log, records, th, Warn) then Warn
            else Continue
  {
    if records != [] {
      WorstIsMaximal(log, records[..|records| - 1], th);
      JudgedSnoc(log, records, th, Break);
      JudgedSnoc(log, records, th, Block);
      JudgedSnoc(log, records, th, Warn);
      hide Verdict, Judged;
    }
  }

  method LoopDetectStep(ctx: TurnContext, detector: Detector) returns (warned: bool)
    requires detector.Valid()
    modifies ctx, detector
    ensures detector.Valid() && detector.thresholds == old(detector.thresholds)
    ensures var records := Records(old(ctx.pendingToolCalls), old(ctx.toolResults), detector.dump);
            var worst := Worst(old(detector.log), records, detector.thresholds);
            && detector.log == old(detector.log) + records
            && warned == (worst == Warn)
            && ctx.shouldStop == (old(ctx.shouldStop) || worst == Break)
            && ctx.pendingToolCalls == (if worst == Block then [] else old(ctx.pendingToolCalls))
            && ctx.toolResults == (if worst == Block then [] else old(ctx.toolResults))
            && ctx.messages == old(ctx.messages) + if worst == Block then [Plain(System, BLOCKED)] else []
  {
    hide Verdict, CallSignature, ResultSignature;
    warned := false;
    if ctx.pendingToolCalls == [] || ctx.toolResults == [] { return; }
    var worst := Continue;
    var count := Min(|ctx.pendingToolCalls|, |ctx.toolResults|);
    ghost var records := Records(ctx.pendingToolCalls, ctx.toolResults, detector.dump);
    for i := 0 to count
      invariant detector.Valid() && detector.thresholds == old(detector.thresholds)
      invariant unchanged(ctx)
      invariant detector.log == old(detector.log) + records[..i]
      invariant worst == Worst(old(detector.log), records[..i], detector.thresholds)
    {
      var action := detector.Check(ctx.pendingToolCalls[i], ctx.toolResults[i]);
      assert records[..i + 1] == records[..i] + [records[i]] && records[..i + 1][..i] == records[..i];
      if action.Rank() > worst.Rank() { worst := action; }
    }
    assert records[..count] == records;
    match worst {
      case Continue =>
      case Warn =>
        warned := true;
      case Block =>
        ctx.pendingToolCalls := [];
        ctx.toolResults := [];
        ctx.messages := ctx.messages + [Plain(System, BLOCKED)];
      case Break =>
        ctx.shouldStop := true;
    }
  }

  /** A call repeated `threshold` times since the reset never passes unblocked, whatever the
      turns it was spread over, and whatever was called before. */
  lemma RepeatsAreStopped(log: seq<CallRecord>, r: CallRecord, th: Thresholds)
    requires 1 <= th.exactRepeat <= CALL_WINDOW + 1 && |log| >= th.exactRepeat - 1
    requires forall i :: |log| - (th.exactRepeat - 1) <= i < |log| ==> log[i].signature == r.signature
    ensures Verdict(log, r, th).Rank() >= Block.Rank()
  {
    ExactMeaning(log, r.signature, th.exactRepeat - 1);
    TrailingWindow(log, r.signature, CALL_WINDOW);
  }
}
