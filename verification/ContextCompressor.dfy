/** Context compression: a protected head, a token-budgeted tail, one summary for the middle. */
module ContextCompressor {
  import opened Text
  import opened Types

  datatype Config = Config(
    enable: bool,
    contextLength: int,
    thresholdPercent: real,
    targetRatio: real,
    protectFirstN: nat,
    protectLastN: nat,
    maxSummaryTokens: int,
    abortOnSummaryFailure: bool,
    inPlace: bool)

  const DEFAULT_CONTEXT_LENGTH := 128000
  const MIN_CONTEXT_FLOOR := 64000
  const MAX_SUMMARY_CAP := 12000
  const TOOL_PRUNE_CHARS := 200
  const TOOL_ARG_TRUNCATE_CHARS := 500

  function Min(a: int, b: int): int { if a <= b then a else b }
  function Max(a: int, b: int): int { if a >= b then a else b }
  function Clamp(x: real, lo: real, hi: real): real { if x < lo then lo else if x > hi then hi else x }

  /** C++ integer division. */
  function TruncDiv(a: int, b: int): int
    requires b > 0
  {
    if a >= 0 then a / b else -((-a) / b)
  }

  /** `r` is the whole part of `x`. */
  ghost predicate Whole(x: real, r: int) { r as real <= x < r as real + 1.0 }

  lemma ShareWithin(x: real, share: real)
    requires 1.0 <= x && 0.0 <= share <= 1.0
    ensures 0.0 <= x * share <= x && (share < 1.0 ==> x * share < x)
  {
    assert x * (1.0 - share) >= 0.0;
  }

  /** The quotient leaves less than one divisor, on the side of the dividend. */
  lemma TruncDivIs(a: int, b: int)
    requires b > 0
    ensures var rest := a - b * TruncDiv(a, b);
            -b < rest < b && (a >= 0 ==> rest >= 0) && (a <= 0 ==> rest <= 0)
  {
  }

  /** What is not negative, truncated. */
  function Trunc(x: real, n: int): (r: int)
    requires 0.0 <= x <= n as real
    ensures 0 <= r <= n && (x < n as real ==> r < n) && Whole(x, r)
  {
    x.Floor
  }

  /** A share of `n`, truncated. */
  function Percent(n: int, share: real): (r: int)
    requires 1 <= n && 0.0 <= share <= 1.0
    ensures 0 <= r <= n && (share < 1.0 ==> r < n) && Whole(n as real * share, r)
  {
    ShareWithin(n as real, share);
    Trunc(n as real * share, n)
  }

  // --- Token estimates -------------------------------------------------------------

  /** Bytes that start a multi-byte character count double. */
  function WeightedChars(s: string): nat {
    if s == "" then 0 else WeightedChars(s[..|s| - 1]) + if s[|s| - 1] as int >= 0xC0 then 2 else 1
  }

  function Quarter(n: nat): nat { (n + 3) / 4 }

  function CallTokens(calls: seq<ToolCall>): nat {
    if calls == [] then 0
    else
      var tc := calls[|calls| - 1];
      CallTokens(calls[..|calls| - 1]) + Quarter(|tc.name|) + Quarter(tc.arguments.Size())
  }

  function Tokens(m: Message): nat {
    Quarter(WeightedChars(m.content))
    + (if m.name.Some? then Quarter(|m.name.value|) else 0)
    + (if m.toolCalls.Some? then CallTokens(m.toolCalls.value) else 0)
    + (if m.toolCallId.Some? then Quarter(|m.toolCallId.value|) else 0)
  }

  function TotalTokens(ms: seq<Message>): nat {
    if ms == [] then 0 else TotalTokens(ms[..|ms| - 1]) + Tokens(ms[|ms| - 1])
  }

  /** Bytes that start a multi-byte character. */
  function Leads(s: string): string {
    if s == "" then "" else Leads(s[..|s| - 1]) + if s[|s| - 1] as int >= 0xC0 then [s[|s| - 1]] else ""
  }

  lemma {:induction false} WeightIs(s: string)
    ensures WeightedChars(s) == |s| + |Leads(s)|
  {
    if s != "" { WeightIs(s[..|s| - 1]); }
  }

  function CallSizes(calls: seq<ToolCall>): nat {
    if calls == [] then 0 else |calls[0].name| + calls[0].arguments.Size() + CallSizes(calls[1..])
  }

  lemma {:induction false} CallTokensBetween(calls: seq<ToolCall>)
    ensures CallSizes(calls) <= 4 * CallTokens(calls) <= CallSizes(calls) + 6 * |calls|
  {
    if calls != [] {
      var init, last := calls[..|calls| - 1], calls[|calls| - 1];
      CallTokensBetween(init);
      CallSizesSnoc(init, last);
      assert calls == init + [last];
    }
  }

  lemma {:induction false} CallSizesSnoc(calls: seq<ToolCall>, call: ToolCall)
    ensures CallSizes(calls + [call]) == CallSizes(calls) + |call.name| + call.arguments.Size()
  {
    if calls == [] {
      assert [call][1..] == [];
    } else {
      assert (calls + [call])[1..] == calls[1..] + [call];
      CallSizesSnoc(calls[1..], call);
    }
  }

  /** A message counts a token for every four bytes of its content, name, call id and calls, with
      each byte that starts a longer character twice; every part that is there is rounded up. */
  lemma TokensBetween(m: Message)
    ensures var calls := if m.toolCalls.Some? then m.toolCalls.value else [];
            var name := if m.name.Some? then |m.name.value| else 0;
            var id := if m.toolCallId.Some? then |m.toolCallId.value| else 0;
            var size := |m.content| + |Leads(m.content)| + name + id + CallSizes(calls);
            size <= 4 * Tokens(m) <= size + 9 + 6 * |calls|
  {
    WeightIs(m.content);
    if m.toolCalls.Some? { CallTokensBetween(m.toolCalls.value); }
    hide WeightedChars, Leads, CallTokens, CallSizes;
  }

  /** Cost of the suffix from `i`: every message weighs its tokens and 10 more. */
  function SuffixCost(ms: seq<Message>, i: nat): nat
    requires i <= |ms|
    decreases |ms| - i
  {
    if i == |ms| then 0 else Tokens(ms[i]) + 10 + SuffixCost(ms, i + 1)
  }

  lemma {:induction false} CostSnoc(ms: seq<Message>, m: Message, i: nat)
    requires i <= |ms|
    ensures SuffixCost(ms + [m], i) == SuffixCost(ms, i) + Tokens(m) + 10
    decreases |ms| - i
  {
    hide Tokens;
    if i < |ms| {
      CostSnoc(ms, m, i + 1);
    } else {
      assert SuffixCost(ms + [m], |ms| + 1) == 0;
    }
  }

  /** The whole list costs its tokens and ten more per message. */
  lemma {:induction false} CostIsTokens(ms: seq<Message>)
    ensures SuffixCost(ms, 0) == TotalTokens(ms) + 10 * |ms|
  {
    if ms != [] {
      var init, last := ms[..|ms| - 1], ms[|ms| - 1];
      CostIsTokens(init);
      CostSnoc(init, last, 0);
      assert ms == init + [last];
    }
  }

  // --- Head ------------------------------------------------------------------------

  function SkipTools(ms: seq<Message>, head: nat): nat
    requires head <= |ms|
    decreases |ms| - head
  {
    if head < |ms| && ms[head].role == Tool then SkipTools(ms, head + 1) else head
  }

  /** Size of the protected head; `first` holds until something has been summarised. */
  function HeadSize(ms: seq<Message>, first: bool, protectFirstN: nat): nat {
    if ms == [] then 0
    else
      var system := if ms[0].role == System then 1 else 0;
      SkipTools(ms, if first then Min(system + protectFirstN, |ms|) else system)
  }

  /** The head never ends just before a tool result, and depends on roles alone. */
  lemma {:induction false} SkipToolsStops(ms: seq<Message>, other: seq<Message>, head: nat)
    requires head <= |ms| == |other|
    requires forall i :: 0 <= i < |ms| ==> ms[i].role == other[i].role
    ensures var h := SkipTools(ms, head);
            && head <= h <= |ms|
            && (h < |ms| ==> ms[h].role != Tool)
            && (forall i :: head <= i < h ==> ms[i].role == Tool)
            && SkipTools(other, head) == h
    decreases |ms| - head
  {
    if head < |ms| && ms[head].role == Tool { SkipToolsStops(ms, other, head + 1); }
  }

  /** A leading system message, and the first messages while nothing has been summarised. */
  ghost function HeadBase(ms: seq<Message>, first: bool, protectFirstN: nat): (base: nat)
    ensures base <= |ms|
  {
    Min(|ms|, (if ms != [] && ms[0].role == System then 1 else 0) + (if first then protectFirstN else 0))
  }

  /** The head reaches to its base and over the tool results that follow it, no further. */
  ghost predicate IsHead(ms: seq<Message>, base: nat, head: nat) {
    && base <= head <= |ms|
    && (forall i :: base <= i < head ==> ms[i].role == Tool)
    && (head < |ms| ==> ms[head].role != Tool)
  }

  /** The head is determined by that, and depends on roles alone. */
  lemma HeadFacts(ms: seq<Message>, other: seq<Message>, first: bool, protectFirstN: nat)
    requires |ms| == |other|
    requires forall i :: 0 <= i < |ms| ==> ms[i].role == other[i].role
    ensures IsHead(ms, HeadBase(ms, first, protectFirstN), HeadSize(ms, first, protectFirstN))
    ensures forall head: nat :: IsHead(ms, HeadBase(ms, first, protectFirstN), head) ==>
              head == HeadSize(ms, first, protectFirstN)
    ensures HeadSize(other, first, protectFirstN) == HeadSize(ms, first, protectFirstN)
  {
    SkipToolsStops(ms, other, HeadBase(ms, first, protectFirstN));
  }

  // --- Tail cut --------------------------------------------------------------------

  function MinTail(n: nat, head: nat, protectLastN: nat): int
    requires head < n
  {
    var available := Max(0, n - head - 1);
    Min(Min(protectLastN, Max(3, available)), available)
  }

  function Ceiling(tailBudget: nat): nat { Max(1, tailBudget * 3 / 2) }

  /** Index `j` may join the tail: its suffix is within budget or still below the minimum. */
  predicate Accepts(ms: seq<Message>, j: nat, ceiling: nat, minTail: int)
    requires j < |ms|
  {
    SuffixCost(ms, j) <= ceiling || |ms| - j < minTail
  }

  /** The lowest index the backward budget walk reaches from `i`. */
  function BudgetCut(ms: seq<Message>, head: nat, i: nat, ceiling: nat, minTail: int): nat
    requires head <= i <= |ms|
  {
    if i > head && Accepts(ms, i - 1, ceiling, minTail) then BudgetCut(ms, head, i - 1, ceiling, minTail) else i
  }

  predicate Speaks(m: Message) { m.role == User || m.role == Assistant }

  /** Index of the last user or assistant message in `head..i`. */
  function LastSpeaker(ms: seq<Message>, head: nat, i: nat): Option<nat>
    requires head <= i <= |ms|
  {
    if i == head then None
    else if Speaks(ms[i - 1]) then Some(i - 1)
    else LastSpeaker(ms, head, i - 1)
  }

  function TailCut(ms: seq<Message>, head: nat, protectLastN: nat, tailBudget: nat): int {
    var n := |ms|;
    if n <= head + 1 then n
    else
      var minTail := MinTail(n, head, protectLastN);
      var fallback := n - minTail;
      var budget := Min(BudgetCut(ms, head, n, Ceiling(tailBudget), minTail), fallback);
      var cut := if budget <= head then Max(fallback, head + 1) else budget;
      var speaker := LastSpeaker(ms, head, n);
      Max(if speaker.Some? then Min(cut, speaker.value) else cut, head + 1)
  }

  lemma {:induction false} BudgetCutFacts(ms: seq<Message>, head: nat, i: nat, ceiling: nat, minTail: int)
    requires head <= i <= |ms|
    ensures var b := BudgetCut(ms, head, i, ceiling, minTail);
            && head <= b <= i
            && (b < i ==> Accepts(ms, b, ceiling, minTail))
            && (head < b ==> !Accepts(ms, b - 1, ceiling, minTail))
  {
    if i > head && Accepts(ms, i - 1, ceiling, minTail) { BudgetCutFacts(ms, head, i - 1, ceiling, minTail); }
  }

  lemma {:induction false} LastSpeakerFacts(ms: seq<Message>, head: nat, i: nat)
    requires head <= i <= |ms|
    ensures var s := LastSpeaker(ms, head, i);
            && (s.Some? ==> head <= s.value < i && Speaks(ms[s.value]))
            && (forall j :: (if s.Some? then s.value + 1 else head) <= j < i ==> !Speaks(ms[j]))
  {
    if i > head && !Speaks(ms[i - 1]) { LastSpeakerFacts(ms, head, i - 1); }
  }

  lemma {:induction false} SuffixCostShrinks(ms: seq<Message>, i: nat, j: nat)
    requires i <= j <= |ms|
    ensures SuffixCost(ms, i) >= SuffixCost(ms, j) + 10 * (j - i)
    decreases j - i
  {
    if i < j { SuffixCostShrinks(ms, i + 1, j); }
  }

  /** Where the cut lies: after the head, with at least the protected minimum behind it. */
  lemma TailBounds(ms: seq<Message>, head: nat, protectLastN: nat, tailBudget: nat)
    requires head + 2 <= |ms|
    ensures var cut, n := TailCut(ms, head, protectLastN, tailBudget), |ms|;
            head < cut && cut <= n - Min(protectLastN, n - head - 1)
  {
    LastSpeakerFacts(ms, head, |ms|);
  }

  /** The last user or assistant message after index `head` is never summarised away. */
  lemma SpeakerKept(ms: seq<Message>, head: nat, protectLastN: nat, tailBudget: nat, speaker: nat)
    requires head + 2 <= |ms| && head < speaker < |ms| && (ms[speaker].role == User || ms[speaker].role == Assistant)
    requires forall j :: speaker < j < |ms| ==> !Speaks(ms[j])
    ensures TailCut(ms, head, protectLastN, tailBudget) <= speaker
  {
    LastSpeakerFacts(ms, head, |ms|);
  }

  /** The longest part behind the head that fits the ceiling starts at `fit`. */
  ghost predicate LongestFit(ms: seq<Message>, head: nat, ceiling: nat, fit: nat) {
    head <= fit <= |ms| && forall i :: head <= i <= |ms| ==> (SuffixCost(ms, i) <= ceiling <==> fit <= i)
  }

  /** There is exactly one such index. */
  lemma {:induction false} FitExists(ms: seq<Message>, head: nat, i: nat, ceiling: nat) returns (fit: nat)
    requires head <= i <= |ms|
    requires forall j :: i <= j <= |ms| ==> SuffixCost(ms, j) <= ceiling
    ensures LongestFit(ms, head, ceiling, fit)
    ensures forall other: nat :: LongestFit(ms, head, ceiling, other) ==> other == fit
  {
    if i > head && SuffixCost(ms, i - 1) <= ceiling {
      fit := FitExists(ms, head, i - 1, ceiling);
    } else {
      fit := i;
      forall j | head <= j < i
        ensures SuffixCost(ms, j) > ceiling
      {
        SuffixCostShrinks(ms, j, i - 1);
      }
      forall other: nat | LongestFit(ms, head, ceiling, other)
        ensures other == fit
      {
        assert SuffixCost(ms, other) <= ceiling && SuffixCost(ms, fit) <= ceiling;
      }
    }
  }

  /** The walk stops at what fits, or where the minimum is reached. */
  lemma WalkEnds(ms: seq<Message>, head: nat, ceiling: nat, minTail: nat, fit: nat)
    requires LongestFit(ms, head, ceiling, fit) && minTail < |ms| - head
    ensures BudgetCut(ms, head, |ms|, ceiling, minTail) == Min(fit, |ms| - minTail + 1)
  {
    BudgetCutFacts(ms, head, |ms|, ceiling, minTail);
    assert SuffixCost(ms, |ms|) == 0;
    hide SuffixCost, BudgetCut;
    var b := BudgetCut(ms, head, |ms|, ceiling, minTail);
    assert b == |ms| || SuffixCost(ms, b) <= ceiling || |ms| - b < minTail;
    assert head < b ==> SuffixCost(ms, b - 1) > ceiling && |ms| - (b - 1) >= minTail;
  }

  /** The cut from the inputs alone: where the longest fitting suffix starts unless that is at
      the head, but never behind the minimum or the last speaker. */
  lemma TailByFit(ms: seq<Message>, head: nat, protectLastN: nat, tailBudget: nat, fit: nat)
    requires head + 2 <= |ms| && LongestFit(ms, head, Max(1, tailBudget * 3 / 2), fit)
    ensures var fallback, s := |ms| - Min(protectLastN, |ms| - head - 1), LastSpeaker(ms, head, |ms|);
            var cut := if fit == head then fallback else Min(fit, fallback);
            TailCut(ms, head, protectLastN, tailBudget) ==
            Max(head + 1, if s.Some? then Min(cut, s.value) else cut)
  {
    assert Ceiling(tailBudget) == Max(1, tailBudget * 3 / 2);
    hide LongestFit, BudgetCut, LastSpeaker, Ceiling;
    WalkEnds(ms, head, Ceiling(tailBudget), MinTail(|ms|, head, protectLastN), fit);
    assert head <= fit by { FitWithin(ms, head, Ceiling(tailBudget), fit); }
  }

  lemma FitWithin(ms: seq<Message>, head: nat, ceiling: nat, fit: nat)
    requires LongestFit(ms, head, ceiling, fit)
    ensures head <= fit <= |ms|
    ensures fit == head <==> SuffixCost(ms, head) <= ceiling
  {
  }

  /** Every suffix behind the head that fits the ceiling is kept. */
  ghost predicate KeepsWhatFits(ms: seq<Message>, head: nat, protectLastN: nat, tailBudget: nat) {
    forall i :: head < i <= |ms| && SuffixCost(ms, i) <= Ceiling(tailBudget) ==>
      TailCut(ms, head, protectLastN, tailBudget) <= i
  }

  /** What fits is kept exactly when not everything from the head on fits, or the minimum or
      the last speaker reaches up to the head anyway. */
  lemma TailIsMaximal(ms: seq<Message>, head: nat, protectLastN: nat, tailBudget: nat)
    requires head + 2 <= |ms|
    ensures var n, s := |ms|, LastSpeaker(ms, head, |ms|);
            KeepsWhatFits(ms, head, protectLastN, tailBudget) <==>
            || SuffixCost(ms, head) > Ceiling(tailBudget)
            || protectLastN >= n - head - 1
            || (s.Some? && s.value <= head + 1)
  {
    var cut, ceiling := TailCut(ms, head, protectLastN, tailBudget), Ceiling(tailBudget);
    var fit := FitExists(ms, head, |ms|, ceiling);
    TailByFit(ms, head, protectLastN, tailBudget, fit);
    FitWithin(ms, head, ceiling, fit);
    hide SuffixCost, TailCut, LastSpeaker, Ceiling;
    if fit == head {
      assert SuffixCost(ms, head + 1) <= ceiling;
      assert KeepsWhatFits(ms, head, protectLastN, tailBudget) <==> cut <= head + 1;
    } else {
      assert cut <= fit;
    }
  }

  /** When everything after the head fits the ceiling the walk overruns the head, and the
      tail falls back to the bare minimum instead of keeping what would fit. */
  lemma OverrunFallsBack(ms: seq<Message>, head: nat, protectLastN: nat, tailBudget: nat)
    requires head + 2 <= |ms| && SuffixCost(ms, head) <= Ceiling(tailBudget)
    ensures var n, s := |ms|, LastSpeaker(ms, head, |ms|);
            var fallback := n - Min(protectLastN, n - head - 1);
            TailCut(ms, head, protectLastN, tailBudget) ==
            Max(head + 1, if s.Some? then Min(fallback, s.value) else fallback)
  {
    var fit := FitExists(ms, head, |ms|, Ceiling(tailBudget));
    FitWithin(ms, head, Ceiling(tailBudget), fit);
    TailByFit(ms, head, protectLastN, tailBudget, fit);
  }

  /** Five messages behind an empty head that cost 50 of the 150 allowed: four are dropped. */
  lemma OverrunHappens()
    ensures var ms := seq(5, _ => Plain(User, ""));
            SuffixCost(ms, 0) == 50 && Ceiling(100) == 150 && TailCut(ms, 0, 1, 100) == 4
  {
    var ms := seq(5, _ => Plain(User, ""));
    assert Tokens(Plain(User, "")) == 0;
    assert forall i :: 0 <= i < 5 ==> Tokens(ms[i]) == 0 && Speaks(ms[i]);
    assert SuffixCost(ms, 5) == 0;
    assert SuffixCost(ms, 3) == 20;
    assert SuffixCost(ms, 1) == 40;
    OverrunFallsBack(ms, 0, 1, 100);
    assert LastSpeaker(ms, 0, 5) == Some(4);
  }

  // --- Pruning old tool output -----------------------------------------------------

  const DUPLICATE: string :=
    "[Duplicate tool output \U{E2}\U{80}\U{94} same content as a more recent call]"

  function SkipChars(s: string, chars: string, from: nat): nat
    requires from <= |s|
    decreases |s| - from
  {
    if from < |s| && s[from] in chars then SkipChars(s, chars, from + 1) else from
  }

  function UntilChars(s: string, chars: string, from: nat): nat
    requires from <= |s|
    decreases |s| - from
  {
    if from < |s| && s[from] !in chars then UntilChars(s, chars, from + 1) else from
  }

  lemma {:induction false} ScanBounds(s: string, chars: string, from: nat)
    requires from <= |s|
    ensures from <= SkipChars(s, chars, from) <= |s| && from <= UntilChars(s, chars, from) <= |s|
    decreases |s| - from
  {
    if from < |s| { ScanBounds(s, chars, from + 1); }
  }

  function CompactArgs(args: string): string {
    ScanBounds(args, " \t\r\n{", 0);
    var start := SkipChars(args, " \t\r\n{", 0);
    ScanBounds(args, ",}\n", start);
    var end := UntilChars(args, ",}\n", start);
    if end < |args| then args[start..end] else args
  }

  function OneLiner(name: string, args: string, content: string): string {
    var compact := CompactArgs(args);
    ToolTag(name) + (if compact != "" then " " + compact else "") + SizeTag(content)
  }

  function ToolTag(name: string): string { "[" + (if name == "" then "tool" else name) + "]" }

  function SizeTag(content: string): string { " (" + Decimal(|content|) + " chars)" }

  predicate Prunable(m: Message) { m.role == Tool && |m.content| >= TOOL_PRUNE_CHARS }

  function Key(m: Message): string { if |m.content| <= 256 then m.content else m.content[..256] }

  ghost predicate LongResult(m: Message) { m.role == Tool && |m.content| >= 200 }

  /** Two contents agree up to their first 256 bytes. */
  ghost predicate SameStart(a: string, b: string) {
    a == b || (|a| >= 256 && |b| >= 256 && a[..256] == b[..256])
  }

  lemma KeyMeaning(a: Message, b: Message)
    ensures Key(a) == Key(b) <==> SameStart(a.content, b.content)
  {
  }

  predicate SeenBefore(ms: seq<Message>, i: nat)
    requires i < |ms|
  {
    exists j :: 0 <= j < i && Prunable(ms[j]) && Key(ms[j]) == Key(ms[i])
  }

  function ShortContent(m: Message, duplicate: bool): string {
    if duplicate then DUPLICATE
    else
      OneLiner(
        if m.name.Some? then m.name.value else "tool",
        if m.toolCallId.Some? && m.toolCallId.value != "" then "call=" + m.toolCallId.value else "",
        m.content)
  }

  ghost predicate Framed(s: string, front: string, back: string) {
    |front| + |back| <= |s| && s[..|front|] == front && s[|s| - |back|..] == back
  }

  /** A description names the tool first and the length of the result last. */
  ghost predicate Describes(short: string, m: Message) {
    Framed(short, "[" + (if m.name.Some? && m.name.value != "" then m.name.value else "tool") + "]",
           " (" + Decimal(|m.content|) + " chars)")
  }

  lemma Frames(front: string, mid: string, back: string)
    ensures Framed(front + mid + back, front, back)
  {
  }

  /** From `i` to `stop` all characters are (not) among `chars`, and the next one is not (is). */
  ghost predicate Runs(s: string, chars: string, i: nat, stop: nat, among: bool)
    requires i <= stop <= |s|
  {
    (forall k :: i <= k < stop ==> (s[k] in chars <==> among)) && (stop < |s| ==> (s[stop] in chars <==> !among))
  }

  /** Arguments are cut in front of a comma, a brace or a line break, behind leading spaces and
      braces; when there is nothing to cut they stay whole. */
  lemma CompactMeaning(args: string, start: nat, end: nat)
    requires start <= end <= |args|
    requires Runs(args, " \t\r\n{", 0, start, true) && Runs(args, ",}\n", start, end, false)
    ensures CompactArgs(args) == if end < |args| then args[start..end] else args
  {
    SkipsTo(args, " \t\r\n{", 0, start);
    StopsAt(args, ",}\n", start, end);
    hide SkipChars, UntilChars, Runs;
  }

  lemma {:induction false} SkipsTo(s: string, chars: string, i: nat, stop: nat)
    requires i <= stop <= |s|
    requires Runs(s, chars, i, stop, true)
    ensures SkipChars(s, chars, i) == stop
    decreases stop - i
  {
    if i < stop { SkipsTo(s, chars, i + 1, stop); }
  }

  lemma {:induction false} StopsAt(s: string, chars: string, i: nat, stop: nat)
    requires i <= stop <= |s|
    requires Runs(s, chars, i, stop, false)
    ensures UntilChars(s, chars, i) == stop
    decreases stop - i
  {
    if i < stop { StopsAt(s, chars, i + 1, stop); }
  }

  /** Between tool and length stands the call's id, up to a character that cuts it. */
  lemma ShortNamesCall(m: Message)
    ensures var front, back := ToolTag(if m.name.Some? then m.name.value else "tool"), SizeTag(m.content);
            && (m.toolCallId.None? || m.toolCallId.value == "" ==> ShortContent(m, false) == front + back)
            && (m.toolCallId.Some? && m.toolCallId.value != "" ==>
                  var args := CompactArgs("call=" + m.toolCallId.value);
                  ShortContent(m, false) == front + (if args == "" then "" else " " + args) + back)
  {
    assert CompactArgs("") == "" by { CompactMeaning("", 0, 0); }
    var front := ToolTag(if m.name.Some? then m.name.value else "tool");
    assert front + "" == front;
    hide ToolTag, SizeTag, CompactArgs;
  }

  lemma ShortDescribes(m: Message)
    ensures Describes(ShortContent(m, false), m)
  {
    var name := if m.name.Some? then m.name.value else "tool";
    var args := if m.toolCallId.Some? && m.toolCallId.value != "" then "call=" + m.toolCallId.value else "";
    var compact := CompactArgs(args);
    hide CompactArgs, Decimal, Framed;
    Frames(ToolTag(name), if compact != "" then " " + compact else "", SizeTag(m.content));
  }

  function PrunedMessage(ms: seq<Message>, cut: int, i: nat): Message
    requires i < |ms|
  {
    var m := ms[i];
    if i >= cut || !Prunable(m) then m else m.(content := ShortContent(m, SeenBefore(ms, i)))
  }

  function Pruned(ms: seq<Message>, cut: int): (r: seq<Message>)
    ensures |r| == |ms|
  {
    seq(|ms|, i requires 0 <= i < |ms| => PrunedMessage(ms, cut, i))
  }

  /** Only containers have a size above 500, and those do not convert to the string the
      truncation helper takes: the conversion throws, so no argument is ever truncated. */
  predicate Oversized(m: Message) {
    m.role == Assistant && m.toolCalls.Some? &&
    exists tc :: tc in m.toolCalls.value && tc.arguments.Size() > TOOL_ARG_TRUNCATE_CHARS
  }

  predicate PruneThrows(ms: seq<Message>, cut: int) {
    exists i :: 0 <= i < |ms| && i < cut && Oversized(ms[i])
  }

  /** Pruning rewrites tool contents before the cut and nothing else. */
  lemma PruneKeeps(ms: seq<Message>, cut: int, i: nat)
    requires i < |ms|
    ensures var p := Pruned(ms, cut)[i];
            && p.(content := ms[i].content) == ms[i]
            && (i >= cut || ms[i].role != Tool || |ms[i].content| < TOOL_PRUNE_CHARS ==> p == ms[i])
  {
  }

  /** Of old results with the same first 256 bytes the earliest is described and every later
      one is replaced by the duplicate text, although that text names a more recent call. */
  lemma {:induction false} DuplicatePointsBack(ms: seq<Message>, cut: int, i: nat) returns (first: nat)
    requires i < |ms| && i < cut && LongResult(ms[i])
    ensures first <= i && LongResult(ms[first]) && SameStart(ms[first].content, ms[i].content)
    ensures forall j :: 0 <= j < first && LongResult(ms[j]) ==> !SameStart(ms[j].content, ms[i].content)
    ensures Describes(Pruned(ms, cut)[first].content, ms[first])
    ensures first < i ==> Pruned(ms, cut)[i].content == DUPLICATE
    decreases i
  {
    hide ShortContent, Key, SameStart, Describes, Pruned;
    PrunedAt(ms, cut, i);
    if SeenBefore(ms, i) {
      var j :| 0 <= j < i && Prunable(ms[j]) && Key(ms[j]) == Key(ms[i]);
      KeyMeaning(ms[j], ms[i]);
      first := DuplicatePointsBack(ms, cut, j);
      SameStartChains(ms[first].content, ms[j].content, ms[i].content);
      forall k | 0 <= k < first && LongResult(ms[k])
        ensures !SameStart(ms[k].content, ms[i].content)
      {
        SameStartChains(ms[k].content, ms[i].content, ms[j].content);
      }
    } else {
      first := i;
      SameStartChains(ms[i].content, ms[i].content, ms[i].content);
      forall j | 0 <= j < i && LongResult(ms[j])
        ensures !SameStart(ms[j].content, ms[i].content)
      {
        KeyMeaning(ms[j], ms[i]);
      }
    }
  }

  lemma SameStartChains(a: string, b: string, c: string)
    ensures SameStart(a, a) && (SameStart(a, b) <==> SameStart(b, a))
    ensures SameStart(b, c) <==> SameStart(c, b)
    ensures SameStart(a, b) && SameStart(b, c) ==> SameStart(a, c)
  {
  }

  /** What becomes of an old result. */
  lemma PrunedAt(ms: seq<Message>, cut: int, i: nat)
    requires i < |ms| && i < cut && Prunable(ms[i])
    ensures SeenBefore(ms, i) ==> Pruned(ms, cut)[i].content == DUPLICATE
    ensures !SeenBefore(ms, i) ==> Describes(Pruned(ms, cut)[i].content, ms[i])
  {
    ShortDescribes(ms[i]);
    hide SeenBefore, Describes, OneLiner, Key;
  }

  // --- Summary ---------------------------------------------------------------------

  /** Rendering a tool call converts its arguments to a string; anything else throws. */
  predicate RenderThrows(middle: seq<Message>) {
    exists m :: m in middle && m.toolCalls.Some? &&
      exists tc :: tc in m.toolCalls.value && !tc.arguments.JString?
  }

  function RoleName(r: Role): string {
    match r
    case User => "user"
    case Assistant => "assistant"
    case Tool => "tool"
    case System => "system"
  }

  const FALLBACK_TITLE: string := "[Summary unavailable \U{E2}\U{80}\U{94} deterministic fallback]\n"

  function FallbackLine(m: Message): string {
    RoleName(m.role) + ": " + m.content[..Min(|m.content|, 300)] + "\n"
  }

  /** The last eight messages, newest first, cut to 300 bytes each. */
  function FallbackSummary(middle: seq<Message>): string {
    FALLBACK_TITLE + Concat(NewestLines(middle, Min(|middle|, 8)))
  }

  function NewestLines(middle: seq<Message>, n: nat): seq<string>
    requires n <= |middle|
  {
    seq(n, i requires 0 <= i < n => FallbackLine(middle[|middle| - 1 - i]))
  }

  function SummaryRole(lastHead: Role, firstTail: Role): Role {
    var preferred := if lastHead == User then Assistant else User;
    var flipped := if preferred == User then Assistant else User;
    if preferred == firstTail && flipped != lastHead then flipped else preferred
  }

  /** The summary speaks as user or assistant, never repeats the role before it, and repeats
      the role after it only where avoiding that would repeat the role before it. */
  lemma SummaryRoleFits(lastHead: Role, firstTail: Role)
    ensures var r := SummaryRole(lastHead, firstTail);
            && (r == User || r == Assistant) && r != lastHead
            && (r == firstTail <==>
                (lastHead == User && firstTail == Assistant) || (lastHead == Assistant && firstTail == User))
            && (lastHead == System || lastHead == Tool ==> (r == Assistant <==> firstTail == User))
  {
  }

  const SUMMARY_START: string := "[Conversation Summary]\n"
  const SUMMARY_END: string := "\n\n[End of summary \U{E2}\U{80}\U{94} respond to the message below]"

  function SummaryMessage(role: Role, summary: string): Message { Plain(role, SUMMARY_START + summary + SUMMARY_END) }

  function Compressed(pruned: seq<Message>, head: nat, tail: nat, summary: string): seq<Message>
    requires head < tail <= |pruned|
  {
    var lastHead := if head > 0 then pruned[head - 1].role else User;
    var firstTail := if tail < |pruned| then pruned[tail].role else User;
    pruned[..head] + [SummaryMessage(SummaryRole(lastHead, firstTail), summary)] + pruned[tail..]
  }

  // --- One compression as a function -----------------------------------------------

  /** What the two cuts depend on: the one on the raw list, to prune old tool output, and the
      one on the pruned list, to select the middle. `first` holds until something has been
      summarised. */
  datatype Settings = Settings(first: bool, protectFirstN: nat, protectLastN: nat, tailBudget: nat)
  {
    function Head(ms: seq<Message>): nat { HeadSize(ms, first, protectFirstN) }
    function Cut(ms: seq<Message>): int { TailCut(ms, Head(ms), protectLastN, tailBudget) }
    function PrunedList(ms: seq<Message>): seq<Message> { Pruned(ms, Cut(ms)) }
    function From(ms: seq<Message>): nat { Head(PrunedList(ms)) }
    function To(ms: seq<Message>): int { Cut(PrunedList(ms)) }

    /** There is a middle to summarise. */
    predicate HasMiddle(ms: seq<Message>) { From(ms) < To(ms) }

    function Middle(ms: seq<Message>): seq<Message> {
      if !HasMiddle(ms) then []
      else
        CutWithin(PrunedList(ms), From(ms), protectLastN, tailBudget);
        PrunedList(ms)[From(ms)..To(ms)]
    }

    /** Without a middle there is nothing to put a summary for. */
    function Result(ms: seq<Message>, summary: string): seq<Message> {
      if !HasMiddle(ms) then PrunedList(ms)
      else
        CutWithin(PrunedList(ms), From(ms), protectLastN, tailBudget);
        Compressed(PrunedList(ms), From(ms), To(ms), summary)
    }

    function SummaryText(ms: seq<Message>, reply: Option<string>): string {
      if reply.Some? then reply.value else FallbackSummary(Middle(ms))
    }

    /** A container of more than 500 elements in an old call, or, with a provider to render for,
        a call to be summarised whose arguments are no string. */
    ghost predicate Throws(ms: seq<Message>, hasProvider: bool) {
      || (exists i :: 0 <= i < |ms| && i < Cut(ms) && Oversized(ms[i]))
      || (hasProvider &&
          exists i, k :: Head(ms) <= i < Min(To(ms), |ms|) && ms[i].toolCalls.Some? &&
            0 <= k < |ms[i].toolCalls.value| && !ms[i].toolCalls.value[k].arguments.JString?)
    }

    /** The last messages that a compression leaves as they are start here. */
    function Same(ms: seq<Message>): int { |ms| - Min(protectLastN, |ms| - Head(ms) - 1) }

    /** What a compression answers, from its inputs alone: it throws as said, summarises exactly
        when the head is not the whole list and a missing summary is no reason to give up, and
        otherwise hands back the input, or the pruned list when all of it is head. */
    ghost predicate Answers(ms: seq<Message>, over: bool, reply: Option<string>, hasProvider: bool, abort: bool,
                            result: Option<seq<Message>>, compressed: bool)
    {
      && (result.None? <==> over && Throws(ms, hasProvider))
      && (compressed <==>
            over && !Throws(ms, hasProvider) && Head(ms) < |ms| && (reply.Some? || !abort))
      && (result.Some? && !compressed ==>
            result.value == if over && Head(ms) == |ms| then PrunedList(ms) else ms)
      && (result.Some? && compressed ==>
            && Head(ms) < To(ms) <= |ms|
            && Shape(ms, result.value, Head(ms), To(ms), Same(ms),
                     if reply.Some? then reply.value else FallbackSummary(Middle(ms))))
    }

    /** What becomes of a list over the threshold; `reply` is the summary, absent when the
        provider failed or is missing. */
    function Attempt(ms: seq<Message>, reply: Option<string>, hasProvider: bool, abort: bool): Outcome {
      if PruneThrows(ms, Cut(ms)) then Threw
      else if !HasMiddle(ms) then OnlyPruned(PrunedList(ms))
      else if hasProvider && RenderThrows(Middle(ms)) then Threw
      else if reply.None? && abort then Untouched
      else Summarised(Result(ms, SummaryText(ms, reply)))
    }
  }

  datatype Outcome = Untouched | Threw | OnlyPruned(list: seq<Message>) | Summarised(list: seq<Message>)
  {
    /** The list handed back; None is an escaping exception. */
    function Returned(input: seq<Message>): Option<seq<Message>> {
      match this
      case Untouched => Some(input)
      case Threw => None
      case OnlyPruned(list) => Some(list)
      case Summarised(list) => Some(list)
    }
  }

  lemma CutWithin(ms: seq<Message>, head: nat, protectLastN: nat, tailBudget: nat)
    ensures TailCut(ms, head, protectLastN, tailBudget) <= |ms|
  {
  }

  lemma ClampWithin(x: real, lo: real, hi: real)
    requires lo <= hi
    ensures lo <= Clamp(x, lo, hi) <= hi && (lo <= x <= hi ==> Clamp(x, lo, hi) == x)
    ensures (x < lo ==> Clamp(x, lo, hi) == lo) && (x > hi ==> Clamp(x, lo, hi) == hi)
  {
  }

  /** The compression threshold of a window of `effective` tokens. */
  method Threshold(effective: int, percent: real) returns (threshold: int)
    requires effective >= 1
    ensures 1 <= threshold && (effective >= 2 ==> threshold < effective)
    ensures effective > MIN_CONTEXT_FLOOR ==>
              var share := effective as real * Clamp(percent, 0.05, 0.95);
              MIN_CONTEXT_FLOOR <= threshold
              && (Whole(share, threshold) || (threshold == MIN_CONTEXT_FLOOR && share < MIN_CONTEXT_FLOOR as real))
    ensures 2 <= effective <= MIN_CONTEXT_FLOOR ==> Whole(effective as real * 0.85, threshold)
  {
    ClampWithin(percent, 0.05, 0.95);
    hide Percent, Clamp;
    var floored := Max(Percent(effective, Clamp(percent, 0.05, 0.95)), MIN_CONTEXT_FLOOR);
    threshold := floored;
    if floored >= effective {
      threshold := Max(1, Min(Percent(effective, 0.85), effective - 1));
    }
  }

  method SummaryCap(effective: int, configured: int) returns (cap: int)
    requires effective >= 1
    ensures configured > 0 ==> cap == configured
    ensures configured <= 0 ==>
              Whole(effective as real * 0.05, cap)
              || (cap == MAX_SUMMARY_CAP && effective as real * 0.05 >= MAX_SUMMARY_CAP as real)
  {
    hide Percent;
    cap := if configured > 0 then configured else Min(Percent(effective, 0.05), MAX_SUMMARY_CAP);
  }

  // --- The compressor --------------------------------------------------------------

  class Compressor {
    const config: Config
    const hasProvider: bool
    var contextLength: int
    var thresholdTokens: int
    var tailTokenBudget: int
    var maxSummaryTokens: int
    var lastPromptTokens: int
    var compressionCount: nat
    var ineffectiveCount: nat
    var lastSavingsPct: int
    var lastCompressed: bool
    var previousSummary: string

    predicate Valid()
      reads this
    {
      contextLength >= 1 && 1 <= thresholdTokens && 0 <= tailTokenBudget <= thresholdTokens
    }

    /** The threshold lies inside the window whenever the window has room for that. */
    constructor (config: Config, hasProvider: bool)
      ensures Valid()
      ensures this.config == config && this.hasProvider == hasProvider
      ensures contextLength == if config.contextLength > 0 then config.contextLength else DEFAULT_CONTEXT_LENGTH
      ensures contextLength >= 2 ==> thresholdTokens < contextLength
      ensures contextLength > MIN_CONTEXT_FLOOR ==> MIN_CONTEXT_FLOOR <= thresholdTokens
      ensures var share := Clamp(config.thresholdPercent, 0.05, 0.95);
              contextLength > MIN_CONTEXT_FLOOR ==>
                Whole(contextLength as real * share, thresholdTokens)
                || (thresholdTokens == MIN_CONTEXT_FLOOR && contextLength as real * share < MIN_CONTEXT_FLOOR as real)
      ensures 2 <= contextLength <= MIN_CONTEXT_FLOOR ==> Whole(contextLength as real * 0.85, thresholdTokens)
      ensures Whole(thresholdTokens as real * Clamp(config.targetRatio, 0.10, 0.80), tailTokenBudget)
      ensures config.maxSummaryTokens > 0 ==> maxSummaryTokens == config.maxSummaryTokens
      ensures config.maxSummaryTokens <= 0 ==>
                Whole(contextLength as real * 0.05, maxSummaryTokens)
                || (maxSummaryTokens == MAX_SUMMARY_CAP && contextLength as real * 0.05 >= MAX_SUMMARY_CAP as real)
      ensures previousSummary == "" && compressionCount == 0 && !lastCompressed
    {
      hide Percent, Clamp;
      this.config := config;
      this.hasProvider := hasProvider;
      var effective := if config.contextLength > 0 then config.contextLength else DEFAULT_CONTEXT_LENGTH;
      contextLength := effective;
      var threshold := Threshold(effective, config.thresholdPercent);
      thresholdTokens := threshold;
      ClampWithin(config.targetRatio, 0.10, 0.80);
      tailTokenBudget := Percent(threshold, Clamp(config.targetRatio, 0.10, 0.80));
      var summary := SummaryCap(effective, config.maxSummaryTokens);
      maxSummaryTokens := summary;
      lastPromptTokens, compressionCount, ineffectiveCount, lastSavingsPct := 0, 0, 0, 0;
      lastCompressed := false;
      previousSummary := "";
    }

    function Now(): Settings
      requires Valid()
      reads this
    {
      var first := compressionCount == 0 && previousSummary == "";
      Settings(first, config.protectFirstN, config.protectLastN, tailTokenBudget)
    }

    method ProtectHeadSize(ms: seq<Message>) returns (head: nat)
      requires Valid()
      ensures head == Now().Head(ms)
      ensures IsHead(ms, HeadBase(ms, compressionCount == 0 && previousSummary == "", config.protectFirstN), head)
    {
      HeadFacts(ms, ms, compressionCount == 0 && previousSummary == "", config.protectFirstN);
      if ms == [] { return 0; }
      head := if ms[0].role == System then 1 else 0;
      if compressionCount == 0 && previousSummary == "" {
        head := Min(head + config.protectFirstN, |ms|);
      }
      while head < |ms| && ms[head].role == Tool
        invariant head <= |ms| && SkipTools(ms, head) == Now().Head(ms)
        decreases |ms| - head
      {
        head := head + 1;
      }
    }

    method FindTailCut(ms: seq<Message>, head: nat) returns (cut: int)
      requires Valid()
      ensures cut == TailCut(ms, head, config.protectLastN, tailTokenBudget)
    {
      var n := |ms|;
      if n <= head + 1 { return n; }
      hide BudgetCut, LastSpeaker;
      var available := Max(0, n - head - 1);
      var minTail := Min(config.protectLastN, Max(3, available));
      minTail := Min(minTail, available);
      var softCeiling := Max(1, tailTokenBudget * 3 / 2);
      cut := WalkBudget(ms, head, softCeiling, minTail);
      var fallbackCut := n - minTail;
      cut := Min(cut, fallbackCut);
      if cut <= head { cut := Max(fallbackCut, head + 1); }
      cut := WalkToSpeaker(ms, head, cut);
      cut := Max(cut, head + 1);
    }

    /** The first backward walk: messages from the end while their cost fits, or while fewer
        than the minimum are in the tail. */
    method WalkBudget(ms: seq<Message>, head: nat, softCeiling: nat, minTail: int) returns (cut: int)
      requires head < |ms|
      ensures cut == BudgetCut(ms, head, |ms|, softCeiling, minTail)
    {
      hide Tokens;
      var n, accumulated := |ms|, 0;
      cut := n;
      var i := n - 1;
      while i >= head
        invariant head - 1 <= i < n && cut == i + 1
        invariant accumulated == SuffixCost(ms, cut)
        invariant BudgetCut(ms, head, n, softCeiling, minTail) == BudgetCut(ms, head, cut, softCeiling, minTail)
      {
        var t := Tokens(ms[i]) + 10;
        if accumulated + t > softCeiling && n - i >= minTail { break; }
        accumulated := accumulated + t;
        cut := i;
        i := i - 1;
      }
    }

    /** The second one: the most recent user or assistant message stays in the tail. */
    method WalkToSpeaker(ms: seq<Message>, head: nat, before: int) returns (cut: int)
      requires head < |ms|
      ensures var s := LastSpeaker(ms, head, |ms|); cut == if s.Some? then Min(before, s.value) else before
    {
      cut := before;
      var i := |ms| - 1;
      while i >= head
        invariant head - 1 <= i < |ms| && cut == before
        invariant LastSpeaker(ms, head, i + 1) == LastSpeaker(ms, head, |ms|)
      {
        if ms[i].role == User || ms[i].role == Assistant {
          cut := Min(cut, i);
          break;
        }
        i := i - 1;
      }
    }

    /** None is the exception the argument conversion raises. */
    method PruneOldToolResults(ms: seq<Message>) returns (result: Option<seq<Message>>)
      requires Valid()
      ensures result.None? <==> PruneThrows(ms, Now().Cut(ms))
      ensures result.Some? ==> result.value == Now().PrunedList(ms)
    {
      hide TailCut, HeadSize, ShortContent, Key;
      if ms == [] { return Some(ms); }
      var head := ProtectHeadSize(ms);
      var cut := FindTailCut(ms, head);
      var out: seq<Message> := [];
      var seen: set<string> := {};
      var i := 0;
      while i < cut && i < |ms|
        invariant 0 <= i == |out| <= |ms|
        invariant forall j :: 0 <= j < i ==> out[j] == PrunedMessage(ms, cut, j)
        invariant forall k :: k in seen <==> exists j :: 0 <= j < i && Prunable(ms[j]) && Key(ms[j]) == k
        invariant forall j :: 0 <= j < i ==> j < cut && !Oversized(ms[j])
      {
        var m := ms[i];
        if m.role == Tool {
          if |m.content| >= TOOL_PRUNE_CHARS {
            var key := Key(m);
            m := m.(content := ShortContent(m, key in seen));
            seen := seen + {key};
          }
        } else if m.role == Assistant && m.toolCalls.Some? {
          if exists tc :: tc in m.toolCalls.value && tc.arguments.Size() > TOOL_ARG_TRUNCATE_CHARS {
            assert Oversized(ms[i]);
            return None;
          }
        }
        out := out + [m];
        i := i + 1;
      }
      result := Some(out + ms[i..]);
    }

    /** The request to the model: `reply` is its answer, absent when the call fails. The
        result says whether rendering the request threw, and the summary otherwise. */
    method Summarize(middle: seq<Message>, reply: Option<string>) returns (threw: bool, summary: Option<string>)
      modifies this`previousSummary
      ensures threw <==> hasProvider && RenderThrows(middle)
      ensures !threw ==> summary == if hasProvider then reply else None
      ensures previousSummary == if !threw && summary.Some? then summary.value else old(previousSummary)
    {
      if !hasProvider { return false, None; }
      if exists m :: m in middle && m.toolCalls.Some? &&
           exists tc :: tc in m.toolCalls.value && !tc.arguments.JString? {
        return true, None;
      }
      threw, summary := false, reply;
      if reply.Some? { previousSummary := reply.value; }
    }

    method StaticFallbackSummary(middle: seq<Message>) returns (summary: string)
      ensures summary == FallbackSummary(middle)
    {
      summary := Fallback(FALLBACK_TITLE, middle);
    }

    static method Fallback(title: string, middle: seq<Message>) returns (summary: string)
      ensures summary == title + Concat(NewestLines(middle, Min(|middle|, 8)))
    {
      summary := title;
      var shown := 0;
      assert title + Concat([]) == title && NewestLines(middle, 0) == [];
      hide FallbackLine, Concat;
      while shown < |middle| && shown < 8
        invariant shown <= |middle| && shown <= 8
        invariant summary == title + Concat(NewestLines(middle, shown))
        decreases |middle| - shown
      {
        var line := Line(middle[|middle| - 1 - shown]);
        assert NewestLines(middle, shown + 1) == NewestLines(middle, shown) + [line];
        ConcatSnoc(NewestLines(middle, shown), line);
        AppendAssoc(title, Concat(NewestLines(middle, shown)), line);
        summary := summary + line;
        shown := shown + 1;
      }
    }

    static method Line(m: Message) returns (line: string)
      ensures line == FallbackLine(m)
    {
      var role;
      match m.role {
        case User => role := "user";
        case Assistant => role := "assistant";
        case Tool => role := "tool";
        case System => role := "system";
      }
      var text := m.content;
      if |text| > 300 { text := text[..300]; }
      line := role + ": " + text + "\n";
    }

    /** The splice with the role chosen as the source chooses it. */
    method Splice(pruned: seq<Message>, head: nat, tail: nat, summary: string) returns (compressed: seq<Message>)
      requires head < tail <= |pruned|
      ensures compressed == Compressed(pruned, head, tail, summary)
    {
      var lastHead := if head > 0 then pruned[head - 1].role else User;
      var firstTail := if tail < |pruned| then pruned[tail].role else User;
      var role := if lastHead == System || lastHead == Assistant || lastHead == Tool then User else Assistant;
      if role == firstTail {
        var flipped := if role == User then Assistant else User;
        if flipped != lastHead { role := flipped; }
      }
      assert role == SummaryRole(lastHead, firstTail);
      hide SummaryRole, SummaryMessage;
      compressed := pruned[..head] + [SummaryMessage(role, summary)] + pruned[tail..];
    }

    /** The list gets past the guards that leave it alone. */
    predicate OverThreshold(ms: seq<Message>)
      reads this
    {
      config.enable && TotalTokens(ms) > thresholdTokens
    }

    function Reply(reply: Option<string>): Option<string> {
      if hasProvider then reply else None
    }

    function Expected(ms: seq<Message>, reply: Option<string>): Outcome
      requires Valid()
      reads this
    {
      if !OverThreshold(ms) then Untouched
      else Now().Attempt(ms, Reply(reply), hasProvider, config.abortOnSummaryFailure)
    }

    method TryCompress(messages: seq<Message>, reply: Option<string>) returns (o: Outcome)
      requires Valid()
      modifies this`previousSummary
      ensures o == old(Now()).Attempt(messages, Reply(reply), hasProvider, config.abortOnSummaryFailure)
      ensures previousSummary == if o.Summarised? && Reply(reply).Some? then reply.value else old(previousSummary)
    {
      hide HeadSize, TailCut, Pruned, RenderThrows, PruneThrows, FallbackSummary, Compressed;
      ghost var now := Now();
      var pruned := PruneOldToolResults(messages);
      if pruned.None? { return Threw; }
      var head := ProtectHeadSize(pruned.value);
      var tail := FindTailCut(pruned.value, head);
      CutWithin(pruned.value, head, config.protectLastN, tailTokenBudget);
      assert head == now.From(messages) && tail == now.To(messages);
      if head >= tail { return OnlyPruned(pruned.value); }
      var middle := pruned.value[head..tail];
      var threw, summary := Summarize(middle, reply);
      if threw { return Threw; }
      if summary.None? && config.abortOnSummaryFailure { return Untouched; }
      var text := "";
      if summary.None? { text := StaticFallbackSummary(middle); } else { text := summary.value; }
      var compressed := Splice(pruned.value, head, tail, text);
      o := Summarised(compressed);
    }

    /** The bookkeeping that follows an attempt. */
    method Conclude(o: Outcome, messages: seq<Message>, tokens: nat) returns (result: Option<seq<Message>>)
      requires Valid() && tokens > 0
      modifies this`compressionCount, this`lastCompressed, this`lastSavingsPct, this`ineffectiveCount
      ensures result == o.Returned(messages)
      ensures lastCompressed == o.Summarised?
      ensures compressionCount == old(compressionCount) + if lastCompressed then 1 else 0
      ensures lastSavingsPct == match o
                                case Summarised(list) => TruncDiv(100 * (tokens - TotalTokens(list)), tokens)
                                case OnlyPruned(_) => 0
                                case _ => old(lastSavingsPct)
      ensures ineffectiveCount == if !lastCompressed then old(ineffectiveCount)
                                  else if lastSavingsPct < 10 then old(ineffectiveCount) + 1 else 0
    {
      lastCompressed := false;
      match o {
        case Untouched => return Some(messages);
        case Threw => return None;
        case OnlyPruned(list) =>
          lastSavingsPct := 0;
          return Some(list);
        case Summarised(compressed) =>
          compressionCount := compressionCount + 1;
          lastCompressed := true;
          var newTokens := TotalTokens(compressed);
          lastSavingsPct := TruncDiv(100 * (tokens - newTokens), tokens);
          ineffectiveCount := if lastSavingsPct < 10 then ineffectiveCount + 1 else 0;
          result := Some(compressed);
      }
    }

    /** None is an escaping exception. */
    method Compress(messages: seq<Message>, reply: Option<string>) returns (result: Option<seq<Message>>)
      requires Valid()
      modifies this
      ensures Valid() && thresholdTokens == old(thresholdTokens) && tailTokenBudget == old(tailTokenBudget)
      ensures result == old(Expected(messages, reply)).Returned(messages)
      ensures lastCompressed == old(Expected(messages, reply)).Summarised?
      ensures previousSummary == if lastCompressed && Reply(reply).Some? then reply.value else old(previousSummary)
      ensures compressionCount == old(compressionCount) + if lastCompressed then 1 else 0
      ensures ineffectiveCount == if !lastCompressed then old(ineffectiveCount)
                                  else if lastSavingsPct < 10 then old(ineffectiveCount) + 1 else 0
      ensures old(Now()).Answers(messages, config.enable && TotalTokens(messages) > thresholdTokens,
                                 if hasProvider then reply else None, hasProvider, config.abortOnSummaryFailure,
                                 result, lastCompressed)
      ensures lastCompressed ==>
                lastSavingsPct ==
                TruncDiv(100 * (TotalTokens(messages) - TotalTokens(result.value)), TotalTokens(messages))
    {
      hide Settings.Attempt, TotalTokens, Percent, TailCut, HeadSize, TruncDiv, Settings.Answers;
      AttemptAnswers(Now(), messages, Reply(reply), hasProvider, config.abortOnSummaryFailure);
      lastCompressed := false;
      if !config.enable { return Some(messages); }
      var tokens := TotalTokens(messages);
      if tokens <= thresholdTokens { return Some(messages); }
      var o := TryCompress(messages, reply);
      result := Conclude(o, messages, tokens);
    }
  }

  // --- What a compressed list looks like -------------------------------------------

  /** `b` is `a` up to the content of a tool result. */
  predicate SameMessage(a: Message, b: Message) {
    b.(content := a.content) == a && (a.role != Tool ==> b == a)
  }

  /** The pruned list has the input's roles, so both cuts see the same head. */
  lemma SameHead(st: Settings, ms: seq<Message>)
    ensures st.From(ms) == st.Head(ms) <= |ms|
  {
    forall i | 0 <= i < |ms|
      ensures ms[i].role == st.PrunedList(ms)[i].role
    {
      PruneKeeps(ms, st.Cut(ms), i);
    }
    HeadFacts(ms, st.PrunedList(ms), st.first, st.protectFirstN);
  }

  /** The protected last messages lie behind both cuts, although the cuts are computed on
      different lists. */
  lemma ProtectedTail(st: Settings, ms: seq<Message>)
    requires st.HasMiddle(ms)
    ensures var n, head := |ms|, st.Head(ms);
            && head < n
            && head < st.To(ms) <= n - Min(st.protectLastN, n - head - 1)
            && (head + 2 <= n ==> st.Cut(ms) <= n - Min(st.protectLastN, n - head - 1))
  {
    SameHead(st, ms);
    CutWithin(st.PrunedList(ms), st.From(ms), st.protectLastN, st.tailBudget);
    if st.Head(ms) + 2 <= |ms| {
      TailBounds(ms, st.Head(ms), st.protectLastN, st.tailBudget);
      TailBounds(st.PrunedList(ms), st.From(ms), st.protectLastN, st.tailBudget);
    }
  }

  /** `out` is the head of `ms`, one summary, and the tail of `ms`; kept messages keep
      everything but old tool output, from index `same` on they are identical, and the summary
      does not repeat the role before it. */
  ghost predicate Shape(ms: seq<Message>, out: seq<Message>, head: nat, tail: nat, same: nat, summary: string) {
    && head < tail <= |ms| && tail <= same
    && |out| == head + 1 + (|ms| - tail)
    && (forall i :: 0 <= i < head ==> SameMessage(ms[i], out[i]))
    && (forall i :: tail <= i < |ms| ==> SameMessage(ms[i], out[i - tail + head + 1]))
    && (forall i :: same <= i < |ms| ==> out[i - tail + head + 1] == ms[i])
    && out[head] == Plain(out[head].role, SUMMARY_START + summary + SUMMARY_END)
    && out[head].role ==
       SummaryRole(if head > 0 then ms[head - 1].role else User, if tail < |ms| then ms[tail].role else User)
  }

  lemma SpliceShape(ms: seq<Message>, pruned: seq<Message>, head: nat, tail: nat, same: nat, summary: string)
    requires head < tail <= |ms| == |pruned| && tail <= same
    requires forall i :: 0 <= i < |ms| ==> SameMessage(ms[i], pruned[i])
    requires forall i :: same <= i < |ms| ==> pruned[i] == ms[i]
    ensures Shape(ms, Compressed(pruned, head, tail, summary), head, tail, same, summary)
  {
    var out := Compressed(pruned, head, tail, summary);
    forall i | tail <= i < |ms|
      ensures out[i - tail + head + 1] == pruned[i]
    {
    }
  }

  /** Shape of every compressed list; in particular it is never longer than the input, the
      first messages stay where they are while nothing has been summarised, and the last
      `protectLastN` messages after the head are identical. */
  lemma CompressionShape(st: Settings, ms: seq<Message>, summary: string)
    requires st.HasMiddle(ms)
    ensures st.Head(ms) < st.To(ms) <= |ms|
    ensures Shape(ms, st.Result(ms, summary), st.Head(ms), st.To(ms), st.Same(ms), summary)
    ensures |st.Result(ms, summary)| <= |ms|
    ensures forall i :: 0 <= i < HeadBase(ms, st.first, st.protectFirstN) ==>
              i < |st.Result(ms, summary)| && SameMessage(ms[i], st.Result(ms, summary)[i])
  {
    SameHead(st, ms);
    HeadFacts(ms, ms, st.first, st.protectFirstN);
    ProtectedTail(st, ms);
    forall i | 0 <= i < |ms|
      ensures SameMessage(ms[i], st.PrunedList(ms)[i]) && (i >= st.Cut(ms) ==> st.PrunedList(ms)[i] == ms[i])
    {
      PruneKeeps(ms, st.Cut(ms), i);
    }
    SpliceShape(ms, st.PrunedList(ms), st.Head(ms), st.To(ms), st.Same(ms), summary);
  }

  /** An exception escapes exactly when an old assistant message holds a container of more
      than 500 elements as arguments, or there is a middle, a provider to summarise it, and
      some tool call in the middle whose arguments are not a string. */
  lemma ThrowsExactly(st: Settings, ms: seq<Message>, reply: Option<string>, hasProvider: bool, abort: bool)
    ensures st.Attempt(ms, reply, hasProvider, abort) == Threw <==> st.Throws(ms, hasProvider)
  {
    SameHead(st, ms);
    CutWithin(st.PrunedList(ms), st.From(ms), st.protectLastN, st.tailBudget);
    if st.HasMiddle(ms) { MiddleRenders(st, ms); }
  }

  /** There is a middle exactly when the head is not the whole list. */
  lemma MiddleBehindHead(st: Settings, ms: seq<Message>)
    ensures st.Head(ms) <= |ms| && (st.HasMiddle(ms) <==> st.Head(ms) < |ms|)
  {
    SameHead(st, ms);
  }

  lemma AttemptCases(st: Settings, ms: seq<Message>, reply: Option<string>, hasProvider: bool, abort: bool)
    requires !st.Throws(ms, hasProvider)
    ensures var o := st.Attempt(ms, reply, hasProvider, abort);
            if !st.HasMiddle(ms) then o == OnlyPruned(st.PrunedList(ms))
            else if reply.None? && abort then o == Untouched
            else o == Summarised(st.Result(ms, st.SummaryText(ms, reply)))
  {
    ThrowsExactly(st, ms, reply, hasProvider, abort);
    hide PruneThrows, RenderThrows, Settings.Throws, Settings.HasMiddle, Settings.PrunedList, Settings.Result,
         Settings.Middle, Settings.SummaryText, Settings.Cut;
  }

  /** Every attempt has the answer the inputs give it, and a list that stays under the
      threshold comes back as it is. */
  lemma AttemptAnswers(st: Settings, ms: seq<Message>, reply: Option<string>, hasProvider: bool, abort: bool)
    ensures var o := st.Attempt(ms, reply, hasProvider, abort);
            && st.Answers(ms, true, reply, hasProvider, abort, o.Returned(ms), o.Summarised?)
            && st.Answers(ms, false, reply, hasProvider, abort, Some(ms), false)
  {
    hide Shape, FallbackSummary, Settings.Throws, Settings.HasMiddle, Settings.PrunedList, Settings.Result,
         Settings.Middle, Settings.Cut, Settings.Head, Settings.To, Settings.From, Settings.Same, Settings.Attempt;
    ThrowsExactly(st, ms, reply, hasProvider, abort);
    MiddleBehindHead(st, ms);
    if !st.Throws(ms, hasProvider) { AttemptCases(st, ms, reply, hasProvider, abort); }
    if st.HasMiddle(ms) { CompressionShape(st, ms, st.SummaryText(ms, reply)); }
  }

  /** Arguments that parsed into an object stop the summary of a three-message middle. */
  lemma ObjectArgumentsThrow(reply: Option<string>, abort: bool)
    ensures var call := ToolCall("call_1", "read", JObject(map["path" := JString("a")]));
            var ms := [Plain(User, "hi"), Plain(Assistant, "").(toolCalls := Some([call])), Plain(User, "go on")];
            Settings(false, 0, 0, 0).Attempt(ms, reply, true, abort) == Threw
  {
    var call := ToolCall("call_1", "read", JObject(map["path" := JString("a")]));
    var ms := [Plain(User, "hi"), Plain(Assistant, "").(toolCalls := Some([call])), Plain(User, "go on")];
    hide Settings.Attempt, Settings.Head, Settings.Cut;
    ThreeThrow(ms, reply, abort);
  }

  lemma ThreeThrow(ms: seq<Message>, reply: Option<string>, abort: bool)
    requires |ms| == 3 && ms[0].role == User && ms[1].role == Assistant && ms[2].role == User
    requires ms[1].toolCalls.Some? && ms[1].toolCalls.value != [] && !ms[1].toolCalls.value[0].arguments.JString?
    ensures Settings(false, 0, 0, 0).Attempt(ms, reply, true, abort) == Threw
  {
    var st := Settings(false, 0, 0, 0);
    hide Tokens, ShortContent, Settings.Attempt;
    assert forall i :: 0 <= i < 3 ==> st.PrunedList(ms)[i] == ms[i];
    assert st.PrunedList(ms) == ms && st.Head(ms) == 0;
    assert SuffixCost(ms, 3) == 0 && SuffixCost(ms, 2) > 1;
    assert TailCut(ms, 0, 0, 0) == 2;
    ThrowsExactly(st, ms, reply, true, abort);
  }

  lemma MiddleRenders(st: Settings, ms: seq<Message>)
    requires st.HasMiddle(ms)
    ensures st.Head(ms) == st.From(ms) && st.To(ms) <= |ms|
    ensures RenderThrows(st.Middle(ms)) <==>
            exists i, k :: st.Head(ms) <= i < Min(st.To(ms), |ms|) && ms[i].toolCalls.Some? &&
              0 <= k < |ms[i].toolCalls.value| && !ms[i].toolCalls.value[k].arguments.JString?
  {
    SameHead(st, ms);
    CutWithin(st.PrunedList(ms), st.From(ms), st.protectLastN, st.tailBudget);
    var pruned, head, tail := st.PrunedList(ms), st.Head(ms), st.To(ms);
    assert st.Middle(ms) == pruned[head..tail];
    forall i | 0 <= i < |ms|
      ensures pruned[i].toolCalls == ms[i].toolCalls
    {
      PruneKeeps(ms, st.Cut(ms), i);
    }
    hide HeadSize, TailCut, Pruned;
    SliceRenders(ms, pruned, head, tail);
  }

  lemma SliceRenders(ms: seq<Message>, pruned: seq<Message>, head: nat, tail: nat)
    requires head <= tail <= |ms| == |pruned| && forall i :: 0 <= i < |ms| ==> pruned[i].toolCalls == ms[i].toolCalls
    ensures RenderThrows(pruned[head..tail]) <==>
            exists i, k :: head <= i < tail && ms[i].toolCalls.Some? &&
              0 <= k < |ms[i].toolCalls.value| && !ms[i].toolCalls.value[k].arguments.JString?
  {
    var middle := pruned[head..tail];
    assert forall i :: 0 <= i < |middle| ==> middle[i] == pruned[head + i];
    if RenderThrows(middle) {
      var m :| m in middle && m.toolCalls.Some? && exists tc :: tc in m.toolCalls.value && !tc.arguments.JString?;
      var i :| 0 <= i < |middle| && middle[i] == m;
      var tc :| tc in m.toolCalls.value && !tc.arguments.JString?;
      var k :| 0 <= k < |m.toolCalls.value| && m.toolCalls.value[k] == tc;
      assert ms[head + i].toolCalls.value[k] == tc;
    }
    if i, k :| head <= i < tail && ms[i].toolCalls.Some? &&
               0 <= k < |ms[i].toolCalls.value| && !ms[i].toolCalls.value[k].arguments.JString? {
      assert middle[i - head] in middle;
      assert middle[i - head].toolCalls.value[k] in middle[i - head].toolCalls.value;
    }
  }
}
