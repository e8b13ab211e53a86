/** Round-robin selection of API credentials with health tracking. */
module CredentialPool {
  import opened Text

  datatype CredentialSlot = CredentialSlot(apiKey: string, model: string, healthy: bool, consecutiveErrors: int)

  /** Positions of the healthy slots in `lo..hi`, ascending. */
  function HealthyIn(slots: seq<CredentialSlot>, lo: nat, hi: nat): (ks: seq<nat>)
    requires lo <= hi <= |slots|
    ensures forall k :: k in ks ==> lo <= k < hi && slots[k].healthy
    decreases hi - lo
  {
    if lo == hi then []
    else if slots[lo].healthy then [lo] + HealthyIn(slots, lo + 1, hi)
    else HealthyIn(slots, lo + 1, hi)
  }

  /** The healthy slots in the order they are next in turn. */
  function InTurn(slots: seq<CredentialSlot>, index: nat): (turn: seq<nat>)
    requires index <= |slots|
    ensures forall k :: k in turn ==> k < |slots| && slots[k].healthy
    ensures turn != [] ==> turn[0] < |slots| && slots[turn[0]].healthy
  {
    var turn := HealthyIn(slots, index, |slots|) + HealthyIn(slots, 0, index);
    assert turn != [] ==> turn[0] in turn;
    turn
  }

  function After(slots: seq<CredentialSlot>, k: nat): nat
    requires k < |slots|
  {
    if k + 1 == |slots| then 0 else k + 1
  }

  predicate SameCredential(a: CredentialSlot, b: CredentialSlot) { a.apiKey == b.apiKey && a.model == b.model }

  function Reported(s: CredentialSlot, success: bool): CredentialSlot {
    if success then s.(consecutiveErrors := 0, healthy := true)
    else s.(consecutiveErrors := s.consecutiveErrors + 1, healthy := s.healthy && s.consecutiveErrors + 1 < 3)
  }

  /** A report reaches the first slot with this key and model. */
  function Released(slots: seq<CredentialSlot>, slot: CredentialSlot, success: bool): seq<CredentialSlot> {
    if slots == [] then []
    else if SameCredential(slots[0], slot) then [Reported(slots[0], success)] + slots[1..]
    else [slots[0]] + Released(slots[1..], slot, success)
  }

  class Pool {
    var slots: seq<CredentialSlot>
    var currentIndex: nat

    predicate Valid()
      reads this
    {
      currentIndex < |slots| || (slots == [] && currentIndex == 0)
    }

    constructor ()
      ensures Valid() && slots == []
    {
      slots, currentIndex := [], 0;
    }

    method Add(slot: CredentialSlot)
      requires Valid()
      modifies this
      ensures Valid() && slots == old(slots) + [slot] && currentIndex == old(currentIndex)
    {
      slots := slots + [slot];
    }

    method HealthyCount() returns (count: nat)
      requires Valid()
      ensures count == |InTurn(slots, currentIndex)|
    {
      count := 0;
      for i := 0 to |slots|
        invariant count + |HealthyIn(slots, i, |slots|)| == |HealthyIn(slots, 0, |slots|)|
      {
        if slots[i].healthy { count := count + 1; }
      }
      HealthySplit(slots, 0, currentIndex, |slots|);
    }

    /** The next healthy slot in turn, or none; the search visits every slot once. */
    method Acquire() returns (slot: Option<CredentialSlot>)
      requires Valid()
      modifies this`currentIndex
      ensures Valid()
      ensures var turn := InTurn(slots, old(currentIndex));
              if turn == [] then slot == None && currentIndex == old(currentIndex)
              else slot == Some(slots[turn[0]]) && currentIndex == After(slots, turn[0])
    {
      if slots == [] { return None; }
      ghost var n, seen := |slots|, 0;
      var start, looking := currentIndex, true;
      AheadAll(slots, start);
      while looking
        invariant currentIndex == Position(n, start, seen) && start == old(currentIndex) && seen <= n
        invariant looking <==> seen < n
        invariant InTurn(slots, start) == Ahead(slots, start, seen)
        decreases n - seen
      {
        hide InTurn, Ahead, HealthyIn, Position;
        AheadStep(slots, start, seen);
        NextPosition(n, start, seen);
        if slots[currentIndex].healthy {
          slot := Some(slots[currentIndex]);
          currentIndex := (currentIndex + 1) % |slots|;
          return;
        }
        currentIndex := (currentIndex + 1) % |slots|;
        seen := seen + 1;
        looking := currentIndex != start;
      }
      AheadNone(slots, start);
      slot := None;
    }

    method Release(slot: CredentialSlot, success: bool)
      requires Valid()
      modifies this`slots
      ensures Valid() && slots == Released(old(slots), slot, success)
    {
      hide Released, ReleasedBehind, SameCredential;
      ReleasedLength(slots, slot, success);
      ReleasedFrom(slots, 0, slot, success);
      var i := 0;
      while i < |slots| && !(slots[i].apiKey == slot.apiKey && slots[i].model == slot.model)
        invariant slots == old(slots)
        invariant i <= |slots| && ReleasedBehind(slots, i, slot, success) == Released(slots, slot, success)
      {
        ReleasedFrom(slots, i, slot, success);
        i := i + 1;
      }
      ReleasedFrom(slots, i, slot, success);
      if i < |slots| {
        var s := slots[i];
        if success {
          s := s.(consecutiveErrors := 0, healthy := true);
        } else {
          s := s.(consecutiveErrors := s.consecutiveErrors + 1);
          if s.consecutiveErrors >= 3 { s := s.(healthy := false); }
        }
        slots := slots[i := s];
      }
    }
  }

  /** Slots before `i` as they are, the others after the report. */
  function ReleasedBehind(slots: seq<CredentialSlot>, i: nat, slot: CredentialSlot, success: bool): seq<CredentialSlot>
    requires i <= |slots|
  {
    slots[..i] + Released(slots[i..], slot, success)
  }

  /** One turn of the loop that looks for the slot to report on. */
  lemma ReleasedFrom(slots: seq<CredentialSlot>, i: nat, slot: CredentialSlot, success: bool)
    requires i <= |slots|
    ensures i == 0 ==> ReleasedBehind(slots, i, slot, success) == Released(slots, slot, success)
    ensures i == |slots| ==> ReleasedBehind(slots, i, slot, success) == slots
    ensures i < |slots| ==>
              ReleasedBehind(slots, i, slot, success) ==
              if slots[i].apiKey == slot.apiKey && slots[i].model == slot.model
              then slots[i := Reported(slots[i], success)]
              else ReleasedBehind(slots, i + 1, slot, success)
  {
    if i == 0 { assert slots[i..] == slots; }
    if i < |slots| {
      assert slots[i..][1..] == slots[i + 1..] && slots[..i + 1] == slots[..i] + [slots[i]];
      AppendAssoc(slots[..i], [slots[i]], Released(slots[i + 1..], slot, success));
      assert slots[..i] + ([Reported(slots[i], success)] + slots[i + 1..]) == slots[i := Reported(slots[i], success)];
    }
  }

  /** Where the search is after `seen` slots, and what of the turn it still has to visit. */
  function Position(n: nat, start: nat, seen: nat): int {
    if start + seen < n then start + seen else start + seen - n
  }

  function Ahead(slots: seq<CredentialSlot>, start: nat, seen: nat): seq<nat>
    requires start < |slots| && seen <= |slots|
  {
    if start + seen < |slots| then HealthyIn(slots, start + seen, |slots|) + HealthyIn(slots, 0, start)
    else HealthyIn(slots, start + seen - |slots|, start)
  }

  lemma NextPosition(n: nat, start: nat, seen: nat)
    requires start < n && seen < n
    ensures var here := Position(n, start, seen);
            && 0 <= here < n
            && (here + 1) % n == Position(n, start, seen + 1) == (if here + 1 == n then 0 else here + 1)
            && (seen + 1 < n <==> Position(n, start, seen + 1) != start)
  {
    var here := Position(n, start, seen);
    if here + 1 == n { assert n % n == 0; } else { assert (here + 1) % n == here + 1; }
  }

  lemma AheadAll(slots: seq<CredentialSlot>, start: nat)
    requires start < |slots|
    ensures Ahead(slots, start, 0) == InTurn(slots, start)
  {
  }

  lemma AheadNone(slots: seq<CredentialSlot>, start: nat)
    requires start < |slots|
    ensures Ahead(slots, start, |slots|) == []
  {
  }

  lemma AheadStep(slots: seq<CredentialSlot>, start: nat, seen: nat)
    requires start < |slots| && seen < |slots|
    ensures var here, more := Position(|slots|, start, seen), Ahead(slots, start, seen + 1);
            && (slots[here].healthy ==> Ahead(slots, start, seen) == [here] + more)
            && (!slots[here].healthy ==> Ahead(slots, start, seen) == more)
  {
    var n, head := |slots|, HealthyIn(slots, 0, start);
    if start + seen < n {
      HealthyFirst(slots, start + seen, n);
      assert HealthyIn(slots, n, n) == [] && [] + head == head;
      hide HealthyIn;
      AppendAssoc([start + seen], HealthyIn(slots, start + seen + 1, n), head);
    } else {
      HealthyFirst(slots, start + seen - n, start);
    }
  }

  lemma HealthyFirst(slots: seq<CredentialSlot>, lo: nat, hi: nat)
    requires lo < hi <= |slots|
    ensures slots[lo].healthy ==> HealthyIn(slots, lo, hi) == [lo] + HealthyIn(slots, lo + 1, hi)
    ensures !slots[lo].healthy ==> HealthyIn(slots, lo, hi) == HealthyIn(slots, lo + 1, hi)
  {
  }

  lemma {:induction false} HealthySplit(slots: seq<CredentialSlot>, lo: nat, mid: nat, hi: nat)
    requires lo <= mid <= hi <= |slots|
    ensures HealthyIn(slots, lo, hi) == HealthyIn(slots, lo, mid) + HealthyIn(slots, mid, hi)
    decreases mid - lo
  {
    if lo < mid {
      HealthySplit(slots, lo + 1, mid, hi);
    } else {
      assert HealthyIn(slots, lo, mid) == [];
    }
  }

  lemma {:induction false} ReleasedLength(slots: seq<CredentialSlot>, slot: CredentialSlot, success: bool)
    ensures |Released(slots, slot, success)| == |slots|
  {
    if slots != [] { ReleasedLength(slots[1..], slot, success); }
  }

  // --- Rotation --------------------------------------------------------------------

  /** The slots that `n` acquires in a row return, and where they leave the index. */
  function Acquired(slots: seq<CredentialSlot>, index: nat, n: nat): (seq<nat>, nat)
    requires index < |slots|
    decreases n
  {
    if n == 0 then ([], index)
    else
      var turn := InTurn(slots, index);
      if turn == [] then ([], index)
      else
        var (more, last) := Acquired(slots, After(slots, turn[0]), n - 1);
        ([turn[0]] + more, last)
  }

  lemma TurnAfter(slots: seq<CredentialSlot>, k: nat)
    requires k < |slots|
    ensures InTurn(slots, After(slots, k)) == HealthyIn(slots, k + 1, |slots|) + HealthyIn(slots, 0, k + 1)
  {
    var n := |slots|;
    assert HealthyIn(slots, n, n) == [] && HealthyIn(slots, 0, 0) == [];
    var all := HealthyIn(slots, 0, n);
    assert [] + all == all && all + [] == all;
    hide HealthyIn;
  }

  /** An acquire moves the slot it returns to the end of the turn. */
  lemma TurnRotates(slots: seq<CredentialSlot>, index: nat)
    requires index < |slots| && InTurn(slots, index) != []
    ensures var turn := InTurn(slots, index);
            turn[0] < |slots| && InTurn(slots, After(slots, turn[0])) == turn[1..] + [turn[0]]
  {
    var n, k := |slots|, InTurn(slots, index)[0];
    var tail, head := HealthyIn(slots, index, n), HealthyIn(slots, 0, index);
    assert InTurn(slots, index) == tail + head;
    TurnAfter(slots, k);
    hide *;
    if tail != [] {
      HeadOfRange(slots, index, n);
      HealthySplit(slots, 0, index, k + 1);
      RotateTail(k, HealthyIn(slots, k + 1, n), head);
    } else {
      assert tail + head == head;
      HeadOfRange(slots, 0, index);
      HealthySplit(slots, k + 1, index, n);
      RotateTail(k, HealthyIn(slots, k + 1, index), []);
      assert HealthyIn(slots, k + 1, index) + [] == HealthyIn(slots, k + 1, index);
    }
  }

  lemma RotateTail(k: nat, more: seq<nat>, head: seq<nat>)
    ensures (([k] + more) + head)[1..] == more + head
    ensures more + (head + [k]) == (more + head) + [k]
    ensures ([k] + more)[1..] == more
  {
  }

  /** The first healthy slot of a range, and what is left of the range behind it. */
  lemma {:induction false} HeadOfRange(slots: seq<CredentialSlot>, lo: nat, hi: nat)
    requires lo <= hi <= |slots| && HealthyIn(slots, lo, hi) != []
    ensures var k := HealthyIn(slots, lo, hi)[0];
            && lo <= k < hi
            && HealthyIn(slots, lo, hi) == [k] + HealthyIn(slots, k + 1, hi)
            && HealthyIn(slots, lo, k + 1) == [k]
    decreases hi - lo
  {
    if slots[lo].healthy {
      assert HealthyIn(slots, lo + 1, lo + 1) == [];
    } else {
      HeadOfRange(slots, lo + 1, hi);
    }
  }

  /** With `h` healthy slots and no report in between, any `h` acquires in a row return each
      healthy slot exactly once, in cyclic order, and leave every slot its old turn. */
  lemma {:induction false} RoundRobin(slots: seq<CredentialSlot>, index: nat, n: nat)
    requires index < |slots| && n <= |InTurn(slots, index)|
    ensures var turn, (taken, last) := InTurn(slots, index), Acquired(slots, index, n);
            taken == turn[..n] && last < |slots| && InTurn(slots, last) == turn[n..] + turn[..n]
    decreases n
  {
    var turn := InTurn(slots, index);
    if n == 0 {
      assert turn[n..] + turn[..n] == turn;
    } else {
      TurnRotates(slots, index);
      var next := turn[1..] + [turn[0]];
      RoundRobin(slots, After(slots, turn[0]), n - 1);
      hide *;
      Rotate(turn, n);
    }
  }

  lemma Rotate<T>(turn: seq<T>, n: nat)
    requires 0 < n <= |turn|
    ensures var next := turn[1..] + [turn[0]];
            [turn[0]] + next[..n - 1] == turn[..n] && next[n - 1..] + next[..n - 1] == turn[n..] + turn[..n]
  {
  }

  ghost predicate Ascending(ks: seq<nat>) { forall i, j :: 0 <= i < j < |ks| ==> ks[i] < ks[j] }

  lemma {:induction false} HealthyMembers(slots: seq<CredentialSlot>, lo: nat, hi: nat)
    requires lo <= hi <= |slots|
    ensures forall k :: lo <= k < hi && slots[k].healthy ==> k in HealthyIn(slots, lo, hi)
    ensures Ascending(HealthyIn(slots, lo, hi))
    decreases hi - lo
  {
    if lo < hi {
      HealthyMembers(slots, lo + 1, hi);
      var more := HealthyIn(slots, lo + 1, hi);
      forall j | 0 <= j < |more|
        ensures lo < more[j]
      {
        assert more[j] in more;
      }
      assert Ascending([lo] + more);
    }
  }

  /** A whole turn holds each healthy slot once and nothing else. */
  lemma TurnIsHealthy(slots: seq<CredentialSlot>, index: nat)
    requires index <= |slots|
    ensures var turn := InTurn(slots, index);
            && (forall k :: k in turn <==> 0 <= k < |slots| && slots[k].healthy)
            && (forall i, j :: 0 <= i < j < |turn| ==> turn[i] != turn[j])
  {
    var tail, head := HealthyIn(slots, index, |slots|), HealthyIn(slots, 0, index);
    var turn := tail + head;
    HealthyMembers(slots, index, |slots|);
    HealthyMembers(slots, 0, index);
    assert Ascending(tail) && Ascending(head);
    forall i, j | 0 <= i < j < |turn|
      ensures turn[i] != turn[j]
    {
      if j < |tail| {
        assert turn[i] == tail[i] && turn[j] == tail[j];
      } else if i < |tail| {
        assert turn[i] == tail[i] && tail[i] in tail && turn[j] == head[j - |tail|] && turn[j] in head;
      } else {
        assert turn[i] == head[i - |tail|] && turn[j] == head[j - |tail|];
      }
    }
  }

  // --- Health ----------------------------------------------------------------------

  /** What holds of a slot that started out as the default one. */
  predicate Tracked(s: CredentialSlot) { s.healthy <==> s.consecutiveErrors < 3 }

  lemma {:induction false} ReleasedSlots(slots: seq<CredentialSlot>, slot: CredentialSlot, success: bool, k: nat)
    requires k < |slots|
    ensures |Released(slots, slot, success)| == |slots|
    ensures Released(slots, slot, success)[k] ==
            if SameCredential(slots[k], slot) && forall j :: 0 <= j < k ==> !SameCredential(slots[j], slot)
            then Reported(slots[k], success) else slots[k]
  {
    ReleasedLength(slots, slot, success);
    if k > 0 {
      assert slots[k] == slots[1..][k - 1];
      if !SameCredential(slots[0], slot) {
        ReleasedSlots(slots[1..], slot, success, k - 1);
        assert (forall j :: 0 <= j < k - 1 ==> !SameCredential(slots[1..][j], slot))
               <==> forall j :: 0 < j < k ==> !SameCredential(slots[j], slot) by {
          assert forall j :: 0 < j < k ==> slots[j] == slots[1..][j - 1];
        }
      }
    }
  }

  datatype Op = AddOp(slot: CredentialSlot) | AcquireOp | ReleaseOp(slot: CredentialSlot, success: bool)

  function Do(slots: seq<CredentialSlot>, op: Op): seq<CredentialSlot> {
    match op
    case AddOp(slot) => slots + [slot]
    case AcquireOp => slots
    case ReleaseOp(slot, success) => Released(slots, slot, success)
  }

  function DoAll(slots: seq<CredentialSlot>, ops: seq<Op>): seq<CredentialSlot>
    decreases |ops|
  {
    if ops == [] then slots else DoAll(Do(slots, ops[0]), ops[1..])
  }

  /** The reports of a run that name the key and model of a slot, in order. */
  function Reports(ops: seq<Op>, slot: CredentialSlot): seq<bool> {
    if ops == [] then []
    else
      (if ops[0].ReleaseOp? && SameCredential(slot, ops[0].slot) then [ops[0].success] else [])
      + Reports(ops[1..], slot)
  }

  /** Failures at the end of the reports. */
  function FailedInRow(reports: seq<bool>): nat {
    if reports == [] || reports[|reports| - 1] then 0 else 1 + FailedInRow(reports[..|reports| - 1])
  }

  /** The same, with `errors` failures in front of the reports. */
  function FailedSince(errors: int, reports: seq<bool>): int
    decreases |reports|
  {
    if reports == [] then errors else FailedSince(if reports[0] then 0 else errors + 1, reports[1..])
  }

  lemma {:induction false} FailedSinceSnoc(errors: int, reports: seq<bool>, r: bool)
    ensures FailedSince(errors, reports + [r]) == if r then 0 else FailedSince(errors, reports) + 1
    decreases |reports|
  {
    if reports == [] {
      assert [r][1..] == [] && [] + [r] == [r];
    } else {
      assert (reports + [r])[1..] == reports[1..] + [r];
      FailedSinceSnoc(if reports[0] then 0 else errors + 1, reports[1..], r);
    }
  }

  lemma {:induction false} FailedFromStart(reports: seq<bool>)
    ensures FailedSince(0, reports) == FailedInRow(reports)
  {
    if reports != [] {
      var init, r := reports[..|reports| - 1], reports[|reports| - 1];
      FailedFromStart(init);
      FailedSinceSnoc(0, init, r);
      assert reports == init + [r];
    }
  }

  lemma ReportReaches(slots: seq<CredentialSlot>, op: Op, k: nat)
    requires k < |slots| && Tracked(slots[k]) && forall j :: 0 <= j < k ==> !SameCredential(slots[j], slots[k])
    ensures var next, mine := Do(slots, op), op.ReleaseOp? && SameCredential(slots[k], op.slot);
            && k < |next| && next[k] == (if mine then Reported(slots[k], op.success) else slots[k])
            && Tracked(next[k]) && forall j :: 0 <= j < k ==> !SameCredential(next[j], next[k])
  {
    if op.ReleaseOp? {
      ReleasedLength(slots, op.slot, op.success);
      forall j | 0 <= j <= k
        ensures SameCredential(Do(slots, op)[j], slots[j])
      {
        ReleasedSlots(slots, op.slot, op.success, j);
      }
      ReleasedSlots(slots, op.slot, op.success, k);
    }
  }

  lemma {:induction false} ErrorsCounted(slots: seq<CredentialSlot>, ops: seq<Op>, k: nat)
    requires k < |slots| && Tracked(slots[k]) && forall j :: 0 <= j < k ==> !SameCredential(slots[j], slots[k])
    ensures var end := DoAll(slots, ops);
            && k < |end| && Tracked(end[k])
            && end[k].consecutiveErrors == FailedSince(slots[k].consecutiveErrors, Reports(ops, slots[k]))
    decreases |ops|
  {
    if ops != [] {
      ReportReaches(slots, ops[0], k);
      var next, later := Do(slots, ops[0]), Reports(ops[1..], slots[k]);
      SameReports(ops[1..], slots[k], next[k]);
      assert forall r :: ([r] + later)[1..] == later;
      assert [] + later == later;
      hide Do, Tracked, SameCredential;
      ErrorsCounted(next, ops[1..], k);
    }
  }

  lemma {:induction false} SameReports(ops: seq<Op>, a: CredentialSlot, b: CredentialSlot)
    requires SameCredential(a, b)
    ensures Reports(ops, a) == Reports(ops, b)
  {
    if ops != [] { SameReports(ops[1..], a, b); }
  }

  /** From when a default slot with a key and model of its own joins the pool, its error count
      is the number of failures reported for it since the last success, and it is unhealthy
      exactly when the last three reports for it were failures. */
  lemma HealthFollowsReports(slots: seq<CredentialSlot>, ops: seq<Op>, k: nat)
    requires k < |slots| && slots[k].healthy && slots[k].consecutiveErrors == 0
    requires forall j :: 0 <= j < k ==> !SameCredential(slots[j], slots[k])
    ensures var end, reports := DoAll(slots, ops), Reports(ops, slots[k]);
            var n := |reports|;
            && k < |end| && end[k].consecutiveErrors == FailedInRow(reports)
            && (!end[k].healthy <==> n >= 3 && !reports[n - 1] && !reports[n - 2] && !reports[n - 3])
  {
    hide DoAll, Reports, FailedSince, FailedInRow, SameCredential;
    ErrorsCounted(slots, ops, k);
    var reports := Reports(ops, slots[k]);
    FailedFromStart(reports);
    LastThree(reports);
  }

  lemma LastThree(reports: seq<bool>)
    ensures var n := |reports|;
            FailedInRow(reports) >= 3 <==> n >= 3 && !reports[n - 1] && !reports[n - 2] && !reports[n - 3]
  {
    var n := |reports|;
    if n >= 3 && !reports[n - 1] && !reports[n - 2] {
      assert reports[..n - 1][..n - 2] == reports[..n - 2] && reports[..n - 2][..n - 3] == reports[..n - 3];
    }
  }

  /** A slot behind another with the same key and model is never reached by a report: it
      keeps its health, whatever happens to requests made with it. */
  lemma {:induction false} DuplicateUntouched(slots: seq<CredentialSlot>, ops: seq<Op>, j: nat, k: nat)
    requires j < k < |slots| && SameCredential(slots[j], slots[k])
    ensures |DoAll(slots, ops)| > k && DoAll(slots, ops)[k] == slots[k]
    decreases |ops|
  {
    if ops != [] {
      var next := Do(slots, ops[0]);
      if ops[0].ReleaseOp? {
        ReleasedSlots(slots, ops[0].slot, ops[0].success, j);
        ReleasedSlots(slots, ops[0].slot, ops[0].success, k);
      }
      DuplicateUntouched(next, ops[1..], j, k);
    }
  }
}
