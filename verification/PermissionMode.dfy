/** Permission modes: the shared state, the steps of the interface, of the agent loop and of
    the plan_exit tool on it, and what every interleaving of them keeps. */
module PermissionMode {
  import opened Text
  import opened Types

  datatype Mode = Manual | AcceptEdits | Plan | BypassPermissions

  function ModeName(m: Mode): string {
    match m
    case Manual => "manual"
    case AcceptEdits => "acceptEdits"
    case Plan => "plan"
    case BypassPermissions => "auto"
  }

  function ModeFromName(name: string): Mode {
    if name == "manual" then Manual
    else if name == "default" then Manual
    else if name == "plan" then Plan
    else if name == "acceptEdits" then AcceptEdits
    else if name == "auto" then BypassPermissions
    else if name == "bypassPermissions" || name == "bypass" then BypassPermissions
    else Manual
  }

  /** Names are read back, and every other name but three aliases means manual. */
  lemma NamesRoundTrip(m: Mode, name: string)
    ensures ModeFromName(ModeName(m)) == m
    ensures ModeFromName(name) != Manual ==> name in {ModeName(ModeFromName(name)), "bypassPermissions", "bypass"}
    ensures name == "bypassPermissions" || name == "bypass" ==> ModeFromName(name) == BypassPermissions
  {
  }

  datatype Decision = Approved | Denied | Aborted

  datatype ToolReply = ToolReply(text: string, isError: bool)

  const NOT_PLANNING: string :=
    "Not in plan mode \U{E2}\U{80}\U{94} plan_exit is only available while planning."
  const PLAN_APPROVED: string := "Plan approved. Left plan mode to implement the plan."
  const PLAN_ABORTED: string := "Plan approval aborted."
  const KEEP_PLANNING: string := "User chose to continue planning. Keep refining the plan."

  /** The mode state as all parties see it. `own` is the loop's copy of the plan file. The
      last field is a history variable: the plan file at the last approval. */
  datatype Modes = Modes(mode: Mode, previous: Mode, exitApproved: bool, shared: string, own: string,
                         approvedFile: string)

  const FRESH: Modes := Modes(Manual, Manual, false, "", "", "")

  /** The mode a party leaving plan mode returns to. */
  function Restored(s: Modes): Mode {
    if s.previous == Plan then Manual else s.previous
  }

  function PlanPath(base: string, time: nat, conversationId: string): (path: string)
    ensures path != ""
  {
    base + "/plan-" + Decimal(time) + "-" + (if conversationId == "" then "draft" else conversationId) + ".md"
  }

  /** Two plan files of one directory are the same exactly when the times are and the
      conversations are, one without an id counting as `draft`. */
  lemma PlanPathsDiffer(base: string, time: nat, c: string, other: nat, d: string)
    ensures PlanPath(base, time, c) == PlanPath(base, other, d) <==>
            time == other && (c == d || (c in ["", "draft"] && d in ["", "draft"]))
  {
    var x, y := (if c == "" then "draft" else c) + ".md", (if d == "" then "draft" else d) + ".md";
    assert x == y <==> (if c == "" then "draft" else c) == (if d == "" then "draft" else d) by {
      assert x[..|x| - 3] == (if c == "" then "draft" else c) && y[..|y| - 3] == (if d == "" then "draft" else d);
    }
    PathParts(base + "/plan-", time, x, other, y);
    hide Decimal;
    assert PlanPath(base, time, c) == base + "/plan-" + Decimal(time) + ['-'] + x;
    assert PlanPath(base, other, d) == base + "/plan-" + Decimal(other) + ['-'] + y;
  }

  lemma PathParts(front: string, time: nat, x: string, other: nat, y: string)
    ensures front + Decimal(time) + ['-'] + x == front + Decimal(other) + ['-'] + y <==> time == other && x == y
  {
    var p, q := front + Decimal(time) + ['-'] + x, front + Decimal(other) + ['-'] + y;
    assert p[|front|..] == Decimal(time) + ['-'] + x && q[|front|..] == Decimal(other) + ['-'] + y;
    if p == q {
      CutsAlike(Decimal(time), x, Decimal(other), y, '-');
      DecimalInjective(time, other);
    }
  }

  function SetPlan(s: Modes, active: bool, path: string, mkdirOk: bool): Modes {
    if active == (s.mode == Plan) then s
    else if active then
      if mkdirOk then s.(mode := Plan, own := path, shared := path) else s.(own := "", shared := "")
    else s.(exitApproved := false, mode := Restored(s))
  }

  function SetMode(s: Modes, m: Mode, path: string, mkdirOk: bool): Modes {
    if s.mode == m then s
    else if m == Plan then SetPlan(s, true, path, mkdirOk)
    else s.(exitApproved := s.exitApproved && s.mode != Plan, mode := m, previous := m)
  }

  function PlanExit(s: Modes, decision: Decision): Modes {
    if s.mode == Plan && decision == Approved
    then s.(mode := Restored(s), exitApproved := true, approvedFile := s.shared)
    else s
  }

  /** After a turn: an approval turns into the message that starts the implementation. */
  function Handoff(s: Modes): (Modes, Option<Message>) {
    if !s.exitApproved then (s, None)
    else
      var m := Plain(User, "Plan approved. Execute the plan at " + s.own);
      (s.(exitApproved := false, mode := Restored(s)),
       Some(m.(mode := ModeName(Restored(s)), planFile := s.own)))
  }

  /** The message of a user input. */
  function UserMessage(s: Modes, input: string): Message {
    Plain(User, input).(mode := ModeName(s.mode), planFile := if s.mode == Plan then s.own else "")
  }

  function LastUser(ms: seq<Message>): Option<Message> {
    if ms == [] then None
    else if ms[|ms| - 1].role == User then Some(ms[|ms| - 1])
    else LastUser(ms[..|ms| - 1])
  }

  function Restore(s: Modes, ms: seq<Message>, path: string): Modes {
    var last := LastUser(ms);
    var cleared := s.(exitApproved := false);
    if last.None? then cleared
    else
      var pm := ModeFromName(last.value.mode);
      if pm != Plan then cleared.(mode := pm, previous := pm, own := "", shared := "")
      else
        var file := if last.value.planFile != "" then last.value.planFile else path;
        cleared.(mode := pm, own := file, shared := file)
  }

  // --- The classes -----------------------------------------------------------------

  class PermissionState {
    var mode: Mode
    var previous: Mode
    var exitApproved: bool
    var planFile: string
    ghost var approvedFile: string

    /** The modes with a loop's own copy of the plan file. */
    ghost function View(own: string): Modes
      reads this
    {
      Modes(mode, previous, exitApproved, planFile, own, approvedFile)
    }

    constructor ()
      ensures View("") == FRESH
    {
      mode, previous, exitApproved, planFile, approvedFile := Manual, Manual, false, "", "";
    }
  }

  class PlanExitTool {
    const state: PermissionState?

    constructor (state: PermissionState?)
      ensures this.state == state
    {
      this.state := state;
    }

    method Execute(decision: Decision) returns (reply: ToolReply)
      modifies state
      ensures state != null ==> state.View("") == PlanExit(old(state.View("")), decision)
      ensures state != null && (old(state.mode) != Plan || decision != Approved) ==> unchanged(state)
      ensures state != null && old(state.mode) == Plan && decision == Approved ==>
                && state.exitApproved && state.mode == Leaving(old(state.previous))
                && state.previous == old(state.previous) && state.planFile == old(state.planFile)
      ensures state == null || old(state.mode) != Plan ==> reply == ToolReply(NOT_PLANNING, true)
      ensures state != null && old(state.mode) == Plan ==>
                reply == match decision
                         case Approved => ToolReply(PLAN_APPROVED, false)
                         case Denied => ToolReply(KEEP_PLANNING, false)
                         case Aborted => ToolReply(PLAN_ABORTED, true)
    {
      if state == null || state.mode != Plan { return ToolReply(NOT_PLANNING, true); }
      if decision == Approved {
        var restored := state.previous;
        if restored == Plan { restored := Manual; }
        state.mode := restored;
        state.exitApproved := true;
        state.approvedFile := state.planFile;
        return ToolReply(PLAN_APPROVED, false);
      }
      if decision == Aborted { return ToolReply(PLAN_ABORTED, true); }
      reply := ToolReply(KEEP_PLANNING, false);
    }
  }

  /** Where leaving plan mode leads: the saved mode, manual if that is plan mode itself. */
  ghost function Leaving(previous: Mode): (m: Mode)
    ensures m != Plan && (previous != Plan ==> m == previous) && (previous == Plan ==> m == Manual)
  {
    match previous
    case Plan => Manual
    case other => other
  }

  /** The part of the agent loop that deals with modes. `base` is the directory for plans. */
  class ModeControl {
    const permission: PermissionState?
    const base: string
    var planFile: string
    var conversationId: string
    var history: seq<Message>

    ghost function State(): Modes
      requires permission != null
      reads this, permission
    {
      permission.View(planFile)
    }

    constructor (permission: PermissionState?, base: string)
      ensures this.permission == permission && this.base == base
      ensures planFile == "" && conversationId == "" && history == []
    {
      this.permission, this.base := permission, base;
      planFile, conversationId, history := "", "", [];
    }

    method SetPlanMode(active: bool, time: nat, mkdirOk: bool) returns (success: bool)
      modifies this, permission
      ensures history == old(history) && conversationId == old(conversationId)
      ensures permission == null ==> !success && unchanged(this)
      ensures permission != null ==>
                && State() == SetPlan(old(State()), active, PlanPath(base, time, conversationId), mkdirOk)
                && (success <==> !active || mkdirOk || old(State().mode) == Plan)
      ensures permission != null && active == (old(permission.mode) == Plan) ==>
                unchanged(permission) && planFile == old(planFile)
      ensures permission != null && active && old(permission.mode) != Plan ==>
                && permission.mode == (if mkdirOk then Plan else old(permission.mode))
                && planFile == permission.planFile == (if mkdirOk then PlanPath(base, time, conversationId) else "")
                && permission.previous == old(permission.previous)
                && permission.exitApproved == old(permission.exitApproved)
      ensures permission != null && !active && old(permission.mode) == Plan ==>
                && permission.mode == Leaving(old(permission.previous)) && !permission.exitApproved
                && planFile == old(planFile) && permission.planFile == old(permission.planFile)
                && permission.previous == old(permission.previous)
    {
      if permission == null { return false; }
      var cur := permission.mode;
      if active == (cur == Plan) { return true; }
      if active {
        planFile := PlanPath(base, time, conversationId);
        permission.planFile := planFile;
        if !mkdirOk {
          planFile := "";
          permission.planFile := "";
          return false;
        }
        permission.mode := Plan;
      } else {
        permission.exitApproved := false;
        var restored := permission.previous;
        if restored == Plan { restored := Manual; }
        permission.mode := restored;
      }
      success := true;
    }

    method SetPermissionMode(m: Mode, time: nat, mkdirOk: bool) returns (success: bool)
      modifies this, permission
      ensures history == old(history) && conversationId == old(conversationId)
      ensures permission == null ==> !success && unchanged(this)
      ensures permission != null ==>
                && State() == SetMode(old(State()), m, PlanPath(base, time, conversationId), mkdirOk)
                && (success <==> m != Plan || mkdirOk || old(State().mode) == Plan)
      ensures permission != null && m != Plan && old(permission.mode) != m ==>
                && permission.mode == permission.previous == m && planFile == old(planFile)
                && permission.planFile == old(permission.planFile)
                && permission.exitApproved == (old(permission.exitApproved) && old(permission.mode) != Plan)
      ensures permission != null && old(permission.mode) == m ==> unchanged(permission) && planFile == old(planFile)
      ensures permission != null && m == Plan && old(permission.mode) != Plan ==>
                && permission.mode == (if mkdirOk then Plan else old(permission.mode))
                && planFile == permission.planFile == (if mkdirOk then PlanPath(base, time, conversationId) else "")
                && permission.previous == old(permission.previous)
                && permission.exitApproved == old(permission.exitApproved)
    {
      if permission == null { return false; }
      if permission.mode == m { return true; }
      if m == Plan {
        success := SetPlanMode(true, time, mkdirOk);
        return;
      }
      if permission.mode == Plan { permission.exitApproved := false; }
      permission.mode := m;
      permission.previous := m;
      success := true;
    }

    /** A run begins: the user's message carries the mode. */
    method BeginRun(input: string)
      modifies this`history
      ensures history == old(history) +
                [if permission != null then UserMessage(State(), input)
                 else Plain(User, input).(mode := ModeName(Manual))]
      ensures var m := history[|history| - 1];
              && m.role == User && m.content == input
              && m.mode == ModeName(if permission == null then Manual else permission.mode)
              && m.planFile == if permission != null && permission.mode == Plan then planFile else ""
    {
      var mode := if permission != null then permission.mode else Manual;
      var m := Plain(User, input).(mode := ModeName(mode));
      if mode == Plan { m := m.(planFile := planFile); }
      history := history + [m];
    }

    /** The check after a turn's steps. */
    method AfterTurn() returns (handedOff: bool)
      modifies this, permission
      ensures conversationId == old(conversationId)
      ensures permission == null ==> !handedOff && unchanged(this)
      ensures permission != null ==>
                var (next, m) := Handoff(old(State()));
                State() == next && handedOff == m.Some? && history == old(history) + if m.Some? then [m.value] else []
      ensures handedOff <==> permission != null && old(permission.exitApproved)
      ensures !handedOff ==> unchanged(this) && (permission != null ==> unchanged(permission))
      ensures handedOff ==>
                && !permission.exitApproved && permission.mode == Leaving(old(permission.previous))
                && permission.previous == old(permission.previous) && planFile == old(planFile)
                && permission.planFile == old(permission.planFile)
                && history == old(history) + [Plain(User, "Plan approved. Execute the plan at " + planFile).(
                                                mode := ModeName(permission.mode), planFile := planFile)]
    {
      if permission == null || !permission.exitApproved { return false; }
      permission.exitApproved := false;
      var restored := permission.previous;
      if restored == Plan { restored := Manual; }
      permission.mode := restored;
      var m := Plain(User, "Plan approved. Execute the plan at " + planFile);
      m := m.(mode := ModeName(restored), planFile := planFile);
      history := history + [m];
      handedOff := true;
    }

    /** The mode part of restoring a conversation; whether the plan directory can be made
        is only logged there. */
    method RestoreMode(id: string, ms: seq<Message>, time: nat)
      modifies this, permission
      ensures history == ms && conversationId == id
      ensures permission != null ==> State() == Restore(old(State()), ms, PlanPath(base, time, id))
      ensures permission != null ==> !permission.exitApproved
      ensures permission != null && (forall m :: m in ms ==> m.role != User) ==>
                && permission.mode == old(permission.mode) && permission.previous == old(permission.previous)
                && planFile == old(planFile) && permission.planFile == old(permission.planFile)
    {
      conversationId := id;
      history := ms;
      if permission == null { return; }
      hide ModeFromName, PlanPath;
      permission.exitApproved := false;
      var i := |ms|;
      assert ms[..i] == ms;
      while i > 0
        invariant 0 <= i <= |ms| && LastUser(ms[..i]) == LastUser(ms)
        invariant State() == old(State()).(exitApproved := false)
        invariant history == ms && conversationId == id
      {
        i := i - 1;
        assert ms[..i + 1][..i] == ms[..i];
        if ms[i].role == User {
          var pm := ModeFromName(ms[i].mode);
          permission.mode := pm;
          if pm != Plan { permission.previous := pm; }
          if pm == Plan {
            planFile := if ms[i].planFile != "" then ms[i].planFile else PlanPath(base, time, conversationId);
          } else {
            planFile := "";
          }
          permission.planFile := planFile;
          return;
        }
      }
    }
  }

  // --- What every interleaving keeps -----------------------------------------------

  /** One call by the interface, the loop or the tool. */
  datatype Step =
    | SetModeStep(m: Mode, path: string, mkdirOk: bool)
    | SetPlanStep(active: bool, path: string, mkdirOk: bool)
    | PlanExitStep(decision: Decision)
    | HandoffStep
    | RestoreStep(ms: seq<Message>, path: string)

  function Take(s: Modes, step: Step): Modes {
    match step
    case SetModeStep(m, path, mkdirOk) => SetMode(s, m, path, mkdirOk)
    case SetPlanStep(active, path, mkdirOk) => SetPlan(s, active, path, mkdirOk)
    case PlanExitStep(decision) => PlanExit(s, decision)
    case HandoffStep => Handoff(s).0
    case RestoreStep(ms, path) => Restore(s, ms, path)
  }

  function TakeAll(s: Modes, steps: seq<Step>): Modes
    decreases |steps|
  {
    if steps == [] then s else TakeAll(Take(s, steps[0]), steps[1..])
  }

  predicate NamesPath(step: Step) {
    match step
    case SetModeStep(_, path, _) => path != ""
    case SetPlanStep(_, path, _) => path != ""
    case RestoreStep(_, path) => path != ""
    case _ => true
  }

  predicate Consistent(s: Modes) {
    && s.previous != Plan
    && (s.mode != Plan ==> s.mode == s.previous)
    && s.own == s.shared
    && (s.mode == Plan ==> s.own != "")
  }

  lemma StepConsistent(s: Modes, step: Step)
    requires Consistent(s) && NamesPath(step)
    ensures Consistent(Take(s, step))
  {
  }

  /** In every interleaving: the saved mode is never plan mode and is the mode itself
      outside plan mode, both plan files agree, and plan mode has a plan file. */
  lemma {:induction false} AlwaysConsistent(s: Modes, steps: seq<Step>)
    requires Consistent(s) && forall step :: step in steps ==> NamesPath(step)
    ensures Consistent(TakeAll(s, steps))
    decreases |steps|
  {
    if steps != [] {
      StepConsistent(s, steps[0]);
      AlwaysConsistent(Take(s, steps[0]), steps[1..]);
    }
  }

  /** The messages that handoffs add, in order. */
  function HandedOff(s: Modes, steps: seq<Step>): seq<Message>
    decreases |steps|
  {
    if steps == [] then []
    else
      var m := if steps[0] == HandoffStep then Handoff(s).1 else None;
      (if m.Some? then [m.value] else []) + HandedOff(Take(s, steps[0]), steps[1..])
  }

  /** How often the user approved a plan. */
  function ApprovalSteps(steps: seq<Step>): nat {
    if steps == [] then 0 else (if steps[0] == PlanExitStep(Approved) then 1 else 0) + ApprovalSteps(steps[1..])
  }

  /** The plan file in front of the last approval given in plan mode. */
  function LastApproved(s: Modes, steps: seq<Step>, file: string): string
    decreases |steps|
  {
    if steps == [] then file
    else
      var now := if steps[0] == PlanExitStep(Approved) && s.mode == Plan then s.shared else file;
      LastApproved(Take(s, steps[0]), steps[1..], now)
  }

  /** In every interleaving each handoff uses up one approval: from any state the handoffs are
      at most the approvals among the steps, and one more if one is pending; and the plan file
      on record is the one of the last approval. */
  lemma {:induction false} HandoffsApproved(s: Modes, steps: seq<Step>)
    ensures var pending := if TakeAll(s, steps).exitApproved then 1 else 0;
            |HandedOff(s, steps)| + pending <= ApprovalSteps(steps) + if s.exitApproved then 1 else 0
    ensures TakeAll(s, steps).approvedFile == LastApproved(s, steps, s.approvedFile)
    decreases |steps|
  {
    if steps != [] {
      HandoffsApproved(Take(s, steps[0]), steps[1..]);
    }
  }

  // --- Approvals -------------------------------------------------------------------

  /** A pending approval is for the plan that would be executed. */
  predicate Faithful(s: Modes) {
    s.exitApproved ==> s.mode != Plan && s.own == s.approvedFile && s.approvedFile != ""
  }

  /** The step asks for plan mode from outside it. */
  predicate AsksForPlan(s: Modes, step: Step) {
    s.mode != Plan && ((step.SetModeStep? && step.m == Plan) || (step.SetPlanStep? && step.active))
  }

  /** A pending approval stays that of the plan to be executed exactly until plan mode is
      asked for again before the handoff: that does not withdraw the approval. */
  lemma StepFaithful(s: Modes, step: Step)
    requires Consistent(s) && Faithful(s) && NamesPath(step)
    ensures Faithful(Take(s, step)) <==> !(s.exitApproved && AsksForPlan(s, step))
  {
  }

  predicate NeverAsksWhilePending(s: Modes, steps: seq<Step>)
    decreases |steps|
  {
    || steps == []
    || (!(s.exitApproved && AsksForPlan(s, steps[0])) && NeverAsksWhilePending(Take(s, steps[0]), steps[1..]))
  }

  /** Then every handoff names the plan that was approved and leaves the mode as it is. */
  lemma {:induction false} HandoffFaithful(s: Modes, steps: seq<Step>)
    requires Consistent(s) && Faithful(s) && forall step :: step in steps ==> NamesPath(step)
    requires NeverAsksWhilePending(s, steps)
    ensures var end := TakeAll(s, steps);
            var (next, m) := Handoff(end);
            Faithful(end) && (m.Some? ==> m.value.planFile == end.approvedFile && next.mode == end.mode
                                          && m.value.mode == ModeName(end.mode))
    decreases |steps|
  {
    if steps != [] {
      StepConsistent(s, steps[0]);
      StepFaithful(s, steps[0]);
      HandoffFaithful(Take(s, steps[0]), steps[1..]);
    }
  }

  /** A run that ends between approval and handoff leaves the approval pending. Planning
      again then starts with a plan that the next turn executes without having been approved. */
  lemma StaleApproval()
    ensures var again := SetPlanStep(true, "b.md", true);
            var s := TakeAll(FRESH, [SetPlanStep(true, "a.md", true), PlanExitStep(Approved), again]);
            var (next, m) := Handoff(s);
            s.mode == Plan && next.mode == Manual && m.Some? && m.value.planFile == "b.md" && s.approvedFile == "a.md"
  {
    var s1 := Take(FRESH, SetPlanStep(true, "a.md", true));
    var s2 := Take(s1, PlanExitStep(Approved));
    var s3 := Take(s2, SetPlanStep(true, "b.md", true));
    assert TakeAll(s3, []) == s3;
    assert TakeAll(s2, [SetPlanStep(true, "b.md", true)]) == s3;
    assert TakeAll(s1, [PlanExitStep(Approved), SetPlanStep(true, "b.md", true)]) == s3;
  }

  // --- Restoring -------------------------------------------------------------------

  lemma {:induction false} LastUserIs(before: seq<Message>, m: Message, after: seq<Message>)
    requires m.role == User && forall x :: x in after ==> x.role != User
    ensures LastUser(before + [m] + after) == Some(m)
  {
    var all := before + [m] + after;
    if after != [] {
      assert all[..|all| - 1] == before + [m] + after[..|after| - 1];
      LastUserIs(before, m, after[..|after| - 1]);
    }
  }

  /** A conversation whose last user input was given in state `s` restores, into whatever
      state `t`, the mode of `s`, and in plan mode its plan file. What leaving that plan mode
      returns to is not recorded: it is what `t` had saved. */
  lemma RestoreReestablishes(s: Modes, t: Modes, input: string, before: seq<Message>, after: seq<Message>, path: string)
    requires Consistent(s) && forall x :: x in after ==> x.role != User
    ensures var next := Restore(t, before + [UserMessage(s, input)] + after, path);
            && next.mode == s.mode && !next.exitApproved
            && next.own == next.shared == (if s.mode == Plan then s.own else "")
            && next.previous == if s.mode == Plan then t.previous else s.mode
  {
    LastUserIs(before, UserMessage(s, input), after);
    NamesRoundTrip(s.mode, "");
  }
}
