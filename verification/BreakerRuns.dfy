/** Whole runs of the circuit breaker, over any health values, types, edits and deletions. */
module BreakerRuns {
  import opened Wrappers
  import opened TypeHealth
  import opened BanService
  import opened Workflows
  import opened CircuitBreaker

  datatype BreakerOp = Evaluate(wfType: string, health: TypeHealth, now: int) | Change(op: WorkflowOp)

  function Step(s: BreakerState, op: BreakerOp, default: real): BreakerState {
    match op
    case Evaluate(t, h, now) => EvaluateType(s, t, h, default, now)
    case Change(op) => s.(wfs := Perform(s.wfs, op))
  }

  ghost predicate Permitted(s: BreakerState, op: BreakerOp) {
    match op
    case Evaluate(_, _, now) => now != 0
    case Change(op) => Allowed(s.wfs, op) && (op.Create? ==> op.id !in s.circuits)
  }

  /** Nobody activates, deactivates or disables a workflow by hand. */
  predicate HandsOff(op: BreakerOp) {
    match op
    case Evaluate(_, _, _) => true
    case Change(Create(req, _)) => req.enabled != Some(false)
    case Change(Edit(_, edit)) => edit.enabled == None
    case Change(SetActive(_, _)) => false
    case Change(Delete(_)) => true
  }

  ghost predicate RunsTo(s: BreakerState, ops: seq<BreakerOp>, default: real, end: BreakerState)
    decreases |ops|
  {
    if ops == [] then s == end
    else Permitted(s, ops[0]) && RunsTo(Step(s, ops[0], default), ops[1..], default, end)
  }

  const START := BreakerState([], map[], [])

  ghost predicate Invariant(s: BreakerState) {
    Ranked(s.wfs) && Sound(s)
  }

  lemma {:induction false} RankedByState(wfs: seq<Workflow>, out: seq<Workflow>)
    requires Ranked(wfs) && |out| == |wfs|
    requires forall i | 0 <= i < |wfs| :: out[i] == wfs[i].(active := out[i].active)
    ensures Ranked(out)
  {
  }

  lemma {:induction false} StepKeepsInvariant(s: BreakerState, op: BreakerOp, default: real)
    requires Invariant(s) && Permitted(s, op)
    ensures Invariant(Step(s, op, default))
  {
    match op
    case Evaluate(t, h, now) =>
      PassDecides(s, t, h, default, now);
      RankedByState(s.wfs, EvaluateType(s, t, h, default, now).wfs);
    case Change(op) => RankedStep(s.wfs, op);
  }

  lemma {:induction false} RunsKeepInvariant(s: BreakerState, ops: seq<BreakerOp>, default: real, end: BreakerState)
    requires Invariant(s) && RunsTo(s, ops, default, end)
    ensures Invariant(end)
    decreases |ops|
  {
    if ops == [] {
    } else {
      StepKeepsInvariant(s, ops[0], default);
      RunsKeepInvariant(Step(s, ops[0], default), ops[1..], default, end);
    }
  }

  function Count(alerts: seq<Alert>, id: string, kind: AlertKind): nat {
    if alerts == [] then 0
    else
      var last := alerts[|alerts| - 1];
      Count(alerts[..|alerts| - 1], id, kind) + if last.subject == id && last.kind == kind then 1 else 0
  }

  lemma {:induction false} PhaseBalances(alerts: seq<Alert>, id: string)
    requires Phase(alerts, id).Some?
    ensures Count(alerts, id, CircuitOpened)
         == Count(alerts, id, CircuitClosed) + if Phase(alerts, id).value then 1 else 0
  {
    if alerts == [] {
    } else {
      PhaseBalances(alerts[..|alerts| - 1], id);
    }
  }

  predicate Is(alerts: seq<Alert>, k: nat, id: string, kind: AlertKind)
    requires k < |alerts|
  {
    alerts[k].subject == id && alerts[k].kind == kind
  }

  /**
   * In an alternating log, every closing is preceded by an opening with no circuit alert between
   * them, and every opening by nothing or by such a closing.
   */
  lemma {:induction false} PhaseAlternates(alerts: seq<Alert>, id: string, j: nat)
    requires Phase(alerts, id).Some? && j < |alerts|
    ensures Is(alerts, j, id, CircuitClosed) ==>
              exists i: nat :: i < j && Is(alerts, i, id, CircuitOpened)
                && forall k: nat | i < k < j :: !Is(alerts, k, id, CircuitClosed) && !Is(alerts, k, id, CircuitOpened)
    ensures Is(alerts, j, id, CircuitOpened) ==>
              || (forall k: nat | k < j :: !Is(alerts, k, id, CircuitOpened) && !Is(alerts, k, id, CircuitClosed))
              || exists i: nat :: i < j && Is(alerts, i, id, CircuitClosed)
                   && forall k: nat | i < k < j :: !Is(alerts, k, id, CircuitClosed)
                       && !Is(alerts, k, id, CircuitOpened)
  {
    if Is(alerts, j, id, CircuitClosed) || Is(alerts, j, id, CircuitOpened) {
      PrefixPhase(alerts, id, j + 1);
      PrefixPhase(alerts, id, j);
      assert alerts[..j + 1][..j] == alerts[..j];
      LastCircuitAlert(alerts, id, j);
    }
  }

  lemma {:induction false} PrefixPhase(alerts: seq<Alert>, id: string, n: nat)
    requires Phase(alerts, id).Some? && n <= |alerts|
    ensures Phase(alerts[..n], id).Some?
    decreases |alerts| - n
  {
    if n < |alerts| {
      PrefixPhase(alerts, id, n + 1);
      assert alerts[..n + 1][..n] == alerts[..n];
    } else {
      assert alerts[..n] == alerts;
    }
  }

  /** What the last circuit alert before position n was, read off the phase. */
  lemma {:induction false} LastCircuitAlert(alerts: seq<Alert>, id: string, n: nat)
    requires n <= |alerts| && Phase(alerts[..n], id).Some?
    ensures Phase(alerts[..n], id).value ==>
              exists i: nat :: i < n && Is(alerts, i, id, CircuitOpened)
                && forall k: nat | i < k < n :: !Is(alerts, k, id, CircuitClosed) && !Is(alerts, k, id, CircuitOpened)
    ensures !Phase(alerts[..n], id).value ==>
              || (forall k: nat | k < n :: !Is(alerts, k, id, CircuitOpened) && !Is(alerts, k, id, CircuitClosed))
              || exists i: nat :: i < n && Is(alerts, i, id, CircuitClosed)
                   && forall k: nat | i < k < n :: !Is(alerts, k, id, CircuitClosed)
                       && !Is(alerts, k, id, CircuitOpened)
    decreases n
  {
    if n == 0 {
    } else {
      assert alerts[..n][..n - 1] == alerts[..n - 1];
      if !Is(alerts, n - 1, id, CircuitOpened) && !Is(alerts, n - 1, id, CircuitClosed) {
        LastCircuitAlert(alerts, id, n - 1);
      }
    }
  }

  /**
   * After any run: a workflow's opened and closed alerts strictly alternate starting with opened,
   * one more was opened than closed exactly while it is open, the opening time is set exactly
   * while it is open, and no circuit is ever half-open.
   */
  lemma {:induction false} BreakerTraces(ops: seq<BreakerOp>, default: real, end: BreakerState, id: string)
    requires RunsTo(START, ops, default, end)
    ensures Phase(end.alerts, id) == Some(IsOpen(end.circuits, id))
    ensures Count(end.alerts, id, CircuitOpened) - Count(end.alerts, id, CircuitClosed)
         == if IsOpen(end.circuits, id) then 1 else 0
    ensures id in end.circuits ==>
              && (end.circuits[id].openedAt != 0 <==> IsOpen(end.circuits, id))
              && !end.circuits[id].state.CircuitHalfOpen?
  {
    RunsKeepInvariant(START, ops, default, end);
    PhaseBalances(end.alerts, id);
  }

  // ---------------------------------------------------------------- activity follows the circuit

  /** Switching a workflow as its circuit says, and no other circuit, keeps activity in step. */
  lemma {:induction false} SwitchKeepsActivity(s: BreakerState, end: BreakerState, id: string, active: bool)
    requires ActiveIffClosed(s) && DistinctWorkflows(s.wfs) && end.wfs == WithState(s.wfs, id, active)
    requires IsOpen(end.circuits, id) == !active
        && forall other | other != id :: IsOpen(end.circuits, other) == IsOpen(s.circuits, other)
    ensures ActiveIffClosed(end) && DistinctWorkflows(end.wfs)
  {
    WithStateHolds(s.wfs, id, active);
  }

  lemma {:induction false} EvaluateOneKeepsActivity(
      s: BreakerState, w: Workflow, h: TypeHealth, default: real, now: int)
    requires Sound(s) && ActiveIffClosed(s) && DistinctWorkflows(s.wfs)
    ensures var end := EvaluateOne(s, w, h, default, now); ActiveIffClosed(end) && DistinctWorkflows(end.wfs)
  {
    var end := EvaluateOne(s, w, h, default, now);
    var next := EvaluateHealth(Threshold(w, default), h);
    if Current(s.circuits, w).state != next {
      SwitchKeepsActivity(s, end, w.id, next != CircuitOpenState);
    }
  }

  lemma {:induction false} EvaluateAllKeepsActivity(
      s: BreakerState, ws: seq<Workflow>, h: TypeHealth, default: real, now: int)
    requires Sound(s) && now != 0 && ActiveIffClosed(s) && DistinctWorkflows(s.wfs)
    ensures var end := EvaluateAll(s, ws, h, default, now); ActiveIffClosed(end) && DistinctWorkflows(end.wfs)
    decreases |ws|
  {
    if ws == [] {
    } else {
      EvaluateAllKeepsActivity(s, ws[..|ws| - 1], h, default, now);
      EvaluateAllIsSound(s, ws[..|ws| - 1], h, default, now);
      EvaluateOneKeepsActivity(EvaluateAll(s, ws[..|ws| - 1], h, default, now), ws[|ws| - 1], h, default, now);
    }
  }

  /** w is an old row, switched as before. */
  ghost predicate Inherited(wfs: seq<Workflow>, w: Workflow) {
    exists i :: 0 <= i < |wfs| && wfs[i].id == w.id && wfs[i].active == w.active
  }

  lemma {:induction false} SavedRow(wfs: seq<Workflow>, w: Workflow, k: nat)
    requires k < |Saved(wfs, w)|
    ensures Saved(wfs, w)[k] == w || Inherited(wfs, Saved(wfs, w)[k])
  {
    if k < |wfs| && k != Index(wfs, w.id) {
      assert wfs[k] == Saved(wfs, w)[k];
    }
  }

  lemma {:induction false} WithoutRow(wfs: seq<Workflow>, id: string, k: nat)
    requires k < |Without(wfs, id)|
    ensures Inherited(wfs, Without(wfs, id)[k])
  {
    var d := Index(wfs, id);
    assert wfs[if k < d then k else k + 1] == Without(wfs, id)[k];
  }

  /** A row after a change by others is the new one, switched on, or an old one, switched as before. */
  lemma {:induction false} RowKept(wfs: seq<Workflow>, op: WorkflowOp, k: nat)
    requires HandsOff(Change(op)) && k < |Perform(wfs, op)|
    ensures var w := Perform(wfs, op)[k];
            (op.Create? && w.id == op.id && w.active) || Inherited(wfs, w)
  {
    var same := Perform(wfs, op) == wfs;
    if same {
      assert wfs[k] == Perform(wfs, op)[k];
    } else {
      match op
      case Create(req, id) =>
        SavedRow(wfs, NewWorkflow(req, id).value, k);
      case Edit(target, edit) =>
        var w := EditOutcome(wfs, target, edit).value;
        SavedRow(wfs, w, k);
        assert wfs[Index(wfs, target)].id == w.id;
      case Delete(target) =>
        WithoutRow(wfs, target, k);
    }
  }

  lemma {:induction false} ChangeKeepsActivity(s: BreakerState, op: WorkflowOp)
    requires ActiveIffClosed(s) && Permitted(s, Change(op)) && HandsOff(Change(op))
    ensures ActiveIffClosed(s.(wfs := Perform(s.wfs, op)))
  {
    var out := Perform(s.wfs, op);
    forall k | 0 <= k < |out| ensures out[k].active <==> !IsOpen(s.circuits, out[k].id) {
      RowKept(s.wfs, op, k);
    }
  }

  lemma {:induction false} ActivityFollowsCircuit(
      s: BreakerState, ops: seq<BreakerOp>, default: real, end: BreakerState)
    requires Invariant(s) && ActiveIffClosed(s) && RunsTo(s, ops, default, end)
    requires forall i | 0 <= i < |ops| :: HandsOff(ops[i])
    ensures ActiveIffClosed(end)
    decreases |ops|
  {
    if ops == [] {
    } else {
      var next := Step(s, ops[0], default);
      StepKeepsInvariant(s, ops[0], default);
      match ops[0]
      {
        case Evaluate(t, h, now) => EvaluateAllKeepsActivity(s, OfType(s.wfs, t), h, default, now);
        case Change(op) => ChangeKeepsActivity(s, op);
      }
      ActivityFollowsCircuit(next, ops[1..], default, end);
    }
  }

  /** As long as nobody interferes by hand, a workflow is active exactly while its circuit is closed. */
  lemma {:induction false} ActiveExactlyWhenClosed(ops: seq<BreakerOp>, default: real, end: BreakerState)
    requires RunsTo(START, ops, default, end) && forall i | 0 <= i < |ops| :: HandsOff(ops[i])
    ensures ActiveIffClosed(end)
  {
    ActivityFollowsCircuit(START, ops, default, end);
  }
}
