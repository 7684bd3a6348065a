/**
 * The refinement of HealthPipeline inside the server: in its own runs, with the run rows that its
 * triggers really write, stored health and circuits are what a recomputation gives.
 */
module ServerHealth {
  import opened Results
  import opened Dispatching
  import opened ServerRuns
  import opened ServerSafety
  import W = Workflows
  import HP = HealthPipeline
  import HealthStore
  import RunHealth
  import TypeHealth
  import CB = CircuitBreaker

  /** The clock shows a new, later instant at every report. */
  ghost predicate Timely(s: Server, op: ServerOp) {
    match op
    case Report(_, now, _) => now > 0 && forall h | h in s.health.rows :: h.calculatedAt < now
    case Evaluate(_, now) => now > 0
    case _ => true
  }

  /** The history of health rows that the reports tell, and who waits for a pass on its type. */
  datatype Account = Account(history: seq<RunHealth.RunHealth>, waiting: set<string>)

  /** A report as health monitoring sees it: loop detection has spoken. */
  ghost function Watched(s: Server, r: ClientResult, now: int, dbFails: bool): HP.MonitorOp {
    HP.Report(r, Judged(Seen(s, r), r, now, dbFails).bans.table, now)
  }

  /** One of the rows has this id, type and threshold. */
  predicate Known(wfs: seq<W.Workflow>, w: W.Workflow) {
    exists v :: v in wfs && v.id == w.id && v.wfType == w.wfType && v.successThreshold == w.successThreshold
  }

  /**
   * Workflows that a definition creates, or gives another threshold, while their type has health
   * already, or under whose id an open circuit was left behind.
   */
  ghost function Unsettled(s: Server, change: W.WorkflowOp): set<string> {
    set w | w in W.Perform(s.wfs, change) && !Known(s.wfs, w)
            && (w.wfType in s.health.types || CB.IsOpen(s.health.circuits, w.id)) :: w.id
  }

  ghost function Told(s: Server, a: Account, op: ServerOp): Account {
    match op
    case Define(change) => a.(waiting := a.waiting + Unsettled(s, change))
    case Report(r, now, dbFails) =>
      var watched := Watched(s, r, now, dbFails);
      Account(HP.Chronicle(MonitorOf(s), a.history, watched), HP.StillWaiting(MonitorOf(s), a.waiting, watched))
    case Evaluate(t, now) => a.(waiting := HP.StillWaiting(MonitorOf(s), a.waiting, HP.Evaluation(t, now)))
    case _ => a
  }

  /** A permitted and timely run, with the account it gives. */
  ghost predicate Tells(setting: Setting, s: Server, a: Account, ops: seq<ServerOp>, end: Server, told: Account)
    requires W.Ranked(s.wfs)
    decreases |ops|
  {
    if ops == [] then s == end && a == told
    else
      && Permitted(s, ops[0]) && Timely(s, ops[0])
      && (StepKeepsRanked(setting, s, ops[0]);
          Tells(setting, Step(setting, s, ops[0]), Told(s, a, ops[0]), ops[1..], end, told))
  }

  ghost predicate Recomputes(setting: Setting, s: Server, a: Account) {
    HP.Invariant(MonitorOf(s), a.history, a.waiting, setting.cfg)
  }

  /** A type without health has no rows, and asks for closed circuits. */
  lemma {:induction false} NothingToldYet(setting: Setting, s: Server, a: Account, w: W.Workflow)
    requires Recomputes(setting, s, a) && w.wfType !in s.health.types && !CB.IsOpen(s.health.circuits, w.id)
    ensures HP.Agrees(s.health.circuits, w, a.history, setting.cfg)
  {
    HP.NoRowsOfType(a.history, w.wfType);
  }

  lemma {:induction false} DefiningKeepsHealth(setting: Setting, s: Server, a: Account, change: W.WorkflowOp)
    requires Recomputes(setting, s, a) && W.Ranked(W.Perform(s.wfs, change))
    ensures Recomputes(setting, s.(wfs := W.Perform(s.wfs, change)), Told(s, a, Define(change)))
  {
    var wfs := W.Perform(s.wfs, change);
    forall w | w in wfs && w.id !in a.waiting + Unsettled(s, change)
      ensures HP.Agrees(s.health.circuits, w, a.history, setting.cfg)
    {
      if Known(s.wfs, w) {
        var v :| v in s.wfs && v.id == w.id && v.wfType == w.wfType && v.successThreshold == w.successThreshold;
        assert CB.Threshold(v, setting.cfg.threshold) == CB.Threshold(w, setting.cfg.threshold);
        assert HP.Agrees(s.health.circuits, v, a.history, setting.cfg);
      } else {
        NothingToldYet(setting, s, a, w);
      }
    }
  }

  /**
   * Exactly when a workflow whose type has health agrees with a recomputation at once, with no
   * pass: its circuit is open if and only if the stored health is below its threshold.
   */
  lemma {:induction false} AgreesAtOnceExactly(
      setting: Setting, s: Server, a: Account, change: W.WorkflowOp, w: W.Workflow)
    requires Recomputes(setting, s, a) && w in W.Perform(s.wfs, change) && w.wfType in s.health.types
    ensures HP.Agrees(s.health.circuits, w, a.history, setting.cfg)
       <==> var h := s.health.types[w.wfType];
            (CB.IsOpen(s.health.circuits, w.id)
             <==> h.runsConsidered != 0 && h.successAvg < CB.Threshold(w, setting.cfg.threshold))
  {
    assert CB.Sound(MonitorOf(s).breaker);
  }

  lemma {:induction false} ReportKeepsHealth(
      setting: Setting, s: Server, a: Account, r: ClientResult, now: int, dbFails: bool)
    requires Recomputes(setting, s, a) && Timely(s, Report(r, now, dbFails))
    ensures Recomputes(setting, Reported(setting, s, r, now, dbFails), Told(s, a, Report(r, now, dbFails)))
  {
    var judged := Judged(Seen(s, r), r, now, dbFails);
    assert MonitorOf(judged) == MonitorOf(s);
    HP.ReportRefines(MonitorOf(judged), a.history, a.waiting, r, judged.bans.table, now, setting.cfg);
  }

  lemma {:induction false} FireKeepsHealth(
      setting: Setting, s: Server, a: Account, id: string, reason: string, net: Net, now: int)
    requires SoundSetting(setting) && Invariant(setting, s) && Recomputes(setting, s, a)
    ensures Recomputes(setting, Fired(setting, s, id, reason, net, now), a)
  {
    FiringIsSafe(setting, s, id, reason, net, now);
    var tables := Fired(setting, s, id, reason, net, now).books.tables;
    HP.ExtensionKeepsRows(MonitorOf(s), a.history, a.waiting, tables, setting.cfg);
  }

  lemma {:induction false} StepKeepsHealth(setting: Setting, s: Server, a: Account, op: ServerOp)
    requires SoundSetting(setting) && Invariant(setting, s) && Recomputes(setting, s, a)
    requires Permitted(s, op) && Timely(s, op)
    ensures Recomputes(setting, Step(setting, s, op), Told(s, a, op))
  {
    match op
    case Define(change) =>
      W.RankedStep(s.wfs, change);
      DefiningKeepsHealth(setting, s, a, change);
    case Fire(id, reason, net, now) => FireKeepsHealth(setting, s, a, id, reason, net, now);
    case Report(r, now, dbFails) => ReportKeepsHealth(setting, s, a, r, now, dbFails);
    case Aggregate(t) => HP.AggregationKeeps(MonitorOf(s), a.history, a.waiting, t, setting.cfg);
    case Evaluate(t, now) => HP.EvaluationKeeps(MonitorOf(s), a.history, a.waiting, t, now, setting.cfg);
    case Register(_) =>
    case ChangeBans(_) =>
  }

  lemma {:induction false} RunKeepsHealth(
      setting: Setting, s: Server, a: Account, ops: seq<ServerOp>, end: Server, told: Account)
    requires SoundSetting(setting) && Invariant(setting, s) && Recomputes(setting, s, a)
    requires Tells(setting, s, a, ops, end, told)
    ensures Recomputes(setting, end, told)
    decreases |ops|
  {
    if ops == [] {
    } else {
      StepKeepsHealth(setting, s, a, ops[0]);
      StepKeepsInvariant(setting, s, ops[0]);
      RunKeepsHealth(setting, Step(setting, s, ops[0]), Told(s, a, ops[0]), ops[1..], end, told);
    }
  }

  /**
   * Recomputation over whole server runs, with definitions, triggers, results, bans and jobs in
   * any order: at every moment the stored health of each type, and the circuit of each workflow
   * that does not wait for a pass since it was defined, are what one recomputation over the last
   * window of the type's history gives.
   */
  lemma {:induction false} HealthIsRecomputed(setting: Setting, ops: seq<ServerOp>, end: Server, told: Account)
    requires SoundSetting(setting) && setting.cfg.window > 0
    requires Tells(setting, START, Account([], {}), ops, end, told)
    ensures HP.Refines(MonitorOf(end), told.history, told.waiting, setting.cfg)
    ensures HealthStore.Mirrors(end.health.rows, told.history)
  {
    StartIsGood(setting);
    HP.FreshMonitorRefines([], setting.cfg);
    RunKeepsHealth(setting, START, Account([], {}), ops, end, told);
  }

  /** The success percentages of the last window of the type's history. */
  ghost function Window(setting: Setting, history: seq<RunHealth.RunHealth>, wfType: string): seq<real> {
    var rows := HealthStore.OfType(history, wfType);
    TypeHealth.SuccessPercents(rows[|rows| - TypeHealth.Taken(|rows|, setting.cfg.window)..])
  }

  /**
   * Over whole server runs, from the counts themselves: a workflow that does not wait is open
   * exactly when the last window of its type holds rows, and their success percentages sum to less
   * than its own threshold per row, or than the default per row when it has none of its own.
   */
  lemma {:induction false} OpenExactly(
      setting: Setting, ops: seq<ServerOp>, end: Server, told: Account, w: W.Workflow)
    requires SoundSetting(setting) && setting.cfg.window > 0
    requires Tells(setting, START, Account([], {}), ops, end, told)
    requires w in end.wfs && w.id !in told.waiting
    ensures var percents := Window(setting, told.history, w.wfType);
            && (w.successThreshold > 0.0 ==>
                  (CB.IsOpen(end.health.circuits, w.id) <==> TypeHealth.SumsBelow(percents, w.successThreshold)))
            && (w.successThreshold <= 0.0 ==>
                  (CB.IsOpen(end.health.circuits, w.id) <==> TypeHealth.SumsBelow(percents, setting.cfg.threshold)))
  {
    HealthIsRecomputed(setting, ops, end, told);
    var rows := HealthStore.OfType(told.history, w.wfType);
    TypeHealth.HealthBelow(w.wfType, rows, setting.cfg.window, w.successThreshold);
    TypeHealth.HealthBelow(w.wfType, rows, setting.cfg.window, setting.cfg.threshold);
    OpenAsRecomputed(setting, end, told, w);
  }

  lemma {:induction false} OpenAsRecomputed(setting: Setting, s: Server, a: Account, w: W.Workflow)
    requires HP.Refines(MonitorOf(s), a.history, a.waiting, setting.cfg) && w in s.wfs && w.id !in a.waiting
    ensures var h, open := HP.FromScratch(a.history, w.wfType, setting.cfg), CB.IsOpen(s.health.circuits, w.id);
            && (w.successThreshold > 0.0 ==> (open <==> h.runsConsidered > 0 && h.successAvg < w.successThreshold))
            && (w.successThreshold <= 0.0 ==> (open <==> h.runsConsidered > 0 && h.successAvg < setting.cfg.threshold))
  {
    assert HP.Agrees(s.health.circuits, w, a.history, setting.cfg);
  }

  // ---------------------------------------------------------------- runs in which nobody waits

  /** Workflows may be switched, deleted and edited, but for their thresholds. */
  predicate Settles(op: ServerOp) {
    op.Define? ==> !op.change.Create? && (op.change.Edit? ==> op.change.edit.successThreshold.None?)
  }

  lemma {:induction false} SavedIsKnown(wfs: seq<W.Workflow>, w: W.Workflow)
    requires Known(wfs, w)
    ensures forall x | x in W.Saved(wfs, w) :: Known(wfs, x)
  {
    var out := W.Saved(wfs, w);
    forall x | x in out ensures Known(wfs, x) {
      var k :| 0 <= k < |out| && out[k] == x;
      assert x == w || x in wfs;
    }
  }

  lemma {:induction false} StillKnown(wfs: seq<W.Workflow>, change: W.WorkflowOp)
    requires Settles(Define(change))
    ensures forall x | x in W.Perform(wfs, change) :: Known(wfs, x)
  {
    if W.Perform(wfs, change) == wfs {
    } else {
      match change
      case Edit(target, edit) =>
        assert wfs[W.Index(wfs, target)] in wfs;
        SavedIsKnown(wfs, W.EditOutcome(wfs, target, edit).value);
      case SetActive(target, active) =>
        var v := wfs[W.Index(wfs, target)];
        assert v in wfs && W.WithState(wfs, target, active) == W.Saved(wfs, v.(active := active));
        SavedIsKnown(wfs, v.(active := active));
      case Delete(target) =>
        assert forall x | x in W.Without(wfs, target) :: x in wfs;
    }
  }

  lemma {:induction false} NobodyWaitsAfter(setting: Setting, s: Server, a: Account, op: ServerOp)
    requires a.waiting == {} && (Settles(op) || s.health == START.health)
    ensures Told(s, a, op).waiting == {}
  {
    match op
    case Define(change) =>
      if Settles(op) {
        StillKnown(s.wfs, change);
      }
    case _ =>
  }

  /**
   * In particular nobody waits at all when everything is defined first: after any set-up of
   * workflows and clients, runs without creations and thresholds keep every circuit recomputed.
   */
  lemma {:induction false} NobodyWaits(
      setting: Setting, s: Server, a: Account, setUp: nat, ops: seq<ServerOp>, end: Server, told: Account)
    requires W.Ranked(s.wfs) && Tells(setting, s, a, ops, end, told) && a.waiting == {}
    requires setUp <= |ops| && (setUp > 0 ==> s.health == START.health)
    requires forall i | 0 <= i < setUp :: ops[i].Define? || ops[i].Register?
    requires forall i | setUp <= i < |ops| :: Settles(ops[i])
    ensures told.waiting == {}
    decreases |ops|
  {
    if ops == [] {
    } else {
      StepKeepsRanked(setting, s, ops[0]);
      NobodyWaitsAfter(setting, s, a, ops[0]);
      var rest := ops[1..];
      assert forall i | 0 <= i < |rest| :: rest[i] == ops[i + 1];
      var left := if setUp == 0 then 0 else setUp - 1;
      NobodyWaits(setting, Step(setting, s, ops[0]), Told(s, a, ops[0]), left, rest, end, told);
    }
  }
}
