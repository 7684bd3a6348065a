/**
 * What a client result does to health and circuits, and why the incremental state always equals
 * a recomputation from the whole history.
 */
module HealthPipeline {
  import opened Results
  import opened Runs
  import opened RunHealth
  import opened TypeHealth
  import opened CircuitBreaker
  import HealthStore
  import W = Workflows
  import Bans

  datatype Monitor = Monitor(
    results: seq<ClientResult>, tables: RunTables, rows: seq<RunHealth>, types: map<string, TypeHealth>,
        breaker: BreakerState)

  /** Window size (at least one) and default success threshold. */
  datatype Config = Config(window: int, threshold: real)

  /** Clients with an active ban of exactly this type; a ban from all types is not seen here. */
  function BannedFrom(bans: seq<Bans.BanRecord>, wfType: string, now: int): set<string> {
    set b | b in bans && b.wfType == wfType && b.IsActive(now) :: b.client
  }

  function SetOf(ids: seq<string>): set<string> {
    set id | id in ids
  }

  function CountIn(ids: seq<string>, s: set<string>): nat {
    if ids == [] then 0 else CountIn(ids[..|ids| - 1], s) + if ids[|ids| - 1] in s then 1 else 0
  }

  /** The health row of a run, given the answers and bans on record. */
  function Row(run: Run, results: seq<ClientResult>, bans: seq<Bans.BanRecord>, now: int): RunHealth {
    RowFor(
      run.id, run.wfID, run.wfType, |run.participants|, OfRun(results, run.id),
      CountIn(run.participants, BannedFrom(bans, run.wfType, now)), now)
  }

  /** The rows ListRunHealths returns for the configured window. */
  function Listed(rows: seq<RunHealth>, wfType: string, window: int): seq<RunHealth> {
    Reversed(HealthStore.Limited(HealthStore.NewestFirst(HealthStore.OfType(rows, wfType)), window))
  }

  function Reaggregated(m: Monitor, wfType: string, cfg: Config): Monitor {
    m.(types := m.types[wfType := Aggregate(wfType, Listed(m.rows, wfType, cfg.window), cfg.window)])
  }

  /** EvaluateWorkflowType on the stored health; a type without one is left alone. */
  function Reevaluated(m: Monitor, wfType: string, cfg: Config, now: int): Monitor {
    if wfType !in m.types then m
    else m.(breaker := EvaluateType(m.breaker, wfType, m.types[wfType], cfg.threshold, now))
  }

  function Evaluated(m: Monitor, run: Run, h: RunHealth, cfg: Config, now: int): Monitor {
    Reevaluated(Reaggregated(m.(rows := HealthStore.Upserted(m.rows, h)), run.wfType, cfg), run.wfType, cfg, now)
  }

  /** Save a run's row, aggregate its type, evaluate the circuits, and close a complete run. */
  function Absorbed(m: Monitor, run: Run, h: RunHealth, cfg: Config, now: int): Monitor {
    var evaluated := Evaluated(m, run, h, cfg, now);
    if h.IsComplete() && !run.state.RunCompleted?
    then evaluated.(tables := Updated(m.tables, run.(state := RunCompleted)))
    else evaluated
  }

  function Recalculated(m: Monitor, run: Run, bans: seq<Bans.BanRecord>, cfg: Config, now: int): Monitor {
    Absorbed(m, run, Row(run, m.results, bans, now), cfg, now)
  }

  function OnResult(m: Monitor, r: ClientResult, bans: seq<Bans.BanRecord>, cfg: Config, now: int): Monitor {
    if !r.IsValid() then m
    else
      var saved := m.(results := Kept(m.results, r));
      var i := Position(m.tables.runs, r.runID);
      if i == |m.tables.runs| then saved else Recalculated(saved, m.tables.runs[i], bans, cfg, now)
  }

  // ---------------------------------------------------------------- runs of the monitor

  /** Results with whatever bans hold then, the two periodic jobs, and run rows written by others. */
  datatype MonitorOp =
    | Report(r: ClientResult, bans: seq<Bans.BanRecord>, now: int)
    | Aggregation(wfType: string)
    | Evaluation(wfType: string, now: int)
    | RunsChange(tables: RunTables)

  function Step(m: Monitor, op: MonitorOp, cfg: Config): Monitor {
    match op
    case Report(r, bans, now) => OnResult(m, r, bans, cfg, now)
    case Aggregation(t) => Reaggregated(m, t, cfg)
    case Evaluation(t, now) => Reevaluated(m, t, cfg, now)
    case RunsChange(tables) => m.(tables := tables)
  }

  /** The clock shows a new, later instant at every result. */
  ghost predicate Permitted(m: Monitor, op: MonitorOp) {
    match op
    case Report(_, _, now) => now > 0 && forall h | h in m.rows :: h.calculatedAt < now
    case Aggregation(_) => true
    case Evaluation(_, now) => now > 0
    case RunsChange(tables) => Extends(m.tables, tables)
  }

  /** The history of health rows as the results produce it; a row is dated by its latest result. */
  function Chronicle(m: Monitor, history: seq<RunHealth>, op: MonitorOp): seq<RunHealth> {
    match op
    case Report(r, bans, now) =>
      var i := Position(m.tables.runs, r.runID);
      if !r.IsValid() || i == |m.tables.runs| then history
      else HealthStore.Recorded(history, Row(m.tables.runs[i], Kept(m.results, r), bans, now))
    case _ => history
  }

  ghost predicate RunsTo(
      m: Monitor, history: seq<RunHealth>, ops: seq<MonitorOp>, cfg: Config, end: Monitor, told: seq<RunHealth>)
    decreases |ops|
  {
    if ops == [] then m == end && history == told
    else Permitted(m, ops[0]) && RunsTo(Step(m, ops[0], cfg), Chronicle(m, history, ops[0]), ops[1..], cfg, end, told)
  }

  // ---------------------------------------------------------------- the refinement

  function StateOf(cs: Circuits, id: string): CircuitState {
    if id in cs then cs[id].state else CircuitClosedState
  }

  /** The type's health computed from the whole history at once. */
  function FromScratch(history: seq<RunHealth>, wfType: string, cfg: Config): TypeHealth {
    Aggregate(wfType, HealthStore.OfType(history, wfType), cfg.window)
  }

  /** The circuit of the workflow is what the recomputed health of its type asks for. */
  predicate Agrees(cs: Circuits, w: W.Workflow, history: seq<RunHealth>, cfg: Config) {
    StateOf(cs, w.id) == EvaluateHealth(Threshold(w, cfg.threshold), FromScratch(history, w.wfType, cfg))
  }

  /**
   * Stored health and circuits are what a recomputation from the history gives, but for the
   * circuits of workflows that wait for the next pass on their type.
   */
  ghost predicate Refines(m: Monitor, history: seq<RunHealth>, waiting: set<string>, cfg: Config) {
    && (forall t | t in m.types :: m.types[t] == FromScratch(history, t, cfg))
    && (forall h | h in history :: h.wfType in m.types)
    && (forall w | w in m.breaker.wfs && w.id !in waiting :: Agrees(m.breaker.circuits, w, history, cfg))
  }

  /** A pass on a type leaves no workflow of it waiting. */
  function Passed(wfs: seq<W.Workflow>, waiting: set<string>, t: string): set<string> {
    waiting - set w | w in wfs && w.wfType == t :: w.id
  }

  /** Who still waits after an operation. */
  function StillWaiting(m: Monitor, waiting: set<string>, op: MonitorOp): set<string> {
    match op
    case Report(r, _, _) =>
      var i := Position(m.tables.runs, r.runID);
      if !r.IsValid() || i == |m.tables.runs| then waiting
      else Passed(m.breaker.wfs, waiting, m.tables.runs[i].wfType)
    case Evaluation(t, _) => if t in m.types then Passed(m.breaker.wfs, waiting, t) else waiting
    case _ => waiting
  }

  /** Every health row belongs to a stored run, of the row's type. */
  ghost predicate RowsHaveRuns(rows: seq<RunHealth>, runs: seq<Run>) {
    forall h | h in rows ::
      && (exists run :: run in runs && run.id == h.runID)
      && (forall run | run in runs && run.id == h.runID :: run.wfType == h.wfType)
  }

  ghost predicate Invariant(m: Monitor, history: seq<RunHealth>, waiting: set<string>, cfg: Config) {
    && cfg.window > 0
    && Sound(m.breaker) && DistinctWorkflows(m.breaker.wfs)
    && Keyed(m.tables)
    && HealthStore.Mirrors(m.rows, history)
    && RowsHaveRuns(m.rows, m.tables.runs)
    && Refines(m, history, waiting, cfg)
  }

  /** A type without rows has nothing to be unhealthy about. */
  lemma {:induction false} NoRowsOfType(history: seq<RunHealth>, wfType: string)
    requires forall h | h in history :: h.wfType != wfType
    ensures HealthStore.OfType(history, wfType) == []
  {
    if history == [] {
    } else {
      assert history[|history| - 1] in history;
      NoRowsOfType(history[..|history| - 1], wfType);
    }
  }

  lemma {:induction false} AggregationRefines(m: Monitor, history: seq<RunHealth>, t: string, cfg: Config)
    requires cfg.window > 0 && HealthStore.Mirrors(m.rows, history)
    ensures Reaggregated(m, t, cfg) == m.(types := m.types[t := FromScratch(history, t, cfg)])
  {
    HealthStore.WindowOfHistory(m.rows, history, t, cfg.window);
  }

  /** A recorded row changes the recomputed health of its own type only. */
  lemma {:induction false} ForgetOtherType(history: seq<RunHealth>, runID: string, wfType: string)
    requires forall h | h in history && h.runID == runID :: h.wfType != wfType
    ensures HealthStore.OfType(HealthStore.Forget(history, runID), wfType) == HealthStore.OfType(history, wfType)
  {
    if history == [] {
    } else {
      var init, last := history[..|history| - 1], history[|history| - 1];
      ForgetOtherType(init, runID, wfType);
      var kept := HealthStore.Forget(init, runID);
      assert last in history;
      if last.runID != runID {
        assert (kept + [last])[..|kept|] == kept;
      } else {
        assert kept + [] == kept;
      }
    }
  }

  lemma {:induction false} RecordOtherType(history: seq<RunHealth>, h: RunHealth, wfType: string)
    requires h.wfType != wfType && forall k | k in history && k.runID == h.runID :: k.wfType == h.wfType
    ensures HealthStore.OfType(HealthStore.Recorded(history, h), wfType) == HealthStore.OfType(history, wfType)
  {
    ForgetOtherType(history, h.runID, wfType);
    var kept := HealthStore.Forget(history, h.runID);
    assert (kept + [h])[..|kept|] == kept;
  }

  /** Evaluating one type on its recomputed health keeps every circuit recomputed. */
  lemma {:induction false} EvaluationRefines(
      m: Monitor, history: seq<RunHealth>, waiting: set<string>, t: string, cfg: Config, now: int)
    requires Sound(m.breaker) && DistinctWorkflows(m.breaker.wfs) && now > 0
    requires t in m.types && m.types[t] == FromScratch(history, t, cfg)
    requires forall w | w in m.breaker.wfs && w.wfType != t && w.id !in waiting ::
               Agrees(m.breaker.circuits, w, history, cfg)
    ensures var end := Reevaluated(m, t, cfg, now).breaker;
            && Sound(end) && DistinctWorkflows(end.wfs)
            && forall w | w in end.wfs && w.id !in Passed(m.breaker.wfs, waiting, t) ::
                 Agrees(end.circuits, w, history, cfg)
  {
    PassDecides(m.breaker, t, m.types[t], cfg.threshold, now);
    var end := Reevaluated(m, t, cfg, now).breaker;
    forall w | w in end.wfs && w.id !in Passed(m.breaker.wfs, waiting, t)
      ensures Agrees(end.circuits, w, history, cfg)
    {
      if w.wfType == t {
        assert Decided(end.circuits, w, m.types[t], cfg.threshold);
      } else {
        var i :| 0 <= i < |end.wfs| && end.wfs[i] == w;
        var v := m.breaker.wfs[i];
        assert v in m.breaker.wfs && v.id == w.id && v.wfType == w.wfType;
        assert Threshold(v, cfg.threshold) == Threshold(w, cfg.threshold);
        assert v.id !in waiting;
      }
    }
  }

  /** Types in the history survive a recording, and only the recorded type's health is recomputed. */
  lemma {:induction false} RecordingRefines(m: Monitor, history: seq<RunHealth>, h: RunHealth, cfg: Config)
    requires cfg.window > 0 && HealthStore.Mirrors(m.rows, history)
    requires forall k | k in history :: k.calculatedAt < h.calculatedAt
    requires forall k | k in history && k.runID == h.runID :: k.wfType == h.wfType
    ensures var history' := HealthStore.Recorded(history, h);
            && (forall t | t != h.wfType :: FromScratch(history', t, cfg) == FromScratch(history, t, cfg))
            && (forall k | k in history' :: k == h || k in history)
  {
    var history' := HealthStore.Recorded(history, h);
    HealthStore.RecordedGrows(history, h);
    forall t | t != h.wfType ensures FromScratch(history', t, cfg) == FromScratch(history, t, cfg) {
      RecordOtherType(history, h, t);
    }
  }

  lemma {:induction false} UpdateKeepsKeys(t: RunTables, run: Run)
    requires Keyed(t) && exists q :: q in t.runs && q.id == run.id && q.wfType == run.wfType
    ensures Extends(t, Updated(t, run))
  {
    var q :| q in t.runs && q.id == run.id && q.wfType == run.wfType;
    var i := Position(t.runs, run.id);
    var j :| 0 <= j < |t.runs| && t.runs[j] == q;
    assert i == j;
  }

  /** Run rows written under the same keys and types leave the health rows valid. */
  lemma {:induction false} ExtensionKeepsRows(
      m: Monitor, history: seq<RunHealth>, waiting: set<string>, tables: RunTables, cfg: Config)
    requires Invariant(m, history, waiting, cfg) && Extends(m.tables, tables)
    ensures Invariant(m.(tables := tables), history, waiting, cfg)
  {
    forall h | h in m.rows
      ensures exists run :: run in tables.runs && run.id == h.runID
      ensures forall run | run in tables.runs && run.id == h.runID :: run.wfType == h.wfType
    {
      RunStillThere(m.tables, tables, h);
    }
  }

  lemma {:induction false} RunStillThere(t: RunTables, t': RunTables, h: RunHealth)
    requires Extends(t, t') && RowsHaveRuns([h], t.runs)
    ensures exists run :: run in t'.runs && run.id == h.runID
    ensures forall run | run in t'.runs && run.id == h.runID :: run.wfType == h.wfType
  {
    assert h in [h];
    var run :| run in t.runs && run.id == h.runID;
    var i :| 0 <= i < |t.runs| && t.runs[i] == run;
    assert t'.runs[i] in t'.runs;
    forall q | q in t'.runs && q.id == h.runID ensures q.wfType == h.wfType {
      var j :| 0 <= j < |t'.runs| && t'.runs[j] == q;
      assert i == j;
    }
  }

  lemma {:induction false} OneRunPerKey(t: RunTables, run: Run)
    requires Keyed(t) && run in t.runs
    ensures forall q | q in t.runs && q.id == run.id :: q == run
  {
    forall q | q in t.runs && q.id == run.id ensures q == run {
      var i, j :| 0 <= i < |t.runs| && 0 <= j < |t.runs| && t.runs[i] == q && t.runs[j] == run;
      assert i == j;
    }
  }

  lemma {:induction false} SavedRowsHaveRuns(rows: seq<RunHealth>, t: RunTables, h: RunHealth, run: Run)
    requires RowsHaveRuns(rows, t.runs) && Keyed(t) && run in t.runs && h.runID == run.id && h.wfType == run.wfType
    ensures RowsHaveRuns(HealthStore.Upserted(rows, h), t.runs)
    ensures forall k | k in rows && k.runID == h.runID :: k.wfType == h.wfType
  {
    OneRunPerKey(t, run);
    var out := HealthStore.Upserted(rows, h);
    forall k | k in out ensures k == h || k in rows {
      var i :| 0 <= i < |out| && out[i] == k;
      assert i < |rows| ==> rows[i] in rows;
    }
  }

  lemma {:induction false} SavedRows(
      rows: seq<RunHealth>, history: seq<RunHealth>, t: RunTables, h: RunHealth, run: Run)
    requires HealthStore.Mirrors(rows, history) && RowsHaveRuns(rows, t.runs)
    requires Keyed(t) && run in t.runs && h.runID == run.id && h.wfType == run.wfType
    requires forall k | k in rows :: k.calculatedAt < h.calculatedAt
    ensures var out := HealthStore.Upserted(rows, h);
            && HealthStore.Mirrors(out, HealthStore.Recorded(history, h))
            && RowsHaveRuns(out, t.runs)
            && (forall k | k in history && k.runID == h.runID :: k.wfType == h.wfType)
  {
    SavedRowsHaveRuns(rows, t, h, run);
    assert forall k | k in history :: k in rows;
    HealthStore.SaveIsRecorded(rows, history, h);
  }

  lemma {:induction false} EvaluatedRefines(
      m: Monitor, history: seq<RunHealth>, waiting: set<string>, run: Run, h: RunHealth, cfg: Config, now: int)
    requires Invariant(m, history, waiting, cfg) && run in m.tables.runs && h.runID == run.id && h.wfType == run.wfType
    requires now > 0 && forall k | k in m.rows :: k.calculatedAt < h.calculatedAt
    ensures var end := Evaluated(m, run, h, cfg, now);
            && Refines(end, HealthStore.Recorded(history, h), Passed(m.breaker.wfs, waiting, run.wfType), cfg)
            && Sound(end.breaker) && DistinctWorkflows(end.breaker.wfs)
  {
    var history' := HealthStore.Recorded(history, h);
    assert forall k | k in history :: k in m.rows;
    SavedRows(m.rows, history, m.tables, h, run);
    RecordingRefines(m, history, h, cfg);
    var saved := m.(rows := HealthStore.Upserted(m.rows, h));
    AggregationRefines(saved, history', run.wfType, cfg);
    var aggregated := Reaggregated(saved, run.wfType, cfg);
    EvaluationRefines(aggregated, history', waiting, run.wfType, cfg, now);
  }

  lemma {:induction false} EvaluatedInvariant(
      m: Monitor, history: seq<RunHealth>, waiting: set<string>, run: Run, h: RunHealth, cfg: Config, now: int)
    requires Invariant(m, history, waiting, cfg) && run in m.tables.runs && h.runID == run.id && h.wfType == run.wfType
    requires now > 0 && forall k | k in m.rows :: k.calculatedAt < h.calculatedAt
    ensures Invariant(
              Evaluated(m, run, h, cfg, now), HealthStore.Recorded(history, h),
              Passed(m.breaker.wfs, waiting, run.wfType), cfg)
  {
    var end := Evaluated(m, run, h, cfg, now);
    EvaluatedRefines(m, history, waiting, run, h, cfg, now);
    assert end.rows == HealthStore.Upserted(m.rows, h) && end.tables == m.tables;
    SavedRows(m.rows, history, m.tables, h, run);
  }

  lemma {:induction false} ClosingKeepsInvariant(
      m: Monitor, history: seq<RunHealth>, waiting: set<string>, run: Run, cfg: Config)
    requires Invariant(m, history, waiting, cfg) && run in m.tables.runs
    ensures Invariant(m.(tables := Updated(m.tables, run.(state := RunCompleted))), history, waiting, cfg)
  {
    var closed := run.(state := RunCompleted);
    UpdateKeepsKeys(m.tables, closed);
    ExtensionKeepsRows(m, history, waiting, Updated(m.tables, closed), cfg);
  }

  lemma {:induction false} AbsorbedRefines(
      m: Monitor, history: seq<RunHealth>, waiting: set<string>, run: Run, h: RunHealth, cfg: Config, now: int)
    requires Invariant(m, history, waiting, cfg) && run in m.tables.runs && h.runID == run.id && h.wfType == run.wfType
    requires now > 0 && forall k | k in m.rows :: k.calculatedAt < h.calculatedAt
    ensures Invariant(
              Absorbed(m, run, h, cfg, now), HealthStore.Recorded(history, h),
              Passed(m.breaker.wfs, waiting, run.wfType), cfg)
  {
    EvaluatedInvariant(m, history, waiting, run, h, cfg, now);
    EvaluatedTables(m, run, h, cfg, now);
    ClosingKeepsInvariant(
      Evaluated(m, run, h, cfg, now), HealthStore.Recorded(history, h),
      Passed(m.breaker.wfs, waiting, run.wfType), run, cfg);
  }

  lemma {:induction false} EvaluatedTables(m: Monitor, run: Run, h: RunHealth, cfg: Config, now: int)
    ensures Evaluated(m, run, h, cfg, now).tables == m.tables
  {
  }

  lemma {:induction false} ReportRefines(
      m: Monitor, history: seq<RunHealth>, waiting: set<string>, r: ClientResult, bans: seq<Bans.BanRecord>,
      now: int, cfg: Config)
    requires Invariant(m, history, waiting, cfg) && Permitted(m, Report(r, bans, now))
    ensures var op := Report(r, bans, now);
            Invariant(OnResult(m, r, bans, cfg, now), Chronicle(m, history, op), StillWaiting(m, waiting, op), cfg)
  {
    var i := Position(m.tables.runs, r.runID);
    if r.IsValid() && i < |m.tables.runs| {
      var run, results := m.tables.runs[i], Kept(m.results, r);
      var h := Row(run, results, bans, now);
      RowBelongs(run, results, bans, now);
      AbsorbedRefines(m.(results := results), history, waiting, run, h, cfg, now);
    }
  }

  lemma {:induction false} RowBelongs(run: Run, results: seq<ClientResult>, bans: seq<Bans.BanRecord>, now: int)
    ensures var h := Row(run, results, bans, now); h.runID == run.id && h.wfType == run.wfType && h.calculatedAt == now
  {
  }

  lemma {:induction false} AggregationKeeps(
      m: Monitor, history: seq<RunHealth>, waiting: set<string>, t: string, cfg: Config)
    requires Invariant(m, history, waiting, cfg)
    ensures Invariant(Reaggregated(m, t, cfg), history, waiting, cfg)
  {
    AggregationRefines(m, history, t, cfg);
  }

  lemma {:induction false} EvaluationKeeps(
      m: Monitor, history: seq<RunHealth>, waiting: set<string>, t: string, now: int, cfg: Config)
    requires Invariant(m, history, waiting, cfg) && now > 0
    ensures Invariant(Reevaluated(m, t, cfg, now), history, StillWaiting(m, waiting, Evaluation(t, now)), cfg)
  {
    if t in m.types {
      EvaluationRefines(m, history, waiting, t, cfg, now);
    }
  }

  lemma {:induction false} StepKeepsInvariant(
      m: Monitor, history: seq<RunHealth>, waiting: set<string>, op: MonitorOp, cfg: Config)
    requires Invariant(m, history, waiting, cfg) && Permitted(m, op)
    ensures Invariant(Step(m, op, cfg), Chronicle(m, history, op), StillWaiting(m, waiting, op), cfg)
  {
    match op
    case Report(r, bans, now) => ReportRefines(m, history, waiting, r, bans, now, cfg);
    case Aggregation(t) => AggregationKeeps(m, history, waiting, t, cfg);
    case Evaluation(t, now) => EvaluationKeeps(m, history, waiting, t, now, cfg);
    case RunsChange(tables) => ExtensionKeepsRows(m, history, waiting, tables, cfg);
  }

  /**
   * Refinement over whole runs: after any results, under any bans, mixed with the periodic jobs
   * and with new runs, the stored health of each type and the circuit of each workflow are what
   * one recomputation over the last window of the type's history would give.
   */
  lemma {:induction false} IncrementalEqualsRecomputed(
      m: Monitor, history: seq<RunHealth>, ops: seq<MonitorOp>, cfg: Config, end: Monitor, told: seq<RunHealth>)
    requires Invariant(m, history, {}, cfg) && RunsTo(m, history, ops, cfg, end, told)
    ensures Refines(end, told, {}, cfg) && HealthStore.Mirrors(end.rows, told)
    decreases |ops|
  {
    if ops == [] {
    } else {
      StepKeepsInvariant(m, history, {}, ops[0], cfg);
      assert StillWaiting(m, {}, ops[0]) == {};
      IncrementalEqualsRecomputed(Step(m, ops[0], cfg), Chronicle(m, history, ops[0]), ops[1..], cfg, end, told);
    }
  }

  /** The refinement starts from any fixed workflow set without runs. */
  lemma {:induction false} FreshMonitorRefines(wfs: seq<W.Workflow>, cfg: Config)
    requires cfg.window > 0 && DistinctWorkflows(wfs)
    ensures Invariant(Monitor([], RunTables([], {}), [], map[], BreakerState(wfs, map[], [])), [], {}, cfg)
  {
    forall t ensures FromScratch([], t, cfg).runsConsidered == 0 {
      NoRowsOfType([], t);
    }
  }

  /** Everything about type t that health and circuits record is the same. */
  ghost predicate SameForType(m: Monitor, end: Monitor, t: string) {
    && (t in end.types <==> t in m.types)
    && (t in m.types ==> end.types[t] == m.types[t])
    && forall w | w in m.breaker.wfs && w.wfType == t ::
         && (w.id in end.breaker.circuits <==> w.id in m.breaker.circuits)
         && (w.id in m.breaker.circuits ==> end.breaker.circuits[w.id] == m.breaker.circuits[w.id])
  }

  lemma {:induction false} AbsorbedElsewhere(m: Monitor, run: Run, h: RunHealth, cfg: Config, now: int, t: string)
    requires Sound(m.breaker) && DistinctWorkflows(m.breaker.wfs) && now > 0 && run.wfType != t
    ensures SameForType(m, Absorbed(m, run, h, cfg, now), t)
  {
    var aggregated := Reaggregated(m.(rows := HealthStore.Upserted(m.rows, h)), run.wfType, cfg);
    PassDecides(m.breaker, run.wfType, aggregated.types[run.wfType], cfg.threshold, now);
    assert Reevaluated(aggregated, run.wfType, cfg, now).types == aggregated.types;
  }

  /** A result touches the stored health and the circuits of its own run's type only. */
  lemma {:induction false} OtherTypesUntouched(
      m: Monitor, r: ClientResult, bans: seq<Bans.BanRecord>, cfg: Config, now: int, t: string)
    requires Sound(m.breaker) && DistinctWorkflows(m.breaker.wfs) && now > 0
    requires var i := Position(m.tables.runs, r.runID); i < |m.tables.runs| ==> m.tables.runs[i].wfType != t
    ensures SameForType(m, OnResult(m, r, bans, cfg, now), t)
  {
    var i := Position(m.tables.runs, r.runID);
    if r.IsValid() && i < |m.tables.runs| {
      var run, results := m.tables.runs[i], Kept(m.results, r);
      AbsorbedElsewhere(m.(results := results), run, Row(run, results, bans, now), cfg, now, t);
    }
  }

  lemma {:induction false} AbsorbedFrame(m: Monitor, i: nat, h: RunHealth, cfg: Config, now: int)
    requires i == Position(m.tables.runs, h.runID) < |m.tables.runs|
    ensures var end := Absorbed(m, m.tables.runs[i], h, cfg, now);
            && SameRuns(m.tables, end.tables)
            && SameButActive(m.breaker.wfs, end.breaker.wfs)
            && (Sound(m.breaker) && now != 0 ==> Sound(end.breaker))
  {
    var t := m.tables.runs[i].wfType;
    var aggregated := Reaggregated(m.(rows := HealthStore.Upserted(m.rows, h)), t, cfg);
    var ws := W.OfType(m.breaker.wfs, t);
    EvaluateAllKeepsRows(m.breaker, ws, aggregated.types[t], cfg.threshold, now);
    if Sound(m.breaker) && now != 0 {
      EvaluateAllIsSound(m.breaker, ws, aggregated.types[t], cfg.threshold, now);
    }
  }

  /** Whatever a result does, runs keep everything but their state, and workflows all but their activity. */
  lemma {:induction false} ResultFrame(m: Monitor, r: ClientResult, bans: seq<Bans.BanRecord>, cfg: Config, now: int)
    ensures var end := OnResult(m, r, bans, cfg, now);
            && SameRuns(m.tables, end.tables)
            && SameButActive(m.breaker.wfs, end.breaker.wfs)
            && (Sound(m.breaker) && now != 0 ==> Sound(end.breaker))
  {
    var i := Position(m.tables.runs, r.runID);
    if r.IsValid() && i < |m.tables.runs| {
      var saved := m.(results := Kept(m.results, r));
      RowBelongs(m.tables.runs[i], saved.results, bans, now);
      AbsorbedFrame(saved, i, Row(m.tables.runs[i], saved.results, bans, now), cfg, now);
    }
  }

  // ---------------------------------------------------------------- what a row counts

  lemma {:induction false} OneMore(a: set<string>, x: string, s: set<string>)
    requires x !in a
    ensures |a + {x}| == |a| + 1
    ensures |(a + {x}) * s| == |a * s| + if x in s then 1 else 0
  {
    if x in s {
      assert (a + {x}) * s == (a * s) + {x};
    } else {
      assert (a + {x}) * s == a * s;
    }
  }

  lemma {:induction false} CountIsCardinality(ids: seq<string>, s: set<string>)
    requires forall i, j | 0 <= i < j < |ids| :: ids[i] != ids[j]
    ensures CountIn(ids, s) == |SetOf(ids) * s| && |SetOf(ids)| == |ids|
  {
    if ids == [] {
      assert SetOf(ids) * s == {};
    } else {
      var init, last := ids[..|ids| - 1], ids[|ids| - 1];
      CountIsCardinality(init, s);
      assert SetOf(ids) == SetOf(init) + {last};
      OneMore(SetOf(init), last, s);
    }
  }

  /**
   * The pending count of a stored row is that of the sets behind it: participants, clients banned
   * from the type, and responders; see PendingExactly for how it relates to who is really waiting.
   */
  lemma {:induction false} RowCountsSets(run: Run, results: seq<ClientResult>, bans: seq<Bans.BanRecord>, now: int)
    requires !Repeats(run.participants)
    ensures Row(run, results, bans, now).pending
         == Pending(SetOf(run.participants), BannedFrom(bans, run.wfType, now), Responders(OfRun(results, run.id)))
  {
    CountIsCardinality(run.participants, BannedFrom(bans, run.wfType, now));
  }

  /** Participants with an active ban from exactly the run's type. */
  ghost function BannedAmong(run: Run, bans: seq<Bans.BanRecord>, now: int): set<string> {
    set c | c in run.participants
      && exists b :: b in bans && b.client == c && b.wfType == run.wfType && b.active
           && (b.until.None? || now < b.until.value)
  }

  /** The row of a run, from its participants, the bans and the answers on record. */
  lemma {:induction false} RowIs(run: Run, results: seq<ClientResult>, bans: seq<Bans.BanRecord>, now: int)
    requires !Repeats(run.participants)
    ensures var h, answers := Row(run, results, bans, now), OfRun(results, run.id);
            && h.runID == run.id && h.wfID == run.wfID && h.wfType == run.wfType && h.calculatedAt == now
            && h.total == |run.participants| && h.banned == |BannedAmong(run, bans, now)|
            && h.success == |Answering(answers, Success)| && h.fail == |Answering(answers, Failure)|
            && h.error == |Answering(answers, Errored)|
  {
    var banned := BannedFrom(bans, run.wfType, now);
    RowCounts(run.id, run.wfID, run.wfType, |run.participants|, OfRun(results, run.id),
      CountIn(run.participants, banned), now);
    CountIsCardinality(run.participants, banned);
    assert SetOf(run.participants) * banned == BannedAmong(run, bans, now);
  }

  lemma {:induction false} CompleteRowCloses(m: Monitor, i: nat, h: RunHealth, cfg: Config, now: int)
    requires Keyed(m.tables) && i < |m.tables.runs| && h.IsComplete()
    ensures var run := m.tables.runs[i];
            Absorbed(m, run, h, cfg, now).tables.runs == m.tables.runs[i := run.(state := RunCompleted)]
  {
    var run := m.tables.runs[i];
    var p := Position(m.tables.runs, run.id);
    assert p == i;
    assert m.tables.runs[i := run] == m.tables.runs;
  }

  lemma {:induction false} ReportOfRun(m: Monitor, r: ClientResult, bans: seq<Bans.BanRecord>, cfg: Config, now: int)
    requires r.IsValid() && Position(m.tables.runs, r.runID) < |m.tables.runs|
    ensures var run := m.tables.runs[Position(m.tables.runs, r.runID)];
            var saved := m.(results := Kept(m.results, r));
            OnResult(m, r, bans, cfg, now) == Absorbed(saved, run, Row(run, saved.results, bans, now), cfg, now)
  {
  }

  /** Participants nobody has banned from exactly this type. */
  function EligibleFor(run: Run, bans: seq<Bans.BanRecord>, now: int): set<string> {
    Eligible(SetOf(run.participants), BannedFrom(bans, run.wfType, now))
  }

  /** Clients with a known answer for the run on record. */
  function AnsweredFor(run: Run, results: seq<ClientResult>): set<string> {
    Responders(OfRun(results, run.id))
  }

  /** At most as many eligible clients are waited for as answers came from clients that are not eligible. */
  predicate CountsComplete(run: Run, results: seq<ClientResult>, bans: seq<Bans.BanRecord>, now: int) {
    var eligible, answered := EligibleFor(run, bans, now), AnsweredFor(run, results);
    |eligible - answered| <= |answered - eligible|
  }

  /** Exactly when a row counts as complete. */
  lemma {:induction false} RowCompleteExactly(run: Run, results: seq<ClientResult>, bans: seq<Bans.BanRecord>, now: int)
    requires !Repeats(run.participants)
    ensures Row(run, results, bans, now).IsComplete() <==> CountsComplete(run, results, bans, now)
  {
    RowCountsSets(run, results, bans, now);
    PendingExactly(SetOf(run.participants), BannedFrom(bans, run.wfType, now), AnsweredFor(run, results));
  }

  lemma {:induction false} IncompleteRowCloses(m: Monitor, i: nat, h: RunHealth, cfg: Config, now: int)
    requires i < |m.tables.runs| && !h.IsComplete()
    ensures Absorbed(m, m.tables.runs[i], h, cfg, now).tables == m.tables
  {
    EvaluatedTables(m, m.tables.runs[i], h, cfg, now);
  }

  /**
   * Exactly when a result closes its run: the run becomes completed if and only if the answers on
   * record then outnumber those still due as described, and no other run changes.
   */
  lemma {:induction false} ResultClosesExactly(
      m: Monitor, r: ClientResult, bans: seq<Bans.BanRecord>, cfg: Config, now: int)
    requires Keyed(m.tables) && r.IsValid() && Position(m.tables.runs, r.runID) < |m.tables.runs|
    requires !Repeats(m.tables.runs[Position(m.tables.runs, r.runID)].participants)
    ensures var i := Position(m.tables.runs, r.runID);
            OnResult(m, r, bans, cfg, now).tables.runs
            == if CountsComplete(m.tables.runs[i], Kept(m.results, r), bans, now)
               then m.tables.runs[i := m.tables.runs[i].(state := RunCompleted)] else m.tables.runs
  {
    var i := Position(m.tables.runs, r.runID);
    var run, saved := m.tables.runs[i], m.(results := Kept(m.results, r));
    var h := Row(run, saved.results, bans, now);
    RowCompleteExactly(run, saved.results, bans, now);
    ReportOfRun(m, r, bans, cfg, now);
    if h.IsComplete() {
      CompleteRowCloses(saved, i, h, cfg, now);
    } else {
      IncompleteRowCloses(saved, i, h, cfg, now);
    }
  }

  lemma {:induction false} ResultIsKept(m: Monitor, r: ClientResult, bans: seq<Bans.BanRecord>, cfg: Config, now: int)
    requires r.IsValid()
    ensures OnResult(m, r, bans, cfg, now).results == Kept(m.results, r)
  {
  }

  /** In particular a result that leaves every unbanned participant answered closes its run. */
  lemma {:induction false} AllAnsweredCompletes(
      m: Monitor, r: ClientResult, bans: seq<Bans.BanRecord>, cfg: Config, now: int)
    requires Keyed(m.tables) && r.IsValid() && Position(m.tables.runs, r.runID) < |m.tables.runs|
    requires var run := m.tables.runs[Position(m.tables.runs, r.runID)];
             !Repeats(run.participants) && EligibleFor(run, bans, now) <= AnsweredFor(run, Kept(m.results, r))
    ensures var i := Position(m.tables.runs, r.runID);
            OnResult(m, r, bans, cfg, now).tables.runs == m.tables.runs[i := m.tables.runs[i].(state := RunCompleted)]
  {
    ResultClosesExactly(m, r, bans, cfg, now);
    var run := m.tables.runs[Position(m.tables.runs, r.runID)];
    assert EligibleFor(run, bans, now) - AnsweredFor(run, Kept(m.results, r)) == {};
  }
}
