/** Loop detection: a result bans its client when the client's runs of a type follow too closely. */
module LoopDetection {
  import opened Wrappers
  import opened Bans
  import opened BanService
  import W = Workflows
  import opened Runs
  import opened Results

  /** Times are counted in nanoseconds. */
  const MILLISECOND := 1_000_000

  /** Workflow.LoopThreshold: unset means five seconds. */
  function LoopThreshold(w: W.Workflow): (t: int)
    ensures t > 0
  {
    if w.loopThresholdMS <= 0 then 5000 * MILLISECOND else w.loopThresholdMS * MILLISECOND
  }

  /** LoopDetector.DetectLoop: the time between the runs when they form a loop. */
  function DetectLoop(
      current: string, currentTime: int, prev: string, prevTime: int, threshold: int, default: int): Option<int> {
    var limit := if threshold <= 0 then default else threshold;
    if prev == "" || prev == current || currentTime < prevTime || currentTime - prevTime > limit then None
    else Some(currentTime - prevTime)
  }

  /** Another run of the type listing the client was triggered within the threshold before the current one. */
  ghost predicate Loops(t: RunTables, client: string, wfType: string, current: Run, threshold: int) {
    exists q :: q in t.runs && Earlier(t, q, client, wfType, current.id, current.triggeredAt)
                && current.triggeredAt - threshold <= q.triggeredAt
  }

  /** The run and workflow a result speaks of, when both exist. */
  function Subject(wfs: seq<W.Workflow>, t: RunTables, r: ClientResult): Option<(W.Workflow, Run)> {
    var i, j := W.Index(wfs, r.wfID), Position(t.runs, r.runID);
    if r.IsValid() && i < |wfs| && j < |t.runs| then Some((wfs[i], t.runs[j])) else None
  }

  /** A result gets its client banned from the workflow's type. */
  ghost predicate Convicts(wfs: seq<W.Workflow>, t: RunTables, r: ClientResult) {
    match Subject(wfs, t, r)
    case None => false
    case Some((w, current)) => Loops(t, r.client, w.wfType, current, LoopThreshold(w))
  }

  /** The ban the service writes for a convicting result. */
  function LoopBan(wfs: seq<W.Workflow>, r: ClientResult, now: int): BanRecord
    requires W.Has(wfs, r.wfID)
  {
    ApplyBan(r.client, wfs[W.Index(wfs, r.wfID)].wfType, r.runID, r.payload, LoopDetected, now)
  }

  class LoopDetectionService {
    const runs: RunRepo
    const workflows: W.WorkflowRepo
    const enforcer: BanEnforcement
    const alerts: AlertLog
    const default: int

    constructor (runs: RunRepo, workflows: W.WorkflowRepo, enforcer: BanEnforcement, alerts: AlertLog, default: int)
      ensures this.runs == runs && this.workflows == workflows && this.enforcer == enforcer && this.alerts == alerts
    {
      this.runs := runs;
      this.workflows := workflows;
      this.enforcer := enforcer;
      this.alerts := alerts;
      this.default := default;
    }

    /**
     * Exact: only the latest earlier run is looked at, yet the client is banned if and only if
     * some earlier run is within the threshold.
     */
    method HandleResult(r: ClientResult, now: int, dbFails: bool)
      requires Keyed(runs.tables)
      requires alerts == enforcer.alerts
      modifies enforcer.repo, enforcer.blocker, enforcer.alerts, alerts
      ensures Convicts(workflows.rows, runs.tables, r) ==>
                enforcer.State() == Apply(old(enforcer.State()), Ban(LoopBan(workflows.rows, r, now), dbFails))
      ensures Convicts(workflows.rows, runs.tables, r) ==>
                var wfType := LoopBan(workflows.rows, r, now).wfType;
                alerts.alerts == old(alerts.alerts) + [Alert(LoopAlert, r.client, wfType)]
                                 + if dbFails then [] else [Alert(ClientBanned, r.client, wfType)]
      ensures !Convicts(workflows.rows, runs.tables, r) ==>
                enforcer.State() == old(enforcer.State()) && alerts.alerts == old(alerts.alerts)
    {
      if !r.IsValid() {
        return;
      }
      var wf := workflows.GetWorkflow(r.wfID);
      if wf.Err? {
        return;
      }
      var w := wf.value;
      var threshold := LoopThreshold(w);
      var found := runs.GetRun(r.runID);
      if found.Err? {
        return;
      }
      var current := found.value;
      assert current.id == r.runID;
      var prev := runs.GetPreviousRun(r.client, w.wfType, r.runID, current.triggeredAt);
      if prev.Err? {
        return;
      }
      var rec := DetectLoop(r.runID, current.triggeredAt, prev.value.id, prev.value.triggeredAt, threshold, default);
      if rec.None? {
        assert !Loops(runs.tables, r.client, w.wfType, current, threshold);
        return;
      }
      assert Loops(runs.tables, r.client, w.wfType, current, threshold);
      alerts.PublishAlert(Alert(LoopAlert, r.client, w.wfType));
      var _ := enforcer.BanClient(r.client, w.wfType, r.runID, r.payload, LoopDetected, now, dbFails);
    }
  }

  /** Runs of a type listing a client that are all wider apart than the threshold. */
  ghost predicate Spaced(t: RunTables, client: string, wfType: string, threshold: int) {
    forall p, q | p in t.runs && q in t.runs && p != q && p.wfType == wfType && q.wfType == wfType
                  && (p.id, client) in t.listed && (q.id, client) in t.listed && p.triggeredAt <= q.triggeredAt ::
      q.triggeredAt - p.triggeredAt > threshold
  }

  /** A client whose runs are spaced wider than the threshold is never convicted by a result of its own. */
  lemma {:induction false} SpacedRunsAreNeverBanned(wfs: seq<W.Workflow>, t: RunTables, r: ClientResult)
    requires Keyed(t) && Subject(wfs, t, r).Some?
    requires var (w, current) := Subject(wfs, t, r).value;
             && Spaced(t, r.client, w.wfType, LoopThreshold(w))
             && current.wfType == w.wfType && (current.id, r.client) in t.listed
    ensures !Convicts(wfs, t, r)
  {
    var (w, current) := Subject(wfs, t, r).value;
    forall q | q in t.runs && Earlier(t, q, r.client, w.wfType, current.id, current.triggeredAt)
      ensures q.triggeredAt < current.triggeredAt - LoopThreshold(w)
    {
      assert q != current && current in t.runs;
    }
  }

  /** The time within which another run is a loop, in nanoseconds: the workflow's own, or five seconds. */
  predicate Within(w: W.Workflow, elapsed: int) {
    0 <= elapsed <= if w.loopThresholdMS > 0 then w.loopThresholdMS * 1_000_000 else 5_000_000_000
  }

  /**
   * Who is convicted, from the rows alone: a well-formed result of a stored workflow and run, when
   * another run of the workflow's type that lists the client was triggered at the same time as
   * this one, or before it by no more than the time the workflow sets.
   */
  lemma {:induction false} ConvictsExactly(wfs: seq<W.Workflow>, t: RunTables, r: ClientResult)
    requires W.Ranked(wfs) && Keyed(t)
    ensures Convicts(wfs, t, r)
       <==> && r.runID != "" && r.client != "" && r.wfID != "" && !r.status.OtherStatus?
            && exists w, run, q ::
                 && w in wfs && w.id == r.wfID && run in t.runs && run.id == r.runID
                 && q in t.runs && q.id != run.id && q.wfType == w.wfType && (q.id, r.client) in t.listed
                 && Within(w, run.triggeredAt - q.triggeredAt)
  {
    if Convicts(wfs, t, r) {
      var (w, run) := Subject(wfs, t, r).value;
      var q :| q in t.runs && Earlier(t, q, r.client, w.wfType, run.id, run.triggeredAt)
        && run.triggeredAt - LoopThreshold(w) <= q.triggeredAt;
      assert w in wfs && run in t.runs && Within(w, run.triggeredAt - q.triggeredAt);
    }
    forall w, run, q | w in wfs && w.id == r.wfID && run in t.runs && run.id == r.runID && r.IsValid()
                       && q in t.runs && q.id != run.id && q.wfType == w.wfType && (q.id, r.client) in t.listed
                       && Within(w, run.triggeredAt - q.triggeredAt)
      ensures Convicts(wfs, t, r)
    {
      SubjectIs(wfs, t, r, w, run);
      assert Earlier(t, q, r.client, w.wfType, run.id, run.triggeredAt);
    }
  }

  lemma {:induction false} SubjectIs(wfs: seq<W.Workflow>, t: RunTables, r: ClientResult, w: W.Workflow, run: Run)
    requires W.Ranked(wfs) && Keyed(t) && r.IsValid()
    requires w in wfs && w.id == r.wfID && run in t.runs && run.id == r.runID
    ensures Subject(wfs, t, r) == Some((w, run))
  {
    var i :| 0 <= i < |wfs| && wfs[i] == w;
    W.IndexIsUnique(wfs, i);
    var j :| 0 <= j < |t.runs| && t.runs[j] == run;
    assert Position(t.runs, r.runID) == j;
  }

  /** The ban of a conviction: this client, from the workflow's type, for good, with the result as evidence. */
  lemma {:induction false} LoopBanIs(wfs: seq<W.Workflow>, r: ClientResult, now: int, w: W.Workflow)
    requires W.Ranked(wfs) && w in wfs && w.id == r.wfID
    ensures W.Has(wfs, r.wfID)
    ensures LoopBan(wfs, r, now)
         == BanRecord(r.client, w.wfType, r.runID, r.payload, now, None, LoopDetected, true)
  {
    var i :| 0 <= i < |wfs| && wfs[i] == w;
    W.IndexIsUnique(wfs, i);
  }
}
