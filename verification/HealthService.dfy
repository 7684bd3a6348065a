/** The circuit breaker and health monitoring services over their tables. */
module HealthService {
  import opened Wrappers
  import opened Results
  import opened Runs
  import opened RunHealth
  import opened TypeHealth
  import opened CircuitBreaker
  import opened HealthPipeline
  import opened BanService
  import HealthStore
  import RH = RunHealth
  import Bans
  import W = Workflows

  class CircuitRepo {
    var circuits: Circuits

    constructor ()
      ensures circuits == map[]
    {
      circuits := map[];
    }

    method GetCircuitState(id: string) returns (c: Option<Circuit>)
      ensures c == if id in circuits then Some(circuits[id]) else None
    {
      return if id in circuits then Some(circuits[id]) else None;
    }

    method SaveCircuitState(c: Circuit)
      modifies this
      ensures circuits == old(circuits)[c.wfID := c]
    {
      circuits := circuits[c.wfID := c];
    }
  }

  class CircuitBreakerService {
    const health: HealthStore.HealthRepo
    const circuits: CircuitRepo
    const workflows: W.WorkflowRepo
    const alerts: AlertLog
    const default: real

    constructor (
        health: HealthStore.HealthRepo, circuits: CircuitRepo, workflows: W.WorkflowRepo, alerts: AlertLog,
        default: real)
      ensures this.health == health && this.circuits == circuits && this.workflows == workflows
      ensures this.alerts == alerts && this.default == default
    {
      this.health := health;
      this.circuits := circuits;
      this.workflows := workflows;
      this.alerts := alerts;
      this.default := default;
    }

    ghost function State(): BreakerState
      reads workflows, circuits, alerts
    {
      BreakerState(workflows.rows, circuits.circuits, alerts.alerts)
    }

    /** The policy repository reads the workflow again; an unknown one has the default policy. */
    method GetPolicy(id: string) returns (threshold: real)
      ensures W.Has(workflows.rows, id) ==>
                var own := workflows.rows[W.Index(workflows.rows, id)].successThreshold;
                threshold == if own > 0.0 then own else default
      ensures !W.Has(workflows.rows, id) ==> threshold == default
    {
      var w := workflows.GetWorkflow(id);
      if w.Err? {
        return default;
      }
      threshold := default;
      if w.value.successThreshold > 0.0 {
        threshold := w.value.successThreshold;
      }
    }

    /** One turn of the loop, for a workflow whose stored threshold is still the listed one. */
    method EvaluateWorkflow(w: W.Workflow, h: TypeHealth, now: int)
      requires W.Has(workflows.rows, w.id)
      requires Threshold(workflows.rows[W.Index(workflows.rows, w.id)], default) == Threshold(w, default)
      modifies workflows, circuits, alerts
      ensures State() == EvaluateOne(old(State()), w, h, default, now)
    {
      var policy := GetPolicy(w.id);
      var newState := EvaluateHealth(policy, h);
      var stored := circuits.GetCircuitState(w.id);
      var current := match stored case Some(c) => c case None => Circuit(w.id, w.wfType, CircuitClosedState, 0, 0);
      current := current.(evaluations := current.evaluations + 1);
      if current.state != newState {
        current := current.(state := newState);
        if newState == CircuitOpenState {
          current := current.(openedAt := now);
          var _ := workflows.UpdateWorkflowState(w.id, false);
          alerts.PublishAlert(Alert(CircuitOpened, w.id, w.wfType));
        } else if newState == CircuitClosedState {
          current := current.(openedAt := 0);
          var _ := workflows.UpdateWorkflowState(w.id, true);
          alerts.PublishAlert(Alert(CircuitClosed, w.id, w.wfType));
        }
      }
      circuits.SaveCircuitState(current);
    }

    method EvaluateWorkflowType(wfType: string, given: Option<TypeHealth>, now: int)
      requires Sound(State()) && DistinctWorkflows(workflows.rows) && now != 0
      modifies workflows, circuits, alerts
      ensures Sound(State()) && DistinctWorkflows(workflows.rows)
      ensures given.Some? ==> State() == EvaluateType(old(State()), wfType, given.value, default, now)
      ensures given.None? ==>
                State() == OnStored(old(State()), wfType, health.types, default, now)
    {
      var h: TypeHealth;
      if given.Some? {
        h := given.value;
      } else {
        var stored := health.GetWorkflowTypeHealth(wfType);
        if stored.None? {
          return;
        }
        h := stored.value;
      }
      EvaluateOn(wfType, h, now);
    }

    /** The periodic pass: each type once, in the order the listing first names it. */
    method EvaluateAllWorkflows(now: int)
      requires Sound(State()) && DistinctWorkflows(workflows.rows) && now != 0
      modifies workflows, circuits, alerts
      ensures Sound(State()) && DistinctWorkflows(workflows.rows)
      ensures State() == EvaluateEach(old(State()), W.NewestFirst(old(workflows.rows)), {}, health.types, default, now)
    {
      ghost var start := State();
      var ws := workflows.ListAllWorkflows();
      var seen: set<string> := {};
      for k := 0 to |ws|
        invariant Sound(State()) && DistinctWorkflows(workflows.rows)
        invariant StillToEvaluate(State(), ws, k, seen, health.types, default, now, start)
      {
        ghost var before := State();
        EachStep(before, ws, k, seen, health.types, default, now, start);
        if ws[k].wfType in seen {
          continue;
        }
        seen := seen + {ws[k].wfType};
        EvaluateWorkflowType(ws[k].wfType, None, now);
      }
      assert ws[|ws|..] == [];
    }

    /** The loop over the workflows of a type. */
    method EvaluateOn(wfType: string, h: TypeHealth, now: int)
      requires Sound(State()) && DistinctWorkflows(workflows.rows) && now != 0
      modifies workflows, circuits, alerts
      ensures Sound(State()) && DistinctWorkflows(workflows.rows)
      ensures State() == EvaluateType(old(State()), wfType, h, default, now)
    {
      ghost var start := State();
      var ws := workflows.ListWorkflowsByType(wfType);
      OfTypeLists(start.wfs, wfType);
      for k := 0 to |ws|
        invariant UpTo(start, ws, k, h, default, now, State())
      {
        assert ws[k] in ws;
        RowStillThere(start, ws, k, h, default, now, State());
        ghost var before := State();
        EvaluateWorkflow(ws[k], h, now);
        EvaluatedOneMore(start, ws, k, h, default, now, before);
      }
      assert ws[..|ws|] == ws;
      PassDecides(start, wfType, h, default, now);
    }
  }

  /** EvaluateWorkflowType without a given health: on the stored one, if there is one. */
  function OnStored(s: BreakerState, t: string, types: map<string, TypeHealth>, default: real, now: int): BreakerState {
    if t in types then EvaluateType(s, t, types[t], default, now) else s
  }

  /** The types of the listed workflows that were not seen, each evaluated where it first appears. */
  function EvaluateEach(
      s: BreakerState, ws: seq<W.Workflow>, seen: set<string>, types: map<string, TypeHealth>, default: real,
      now: int): BreakerState
    decreases |ws|
  {
    if ws == [] then s
    else if ws[0].wfType in seen then EvaluateEach(s, ws[1..], seen, types, default, now)
    else
      var next := OnStored(s, ws[0].wfType, types, default, now);
      EvaluateEach(next, ws[1..], seen + {ws[0].wfType}, types, default, now)
  }

  /** With the workflows from k on still to come, the state will be that of the whole pass. */
  ghost predicate StillToEvaluate(
      s: BreakerState, ws: seq<W.Workflow>, k: nat, seen: set<string>, types: map<string, TypeHealth>, default: real,
      now: int,
      start: BreakerState)
  {
    k <= |ws| && EvaluateEach(s, ws[k..], seen, types, default, now) == EvaluateEach(start, ws, {}, types, default, now)
  }

  lemma {:induction false} EachStep(
      s: BreakerState, ws: seq<W.Workflow>, k: nat, seen: set<string>, types: map<string, TypeHealth>, default: real,
      now: int,
      start: BreakerState)
    requires k < |ws| && StillToEvaluate(s, ws, k, seen, types, default, now, start)
    ensures var t := ws[k].wfType;
            if t in seen then StillToEvaluate(s, ws, k + 1, seen, types, default, now, start)
            else StillToEvaluate(OnStored(s, t, types, default, now), ws, k + 1, seen + {t}, types, default, now, start)
  {
    assert ws[k..][1..] == ws[k + 1..];
  }

  /** Every circuit whose type is among ts is decided on the stored health of its type. */
  ghost predicate DecidedFor(s: BreakerState, ts: set<string>, types: map<string, TypeHealth>, default: real) {
    forall w | w in s.wfs && w.wfType in ts && w.wfType in types :: Decided(s.circuits, w, types[w.wfType], default)
  }

  lemma {:induction false} PassKeepsDecisions(
      s: BreakerState, t: string, ts: set<string>, types: map<string, TypeHealth>, default: real, now: int)
    requires Sound(s) && now != 0 && DistinctWorkflows(s.wfs) && t !in ts
    requires DecidedFor(s, ts, types, default)
    ensures var end := OnStored(s, t, types, default, now);
            Sound(end) && DistinctWorkflows(end.wfs) && SameButActive(s.wfs, end.wfs)
                && DecidedFor(end, ts + {t}, types, default)
  {
    if t in types {
      PassDecides(s, t, types[t], default, now);
      var end := OnStored(s, t, types, default, now);
      forall w | w in end.wfs && w.wfType in ts + {t} && w.wfType in types
        ensures Decided(end.circuits, w, types[w.wfType], default)
      {
        if w.wfType != t {
          var i :| 0 <= i < |end.wfs| && end.wfs[i] == w;
          var v := s.wfs[i];
          assert v in s.wfs && w == v.(active := w.active);
          assert Decided(s.circuits, v, types[v.wfType], default);
        }
      }
    }
  }

  /**
   * The periodic pass evaluates each type only once, yet every circuit whose type has stored
   * health ends up decided on it, and nothing but activity changes about the workflows.
   */
  lemma {:induction false} EachDecidesAll(
      s: BreakerState, ws: seq<W.Workflow>, seen: set<string>, types: map<string, TypeHealth>, default: real, now: int)
    requires Sound(s) && now != 0 && DistinctWorkflows(s.wfs) && DecidedFor(s, seen, types, default)
    requires forall w | w in s.wfs :: w.wfType in seen || exists v :: v in ws && v.wfType == w.wfType
    ensures var end := EvaluateEach(s, ws, seen, types, default, now);
            && SameButActive(s.wfs, end.wfs)
            && forall w | w in end.wfs && w.wfType in types :: Decided(end.circuits, w, types[w.wfType], default)
    decreases |ws|
  {
    if ws == [] {
    } else {
      var t := ws[0].wfType;
      assert forall v | v in ws :: v == ws[0] || v in ws[1..];
      if t in seen {
        EachDecidesAll(s, ws[1..], seen, types, default, now);
      } else {
        var mid := OnStored(s, t, types, default, now);
        PassKeepsDecisions(s, t, seen, types, default, now);
        TypesStay(s.wfs, mid.wfs, seen + {t}, ws[1..]);
        EachDecidesAll(mid, ws[1..], seen + {t}, types, default, now);
        SameButActiveJoin(s.wfs, mid.wfs, EvaluateEach(mid, ws[1..], seen + {t}, types, default, now).wfs);
      }
    }
  }

  lemma {:induction false} TypesStay(a: seq<W.Workflow>, b: seq<W.Workflow>, ts: set<string>, ws: seq<W.Workflow>)
    requires SameButActive(a, b)
    requires forall w | w in a :: w.wfType in ts || exists v :: v in ws && v.wfType == w.wfType
    ensures forall w | w in b :: w.wfType in ts || exists v :: v in ws && v.wfType == w.wfType
  {
    forall w | w in b ensures w.wfType in ts || exists v :: v in ws && v.wfType == w.wfType {
      var i :| 0 <= i < |b| && b[i] == w;
      assert a[i] in a && w == a[i].(active := w.active);
    }
  }

  lemma {:induction false} PeriodicPassDecides(s: BreakerState, types: map<string, TypeHealth>, default: real, now: int)
    requires Sound(s) && now != 0 && DistinctWorkflows(s.wfs)
    ensures var end := EvaluateEach(s, W.NewestFirst(s.wfs), {}, types, default, now);
            && SameButActive(s.wfs, end.wfs)
            && forall w | w in end.wfs && w.wfType in types :: Decided(end.circuits, w, types[w.wfType], default)
  {
    W.NewestFirstHolds(s.wfs);
    EachDecidesAll(s, W.NewestFirst(s.wfs), {}, types, default, now);
  }

  /** The first k workflows have been evaluated. */
  ghost predicate UpTo(
      start: BreakerState, ws: seq<W.Workflow>, k: nat, h: TypeHealth, default: real, now: int, s: BreakerState) {
    k <= |ws| && s == EvaluateAll(start, ws[..k], h, default, now)
  }

  lemma {:induction false} EvaluatedOneMore(
      start: BreakerState, ws: seq<W.Workflow>, k: nat, h: TypeHealth, default: real, now: int, s: BreakerState)
    requires k < |ws| && UpTo(start, ws, k, h, default, now, s)
    ensures UpTo(start, ws, k + 1, h, default, now, EvaluateOne(s, ws[k], h, default, now))
  {
    assert ws[..k + 1][..k] == ws[..k];
  }

  /** The rows a pass has already touched keep their ids and thresholds. */
  lemma {:induction false} RowStillThere(
      start: BreakerState, ws: seq<W.Workflow>, k: nat, h: TypeHealth, default: real, now: int, s: BreakerState)
    requires Sound(start) && now != 0 && DistinctWorkflows(start.wfs) && DistinctWorkflows(ws)
    requires k < |ws| && ws[k] in start.wfs && UpTo(start, ws, k, h, default, now, s)
    ensures W.Has(s.wfs, ws[k].id) && Threshold(s.wfs[W.Index(s.wfs, ws[k].id)], default) == Threshold(ws[k], default)
  {
    EvaluateAllDecides(start, ws[..k], h, default, now);
    var i :| 0 <= i < |start.wfs| && start.wfs[i] == ws[k];
    assert s.wfs[i].id == ws[k].id;
    var j := W.Index(s.wfs, ws[k].id);
    assert j <= i;
    assert start.wfs[j].id == s.wfs[j].id;
  }

  class HealthMonitoringService {
    const runs: RunRepo
    const results: ResultRepo
    const bans: BanRepo
    const health: HealthStore.HealthRepo
    const breaker: CircuitBreakerService
    const window: int

    constructor (
        runs: RunRepo, results: ResultRepo, bans: BanRepo, health: HealthStore.HealthRepo,
        breaker: CircuitBreakerService, window: int)
      ensures this.runs == runs && this.results == results && this.bans == bans && this.health == health
      ensures this.breaker == breaker && this.window == (if window <= 0 then 10 else window)
    {
      this.runs := runs;
      this.results := results;
      this.bans := bans;
      this.health := health;
      this.breaker := breaker;
      this.window := if window <= 0 then 10 else window;
    }

    ghost predicate Wired()
      reads breaker.workflows, breaker.circuits, breaker.alerts
    {
      breaker.health == health && window > 0 && Sound(breaker.State()) && DistinctWorkflows(breaker.workflows.rows)
    }

    ghost function Settings(): Config {
      Config(window, breaker.default)
    }

    ghost function State(): Monitor
      reads runs, results, health, breaker.workflows, breaker.circuits, breaker.alerts
    {
      Monitor(results.rows, runs.tables, health.rows, health.types, breaker.State())
    }

    /** Save the result, then recalculate its run; the first answer of a client stands. */
    method HandleResult(r: ClientResult, now: int)
      requires Wired() && now != 0
      modifies runs, results, health, breaker.workflows, breaker.circuits, breaker.alerts
      ensures Wired()
      ensures State() == OnResult(old(State()), r, bans.rows, Settings(), now)
    {
      if !r.IsValid() {
        return;
      }
      results.SaveResult(r);
      var _ := CalculateRunHealth(r.runID, now);
    }

    method CalculateRunHealth(runID: string, now: int) returns (found: bool)
      requires Wired() && now != 0
      modifies runs, health, breaker.workflows, breaker.circuits, breaker.alerts
      ensures Wired()
      ensures var i := Position(old(runs.tables.runs), runID);
              && found == (i < |old(runs.tables.runs)|)
              && State() == if found
                            then Recalculated(old(State()), old(runs.tables.runs[i]), bans.rows, Settings(), now)
                            else old(State())
    {
      var got := runs.GetRun(runID);
      if got.Err? {
        return false;
      }
      var run := got.value;
      assert run.id == runID;
      var answers := results.GetRunResults(runID);
      var bannedCount := CountBanned(run, now);
      var h := RH.CalculateRunHealth(run.id, run.wfID, run.wfType, |run.participants|, answers, bannedCount, now);
      Absorb(run, h, now);
      return true;
    }

    /** Participants with an active ban from exactly the run's type. */
    method CountBanned(run: Run, now: int) returns (bannedCount: int)
      ensures bannedCount == CountIn(run.participants, BannedFrom(bans.rows, run.wfType, now))
    {
      var bannedClients := bans.GetActiveBansByWorkflowType(run.wfType, now);
      var banSet: set<string> := {};
      for k := 0 to |bannedClients|
        invariant banSet == set i | 0 <= i < k :: bannedClients[i].client
      {
        banSet := banSet + {bannedClients[k].client};
      }
      MatchingHolds(bans.rows, ActiveFor(run.wfType, now));
      BanSetIs(bans.rows, bannedClients, run.wfType, now);
      bannedCount := 0;
      for k := 0 to |run.participants|
        invariant bannedCount == CountIn(run.participants[..k], banSet)
      {
        assert run.participants[..k + 1][..k] == run.participants[..k];
        if run.participants[k] in banSet {
          bannedCount := bannedCount + 1;
        }
      }
      assert run.participants[..|run.participants|] == run.participants;
    }

    /** The tail of CalculateRunHealth: store, aggregate, publish health.updated, close the run. */
    method Absorb(run: Run, h: RunHealth, now: int)
      requires Wired() && now != 0
      modifies runs, health, breaker.workflows, breaker.circuits, breaker.alerts
      ensures Wired()
      ensures State() == Absorbed(old(State()), run, h, Settings(), now)
    {
      health.SaveRunHealth(h);
      var typeHealth := AggregateWorkflowTypeHealth(run.wfType);
      breaker.EvaluateWorkflowType(run.wfType, Some(typeHealth), now);
      if h.IsComplete() && !run.state.RunCompleted? {
        var _ := runs.UpdateRun(run.(state := RunCompleted));
      }
    }

    method AggregateWorkflowTypeHealth(wfType: string) returns (out: TypeHealth)
      requires window > 0
      modifies health
      ensures health.rows == old(health.rows)
      ensures out == Aggregate(wfType, Listed(health.rows, wfType, window), window)
      ensures health.types == old(health.types)[wfType := out]
    {
      var rows := health.ListRunHealths(wfType, window);
      out := AggregateWorkflowHealth(wfType, rows, window);
      health.SaveWorkflowTypeHealth(out);
    }
  }

  lemma {:induction false} BanSetIs(rows: seq<Bans.BanRecord>, listed: seq<Bans.BanRecord>, wfType: string, now: int)
    requires forall b :: b in listed <==> b in rows && b.wfType == wfType && b.IsActive(now)
    ensures (set i | 0 <= i < |listed| :: listed[i].client) == BannedFrom(rows, wfType, now)
  {
    var ours := set i | 0 <= i < |listed| :: listed[i].client;
    forall c ensures c in ours <==> c in BannedFrom(rows, wfType, now) {
      if c in ours {
        var i :| 0 <= i < |listed| && listed[i].client == c;
        assert listed[i] in listed;
      }
      if c in BannedFrom(rows, wfType, now) {
        var b :| b in rows && b.wfType == wfType && b.IsActive(now) && b.client == c;
        assert b in listed;
      }
    }
  }
}
