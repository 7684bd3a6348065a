/** The circuit breaker: one circuit per workflow, evaluated on the health of its type. */
module CircuitBreaker {
  import opened Wrappers
  import opened TypeHealth
  import opened BanService
  import opened Workflows

  datatype CircuitState = CircuitClosedState | CircuitOpenState | CircuitHalfOpen

  /** openedAt is zero when the circuit is not open. */
  datatype Circuit = Circuit(wfID: string, wfType: string, state: CircuitState, openedAt: int, evaluations: nat)

  type Circuits = map<string, Circuit>

  function Threshold(w: Workflow, default: real): real {
    if w.successThreshold > 0.0 then w.successThreshold else default
  }

  /** CircuitBreakerLogic.EvaluateHealth. */
  function EvaluateHealth(threshold: real, h: TypeHealth): CircuitState {
    if h.runsConsidered == 0 then CircuitClosedState
    else if h.successAvg >= threshold then CircuitClosedState
    else CircuitOpenState
  }

  function Current(cs: Circuits, w: Workflow): Circuit {
    if w.id in cs then cs[w.id] else Circuit(w.id, w.wfType, CircuitClosedState, 0, 0)
  }

  datatype BreakerState = BreakerState(wfs: seq<Workflow>, circuits: Circuits, alerts: seq<Alert>)

  /** One turn of the evaluation loop. */
  function EvaluateOne(s: BreakerState, w: Workflow, h: TypeHealth, default: real, now: int): BreakerState {
    var next := EvaluateHealth(Threshold(w, default), h);
    var current := Current(s.circuits, w);
    var counted := current.(evaluations := current.evaluations + 1);
    if current.state == next then s.(circuits := s.circuits[counted.wfID := counted])
    else if next == CircuitOpenState then
      BreakerState(
        WithState(s.wfs, w.id, false),
        s.circuits[counted.wfID := counted.(state := next, openedAt := now)],
        s.alerts + [Alert(CircuitOpened, w.id, w.wfType)])
    else
      BreakerState(
        WithState(s.wfs, w.id, true),
        s.circuits[counted.wfID := counted.(state := next, openedAt := 0)],
        s.alerts + [Alert(CircuitClosed, w.id, w.wfType)])
  }

  function EvaluateAll(s: BreakerState, ws: seq<Workflow>, h: TypeHealth, default: real, now: int): BreakerState
    decreases |ws|
  {
    if ws == [] then s
    else EvaluateOne(EvaluateAll(s, ws[..|ws| - 1], h, default, now), ws[|ws| - 1], h, default, now)
  }

  /** EvaluateWorkflowType: every workflow of the type, as listed before the loop starts. */
  function EvaluateType(s: BreakerState, wfType: string, h: TypeHealth, default: real, now: int): BreakerState {
    EvaluateAll(s, OfType(s.wfs, wfType), h, default, now)
  }

  // ---------------------------------------------------------------- what every state satisfies

  predicate IsOpen(cs: Circuits, id: string) {
    id in cs && cs[id].state == CircuitOpenState
  }

  /**
   * The circuit alerts of a workflow so far: Some(b) when they alternate, starting with an opening;
   * b: the last opened it.
   */
  function Phase(alerts: seq<Alert>, id: string): Option<bool> {
    if alerts == [] then Some(false)
    else
      var last := alerts[|alerts| - 1];
      var before := Phase(alerts[..|alerts| - 1], id);
      if last.subject != id then before
      else if last.kind.CircuitOpened? then (if before == Some(false) then Some(true) else None)
      else if last.kind.CircuitClosed? then (if before == Some(true) then Some(false) else None)
      else before
  }

  ghost predicate Sound(s: BreakerState) {
    && (forall id | id in s.circuits ::
          && s.circuits[id].wfID == id
          && !s.circuits[id].state.CircuitHalfOpen?
          && (s.circuits[id].openedAt != 0 <==> s.circuits[id].state.CircuitOpenState?))
    && (forall id :: Phase(s.alerts, id) == Some(IsOpen(s.circuits, id)))
  }

  /** Nobody has switched a workflow by hand: it runs exactly while its circuit is not open. */
  ghost predicate ActiveIffClosed(s: BreakerState) {
    forall i | 0 <= i < |s.wfs| :: s.wfs[i].active <==> !IsOpen(s.circuits, s.wfs[i].id)
  }

  lemma {:induction false} PhaseAfter(alerts: seq<Alert>, a: Alert, id: string)
    ensures Phase(alerts + [a], id)
         == if a.subject != id then Phase(alerts, id)
            else if a.kind.CircuitOpened? then (if Phase(alerts, id) == Some(false) then Some(true) else None)
            else if a.kind.CircuitClosed? then (if Phase(alerts, id) == Some(true) then Some(false) else None)
            else Phase(alerts, id)
  {
    assert (alerts + [a])[..|alerts|] == alerts;
  }

  lemma {:induction false} EvaluateOneIsSound(s: BreakerState, w: Workflow, h: TypeHealth, default: real, now: int)
    requires Sound(s) && now != 0
    ensures Sound(EvaluateOne(s, w, h, default, now))
  {
    var next := EvaluateHealth(Threshold(w, default), h);
    var end := EvaluateOne(s, w, h, default, now);
    assert Current(s.circuits, w).wfID == w.id;
    if Current(s.circuits, w).state != next {
      forall id ensures Phase(end.alerts, id) == Some(IsOpen(end.circuits, id)) {
        var kind := if next == CircuitOpenState then CircuitOpened else CircuitClosed;
        PhaseAfter(s.alerts, Alert(kind, w.id, w.wfType), id);
      }
    }
  }

  lemma {:induction false} EvaluateAllIsSound(
      s: BreakerState, ws: seq<Workflow>, h: TypeHealth, default: real, now: int)
    requires Sound(s) && now != 0
    ensures Sound(EvaluateAll(s, ws, h, default, now))
    decreases |ws|
  {
    if ws == [] {
    } else {
      EvaluateAllIsSound(s, ws[..|ws| - 1], h, default, now);
      EvaluateOneIsSound(EvaluateAll(s, ws[..|ws| - 1], h, default, now), ws[|ws| - 1], h, default, now);
    }
  }

  // ---------------------------------------------------------------- what a pass decides

  /** Rows that differ only in their active flag. */
  ghost predicate SameButActive(a: seq<Workflow>, b: seq<Workflow>) {
    |a| == |b| && forall i | 0 <= i < |a| :: b[i] == a[i].(active := b[i].active)
  }

  /** The circuit of this id is the same in both, or missing from both. */
  predicate SameCircuit(cs: Circuits, ds: Circuits, id: string) {
    (id in ds <==> id in cs) && (id in cs ==> ds[id] == cs[id])
  }

  /** The circuit of w is what a from-scratch decision on the health h makes it. */
  predicate Decided(cs: Circuits, w: Workflow, h: TypeHealth, default: real) {
    w.id in cs && cs[w.id].state == EvaluateHealth(Threshold(w, default), h)
  }

  /** Another workflow's circuit is left alone, and the own one follows the health. */
  lemma {:induction false} EvaluateOneDecides(s: BreakerState, w: Workflow, h: TypeHealth, default: real, now: int)
    requires Sound(s)
    ensures var end := EvaluateOne(s, w, h, default, now);
            && Decided(end.circuits, w, h, default)
            && (forall id | id != w.id :: SameCircuit(s.circuits, end.circuits, id))
            && SameButActive(s.wfs, end.wfs)
  {
  }

  ghost predicate DistinctWorkflows(ws: seq<Workflow>) {
    forall i, j | 0 <= i < j < |ws| :: ws[i].id != ws[j].id
  }

  /** Between the two states, exactly the listed workflows had their circuits decided on h. */
  ghost predicate DecidesExactly(s: BreakerState, ws: seq<Workflow>, h: TypeHealth, default: real, end: BreakerState) {
    && (forall k | 0 <= k < |ws| :: Decided(end.circuits, ws[k], h, default))
    && (forall id | (forall k | 0 <= k < |ws| :: ws[k].id != id) :: SameCircuit(s.circuits, end.circuits, id))
    && SameButActive(s.wfs, end.wfs)
  }

  lemma {:induction false} DecidesOneMore(
      s: BreakerState, ws: seq<Workflow>, mid: BreakerState, w: Workflow, h: TypeHealth, default: real, now: int)
    requires Sound(mid) && DecidesExactly(s, ws, h, default, mid) && DistinctWorkflows(ws + [w])
    ensures DecidesExactly(s, ws + [w], h, default, EvaluateOne(mid, w, h, default, now))
  {
    var all, end := ws + [w], EvaluateOne(mid, w, h, default, now);
    EvaluateOneDecides(mid, w, h, default, now);
    forall k | 0 <= k < |all| ensures Decided(end.circuits, all[k], h, default) {
      if k < |ws| {
        assert all[k] == ws[k] && all[k].id != all[|ws|].id;
        assert SameCircuit(mid.circuits, end.circuits, ws[k].id);
      }
    }
    forall id | forall k | 0 <= k < |all| :: all[k].id != id
      ensures SameCircuit(s.circuits, end.circuits, id)
    {
      assert all[|ws|].id != id;
      assert forall k | 0 <= k < |ws| :: all[k] == ws[k];
      assert SameCircuit(s.circuits, mid.circuits, id) && SameCircuit(mid.circuits, end.circuits, id);
    }
    SameButActiveJoin(s.wfs, mid.wfs, end.wfs);
  }

  lemma {:induction false} SameButActiveJoin(a: seq<Workflow>, b: seq<Workflow>, c: seq<Workflow>)
    requires SameButActive(a, b) && SameButActive(b, c)
    ensures SameButActive(a, c)
  {
    forall i | 0 <= i < |a| ensures c[i] == a[i].(active := c[i].active) {
      assert b[i] == a[i].(active := b[i].active);
    }
  }

  /** Evaluations switch workflows on and off and change nothing else about them. */
  lemma {:induction false} EvaluateAllKeepsRows(
      s: BreakerState, ws: seq<Workflow>, h: TypeHealth, default: real, now: int)
    ensures SameButActive(s.wfs, EvaluateAll(s, ws, h, default, now).wfs)
    decreases |ws|
  {
    if ws == [] {
    } else {
      var mid := EvaluateAll(s, ws[..|ws| - 1], h, default, now);
      EvaluateAllKeepsRows(s, ws[..|ws| - 1], h, default, now);
      SameButActiveJoin(s.wfs, mid.wfs, EvaluateOne(mid, ws[|ws| - 1], h, default, now).wfs);
    }
  }

  lemma {:induction false} EvaluateAllDecides(
      s: BreakerState, ws: seq<Workflow>, h: TypeHealth, default: real, now: int)
    requires Sound(s) && now != 0 && DistinctWorkflows(ws)
    ensures DecidesExactly(s, ws, h, default, EvaluateAll(s, ws, h, default, now))
    decreases |ws|
  {
    if ws == [] {
    } else {
      var init, last := ws[..|ws| - 1], ws[|ws| - 1];
      EvaluateAllDecides(s, init, h, default, now);
      EvaluateAllIsSound(s, init, h, default, now);
      assert init + [last] == ws;
      DecidesOneMore(s, init, EvaluateAll(s, init, h, default, now), last, h, default, now);
    }
  }

  lemma {:induction false} OfTypeLists(wfs: seq<Workflow>, wfType: string)
    requires DistinctWorkflows(wfs)
    ensures DistinctWorkflows(OfType(wfs, wfType))
    ensures forall w :: w in OfType(wfs, wfType) <==> w in wfs && w.wfType == wfType
  {
    if wfs == [] {
    } else {
      var init, last := wfs[..|wfs| - 1], wfs[|wfs| - 1];
      OfTypeLists(init, wfType);
      assert forall w :: w in wfs <==> w in init || w == last;
      assert forall w | w in init :: w.id != last.id;
    }
  }

  /** A pass decides every circuit of its type on the health it is given, and no other circuit. */
  lemma {:induction false} PassDecides(s: BreakerState, wfType: string, h: TypeHealth, default: real, now: int)
    requires Sound(s) && now != 0 && DistinctWorkflows(s.wfs)
    ensures var end := EvaluateType(s, wfType, h, default, now);
            && Sound(end) && DistinctWorkflows(end.wfs) && SameButActive(s.wfs, end.wfs)
            && (forall w | w in end.wfs && w.wfType == wfType :: Decided(end.circuits, w, h, default))
            && (forall w | w in s.wfs && w.wfType != wfType :: SameCircuit(s.circuits, end.circuits, w.id))
  {
    var ws := OfType(s.wfs, wfType);
    var end := EvaluateType(s, wfType, h, default, now);
    OfTypeLists(s.wfs, wfType);
    EvaluateAllIsSound(s, ws, h, default, now);
    EvaluateAllDecides(s, ws, h, default, now);
    ListedAreDecided(s, ws, wfType, h, default, end);
    OthersAreKept(s, ws, wfType, h, default, end);
  }

  lemma {:induction false} ListedAreDecided(
      s: BreakerState, ws: seq<Workflow>, wfType: string, h: TypeHealth, default: real, end: BreakerState)
    requires DecidesExactly(s, ws, h, default, end)
    requires forall w | w in s.wfs && w.wfType == wfType :: w in ws
    ensures forall w | w in end.wfs && w.wfType == wfType :: Decided(end.circuits, w, h, default)
  {
    forall w | w in end.wfs && w.wfType == wfType ensures Decided(end.circuits, w, h, default) {
      var i :| 0 <= i < |end.wfs| && end.wfs[i] == w;
      var v := s.wfs[i];
      assert w == v.(active := w.active) && v in ws;
      var k :| 0 <= k < |ws| && ws[k] == v;
      assert Decided(end.circuits, ws[k], h, default);
    }
  }

  lemma {:induction false} OthersAreKept(
      s: BreakerState, ws: seq<Workflow>, wfType: string, h: TypeHealth, default: real, end: BreakerState)
    requires DecidesExactly(s, ws, h, default, end) && DistinctWorkflows(s.wfs)
    requires forall w | w in ws :: w in s.wfs && w.wfType == wfType
    ensures forall w | w in s.wfs && w.wfType != wfType :: SameCircuit(s.circuits, end.circuits, w.id)
  {
    forall w | w in s.wfs && w.wfType != wfType ensures SameCircuit(s.circuits, end.circuits, w.id) {
      forall k | 0 <= k < |ws| ensures ws[k].id != w.id {
        assert ws[k] in ws && ws[k] != w;
      }
    }
  }

  /** After a pass, whoever demands at least as much as an open workflow of the type is open too. */
  lemma {:induction false} OpenIsUpwardClosed(
      s: BreakerState, wfType: string, h: TypeHealth, default: real, now: int, v: Workflow, w: Workflow)
    requires Sound(s) && now != 0 && DistinctWorkflows(s.wfs)
    requires var end := EvaluateType(s, wfType, h, default, now);
             v in end.wfs && w in end.wfs && v.wfType == wfType && w.wfType == wfType
    requires Threshold(v, default) <= Threshold(w, default)
    ensures var end := EvaluateType(s, wfType, h, default, now);
            IsOpen(end.circuits, v.id) ==> IsOpen(end.circuits, w.id)
  {
    PassDecides(s, wfType, h, default, now);
  }

  // ---------------------------------------------------------------- what a pass does, field by field

  /**
   * After a pass a workflow of the type is open exactly when there are runs to judge by and their
   * success average is below its own threshold, or below the default when it has none of its own.
   */
  lemma {:induction false} PassOpensExactly(
      s: BreakerState, wfType: string, h: TypeHealth, default: real, now: int, w: Workflow)
    requires Sound(s) && now != 0 && DistinctWorkflows(s.wfs)
    requires w in EvaluateType(s, wfType, h, default, now).wfs && w.wfType == wfType
    ensures var cs := EvaluateType(s, wfType, h, default, now).circuits;
            && w.id in cs
            && (w.successThreshold > 0.0 ==>
                  (IsOpen(cs, w.id) <==> h.runsConsidered > 0 && h.successAvg < w.successThreshold))
            && (w.successThreshold <= 0.0 ==>
                  (IsOpen(cs, w.id) <==> h.runsConsidered > 0 && h.successAvg < default))
  {
    PassDecides(s, wfType, h, default, now);
  }

  /** One evaluation more, and open since now, since before, or not at all. */
  predicate Turned(cs: Circuits, ds: Circuits, id: string, now: int) {
    && id in ds && ds[id].wfID == id
    && ds[id].evaluations == (if id in cs then cs[id].evaluations else 0) + 1
    && ds[id].openedAt == if !IsOpen(ds, id) then 0 else if IsOpen(cs, id) then cs[id].openedAt else now
  }

  /** Turns of the workflow's circuit switch it and raise an alert; otherwise nothing else happens. */
  lemma {:induction false} EvaluateOneTurns(s: BreakerState, w: Workflow, h: TypeHealth, default: real, now: int)
    requires Sound(s)
    ensures var end := EvaluateOne(s, w, h, default, now);
            var before, after := IsOpen(s.circuits, w.id), IsOpen(end.circuits, w.id);
            && Turned(s.circuits, end.circuits, w.id, now)
            && (before == after ==> end.wfs == s.wfs && end.alerts == s.alerts)
            && (!before && after ==>
                  end.wfs == WithState(s.wfs, w.id, false)
                  && end.alerts == s.alerts + [Alert(CircuitOpened, w.id, w.wfType)])
            && (before && !after ==>
                  end.wfs == WithState(s.wfs, w.id, true)
                  && end.alerts == s.alerts + [Alert(CircuitClosed, w.id, w.wfType)])
  {
  }

  ghost predicate AllTurned(cs: Circuits, ds: Circuits, ws: seq<Workflow>, now: int) {
    forall k | 0 <= k < |ws| :: Turned(cs, ds, ws[k].id, now)
  }

  lemma {:induction false} EvaluateAllTurns(
      s: BreakerState, ws: seq<Workflow>, h: TypeHealth, default: real, now: int)
    requires Sound(s) && now != 0 && DistinctWorkflows(ws)
    ensures AllTurned(s.circuits, EvaluateAll(s, ws, h, default, now).circuits, ws, now)
    decreases |ws|
  {
    if ws == [] {
    } else {
      var init, last := ws[..|ws| - 1], ws[|ws| - 1];
      EvaluateAllTurns(s, init, h, default, now);
      EvaluateAllIsSound(s, init, h, default, now);
      EvaluateAllDecides(s, init, h, default, now);
      assert init + [last] == ws;
      TurnsOneMore(s, init, EvaluateAll(s, init, h, default, now), last, h, default, now);
    }
  }

  lemma {:induction false} TurnsOneMore(
      s: BreakerState, ws: seq<Workflow>, mid: BreakerState, w: Workflow, h: TypeHealth, default: real, now: int)
    requires Sound(mid) && DecidesExactly(s, ws, h, default, mid) && DistinctWorkflows(ws + [w])
    requires AllTurned(s.circuits, mid.circuits, ws, now)
    ensures AllTurned(s.circuits, EvaluateOne(mid, w, h, default, now).circuits, ws + [w], now)
  {
    var all := ws + [w];
    assert forall k | 0 <= k < |ws| :: all[k] == ws[k] && all[k].id != all[|ws|].id;
    assert SameCircuit(s.circuits, mid.circuits, w.id);
    EvaluateOneTurns(mid, w, h, default, now);
    EvaluateOneDecides(mid, w, h, default, now);
    TurnedStays(s.circuits, mid.circuits, EvaluateOne(mid, w, h, default, now).circuits, ws, w, now);
  }

  lemma {:induction false} TurnedStays(
      cs: Circuits, mid: Circuits, end: Circuits, ws: seq<Workflow>, w: Workflow, now: int)
    requires forall k | 0 <= k < |ws| :: ws[k].id != w.id
    requires AllTurned(cs, mid, ws, now) && SameCircuit(cs, mid, w.id) && Turned(mid, end, w.id, now)
    requires forall id | id != w.id :: SameCircuit(mid, end, id)
    ensures AllTurned(cs, end, ws + [w], now)
  {
    forall k | 0 <= k < |ws| ensures Turned(cs, end, ws[k].id, now) {
      assert SameCircuit(mid, end, ws[k].id);
    }
  }

  /** A pass counts one evaluation for every workflow of the type, and dates the circuits it opens. */
  lemma {:induction false} PassTurns(
      s: BreakerState, wfType: string, h: TypeHealth, default: real, now: int, w: Workflow)
    requires Sound(s) && now != 0 && DistinctWorkflows(s.wfs) && w in s.wfs && w.wfType == wfType
    ensures Turned(s.circuits, EvaluateType(s, wfType, h, default, now).circuits, w.id, now)
  {
    var ws := OfType(s.wfs, wfType);
    OfTypeLists(s.wfs, wfType);
    EvaluateAllTurns(s, ws, h, default, now);
    var k :| 0 <= k < |ws| && ws[k] == w;
  }
}
