/**
 * The simulated fleet under chaos: random failures, crippling and drift around every activity.
 * Each random outcome is arbitrary, so what is proved holds for every source of randomness.
 */
module ClientPool {
  import opened Wrappers
  import opened Workflows
  import opened Results
  import opened Activities
  import opened Outbox

  // ---------------------------------------------------------------- one activity

  /** IsCrippledForActivity: the client's cripple mode blocks the activity. */
  predicate Blocks(s: ClientState, kind: ActivityType) {
    s.crippled &&
    match s.mode
    case FailPackageOps => kind.InstallPackage? || kind.UpgradePackage? || kind.RemovePackage?
    case FailConfig => kind.ApplyConfig? || kind.ValidateConfig?
    case Silent => true
    case NotCrippled => false
  }

  const DRIFT_NAMES := ["curl", "wget", "vim", "jq", "htop", "tree", "tmux"]

  ghost predicate Loses(s: ClientState, t: ClientState) {
    exists p :: p in s.packages && t == s.(packages := s.packages - {p})
  }

  /** ApplyDrift: a newer configuration, a surprise package, or one package less if there is one. */
  ghost predicate Drifts(s: ClientState, t: ClientState) {
    || t == s.(configVersion := s.configVersion + 1)
    || (exists k :: 0 <= k < |DRIFT_NAMES| && t == s.(packages := s.packages[DRIFT_NAMES[k] := "drifted"]))
    || Loses(s, t)
    || (s.packages == map[] && t == s)
  }

  /** What the chaos executor may do: block, fail by chance, or execute and perhaps drift. */
  ghost predicate Executes(s: ClientState, a: Activity, t: ClientState, status: Status) {
    if Blocks(s, a.kind) then t == s && status == if s.mode.Silent? then Success else Failure
    else
      || (status == Failure && (t == s || exists m :: m != NotCrippled && t == s.(crippled := true, mode := m)))
      || (var (u, outcome) := ExecuteActivity(a, s); status == outcome && (t == u || Drifts(u, t)))
  }

  /** The random source: its draws come from outside, in order. */
  class ChaosSource {
    const floats: nat -> real
    const ints: nat -> nat
    var drawn: nat

    constructor (floats: nat -> real, ints: nat -> nat)
      ensures this.floats == floats && this.ints == ints && drawn == 0
    {
      this.floats := floats;
      this.ints := ints;
      drawn := 0;
    }

    method Float64() returns (x: real)
      modifies this
      ensures x == floats(old(drawn)) && drawn == old(drawn) + 1
    {
      x := floats(drawn);
      drawn := drawn + 1;
    }

    method Intn(n: nat) returns (k: nat)
      requires n > 0
      modifies this
      ensures k == ints(old(drawn)) % n < n && drawn == old(drawn) + 1
    {
      k := ints(drawn) % n;
      drawn := drawn + 1;
    }
  }

  /**
   * Which of the possible outcomes the draws from n on pick: one in ten fails, three in a hundred
   * of these cripple, and seven and a half in a hundred of the others drift.
   */
  ghost predicate Drawn(
      floats: nat -> real, ints: nat -> nat, n: nat, s: ClientState, a: Activity, t: ClientState, status: Status)
  {
    var (u, outcome) := ExecuteActivity(a, s);
    if floats(n) < 0.10 then
      && status == Failure
      && (floats(n + 1) >= 0.03 ==> t == s)
      && (floats(n + 1) < 0.03 ==>
            t == s.(crippled := true, mode := [FailPackageOps, FailConfig, Silent][ints(n + 2) % 3]))
    else
      status == outcome && if floats(n + 1) < 0.075 then Drifts(u, t) else t == u
  }

  class ChaosExecutor {
    const chaos: ChaosSource

    constructor (chaos: ChaosSource)
      ensures this.chaos == chaos
    {
      this.chaos := chaos;
    }

    method ApplyDrift(s: ClientState) returns (t: ClientState)
      modifies chaos
      ensures Drifts(s, t)
      ensures var choice := chaos.ints(old(chaos.drawn)) % 3;
              && (choice == 0 ==> t == s.(configVersion := s.configVersion + 1))
              && (choice == 1 ==>
                    var k := chaos.ints(old(chaos.drawn) + 1) % |DRIFT_NAMES|;
                    t == s.(packages := s.packages[DRIFT_NAMES[k] := "drifted"]))
              && (choice == 2 ==> if s.packages == map[] then t == s else Loses(s, t))
    {
      t := s;
      var choice := chaos.Intn(3);
      if choice == 0 {
        t := s.(configVersion := s.configVersion + 1);
      } else if choice == 1 {
        var k := chaos.Intn(|DRIFT_NAMES|);
        t := s.(packages := s.packages[DRIFT_NAMES[k] := "drifted"]);
      } else {
        if |s.packages| > 0 {
          SomeKey(s.packages);
          var p :| p in s.packages;
          t := s.(packages := s.packages - {p});
          assert Loses(s, t);
        } else {
          assert s.packages == map[];
        }
      }
    }

    method SelectCrippleMode() returns (m: CrippleMode)
      modifies chaos
      ensures m == [FailPackageOps, FailConfig, Silent][chaos.ints(old(chaos.drawn)) % 3]
    {
      var k := chaos.Intn(3);
      return if k == 0 then FailPackageOps else if k == 1 then FailConfig else Silent;
    }

    method Execute(a: Activity, s: ClientState) returns (t: ClientState, status: Status)
      modifies chaos
      ensures Executes(s, a, t, status)
      ensures Blocks(s, a.kind) ==> chaos.drawn == old(chaos.drawn)
      ensures !Blocks(s, a.kind) ==> Drawn(chaos.floats, chaos.ints, old(chaos.drawn), s, a, t, status)
    {
      if Blocks(s, a.kind) {
        return s, if s.mode.Silent? then Success else Failure;
      }
      var draw := chaos.Float64();
      if draw < 0.10 {
        t := s;
        draw := chaos.Float64();
        if draw < 0.03 {
          var m := SelectCrippleMode();
          t := s.(crippled := true, mode := m);
        }
        return t, Failure;
      }
      var (u, outcome) := ExecuteActivity(a, s);
      t, status := u, outcome;
      draw := chaos.Float64();
      if draw < 0.075 {
        t := ApplyDrift(u);
      }
    }
  }

  /** Which activities a crippled client is kept from, and what it answers then. */
  lemma {:induction false} CrippledAnswers(s: ClientState, a: Activity, t: ClientState, status: Status)
    requires Executes(s, a, t, status) && s.crippled
    ensures s.mode == FailPackageOps && a.kind in [InstallPackage, UpgradePackage, RemovePackage] ==>
              t == s && status == Failure
    ensures s.mode == FailConfig && a.kind in [ApplyConfig, ValidateConfig] ==> t == s && status == Failure
    ensures s.mode == Silent ==> t == s && status == Success
  {
  }

  /** All other activities may go through, on any client. */
  lemma {:induction false} OthersMayPass(s: ClientState, a: Activity)
    requires s.crippled ==>
               && s.mode != Silent
               && (s.mode == FailPackageOps ==> a.kind !in [InstallPackage, UpgradePackage, RemovePackage])
               && (s.mode == FailConfig ==> a.kind !in [ApplyConfig, ValidateConfig])
    ensures Executes(s, a, ExecuteActivity(a, s).0, ExecuteActivity(a, s).1)
  {
  }

  lemma {:induction false} SomeKey(m: map<string, string>)
    requires |m| > 0
    ensures exists p :: p in m
  {
    assert |m.Keys| > 0;
    var p :| p in m.Keys;
  }

  // ---------------------------------------------------------------- the pool

  datatype DispatchMessage = DispatchMessage(runID: string, wfID: string, client: string, activity: Activity)
  {
    predicate IsValid() {
      runID != "" && wfID != "" && client != "" && IsValidActivity(activity.kind)
    }
  }

  datatype Pool = Pool(states: map<string, ClientState>, queue: seq<ResultMessage>)

  datatype PoolError = UnknownClient | InvalidDispatch

  function Queued(queue: seq<ResultMessage>, r: ResultMessage): seq<ResultMessage> {
    if Complete(r) then queue + [r] else queue
  }

  /** One handled dispatch: unknown clients are refused, invalid dispatches answered with an error. */
  ghost predicate Handles(p: Pool, d: DispatchMessage, q: Pool) {
    if d.client !in p.states then q == p
    else if !d.IsValid() then
      q == p.(queue := Queued(p.queue, ResultMessage(d.runID, d.wfID, d.client, Errored, p.states[d.client])))
    else
      exists t, status ::
        && Executes(p.states[d.client], d.activity, t, status)
        && q == Pool(p.states[d.client := t], p.queue + [ResultMessage(d.runID, d.wfID, d.client, status, t)])
  }

  class ClientPoolManager {
    var states: map<string, ClientState>
    const executor: ChaosExecutor
    const collector: ResultCollector

    constructor (executor: ChaosExecutor, collector: ResultCollector, ids: seq<string>)
      ensures this.executor == executor && this.collector == collector
      ensures states == map id | id in ids :: INITIAL
    {
      this.executor := executor;
      this.collector := collector;
      states := map[];
      new;
      for k := 0 to |ids|
        invariant states == map id | id in ids[..k] :: INITIAL
      {
        states := states[ids[k] := INITIAL];
      }
      assert ids[..|ids|] == ids;
    }

    ghost function State(): Pool
      reads this, collector
    {
      Pool(states, collector.pending)
    }

    method HandleDispatch(d: DispatchMessage) returns (error: Option<PoolError>)
      modifies this, executor.chaos, collector
      ensures Handles(old(State()), d, State())
      ensures error == if d.client !in old(states) then Some(UnknownClient)
                       else if !d.IsValid() then Some(InvalidDispatch) else None
    {
      if d.client !in states {
        return Some(UnknownClient);
      }
      var prev := states[d.client];
      if !d.IsValid() {
        var _ := collector.Collect(ResultMessage(d.runID, d.wfID, d.client, Errored, prev));
        return Some(InvalidDispatch);
      }
      var t, status := executor.Execute(d.activity, prev);
      states := states[d.client := t];
      var _ := collector.Collect(ResultMessage(d.runID, d.wfID, d.client, status, t));
      return None;
    }
  }

  // ---------------------------------------------------------------- runs of the pool

  /** The pools a sequence of dispatches passes through, first to last. */
  ghost predicate IsRun(pools: seq<Pool>, ds: seq<DispatchMessage>) {
    |pools| == |ds| + 1 && forall i | 0 <= i < |ds| :: Handles(pools[i], ds[i], pools[i + 1])
  }

  ghost predicate FreshPool(p: Pool) {
    p.queue == [] && forall c | c in p.states :: p.states[c] == INITIAL
  }

  /** Crippled if and only if there is a cripple mode. */
  ghost predicate Consistent(p: Pool) {
    forall c | c in p.states :: p.states[c].crippled <==> p.states[c].mode != NotCrippled
  }

  lemma {:induction false} CrippledIffMode(pools: seq<Pool>, ds: seq<DispatchMessage>, n: nat)
    requires IsRun(pools, ds) && FreshPool(pools[0]) && n < |pools|
    ensures Consistent(pools[n])
  {
    if n == 0 {
    } else {
      CrippledIffMode(pools, ds, n - 1);
      HandlesKeepsConsistent(pools[n - 1], ds[n - 1], pools[n]);
    }
  }

  lemma {:induction false} HandlesKeepsConsistent(p: Pool, d: DispatchMessage, q: Pool)
    requires Consistent(p) && Handles(p, d, q)
    ensures Consistent(q)
  {
    if d.client in p.states && d.IsValid() {
      var t, status :| Executes(p.states[d.client], d.activity, t, status)
        && q == Pool(p.states[d.client := t], p.queue + [ResultMessage(d.runID, d.wfID, d.client, status, t)]);
      ExecutionKeepsModes(p.states[d.client], d.activity, t, status);
    }
  }

  /** A mode appears only with a failure, and disappears only with a successful reboot. */
  lemma {:induction false} ExecutionKeepsModes(s: ClientState, a: Activity, t: ClientState, status: Status)
    requires Executes(s, a, t, status) && (s.crippled <==> s.mode != NotCrippled)
    ensures t.crippled <==> t.mode != NotCrippled
    ensures s.mode == NotCrippled && t.mode != NotCrippled ==> status == Failure
    ensures s.mode != NotCrippled && t.mode == NotCrippled ==> a.kind.Reboot? && status == Success
  {
    OnlySuccessChanges(a, s);
  }

  /** A silent client claims success for every valid activity, reboots included, and never changes again. */
  lemma {:induction false} SilentIsForever(pools: seq<Pool>, ds: seq<DispatchMessage>, c: string, i: nat, j: nat)
    requires IsRun(pools, ds) && FreshPool(pools[0]) && i <= j < |pools|
    requires c in pools[i].states && pools[i].states[c].mode == Silent
    ensures c in pools[j].states && pools[j].states[c] == pools[i].states[c]
    ensures j < |ds| && ds[j].client == c && ds[j].IsValid() ==>
              pools[j + 1].queue == pools[j].queue
                  + [ResultMessage(ds[j].runID, ds[j].wfID, c, Success, pools[i].states[c])]
    decreases j
  {
    CrippledIffMode(pools, ds, i);
    if i < j {
      SilentIsForever(pools, ds, c, i, j - 1);
      assert Handles(pools[j - 1], ds[j - 1], pools[j]);
    }
    if j < |ds| {
      assert Handles(pools[j], ds[j], pools[j + 1]);
    }
  }

  /**
   * A dispatch of an unknown activity, or without ids, changes no state; a client that is known
   * answers it with an error, which is queued unless an id is missing.
   */
  lemma {:induction false} InvalidIsAnswered(p: Pool, d: DispatchMessage, q: Pool)
    requires Handles(p, d, q) && (d.runID == "" || d.wfID == "" || d.client == "" || d.activity.kind.UnknownActivity?)
    ensures q.states == p.states
    ensures d.client in p.states && d.runID != "" && d.wfID != "" && d.client != "" ==>
              q.queue == p.queue + [ResultMessage(d.runID, d.wfID, d.client, Errored, p.states[d.client])]
    ensures d.client !in p.states || d.runID == "" || d.wfID == "" || d.client == "" ==> q.queue == p.queue
  {
  }

  /** Every result is queued with exactly the state then stored for its client. */
  lemma {:induction false} ReportsCarryState(pools: seq<Pool>, ds: seq<DispatchMessage>, j: nat)
    requires IsRun(pools, ds) && j < |ds|
    ensures pools[j].queue <= pools[j + 1].queue && |pools[j + 1].queue| <= |pools[j].queue| + 1
    ensures |pools[j + 1].queue| > |pools[j].queue| ==>
              var r := pools[j + 1].queue[|pools[j].queue|];
              r.client == ds[j].client && r.client in pools[j + 1].states && r.state == pools[j + 1].states[r.client]
    ensures forall c | c in pools[j].states && c != ds[j].client ::
              c in pools[j + 1].states && pools[j + 1].states[c] == pools[j].states[c]
  {
    assert Handles(pools[j], ds[j], pools[j + 1]);
  }
}
