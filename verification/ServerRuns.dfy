/**
 * Whole runs of the server: any interleaving of definitions, registrations, triggers with their
 * cascades, client results (loop detection, then health, then the circuit breaker), periodic
 * jobs, bans, unbans, database failures and restarts.
 *
 * The log records, in order, every message sent and every ban made or lifted. Every step keeps the
 * invariant from which ServerSafety draws its results.
 */
module ServerRuns {
  import opened Sequences
  import opened Bans
  import opened Runs
  import opened Results
  import opened Dispatching
  import opened Cascade
  import opened CascadeRuns
  import opened DispatchLog
  import W = Workflows
  import FilterSyntax
  import FilterEval
  import Grouping
  import Clients
  import LoopDetection
  import HP = HealthPipeline
  import CB = CircuitBreaker
  import BR = BreakerRuns
  import BanService
  import RunHealth
  import TypeHealth

  /** Results, run health, type health, circuits and the alerts of the breaker. */
  datatype Health = Health(
    results: seq<ClientResult>, rows: seq<RunHealth.RunHealth>, types: map<string, TypeHealth.TypeHealth>,
    circuits: CB.Circuits, alerts: seq<BanService.Alert>)

  datatype Server = Server(
    wfs: seq<W.Workflow>, clients: seq<FilterEval.Client>, bans: BanState, books: Ledger, health: Health,
        log: seq<Event>)

  /** What does not change while the server runs: library behaviour, the supply of run ids, the health settings. */
  datatype Setting = Setting(rt: FilterSyntax.Runtime, mint: nat -> string, cfg: HP.Config)

  datatype ServerOp =
    | Define(change: W.WorkflowOp)
    | Register(client: FilterEval.Client)
    | Fire(id: string, reason: string, net: Net, now: int)
    | Report(result: ClientResult, now: int, dbFails: bool)
    | Aggregate(wfType: string)
    | Evaluate(wfType: string, now: int)
    | ChangeBans(op: BanOp)

  ghost predicate SoundSetting(setting: Setting) {
    && (forall k: nat :: setting.mint(k) != "")
    && (forall j: nat, k: nat | j != k :: setting.mint(j) != setting.mint(k))
  }

  ghost predicate Permitted(s: Server, op: ServerOp) {
    match op
    case Define(change) => W.Allowed(s.wfs, change)
    case Report(_, now, _) => now != 0
    case Evaluate(_, now) => now != 0
    case ChangeBans(op) => Issued(op) && !op.Insert?
    case _ => true
  }

  /** What the broker's log gained. */
  function Beyond(earlier: seq<Dispatch>, later: seq<Dispatch>): seq<Dispatch> {
    if |earlier| <= |later| then later[|earlier|..] else []
  }

  /** The ban changes an operation makes visible. */
  function BanEvents(st: BanState, op: BanOp): seq<Event> {
    match op
    case Ban(b, fails) => if fails then [] else [Barred(b.client, b.wfType)]
    case Unban(c, t, fails) => if fails || !HasActiveFlag(st.table, c, t) then [] else [Lifted(c, t)]
    case _ => []
  }

  ghost function WorldOf(setting: Setting, s: Server, net: Net, now: int): World {
    World(setting.rt, s.wfs, s.clients, s.bans, now, setting.mint, net)
  }

  function MonitorOf(s: Server): HP.Monitor {
    HP.Monitor(
      s.health.results, s.books.tables, s.health.rows, s.health.types,
      CB.BreakerState(s.wfs, s.health.circuits, s.health.alerts))
  }

  function WithMonitor(s: Server, m: HP.Monitor): Server {
    s.(wfs := m.breaker.wfs, books := s.books.(tables := m.tables),
       health := Health(m.results, m.rows, m.types, m.breaker.circuits, m.breaker.alerts))
  }

  ghost function Changed(s: Server, op: BanOp): Server {
    s.(bans := Apply(s.bans, op), log := s.log + BanEvents(s.bans, op))
  }

  /** A trigger with its whole cascade. */
  ghost function Fired(setting: Setting, s: Server, id: string, reason: string, net: Net, now: int): Server
    requires W.Ranked(s.wfs)
  {
    var i := W.Index(s.wfs, id);
    if i == |s.wfs| then s
    else
      var books := Trigger(WorldOf(setting, s, net, now), s.books, i, reason).0;
      s.(books := books, log := s.log + AsEvents(Beyond(s.books.sent, books.sent)))
  }

  /** The first handler of a well-formed result overwrites the row of its client. */
  function Seen(s: Server, r: ClientResult): Server {
    if r.IsValid() then s.(clients := Clients.SeenIn(s.clients, r)) else s
  }

  /** The second one is loop detection. */
  ghost function Judged(s: Server, r: ClientResult, now: int, dbFails: bool): Server {
    if LoopDetection.Convicts(s.wfs, s.books.tables, r)
    then Changed(s, Ban(LoopDetection.LoopBan(s.wfs, r, now), dbFails))
    else s
  }

  /** The third one is health monitoring. */
  function Monitored(setting: Setting, s: Server, r: ClientResult, now: int): Server {
    WithMonitor(s, HP.OnResult(MonitorOf(s), r, s.bans.table, setting.cfg, now))
  }

  /** A result passes through the three handlers by priority. */
  ghost function Reported(setting: Setting, s: Server, r: ClientResult, now: int, dbFails: bool): Server {
    Monitored(setting, Judged(Seen(s, r), r, now, dbFails), r, now)
  }

  ghost function Step(setting: Setting, s: Server, op: ServerOp): Server
    requires W.Ranked(s.wfs)
  {
    match op
    case Define(change) => s.(wfs := W.Perform(s.wfs, change))
    case Register(client) => s.(clients := Clients.Registered(s.clients, client))
    case Fire(id, reason, net, now) => Fired(setting, s, id, reason, net, now)
    case Report(r, now, dbFails) => Reported(setting, s, r, now, dbFails)
    case Aggregate(t) => WithMonitor(s, HP.Reaggregated(MonitorOf(s), t, setting.cfg))
    case Evaluate(t, now) => WithMonitor(s, HP.Reevaluated(MonitorOf(s), t, setting.cfg, now))
    case ChangeBans(op) => Changed(s, op)
  }

  const START := Server([], [], FRESH, Ledger(RunTables([], {}), [], 0), Health([], [], map[], map[], []), [])

  /** The states a permitted run can pass through. */
  ghost predicate RunsTo(setting: Setting, s: Server, ops: seq<ServerOp>, end: Server): (runs: bool)
    requires W.Ranked(s.wfs)
    ensures runs ==> W.Ranked(end.wfs)
    decreases |ops|
  {
    if ops == [] then s == end
    else
      && Permitted(s, ops[0])
      && (StepKeepsRanked(setting, s, ops[0]);
          RunsTo(setting, Step(setting, s, ops[0]), ops[1..], end))
  }

  lemma {:induction false} StepKeepsRanked(setting: Setting, s: Server, op: ServerOp)
    requires W.Ranked(s.wfs) && Permitted(s, op)
    ensures W.Ranked(Step(setting, s, op).wfs)
  {
    match op
    case Define(change) => W.RankedStep(s.wfs, change);
    case Report(r, now, dbFails) =>
      var judged := Judged(Seen(s, r), r, now, dbFails);
      HP.ResultFrame(MonitorOf(judged), r, judged.bans.table, setting.cfg, now);
      BR.RankedByState(s.wfs, Step(setting, s, op).wfs);
    case Evaluate(t, now) =>
      EvaluationFrame(setting, s, t, now);
      BR.RankedByState(s.wfs, Step(setting, s, op).wfs);
    case _ =>
  }

  lemma {:induction false} EvaluationFrame(setting: Setting, s: Server, t: string, now: int)
    ensures var end := HP.Reevaluated(MonitorOf(s), t, setting.cfg, now);
            && CB.SameButActive(s.wfs, end.breaker.wfs)
            && (CB.Sound(MonitorOf(s).breaker) && now != 0 ==> CB.Sound(end.breaker))
  {
    if t in s.health.types {
      var b, ws, h := MonitorOf(s).breaker, W.OfType(s.wfs, t), s.health.types[t];
      CB.EvaluateAllKeepsRows(b, ws, h, setting.cfg.threshold, now);
      if CB.Sound(b) && now != 0 {
        CB.EvaluateAllIsSound(b, ws, h, setting.cfg.threshold, now);
      }
    }
  }

  // ---------------------------------------------------------------- the invariant

  ghost predicate Invariant(setting: Setting, s: Server) {
    && W.Ranked(s.wfs)
    && Grouping.DistinctIDs(s.clients)
    && CacheIsExact(s.bans)
    && DrawnFrom(setting.mint, s.books)
    && CB.Sound(MonitorOf(s).breaker)
    && (forall c, t :: InForce(s.log, c, t) <==> HasActiveFlag(s.bans.table, c, t))
    && Safe(s.log)
    && Keyed(s.books.tables)
    && Sends(s.log) == AsEvents(s.books.sent)
  }

  lemma {:induction false} BanEventsFollowTable(setting: Setting, s: Server, op: BanOp)
    requires Invariant(setting, s) && Issued(op) && !op.Insert?
    ensures Invariant(setting, Changed(s, op))
  {
    ExactStep(s.bans, op);
    var end := Changed(s, op);
    var es := BanEvents(s.bans, op);
    if es == [] {
      assert s.log + es == s.log;
    } else {
      SafeAfter(s.log, es[0]);
      SendsAfter(s.log, es[0]);
    }
    forall c, t ensures InForce(end.log, c, t) <==> HasActiveFlag(end.bans.table, c, t) {
      if es != [] {
        InForceAfter(s.log, es[0], c, t);
      }
      match op
      case Ban(b, _) => HasActiveFlagGrows(s.bans.table, b, c, t);
      case Unban(client, wfType, _) => HasActiveFlagCleared(s.bans.table, client, wfType, c, t);
      case Restart(_) =>
    }
  }

  lemma {:induction false} ClearedIsNotInForce(setting: Setting, s: Server, now: int, ds: seq<Dispatch>)
    requires Invariant(setting, s) && forall d | d in ds :: !Banned(s.bans, d.client, d.wfType, now)
    ensures forall e | e in AsEvents(ds) ::
              e.Sent? && !InForce(s.log, e.client, e.wfType) && !InForce(s.log, e.client, "")
  {
    var es := AsEvents(ds);
    forall e | e in es ensures e.Sent? && !InForce(s.log, e.client, e.wfType) && !InForce(s.log, e.client, "") {
      var k :| 0 <= k < |es| && es[k] == e;
      assert ds[k] in ds;
      ExactAnswers(s.bans, e.client, e.wfType, now);
    }
  }

  /** Messages to clients that no ban concerns keep the log safe, in step with the broker's. */
  lemma {:induction false} SendingKeepsLog(setting: Setting, s: Server, now: int, ds: seq<Dispatch>)
    requires Invariant(setting, s) && forall d | d in ds :: !Banned(s.bans, d.client, d.wfType, now)
    ensures var log := s.log + AsEvents(ds);
            && Safe(log) && Sends(log) == AsEvents(s.books.sent + ds)
            && forall c, t :: InForce(log, c, t) == InForce(s.log, c, t)
  {
    ClearedIsNotInForce(setting, s, now, ds);
    SendingIsSafe(s.log, AsEvents(ds));
    SendsOfMessages(s.log, ds);
    EventsJoin(s.books.sent, ds);
  }

  lemma {:induction false} BeyondIs(earlier: seq<Dispatch>, later: seq<Dispatch>)
    requires earlier <= later
    ensures Beyond(earlier, later) == later[|earlier|..] && later == earlier + Beyond(earlier, later)
  {
    PrefixAndRest(earlier, later);
  }

  /** What a cascade leaves of the run tables. */
  lemma {:induction false} FiredTables(world: World, led: Ledger, i: nat, reason: string)
    requires Legal(world) && DrawnFrom(world.mint, led) && Keyed(led.tables) && i < |world.wfs|
    ensures var books := Trigger(world, led, i, reason).0;
            DrawnFrom(world.mint, books) && Extends(led.tables, books.tables)
  {
    TriggerIsReplay(world, led, i, reason);
    CascadeExtends(world, led, i, reason);
  }

  /** What it adds to the broker's log. */
  lemma {:induction false} FiredMessages(world: World, led: Ledger, i: nat, reason: string)
    requires Legal(world) && DrawnFrom(world.mint, led) && i < |world.wfs|
    ensures var sent := Trigger(world, led, i, reason).0.sent;
            && sent == led.sent + Beyond(led.sent, sent)
            && forall d | d in Beyond(led.sent, sent) :: !Banned(world.bans, d.client, d.wfType, world.now)
  {
    CascadeSendsToNobodyBanned(world, led, i, reason);
    BeyondIs(led.sent, Trigger(world, led, i, reason).0.sent);
  }

  lemma {:induction false} FiringIsSafe(setting: Setting, s: Server, id: string, reason: string, net: Net, now: int)
    requires SoundSetting(setting) && Invariant(setting, s)
    ensures Invariant(setting, Fired(setting, s, id, reason, net, now))
    ensures Extends(s.books.tables, Fired(setting, s, id, reason, net, now).books.tables)
  {
    var i := W.Index(s.wfs, id);
    if i < |s.wfs| {
      var world := WorldOf(setting, s, net, now);
      FiredTables(world, s.books, i, reason);
      FiredMessages(world, s.books, i, reason);
      SendingKeepsLog(setting, s, now, Beyond(s.books.sent, Trigger(world, s.books, i, reason).0.sent));
    }
  }

  lemma {:induction false} SeeingIsSafe(setting: Setting, s: Server, r: ClientResult)
    requires Invariant(setting, s)
    ensures Invariant(setting, Seen(s, r))
  {
    Clients.SeenKeepsDistinct(s.clients, r);
  }

  lemma {:induction false} JudgingIsSafe(setting: Setting, s: Server, r: ClientResult, now: int, dbFails: bool)
    requires Invariant(setting, s)
    ensures Invariant(setting, Judged(s, r, now, dbFails))
  {
    if LoopDetection.Convicts(s.wfs, s.books.tables, r) {
      BanEventsFollowTable(setting, s, Ban(LoopDetection.LoopBan(s.wfs, r, now), dbFails));
    }
  }

  /** Health monitoring leaves bans, clients and the log alone. */
  lemma {:induction false} MonitoringIsSafe(setting: Setting, s: Server, m: HP.Monitor)
    requires Invariant(setting, s)
    requires SameRuns(s.books.tables, m.tables) && CB.SameButActive(s.wfs, m.breaker.wfs) && CB.Sound(m.breaker)
    ensures Invariant(setting, WithMonitor(s, m))
  {
    BR.RankedByState(s.wfs, m.breaker.wfs);
    forall r | r in m.tables.runs ensures exists k: nat :: k < s.books.minted && r.id == setting.mint(k) {
      var i :| 0 <= i < |m.tables.runs| && m.tables.runs[i] == r;
      assert s.books.tables.runs[i] in s.books.tables.runs && s.books.tables.runs[i].id == r.id;
    }
  }

  lemma {:induction false} ReportingIsSafe(setting: Setting, s: Server, r: ClientResult, now: int, dbFails: bool)
    requires Invariant(setting, s) && now != 0
    ensures Invariant(setting, Reported(setting, s, r, now, dbFails))
  {
    SeeingIsSafe(setting, s, r);
    JudgingIsSafe(setting, Seen(s, r), r, now, dbFails);
    var judged := Judged(Seen(s, r), r, now, dbFails);
    HP.ResultFrame(MonitorOf(judged), r, judged.bans.table, setting.cfg, now);
    MonitoringIsSafe(setting, judged, HP.OnResult(MonitorOf(judged), r, judged.bans.table, setting.cfg, now));
  }

  lemma {:induction false} StepKeepsInvariant(setting: Setting, s: Server, op: ServerOp)
    requires SoundSetting(setting) && Invariant(setting, s) && Permitted(s, op)
    ensures Invariant(setting, Step(setting, s, op))
  {
    match op
    case Define(change) => W.RankedStep(s.wfs, change);
    case Register(client) => Clients.RegisteredKeepsDistinct(s.clients, client);
    case Fire(id, reason, net, now) => FiringIsSafe(setting, s, id, reason, net, now);
    case Report(r, now, dbFails) => ReportingIsSafe(setting, s, r, now, dbFails);
    case Aggregate(t) =>
      MonitoringIsSafe(setting, s, HP.Reaggregated(MonitorOf(s), t, setting.cfg));
    case Evaluate(t, now) =>
      EvaluationFrame(setting, s, t, now);
      MonitoringIsSafe(setting, s, HP.Reevaluated(MonitorOf(s), t, setting.cfg, now));
    case ChangeBans(op) => BanEventsFollowTable(setting, s, op);
  }

  lemma {:induction false} RunsKeepInvariant(setting: Setting, s: Server, ops: seq<ServerOp>, end: Server)
    requires SoundSetting(setting) && Invariant(setting, s) && RunsTo(setting, s, ops, end)
    ensures Invariant(setting, end)
    decreases |ops|
  {
    if ops == [] {
    } else {
      StepKeepsInvariant(setting, s, ops[0]);
      RunsKeepInvariant(setting, Step(setting, s, ops[0]), ops[1..], end);
    }
  }

  lemma {:induction false} LogGrows(setting: Setting, s: Server, op: ServerOp)
    requires W.Ranked(s.wfs)
    ensures s.log <= Step(setting, s, op).log
  {
  }

  lemma {:induction false} RunGrowsLog(setting: Setting, s: Server, ops: seq<ServerOp>, end: Server)
    requires W.Ranked(s.wfs) && RunsTo(setting, s, ops, end)
    ensures s.log <= end.log
    decreases |ops|
  {
    if ops == [] {
    } else {
      LogGrows(setting, s, ops[0]);
      StepKeepsRanked(setting, s, ops[0]);
      RunGrowsLog(setting, Step(setting, s, ops[0]), ops[1..], end);
    }
  }

  lemma {:induction false} RunSplits(setting: Setting, s: Server, op: ServerOp, after: seq<ServerOp>, end: Server)
    requires W.Ranked(s.wfs) && RunsTo(setting, s, [op] + after, end)
    ensures Permitted(s, op) && W.Ranked(Step(setting, s, op).wfs) && RunsTo(setting, Step(setting, s, op), after, end)
  {
    var ops := [op] + after;
    assert ops[0] == op && ops[1..] == after;
    assert RunsTo(setting, s, ops, end);
    StepKeepsRanked(setting, s, op);
  }

  /** A run goes on with another run. */
  lemma {:induction false} RunsJoin(
      setting: Setting, s: Server, ops: seq<ServerOp>, mid: Server, more: seq<ServerOp>, end: Server)
    requires W.Ranked(s.wfs) && RunsTo(setting, s, ops, mid) && RunsTo(setting, mid, more, end)
    ensures RunsTo(setting, s, ops + more, end)
    decreases |ops|
  {
    if ops == [] {
      JoinNothing(more);
    } else {
      StepKeepsRanked(setting, s, ops[0]);
      RunsJoin(setting, Step(setting, s, ops[0]), ops[1..], mid, more, end);
      TailOfJoin(ops, more);
    }
  }

  /** One more operation at the end of a run. */
  lemma {:induction false} RunGoesOn(setting: Setting, s: Server, ops: seq<ServerOp>, mid: Server, op: ServerOp)
    requires W.Ranked(s.wfs) && RunsTo(setting, s, ops, mid) && Permitted(mid, op)
    ensures RunsTo(setting, s, ops + [op], Step(setting, mid, op))
    decreases |ops|
  {
    if ops == [] {
      assert ([op] + [])[1..] == [];
      assert ops + [op] == [op];
    } else {
      StepKeepsRanked(setting, s, ops[0]);
      RunGoesOn(setting, Step(setting, s, ops[0]), ops[1..], mid, op);
      TailOfJoin(ops, [op]);
    }
  }
}
