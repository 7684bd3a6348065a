/**
 * A run of the server that completes a run too early: loop detection bans a client for the very
 * answer that health monitoring then counts, and another client's answer is no longer waited for.
 */
module EarlyCompletion {
  import opened Sequences
  import opened Wrappers
  import opened Bans
  import opened Runs
  import opened Results
  import opened Dispatching
  import opened Cascade
  import opened CascadeRuns
  import opened ServerRuns
  import opened ServerSafety
  import W = Workflows
  import HP = HealthPipeline
  import RH = RunHealth
  import Clients
  import FilterEval
  import Grouping
  import LoopDetection

  const REQUEST := W.CreateRequest(
    "w", "t", W.Reboot, "", W.TriggerSpec(W.ManualTrigger, "", ""), 0.0, 0, 0, None)

  const W0 := W.Workflow(
    "w", "w", "t", W.Reboot, "", W.TriggerSpec(W.ManualTrigger, "", ""), 80.0, 5000, 30000, true)

  const A := FilterEval.Client("a", "ubuntu", map[], map[], true)
  const B := FilterEval.Client("b", "ubuntu", map[], map[], true)

  function TakesAll(): Net {
    (_, _) => true
  }

  /** One workflow, two active clients, no bans. */
  ghost predicate Staged(setting: Setting, s: Server) {
    Invariant(setting, s) && s.wfs == [W0] && s.clients == [A, B] && s.bans == FRESH
  }

  lemma {:induction false} StageIsReached(setting: Setting) returns (ops: seq<ServerOp>, s: Server)
    requires SoundSetting(setting)
    ensures RunsTo(setting, START, ops, s) && Staged(setting, s)
    ensures s.books == START.books && s.health == START.health
  {
    var op0, op1, op2 := Define(W.Create(REQUEST, "w")), Register(A), Register(B);
    var s1 := Step(setting, START, op0);
    assert W.NewWorkflow(REQUEST, "w") == Ok(W0);
    assert s1 == START.(wfs := [W0]);
    StartIsGood(setting);
    RunGoesOn(setting, START, [], START, op0);
    var s2 := Step(setting, s1, op1);
    RunGoesOn(setting, START, [] + [op0], s1, op1);
    assert s2 == s1.(clients := [A]);
    s := Step(setting, s2, op2);
    RunGoesOn(setting, START, [] + [op0] + [op1], s2, op2);
    RegisterSecond();
    ops := [] + [op0] + [op1] + [op2];
    RunsKeepInvariant(setting, START, ops, s);
  }

  lemma {:induction false} RegisterSecond()
    ensures Clients.Registered([A], B) == [A, B]
  {
    assert Clients.Place([A], "b") == 1;
  }

  lemma {:induction false} BothAreTargeted(setting: Setting, s: Server, now: int)
    requires Staged(setting, s)
    ensures Targets(WorldOf(setting, s, TakesAll(), now), W0) == Ok(["a", "b"])
  {
    assert [A, B][..1] == [A] && [A][..0] == [];
    assert Grouping.ActiveIDs([A]) == ["a"];
    assert Grouping.ActiveIDs([A, B]) == ["a", "b"];
  }

  lemma {:induction false} NobodyIsWithheld(now: int)
    ensures Admitted(FRESH, "t", now, ["a", "b"]) == ["a", "b"]
  {
    assert ["a", "b"][..1] == ["a"] && ["a"][..0] == [];
    assert Admitted(FRESH, "t", now, ["a"]) == ["a"];
  }

  /** Everybody is targeted and everybody is reached. */
  lemma {:induction false} BothAreCleared(setting: Setting, s: Server, now: int)
    requires Staged(setting, s)
    ensures var world := WorldOf(setting, s, TakesAll(), now);
            && Starts(world, W0) && Targets(world, W0) == Ok(["a", "b"]) && CascadeRuns.Cleared(world, W0) == ["a", "b"]
            && Delivers(world, W0)
  {
    BothAreTargeted(setting, s, now);
    NobodyIsWithheld(now);
    ReachedIs(TakesAll(), "w", ["a", "b"], 2);
    assert ["a", "b"][..2] == ["a", "b"];
  }

  /** The k-th run of the workflow, on its way to both clients. */
  function Sent(setting: Setting, k: nat, now: int): Run {
    Run(setting.mint(k), "w", "t", now, Some(now), ["a", "b"], RunInProgress, "")
  }

  /** What one trigger of the workflow leaves of the books. */
  ghost predicate OneMoreRun(setting: Setting, led: Ledger, now: int, end: Ledger) {
    && end.minted == led.minted + 1
    && end.tables.runs == led.tables.runs + [Sent(setting, led.minted, now)]
    && end.tables.listed == led.tables.listed + {(setting.mint(led.minted), "a"), (setting.mint(led.minted), "b")}
  }

  lemma {:induction false} PairListed(id: string, ids: seq<string>)
    requires ids == ["a", "b"]
    ensures (set i | 0 <= i < |ids| :: (id, ids[i])) == {(id, "a"), (id, "b")}
  {
    assert ids[0] == "a" && ids[1] == "b";
  }

  lemma {:induction false} AloneSends(setting: Setting, s: Server, now: int)
    requires SoundSetting(setting) && Staged(setting, s)
    ensures var world := WorldOf(setting, s, TakesAll(), now);
            TriggerAlone(world, s.books, W0, "").1.None?
                && OneMoreRun(setting, s.books, now, TriggerAlone(world, s.books, W0, "").0)
  {
    var world := WorldOf(setting, s, TakesAll(), now);
    BothAreCleared(setting, s, now);
    AloneOutcome(world, s.books, W0, "");
    NeverRefused(world, s.books, W0, "");
    PairListed(setting.mint(s.books.minted), ["a", "b"]);
  }

  lemma {:induction false} FiringSends(setting: Setting, s: Server, now: int)
    requires SoundSetting(setting) && Staged(setting, s)
    ensures var end := Fired(setting, s, "w", "", TakesAll(), now);
            Staged(setting, end) && end.health == s.health && OneMoreRun(setting, s.books, now, end.books)
  {
    var world := WorldOf(setting, s, TakesAll(), now);
    FiringIsSafe(setting, s, "w", "", TakesAll(), now);
    AloneSends(setting, s, now);
    NobodyWaits(world, TriggerAlone(world, s.books, W0, "").0);
  }

  lemma {:induction false} NobodyWaits(world: World, led: Ledger)
    requires W.Ranked(world.wfs) && world.wfs == [W0]
    ensures Completed(world, led, 0, 1) == led
  {
    assert !Waits(W0, "w");
  }

  /** Two runs, one nanosecond apart, both listing a; nothing answered; r is a's answer to the second. */
  ghost predicate Ready(setting: Setting, s: Server, r: ClientResult) {
    && Staged(setting, s) && s.health == START.health
    && s.books.tables.runs == [Sent(setting, 0, 1), Sent(setting, 1, 2)]
    && (setting.mint(0), "a") in s.books.tables.listed
    && r == ClientResult(setting.mint(1), "w", "a", Success, map[], "")
  }

  /** One trigger as a run. */
  lemma {:induction false} FiringIsARun(setting: Setting, s: Server, now: int) returns (end: Server)
    requires SoundSetting(setting) && Staged(setting, s)
    ensures RunsTo(setting, s, [Fire("w", "", TakesAll(), now)], end)
    ensures Staged(setting, end) && end.health == s.health && OneMoreRun(setting, s.books, now, end.books)
  {
    var fire := Fire("w", "", TakesAll(), now);
    end := Step(setting, s, fire);
    FiringSends(setting, s, now);
    RunGoesOn(setting, s, [], s, fire);
    JoinNothing([fire]);
  }

  lemma {:induction false} TwoRunsAreReady(setting: Setting, one: Ledger, two: Ledger)
    requires OneMoreRun(setting, START.books, 1, one) && OneMoreRun(setting, one, 2, two)
    ensures two.tables.runs == [Sent(setting, 0, 1), Sent(setting, 1, 2)] && (setting.mint(0), "a") in two.tables.listed
  {
  }

  /** Two triggers, one after the other. */
  lemma {:induction false} FiringTwice(setting: Setting, s: Server) returns (end: Server)
    requires SoundSetting(setting) && Staged(setting, s) && s.books == START.books && s.health == START.health
    ensures RunsTo(setting, s, [Fire("w", "", TakesAll(), 1)] + [Fire("w", "", TakesAll(), 2)], end)
    ensures Ready(setting, end, ClientResult(setting.mint(1), "w", "a", Success, map[], ""))
  {
    var mid := FiringIsARun(setting, s, 1);
    end := FiringIsARun(setting, mid, 2);
    RunsJoin(setting, s, [Fire("w", "", TakesAll(), 1)], mid, [Fire("w", "", TakesAll(), 2)], end);
    TwoRunsAreReady(setting, mid.books, end.books);
  }

  lemma {:induction false} ReadyIsReached(setting: Setting) returns (ops: seq<ServerOp>, s: Server)
    requires SoundSetting(setting)
    ensures RunsTo(setting, START, ops, s)
    ensures Ready(setting, s, ClientResult(setting.mint(1), "w", "a", Success, map[], ""))
  {
    var setUp, stage := StageIsReached(setting);
    s := FiringTwice(setting, stage);
    var fires := [Fire("w", "", TakesAll(), 1)] + [Fire("w", "", TakesAll(), 2)];
    RunsJoin(setting, START, setUp, stage, fires, s);
    ops := setUp + fires;
  }

  lemma {:induction false} AnswerIsALoop(setting: Setting, s: Server, r: ClientResult)
    requires SoundSetting(setting) && Ready(setting, s, r)
    ensures LoopDetection.Subject(s.wfs, s.books.tables, r) == Some((W0, Sent(setting, 1, 2)))
    ensures LoopDetection.Convicts(s.wfs, s.books.tables, r)
  {
    var t := s.books.tables;
    assert Position(t.runs, r.runID) == 1;
    assert t.runs[0] in t.runs && Earlier(t, t.runs[0], "a", "t", r.runID, 2);
  }

  /** The result closes its run, and convicts its client, while a client that nobody banned has not answered. */
  ghost predicate ClosesEarly(setting: Setting, s: Server, r: ClientResult, now: int) {
    LoopDetection.Convicts(s.wfs, s.books.tables, r) &&
    var end := Reported(setting, s, r, now, false);
    exists i, c :: 0 <= i < |s.books.tables.runs| && i < |end.books.tables.runs|
      && var run := s.books.tables.runs[i];
         && run.id == r.runID && run.state.RunInProgress? && end.books.tables.runs[i] == run.(state := RunCompleted)
         && c in HP.EligibleFor(run, end.bans.table, now) && c !in HP.AnsweredFor(run, end.health.results)
  }

  /** The handlers before health monitoring ban a, and touch nothing that health monitoring reads but the bans. */
  lemma {:induction false} AnswerBans(setting: Setting, s: Server, r: ClientResult)
    requires SoundSetting(setting) && Ready(setting, s, r)
    ensures var judged := Judged(Seen(s, r), r, 3, false);
            && MonitorOf(judged) == MonitorOf(s) && |judged.bans.table| == 1
            && var ban := judged.bans.table[0]; ban.client == "a" && ban.wfType == "t" && ban.IsActive(3)
  {
    AnswerIsALoop(setting, s, r);
  }

  lemma {:induction false} AnswerCloses(setting: Setting, s: Server, r: ClientResult)
    requires SoundSetting(setting) && Ready(setting, s, r)
    ensures ClosesEarly(setting, s, r, 3)
  {
    AnswerIsALoop(setting, s, r);
    AnswerBans(setting, s, r);
    var bans, run := Judged(Seen(s, r), r, 3, false).bans.table, Sent(setting, 1, 2);
    OnlyBIsEligible(run, bans);
    OnlyAAnswered(run, r);
    MonitorCloses(setting, MonitorOf(s), r, bans, run);
    ReportedIsMonitored(setting, s, r);
    BHasNotAnswered(run, r, bans);
  }

  lemma {:induction false} BHasNotAnswered(run: Run, r: ClientResult, bans: seq<BanRecord>)
    requires HP.EligibleFor(run, bans, 3) == {"b"} && HP.AnsweredFor(run, [r]) == {"a"}
    ensures "b" in HP.EligibleFor(run, bans, 3) && "b" !in HP.AnsweredFor(run, [r])
  {
  }

  lemma {:induction false} ReportedIsMonitored(setting: Setting, s: Server, r: ClientResult)
    requires MonitorOf(Judged(Seen(s, r), r, 3, false)) == MonitorOf(s)
    ensures var judged, end := Judged(Seen(s, r), r, 3, false), Reported(setting, s, r, 3, false);
            var m := HP.OnResult(MonitorOf(s), r, judged.bans.table, setting.cfg, 3);
            end.books.tables == m.tables && end.health.results == m.results && end.bans == judged.bans
  {
  }

  lemma {:induction false} MonitorCloses(
      setting: Setting, m: HP.Monitor, r: ClientResult, bans: seq<BanRecord>, run: Run)
    requires Keyed(m.tables) && |m.tables.runs| == 2 && m.tables.runs[1] == run && m.results == []
    requires r.IsValid() && r.runID == run.id && Kept([], r) == [r] && !Repeats(run.participants)
    requires HP.EligibleFor(run, bans, 3) == {"b"} && HP.AnsweredFor(run, [r]) == {"a"}
    ensures var end := HP.OnResult(m, r, bans, setting.cfg, 3);
            |end.tables.runs| == 2 && end.tables.runs[1] == run.(state := RunCompleted) && end.results == [r]
  {
    assert Position(m.tables.runs, r.runID) == 1;
    ASurplusAnswer(run, r, bans);
    HP.ResultClosesExactly(m, r, bans, setting.cfg, 3);
    HP.ResultIsKept(m, r, bans, setting.cfg, 3);
  }

  lemma {:induction false} OnlyBIsEligible(run: Run, bans: seq<BanRecord>)
    requires run.participants == ["a", "b"] && run.wfType == "t"
    requires |bans| == 1 && bans[0].client == "a" && bans[0].wfType == "t" && bans[0].IsActive(3)
    ensures HP.EligibleFor(run, bans, 3) == {"b"} && !Repeats(run.participants)
  {
    assert run.participants[0] == "a" && run.participants[1] == "b";
    assert HP.SetOf(run.participants) == {"a", "b"};
    assert bans[0] in bans;
    assert HP.BannedFrom(bans, "t", 3) == {"a"};
  }

  lemma {:induction false} OnlyAAnswered(run: Run, r: ClientResult)
    requires r.runID == run.id && r.client == "a" && r.status.Success?
    ensures Kept([], r) == [r] && HP.AnsweredFor(run, [r]) == {"a"}
  {
    assert [r][..0] == [];
    assert OfRun([], run.id) + [r] == [r];
    assert OfRun([r], run.id) == [r];
    assert RH.Seen([r]) == map["a" := r.status];
  }

  lemma {:induction false} ASurplusAnswer(run: Run, r: ClientResult, bans: seq<BanRecord>)
    requires HP.EligibleFor(run, bans, 3) == {"b"} && HP.AnsweredFor(run, [r]) == {"a"}
    ensures HP.CountsComplete(run, [r], bans, 3)
  {
    assert {"b"} - {"a"} == {"b"} && {"a"} - {"b"} == {"a"};
  }

  /**
   * The server can reach a state, by its own operations alone, in which a well-formed answer is a
   * loop, bans its client, and closes the run although another client, which nobody banned, has
   * not answered.
   */
  lemma {:induction false} RunCompletesTooEarly(
      setting: Setting) returns (ops: seq<ServerOp>, s: Server, r: ClientResult)
    requires SoundSetting(setting)
    ensures RunsTo(setting, START, ops, s) && Permitted(s, Report(r, 3, false))
    ensures ClosesEarly(setting, s, r, 3)
  {
    ops, s := ReadyIsReached(setting);
    r := ClientResult(setting.mint(1), "w", "a", Success, map[], "");
    AnswerCloses(setting, s, r);
  }
}
