/**
 * What a trigger leaves, read off its rows and messages field by field: who is a participant,
 * who was sent what, in which order, and which workflows a cascade reaches.
 */
module TriggerEffects {
  import opened Sequences
  import opened Wrappers
  import opened FilterEval
  import opened FilterText
  import opened Bans
  import opened Workflows
  import opened Runs
  import opened Dispatching
  import opened Cascade
  import opened CascadeRuns
  import opened CascadeOrder
  import Grouping

  // ---------------------------------------------------------------- who is aimed at

  /** An active client of the fleet that the workflow's filter, if it has one, holds of. */
  ghost predicate AimedAt(world: World, w: Workflow, id: string) {
    exists c :: c in world.clients && c.id == id && c.active
      && (w.targetFilter == "" ||
          (var n := Parse(world.rt, w.targetFilter); n.Ok? && Evaluate(world.rt, n.value, c) == Ok(true)))
  }

  /** The workflow is active, and its filter parses and can be evaluated on every active client. */
  ghost predicate CanRun(world: World, w: Workflow) {
    && w.active
    && (w.targetFilter == "" ||
        (var n := Parse(world.rt, w.targetFilter);
         n.Ok? && forall c | c in world.clients && c.active :: Evaluate(world.rt, n.value, c).Ok?))
  }

  lemma {:induction false} TargetsAre(world: World, w: Workflow)
    ensures Starts(world, w) <==> CanRun(world, w)
    ensures Targets(world, w).Ok? ==>
              var ids := Targets(world, w).value;
              Subsequence(ids, Grouping.IDs(world.clients)) && forall id :: id in ids <==> AimedAt(world, w, id)
  {
    if w.targetFilter == "" {
      Grouping.NilSelectsActive(world.rt, world.clients);
      Grouping.SelectsExactly(world.rt, FilterSyntax.Nil, world.clients);
      Grouping.SelectsInOrder(world.rt, FilterSyntax.Nil, world.clients);
      ActiveAreAimedAt(world, w);
    } else if Parse(world.rt, w.targetFilter).Ok? {
      var n := Parse(world.rt, w.targetFilter).value;
      Grouping.SelectsExactly(world.rt, n, world.clients);
      if Targets(world, w).Ok? {
        Grouping.SelectsInOrder(world.rt, n, world.clients);
        MatchesAreAimedAt(world, w);
      }
    }
  }

  lemma {:induction false} ActiveAreAimedAt(world: World, w: Workflow)
    requires w.targetFilter == "" && Targets(world, w).Ok?
    ensures forall id :: id in Targets(world, w).value <==> AimedAt(world, w, id)
  {
    Grouping.NilSelectsActive(world.rt, world.clients);
    Grouping.SelectsExactly(world.rt, FilterSyntax.Nil, world.clients);
    forall c ensures Grouping.Matches(world.rt, FilterSyntax.Nil, c) == c.active {
    }
  }

  lemma {:induction false} MatchesAreAimedAt(world: World, w: Workflow)
    requires w.targetFilter != "" && Targets(world, w).Ok?
    ensures forall id :: id in Targets(world, w).value <==> AimedAt(world, w, id)
  {
    var n := Parse(world.rt, w.targetFilter).value;
    Grouping.SelectsExactly(world.rt, n, world.clients);
    forall id ensures id in Targets(world, w).value <==> AimedAt(world, w, id) {
      if id in Targets(world, w).value {
        var c :| c in world.clients && Grouping.Matches(world.rt, n, c) && c.id == id;
      }
      if AimedAt(world, w, id) {
        var c :| c in world.clients && c.id == id && c.active && Evaluate(world.rt, n, c) == Ok(true);
        assert Grouping.Matches(world.rt, n, c);
      }
    }
  }

  // ---------------------------------------------------------------- the row and the messages of a run

  /** Clients aimed at that no ban keeps out, in the order of the fleet. */
  ghost predicate LetThrough(world: World, w: Workflow, ids: seq<string>) {
    && Subsequence(ids, Grouping.IDs(world.clients))
    && forall id :: id in ids <==> AimedAt(world, w, id) && !Banned(world.bans, id, w.wfType, world.now)
  }

  /** Key, workflow, type, time and reason of the k-th run the server draws. */
  predicate RunOf(world: World, w: Workflow, k: nat, reason: string, r: Run) {
    && r.id == world.mint(k) && r.wfID == w.id && r.wfType == w.wfType
    && r.triggeredAt == world.now && r.reason == reason
  }

  /** In progress since now, with exactly the clients let through. */
  ghost predicate IsDelivered(world: World, w: Workflow, r: Run) {
    && r.state == RunInProgress && r.dispatchedAt == Some(world.now)
    && LetThrough(world, w, r.participants)
  }

  /** Still pending, with everybody aimed at, banned clients included. */
  ghost predicate IsUndelivered(world: World, w: Workflow, r: Run) {
    && r.state == RunPending && r.dispatchedAt == None
    && Subsequence(r.participants, Grouping.IDs(world.clients))
    && forall id :: id in r.participants <==> AimedAt(world, w, id)
  }

  /** The messages carry the run, its workflow and its activity, and go to these clients in order. */
  predicate MessagesTo(w: Workflow, r: Run, ds: seq<Dispatch>, ids: seq<string>) {
    |ds| == |ids| && forall i | 0 <= i < |ds| ::
      ds[i].runID == r.id && ds[i].wfID == w.id && ds[i].wfType == w.wfType && ds[i].activity == w.activity
      && ds[i].client == ids[i]
  }

  /** The broker refuses some client let through; exactly those before the first such one are sent to. */
  ghost predicate StopsEarly(world: World, w: Workflow, r: Run, ds: seq<Dispatch>) {
    exists ids: seq<string> ::
      && LetThrough(world, w, ids) && |ds| < |ids| && MessagesTo(w, r, ds, ids[..|ds|])
      && (forall i | 0 <= i < |ds| :: world.net(w.id, ids[i])) && !world.net(w.id, ids[|ds|])
  }

  /** Either the run is delivered and its messages go to exactly its participants, or it is not. */
  ghost predicate Effects(world: World, w: Workflow, r: Run, ds: seq<Dispatch>) {
    || (&& IsDelivered(world, w, r) && MessagesTo(w, r, ds, r.participants)
        && forall id | id in r.participants :: world.net(w.id, id))
    || (IsUndelivered(world, w, r) && StopsEarly(world, w, r, ds))
  }

  lemma {:induction false} ClearedAre(world: World, w: Workflow)
    requires Starts(world, w)
    ensures LetThrough(world, w, CascadeRuns.Cleared(world, w))
  {
    var ids := Targets(world, w).value;
    TargetsAre(world, w);
    FilterSplits(world.bans, w.wfType, world.now, ids);
    SubsequenceJoin(CascadeRuns.Cleared(world, w), ids, Grouping.IDs(world.clients));
  }

  lemma {:induction false} MessagesAre(world: World, w: Workflow, k: nat, reason: string)
    requires Starts(world, w)
    ensures MessagesTo(w, FinalRun(world, w, k, reason), Messages(world, w, k, reason),
                       Reached(world.net, w.id, CascadeRuns.Cleared(world, w)))
  {
  }

  lemma {:induction false} FinalRunIs(world: World, w: Workflow, k: nat, reason: string)
    requires Starts(world, w)
    ensures var r := FinalRun(world, w, k, reason);
            && RunOf(world, w, k, reason, r)
            && (if Delivers(world, w) then IsDelivered(world, w, r) && r.participants == CascadeRuns.Cleared(world, w)
                else IsUndelivered(world, w, r))
  {
    ClearedAre(world, w);
    TargetsAre(world, w);
  }

  lemma {:induction false} MessagesStop(world: World, w: Workflow, k: nat, reason: string)
    requires Starts(world, w) && !Delivers(world, w)
    ensures StopsEarly(world, w, FinalRun(world, w, k, reason), Messages(world, w, k, reason))
  {
    var ids := CascadeRuns.Cleared(world, w);
    var reached := Reached(world.net, w.id, ids);
    ClearedAre(world, w);
    MessagesAre(world, w, k, reason);
    forall i | 0 <= i < |reached| ensures world.net(w.id, ids[i]) {
      assert reached[i] in reached;
    }
    assert reached == ids[..|reached|];
  }

  lemma {:induction false} RowAndMessages(world: World, w: Workflow, k: nat, reason: string)
    requires Starts(world, w)
    ensures var r := FinalRun(world, w, k, reason);
            RunOf(world, w, k, reason, r) && Effects(world, w, r, Messages(world, w, k, reason))
    ensures FinalRun(world, w, k, reason).state.RunInProgress? <==> Delivers(world, w)
  {
    FinalRunIs(world, w, k, reason);
    MessagesAre(world, w, k, reason);
    if !Delivers(world, w) {
      MessagesStop(world, w, k, reason);
    }
  }

  // ---------------------------------------------------------------- one trigger

  /** The filter does not parse, or fails first on some active client; this is its error. */
  ghost predicate FilterFailsWith(world: World, w: Workflow, e: FilterSyntax.FilterError) {
    && w.targetFilter != ""
    && match Parse(world.rt, w.targetFilter)
       case Err(why) => why == e
       case Ok(n) => exists k: nat :: Grouping.FailsFirstAt(world.rt, n, world.clients, k, e)
  }

  lemma {:induction false} FailureIs(world: World, w: Workflow)
    requires w.active && !CanRun(world, w)
    ensures Targets(world, w).Err? && Targets(world, w).error.FilterFailed?
        && FilterFailsWith(world, w, Targets(world, w).error.e)
  {
    TargetsAre(world, w);
    if Parse(world.rt, w.targetFilter).Ok? {
      var n := Parse(world.rt, w.targetFilter).value;
      Grouping.SelectionFailsFirst(world.rt, n, world.clients, Targets(world, w).error.e);
    }
  }

  /**
   * One trigger without its cascade: an inactive workflow and a failing filter leave everything
   * as it was; any other trigger adds one run row and its messages, and lists everybody aimed at.
   */
  lemma {:induction false} AloneEffects(world: World, led: Ledger, w: Workflow, reason: string)
    requires Legal(world) && Drawn(world, led) && w in world.wfs
    ensures var (after, error) := TriggerAlone(world, led, w, reason);
            && (!w.active ==> after == led && error == Some(Inactive))
            && (w.active && !CanRun(world, w) ==>
                  after == led && error.Some? && error.value.FilterFailed? && FilterFailsWith(world, w, error.value.e))
            && (CanRun(world, w) ==> exists r, ds ::
                  && after.tables.runs == led.tables.runs + [r] && after.sent == led.sent + ds
                  && RunOf(world, w, led.minted, reason, r) && Effects(world, w, r, ds)
                  && (forall p :: p in after.tables.listed
                        <==> p in led.tables.listed || (p.0 == r.id && AimedAt(world, w, p.1)))
                  && error == if r.state.RunInProgress? then None else Some(SendFailed))
  {
    var (after, error) := TriggerAlone(world, led, w, reason);
    TargetsAre(world, w);
    AloneOutcome(world, led, w, reason);
    if w.active && !CanRun(world, w) {
      FailureIs(world, w);
    }
    if CanRun(world, w) {
      var r, ds := FinalRun(world, w, led.minted, reason), Messages(world, w, led.minted, reason);
      RowAndMessages(world, w, led.minted, reason);
      NeverRefused(world, led, w, reason);
      ListedAre(world, led, w, reason);
      assert after.tables.runs == led.tables.runs + [r] && after.sent == led.sent + ds;
    }
  }

  lemma {:induction false} ListedAre(world: World, led: Ledger, w: Workflow, reason: string)
    requires Starts(world, w) && !Refused(led.tables, NewRun(world, w, Targets(world, w).value, led.minted, reason))
    ensures forall p :: p in TriggerAlone(world, led, w, reason).0.tables.listed
                   <==> p in led.tables.listed || (p.0 == world.mint(led.minted) && AimedAt(world, w, p.1))
  {
    TargetsAre(world, w);
    var ids := Targets(world, w).value;
    var after := TriggerAlone(world, led, w, reason).0;
    assert after.tables.listed == led.tables.listed + set i | 0 <= i < |ids| :: (world.mint(led.minted), ids[i]);
  }

  // ---------------------------------------------------------------- a cascade

  /** The messages are those of the runs, run by run, and every row and message is as it should be. */
  ghost predicate Accounts(world: World, rs: seq<Run>, ds: seq<Dispatch>)
    decreases |rs|
  {
    if rs == [] then ds == []
    else exists w, n: nat ::
      && w in world.wfs && n <= |ds| && rs[0].wfID == w.id && Effects(world, w, rs[0], ds[..n])
      && Accounts(world, rs[1..], ds[n..])
  }

  lemma {:induction false} AccountOneMore(
      world: World, w: Workflow, r: Run, first: seq<Dispatch>, rs: seq<Run>, ds: seq<Dispatch>)
    requires w in world.wfs && r.wfID == w.id && Effects(world, w, r, first) && Accounts(world, rs, ds)
    ensures Accounts(world, [r] + rs, first + ds)
  {
    var all, sent := [r] + rs, first + ds;
    assert all[1..] == rs && sent[..|first|] == first && sent[|first|..] == ds;
  }

  lemma {:induction false} NewRunsAccount(world: World, js: seq<nat>, k: nat)
    requires AllStart(world, js)
    ensures Accounts(world, NewRuns(world, js, k), NewMessages(world, js, k))
    decreases |js|
  {
    if js == [] {
    } else {
      var w := world.wfs[js[0]];
      TailStarts(world, js);
      NewRunsAccount(world, js[1..], k + 1);
      RowAndMessages(world, w, k, WaitReason(w));
      AccountOneMore(world, w, FinalRun(world, w, k, WaitReason(w)), Messages(world, w, k, WaitReason(w)),
        NewRuns(world, js[1..], k + 1), NewMessages(world, js[1..], k + 1));
    }
  }

  /** The row of a waiting workflow, as the k-th run. */
  ghost predicate WaitingRun(world: World, w: Workflow, k: nat, r: Run)
    requires Starts(world, w)
  {
    RunOf(world, w, k, "event:" + w.trigger.onComplete, r) && (r.state.RunInProgress? <==> Delivers(world, w))
  }

  ghost predicate AllWaiting(world: World, js: seq<nat>, rs: seq<Run>, k: nat)
    requires AllStart(world, js)
  {
    |rs| == |js| && forall a | 0 <= a < |js| :: WaitingRun(world, world.wfs[js[a]], k + a, rs[a])
  }

  lemma {:induction false} FinalRunWaits(world: World, w: Workflow, k: nat)
    requires Starts(world, w)
    ensures WaitingRun(world, w, k, FinalRun(world, w, k, WaitReason(w)))
  {
    RowAndMessages(world, w, k, WaitReason(w));
  }

  lemma {:induction false} WaitingInFront(world: World, js: seq<nat>, first: Run, rest: seq<Run>, k: nat)
    requires AllStart(world, js) && js != [] && AllStart(world, js[1..])
    requires WaitingRun(world, world.wfs[js[0]], k, first) && AllWaiting(world, js[1..], rest, k + 1)
    ensures AllWaiting(world, js, [first] + rest, k)
  {
    var rs := [first] + rest;
    forall a | 0 <= a < |js| ensures WaitingRun(world, world.wfs[js[a]], k + a, rs[a]) {
      if a > 0 {
        assert js[1..][a - 1] == js[a] && rs[a] == rest[a - 1];
      }
    }
  }

  lemma {:induction false} NewRunsAreWaiting(world: World, js: seq<nat>, k: nat)
    requires AllStart(world, js)
    ensures AllWaiting(world, js, NewRuns(world, js, k), k)
    decreases |js|
  {
    if js == [] {
    } else {
      TailStarts(world, js);
      NewRunsAreWaiting(world, js[1..], k + 1);
      var w := world.wfs[js[0]];
      FinalRunWaits(world, w, k);
      WaitingInFront(world, js, FinalRun(world, w, k, WaitReason(w)), NewRuns(world, js[1..], k + 1), k);
    }
  }

  /** Run a of the cascade, of the row js[a]. */
  ghost predicate RunsInOrder(world: World, js: seq<nat>, rs: seq<Run>, k: nat, reason: string)
    requires AllStart(world, js)
  {
    |rs| == |js| && forall a | 0 <= a < |rs| ::
      var w := world.wfs[js[a]];
      && RunOf(world, w, k + a, if a == 0 then reason else "event:" + w.trigger.onComplete, rs[a])
      && (rs[a].state.RunInProgress? <==> Delivers(world, w))
  }

  lemma {:induction false} CascadeInOrder(world: World, led: Ledger, root: nat, reason: string)
    returns (rs: seq<Run>, ds: seq<Dispatch>)
    requires Legal(world) && Drawn(world, led) && root < |world.wfs|
    ensures Trigger(world, led, root, reason).0.tables.runs == led.tables.runs + rs
    ensures Trigger(world, led, root, reason).0.sent == led.sent + ds
    ensures Accounts(world, rs, ds) && AllStart(world, Order(world, root))
    ensures RunsInOrder(world, Order(world, root), rs, led.minted, reason)
  {
    var js := Order(world, root);
    RootThenRest(world, led, root, reason);
    if js == [] {
      rs, ds := [], [];
      JoinNothing(led.tables.runs);
      JoinNothing(led.sent);
    } else {
      var w, k := world.wfs[root], led.minted + 1;
      var mid := TriggerAlone(world, led, w, reason).0;
      var first, own := FinalRun(world, w, led.minted, reason), Messages(world, w, led.minted, reason);
      var rest, more := NewRuns(world, js[1..], k), NewMessages(world, js[1..], k);
      ReplayAddsRuns(world, mid, js[1..]);
      ReplayAddsMessages(world, mid, js[1..]);
      RowAndMessages(world, w, led.minted, reason);
      NewRunsAccount(world, js[1..], k);
      NewRunsAreWaiting(world, js[1..], k);
      AccountOneMore(world, w, first, own, rest, more);
      Regroup(led.tables.runs, [first], rest);
      Regroup(led.sent, own, more);
      rs, ds := [first] + rest, own + more;
      InOrderFrom(world, js, first, rest, led.minted, reason);
    }
  }

  lemma {:induction false} InOrderFrom(
      world: World, js: seq<nat>, first: Run, rest: seq<Run>, k: nat, reason: string)
    requires AllStart(world, js) && js != [] && |rest| == |js| - 1
    requires RunOf(world, world.wfs[js[0]], k, reason, first)
        && (first.state.RunInProgress? <==> Delivers(world, world.wfs[js[0]]))
    requires AllStart(world, js[1..]) && AllWaiting(world, js[1..], rest, k + 1)
    ensures RunsInOrder(world, js, [first] + rest, k, reason)
  {
    var rs := [first] + rest;
    forall a | 1 <= a < |rs| ensures WaitingRun(world, world.wfs[js[a]], k + a, rs[a]) {
      assert rs[a] == rest[a - 1] && js[a] == js[1..][a - 1];
    }
  }

  ghost predicate HasRun(rs: seq<Run>, w: Workflow) {
    exists r :: r in rs && r.wfID == w.id
  }

  /** A delivered run of the workflow that w waits for. */
  ghost predicate SetOff(rs: seq<Run>, w: Workflow) {
    w.trigger.kind.OnEvent? && exists p :: p in rs && p.state.RunInProgress? && p.wfID == w.trigger.onComplete
  }

  lemma {:induction false} RunsAreReached(
      world: World, root: nat, js: seq<nat>, rs: seq<Run>, k: nat, reason: string, j: nat)
    requires Ranked(world.wfs) && root < |world.wfs| && j < |world.wfs|
    requires js == Order(world, root) && AllStart(world, js) && RunsInOrder(world, js, rs, k, reason)
    ensures HasRun(rs, world.wfs[j]) <==> Started(world, root, j)
    ensures forall r | r in rs && r.wfID == world.wfs[j].id :: r.state.RunInProgress? <==> Delivers(world, world.wfs[j])
  {
    OrderListsStarted(world, root);
    assert StartedIn(world, root, j) <==> j in js;
    if j in js {
      var a :| 0 <= a < |js| && js[a] == j;
      assert rs[a] in rs;
    }
    forall r | r in rs && r.wfID == world.wfs[j].id
      ensures j in js && (r.state.RunInProgress? <==> Delivers(world, world.wfs[j]))
    {
      var a :| 0 <= a < |rs| && rs[a] == r;
      assert js[a] == j;
    }
  }

  /** The workflows a cascade reaches, from their own fields and the runs it adds. */
  lemma {:induction false} ReachedExactly(
      world: World, root: nat, js: seq<nat>, rs: seq<Run>, k: nat, reason: string, j: nat)
    requires Ranked(world.wfs) && root < |world.wfs| && j < |world.wfs|
    requires js == Order(world, root) && AllStart(world, js) && RunsInOrder(world, js, rs, k, reason)
    ensures HasRun(rs, world.wfs[j])
       <==> CanRun(world, world.wfs[j]) && (j == root || SetOff(rs, world.wfs[j]))
  {
    var w := world.wfs[j];
    TargetsAre(world, w);
    RunsAreReached(world, root, js, rs, k, reason, j);
    if Started(world, root, j) && j != root {
      var p :| 0 <= p < j && Waits(w, world.wfs[p].id) && Started(world, root, p) && Delivers(world, world.wfs[p]);
      RunsAreReached(world, root, js, rs, k, reason, p);
      var r :| r in rs && r.wfID == world.wfs[p].id;
      assert r.state.RunInProgress?;
    }
    if CanRun(world, w) && SetOff(rs, w) {
      var r :| r in rs && r.state.RunInProgress? && r.wfID == w.trigger.onComplete;
      var a :| 0 <= a < |rs| && rs[a] == r;
      var p := js[a];
      RunsAreReached(world, root, js, rs, k, reason, p);
      assert Waits(w, world.wfs[p].id) && p < j;
    }
  }

  /**
   * A whole cascade, from the fields of its rows and messages. It adds one run for each workflow
   * that can run and is the triggered one or waits for the workflow of a delivered run, and no
   * second one; the runs are numbered and dated, say what set them off, and follow those they
   * waited for, siblings youngest first; the messages are those of the runs, run by run; and the
   * trigger succeeds if and only if its own run is delivered.
   */
  lemma {:induction false} CascadeEffects(world: World, led: Ledger, root: nat, reason: string)
    returns (rs: seq<Run>, ds: seq<Dispatch>)
    requires Legal(world) && Drawn(world, led) && root < |world.wfs|
    ensures var (after, error) := Trigger(world, led, root, reason);
            && after.tables.runs == led.tables.runs + rs && after.sent == led.sent + ds
            && (error.None? <==> rs != [] && rs[0].state.RunInProgress?)
    ensures Accounts(world, rs, ds)
    ensures rs != [] ==> RunOf(world, world.wfs[root], led.minted, reason, rs[0])
    ensures forall a | 1 <= a < |rs| :: exists w ::
              w in world.wfs && RunOf(world, w, led.minted + a, "event:" + w.trigger.onComplete, rs[a])
    ensures forall j | 0 <= j < |world.wfs| ::
              HasRun(rs, world.wfs[j]) <==> CanRun(world, world.wfs[j]) && (j == root || SetOff(rs, world.wfs[j]))
    ensures forall a, b | 0 <= a < b < |rs| :: rs[a].wfID != rs[b].wfID
    ensures exists js :: WellOrdered(world, js) && |js| == |rs|
                && forall a | 0 <= a < |rs| :: rs[a].wfID == world.wfs[js[a]].id
  {
    rs, ds := CascadeInOrder(world, led, root, reason);
    var js := Order(world, root);
    forall j | 0 <= j < |world.wfs|
      ensures HasRun(rs, world.wfs[j]) <==> CanRun(world, world.wfs[j]) && (j == root || SetOff(rs, world.wfs[j]))
    {
      ReachedExactly(world, root, js, rs, led.minted, reason, j);
    }
    RootThenRest(world, led, root, reason);
    TriggerIsReplay(world, led, root, reason);
    RunsAreNumbered(world, root, js, rs, led.minted, reason);
    OrderIsWellOrdered(world, root);
  }

  lemma {:induction false} RunsAreNumbered(
      world: World, root: nat, js: seq<nat>, rs: seq<Run>, k: nat, reason: string)
    requires Ranked(world.wfs) && root < |world.wfs|
    requires js == Order(world, root) && AllStart(world, js) && RunsInOrder(world, js, rs, k, reason)
    ensures forall a | 1 <= a < |rs| :: exists w ::
              w in world.wfs && RunOf(world, w, k + a, "event:" + w.trigger.onComplete, rs[a])
    ensures forall a, b | 0 <= a < b < |rs| :: rs[a].wfID != rs[b].wfID
  {
    OrderListsStarted(world, root);
    forall a | 1 <= a < |rs|
      ensures exists w :: w in world.wfs && RunOf(world, w, k + a, "event:" + w.trigger.onComplete, rs[a])
    {
      var w := world.wfs[js[a]];
      assert w in world.wfs && RunOf(world, w, k + a, "event:" + w.trigger.onComplete, rs[a]);
    }
  }

  // ---------------------------------------------------------------- who is sent what

  /** The message is of the run: its workflow's activity, for the run's type. */
  ghost predicate Concerns(world: World, d: Dispatch, r: Run) {
    d.runID == r.id && d.wfID == r.wfID
    && exists w :: w in world.wfs && w.id == d.wfID && w.wfType == d.wfType && w.activity == d.activity
  }

  lemma {:induction false} OwnMessages(world: World, w: Workflow, r: Run, ds: seq<Dispatch>)
    requires w in world.wfs && r.wfID == w.id && Effects(world, w, r, ds)
    ensures forall d | d in ds :: Concerns(world, d, r)
    ensures r.state.RunInProgress? ==> forall c :: c in r.participants <==> exists d :: d in ds && d.client == c
  {
    if r.state.RunInProgress? {
      forall c | c in r.participants ensures exists d :: d in ds && d.client == c {
        var i :| 0 <= i < |r.participants| && r.participants[i] == c;
        assert ds[i] in ds && ds[i].client == c;
      }
    }
  }

  /**
   * Every message belongs to one of the runs, and the participants of a delivered run are exactly
   * the clients that were sent a message for it.
   */
  lemma {:induction false} ParticipantsAreSentTo(world: World, rs: seq<Run>, ds: seq<Dispatch>)
    requires Accounts(world, rs, ds) && forall a, b | 0 <= a < b < |rs| :: rs[a].id != rs[b].id
    ensures forall d | d in ds :: exists r :: r in rs && Concerns(world, d, r)
    ensures forall r, c | r in rs && r.state.RunInProgress? ::
              c in r.participants <==> exists d :: d in ds && d.runID == r.id && d.client == c
    decreases |rs|
  {
    if rs == [] {
    } else {
      var w, n: nat :| w in world.wfs && n <= |ds| && rs[0].wfID == w.id && Effects(world, w, rs[0], ds[..n])
        && Accounts(world, rs[1..], ds[n..]);
      assert forall a | 0 <= a < |rs[1..]| :: rs[1..][a] == rs[a + 1];
      ParticipantsAreSentTo(world, rs[1..], ds[n..]);
      OwnMessages(world, w, rs[0], ds[..n]);
      SentByOne(world, rs, ds, n);
    }
  }

  lemma {:induction false} SentByOne(world: World, rs: seq<Run>, ds: seq<Dispatch>, n: nat)
    requires rs != [] && n <= |ds| && forall a, b | 0 <= a < b < |rs| :: rs[a].id != rs[b].id
    requires forall d | d in ds[..n] :: Concerns(world, d, rs[0])
    requires forall d | d in ds[n..] :: exists r :: r in rs[1..] && Concerns(world, d, r)
    requires rs[0].state.RunInProgress? ==>
               forall c :: c in rs[0].participants <==> exists d :: d in ds[..n] && d.client == c
    requires forall r, c | r in rs[1..] && r.state.RunInProgress? ::
               c in r.participants <==> exists d :: d in ds[n..] && d.runID == r.id && d.client == c
    ensures forall d | d in ds :: exists r :: r in rs && Concerns(world, d, r)
    ensures forall r, c | r in rs && r.state.RunInProgress? ::
              c in r.participants <==> exists d :: d in ds && d.runID == r.id && d.client == c
  {
    assert forall d :: d in ds <==> d in ds[..n] || d in ds[n..] by {
      assert ds == ds[..n] + ds[n..];
    }
    assert forall r :: r in rs <==> r == rs[0] || r in rs[1..] by {
      assert rs == [rs[0]] + rs[1..];
    }
    assert forall r | r in rs[1..] :: r.id != rs[0].id;
  }
}
