/** What a whole cascade leaves behind: exactly one run per started workflow, and exactly its messages. */
module CascadeRuns {
  import opened Sequences
  import opened Bans
  import opened Workflows
  import opened Runs
  import opened Dispatching
  import opened Cascade
  import opened CascadeOrder
  import Grouping

  // ---------------------------------------------------------------- one workflow alone

  ghost function Cleared(world: World, w: Workflow): seq<string>
    requires Starts(world, w)
  {
    Admitted(world.bans, w.wfType, world.now, Targets(world, w).value)
  }

  /** The row a started workflow leaves: dispatched to its cleared clients, or still pending. */
  ghost function FinalRun(world: World, w: Workflow, k: nat, reason: string): Run
    requires Starts(world, w)
  {
    var run := NewRun(world, w, Targets(world, w).value, k, reason);
    if Delivers(world, w) then Dispatched(run, Cleared(world, w), world.now) else run
  }

  /** Its messages: all cleared clients in order, or those before the first broker failure. */
  ghost function Messages(world: World, w: Workflow, k: nat, reason: string): seq<Dispatch>
    requires Starts(world, w)
  {
    Generated(NewRun(world, w, Targets(world, w).value, k, reason), w, Reached(world.net, w.id, Cleared(world, w)))
  }

  lemma {:induction false} TargetsDistinct(world: World, w: Workflow)
    requires Legal(world) && Targets(world, w).Ok?
    ensures !Repeats(Targets(world, w).value)
  {
    if w.targetFilter == "" {
      Grouping.NilSelectsActive(world.rt, world.clients);
      Grouping.SelectsDistinct(world.rt, Grouping.FilterSyntax.Nil, world.clients);
    } else {
      var n := Grouping.FilterText.Parse(world.rt, w.targetFilter).value;
      Grouping.SelectsDistinct(world.rt, n, world.clients);
    }
  }

  lemma {:induction false} NeverRefused(world: World, led: Ledger, w: Workflow, reason: string)
    requires Legal(world) && Drawn(world, led) && Targets(world, w).Ok?
    ensures !Refused(led.tables, NewRun(world, w, Targets(world, w).value, led.minted, reason))
  {
    var run := NewRun(world, w, Targets(world, w).value, led.minted, reason);
    TargetsDistinct(world, w);
    forall r | r in led.tables.runs ensures r.id != run.id {
      var k: nat :| k < led.minted && r.id == world.mint(k);
    }
    forall p | p in led.tables.listed ensures p.0 != run.id {
      var k: nat :| k < led.minted && p.0 == world.mint(k);
    }
    assert forall q | 0 <= q < |led.tables.runs| :: led.tables.runs[q].id != run.id;
  }

  lemma {:induction false} UpdateLast(t: RunTables, run: Run, run': Run)
    requires Position(t.runs, run.id) == |t.runs| && run'.id == run.id
    ensures Updated(Created(t, run), run') == Created(t, run).(runs := t.runs + [run'])
  {
    var runs := t.runs + [run];
    assert runs[|t.runs|] == run;
    assert forall k | 0 <= k < |t.runs| :: runs[k] == t.runs[k];
    assert Position(runs, run'.id) == |t.runs|;
  }

  /** Triggering one workflow: nothing at all, or one run and its messages. */
  lemma {:induction false} AloneOutcome(world: World, led: Ledger, w: Workflow, reason: string)
    requires Legal(world) && Drawn(world, led) && w in world.wfs
    ensures var (after, error) := TriggerAlone(world, led, w, reason);
            && Drawn(world, after)
            && (error.None? <==> Starts(world, w) && Delivers(world, w))
            && (!Starts(world, w) ==> after == led)
            && (Starts(world, w) ==>
                  && after.tables.runs == led.tables.runs + [FinalRun(world, w, led.minted, reason)]
                  && after.sent == led.sent + Messages(world, w, led.minted, reason)
                  && after.minted == led.minted + 1)
  {
    var (after, error) := TriggerAlone(world, led, w, reason);
    if Starts(world, w) {
      NeverRefused(world, led, w, reason);
      var run := NewRun(world, w, Targets(world, w).value, led.minted, reason);
      assert Sendable(run, w);
      UpdateLast(led.tables, run, Dispatched(run, Cleared(world, w), world.now));
      forall p | p in after.tables.listed ensures exists k: nat :: k < after.minted && p.0 == world.mint(k) {
        if p in led.tables.listed {
          var k: nat :| k < led.minted && p.0 == world.mint(k);
        } else {
          assert p.0 == world.mint(led.minted);
        }
      }
      forall r | r in after.tables.runs ensures exists k: nat :: k < after.minted && r.id == world.mint(k) {
        if r in led.tables.runs {
          var k: nat :| k < led.minted && r.id == world.mint(k);
        } else {
          assert r.id == world.mint(led.minted);
        }
      }
    }
  }

  // ---------------------------------------------------------------- the cascade is a replay

  function WaitReason(w: Workflow): string {
    "event:" + w.trigger.onComplete
  }

  ghost predicate Rows(world: World, js: seq<nat>) {
    forall k | 0 <= k < |js| :: js[k] < |world.wfs|
  }

  /** Trigger the listed workflows one after another, without events. */
  ghost function Replay(world: World, led: Ledger, js: seq<nat>): Ledger
    requires Rows(world, js)
    decreases |js|
  {
    if js == [] then led
    else
      var w := world.wfs[js[0]];
      assert Rows(world, js[1..]) by {
        assert forall k | 0 <= k < |js[1..]| :: js[1..][k] == js[k + 1];
      }
      Replay(world, TriggerAlone(world, led, w, WaitReason(w)).0, js[1..])
  }

  lemma {:induction false} ReplayJoin(world: World, led: Ledger, a: seq<nat>, b: seq<nat>)
    requires Rows(world, a) && Rows(world, b)
    ensures Rows(world, a + b)
    ensures Replay(world, led, a + b) == Replay(world, Replay(world, led, a), b)
    decreases |a|
  {
    if a == [] {
      assert a + b == b;
    } else {
      var w := world.wfs[a[0]];
      assert Rows(world, a[1..]) by {
        assert forall k | 0 <= k < |a[1..]| :: a[1..][k] == a[k + 1];
      }
      ReplayJoin(world, TriggerAlone(world, led, w, WaitReason(w)).0, a[1..], b);
      assert (a + b)[1..] == a[1..] + b;
    }
  }

  lemma {:induction false} OrderIsRows(world: World, i: nat)
    requires Ranked(world.wfs) && i < |world.wfs|
    ensures Rows(world, Order(world, i))
  {
    OrderListsStarted(world, i);
    var js := Order(world, i);
    forall k | 0 <= k < |js| ensures js[k] < |world.wfs| {
      assert js[k] in js && StartedIn(world, i, js[k]);
    }
  }

  lemma {:induction false} BelowIsRows(world: World, i: nat, n: nat)
    requires Ranked(world.wfs) && i < |world.wfs| && n <= |world.wfs|
    ensures Rows(world, OrderBelow(world, i, n))
  {
    OrderBelowLists(world, i, n);
    var js := OrderBelow(world, i, n);
    forall k | 0 <= k < |js| ensures js[k] < |world.wfs| {
      assert js[k] in js && Hangs(world, i, n, js[k]);
    }
  }

  /** The recursive cascade is the flat replay of its order. */
  lemma {:induction false} TriggerIsReplay(world: World, led: Ledger, i: nat, reason: string)
    requires Legal(world) && Drawn(world, led) && i < |world.wfs|
    ensures var (after, error) := Trigger(world, led, i, reason);
            && Drawn(world, after)
            && (error.None? <==> Starts(world, world.wfs[i]) && Delivers(world, world.wfs[i]))
            && (if !Starts(world, world.wfs[i]) then after == led
                else var below := if error.None? then OrderBelow(world, i, |world.wfs|) else [];
                     && Rows(world, below) && Order(world, i) == [i] + below
                     && after == Replay(world, TriggerAlone(world, led, world.wfs[i], reason).0, below))
    decreases |world.wfs| - i, |world.wfs| + 1
  {
    AloneOutcome(world, led, world.wfs[i], reason);
    var (mid, error) := TriggerAlone(world, led, world.wfs[i], reason);
    if error.None? {
      BelowIsRows(world, i, |world.wfs|);
      CompletedIsReplay(world, mid, i, |world.wfs|);
    }
  }

  ghost predicate Replayed(world: World, led: Ledger, js: seq<nat>, after: Ledger) {
    Rows(world, js) && Drawn(world, after) && after == Replay(world, led, js)
  }

  lemma {:induction false} CompletedIsReplay(world: World, led: Ledger, i: nat, n: nat)
    requires Legal(world) && Drawn(world, led) && i < |world.wfs| && n <= |world.wfs|
    ensures Replayed(world, led, OrderBelow(world, i, n), Completed(world, led, i, n))
    decreases |world.wfs| - i, n, 0
  {
    if n == 0 {
    } else {
      var k := n - 1;
      if Waits(world.wfs[k], world.wfs[i].id) {
        WaitingIsReplay(world, led, i, k);
      } else {
        CompletedIsReplay(world, led, i, k);
        assert OrderBelow(world, i, n) == OrderBelow(world, i, k);
      }
    }
  }

  lemma {:induction false} WaitingIsReplay(world: World, led: Ledger, i: nat, k: nat)
    requires Legal(world) && Drawn(world, led) && i < |world.wfs| && k < |world.wfs|
    requires Waits(world.wfs[k], world.wfs[i].id)
    ensures Replayed(world, led, OrderBelow(world, i, k + 1), Completed(world, led, i, k + 1))
    decreases |world.wfs| - i, k, 1
  {
    var mid := ChildIsReplay(world, led, i, k);
    CompletedIsReplay(world, mid, i, k);
    ReplayedJoin(world, led, Order(world, k), mid, OrderBelow(world, i, k), Completed(world, mid, i, k));
  }

  lemma {:induction false} ReplayedJoin(world: World, led: Ledger, a: seq<nat>, mid: Ledger, b: seq<nat>, after: Ledger)
    requires Replayed(world, led, a, mid) && Replayed(world, mid, b, after)
    ensures Replayed(world, led, a + b, after)
  {
    ReplayJoin(world, led, a, b);
  }

  /** The cascade of a waiting workflow, triggered by the completion of i. */
  lemma {:induction false} ChildIsReplay(world: World, led: Ledger, i: nat, k: nat) returns (mid: Ledger)
    requires Legal(world) && Drawn(world, led) && i < |world.wfs| && k < |world.wfs|
    requires Waits(world.wfs[k], world.wfs[i].id)
    ensures Drawn(world, mid)
    ensures mid == Trigger(world, led, k, "event:" + world.wfs[i].id).0
    ensures Replayed(world, led, Order(world, k), mid)
    decreases |world.wfs| - i, 0
  {
    var reason := "event:" + world.wfs[i].id;
    OneParent(world, k, i, i);
    TriggerIsReplay(world, led, k, reason);
    OrderIsRows(world, k);
    mid := Trigger(world, led, k, reason).0;
    assert reason == WaitReason(world.wfs[k]);
    var js := Order(world, k);
    if js != [] {
      assert js[1..] == if Delivers(world, world.wfs[k]) then OrderBelow(world, k, |world.wfs|) else [];
    }
  }

  // ---------------------------------------------------------------- what the replay adds

  ghost predicate AllStart(world: World, js: seq<nat>) {
    Rows(world, js) && forall k | 0 <= k < |js| :: Starts(world, world.wfs[js[k]])
  }

  /** One final row per listed workflow, with consecutive fresh ids from k on. */
  ghost function NewRuns(world: World, js: seq<nat>, k: nat): seq<Run>
    requires AllStart(world, js)
    decreases |js|
  {
    if js == [] then []
    else
      assert AllStart(world, js[1..]) by { TailStarts(world, js); }
      var w := world.wfs[js[0]];
      [FinalRun(world, w, k, WaitReason(w))] + NewRuns(world, js[1..], k + 1)
  }

  ghost function NewMessages(world: World, js: seq<nat>, k: nat): seq<Dispatch>
    requires AllStart(world, js)
    decreases |js|
  {
    if js == [] then []
    else
      assert AllStart(world, js[1..]) by { TailStarts(world, js); }
      var w := world.wfs[js[0]];
      Messages(world, w, k, WaitReason(w)) + NewMessages(world, js[1..], k + 1)
  }

  lemma {:induction false} TailStarts(world: World, js: seq<nat>)
    requires AllStart(world, js) && js != []
    ensures AllStart(world, js[1..])
  {
    assert forall k | 0 <= k < |js[1..]| :: js[1..][k] == js[k + 1];
  }

  ghost predicate AddsRuns(world: World, led: Ledger, js: seq<nat>, end: Ledger)
    requires AllStart(world, js)
  {
    end.tables.runs == led.tables.runs + NewRuns(world, js, led.minted)
  }

  ghost predicate AddsMessages(world: World, led: Ledger, js: seq<nat>, end: Ledger)
    requires AllStart(world, js)
  {
    end.sent == led.sent + NewMessages(world, js, led.minted)
  }

  lemma {:induction false} AddsOneMore(world: World, led: Ledger, js: seq<nat>, mid: Ledger, end: Ledger)
    requires js != [] && AllStart(world, js) && AllStart(world, js[1..]) && mid.minted == led.minted + 1
    requires mid.tables.runs
        == led.tables.runs + [FinalRun(world, world.wfs[js[0]], led.minted, WaitReason(world.wfs[js[0]]))]
    requires AddsRuns(world, mid, js[1..], end)
    ensures AddsRuns(world, led, js, end)
  {
    var first := [FinalRun(world, world.wfs[js[0]], led.minted, WaitReason(world.wfs[js[0]]))];
    TwoSteps(led.tables.runs, first, mid.tables.runs, NewRuns(world, js[1..], mid.minted), end.tables.runs);
  }

  lemma {:induction false} SendsOneMore(world: World, led: Ledger, js: seq<nat>, mid: Ledger, end: Ledger)
    requires js != [] && AllStart(world, js) && AllStart(world, js[1..]) && mid.minted == led.minted + 1
    requires mid.sent == led.sent + Messages(world, world.wfs[js[0]], led.minted, WaitReason(world.wfs[js[0]]))
    requires AddsMessages(world, mid, js[1..], end)
    ensures AddsMessages(world, led, js, end)
  {
    var first := Messages(world, world.wfs[js[0]], led.minted, WaitReason(world.wfs[js[0]]));
    TwoSteps(led.sent, first, mid.sent, NewMessages(world, js[1..], mid.minted), end.sent);
  }

  lemma {:induction false} ReplayAddsRuns(world: World, led: Ledger, js: seq<nat>)
    requires Legal(world) && Drawn(world, led) && AllStart(world, js)
    ensures AddsRuns(world, led, js, Replay(world, led, js))
    decreases |js|
  {
    if js == [] {
      JoinNothing(led.tables.runs);
    } else {
      var w := world.wfs[js[0]];
      var mid := TriggerAlone(world, led, w, WaitReason(w)).0;
      TailStarts(world, js);
      AloneOutcome(world, led, w, WaitReason(w));
      ReplayAddsRuns(world, mid, js[1..]);
      AddsOneMore(world, led, js, mid, Replay(world, mid, js[1..]));
    }
  }

  lemma {:induction false} ReplayAddsMessages(world: World, led: Ledger, js: seq<nat>)
    requires Legal(world) && Drawn(world, led) && AllStart(world, js)
    ensures AddsMessages(world, led, js, Replay(world, led, js))
    decreases |js|
  {
    if js == [] {
      JoinNothing(led.sent);
    } else {
      var w := world.wfs[js[0]];
      var mid := TriggerAlone(world, led, w, WaitReason(w)).0;
      TailStarts(world, js);
      AloneOutcome(world, led, w, WaitReason(w));
      ReplayAddsMessages(world, mid, js[1..]);
      SendsOneMore(world, led, js, mid, Replay(world, mid, js[1..]));
    }
  }

  lemma {:induction false} NewRunsMatch(world: World, js: seq<nat>, k: nat)
    requires AllStart(world, js)
    ensures |NewRuns(world, js, k)| == |js|
    ensures forall a | 0 <= a < |js| :: NewRuns(world, js, k)[a].wfID == world.wfs[js[a]].id
    decreases |js|
  {
    if js == [] {
    } else {
      TailStarts(world, js);
      NewRunsMatch(world, js[1..], k + 1);
      assert forall a | 0 <= a < |js[1..]| :: js[1..][a] == js[a + 1];
    }
  }

  // ---------------------------------------------------------------- what the replay keeps

  lemma {:induction false} AloneExtends(world: World, led: Ledger, w: Workflow, reason: string)
    requires Legal(world) && Drawn(world, led) && w in world.wfs && Keyed(led.tables)
    ensures Extends(led.tables, TriggerAlone(world, led, w, reason).0.tables)
  {
    AloneOutcome(world, led, w, reason);
    if Starts(world, w) {
      forall i | 0 <= i < |led.tables.runs| ensures led.tables.runs[i].id != world.mint(led.minted) {
        assert led.tables.runs[i] in led.tables.runs;
      }
    }
  }

  lemma {:induction false} ReplayExtends(world: World, led: Ledger, js: seq<nat>)
    requires Legal(world) && Drawn(world, led) && AllStart(world, js) && Keyed(led.tables)
    ensures Extends(led.tables, Replay(world, led, js).tables)
    decreases |js|
  {
    if js == [] {
    } else {
      var w := world.wfs[js[0]];
      var mid := TriggerAlone(world, led, w, WaitReason(w)).0;
      TailStarts(world, js);
      AloneOutcome(world, led, w, WaitReason(w));
      AloneExtends(world, led, w, WaitReason(w));
      ReplayExtends(world, mid, js[1..]);
      ExtendsJoin(led.tables, mid.tables, Replay(world, mid, js[1..]).tables);
    }
  }

  // ---------------------------------------------------------------- the whole cascade

  lemma {:induction false} OrderAllStart(world: World, root: nat)
    requires Ranked(world.wfs) && root < |world.wfs|
    ensures AllStart(world, Order(world, root))
  {
    OrderIsRows(world, root);
    OrderListsStarted(world, root);
    var js := Order(world, root);
    forall k | 0 <= k < |js| ensures Starts(world, world.wfs[js[k]]) {
      assert js[k] in js && StartedIn(world, root, js[k]);
    }
  }

  /**
   * Exactly once: a trigger adds one run for every workflow that Started reaches from the root,
   * no second one, and none for any other workflow; it changes no earlier run. A workflow whose
   * own trigger or dispatch fails cuts off only what hangs under it.
   */
  lemma {:induction false} CascadeRunsEachOnce(world: World, led: Ledger, root: nat, reason: string)
    requires Legal(world) && Drawn(world, led) && root < |world.wfs|
    ensures var runs := Trigger(world, led, root, reason).0.tables.runs;
            && led.tables.runs <= runs
            && var added := runs[|led.tables.runs|..];
               && (forall j: nat | j < |world.wfs| ::
                     Started(world, root, j) <==> exists a :: 0 <= a < |added| && added[a].wfID == world.wfs[j].id)
               && (forall a, b | 0 <= a < b < |added| :: added[a].wfID != added[b].wfID)
               && (forall a | 0 <= a < |added| :: exists j: nat :: j < |world.wfs| && added[a].wfID == world.wfs[j].id)
  {
    var added := CascadeAdds(world, led, root, reason);
    var runs := Trigger(world, led, root, reason).0.tables.runs;
    assert runs[|led.tables.runs|..] == added;
    var js := Order(world, root);
    OrderListsStarted(world, root);
    OrderIsRows(world, root);
    forall j: nat | j < |world.wfs|
      ensures Started(world, root, j) <==> exists a :: 0 <= a < |added| && added[a].wfID == world.wfs[j].id
    {
      assert StartedIn(world, root, j) <==> j in js;
      if j in js {
        var a :| 0 <= a < |js| && js[a] == j;
        assert added[a].wfID == world.wfs[j].id;
      }
      forall a | 0 <= a < |added| && added[a].wfID == world.wfs[j].id ensures j in js {
        assert world.wfs[js[a]].id == world.wfs[j].id;
        assert js[a] == j;
      }
    }
    forall a, b | 0 <= a < b < |added| ensures added[a].wfID != added[b].wfID {
      assert js[a] != js[b] && js[a] < |world.wfs| && js[b] < |world.wfs|;
    }
    forall a | 0 <= a < |added| ensures exists j: nat :: j < |world.wfs| && added[a].wfID == world.wfs[j].id {
      assert js[a] < |world.wfs|;
    }
  }

  /** The root is triggered first, then the rest of its order is replayed. */
  lemma {:induction false} RootThenRest(world: World, led: Ledger, root: nat, reason: string)
    requires Legal(world) && Drawn(world, led) && root < |world.wfs|
    ensures var js := Order(world, root);
            && AllStart(world, js)
            && (js == [] ==> Trigger(world, led, root, reason).0 == led)
            && (js != [] ==>
                  var mid := TriggerAlone(world, led, world.wfs[root], reason).0;
                  && js[0] == root && Starts(world, world.wfs[root]) && AllStart(world, js[1..]) && Drawn(world, mid)
                  && Trigger(world, led, root, reason).0 == Replay(world, mid, js[1..])
                  && mid.tables.runs == led.tables.runs + [FinalRun(world, world.wfs[root], led.minted, reason)]
                  && mid.sent == led.sent + Messages(world, world.wfs[root], led.minted, reason)
                  && mid.minted == led.minted + 1)
  {
    var js := Order(world, root);
    OrderAllStart(world, root);
    TriggerIsReplay(world, led, root, reason);
    AloneOutcome(world, led, world.wfs[root], reason);
    if js != [] {
      TailStarts(world, js);
    }
  }

  lemma {:induction false} CascadeAdds(world: World, led: Ledger, root: nat, reason: string) returns (added: seq<Run>)
    requires Legal(world) && Drawn(world, led) && root < |world.wfs|
    ensures Trigger(world, led, root, reason).0.tables.runs == led.tables.runs + added
    ensures Rows(world, Order(world, root)) && |added| == |Order(world, root)|
    ensures forall a | 0 <= a < |added| :: added[a].wfID == world.wfs[Order(world, root)[a]].id
  {
    var js := Order(world, root);
    RootThenRest(world, led, root, reason);
    if js == [] {
      added := [];
    } else {
      var w := world.wfs[root];
      var first := FinalRun(world, w, led.minted, reason);
      var rest := NewRuns(world, js[1..], led.minted + 1);
      ReplayAddsRuns(world, TriggerAlone(world, led, w, reason).0, js[1..]);
      NewRunsMatch(world, js[1..], led.minted + 1);
      Regroup(led.tables.runs, [first], rest);
      added := [first] + rest;
      forall a | 0 <= a < |added| ensures added[a].wfID == world.wfs[js[a]].id {
        if a > 0 {
          assert js[1..][a - 1] == js[a] && added[a] == rest[a - 1];
        }
      }
    }
  }

  /** The messages of the whole cascade, workflow by workflow in its order, and nothing else. */
  lemma {:induction false} CascadeSendsExactly(world: World, led: Ledger, root: nat, reason: string)
    requires Legal(world) && Drawn(world, led) && root < |world.wfs|
    ensures AllStart(world, Order(world, root))
    ensures Order(world, root) == [] ==> Trigger(world, led, root, reason).0 == led
    ensures Order(world, root) != [] ==>
              && AllStart(world, Order(world, root)[1..])
              && Trigger(world, led, root, reason).0.sent
                 == led.sent + Messages(world, world.wfs[root], led.minted, reason)
                    + NewMessages(world, Order(world, root)[1..], led.minted + 1)
    ensures Trigger(world, led, root, reason).1.None? ==>
              && Starts(world, world.wfs[root])
              && var w := world.wfs[root];
                 Messages(world, w, led.minted, reason)
                 == Generated(NewRun(world, w, Targets(world, w).value, led.minted, reason), w, Cleared(world, w))
  {
    var js := Order(world, root);
    RootThenRest(world, led, root, reason);
    TriggerIsReplay(world, led, root, reason);
    if js != [] {
      ReplayAddsMessages(world, TriggerAlone(world, led, world.wfs[root], reason).0, js[1..]);
    }
  }

  /** No message of a cascade goes to a client that is banned from the type it is sent for. */
  lemma {:induction false} CascadeSendsToNobodyBanned(world: World, led: Ledger, root: nat, reason: string)
    requires Legal(world) && Drawn(world, led) && root < |world.wfs|
    ensures var sent := Trigger(world, led, root, reason).0.sent;
            && led.sent <= sent
            && forall d | d in sent[|led.sent|..] :: !Banned(world.bans, d.client, d.wfType, world.now)
  {
    CascadeSendsExactly(world, led, root, reason);
    var js := Order(world, root);
    if js == [] {
      Suffix(led.sent, []);
    } else {
      var own := Messages(world, world.wfs[root], led.minted, reason);
      var more := NewMessages(world, js[1..], led.minted + 1);
      RootThenRest(world, led, root, reason);
      MessagesAreCleared(world, world.wfs[root], led.minted, reason);
      NewMessagesAreCleared(world, js[1..], led.minted + 1);
      Regroup(led.sent, own, more);
      Suffix(led.sent, own + more);
    }
  }

  lemma {:induction false} Suffix<T>(a: seq<T>, b: seq<T>)
    ensures a <= a + b && (a + b)[|a|..] == b && (b == [] ==> a + b == a)
  {
  }

  lemma {:induction false} MessagesAreCleared(world: World, w: Workflow, k: nat, reason: string)
    requires Starts(world, w)
    ensures forall d | d in Messages(world, w, k, reason) :: !Banned(world.bans, d.client, d.wfType, world.now)
  {
    FilterDecides(world.bans, w.wfType, world.now, Targets(world, w).value);
    var ids := Reached(world.net, w.id, Cleared(world, w));
    var run := NewRun(world, w, Targets(world, w).value, k, reason);
    forall d | d in Generated(run, w, ids) ensures !Banned(world.bans, d.client, d.wfType, world.now) {
      var i :| 0 <= i < |ids| && d == Generated(run, w, ids)[i];
      assert ids[i] == Cleared(world, w)[i] && Cleared(world, w)[i] in Cleared(world, w);
    }
  }

  lemma {:induction false} NewMessagesAreCleared(world: World, js: seq<nat>, k: nat)
    requires AllStart(world, js)
    ensures forall d | d in NewMessages(world, js, k) :: !Banned(world.bans, d.client, d.wfType, world.now)
    decreases |js|
  {
    if js == [] {
    } else {
      var w := world.wfs[js[0]];
      TailStarts(world, js);
      MessagesAreCleared(world, w, k, WaitReason(w));
      NewMessagesAreCleared(world, js[1..], k + 1);
    }
  }

  /** A cascade leaves every earlier run under its key and type, and gives new runs new keys. */
  lemma {:induction false} CascadeExtends(world: World, led: Ledger, root: nat, reason: string)
    requires Legal(world) && Drawn(world, led) && root < |world.wfs| && Keyed(led.tables)
    ensures Extends(led.tables, Trigger(world, led, root, reason).0.tables)
  {
    var js := Order(world, root);
    RootThenRest(world, led, root, reason);
    if js == [] {
    } else {
      var mid := TriggerAlone(world, led, world.wfs[root], reason).0;
      AloneExtends(world, led, world.wfs[root], reason);
      ReplayExtends(world, mid, js[1..]);
      ExtendsJoin(led.tables, mid.tables, Replay(world, mid, js[1..]).tables);
    }
  }
}
