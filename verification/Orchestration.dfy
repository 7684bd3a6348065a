/** The orchestration and trigger services: objects that call each other through published events. */
module Orchestration {
  import opened Sequences
  import opened Wrappers
  import opened FilterSyntax
  import opened FilterEval
  import opened Workflows
  import opened Runs
  import opened Dispatching
  import opened Cascade
  import opened Clients
  import opened Cron
  import Grouping

  class Orchestrator {
    const rt: Runtime
    const mint: nat -> string
    const workflows: WorkflowRepo
    const runs: RunRepo
    const clients: ClientRepo
    const dispatch: DispatchCoordination
    var minted: nat

    constructor (
        rt: Runtime, mint: nat -> string, workflows: WorkflowRepo, runs: RunRepo, clients: ClientRepo,
        dispatch: DispatchCoordination)
      ensures this.rt == rt && this.mint == mint && this.workflows == workflows && this.runs == runs
      ensures this.clients == clients && this.dispatch == dispatch && minted == 0
    {
      this.rt := rt;
      this.mint := mint;
      this.workflows := workflows;
      this.runs := runs;
      this.clients := clients;
      this.dispatch := dispatch;
      minted := 0;
    }

    ghost predicate Wired()
      reads workflows
    {
      dispatch.runs == runs && Ranked(workflows.rows)
    }

    ghost function WorldAt(net: Net, now: int): World
      reads workflows, clients, dispatch.filter.ban.repo, dispatch.filter.ban.blocker
    {
      World(rt, workflows.rows, clients.rows, dispatch.filter.ban.State(), now, mint, net)
    }

    ghost function Books(): Ledger
      reads this, runs, dispatch.broker
    {
      Ledger(runs.tables, dispatch.broker.sent, minted)
    }

    /** How far from the youngest workflow: what the cascade uses up. */
    ghost function Depth(id: string): nat
      reads workflows
    {
      |workflows.rows| - Index(workflows.rows, id)
    }

    method CreateWorkflow(req: CreateRequest, id: string) returns (r: Workflows.Outcome)
      requires Wired() && Fresh(workflows.rows, req, id)
      modifies workflows
      ensures r == NewWorkflow(req, id)
      ensures workflows.rows == Perform(old(workflows.rows), Create(req, id))
      ensures Wired()
    {
      RankedStep(workflows.rows, Create(req, id));
      if req.name == "" || req.wfType == "" || !IsValidActivity(req.activity) {
        return Err(ValidationError);
      }
      var w := Workflow(
        id, req.name, req.wfType, req.activity, req.targetFilter, req.trigger,
        req.successThreshold, req.loopThresholdMS, req.timeoutMS, true);
      if req.enabled.Some? {
        w := w.(active := req.enabled.value);
      }
      if w.successThreshold == 0.0 {
        w := w.(successThreshold := 80.0);
      }
      if w.loopThresholdMS == 0 {
        w := w.(loopThresholdMS := 5000);
      }
      if w.timeoutMS == 0 {
        w := w.(timeoutMS := 30000);
      }
      var e := ValidateDefinition(w);
      if e.Some? {
        return Err(e.value);
      }
      workflows.SaveWorkflow(w);
      return Ok(w);
    }

    method EditWorkflow(id: string, req: EditRequest) returns (r: Workflows.Outcome)
      requires Wired()
      modifies workflows
      ensures workflows.rows == Perform(old(workflows.rows), Edit(id, req))
      ensures r == EditOutcome(old(workflows.rows), id, req)
      ensures Wired()
    {
      RankedStep(workflows.rows, Edit(id, req));
      if !req.HasChanges() {
        return Err(ValidationError);
      }
      var found := workflows.GetWorkflow(id);
      if found.Err? {
        return found;
      }
      var w := found.value;
      if req.name.Some? {
        w := w.(name := req.name.value);
      }
      if req.targetFilter.Some? {
        w := w.(targetFilter := req.targetFilter.value);
      }
      if req.successThreshold.Some? {
        w := w.(successThreshold := req.successThreshold.value);
      }
      if req.loopThresholdMS.Some? {
        w := w.(loopThresholdMS := req.loopThresholdMS.value);
      }
      if req.timeoutMS.Some? {
        w := w.(timeoutMS := req.timeoutMS.value);
      }
      if req.enabled.Some? {
        w := w.(active := req.enabled.value);
      }
      var e := ValidateDefinition(w);
      if e.Some? {
        return Err(e.value);
      }
      workflows.SaveWorkflow(w);
      return Ok(w);
    }

    /** TriggerWorkflow: the whole cascade, as Trigger computes it. */
    method TriggerWorkflow(id: string, reason: string, net: Net, now: int) returns (error: Option<TriggerError>)
      requires Wired()
      modifies this, runs, dispatch.broker
      ensures Wired()
      ensures var i := Index(workflows.rows, id);
              if i == |workflows.rows| then error == Some(UnknownWorkflow) && Books() == old(Books())
              else (Books(), error) == Trigger(WorldAt(net, now), old(Books()), i, reason)
      decreases Depth(id), 3, 0
    {
      var found := workflows.GetWorkflow(id);
      if found.Err? {
        return Some(UnknownWorkflow);
      }
      var w := found.value;
      if !w.active {
        return Some(Inactive);
      }
      var targets := SelectTargets(w, net, now);
      if targets.Err? {
        return Some(targets.error);
      }
      ghost var world := WorldAt(net, now);
      error := Launch(w, targets.value, reason, net, now);
      if error.Some? {
        return;
      }
      assert WorldAt(net, now) == world;
      Publish(w.id, net, now);
    }

    /** The run is created and dispatched; nothing is published yet. */
    method Launch(
        w: Workflow, ids: seq<string>, reason: string, net: Net, now: int) returns (error: Option<TriggerError>)
      requires dispatch.runs == runs && w.active && Targets(WorldAt(net, now), w) == Ok(ids)
      modifies this, runs, dispatch.broker
      ensures (Books(), error) == TriggerAlone(WorldAt(net, now), old(Books()), w, reason)
    {
      var run := Run(mint(minted), w.id, w.wfType, now, None, ids, RunPending, reason);
      minted := minted + 1;
      var created := runs.CreateRun(run);
      if created.Err? {
        return Some(RunRefused);
      }
      var ok, _ := dispatch.SendDispatches(run, w, ids, net, now);
      return if ok then None else Some(SendFailed);
    }

    /** TriggerWorkflow's choice of clients: all active ones for an empty filter, else those it selects. */
    method SelectTargets(w: Workflow, ghost net: Net, ghost now: int) returns (r: Result<seq<string>, TriggerError>)
      ensures r == Targets(WorldAt(net, now), w)
    {
      if w.targetFilter == "" {
        var ids := ActiveOf(clients.rows);
        return Ok(ids);
      }
      var fr := Grouping.ResolveClients(rt, w.targetFilter, clients.rows);
      if fr.Err? {
        return Err(FilterFailed(fr.error));
      }
      return Ok(fr.value.ids);
    }

    /** The event bus calls its one subscriber of completions before the publisher goes on. */
    method Publish(completed: string, net: Net, now: int)
      requires Wired() && Has(workflows.rows, completed)
      modifies this, runs, dispatch.broker
      ensures Wired()
      ensures Books() == Completed(WorldAt(net, now), old(Books()), Index(workflows.rows, completed), |workflows.rows|)
      decreases Depth(completed), 2, 0
    {
      OnWorkflowCompleted(completed, net, now);
    }

    method OnWorkflowCompleted(completed: string, net: Net, now: int)
      requires Wired() && Has(workflows.rows, completed)
      modifies this, runs, dispatch.broker
      ensures Wired()
      ensures Books() == Completed(WorldAt(net, now), old(Books()), Index(workflows.rows, completed), |workflows.rows|)
      decreases Depth(completed), 1, 1
    {
      var wfs := workflows.ListActiveWorkflows();
      ghost var world, start := WorldAt(net, now), Books();
      ghost var i, n: nat := Index(workflows.rows, completed), |workflows.rows|;
      assert workflows.rows[..n] == workflows.rows;
      for k := 0 to |wfs|
        invariant world == WorldAt(net, now)
        invariant RestIsActive(world.wfs, n, wfs, k)
        invariant StillToComplete(world, Books(), i, n, start)
      {
        n := NextActive(world, Books(), i, n, wfs, k, start);
        FireIfWaiting(wfs[k], completed, net, now, n);
      }
      NoneActive(world, Books(), i, n);
    }

    /** The body of the completion loop: n is the row of w. */
    method FireIfWaiting(w: Workflow, completed: string, net: Net, now: int, ghost n: nat)
      requires Wired() && Has(workflows.rows, completed)
      requires n < |workflows.rows| && w == workflows.rows[n] && w.active
      modifies this, runs, dispatch.broker
      ensures Wired()
      ensures WorldAt(net, now) == old(WorldAt(net, now))
      ensures var i := Index(workflows.rows, completed);
              Completed(WorldAt(net, now), Books(), i, n) == Completed(WorldAt(net, now), old(Books()), i, n + 1)
      decreases Depth(completed), 1, 0
    {
      IndexIsUnique(workflows.rows, n);
      if !w.trigger.kind.OnEvent? {
        return;
      }
      if w.trigger.onComplete == "" || w.trigger.onComplete != completed {
        return;
      }
      Fire(w.id, "event:" + completed, net, now);
    }

    /**
     * One tick of the trigger loop: exactly the active workflows that are due are triggered, the
     * youngest first; afterwards they, and the ones seen for the first time, count from now.
     */
    method Evaluate(cron: CronEvaluator, net: Net, now: int, ghost instants: string -> iset<int>)
      requires Wired() && cron.Valid() && Follows(cron.parse, cron.texts, workflows.rows, instants)
      modifies this, runs, dispatch.broker, cron
      ensures Wired() && cron.Valid() && Follows(cron.parse, cron.texts, workflows.rows, instants)
      ensures Books() == Ticked(WorldAt(net, now), old(Books()), ActiveNewestFirst(workflows.rows),
                                DueNow(cron.parse, instants, old(cron.since), workflows.rows, now))
      ensures var wfs := ActiveNewestFirst(workflows.rows);
              TickedUpTo(cron.parse, instants, old(cron.since), cron.since, wfs, |wfs|, now)
    {
      var wfs := workflows.ListActiveWorkflows();
      ghost var world, start, since := WorldAt(net, now), Books(), cron.since;
      ActiveAreListed(world.wfs);
      TickStarts(cron.parse, instants, since, world, start, wfs);
      for k := 0 to |wfs|
        invariant Wired() && cron.Valid() && world == WorldAt(net, now)
        invariant Follows(cron.parse, cron.texts, world.wfs, instants)
        invariant Ticking(cron.parse, instants, since, cron.since, world, Books(), wfs, k, start)
      {
        TickOne(cron, wfs, k, net, now, instants, since, start);
      }
      TickEnds(cron.parse, instants, since, cron.since, world, Books(), wfs, start);
    }

    /** The body of the tick's loop. */
    method TickOne(
        cron: CronEvaluator, wfs: seq<Workflow>, k: nat, net: Net, now: int,
        ghost instants: string -> iset<int>, ghost since: map<string, int>, ghost start: Ledger)
      requires Wired() && cron.Valid() && Follows(cron.parse, cron.texts, workflows.rows, instants)
      requires k < |wfs| && ListsActive(wfs, workflows.rows)
      requires Ticking(cron.parse, instants, since, cron.since, WorldAt(net, now), Books(), wfs, k, start)
      modifies this, runs, dispatch.broker, cron
      ensures Wired() && cron.Valid() && Follows(cron.parse, cron.texts, workflows.rows, instants)
      ensures WorldAt(net, now) == old(WorldAt(net, now))
      ensures Ticking(cron.parse, instants, since, cron.since, WorldAt(net, now), Books(), wfs, k + 1, start)
    {
      ghost var world, books, before := WorldAt(net, now), Books(), cron.since;
      ListedRow(wfs, world.wfs, k);
      FireIfDue(cron, wfs[k], net, now, instants);
      TickingOn(cron.parse, instants, since, before, cron.since, world, books, wfs, k, start);
    }

    method FireIfDue(cron: CronEvaluator, w: Workflow, net: Net, now: int, ghost instants: string -> iset<int>)
      requires Wired() && cron.Valid() && Follows(cron.parse, cron.texts, workflows.rows, instants)
      requires w in workflows.rows
      modifies this, runs, dispatch.broker, cron
      ensures Wired() && cron.Valid() && Follows(cron.parse, cron.texts, workflows.rows, instants)
      ensures Books() == if Due(cron.parse, instants(w.trigger.cron), old(cron.since), w.id, w.trigger, now)
                         then Trigger(WorldAt(net, now), old(Books()), Index(workflows.rows, w.id), "scheduled").0
                         else old(Books())
      ensures WorldAt(net, now) == old(WorldAt(net, now))
      ensures Reset(cron.parse, instants(w.trigger.cron), old(cron.since), cron.since, w.id, w.trigger, now)
      ensures SameElsewhere(old(cron.since), cron.since, w.id)
    {
      ghost var world, books := WorldAt(net, now), Books();
      FollowsAfter(cron.parse, cron.texts, workflows.rows, instants, w);
      var due := IsDue(cron, w, now, workflows.rows, instants);
      assert WorldAt(net, now) == world && Books() == books;
      if due {
        Fire(w.id, "scheduled", net, now);
      }
    }

    /** A failing trigger is logged and forgotten. */
    method Fire(id: string, reason: string, net: Net, now: int)
      requires Wired() && Has(workflows.rows, id)
      modifies this, runs, dispatch.broker
      ensures Wired()
      ensures WorldAt(net, now) == old(WorldAt(net, now))
      ensures Books() == Trigger(WorldAt(net, now), old(Books()), Index(workflows.rows, id), reason).0
      decreases Depth(id), 4, 0
    {
      var _ := TriggerWorkflow(id, reason, net, now);
    }
  }

  // ---------------------------------------------------------------- ticks of the trigger loop

  /** What the tick asks of a workflow: a scheduled trigger, a text that parses, and an instant passed. */
  method IsDue(
      cron: CronEvaluator, w: Workflow, now: int, ghost ws: seq<Workflow>, ghost instants: string -> iset<int>)
    returns (due: bool)
    requires cron.Valid() && w in ws && Follows(cron.parse, cron.texts, ws, instants)
    modifies cron
    ensures cron.Valid() && (cron.texts == old(cron.texts) || cron.texts == old(cron.texts)[w.id := w.trigger.cron])
    ensures due == Due(cron.parse, instants(w.trigger.cron), old(cron.since), w.id, w.trigger, now)
    ensures Reset(cron.parse, instants(w.trigger.cron), old(cron.since), cron.since, w.id, w.trigger, now)
    ensures SameElsewhere(old(cron.since), cron.since, w.id)
  {
    if !w.trigger.kind.Scheduled? || w.trigger.cron == "" {
      return false;
    }
    var should := cron.ShouldFire(w.id, w.trigger, now, instants(w.trigger.cron));
    if should.Err? {
      return false;
    }
    return should.value;
  }

  ghost function DueNow(
      parse: Parser, instants: string -> iset<int>, since: map<string, int>, ws: seq<Workflow>, now: int): set<string> {
    set w | w in ws && Due(parse, instants(w.trigger.cron), since, w.id, w.trigger, now) :: w.id
  }

  /** Triggers do not change, and parsed schedules are those of the instants. */
  ghost predicate Follows(parse: Parser, texts: map<string, string>, ws: seq<Workflow>, instants: string -> iset<int>) {
    && (forall w | w in ws && w.id in texts :: texts[w.id] == w.trigger.cron)
    && (forall text | parse(text).Some? :: IsNext(instants(text), parse(text).value))
  }

  /** Trigger the due workflows among ws, in order. */
  ghost function Ticked(world: World, led: Ledger, ws: seq<Workflow>, due: set<string>): Ledger
    requires Ranked(world.wfs)
    decreases |ws|
  {
    if ws == [] then led
    else
      var i := Index(world.wfs, ws[0].id);
      var fires := ws[0].id in due && i < |world.wfs|;
      Ticked(world, if fires then Trigger(world, led, i, "scheduled").0 else led, ws[1..], due)
  }

  /** With the workflows from k on still to come, the books will be those of the whole tick. */
  ghost predicate StillToTick(world: World, led: Ledger, ws: seq<Workflow>, k: nat, due: set<string>, start: Ledger)
    requires Ranked(world.wfs)
  {
    k <= |ws| && Ticked(world, led, ws[k..], due) == Ticked(world, start, ws, due)
  }

  lemma {:induction false} TickStep(
      world: World, led: Ledger, ws: seq<Workflow>, k: nat, due: set<string>, start: Ledger)
    requires Ranked(world.wfs) && k < |ws| && StillToTick(world, led, ws, k, due, start)
    requires ws[k] in world.wfs
    ensures var i := Index(world.wfs, ws[k].id);
            && i < |world.wfs|
            && var after := if ws[k].id in due then Trigger(world, led, i, "scheduled").0 else led;
               StillToTick(world, after, ws, k + 1, due, start)
  {
    assert ws[k..][1..] == ws[k + 1..];
    var i :| 0 <= i < |world.wfs| && world.wfs[i] == ws[k];
    IndexIsUnique(world.wfs, i);
  }

  /** The workflows before k have their new record, the others still the one before the tick. */
  ghost predicate TickedUpTo(
      parse: Parser, instants: string -> iset<int>, before: map<string, int>, after: map<string, int>,
      ws: seq<Workflow>, k: nat, now: int)
  {
    && k <= |ws|
    && (forall j | 0 <= j < k ::
          Reset(parse, instants(ws[j].trigger.cron), before, after, ws[j].id, ws[j].trigger, now))
    && (forall j | k <= j < |ws| :: SameAt(before, after, ws[j].id))
  }

  lemma {:induction false} TickedOneMore(
      parse: Parser, instants: string -> iset<int>, before: map<string, int>, mid: map<string, int>,
      after: map<string, int>,
      ws: seq<Workflow>, k: nat, now: int)
    requires k < |ws| && TickedUpTo(parse, instants, before, mid, ws, k, now)
    requires IdsDistinct(ws)
    requires Reset(parse, instants(ws[k].trigger.cron), mid, after, ws[k].id, ws[k].trigger, now)
        && SameElsewhere(mid, after, ws[k].id)
    ensures TickedUpTo(parse, instants, before, after, ws, k + 1, now)
  {
    forall j | 0 <= j < |ws| && j != k ensures SameAt(mid, after, ws[j].id) {
    }
  }

  /** A tick at its k-th workflow. */
  ghost predicate Ticking(
      parse: Parser, instants: string -> iset<int>, before: map<string, int>, after: map<string, int>,
      world: World, led: Ledger, ws: seq<Workflow>, k: nat, start: Ledger)
  {
    && Ranked(world.wfs)
    && StillToTick(world, led, ws, k, DueNow(parse, instants, before, world.wfs, world.now), start)
    && TickedUpTo(parse, instants, before, after, ws, k, world.now)
  }

  lemma {:induction false} TickStarts(
      parse: Parser, instants: string -> iset<int>, since: map<string, int>, world: World, led: Ledger,
      ws: seq<Workflow>)
    requires Ranked(world.wfs)
    ensures Ticking(parse, instants, since, since, world, led, ws, 0, led)
  {
    assert ws[0..] == ws;
  }

  lemma {:induction false} TickEnds(
      parse: Parser, instants: string -> iset<int>, before: map<string, int>, after: map<string, int>,
      world: World, led: Ledger, ws: seq<Workflow>, start: Ledger)
    requires Ticking(parse, instants, before, after, world, led, ws, |ws|, start)
    ensures led == Ticked(world, start, ws, DueNow(parse, instants, before, world.wfs, world.now))
    ensures TickedUpTo(parse, instants, before, after, ws, |ws|, world.now)
  {
    assert ws[|ws|..] == [];
  }

  lemma {:induction false} TickingOn(
      parse: Parser, instants: string -> iset<int>, before: map<string, int>, mid: map<string, int>,
      after: map<string, int>,
      world: World, led: Ledger, ws: seq<Workflow>, k: nat, start: Ledger)
    requires k < |ws| && ListsActive(ws, world.wfs)
    requires Ticking(parse, instants, before, mid, world, led, ws, k, start)
    requires Reset(parse, instants(ws[k].trigger.cron), mid, after, ws[k].id, ws[k].trigger, world.now)
        && SameElsewhere(mid, after, ws[k].id)
    ensures var i := Index(world.wfs, ws[k].id);
            && i < |world.wfs|
            && Ticking(parse, instants, before, after, world,
                       if Due(parse, instants(ws[k].trigger.cron), mid, ws[k].id, ws[k].trigger, world.now)
                       then Trigger(world, led, i, "scheduled").0 else led, ws, k + 1, start)
  {
    DueIsDue(parse, instants, before, world.wfs, world.now, ws[k]);
    assert SameAt(before, mid, ws[k].id);
    TickStep(world, led, ws, k, DueNow(parse, instants, before, world.wfs, world.now), start);
    TickedOneMore(parse, instants, before, mid, after, ws, k, world.now);
  }

  lemma {:induction false} FollowsAfter(
      parse: Parser, texts: map<string, string>, ws: seq<Workflow>, instants: string -> iset<int>, w: Workflow)
    requires Ranked(ws) && w in ws && Follows(parse, texts, ws, instants)
    ensures Follows(parse, texts[w.id := w.trigger.cron], ws, instants)
    ensures Has(ws, w.id)
  {
    var i :| 0 <= i < |ws| && ws[i] == w;
    forall v | v in ws && v.id == w.id ensures v == w {
      var j :| 0 <= j < |ws| && ws[j] == v;
    }
  }

  lemma {:induction false} DueIsDue(
      parse: Parser, instants: string -> iset<int>, since: map<string, int>, ws: seq<Workflow>, now: int,
      w: Workflow)
    requires Ranked(ws) && w in ws
    ensures w.id in DueNow(parse, instants, since, ws, now)
        <==> Due(parse, instants(w.trigger.cron), since, w.id, w.trigger, now)
  {
    forall v | v in ws && v.id == w.id ensures v == w {
      var i, j :| 0 <= i < |ws| && 0 <= j < |ws| && ws[i] == v && ws[j] == w;
    }
  }

  /** The list holds the active rows, each once. */
  ghost predicate ListsActive(ws: seq<Workflow>, rows: seq<Workflow>) {
    (forall w :: w in ws <==> w in rows && w.active) && IdsDistinct(ws)
  }

  ghost predicate IdsDistinct(ws: seq<Workflow>) {
    forall i, j | 0 <= i < j < |ws| :: ws[i].id != ws[j].id
  }

  lemma {:induction false} ListedRow(ws: seq<Workflow>, rows: seq<Workflow>, k: nat)
    requires ListsActive(ws, rows) && k < |ws|
    ensures ws[k] in rows
  {
    assert ws[k] in ws;
  }

  lemma {:induction false} ActiveAreListed(ws: seq<Workflow>)
    requires Ranked(ws)
    ensures ListsActive(ActiveNewestFirst(ws), ws)
  {
    ActiveListed(ws);
    ActiveAreDistinct(ws);
  }

  lemma {:induction false} ActiveAreDistinct(ws: seq<Workflow>)
    requires Ranked(ws)
    ensures IdsDistinct(ActiveNewestFirst(ws))
  {
    if ws == [] {
    } else {
      var init, last := ws[..|ws| - 1], ws[|ws| - 1];
      var rest := ActiveNewestFirst(init);
      ActiveAreDistinct(init);
      ActiveListed(init);
      forall j | 0 <= j < |rest| ensures rest[j].id != last.id {
        assert rest[j] in rest;
      }
      OneInFront(last, rest);
    }
  }

  lemma {:induction false} OneInFront(w: Workflow, ws: seq<Workflow>)
    requires IdsDistinct(ws) && forall j | 0 <= j < |ws| :: ws[j].id != w.id
    ensures IdsDistinct([w] + ws)
  {
    var out := [w] + ws;
    assert forall i | 1 <= i < |out| :: out[i] == ws[i - 1];
  }

  /** The range loop of TriggerWorkflow over all clients. */
  method ActiveOf(clients: seq<Client>) returns (ids: seq<string>)
    ensures ids == Grouping.ActiveIDs(clients)
  {
    ids := [];
    for k := 0 to |clients|
      invariant ids == Grouping.ActiveIDs(clients[..k])
    {
      assert clients[..k + 1][..k] == clients[..k];
      if clients[k].active {
        ids := ids + [clients[k].id];
      }
    }
    assert clients[..|clients|] == clients;
  }

  /** From k on, the list holds the active ones of the first n rows, youngest first. */
  ghost predicate RestIsActive(rows: seq<Workflow>, n: nat, wfs: seq<Workflow>, k: nat) {
    n <= |rows| && k <= |wfs| && wfs[k..] == ActiveNewestFirst(rows[..n])
  }

  /** With the first n rows still to come, the books will be those of the whole completion. */
  ghost predicate StillToComplete(world: World, led: Ledger, i: nat, n: nat, start: Ledger) {
    && Ranked(world.wfs) && i < |world.wfs| && n <= |world.wfs|
    && Completed(world, led, i, n) == Completed(world, start, i, |world.wfs|)
  }

  /** The row of the next listed workflow. */
  lemma {:induction false} NextActive(
      world: World, led: Ledger, i: nat, n: nat, wfs: seq<Workflow>, k: nat, start: Ledger) returns (m: nat)
    requires k < |wfs| && RestIsActive(world.wfs, n, wfs, k) && StillToComplete(world, led, i, n, start)
    ensures m < n && wfs[k] == world.wfs[m] && wfs[k].active
    ensures RestIsActive(world.wfs, m, wfs, k + 1) && StillToComplete(world, led, i, m + 1, start)
  {
    var p := SkipInactive(world, led, i, n);
    m := p - 1;
    assert wfs[k..][0] == wfs[k] && wfs[k..][1..] == wfs[k + 1..];
    assert world.wfs[..p][..m] == world.wfs[..m];
  }

  /** Rows that are not active change nothing in the completion loop. */
  lemma {:induction false} SkipInactive(world: World, led: Ledger, i: nat, n: nat) returns (m: nat)
    requires Ranked(world.wfs) && i < |world.wfs| && n <= |world.wfs|
    requires ActiveNewestFirst(world.wfs[..n]) != []
    ensures 0 < m <= n && world.wfs[m - 1].active
    ensures ActiveNewestFirst(world.wfs[..m]) == ActiveNewestFirst(world.wfs[..n])
    ensures Completed(world, led, i, m) == Completed(world, led, i, n)
  {
    if n > 0 && !world.wfs[n - 1].active {
      assert world.wfs[..n][..n - 1] == world.wfs[..n - 1];
      m := SkipInactive(world, led, i, n - 1);
    } else {
      m := n;
    }
  }

  lemma {:induction false} NoneActive(world: World, led: Ledger, i: nat, n: nat)
    requires Ranked(world.wfs) && i < |world.wfs| && n <= |world.wfs|
    requires ActiveNewestFirst(world.wfs[..n]) == []
    ensures Completed(world, led, i, n) == led
  {
    if n == 0 {
    } else {
      assert world.wfs[..n][..n - 1] == world.wfs[..n - 1];
      NoneActive(world, led, i, n - 1);
    }
  }
}
