/**
 * Triggering a workflow, and the cascade of event workflows its completion sets off.
 *
 * Trigger follows the code: create the run, dispatch it, publish its completion, and trigger
 * every active workflow that waits for it, recursively. The recursion ends because links never
 * point forward in creation order. The cascade is then shown to be the same as triggering, one
 * by one, exactly the workflows that Started names.
 */
module Cascade {
  import opened Wrappers
  import opened FilterSyntax
  import opened FilterEval
  import opened Bans
  import opened Workflows
  import opened Runs
  import opened Dispatching
  import Grouping

  /** What a trigger reads but does not change; mint(k) is the k-th id the server draws for a run. */
  datatype World = World(
    rt: Runtime, wfs: seq<Workflow>, clients: seq<Client>, bans: BanState, now: int, mint: nat -> string, net: Net)

  /** What a trigger changes: the run tables, the broker's log, and the supply of ids. */
  datatype Ledger = Ledger(tables: RunTables, sent: seq<Dispatch>, minted: nat)

  datatype TriggerError = UnknownWorkflow | Inactive | FilterFailed(e: FilterError) | RunRefused | SendFailed

  ghost predicate Legal(world: World) {
    && Ranked(world.wfs)
    && Grouping.DistinctIDs(world.clients)
    && (forall k: nat :: world.mint(k) != "")
    && (forall j: nat, k: nat | j != k :: world.mint(j) != world.mint(k))
  }

  /** Every id in the tables has been drawn, and every row of runs_clients belongs to a run. */
  ghost predicate DrawnFrom(mint: nat -> string, led: Ledger) {
    && (forall r | r in led.tables.runs :: exists k: nat :: k < led.minted && r.id == mint(k))
    && (forall p | p in led.tables.listed :: exists k: nat :: k < led.minted && p.0 == mint(k))
  }

  ghost predicate Drawn(world: World, led: Ledger) {
    DrawnFrom(world.mint, led)
  }

  /** The clients a workflow is aimed at now. */
  function Targets(world: World, w: Workflow): Result<seq<string>, TriggerError> {
    if w.targetFilter == "" then Ok(Grouping.ActiveIDs(world.clients))
    else
      match Grouping.Resolve(world.rt, w.targetFilter, world.clients)
      case Err(e) => Err(FilterFailed(e))
      case Ok(ids) => Ok(ids)
  }

  function NewRun(world: World, w: Workflow, ids: seq<string>, k: nat, reason: string): Run {
    Run(world.mint(k), w.id, w.wfType, world.now, None, ids, RunPending, reason)
  }

  /** Everything up to and including the dispatch of one workflow; no events. */
  ghost function TriggerAlone(world: World, led: Ledger, w: Workflow, reason: string): (Ledger, Option<TriggerError>) {
    if !w.active then (led, Some(Inactive))
    else
      match Targets(world, w)
      case Err(e) => (led, Some(e))
      case Ok(ids) =>
        var run := NewRun(world, w, ids, led.minted, reason);
        if Refused(led.tables, run) then (led.(minted := led.minted + 1), Some(RunRefused))
        else
          var tables := Created(led.tables, run);
          var allowed := Admitted(world.bans, w.wfType, world.now, ids);
          var reached := if Sendable(run, w) then Reached(world.net, w.id, allowed) else [];
          var sent := led.sent + Generated(run, w, reached);
          if reached == allowed || !Sendable(run, w)
          then (Ledger(Updated(tables, Dispatched(run, allowed, world.now)), sent, led.minted + 1), None)
          else (Ledger(tables, sent, led.minted + 1), Some(SendFailed))
  }

  /** j is an active event workflow waiting for the workflow named id. */
  predicate Waits(w: Workflow, id: string) {
    w.active && w.trigger.kind.OnEvent? && w.trigger.onComplete != "" && w.trigger.onComplete == id
  }

  /** TriggerWorkflow with the events it publishes. */
  ghost function Trigger(world: World, led: Ledger, i: nat, reason: string): (Ledger, Option<TriggerError>)
    requires Ranked(world.wfs) && i < |world.wfs|
    decreases |world.wfs| - i, |world.wfs| + 1
  {
    var (after, error) := TriggerAlone(world, led, world.wfs[i], reason);
    if error.Some? then (after, error)
    else (Completed(world, after, i, |world.wfs|), None)
  }

  /** The completion handler of workflow i, working through the first n rows, youngest first. */
  ghost function Completed(world: World, led: Ledger, i: nat, n: nat): Ledger
    requires Ranked(world.wfs) && i < |world.wfs| && n <= |world.wfs|
    decreases |world.wfs| - i, n
  {
    if n == 0 then led
    else if Waits(world.wfs[n - 1], world.wfs[i].id) then
      Completed(world, Trigger(world, led, n - 1, "event:" + world.wfs[i].id).0, i, n - 1)
    else Completed(world, led, i, n - 1)
  }

  // ---------------------------------------------------------------- which workflows run

  /** The workflow can create a run. */
  predicate Starts(world: World, w: Workflow) {
    w.active && Targets(world, w).Ok?
  }

  /** Its dispatch goes through, so that its completion is published. */
  ghost predicate Delivers(world: World, w: Workflow)
    requires Starts(world, w)
  {
    var allowed := Admitted(world.bans, w.wfType, world.now, Targets(world, w).value);
    Reached(world.net, w.id, allowed) == allowed
  }

  /** The links of a chain from root to j hold, every workflow on it starts, and all before j deliver. */
  ghost predicate Started(world: World, root: nat, j: nat)
    requires Ranked(world.wfs) && root < |world.wfs| && j < |world.wfs|
    decreases j
  {
    && Starts(world, world.wfs[j])
    && (|| j == root
        || exists p | 0 <= p < j ::
             && Waits(world.wfs[j], world.wfs[p].id)
             && Started(world, root, p)
             && Delivers(world, world.wfs[p]))
  }

  /** The order in which the cascade from i creates runs. */
  ghost function Order(world: World, i: nat): seq<nat>
    requires Ranked(world.wfs) && i < |world.wfs|
    decreases |world.wfs| - i, |world.wfs| + 1
  {
    if !Starts(world, world.wfs[i]) then []
    else [i] + if Delivers(world, world.wfs[i]) then OrderBelow(world, i, |world.wfs|) else []
  }

  ghost function OrderBelow(world: World, i: nat, n: nat): seq<nat>
    requires Ranked(world.wfs) && i < |world.wfs| && n <= |world.wfs|
    decreases |world.wfs| - i, n
  {
    if n == 0 then []
    else (if Waits(world.wfs[n - 1], world.wfs[i].id) then Order(world, n - 1) else []) + OrderBelow(world, i, n - 1)
  }

  // ---------------------------------------------------------------- Started as a tree

  lemma {:induction false} StartedIsBelow(world: World, root: nat, j: nat)
    requires Ranked(world.wfs) && root < |world.wfs| && j < |world.wfs| && Started(world, root, j)
    ensures root <= j
    decreases j
  {
    if j != root {
      var p :| 0 <= p < j && Waits(world.wfs[j], world.wfs[p].id) && Started(world, root, p)
          && Delivers(world, world.wfs[p]);
      StartedIsBelow(world, root, p);
    }
  }

  /** A workflow has at most one predecessor. */
  lemma {:induction false} OneParent(world: World, j: nat, p: nat, q: nat)
    requires Ranked(world.wfs) && j < |world.wfs| && p < |world.wfs| && q < |world.wfs|
    requires Waits(world.wfs[j], world.wfs[p].id) && Waits(world.wfs[j], world.wfs[q].id)
    ensures p == q < j
  {
  }

  /** Everything started below i hangs under one of the workflows that wait for i. */
  lemma {:induction false} StartedViaChild(world: World, i: nat, j: nat) returns (k: nat)
    requires Ranked(world.wfs) && i < |world.wfs| && j < |world.wfs| && Started(world, i, j) && j != i
    ensures Starts(world, world.wfs[i]) && Delivers(world, world.wfs[i])
    ensures k < |world.wfs| && Waits(world.wfs[k], world.wfs[i].id) && Started(world, k, j)
    decreases j
  {
    var p :| 0 <= p < j && Waits(world.wfs[j], world.wfs[p].id) && Started(world, i, p)
        && Delivers(world, world.wfs[p]);
    if p == i {
      k := j;
    } else {
      k := StartedViaChild(world, i, p);
    }
  }

  lemma {:induction false} ChildStarted(world: World, i: nat, k: nat, j: nat)
    requires Ranked(world.wfs) && i < |world.wfs| && k < |world.wfs| && j < |world.wfs|
    requires Starts(world, world.wfs[i]) && Delivers(world, world.wfs[i])
    requires Waits(world.wfs[k], world.wfs[i].id) && Started(world, k, j)
    ensures Started(world, i, j) && i < j
    decreases j
  {
    if j == k {
      assert Started(world, i, i);
    } else {
      var p :| 0 <= p < j && Waits(world.wfs[j], world.wfs[p].id) && Started(world, k, p)
          && Delivers(world, world.wfs[p]);
      ChildStarted(world, i, k, p);
    }
  }

  /** A workflow that waits for i is not started below another one that does. */
  lemma {:induction false} SiblingNotBelow(world: World, i: nat, k: nat, l: nat)
    requires Ranked(world.wfs) && i < |world.wfs| && k < |world.wfs| && l < |world.wfs|
    requires Waits(world.wfs[k], world.wfs[i].id) && Waits(world.wfs[l], world.wfs[i].id) && Started(world, l, k)
    ensures k == l
  {
    if k != l {
      var p :| 0 <= p < k && Waits(world.wfs[k], world.wfs[p].id) && Started(world, l, p)
          && Delivers(world, world.wfs[p]);
      OneParent(world, k, p, i);
      StartedIsBelow(world, l, p);
      OneParent(world, l, i, i);
      assert false;
    }
  }

  /** The cascades of two different waiting workflows never meet. */
  lemma {:induction false} SubtreesAreDisjoint(world: World, i: nat, k: nat, l: nat, j: nat)
    requires Ranked(world.wfs) && i < |world.wfs| && k < |world.wfs| && l < |world.wfs| && j < |world.wfs|
    requires Waits(world.wfs[k], world.wfs[i].id) && Waits(world.wfs[l], world.wfs[i].id)
    requires Started(world, k, j) && Started(world, l, j)
    ensures k == l
    decreases j
  {
    if j == k {
      SiblingNotBelow(world, i, k, l);
    } else if j == l {
      SiblingNotBelow(world, i, l, k);
    } else {
      var p :| 0 <= p < j && Waits(world.wfs[j], world.wfs[p].id) && Started(world, k, p);
      var q :| 0 <= q < j && Waits(world.wfs[j], world.wfs[q].id) && Started(world, l, q);
      OneParent(world, j, p, q);
      SubtreesAreDisjoint(world, i, k, l, p);
    }
  }
}
