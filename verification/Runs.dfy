/** Runs of workflows and the table that loop detection queries. */
module Runs {
  import opened Tables
  import opened Wrappers

  datatype RunState = RunPending | RunInProgress | RunCompleted | RunFailed

  datatype Run = Run(
    id: string, wfID: string, wfType: string, triggeredAt: int, dispatchedAt: Option<int>,
    participants: seq<string>, state: RunState, reason: string)

  datatype RunError = RunNotFound | DuplicateKey

  /** The runs table and the runs_clients table; only creation writes the second one. */
  datatype RunTables = RunTables(runs: seq<Run>, listed: set<(string, string)>)

  function Position(runs: seq<Run>, id: string): (i: nat)
    ensures i <= |runs|
    ensures i < |runs| ==> runs[i].id == id
    ensures forall k | 0 <= k < i :: runs[k].id != id
  {
    Find(runs, (r: Run) => r.id, id)
  }

  predicate Repeats(ids: seq<string>) {
    exists i, j | 0 <= i < j < |ids| :: ids[i] == ids[j]
  }

  /** Primary keys refuse a known run id and a client listed twice; the transaction rolls back. */
  predicate Refused(t: RunTables, run: Run) {
    || Position(t.runs, run.id) < |t.runs|
    || Repeats(run.participants)
    || exists i | 0 <= i < |run.participants| :: (run.id, run.participants[i]) in t.listed
  }

  function Created(t: RunTables, run: Run): RunTables {
    RunTables(t.runs + [run], t.listed + set i | 0 <= i < |run.participants| :: (run.id, run.participants[i]))
  }

  function Updated(t: RunTables, run: Run): RunTables {
    var i := Position(t.runs, run.id);
    if i < |t.runs| then t.(runs := t.runs[i := run]) else t
  }

  /** Run ids are distinct and non-empty. */
  ghost predicate Keyed(t: RunTables) {
    && (forall i | 0 <= i < |t.runs| :: t.runs[i].id != "")
    && forall i, j | 0 <= i < j < |t.runs| :: t.runs[i].id != t.runs[j].id
  }

  /** Creating and updating runs keeps ids and types where they are. */
  ghost predicate Extends(t: RunTables, t': RunTables) {
    && Keyed(t') && |t.runs| <= |t'.runs|
    && forall i | 0 <= i < |t.runs| :: t'.runs[i].id == t.runs[i].id && t'.runs[i].wfType == t.runs[i].wfType
  }

  /** The same runs under the same keys; at most their states differ. */
  ghost predicate SameRuns(t: RunTables, t': RunTables) {
    t'.listed == t.listed && |t'.runs| == |t.runs|
    && forall i | 0 <= i < |t.runs| :: t'.runs[i] == t.runs[i].(state := t'.runs[i].state)
  }

  lemma {:induction false} SameRunsKeyed(t: RunTables, t': RunTables)
    requires SameRuns(t, t') && Keyed(t)
    ensures Keyed(t')
  {
    forall i | 0 <= i < |t.runs| ensures t'.runs[i].id == t.runs[i].id {
    }
  }

  lemma {:induction false} ExtendsJoin(a: RunTables, b: RunTables, c: RunTables)
    requires Extends(a, b) && Extends(b, c)
    ensures Extends(a, c)
  {
  }

  /** A row GetPreviousRun may return: another run of the type, not later, that lists the client. */
  predicate Earlier(t: RunTables, r: Run, client: string, wfType: string, current: string, before: int) {
    r.id != current && r.wfType == wfType && (r.id, client) in t.listed && r.triggeredAt <= before
  }

  function Pairs(id: string, ids: seq<string>): set<(string, string)> {
    set i | 0 <= i < |ids| :: (id, ids[i])
  }

  lemma {:induction false} PairsAfter(id: string, ids: seq<string>, last: string)
    ensures Pairs(id, ids + [last]) == Pairs(id, ids) + {(id, last)}
    ensures (id, last) in Pairs(id, ids) <==> last in ids
  {
    var all := ids + [last];
    assert all[|ids|] == last;
    forall p | p in Pairs(id, ids) ensures p in Pairs(id, all) {
      var i :| 0 <= i < |ids| && p == (id, ids[i]);
      assert all[i] == ids[i];
    }
  }

  lemma {:induction false} RepeatsAfter(ids: seq<string>, last: string)
    ensures Repeats(ids + [last]) <==> Repeats(ids) || last in ids
  {
    var all := ids + [last];
    if Repeats(ids) {
      var i, j :| 0 <= i < j < |ids| && ids[i] == ids[j];
      assert all[i] == all[j];
    }
    if last in ids {
      var i :| 0 <= i < |ids| && ids[i] == last;
      assert all[i] == all[|ids|];
    }
  }

  /** No pair is lost exactly when no client is listed twice and none was listed before. */
  lemma {:induction false} PairsCount(listed: set<(string, string)>, id: string, ids: seq<string>)
    ensures |listed + Pairs(id, ids)| <= |listed| + |ids|
    ensures |listed + Pairs(id, ids)| == |listed| + |ids|
       <==> !Repeats(ids) && forall c | c in ids :: (id, c) !in listed
  {
    if ids == [] {
      assert listed + Pairs(id, ids) == listed;
    } else {
      var init, last := ids[..|ids| - 1], ids[|ids| - 1];
      PairsCount(listed, id, init);
      assert ids == init + [last];
      PairsAfter(id, init, last);
      RepeatsAfter(init, last);
      assert listed + Pairs(id, ids) == (listed + Pairs(id, init)) + {(id, last)};
    }
  }

  /** A creation is refused exactly when a run key or a pair of run and client would stand twice. */
  lemma {:induction false} RefusedExactly(t: RunTables, run: Run)
    requires Keyed(t) && run.id != ""
    ensures var after := Created(t, run);
            !Refused(t, run) <==> Keyed(after) && |after.listed| == |t.listed| + |run.participants|
  {
    PairsCount(t.listed, run.id, run.participants);
    assert Created(t, run).listed == t.listed + Pairs(run.id, run.participants);
    var i := Position(t.runs, run.id);
    if i < |t.runs| {
      assert Created(t, run).runs[i].id == Created(t, run).runs[|t.runs|].id;
    }
    assert forall k | 0 <= k < |t.runs| :: Created(t, run).runs[k] == t.runs[k];
    if i :| 0 <= i < |run.participants| && (run.id, run.participants[i]) in t.listed {
      assert run.participants[i] in run.participants;
    }
  }

  class RunRepo {
    var tables: RunTables

    constructor ()
      ensures tables == RunTables([], {})
    {
      tables := RunTables([], {});
    }

    method CreateRun(run: Run) returns (r: Result<(), RunError>)
      modifies this
      ensures tables == if Refused(old(tables), run) then old(tables) else Created(old(tables), run)
      ensures r == if Refused(old(tables), run) then Err(DuplicateKey) else Ok(())
    {
      if Position(tables.runs, run.id) < |tables.runs| {
        return Err(DuplicateKey);
      }
      var listed := tables.listed;
      for k := 0 to |run.participants|
        invariant listed == tables.listed + set i | 0 <= i < k :: (run.id, run.participants[i])
        invariant forall i, j | 0 <= i < j < k :: run.participants[i] != run.participants[j]
        invariant forall i | 0 <= i < k :: (run.id, run.participants[i]) !in tables.listed
      {
        var pair := (run.id, run.participants[k]);
        if pair in listed {
          if pair !in tables.listed {
            var i :| 0 <= i < k && pair == (run.id, run.participants[i]);
            assert Repeats(run.participants);
          }
          return Err(DuplicateKey);
        }
        assert forall i | 0 <= i < k :: (run.id, run.participants[i]) in listed;
        listed := listed + {pair};
      }
      tables := RunTables(tables.runs + [run], listed);
      return Ok(());
    }

    method GetRun(id: string) returns (r: Result<Run, RunError>)
      ensures var i := Position(tables.runs, id);
              r == if i < |tables.runs| then Ok(tables.runs[i]) else Err(RunNotFound)
    {
      var i := Position(tables.runs, id);
      return if i < |tables.runs| then Ok(tables.runs[i]) else Err(RunNotFound);
    }

    method UpdateRun(run: Run) returns (r: Result<(), RunError>)
      modifies this
      ensures tables == Updated(old(tables), run)
      ensures r == if Position(old(tables.runs), run.id) < |old(tables.runs)| then Ok(()) else Err(RunNotFound)
    {
      var i := Position(tables.runs, run.id);
      if i == |tables.runs| {
        return Err(RunNotFound);
      }
      tables := tables.(runs := tables.runs[i := run]);
      return Ok(());
    }

    /** A latest earlier run; among runs of the same instant the query does not say which. */
    method GetPreviousRun(
        client: string, wfType: string, current: string, before: int) returns (r: Result<Run, RunError>)
      ensures r.Ok? ==> r.value in tables.runs && Earlier(tables, r.value, client, wfType, current, before)
      ensures r.Ok? ==> forall q | q in tables.runs && Earlier(tables, q, client, wfType, current, before) ::
                q.triggeredAt <= r.value.triggeredAt
      ensures r.Err? ==> r == Err(RunNotFound)
      ensures r.Err? ==> forall q | q in tables.runs :: !Earlier(tables, q, client, wfType, current, before)
    {
      var runs := tables.runs;
      r := Err(RunNotFound);
      for k := 0 to |runs|
        invariant r.Ok? ==> r.value in runs[..k] && Earlier(tables, r.value, client, wfType, current, before)
        invariant r.Ok? ==> forall q | q in runs[..k] && Earlier(tables, q, client, wfType, current, before) ::
                    q.triggeredAt <= r.value.triggeredAt
        invariant r.Err? ==> r == Err(RunNotFound)
        invariant r.Err? ==> forall q | q in runs[..k] :: !Earlier(tables, q, client, wfType, current, before)
      {
        if Earlier(tables, runs[k], client, wfType, current, before)
           && (r.Err? || runs[k].triggeredAt > r.value.triggeredAt) {
          r := Ok(runs[k]);
        }
      }
    }
  }
}
