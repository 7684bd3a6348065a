/** Filtering banned clients out of a run and sending it, up to the first broker failure. */
module Dispatching {
  import opened Sequences
  import opened Wrappers
  import opened Bans
  import opened BanService
  import W = Workflows
  import opened Runs

  /** wfType is not on the wire; it is the type the client was cleared for. */
  datatype Dispatch = Dispatch(runID: string, wfID: string, wfType: string, client: string, activity: W.ActivityType)
  {
    predicate IsValid() {
      runID != "" && wfID != "" && W.IsValidActivity(activity)
    }
  }

  /** Whether the broker takes the message of a workflow for a client: any outcome is possible. */
  type Net = (string, string) -> bool

  ghost function Admitted(bans: BanState, wfType: string, now: int, ids: seq<string>): seq<string> {
    if ids == [] then []
    else
      var last := ids[|ids| - 1];
      Admitted(bans, wfType, now, ids[..|ids| - 1]) + if Banned(bans, last, wfType, now) then [] else [last]
  }

  ghost function Withheld(bans: BanState, wfType: string, now: int, ids: seq<string>): seq<string> {
    if ids == [] then []
    else
      var last := ids[|ids| - 1];
      Withheld(bans, wfType, now, ids[..|ids| - 1]) + if Banned(bans, last, wfType, now) then [last] else []
  }

  lemma {:induction false} FilterKeepsOrder(bans: BanState, wfType: string, now: int, ids: seq<string>)
    ensures Subsequence(Admitted(bans, wfType, now, ids), ids)
    ensures Subsequence(Withheld(bans, wfType, now, ids), ids)
  {
    if ids == [] {
      NothingStands(ids);
    } else {
      var init, last := ids[..|ids| - 1], ids[|ids| - 1];
      FilterKeepsOrder(bans, wfType, now, init);
      SubsequenceGrows(Admitted(bans, wfType, now, init), init, last);
      SubsequenceGrows(Withheld(bans, wfType, now, init), init, last);
      JoinNothing(Admitted(bans, wfType, now, init));
      JoinNothing(Withheld(bans, wfType, now, init));
      SplitLast(ids);
    }
  }

  lemma {:induction false} FilterPartitions(bans: BanState, wfType: string, now: int, ids: seq<string>)
    ensures multiset(Admitted(bans, wfType, now, ids)) + multiset(Withheld(bans, wfType, now, ids)) == multiset(ids)
  {
    if ids == [] {
    } else {
      var init, last := ids[..|ids| - 1], ids[|ids| - 1];
      FilterPartitions(bans, wfType, now, init);
      assert ids == init + [last];
    }
  }

  lemma {:induction false} FilterDecides(bans: BanState, wfType: string, now: int, ids: seq<string>)
    ensures forall id :: id in Admitted(bans, wfType, now, ids) <==> id in ids && !Banned(bans, id, wfType, now)
    ensures forall id :: id in Withheld(bans, wfType, now, ids) <==> id in ids && Banned(bans, id, wfType, now)
  {
    if ids == [] {
    } else {
      var init, last := ids[..|ids| - 1], ids[|ids| - 1];
      FilterDecides(bans, wfType, now, init);
      assert forall id :: id in ids <==> id in init || id == last;
    }
  }

  /** The filter splits the list: nobody is lost, nobody is invented, and order is kept on both sides. */
  lemma {:induction false} FilterSplits(bans: BanState, wfType: string, now: int, ids: seq<string>)
    ensures var yes, no := Admitted(bans, wfType, now, ids), Withheld(bans, wfType, now, ids);
            && multiset(yes) + multiset(no) == multiset(ids)
            && (forall id :: id in yes <==> id in ids && !Banned(bans, id, wfType, now))
            && (forall id :: id in no <==> id in ids && Banned(bans, id, wfType, now))
            && Subsequence(yes, ids) && Subsequence(no, ids)
  {
    FilterKeepsOrder(bans, wfType, now, ids);
    FilterPartitions(bans, wfType, now, ids);
    FilterDecides(bans, wfType, now, ids);
  }

  class DispatchFilter {
    const ban: BanEnforcement

    constructor (ban: BanEnforcement)
      ensures this.ban == ban
    {
      this.ban := ban;
    }

    method FilterDispatchList(
        wfType: string, ids: seq<string>, now: int) returns (allowed: seq<string>, filtered: seq<string>)
      ensures allowed == Admitted(ban.State(), wfType, now, ids)
      ensures filtered == Withheld(ban.State(), wfType, now, ids)
    {
      allowed, filtered := [], [];
      for k := 0 to |ids|
        invariant allowed == Admitted(ban.State(), wfType, now, ids[..k])
        invariant filtered == Withheld(ban.State(), wfType, now, ids[..k])
      {
        assert ids[..k + 1][..k] == ids[..k];
        var blocked := ban.IsBanned(ids[k], wfType, now);
        if blocked {
          filtered := filtered + [ids[k]];
          continue;
        }
        allowed := allowed + [ids[k]];
      }
      assert ids[..|ids|] == ids;
    }
  }

  function Generated(run: Run, w: W.Workflow, ids: seq<string>): (ds: seq<Dispatch>)
    ensures |ds| == |ids|
  {
    seq(|ids|, i requires 0 <= i < |ids| => Dispatch(run.id, w.id, w.wfType, ids[i], w.activity))
  }

  /** The longest prefix of the clients whose messages the broker takes. */
  function Reached(net: Net, wfID: string, ids: seq<string>): (r: seq<string>)
    ensures r <= ids
    ensures forall c | c in r :: net(wfID, c)
    ensures |r| < |ids| ==> !net(wfID, ids[|r|])
  {
    if ids == [] || !net(wfID, ids[0]) then []
    else [ids[0]] + Reached(net, wfID, ids[1..])
  }

  lemma {:induction false} ReachedIs(net: Net, wfID: string, ids: seq<string>, k: nat)
    requires k <= |ids| && forall i | 0 <= i < k :: net(wfID, ids[i])
    requires k < |ids| ==> !net(wfID, ids[k])
    ensures Reached(net, wfID, ids) == ids[..k]
    decreases k
  {
    if k == 0 {
    } else {
      ReachedIs(net, wfID, ids[1..], k - 1);
      assert ids[..k] == [ids[0]] + ids[1..][..k - 1];
    }
  }

  /** Messages without ids or with an unknown activity are skipped, not sent and not failed. */
  predicate Sendable(run: Run, w: W.Workflow) {
    run.id != "" && w.id != "" && W.IsValidActivity(w.activity)
  }

  /** The run row after a complete dispatch. */
  function Dispatched(run: Run, allowed: seq<string>, now: int): Run {
    run.(participants := allowed, dispatchedAt := Some(now), state := RunInProgress)
  }

  class Broker {
    var sent: seq<Dispatch>

    constructor ()
      ensures sent == []
    {
      sent := [];
    }

    method SendDispatch(d: Dispatch, net: Net) returns (ok: bool)
      modifies this
      ensures ok == net(d.wfID, d.client)
      ensures sent == old(sent) + if ok then [d] else []
    {
      ok := net(d.wfID, d.client);
      if ok {
        sent := sent + [d];
      }
    }
  }

  class DispatchCoordination {
    const runs: RunRepo
    const broker: Broker
    const filter: DispatchFilter

    constructor (runs: RunRepo, broker: Broker, filter: DispatchFilter)
      ensures this.runs == runs && this.broker == broker && this.filter == filter
    {
      this.runs := runs;
      this.broker := broker;
      this.filter := filter;
    }

    /**
     * Sends the cleared clients in order; a broker failure stops it, leaving the run row as
     * created and the messages already taken on their way.
     */
    method SendDispatches(
        run: Run, w: W.Workflow, ids: seq<string>, net: Net, now: int) returns (ok: bool, sentRun: Run)
      modifies runs, broker
      ensures var allowed := Admitted(filter.ban.State(), w.wfType, now, ids);
              var reached := if Sendable(run, w) then Reached(net, w.id, allowed) else [];
              && ok == (reached == allowed || !Sendable(run, w))
              && broker.sent == old(broker.sent) + Generated(run, w, reached)
              && sentRun == (if ok then Dispatched(run, allowed, now) else run.(participants := allowed))
              && runs.tables == if ok then Updated(old(runs.tables), sentRun) else old(runs.tables)
    {
      var allowed, _ := filter.FilterDispatchList(w.wfType, ids, now);
      sentRun := run.(participants := allowed);
      var ds := Generated(run, w, allowed);
      for k := 0 to |ds|
        invariant Sendable(run, w) ==> forall i | 0 <= i < k :: net(w.id, allowed[i])
        invariant broker.sent == old(broker.sent) + Generated(run, w, if Sendable(run, w) then allowed[..k] else [])
        invariant runs.tables == old(runs.tables)
      {
        if !ds[k].IsValid() {
          continue;
        }
        var taken := broker.SendDispatch(ds[k], net);
        if !taken {
          ReachedIs(net, w.id, allowed, k);
          return false, sentRun;
        }
        assert Generated(run, w, allowed[..k + 1]) == Generated(run, w, allowed[..k]) + [ds[k]];
      }
      if Sendable(run, w) {
        ReachedIs(net, w.id, allowed, |allowed|);
      }
      assert allowed[..|allowed|] == allowed;
      sentRun := sentRun.(dispatchedAt := Some(now), state := RunInProgress);
      var _ := runs.UpdateRun(sentRun);
      return true, sentRun;
    }
  }
}
