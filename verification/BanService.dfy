/** The ban service over its repositories, proved to perform the steps of Bans. */
module BanService {
  import opened Sequences
  import opened Wrappers
  import opened Bans

  datatype AlertKind = LoopAlert | ClientBanned | ClientUnbanned | CircuitOpened | CircuitClosed

  /** Who or what the alert is about: a client for bans, a workflow for circuits. */
  datatype Alert = Alert(kind: AlertKind, subject: string, wfType: string)

  class AlertLog {
    var alerts: seq<Alert>

    constructor ()
      ensures alerts == []
    {
      alerts := [];
    }

    method PublishAlert(a: Alert)
      modifies this
      ensures alerts == old(alerts) + [a]
    {
      alerts := alerts + [a];
    }
  }

  /** The rows a query selects, in stored order. */
  function Matching(rows: seq<BanRecord>, keep: BanRecord -> bool): seq<BanRecord> {
    if rows == [] then []
    else
      var last := rows[|rows| - 1];
      Matching(rows[..|rows| - 1], keep) + if keep(last) then [last] else []
  }

  function ActiveOf(client: string, now: int): BanRecord -> bool {
    (b: BanRecord) => b.client == client && b.IsActive(now)
  }

  function ActiveFor(wfType: string, now: int): BanRecord -> bool {
    (b: BanRecord) => b.wfType == wfType && b.IsActive(now)
  }

  lemma {:induction false} MatchingHolds(rows: seq<BanRecord>, keep: BanRecord -> bool)
    ensures forall b :: b in Matching(rows, keep) <==> b in rows && keep(b)
    ensures Subsequence(Matching(rows, keep), rows)
  {
    if rows == [] {
      NothingStands(rows);
    } else {
      var init, last := rows[..|rows| - 1], rows[|rows| - 1];
      MatchingHolds(init, keep);
      SplitLast(rows);
      SubsequenceGrows(Matching(init, keep), init, last);
      JoinNothing(Matching(init, keep));
    }
  }

  /** The bans table. */
  class BanRepo {
    var rows: seq<BanRecord>

    constructor ()
      ensures rows == []
    {
      rows := [];
    }

    method SaveBan(b: BanRecord, dbFails: bool) returns (r: Result<(), BanError>)
      modifies this
      ensures r == if dbFails then Err(DatabaseError) else Ok(())
      ensures rows == if dbFails then old(rows) else old(rows) + [b]
    {
      if dbFails {
        return Err(DatabaseError);
      }
      rows := rows + [b];
      return Ok(());
    }

    method GetActiveBans(client: string, now: int) returns (out: seq<BanRecord>)
      ensures out == Matching(rows, ActiveOf(client, now)) && Subsequence(out, rows)
      ensures forall b :: b in out
                     <==> b in rows && b.client == client && b.active && (b.until.None? || now < b.until.value)
    {
      out := [];
      for k := 0 to |rows|
        invariant out == Matching(rows[..k], ActiveOf(client, now))
      {
        assert rows[..k + 1][..k] == rows[..k];
        if rows[k].client == client && rows[k].IsActive(now) {
          out := out + [rows[k]];
        }
      }
      assert rows[..|rows|] == rows;
      MatchingHolds(rows, ActiveOf(client, now));
    }

    /** Exact type only: a ban from every type is not returned. */
    method GetActiveBansByWorkflowType(wfType: string, now: int) returns (out: seq<BanRecord>)
      ensures out == Matching(rows, ActiveFor(wfType, now)) && Subsequence(out, rows)
      ensures forall b :: b in out
                     <==> b in rows && b.wfType == wfType && b.active && (b.until.None? || now < b.until.value)
    {
      out := [];
      for k := 0 to |rows|
        invariant out == Matching(rows[..k], ActiveFor(wfType, now))
      {
        assert rows[..k + 1][..k] == rows[..k];
        if rows[k].wfType == wfType && rows[k].IsActive(now) {
          out := out + [rows[k]];
        }
      }
      assert rows[..|rows|] == rows;
      MatchingHolds(rows, ActiveFor(wfType, now));
    }

    /** Clears every active flag of the pair, and reports when there was none. */
    method UnbanClient(client: string, wfType: string, dbFails: bool) returns (r: Result<(), BanError>)
      modifies this
      ensures dbFails ==> r == Err(DatabaseError) && rows == old(rows)
      ensures !dbFails ==> rows == Cleared(old(rows), client, wfType)
      ensures !dbFails ==> r == if HasActiveFlag(old(rows), client, wfType) then Ok(()) else Err(BanNotFound)
    {
      if dbFails {
        return Err(DatabaseError);
      }
      var affected := 0;
      ghost var before := rows;
      for k := 0 to |rows|
        invariant |rows| == |before| && 0 <= affected
        invariant forall i | 0 <= i < |rows| ::
          rows[i] == if i < k && before[i].client == client && before[i].wfType == wfType
                     then before[i].(active := false) else before[i]
        invariant affected > 0 <==> HasActiveFlag(before[..k], client, wfType)
      {
        HasActiveFlagGrows(before[..k], before[k], client, wfType);
        assert before[..k + 1] == before[..k] + [before[k]];
        if rows[k].client == client && rows[k].wfType == wfType {
          if rows[k].active {
            affected := affected + 1;
          }
          rows := rows[k := rows[k].(active := false)];
        }
      }
      assert before[..|rows|] == before;
      assert rows == Cleared(before, client, wfType);
      return if affected == 0 then Err(BanNotFound) else Ok(());
    }
  }

  lemma {:induction false} NothingToClear(rows: seq<BanRecord>, client: string, wfType: string)
    requires !HasActiveFlag(rows, client, wfType)
    ensures Cleared(rows, client, wfType) == rows
  {
    forall i | 0 <= i < |rows| ensures Cleared(rows, client, wfType)[i] == rows[i] {
      if rows[i].client == client && rows[i].wfType == wfType {
        assert !rows[i].active;
      }
    }
  }

  /** InMemoryDispatchBlocker: workflow type to banned clients. */
  class DispatchBlocker {
    var bans: Cache

    constructor ()
      ensures bans == map[]
    {
      bans := map[];
    }

    predicate ShouldBlockDispatch(client: string, wfType: string)
      reads this
      ensures ShouldBlockDispatch(client, wfType) == ShouldBlock(bans, client, wfType)
    {
      if wfType in bans && client in bans[wfType] then true
      else "" in bans && client in bans[""]
    }

    method Add(ban: BanRecord, now: int)
      modifies this
      ensures bans == CacheAdd(old(bans), ban, now)
    {
      if !ban.IsActive(now) {
        return;
      }
      if ban.wfType !in bans {
        bans := bans[ban.wfType := {}];
      }
      bans := bans[ban.wfType := bans[ban.wfType] + {ban.client}];
    }

    method Remove(client: string, wfType: string)
      modifies this
      ensures bans == CacheRemove(old(bans), client, wfType)
    {
      if wfType in bans {
        bans := bans[wfType := bans[wfType] - {client}];
      }
    }
  }

  /** BanManager.CanDispatchToClient: no listed ban that concerns the pair is active. */
  predicate CanDispatchToClient(client: string, wfType: string, bans: seq<BanRecord>, now: int) {
    forall i | 0 <= i < |bans| :: bans[i].Concerns(client, wfType) ==> !bans[i].IsActive(now)
  }

  /** Asking the listed bans is asking the table. */
  lemma {:induction false} ListedBansDecide(rows: seq<BanRecord>, client: string, wfType: string, now: int)
    ensures CanDispatchToClient(client, wfType, Matching(rows, ActiveOf(client, now)), now)
       <==> !TableBlocks(rows, client, wfType, now)
  {
    var bans := Matching(rows, ActiveOf(client, now));
    MatchingHolds(rows, ActiveOf(client, now));
    if TableBlocks(rows, client, wfType, now) {
      var i :| 0 <= i < |rows| && rows[i].Concerns(client, wfType) && rows[i].IsActive(now);
      assert rows[i] in bans;
    }
    forall i | 0 <= i < |bans| && bans[i].Concerns(client, wfType) && bans[i].IsActive(now)
      ensures TableBlocks(rows, client, wfType, now)
    {
      assert bans[i] in bans;
      var j :| 0 <= j < |rows| && rows[j] == bans[i];
    }
  }

  class BanEnforcement {
    const repo: BanRepo
    const blocker: DispatchBlocker
    const alerts: AlertLog

    constructor (repo: BanRepo, blocker: DispatchBlocker, alerts: AlertLog)
      ensures this.repo == repo && this.blocker == blocker && this.alerts == alerts
    {
      this.repo := repo;
      this.blocker := blocker;
      this.alerts := alerts;
    }

    ghost function State(): BanState
      reads repo, blocker
    {
      BanState(repo.rows, blocker.bans)
    }

    method BanClient(
        client: string, wfType: string, runID: string, evidence: string, reason: BanReason, now: int,
        dbFails: bool)
      returns (r: Result<BanRecord, BanError>)
      modifies repo, blocker, alerts
      ensures var ban := ApplyBan(client, wfType, runID, evidence, reason, now);
              && State() == Apply(old(State()), Ban(ban, dbFails))
              && r == (if dbFails then Err(DatabaseError) else Ok(ban))
      ensures alerts.alerts == old(alerts.alerts) + if dbFails then [] else [Alert(ClientBanned, client, wfType)]
    {
      var ban := ApplyBan(client, wfType, runID, evidence, reason, now);
      var saved := repo.SaveBan(ban, dbFails);
      if saved.Err? {
        return Err(saved.error);
      }
      blocker.Add(ban, now);
      alerts.PublishAlert(Alert(ClientBanned, client, wfType));
      return Ok(ban);
    }

    method UnbanClient(client: string, wfType: string, dbFails: bool) returns (r: Result<(), BanError>)
      modifies repo, blocker, alerts
      ensures State() == Apply(old(State()), Unban(client, wfType, dbFails))
      ensures r.Ok? <==> !dbFails && HasActiveFlag(old(repo.rows), client, wfType)
      ensures alerts.alerts == old(alerts.alerts) + if r.Ok? then [Alert(ClientUnbanned, client, wfType)] else []
    {
      r := repo.UnbanClient(client, wfType, dbFails);
      if r.Err? {
        if !dbFails {
          NothingToClear(old(repo.rows), client, wfType);
        }
        return;
      }
      blocker.Remove(client, wfType);
      alerts.PublishAlert(Alert(ClientUnbanned, client, wfType));
    }

    method IsBanned(client: string, wfType: string, now: int) returns (banned: bool)
      ensures banned <==> Banned(State(), client, wfType, now)
    {
      if blocker.ShouldBlockDispatch(client, wfType) {
        return true;
      }
      var bans := repo.GetActiveBans(client, now);
      banned := !CanDispatchToClient(client, wfType, bans, now);
      ListedBansDecide(repo.rows, client, wfType, now);
    }

    /** A restart: the blocker is new, and every row active at this instant enters it. */
    method WarmCache(now: int)
      requires blocker.bans == map[]
      modifies blocker
      ensures State() == Apply(old(State()), Restart(now))
    {
      for k := 0 to |repo.rows|
        invariant blocker.bans == Warm(map[], repo.rows[..k], now)
      {
        assert repo.rows[..k + 1][..k] == repo.rows[..k];
        if repo.rows[k].IsActive(now) {
          blocker.Add(repo.rows[k], now);
        }
      }
      assert repo.rows[..|repo.rows|] == repo.rows;
    }
  }
}
