/** Results reported by clients, and the table that keeps the first one per run and client. */
module Results {
  import opened Sequences
  import opened FilterSyntax

  datatype Status = Success | Failure | Errored | OtherStatus(text: string)

  datatype ClientResult = ClientResult(runID: string, wfID: string, client: string, status: Status,
      state: map<string, Value>, payload: string)
  {
    predicate IsValid() {
      runID != "" && client != "" && wfID != "" && !status.OtherStatus?
    }
  }

  predicate Answered(rows: seq<ClientResult>, runID: string, client: string) {
    exists i | 0 <= i < |rows| :: rows[i].runID == runID && rows[i].client == client
  }

  /** Insert, or do nothing when the run already has a result of that client. */
  function Kept(rows: seq<ClientResult>, r: ClientResult): seq<ClientResult> {
    if Answered(rows, r.runID, r.client) then rows else rows + [r]
  }

  function OfRun(rows: seq<ClientResult>, runID: string): seq<ClientResult> {
    if rows == [] then []
    else
      var last := rows[|rows| - 1];
      OfRun(rows[..|rows| - 1], runID) + if last.runID == runID then [last] else []
  }

  /** The rows of a run are its rows in the table, in stored order. */
  lemma {:induction false} OfRunHolds(rows: seq<ClientResult>, runID: string)
    ensures forall r :: r in OfRun(rows, runID) <==> r in rows && r.runID == runID
    ensures Subsequence(OfRun(rows, runID), rows)
  {
    if rows == [] {
      NothingStands(rows);
    } else {
      var init, last := rows[..|rows| - 1], rows[|rows| - 1];
      OfRunHolds(init, runID);
      SplitLast(rows);
      SubsequenceGrows(OfRun(init, runID), init, last);
      JoinNothing(OfRun(init, runID));
    }
  }

  function StoredAll(saves: seq<ClientResult>): seq<ClientResult> {
    if saves == [] then [] else Kept(StoredAll(saves[..|saves| - 1]), saves[|saves| - 1])
  }

  /** No earlier save was for the same run and client. */
  ghost predicate IsFirst(saves: seq<ClientResult>, i: nat)
    requires i < |saves|
  {
    forall j | 0 <= j < i :: saves[j].runID != saves[i].runID || saves[j].client != saves[i].client
  }

  lemma {:induction false} AnsweredOnce(saves: seq<ClientResult>, runID: string, client: string)
    ensures Answered(StoredAll(saves), runID, client) <==> Answered(saves, runID, client)
  {
    if saves == [] {
    } else {
      var init, last := saves[..|saves| - 1], saves[|saves| - 1];
      AnsweredOnce(init, runID, client);
      AnsweredOnce(init, last.runID, last.client);
      AnsweredGrows(init, last, runID, client);
      AnsweredGrows(StoredAll(init), last, runID, client);
      SplitLast(saves);
    }
  }

  lemma {:induction false} AnsweredGrows(rows: seq<ClientResult>, r: ClientResult, runID: string, client: string)
    ensures Answered(rows + [r], runID, client)
       <==> Answered(rows, runID, client) || (r.runID == runID && r.client == client)
  {
    var all := rows + [r];
    assert all[|rows|] == r;
    if Answered(rows, runID, client) {
      var i :| 0 <= i < |rows| && rows[i].runID == runID && rows[i].client == client;
      assert all[i] == rows[i];
    }
  }

  /** Over any saves, the table keeps exactly the first result of each client for each run. */
  lemma {:induction false} FirstResultStays(saves: seq<ClientResult>)
    ensures forall r :: r in StoredAll(saves) <==> exists i: nat :: i < |saves| && saves[i] == r && IsFirst(saves, i)
    ensures Subsequence(StoredAll(saves), saves)
  {
    if saves == [] {
      NothingStands(saves);
    } else {
      var n := |saves| - 1;
      var init, last := saves[..n], saves[n];
      FirstResultStays(init);
      SplitLast(saves);
      SubsequenceGrows(StoredAll(init), init, last);
      AnsweredOnce(init, last.runID, last.client);
      assert forall i: nat | i < n :: IsFirst(init, i) == IsFirst(saves, i) && init[i] == saves[i];
      assert IsFirst(saves, n) <==> !Answered(init, last.runID, last.client);
    }
  }

  class ResultRepo {
    var rows: seq<ClientResult>

    constructor ()
      ensures rows == []
    {
      rows := [];
    }

    method SaveResult(r: ClientResult)
      modifies this
      ensures rows == Kept(old(rows), r)
    {
      if !Answered(rows, r.runID, r.client) {
        rows := rows + [r];
      }
    }

    method GetRunResults(runID: string) returns (out: seq<ClientResult>)
      ensures out == OfRun(rows, runID)
    {
      out := [];
      for k := 0 to |rows|
        invariant out == OfRun(rows[..k], runID)
      {
        assert rows[..k + 1][..k] == rows[..k];
        if rows[k].runID == runID {
          out := out + [rows[k]];
        }
      }
      assert rows[..|rows|] == rows;
    }
  }
}
