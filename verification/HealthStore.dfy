/**
 * The health tables. Run rows are overwritten where they stand, so a listing has to sort; with a
 * clock that never repeats, sorting recovers the chronological history.
 */
module HealthStore {
  import opened Sequences
  import opened Tables
  import opened Wrappers
  import opened RunHealth
  import opened TypeHealth

  function RowOf(rows: seq<RunHealth>, runID: string): (i: nat)
    ensures i <= |rows|
    ensures i < |rows| ==> rows[i].runID == runID
    ensures forall k | 0 <= k < i :: rows[k].runID != runID
  {
    Find(rows, (h: RunHealth) => h.runID, runID)
  }

  /** Upsert by run id: an existing row is overwritten in place. */
  function Upserted(rows: seq<RunHealth>, h: RunHealth): seq<RunHealth> {
    var i := RowOf(rows, h.runID);
    if i < |rows| then rows[i := h] else rows + [h]
  }

  function OfType(rows: seq<RunHealth>, wfType: string): seq<RunHealth> {
    if rows == [] then []
    else
      var last := rows[|rows| - 1];
      OfType(rows[..|rows| - 1], wfType) + if last.wfType == wfType then [last] else []
  }

  function Insert(h: RunHealth, sorted: seq<RunHealth>): seq<RunHealth> {
    if sorted == [] || h.calculatedAt >= sorted[0].calculatedAt then [h] + sorted
    else [sorted[0]] + Insert(h, sorted[1..])
  }

  /** ORDER BY calculated_at DESC. */
  function NewestFirst(rows: seq<RunHealth>): seq<RunHealth> {
    if rows == [] then [] else Insert(rows[|rows| - 1], NewestFirst(rows[..|rows| - 1]))
  }

  /** A limit of zero or less means one hundred. */
  function Limited(rows: seq<RunHealth>, limit: int): seq<RunHealth> {
    var n := if limit <= 0 then 100 else limit;
    if |rows| <= n then rows else rows[..n]
  }

  class HealthRepo {
    var rows: seq<RunHealth>
    var types: map<string, TypeHealth>

    constructor ()
      ensures rows == [] && types == map[]
    {
      rows := [];
      types := map[];
    }

    method SaveRunHealth(h: RunHealth)
      modifies this
      ensures rows == Upserted(old(rows), h) && types == old(types)
    {
      var i := RowOf(rows, h.runID);
      if i < |rows| {
        rows := rows[i := h];
      } else {
        rows := rows + [h];
      }
    }

    /** The newest rows of a type up to the limit, turned around in place to read oldest first. */
    method ListRunHealths(wfType: string, limit: int) returns (out: seq<RunHealth>)
      ensures out == Reversed(Limited(NewestFirst(OfType(rows, wfType)), limit))
    {
      var found := Limited(NewestFirst(OfType(rows, wfType)), limit);
      var a := new RunHealth[|found|](i requires 0 <= i < |found| => found[i]);
      assert a[..] == found;
      ReverseInPlace(a);
      out := a[..];
    }

    method SaveWorkflowTypeHealth(h: TypeHealth)
      modifies this
      ensures types == old(types)[h.wfType := h] && rows == old(rows)
    {
      types := types[h.wfType := h];
    }

    method GetWorkflowTypeHealth(wfType: string) returns (h: Option<TypeHealth>)
      ensures h == if wfType in types then Some(types[wfType]) else None
    {
      return if wfType in types then Some(types[wfType]) else None;
    }
  }

  method ReverseInPlace(a: array<RunHealth>)
    modifies a
    ensures a[..] == Reversed(old(a[..]))
  {
    var i, j := 0, a.Length - 1;
    while i < j
      invariant 0 <= i <= a.Length && j == a.Length - 1 - i
      invariant i <= j + 1
      invariant forall k | 0 <= k < i :: a[k] == old(a[a.Length - 1 - k]) && a[a.Length - 1 - k] == old(a[k])
      invariant forall k | i <= k <= j :: a[k] == old(a[k])
    {
      a[i], a[j] := a[j], a[i];
      i, j := i + 1, j - 1;
    }
  }

  // ---------------------------------------------------------------- the chronological history

  function Forget(history: seq<RunHealth>, runID: string): seq<RunHealth> {
    if history == [] then []
    else
      var last := history[|history| - 1];
      Forget(history[..|history| - 1], runID) + if last.runID == runID then [] else [last]
  }

  /** Every save in order of time, the newest last; a run counts at its latest save only. */
  function Recorded(history: seq<RunHealth>, h: RunHealth): seq<RunHealth> {
    Forget(history, h.runID) + [h]
  }

  ghost predicate Chronological(history: seq<RunHealth>) {
    forall i, j | 0 <= i < j < |history| ::
      history[i].calculatedAt < history[j].calculatedAt && history[i].runID != history[j].runID
  }

  ghost predicate SameRows(a: seq<RunHealth>, b: seq<RunHealth>) {
    forall h :: h in a <==> h in b
  }

  ghost predicate DistinctStamps(rows: seq<RunHealth>) {
    forall i, j | 0 <= i < j < |rows| :: rows[i].calculatedAt != rows[j].calculatedAt
  }

  /** The stored rows are the history, in any order. */
  ghost predicate Mirrors(rows: seq<RunHealth>, history: seq<RunHealth>) {
    Chronological(history) && DistinctStamps(rows) && SameRows(rows, history)
  }

  ghost predicate Descending(rows: seq<RunHealth>) {
    forall i, j | 0 <= i < j < |rows| :: rows[i].calculatedAt > rows[j].calculatedAt
  }

  lemma {:induction false} InsertSorts(h: RunHealth, sorted: seq<RunHealth>)
    requires Descending(sorted) && forall k | k in sorted :: k.calculatedAt != h.calculatedAt
    ensures Descending(Insert(h, sorted))
    ensures forall k :: k in Insert(h, sorted) <==> k == h || k in sorted
  {
    if sorted != [] && h.calculatedAt < sorted[0].calculatedAt {
      var tail := sorted[1..];
      InsertSorts(h, tail);
      assert forall k :: k in sorted <==> k == sorted[0] || k in tail;
      var rest := Insert(h, tail);
      forall k | 0 <= k < |rest| ensures sorted[0].calculatedAt > rest[k].calculatedAt {
        assert rest[k] in rest;
      }
    }
  }

  lemma {:induction false} NewestFirstSorts(rows: seq<RunHealth>)
    requires DistinctStamps(rows)
    ensures Descending(NewestFirst(rows)) && SameRows(NewestFirst(rows), rows)
  {
    if rows == [] {
    } else {
      var init, last := rows[..|rows| - 1], rows[|rows| - 1];
      NewestFirstSorts(init);
      assert forall k | k in init :: k.calculatedAt != last.calculatedAt;
      InsertSorts(last, NewestFirst(init));
      assert forall k :: k in rows <==> k in init || k == last;
    }
  }

  lemma {:induction false} HeadIsNewest(a: seq<RunHealth>, b: seq<RunHealth>)
    requires Descending(a) && Descending(b) && SameRows(a, b) && a != []
    ensures b != [] && a[0] == b[0]
  {
    assert a[0] in b;
    assert b[0] in a;
  }

  lemma {:induction false} TailsMatch(a: seq<RunHealth>, b: seq<RunHealth>)
    requires Descending(a) && Descending(b) && SameRows(a, b) && a != [] && b != [] && a[0] == b[0]
    ensures Descending(a[1..]) && Descending(b[1..]) && SameRows(a[1..], b[1..])
  {
    forall h ensures h in a[1..] <==> h in a && h != a[0] {
      if h in a && h != a[0] {
        var k :| 0 <= k < |a| && a[k] == h;
        assert a[1..][k - 1] == h;
      }
    }
    forall h ensures h in b[1..] <==> h in b && h != b[0] {
      if h in b && h != b[0] {
        var k :| 0 <= k < |b| && b[k] == h;
        assert b[1..][k - 1] == h;
      }
    }
  }

  /** Sorting leaves no choice when no two rows share an instant. */
  lemma {:induction false} SortedIsUnique(a: seq<RunHealth>, b: seq<RunHealth>)
    requires Descending(a) && Descending(b) && SameRows(a, b)
    ensures a == b
  {
    if b != [] {
      HeadIsNewest(b, a);
    }
    if a != [] {
      HeadIsNewest(a, b);
      TailsMatch(a, b);
      SortedIsUnique(a[1..], b[1..]);
      assert a == [a[0]] + a[1..] && b == [b[0]] + b[1..];
    }
  }

  lemma {:induction false} OfTypeHolds(rows: seq<RunHealth>, wfType: string)
    ensures forall h :: h in OfType(rows, wfType) <==> h in rows && h.wfType == wfType
  {
    if rows == [] {
    } else {
      OfTypeHolds(rows[..|rows| - 1], wfType);
      SplitLast(rows);
    }
  }

  lemma {:induction false} OfTypeIsChronological(rows: seq<RunHealth>, wfType: string)
    requires Chronological(rows)
    ensures Chronological(OfType(rows, wfType))
  {
    if rows == [] {
    } else {
      var init, last := rows[..|rows| - 1], rows[|rows| - 1];
      OfTypeIsChronological(init, wfType);
      OfTypeHolds(init, wfType);
      assert forall h | h in init :: h.calculatedAt < last.calculatedAt && h.runID != last.runID;
      var ours := OfType(init, wfType);
      assert forall i | 0 <= i < |ours| :: ours[i] in ours;
    }
  }

  lemma {:induction false} OfTypeIsStamped(rows: seq<RunHealth>, wfType: string)
    requires DistinctStamps(rows)
    ensures DistinctStamps(OfType(rows, wfType))
  {
    if rows == [] {
    } else {
      var init, last := rows[..|rows| - 1], rows[|rows| - 1];
      OfTypeIsStamped(init, wfType);
      OfTypeHolds(init, wfType);
      assert forall h | h in init :: h.calculatedAt != last.calculatedAt;
      var ours := OfType(init, wfType);
      assert forall i | 0 <= i < |ours| :: ours[i] in ours;
    }
  }

  lemma {:induction false} ReversedHolds(history: seq<RunHealth>)
    ensures SameRows(Reversed(history), history)
    ensures Chronological(history) ==> Descending(Reversed(history))
  {
    forall h ensures h in history <==> h in Reversed(history) {
      if h in history {
        var k :| 0 <= k < |history| && history[k] == h;
        assert Reversed(history)[|history| - 1 - k] == h;
      }
    }
  }

  /** Sorting the stored rows of a type gives its history backwards. */
  lemma {:induction false} NewestFirstIsHistory(rows: seq<RunHealth>, history: seq<RunHealth>, wfType: string)
    requires Mirrors(rows, history)
    ensures NewestFirst(OfType(rows, wfType)) == Reversed(OfType(history, wfType))
  {
    var ours, theirs := OfType(rows, wfType), OfType(history, wfType);
    OfTypeHolds(rows, wfType);
    OfTypeHolds(history, wfType);
    OfTypeIsStamped(rows, wfType);
    OfTypeIsChronological(history, wfType);
    NewestFirstSorts(ours);
    ReversedHolds(theirs);
    SortedIsUnique(NewestFirst(ours), Reversed(theirs));
  }

  /** A listing is cut after as many rows as the limit says, or after a hundred when it says none. */
  lemma {:induction false} LimitIs(rows: seq<RunHealth>, limit: int)
    ensures Limited(rows, limit) <= rows
    ensures limit > 0 ==> |Limited(rows, limit)| == if |rows| < limit then |rows| else limit
    ensures limit <= 0 ==> |Limited(rows, limit)| == if |rows| < 100 then |rows| else 100
  {
  }

  /**
   * Limiting newest first, reversing in place and cutting again in the aggregator is taking the
   * last window of the whole chronological history.
   */
  lemma {:induction false} WindowOfHistory(rows: seq<RunHealth>, history: seq<RunHealth>, wfType: string, window: int)
    requires Mirrors(rows, history) && window > 0
    ensures var listed := Reversed(Limited(NewestFirst(OfType(rows, wfType)), window));
            && listed == LastOf(OfType(history, wfType), window)
            && LastOf(listed, window) == listed
            && Aggregate(wfType, listed, window) == Aggregate(wfType, OfType(history, wfType), window)
  {
    NewestFirstIsHistory(rows, history, wfType);
  }

  // ---------------------------------------------------------------- saving keeps them in step

  lemma {:induction false} ForgetDrops(history: seq<RunHealth>, runID: string)
    requires Chronological(history)
    ensures Chronological(Forget(history, runID))
    ensures forall h :: h in Forget(history, runID) <==> h in history && h.runID != runID
  {
    if history == [] {
    } else {
      var init, last := history[..|history| - 1], history[|history| - 1];
      ForgetDrops(init, runID);
      assert forall h :: h in history <==> h in init || h == last;
      assert forall h | h in init :: h.calculatedAt < last.calculatedAt && h.runID != last.runID;
    }
  }

  lemma {:induction false} RecordedGrows(history: seq<RunHealth>, h: RunHealth)
    requires Chronological(history) && forall k | k in history :: k.calculatedAt < h.calculatedAt
    ensures Chronological(Recorded(history, h))
    ensures forall k :: k in Recorded(history, h) <==> k == h || (k in history && k.runID != h.runID)
  {
    ForgetDrops(history, h.runID);
    var kept := Forget(history, h.runID);
    assert forall i | 0 <= i < |kept| :: kept[i] in kept;
  }

  lemma {:induction false} UpsertReplaces(rows: seq<RunHealth>, h: RunHealth)
    requires DistinctStamps(rows) && forall k | k in rows :: k.calculatedAt < h.calculatedAt
    requires forall i, j | 0 <= i < j < |rows| :: rows[i].runID != rows[j].runID
    ensures DistinctStamps(Upserted(rows, h))
    ensures forall k :: k in Upserted(rows, h) <==> k == h || (k in rows && k.runID != h.runID)
  {
    var i := RowOf(rows, h.runID);
    var out := Upserted(rows, h);
    assert forall k | 0 <= k < |rows| && k != i :: out[k] == rows[k];
    forall k ensures k in out <==> k == h || (k in rows && k.runID != h.runID) {
      if k in rows && k.runID != h.runID {
        var j :| 0 <= j < |rows| && rows[j] == k;
        assert out[j] == k;
      }
      assert i < |rows| ==> out[i] == h;
      assert i == |rows| ==> out[|rows|] == h;
    }
  }

  /** A save at a later instant keeps the rows in step with the history. */
  lemma {:induction false} SaveIsRecorded(rows: seq<RunHealth>, history: seq<RunHealth>, h: RunHealth)
    requires Mirrors(rows, history)
    requires forall k | k in history :: k.calculatedAt < h.calculatedAt
    ensures Mirrors(Upserted(rows, h), Recorded(history, h))
  {
    forall i, j | 0 <= i < j < |rows| ensures rows[i].runID != rows[j].runID {
      assert rows[i] in history && rows[j] in history;
    }
    UpsertReplaces(rows, h);
    RecordedGrows(history, h);
  }
}
