/**
 * The outbox of a client: results are queued, a flush takes the whole queue and publishes it
 * while other results keep arriving, and what the broker refuses goes back to the front.
 */
module Outbox {
  import opened Sequences
  import opened Wrappers
  import opened Results
  import opened Activities

  /** A queued result carries the state its client is in. */
  datatype ResultMessage = ResultMessage(runID: string, wfID: string, client: string, status: Status,
      state: ClientState)

  predicate Complete(m: ResultMessage) {
    m.runID != "" && m.wfID != "" && m.client != ""
  }

  /** Whether the k-th publication of a flush fails: any outcome is possible. */
  type Faults = nat -> bool

  /** What others collect before the k-th publication of a flush, and, for k the batch's length, before its end. */
  type Arrivals<!T> = nat -> seq<T>

  function Refused<T>(batch: seq<T>, fails: Faults): seq<T> {
    if batch == [] then []
    else
      var k := |batch| - 1;
      Refused(batch[..k], fails) + if fails(k) then [batch[k]] else []
  }

  function Taken<T>(batch: seq<T>, fails: Faults): seq<T> {
    if batch == [] then []
    else
      var k := |batch| - 1;
      Taken(batch[..k], fails) + if fails(k) then [] else [batch[k]]
  }

  /** Everything that arrives before publication n. */
  function Arrived<T>(arrivals: Arrivals<T>, n: nat): seq<T> {
    if n == 0 then [] else Arrived(arrivals, n - 1) + arrivals(n - 1)
  }

  class ResultCollector {
    var pending: seq<ResultMessage>
    var published: seq<ResultMessage>

    constructor ()
      ensures pending == [] && published == []
    {
      pending := [];
      published := [];
    }

    /** Queues a result; empty ids are refused. */
    method Collect(m: ResultMessage) returns (ok: bool)
      modifies this
      ensures ok <==> m.runID != "" && m.wfID != "" && m.client != ""
      ensures pending == old(pending) + (if ok then [m] else []) && published == old(published)
    {
      if m.runID == "" {
        return false;
      }
      if m.wfID == "" {
        return false;
      }
      if m.client == "" {
        return false;
      }
      pending := pending + [m];
      return true;
    }

    /** Publishes the queue as it is now; the answer is the first failure, or none. */
    method FlushResults(fails: Faults, arrivals: Arrivals<ResultMessage>) returns (firstErr: Option<nat>)
      modifies this
      ensures var batch := old(pending);
              && published == old(published) + Taken(batch, fails)
              && pending == Refused(batch, fails) + Arrived(arrivals, |batch| + 1)
              && (firstErr.None? <==> forall k | 0 <= k < |batch| :: !fails(k))
              && (firstErr.Some? ==>
                    && firstErr.value < |batch| && fails(firstErr.value)
                    && forall k | 0 <= k < firstErr.value :: !fails(k))
    {
      var toFlush := pending;
      pending := [];
      var failed: seq<ResultMessage> := [];
      firstErr := None;
      for k := 0 to |toFlush|
        invariant pending == Arrived(arrivals, k)
        invariant published == old(published) + Taken(toFlush[..k], fails)
        invariant failed == Refused(toFlush[..k], fails)
        invariant failed == [] <==> firstErr.None?
        invariant firstErr.None? <==> forall j | 0 <= j < k :: !fails(j)
        invariant firstErr.Some? ==>
            firstErr.value < k && fails(firstErr.value) && forall j | 0 <= j < firstErr.value :: !fails(j)
      {
        assert toFlush[..k + 1][..k] == toFlush[..k];
        pending := pending + arrivals(k);
        if fails(k) {
          if firstErr.None? {
            firstErr := Some(k);
          }
          failed := failed + [toFlush[k]];
        } else {
          published := published + [toFlush[k]];
        }
      }
      assert toFlush[..|toFlush|] == toFlush;
      pending := pending + arrivals(|toFlush|);
      if |failed| > 0 {
        pending := failed + pending;
      }
    }
  }

  // ---------------------------------------------------------------- runs of the outbox

  /** Collected results, numbered in the order they were collected. */
  datatype Box = Box(pending: seq<nat>, published: seq<nat>, collected: nat)

  /** A flush meets any failures, and `late` further results are collected while it runs. */
  datatype OutboxOp = Collected | Flushed(fails: Faults, late: nat)

  function Numbers(from: nat, count: nat): (s: seq<nat>)
    ensures |s| == count
  {
    seq(count, i => from + i)
  }

  function Step(b: Box, op: OutboxOp): Box {
    match op
    case Collected => Box(b.pending + [b.collected], b.published, b.collected + 1)
    case Flushed(fails, late) =>
      Box(
        Refused(b.pending, fails) + Numbers(b.collected, late),
        b.published + Taken(b.pending, fails),
        b.collected + late)
  }

  function Run(ops: seq<OutboxOp>): Box {
    if ops == [] then Box([], [], 0) else Step(Run(ops[..|ops| - 1]), ops[|ops| - 1])
  }

  ghost predicate Increasing(s: seq<nat>) {
    forall i, j | 0 <= i < j < |s| :: s[i] < s[j]
  }

  ghost predicate Once(s: seq<nat>) {
    forall i, j | 0 <= i < j < |s| :: s[i] != s[j]
  }

  /** Pending is in collection order, and every collected number is in exactly one place, once. */
  ghost predicate Conserved(b: Box) {
    && Increasing(b.pending) && Once(b.published)
    && (forall x | x in b.pending :: x !in b.published)
    && (forall x: nat :: x < b.collected <==> x in b.pending || x in b.published)
  }

  lemma {:induction false} AppendIncreasing(s: seq<nat>, x: nat)
    requires Increasing(s) && forall y | y in s :: y < x
    ensures Increasing(s + [x])
  {
    assert forall i | 0 <= i < |s| :: s[i] in s;
  }

  lemma {:induction false} JoinIncreasing(s: seq<nat>, t: seq<nat>, limit: nat)
    requires Increasing(s) && Increasing(t) && (forall y | y in s :: y < limit) && forall y | y in t :: limit <= y
    ensures Increasing(s + t)
  {
    assert forall i | 0 <= i < |s| :: s[i] in s;
    assert forall i | 0 <= i < |t| :: t[i] in t;
  }

  lemma {:induction false} JoinOnce(s: seq<nat>, t: seq<nat>)
    requires Once(s) && Once(t) && forall y | y in s :: y !in t
    ensures Once(s + t)
  {
    assert forall i | 0 <= i < |s| :: s[i] in s;
    assert forall i | 0 <= i < |t| :: t[i] in t;
  }

  /** The broker's answers split the batch, keeping the order of both parts. */
  lemma {:induction false} BatchSplits(batch: seq<nat>, fails: Faults)
    requires Increasing(batch)
    ensures Increasing(Refused(batch, fails)) && Increasing(Taken(batch, fails))
    ensures forall x :: x in batch <==> x in Refused(batch, fails) || x in Taken(batch, fails)
    ensures forall x | x in Refused(batch, fails) :: x !in Taken(batch, fails)
  {
    if batch == [] {
    } else {
      var k := |batch| - 1;
      var init, last := batch[..k], batch[k];
      BatchSplits(init, fails);
      assert forall x :: x in batch <==> x in init || x == last;
      assert forall x | x in init :: x < last;
      if fails(k) {
        AppendIncreasing(Refused(init, fails), last);
      } else {
        AppendIncreasing(Taken(init, fails), last);
      }
    }
  }

  lemma {:induction false} NumbersAre(from: nat, count: nat)
    ensures Increasing(Numbers(from, count))
    ensures forall x: nat :: x in Numbers(from, count) <==> from <= x < from + count
  {
    forall x: nat | from <= x < from + count ensures x in Numbers(from, count) {
      assert Numbers(from, count)[x - from] == x;
    }
  }

  lemma {:induction false} FlushConserves(b: Box, fails: Faults, late: nat)
    requires Conserved(b)
    ensures Conserved(Step(b, Flushed(fails, late)))
  {
    BatchSplits(b.pending, fails);
    NumbersAre(b.collected, late);
    JoinIncreasing(Refused(b.pending, fails), Numbers(b.collected, late), b.collected);
    JoinOnce(b.published, Taken(b.pending, fails));
  }

  lemma {:induction false} CollectConserves(b: Box)
    requires Conserved(b)
    ensures Conserved(Step(b, Collected))
  {
    AppendIncreasing(b.pending, b.collected);
  }

  /**
   * Conservation over whole runs: whatever fails and whatever is collected during flushes, every
   * collected result is published exactly once or still pending, and the queue is in order.
   */
  lemma {:induction false} NothingIsLostOrDoubled(ops: seq<OutboxOp>)
    ensures Conserved(Run(ops))
  {
    if ops == [] {
    } else {
      var b := Run(ops[..|ops| - 1]);
      NothingIsLostOrDoubled(ops[..|ops| - 1]);
      match ops[|ops| - 1]
      case Collected => CollectConserves(b);
      case Flushed(fails, late) => FlushConserves(b, fails, late);
    }
  }

  // ---------------------------------------------------------------- numbers stand for messages

  ghost predicate Known(ks: seq<nat>, n: nat) {
    forall i | 0 <= i < |ks| :: ks[i] < n
  }

  /** The messages with these numbers, when msgs are all messages in the order they were collected. */
  ghost function Pick<T>(msgs: seq<T>, ks: seq<nat>): seq<T>
    requires Known(ks, |msgs|)
  {
    seq(|ks|, i requires 0 <= i < |ks| => msgs[ks[i]])
  }

  /** The queue and the publications of a collector are those of the box, by number. */
  ghost predicate Represents<T(!new)>(b: Box, msgs: seq<T>, pending: seq<T>, published: seq<T>) {
    && b.collected == |msgs| && Known(b.pending, |msgs|) && Known(b.published, |msgs|)
    && pending == Pick(msgs, b.pending) && published == Pick(msgs, b.published)
  }

  lemma {:induction false} PickLast<T>(msgs: seq<T>, batch: seq<nat>)
    requires Known(batch, |msgs|) && batch != []
    ensures var init, last := batch[..|batch| - 1], batch[|batch| - 1];
            && Known(init, |msgs|) && last < |msgs|
            && Pick(msgs, batch)[..|batch| - 1] == Pick(msgs, init) && Pick(msgs, batch)[|batch| - 1] == msgs[last]
  {
  }

  lemma {:induction false} PickOne<T>(msgs: seq<T>, ks: seq<nat>, k: nat)
    requires Known(ks, |msgs|) && k < |msgs|
    ensures Known(ks + [k], |msgs|) && Pick(msgs, ks + [k]) == Pick(msgs, ks) + [msgs[k]]
  {
  }

  lemma {:induction false} PickRefused<T>(msgs: seq<T>, batch: seq<nat>, fails: Faults)
    requires Known(batch, |msgs|)
    ensures Known(Refused(batch, fails), |msgs|)
    ensures Refused(Pick(msgs, batch), fails) == Pick(msgs, Refused(batch, fails))
  {
    if batch == [] {
    } else {
      var k := |batch| - 1;
      PickLast(msgs, batch);
      PickRefused(msgs, batch[..k], fails);
      var rest, own := Refused(batch[..k], fails), if fails(k) then [batch[k]] else [];
      assert Refused(Pick(msgs, batch), fails)
          == Refused(Pick(msgs, batch[..k]), fails) + if fails(k) then [msgs[batch[k]]] else [];
      if own == [] {
        JoinNothing(rest);
        JoinNothing(Pick(msgs, rest));
      } else {
        PickOne(msgs, rest, batch[k]);
      }
    }
  }

  lemma {:induction false} PickTaken<T>(msgs: seq<T>, batch: seq<nat>, fails: Faults)
    requires Known(batch, |msgs|)
    ensures Known(Taken(batch, fails), |msgs|)
    ensures Taken(Pick(msgs, batch), fails) == Pick(msgs, Taken(batch, fails))
  {
    if batch == [] {
    } else {
      var k := |batch| - 1;
      PickLast(msgs, batch);
      PickTaken(msgs, batch[..k], fails);
      var rest, own := Taken(batch[..k], fails), if fails(k) then [] else [batch[k]];
      assert Taken(Pick(msgs, batch), fails)
          == Taken(Pick(msgs, batch[..k]), fails) + if fails(k) then [] else [msgs[batch[k]]];
      if own == [] {
        JoinNothing(rest);
        JoinNothing(Pick(msgs, rest));
      } else {
        PickOne(msgs, rest, batch[k]);
      }
    }
  }

  lemma {:induction false} PickMore<T>(msgs: seq<T>, ks: seq<nat>, late: seq<T>)
    requires Known(ks, |msgs|)
    ensures Known(ks, |msgs + late|) && Pick(msgs + late, ks) == Pick(msgs, ks)
    ensures Known(Numbers(|msgs|, |late|), |msgs + late|) && Pick(msgs + late, Numbers(|msgs|, |late|)) == late
  {
  }

  lemma {:induction false} PickJoin<T>(msgs: seq<T>, a: seq<nat>, b: seq<nat>)
    requires Known(a, |msgs|) && Known(b, |msgs|)
    ensures Known(a + b, |msgs|) && Pick(msgs, a + b) == Pick(msgs, a) + Pick(msgs, b)
  {
  }

  /**
   * What FlushResults and Collect do to messages is what Flushed and Collected do to their
   * numbers: the conservation of numbers is the conservation of messages.
   */
  lemma {:induction false} FlushIsAStep<T(!new)>(
      b: Box, msgs: seq<T>, pending: seq<T>, published: seq<T>, fails: Faults, late: seq<T>)
    requires Represents(b, msgs, pending, published)
    ensures Represents(
              Step(b, Flushed(fails, |late|)), msgs + late,
              Refused(pending, fails) + late, published + Taken(pending, fails))
  {
    PickRefused(msgs, b.pending, fails);
    PickTaken(msgs, b.pending, fails);
    PickMore(msgs, Refused(b.pending, fails), late);
    PickMore(msgs, Taken(b.pending, fails), late);
    PickMore(msgs, b.published, late);
    PickJoin(msgs + late, Refused(b.pending, fails), Numbers(|msgs|, |late|));
    PickJoin(msgs + late, b.published, Taken(b.pending, fails));
  }

  lemma {:induction false} CollectIsAStep<T(!new)>(b: Box, msgs: seq<T>, pending: seq<T>, published: seq<T>, m: T)
    requires Represents(b, msgs, pending, published)
    ensures Represents(Step(b, Collected), msgs + [m], pending + [m], published)
  {
    PickMore(msgs, b.pending, [m]);
    PickMore(msgs, b.published, [m]);
    assert Numbers(|msgs|, 1) == [|msgs|];
    PickJoin(msgs + [m], b.pending, [|msgs|]);
  }

  /** A flush without failures leaves only what arrived while it ran. */
  lemma {:induction false} CleanFlushPublishesAll<T>(batch: seq<T>, fails: Faults)
    requires forall k | 0 <= k < |batch| :: !fails(k)
    ensures Taken(batch, fails) == batch && Refused(batch, fails) == []
  {
    if batch == [] {
    } else {
      CleanFlushPublishesAll(batch[..|batch| - 1], fails);
    }
  }

  /** A failure stops nothing: the k-th message is taken or comes back by its own publication alone. */
  lemma {:induction false} EveryMessageIsTried<T(!new)>(batch: seq<T>, fails: Faults, k: nat)
    requires k < |batch| && forall i, j | 0 <= i < j < |batch| :: batch[i] != batch[j]
    ensures batch[k] in Taken(batch, fails) <==> !fails(k)
    ensures batch[k] in Refused(batch, fails) <==> fails(k)
  {
    var n := |batch| - 1;
    SplitsInto(batch[..n], fails);
    if k < n {
      EveryMessageIsTried(batch[..n], fails, k);
      assert batch[..n][k] == batch[k] != batch[n];
    } else {
      assert batch[n] !in batch[..n];
    }
  }

  lemma {:induction false} SplitsInto<T(!new)>(batch: seq<T>, fails: Faults)
    ensures Subsequence(Taken(batch, fails), batch) && Subsequence(Refused(batch, fails), batch)
    ensures forall x | x in Taken(batch, fails) || x in Refused(batch, fails) :: x in batch
  {
    if batch == [] {
      NothingStands(batch);
    } else {
      var init, last := batch[..|batch| - 1], batch[|batch| - 1];
      SplitsInto(init, fails);
      SplitLast(batch);
      SubsequenceGrows(Taken(init, fails), init, last);
      SubsequenceGrows(Refused(init, fails), init, last);
      JoinNothing(Taken(init, fails));
      JoinNothing(Refused(init, fails));
    }
  }
}
