/** Health of one run: counting distinct clients by outcome, and who is still pending. */
module RunHealth {
  import opened Results

  datatype RunHealth = RunHealth(
    runID: string, wfID: string, wfType: string,
    total: int, success: int, fail: int, error: int, pending: int, banned: int, calculatedAt: int)
  {
    /** Clients that count: never below zero. */
    function Effective(): nat {
      if total - banned <= 0 then 0 else total - banned
    }

    function Completed(): int {
      success + fail + error
    }

    function SuccessPercentage(): real {
      Percentage(success)
    }

    function FailPercentage(): real {
      Percentage(fail)
    }

    function ErrorPercentage(): real {
      Percentage(error)
    }

    function Percentage(count: int): real {
      if Effective() == 0 then 0.0 else 100.0 * count as real / Effective() as real
    }

    predicate IsComplete() {
      pending == 0
    }
  }

  /** Clients that answered, each with its first outcome. */
  function Seen(results: seq<ClientResult>): (m: map<string, Status>)
    ensures forall c :: c in m <==> exists i :: 0 <= i < |results| && results[i].client == c
  {
    if results == [] then map[]
    else
      var last := results[|results| - 1];
      var m := Seen(results[..|results| - 1]);
      assert forall i | 0 <= i < |results| - 1 :: results[..|results| - 1][i] == results[i];
      if last.client in m then m else m[last.client := last.status]
  }

  function Having(m: map<string, Status>, s: Status): set<string> {
    set c | c in m && m[c] == s
  }

  /** Responders: the clients whose first result has one of the three known outcomes. */
  function Responders(results: seq<ClientResult>): set<string> {
    var m := Seen(results);
    set c | c in m && !m[c].OtherStatus?
  }

  /** The row of a run as counts of sets: first answers by outcome, and what is left to wait for. */
  function RowFor(
      runID: string, wfID: string, wfType: string, total: int, results: seq<ClientResult>, banned: int, now: int)
    : RunHealth
  {
    var m := Seen(results);
    var left := total - banned - |Responders(results)|;
    RunHealth(
      runID, wfID, wfType, total, |Having(m, Success)|, |Having(m, Failure)|, |Having(m, Errored)|,
      if left < 0 then 0 else left, banned, now)
  }

  /** The range loop over the clients seen, in any order. */
  method CountOutcomes(seen: map<string, Status>) returns (success: int, fail: int, error: int)
    ensures success == |Having(seen, Success)| && fail == |Having(seen, Failure)| && error == |Having(seen, Errored)|
  {
    success, fail, error := 0, 0, 0;
    var left := seen.Keys;
    ghost var done: map<string, Status> := map[];
    while left != {}
      invariant left <= seen.Keys && done == map c | c in seen && c !in left :: seen[c]
      invariant success == |Having(done, Success)| && fail == |Having(done, Failure)|
          && error == |Having(done, Errored)|
      decreases left
    {
      var c :| c in left;
      var s := seen[c];
      CountsOne(done, c, s, Success);
      CountsOne(done, c, s, Failure);
      CountsOne(done, c, s, Errored);
      if s.Success? {
        success := success + 1;
      } else if s.Failure? {
        fail := fail + 1;
      } else if s.Errored? {
        error := error + 1;
      }
      left := left - {c};
      done := done[c := s];
    }
    assert done == seen;
  }

  method CalculateRunHealth(
      runID: string, wfID: string, wfType: string, total: int, results: seq<ClientResult>, banned: int, now: int)
    returns (h: RunHealth)
    ensures h == RowFor(runID, wfID, wfType, total, results, banned, now)
    ensures h.Completed() == |Responders(results)|
  {
    var seen: map<string, Status> := map[];
    for k := 0 to |results|
      invariant seen == Seen(results[..k])
    {
      assert results[..k + 1][..k] == results[..k];
      if results[k].client in seen {
        continue;
      }
      seen := seen[results[k].client := results[k].status];
    }
    assert results[..|results|] == results;
    var success, fail, error := CountOutcomes(seen);
    OutcomesPartition(results);
    var pending := total - banned - (success + fail + error);
    h := RunHealth(runID, wfID, wfType, total, success, fail, error, if pending < 0 then 0 else pending, banned, now);
  }

  lemma {:induction false} CountsOne(m: map<string, Status>, c: string, s: Status, t: Status)
    requires c !in m
    ensures |Having(m[c := s], t)| == |Having(m, t)| + if s == t then 1 else 0
  {
    var before, after := Having(m, t), Having(m[c := s], t);
    assert forall d :: d in after <==> if d == c then s == t else d in before;
    if s == t {
      assert after == before + {c};
    } else {
      assert after == before;
    }
  }

  lemma {:induction false} DisjointCount(a: set<string>, b: set<string>, c: set<string>, all: set<string>)
    requires a !! b && a !! c && b !! c && all == a + b + c
    ensures |a| + |b| + |c| == |all|
  {
  }

  lemma {:induction false} OutcomesPartition(results: seq<ClientResult>)
    ensures var m := Seen(results);
            |Having(m, Success)| + |Having(m, Failure)| + |Having(m, Errored)| == |Responders(results)|
  {
    var m := Seen(results);
    DisjointCount(Having(m, Success), Having(m, Failure), Having(m, Errored), Responders(results));
  }

  // ---------------------------------------------------------------- counts, from the answers

  /** The first answer of the client has this status. */
  ghost predicate FirstAnswer(results: seq<ClientResult>, c: string, s: Status) {
    exists i :: 0 <= i < |results| && results[i].client == c && results[i].status == s
      && forall j | 0 <= j < i :: results[j].client != c
  }

  /** The clients whose first answer has this status. */
  ghost function Answering(results: seq<ClientResult>, s: Status): set<string> {
    set i | 0 <= i < |results| && FirstAnswer(results, results[i].client, s) :: results[i].client
  }

  predicate Responds(results: seq<ClientResult>, c: string) {
    exists i :: 0 <= i < |results| && results[i].client == c
  }

  lemma {:induction false} FirstAnswerStays(results: seq<ClientResult>, r: ClientResult, c: string, s: Status)
    ensures FirstAnswer(results, c, s) ==> FirstAnswer(results + [r], c, s)
    ensures !Responds(results, c) && r.client == c && r.status == s ==> FirstAnswer(results + [r], c, s)
  {
    var all := results + [r];
    if FirstAnswer(results, c, s) {
      var i :| 0 <= i < |results| && results[i].client == c && results[i].status == s
        && forall j | 0 <= j < i :: results[j].client != c;
      assert all[i] == results[i] && forall j | 0 <= j < i :: all[j] == results[j];
    }
    if !Responds(results, c) && r.client == c && r.status == s {
      assert all[|results|] == r && forall j | 0 <= j < |results| :: all[j] == results[j];
    }
  }

  lemma {:induction false} FirstAnswerBefore(results: seq<ClientResult>, r: ClientResult, c: string, s: Status)
    requires FirstAnswer(results + [r], c, s)
    ensures FirstAnswer(results, c, s) || (!Responds(results, c) && r.client == c && r.status == s)
  {
    var all := results + [r];
    var i :| 0 <= i < |all| && all[i].client == c && all[i].status == s && forall j | 0 <= j < i :: all[j].client != c;
    assert forall j | 0 <= j < |results| :: all[j] == results[j];
    if i < |results| {
      assert results[i].client == c;
    }
  }

  lemma {:induction false} SeenAfter(results: seq<ClientResult>, r: ClientResult)
    ensures Seen(results + [r])
         == if Responds(results, r.client) then Seen(results) else Seen(results)[r.client := r.status]
  {
    assert (results + [r])[..|results|] == results;
  }

  lemma {:induction false} SeenIsFirst(results: seq<ClientResult>, c: string, s: Status)
    ensures c in Seen(results) && Seen(results)[c] == s <==> FirstAnswer(results, c, s)
  {
    if results == [] {
    } else {
      var init, last := results[..|results| - 1], results[|results| - 1];
      SeenIsFirst(init, c, s);
      assert results == init + [last];
      SeenAfter(init, last);
      FirstAnswerStays(init, last, c, s);
      if FirstAnswer(init + [last], c, s) {
        FirstAnswerBefore(init, last, c, s);
      }
    }
  }

  lemma {:induction false} HavingIsAnswering(results: seq<ClientResult>, s: Status)
    ensures Having(Seen(results), s) == Answering(results, s)
  {
    forall c ensures c in Having(Seen(results), s) <==> c in Answering(results, s) {
      SeenIsFirst(results, c, s);
    }
  }

  /** Each count of a row is the number of clients whose first answer is of that kind; the rest is pending. */
  lemma {:induction false} RowCounts(
      runID: string, wfID: string, wfType: string, total: int, results: seq<ClientResult>, banned: int, now: int)
    ensures var h := RowFor(runID, wfID, wfType, total, results, banned, now);
            && h.success == |Answering(results, Success)|
            && h.fail == |Answering(results, Failure)|
            && h.error == |Answering(results, Errored)|
            && h.total == total && h.banned == banned && h.calculatedAt == now
            && h.runID == runID && h.wfID == wfID && h.wfType == wfType
            && var left := total - banned - h.success - h.fail - h.error;
               h.pending == if left < 0 then 0 else left
  {
    HavingIsAnswering(results, Success);
    HavingIsAnswering(results, Failure);
    HavingIsAnswering(results, Errored);
    OutcomesPartition(results);
  }

  // ---------------------------------------------------------------- pending, as sets

  /** Participants that nobody has banned. */
  function Eligible(participants: set<string>, banned: set<string>): set<string> {
    participants - banned
  }

  /** What the row records as pending when its counts come from these sets. */
  function Pending(participants: set<string>, banned: set<string>, responders: set<string>): nat {
    var n := |participants| - |participants * banned| - |responders|;
    if n < 0 then 0 else n
  }

  /**
   * The pending count never exceeds the eligible clients that have not answered, falls short of
   * them by the answers that came from elsewhere, and is right exactly when there is no one left
   * to wait for or no such answer.
   */
  lemma {:induction false} PendingExactly(participants: set<string>, banned: set<string>, responders: set<string>)
    ensures var waiting := Eligible(participants, banned) - responders;
            var foreign := responders - Eligible(participants, banned);
            var pending := Pending(participants, banned, responders);
            && pending <= |waiting|
            && pending == (if |waiting| < |foreign| then 0 else |waiting| - |foreign|)
            && (pending == |waiting| <==> waiting == {} || foreign == {})
  {
    var eligible := Eligible(participants, banned);
    SplitBy(participants, banned);
    SplitBy(eligible, responders);
    SplitBy(responders, eligible);
    assert eligible * responders == responders * eligible;
  }

  lemma {:induction false} SplitBy(a: set<string>, b: set<string>)
    ensures |a| == |a * b| + |a - b|
  {
    assert a == (a * b) + (a - b);
  }

  /** A run whose unbanned participants have all answered is always complete. */
  lemma {:induction false} AllAnsweredIsComplete(
      participants: set<string>, banned: set<string>, responders: set<string>)
    requires Eligible(participants, banned) <= responders
    ensures Pending(participants, banned, responders) == 0
  {
    PendingExactly(participants, banned, responders);
    assert Eligible(participants, banned) - responders == {};
  }

  /** Every further answer, a banned client's included, takes one off the pending count until none is left. */
  lemma {:induction false} BannedResponderHidesOne(
      participants: set<string>, banned: set<string>, responders: set<string>, c: string)
    requires c in participants * banned && c !in responders
    ensures var before := Pending(participants, banned, responders);
            var after := Pending(participants, banned, responders + {c});
            after == if before == 0 then 0 else before - 1
    ensures Eligible(participants, banned) - responders == Eligible(participants, banned) - (responders + {c})
  {
    assert |responders + {c}| == |responders| + 1;
  }

  // ---------------------------------------------------------------- percentages

  /** Percentages of a row are between 0 and 100 and sum to at most 100 exactly when its counts fit. */
  lemma {:induction false} PercentagesFit(h: RunHealth)
    requires h.success >= 0 && h.fail >= 0 && h.error >= 0 && h.Effective() > 0
    ensures 0.0 <= h.SuccessPercentage() && 0.0 <= h.FailPercentage() && 0.0 <= h.ErrorPercentage()
    ensures h.SuccessPercentage() + h.FailPercentage() + h.ErrorPercentage() <= 100.0
        <==> h.Completed() <= h.Effective()
  {
    var d := h.Effective() as real;
    var s, f, e := h.success as real, h.fail as real, h.error as real;
    assert 100.0 * s / d + 100.0 * f / d + 100.0 * e / d == 100.0 * (s + f + e) / d;
    Ratio(s + f + e, d);
    Ratio(s, d);
    Ratio(f, d);
    Ratio(e, d);
  }

  lemma {:induction false} Ratio(x: real, d: real)
    requires x >= 0.0 && d > 0.0
    ensures 0.0 <= 100.0 * x / d
    ensures 100.0 * x / d <= 100.0 <==> x <= d
  {
    var q := 100.0 * x / d;
    assert q * d == 100.0 * x;
    if x <= d {
      assert q * d <= 100.0 * d;
    }
  }
}
