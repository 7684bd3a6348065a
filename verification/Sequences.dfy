/** Facts about joining and cutting sequences, one at a time. */
module Sequences {

  lemma {:induction false} Regroup<T>(a: seq<T>, b: seq<T>, c: seq<T>)
    ensures a + (b + c) == a + b + c
  {
  }

  lemma {:induction false} JoinNothing<T>(a: seq<T>)
    ensures a + [] == a && [] + a == a
  {
  }

  lemma {:induction false} TailOfJoin<T>(a: seq<T>, b: seq<T>)
    requires a != []
    ensures a + b != [] && (a + b)[0] == a[0] && (a + b)[1..] == a[1..] + b
  {
  }

  lemma {:induction false} SplitLast<T>(a: seq<T>)
    requires a != []
    ensures a == a[..|a| - 1] + [a[|a| - 1]]
    ensures forall x :: x in a <==> x in a[..|a| - 1] || x == a[|a| - 1]
  {
  }

  /** A sequence built up by two extensions. */
  lemma {:induction false} TwoSteps<T>(a: seq<T>, first: seq<T>, b: seq<T>, rest: seq<T>, c: seq<T>)
    requires b == a + first && c == b + rest
    ensures c == a + (first + rest)
  {
  }

  /** What follows a prefix. */
  lemma {:induction false} PrefixAndRest<T>(a: seq<T>, b: seq<T>)
    requires a <= b
    ensures b == a + b[|a|..]
  {
  }

  // ---------------------------------------------------------------- parts in the same order

  /** The entries of part stand in whole in the same order, at these positions. */
  ghost predicate StandsAt<T>(part: seq<T>, whole: seq<T>, at: seq<nat>) {
    && |at| == |part|
    && (forall i | 0 <= i < |at| :: at[i] < |whole| && whole[at[i]] == part[i])
    && forall i, j | 0 <= i < j < |at| :: at[i] < at[j]
  }

  ghost predicate Subsequence<T>(part: seq<T>, whole: seq<T>) {
    exists at: seq<nat> :: StandsAt(part, whole, at)
  }

  lemma {:induction false} NothingStands<T(!new)>(whole: seq<T>)
    ensures Subsequence([], whole)
  {
    var none: seq<nat> := [];
    assert StandsAt([], whole, none);
  }

  lemma {:induction false} SubsequenceGrows<T(!new)>(part: seq<T>, whole: seq<T>, x: T)
    requires Subsequence(part, whole)
    ensures Subsequence(part, whole + [x]) && Subsequence(part + [x], whole + [x])
  {
    var at: seq<nat> :| StandsAt(part, whole, at);
    assert StandsAt(part, whole + [x], at);
    var at': seq<nat> := at + [|whole|];
    assert StandsAt(part + [x], whole + [x], at');
  }

  lemma {:induction false} SubsequenceInFront<T(!new)>(part: seq<T>, whole: seq<T>, x: T)
    requires Subsequence(part, whole)
    ensures Subsequence(part, [x] + whole) && Subsequence([x] + part, [x] + whole)
  {
    var at: seq<nat> :| StandsAt(part, whole, at);
    var next: seq<nat> := seq(|at|, i requires 0 <= i < |at| => at[i] + 1);
    assert StandsAt(part, [x] + whole, next);
    var first: seq<nat> := [0];
    assert StandsAt([x] + part, [x] + whole, first + next);
  }

  lemma {:induction false} SubsequenceJoin<T(!new)>(a: seq<T>, b: seq<T>, c: seq<T>)
    requires Subsequence(a, b) && Subsequence(b, c)
    ensures Subsequence(a, c)
  {
    var p: seq<nat> :| StandsAt(a, b, p);
    var q: seq<nat> :| StandsAt(b, c, q);
    var at: seq<nat> := seq(|p|, i requires 0 <= i < |p| => q[p[i]]);
    assert StandsAt(a, c, at);
  }
}
