/** The order of a cascade lists every workflow that Started names, and each only once. */
module CascadeOrder {
  import opened Workflows
  import opened Cascade

  ghost predicate NoRepeat(js: seq<nat>) {
    forall a, b | 0 <= a < b < |js| :: js[a] != js[b]
  }

  lemma {:induction false} NoRepeatJoin(a: seq<nat>, b: seq<nat>)
    requires NoRepeat(a) && NoRepeat(b) && forall j | j in a :: j !in b
    ensures NoRepeat(a + b)
  {
    var c := a + b;
    forall x, y | 0 <= x < y < |c| ensures c[x] != c[y] {
      if x < |a| <= y {
        assert c[x] in a && c[y] in b;
      }
    }
  }

  ghost predicate StartedIn(world: World, root: nat, j: nat)
    requires Ranked(world.wfs) && root < |world.wfs|
  {
    j < |world.wfs| && Started(world, root, j)
  }

  /** j is started under one of the first n workflows that wait for i. */
  ghost predicate Hangs(world: World, i: nat, n: nat, j: nat)
    requires Ranked(world.wfs) && i < |world.wfs| && n <= |world.wfs|
  {
    exists k: nat :: k < n && Waits(world.wfs[k], world.wfs[i].id) && StartedIn(world, k, j)
  }

  /** The cascade from i runs exactly the started workflows, each once. */
  lemma {:induction false} OrderListsStarted(world: World, i: nat)
    requires Ranked(world.wfs) && i < |world.wfs|
    ensures ListsStarted(world, i, Order(world, i))
    decreases |world.wfs| - i, |world.wfs| + 1
  {
    if Starts(world, world.wfs[i]) && Delivers(world, world.wfs[i]) {
      var below := OrderBelow(world, i, |world.wfs|);
      OrderBelowLists(world, i, |world.wfs|);
      forall j: nat ensures j in below <==> StartedIn(world, i, j) && j != i {
        if StartedIn(world, i, j) && j != i {
          var k := StartedViaChild(world, i, j);
          assert StartedIn(world, k, j);
        }
        if Hangs(world, i, |world.wfs|, j) {
          var k: nat :| k < |world.wfs| && Waits(world.wfs[k], world.wfs[i].id) && StartedIn(world, k, j);
          ChildStarted(world, i, k, j);
        }
      }
      NoRepeatJoin([i], below);
    } else {
      forall j: nat | StartedIn(world, i, j) ensures j == i && Starts(world, world.wfs[i]) {
        if j != i {
          var _ := StartedViaChild(world, i, j);
        }
      }
    }
  }

  /** js lists the workflows that hang under the first n rows, each once. */
  ghost predicate ListsHanging(world: World, i: nat, n: nat, js: seq<nat>)
    requires Ranked(world.wfs) && i < |world.wfs| && n <= |world.wfs|
  {
    NoRepeat(js) && forall j: nat :: j in js <==> Hangs(world, i, n, j)
  }

  lemma {:induction false} OrderBelowLists(world: World, i: nat, n: nat)
    requires Ranked(world.wfs) && i < |world.wfs| && n <= |world.wfs|
    ensures ListsHanging(world, i, n, OrderBelow(world, i, n))
    decreases |world.wfs| - i, n
  {
    if n == 0 {
    } else {
      var k := n - 1;
      var rest := OrderBelow(world, i, k);
      OrderBelowLists(world, i, k);
      if Waits(world.wfs[k], world.wfs[i].id) {
        OrderListsStarted(world, k);
        HangingJoin(world, i, n, Order(world, k), rest);
      } else {
        HangingSkips(world, i, n, rest);
        assert OrderBelow(world, i, n) == rest;
      }
    }
  }

  lemma {:induction false} LastSubtreeIsApart(world: World, i: nat, n: nat, j: nat)
    requires Ranked(world.wfs) && i < |world.wfs| && 0 < n <= |world.wfs|
    requires Waits(world.wfs[n - 1], world.wfs[i].id) && StartedIn(world, n - 1, j)
    ensures !Hangs(world, i, n - 1, j)
  {
    forall l: nat | l < n - 1 && Waits(world.wfs[l], world.wfs[i].id)
      ensures !StartedIn(world, l, j)
    {
      if StartedIn(world, l, j) {
        SubtreesAreDisjoint(world, i, n - 1, l, j);
      }
    }
  }

  ghost predicate ListsStarted(world: World, i: nat, js: seq<nat>)
    requires Ranked(world.wfs) && i < |world.wfs|
  {
    NoRepeat(js) && forall j: nat :: j in js <==> StartedIn(world, i, j)
  }

  lemma {:induction false} HangingJoin(world: World, i: nat, n: nat, head: seq<nat>, rest: seq<nat>)
    requires Ranked(world.wfs) && i < |world.wfs| && 0 < n <= |world.wfs|
    requires Waits(world.wfs[n - 1], world.wfs[i].id)
    requires ListsStarted(world, n - 1, head) && ListsHanging(world, i, n - 1, rest)
    ensures ListsHanging(world, i, n, head + rest)
  {
    forall j | j in head ensures j !in rest {
      LastSubtreeIsApart(world, i, n, j);
    }
    NoRepeatJoin(head, rest);
    forall j: nat ensures j in head + rest <==> Hangs(world, i, n, j) {
      HangsStep(world, i, n, j);
    }
  }

  lemma {:induction false} HangingSkips(world: World, i: nat, n: nat, rest: seq<nat>)
    requires Ranked(world.wfs) && i < |world.wfs| && 0 < n <= |world.wfs|
    requires !Waits(world.wfs[n - 1], world.wfs[i].id)
    requires ListsHanging(world, i, n - 1, rest)
    ensures ListsHanging(world, i, n, rest)
  {
    forall j: nat ensures j in rest <==> Hangs(world, i, n, j) {
      HangsStep(world, i, n, j);
    }
  }

  lemma {:induction false} HangsStep(world: World, i: nat, n: nat, j: nat)
    requires Ranked(world.wfs) && i < |world.wfs| && 0 < n <= |world.wfs|
    ensures Hangs(world, i, n, j)
       <==> Hangs(world, i, n - 1, j) || (Waits(world.wfs[n - 1], world.wfs[i].id) && StartedIn(world, n - 1, j))
  {
  }

  // ---------------------------------------------------------------- who comes first

  /** Whoever waits comes after whom it waits for, and of two that wait for the same the younger comes first. */
  ghost predicate WellOrdered(world: World, js: seq<nat>) {
    && (forall a | 0 <= a < |js| :: js[a] < |world.wfs|)
    && (forall a, b | 0 <= a < b < |js| :: InOrder(world, js[a], js[b]))
  }

  /** Row x may come before row y. */
  ghost predicate InOrder(world: World, x: nat, y: nat)
    requires x < |world.wfs| && y < |world.wfs|
  {
    && !Waits(world.wfs[x], world.wfs[y].id)
    && forall p: nat | p < |world.wfs| ::
         Waits(world.wfs[x], world.wfs[p].id) && Waits(world.wfs[y], world.wfs[p].id) ==> x > y
  }

  /** Whom a started workflow waits for is started with it, unless it is the root. */
  lemma {:induction false} ParentIsStarted(world: World, root: nat, j: nat, p: nat)
    requires Ranked(world.wfs) && root < |world.wfs| && p < |world.wfs|
    requires StartedIn(world, root, j) && j != root && Waits(world.wfs[j], world.wfs[p].id)
    ensures StartedIn(world, root, p)
  {
    var q :| 0 <= q < j && Waits(world.wfs[j], world.wfs[q].id) && Started(world, root, q)
        && Delivers(world, world.wfs[q]);
    OneParent(world, j, p, q);
  }

  lemma {:induction false} ChildBeforeParent(world: World, i: nat, k: nat)
    requires Ranked(world.wfs) && i < |world.wfs| && k < |world.wfs| && Waits(world.wfs[k], world.wfs[i].id)
    ensures !StartedIn(world, k, i)
  {
    OneParent(world, k, i, i);
    if StartedIn(world, k, i) {
      StartedIsBelow(world, k, i);
    }
  }

  /** x under the younger k and y under the older l, both of which wait for i. */
  lemma {:induction false} AcrossSubtrees(world: World, i: nat, k: nat, l: nat, x: nat, y: nat)
    requires Ranked(world.wfs) && i < |world.wfs| && l < k < |world.wfs|
    requires Waits(world.wfs[k], world.wfs[i].id) && Waits(world.wfs[l], world.wfs[i].id)
    requires StartedIn(world, k, x) && StartedIn(world, l, y)
    ensures InOrder(world, x, y)
  {
    ChildBeforeParent(world, i, k);
    ChildBeforeParent(world, i, l);
    if Waits(world.wfs[x], world.wfs[y].id) {
      if x == k {
        OneParent(world, k, y, i);
      } else {
        ParentIsStarted(world, k, x, y);
        SubtreesAreDisjoint(world, i, k, l, y);
      }
    }
    forall p: nat | p < |world.wfs| && Waits(world.wfs[x], world.wfs[p].id) && Waits(world.wfs[y], world.wfs[p].id)
      ensures x > y
    {
      SiblingsAcross(world, i, k, l, x, y, p);
    }
  }

  lemma {:induction false} SiblingsAcross(world: World, i: nat, k: nat, l: nat, x: nat, y: nat, p: nat)
    requires Ranked(world.wfs) && i < |world.wfs| && l < k < |world.wfs| && p < |world.wfs|
    requires Waits(world.wfs[k], world.wfs[i].id) && Waits(world.wfs[l], world.wfs[i].id)
    requires StartedIn(world, k, x) && StartedIn(world, l, y)
    requires Waits(world.wfs[x], world.wfs[p].id) && Waits(world.wfs[y], world.wfs[p].id)
    ensures x == k && y == l
  {
    ChildBeforeParent(world, i, k);
    ChildBeforeParent(world, i, l);
    if x != k {
      ParentIsStarted(world, k, x, p);
    } else {
      OneParent(world, k, p, i);
    }
    if y != l {
      ParentIsStarted(world, l, y, p);
    } else {
      OneParent(world, l, p, i);
    }
    if x != k && y != l {
      SubtreesAreDisjoint(world, i, k, l, p);
    }
  }

  lemma {:induction false} OrderedJoin(world: World, a: seq<nat>, b: seq<nat>)
    requires WellOrdered(world, a) && WellOrdered(world, b)
    requires forall x, y | x in a && y in b :: InOrder(world, x, y)
    ensures WellOrdered(world, a + b)
  {
    var c := a + b;
    forall i, j | 0 <= i < j < |c| ensures InOrder(world, c[i], c[j]) {
      if i < |a| <= j {
        assert c[i] in a && c[j] in b;
      }
    }
  }

  /** A cascade runs whom it waits for first, and siblings youngest first. */
  lemma {:induction false} OrderIsWellOrdered(world: World, i: nat)
    requires Ranked(world.wfs) && i < |world.wfs|
    ensures WellOrdered(world, Order(world, i))
    decreases |world.wfs| - i, |world.wfs| + 1
  {
    if Starts(world, world.wfs[i]) && Delivers(world, world.wfs[i]) {
      var below := OrderBelow(world, i, |world.wfs|);
      BelowIsWellOrdered(world, i, |world.wfs|);
      OrderBelowLists(world, i, |world.wfs|);
      forall y | y in below ensures InOrder(world, i, y) {
        var k: nat :| k < |world.wfs| && Waits(world.wfs[k], world.wfs[i].id) && StartedIn(world, k, y);
        RootBefore(world, i, k, y);
      }
      OrderedJoin(world, [i], below);
    }
  }

  lemma {:induction false} RootBefore(world: World, i: nat, k: nat, y: nat)
    requires Ranked(world.wfs) && i < |world.wfs| && k < |world.wfs|
    requires Waits(world.wfs[k], world.wfs[i].id) && StartedIn(world, k, y)
    ensures InOrder(world, i, y)
  {
    StartedIsBelow(world, k, y);
    OneParent(world, k, i, i);
    if p: nat :| p < |world.wfs| && Waits(world.wfs[i], world.wfs[p].id) && Waits(world.wfs[y], world.wfs[p].id) {
      OneParent(world, i, p, p);
      if y == k {
        OneParent(world, k, p, i);
      } else {
        ParentIsStarted(world, k, y, p);
        StartedIsBelow(world, k, p);
      }
      assert false;
    }
  }

  lemma {:induction false} BelowIsWellOrdered(world: World, i: nat, n: nat)
    requires Ranked(world.wfs) && i < |world.wfs| && n <= |world.wfs|
    ensures WellOrdered(world, OrderBelow(world, i, n))
    decreases |world.wfs| - i, n
  {
    if n == 0 {
    } else {
      var k := n - 1;
      var rest := OrderBelow(world, i, k);
      BelowIsWellOrdered(world, i, k);
      if Waits(world.wfs[k], world.wfs[i].id) {
        OrderIsWellOrdered(world, k);
        OrderListsStarted(world, k);
        OrderBelowLists(world, i, k);
        forall x, y | x in Order(world, k) && y in rest ensures InOrder(world, x, y) {
          var l: nat :| l < k && Waits(world.wfs[l], world.wfs[i].id) && StartedIn(world, l, y);
          AcrossSubtrees(world, i, k, l, x, y);
        }
        OrderedJoin(world, Order(world, k), rest);
      } else {
        assert OrderBelow(world, i, n) == rest;
      }
    }
  }
}
