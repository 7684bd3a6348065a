/** Which clients a target filter selects, over the whole fleet. */
module Grouping {
  import opened Sequences
  import opened Wrappers
  import opened FilterSyntax
  import opened FilterText
  import opened FilterEval

  datatype FilterResult = FilterResult(ids: seq<string>, totalEvaluated: nat, matchCount: nat)

  type Selection = Result<seq<string>, FilterError>

  /** The clients a trigger without a filter runs on. */
  function ActiveIDs(clients: seq<Client>): seq<string> {
    if clients == [] then []
    else
      var last := clients[|clients| - 1];
      ActiveIDs(clients[..|clients| - 1]) + if last.active then [last.id] else []
  }

  /** In fleet order, the active clients that match; the first evaluation error ends it. */
  function Select(rt: Runtime, n: FilterNode, clients: seq<Client>): Selection {
    if clients == [] then Ok([])
    else
      var last := clients[|clients| - 1];
      match Select(rt, n, clients[..|clients| - 1])
      case Err(e) => Err(e)
      case Ok(ids) =>
        if !last.active then Ok(ids)
        else
          match Evaluate(rt, n, last)
          case Err(e) => Err(e)
          case Ok(matches) => Ok(if matches then ids + [last.id] else ids)
  }

  function Resolve(rt: Runtime, expr: string, clients: seq<Client>): Selection {
    match Parse(rt, expr)
    case Err(e) => Err(e)
    case Ok(n) => Select(rt, n, clients)
  }

  method ResolveClients(rt: Runtime, expr: string, clients: seq<Client>) returns (r: Result<FilterResult, FilterError>)
    ensures match Resolve(rt, expr, clients)
            case Err(e) => r == Err(e)
            case Ok(ids) => r == Ok(FilterResult(ids, |clients|, |ids|))
  {
    var node := ParseFilter(rt, expr);
    if node.Err? {
      return Err(node.error);
    }
    var ids: seq<string> := [];
    var count := 0;
    for k := 0 to |clients|
      invariant Select(rt, node.value, clients[..k]) == Ok(ids) && count == |ids|
    {
      SelectPrefix(rt, node.value, clients, k + 1);
      assert clients[..k + 1][..k] == clients[..k];
      if !clients[k].active {
        continue;
      }
      var matches := Evaluate(rt, node.value, clients[k]);
      if matches.Err? {
        return Err(matches.error);
      }
      if matches.value {
        ids := ids + [clients[k].id];
        count := count + 1;
      }
    }
    assert clients[..|clients|] == clients;
    return Ok(FilterResult(ids, |clients|, count));
  }

  /** An error on the first clients is the error on all of them. */
  lemma {:induction false} SelectPrefix(rt: Runtime, n: FilterNode, clients: seq<Client>, k: nat)
    requires k <= |clients|
    ensures Select(rt, n, clients[..k]).Err? ==> Select(rt, n, clients) == Select(rt, n, clients[..k])
    decreases |clients|
  {
    if k == |clients| {
      assert clients[..k] == clients;
    } else {
      SelectPrefix(rt, n, clients[..|clients| - 1], k);
      assert clients[..|clients| - 1][..k] == clients[..k];
    }
  }

  ghost predicate Matches(rt: Runtime, n: FilterNode, c: Client) {
    c.active && Evaluate(rt, n, c) == Ok(true)
  }

  /** The selection succeeds exactly when no active client fails, and then holds exactly the matches. */
  lemma {:induction false} SelectsExactly(rt: Runtime, n: FilterNode, clients: seq<Client>)
    ensures Select(rt, n, clients).Ok? <==> forall c | c in clients && c.active :: Evaluate(rt, n, c).Ok?
    ensures Select(rt, n, clients).Ok? ==>
              forall id :: id in Select(rt, n, clients).value
                  <==> exists c :: c in clients && Matches(rt, n, c) && c.id == id
  {
    if clients == [] {
    } else {
      var init, last := clients[..|clients| - 1], clients[|clients| - 1];
      SelectsExactly(rt, n, init);
      assert clients == init + [last];
      assert forall c :: c in clients <==> c in init || c == last;
      if Select(rt, n, clients).Ok? {
        forall id
          ensures id in Select(rt, n, clients).value <==> exists c :: c in clients && Matches(rt, n, c) && c.id == id
        {
          assert Matches(rt, n, last) <==> last.active && Evaluate(rt, n, last) == Ok(true);
        }
      }
    }
  }

  /** The ids of the fleet, in its order. */
  function IDs(clients: seq<Client>): (ids: seq<string>)
    ensures |ids| == |clients|
  {
    seq(|clients|, i requires 0 <= i < |clients| => clients[i].id)
  }

  /** A selection keeps the order of the fleet. */
  lemma {:induction false} SelectsInOrder(rt: Runtime, n: FilterNode, clients: seq<Client>)
    requires Select(rt, n, clients).Ok?
    ensures Subsequence(Select(rt, n, clients).value, IDs(clients))
  {
    if clients == [] {
      NothingStands(IDs(clients));
    } else {
      var init, last := clients[..|clients| - 1], clients[|clients| - 1];
      SelectsInOrder(rt, n, init);
      SubsequenceGrows(Select(rt, n, init).value, IDs(init), last.id);
      assert IDs(clients) == IDs(init) + [last.id];
    }
  }

  /** The k-th client is the first active one whose evaluation fails, and e is its error. */
  predicate FailsFirstAt(rt: Runtime, n: FilterNode, clients: seq<Client>, k: nat, e: FilterError) {
    && k < |clients| && clients[k].active && Evaluate(rt, n, clients[k]) == Err(e)
    && forall j | 0 <= j < k && clients[j].active :: Evaluate(rt, n, clients[j]).Ok?
  }

  /** The error of a selection is that of the first active client that fails. */
  lemma {:induction false} SelectionFailsFirst(rt: Runtime, n: FilterNode, clients: seq<Client>, e: FilterError)
    ensures Select(rt, n, clients) == Err(e) <==> exists k: nat :: FailsFirstAt(rt, n, clients, k, e)
  {
    if clients == [] {
    } else {
      var init, last := clients[..|clients| - 1], clients[|clients| - 1];
      SelectionFailsFirst(rt, n, init, e);
      SelectsExactly(rt, n, init);
      assert forall c :: c in init <==> exists j :: 0 <= j < |init| && clients[j] == c;
      if Select(rt, n, clients) == Err(e) {
        if Select(rt, n, init).Err? {
          var k: nat :| FailsFirstAt(rt, n, init, k, e);
          assert FailsFirstAt(rt, n, clients, k, e);
        } else {
          assert FailsFirstAt(rt, n, clients, |init|, e);
        }
      }
      forall k: nat | FailsFirstAt(rt, n, clients, k, e) ensures Select(rt, n, clients) == Err(e) {
        if k < |init| {
          assert FailsFirstAt(rt, n, init, k, e);
        }
      }
    }
  }

  ghost predicate DistinctIDs(clients: seq<Client>) {
    forall i, j | 0 <= i < j < |clients| :: clients[i].id != clients[j].id
  }

  ghost predicate Distinct(ids: seq<string>) {
    forall i, j | 0 <= i < j < |ids| :: ids[i] != ids[j]
  }

  lemma {:induction false} AppendDistinct(ids: seq<string>, id: string)
    requires Distinct(ids) && id !in ids
    ensures Distinct(ids + [id])
  {
  }

  /** A fleet without repeated ids selects without repeated ids. */
  lemma {:induction false} SelectsDistinct(rt: Runtime, n: FilterNode, clients: seq<Client>)
    requires DistinctIDs(clients)
    ensures Select(rt, n, clients).Ok? ==> Distinct(Select(rt, n, clients).value)
  {
    if clients == [] {
    } else {
      var init, last := clients[..|clients| - 1], clients[|clients| - 1];
      SelectsDistinct(rt, n, init);
      SelectsExactly(rt, n, init);
      if Select(rt, n, init).Ok? {
        assert last.id !in Select(rt, n, init).value;
        AppendDistinct(Select(rt, n, init).value, last.id);
      }
    }
  }

  /** The blank filter takes the same clients as no filter at all. */
  lemma {:induction false} BlankFilterSelectsActive(rt: Runtime, expr: string, clients: seq<Client>)
    requires TrimSpace(expr) == ""
    ensures Resolve(rt, expr, clients) == Ok(ActiveIDs(clients))
  {
    LexTrimmed(expr);
    NilSelectsActive(rt, clients);
  }

  lemma {:induction false} NilSelectsActive(rt: Runtime, clients: seq<Client>)
    ensures Select(rt, Nil, clients) == Ok(ActiveIDs(clients))
  {
    if clients == [] {
    } else {
      var last := clients[|clients| - 1];
      NilSelectsActive(rt, clients[..|clients| - 1]);
      assert Evaluate(rt, Nil, last) == Ok(true);
      assert ActiveIDs(clients[..|clients| - 1]) + [] == ActiveIDs(clients[..|clients| - 1]);
    }
  }
}
