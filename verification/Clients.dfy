/** The clients table, and the registration of clients from the results they send. */
module Clients {
  import opened FilterEval
  import opened FilterSyntax
  import opened Results
  import opened Tables
  import opened Wrappers
  import FilterFields
  import Grouping

  function Place(rows: seq<Client>, id: string): (i: nat)
    ensures i <= |rows|
    ensures i < |rows| ==> rows[i].id == id
    ensures forall k | 0 <= k < i :: rows[k].id != id
  {
    Find(rows, (c: Client) => c.id, id)
  }

  function Registered(rows: seq<Client>, c: Client): seq<Client> {
    var i := Place(rows, c.id);
    if i < |rows| then rows[i := c] else rows + [c]
  }

  lemma {:induction false} RegisteredKeepsDistinct(rows: seq<Client>, c: Client)
    requires Grouping.DistinctIDs(rows)
    ensures Grouping.DistinctIDs(Registered(rows, c))
  {
  }

  /** Registering puts the row in the place of the one with its id, or at the end; the others stay. */
  lemma {:induction false} RegisteredHolds(rows: seq<Client>, c: Client)
    requires Grouping.DistinctIDs(rows)
    ensures forall x :: x in Registered(rows, c) <==> x == c || (x in rows && x.id != c.id)
    ensures forall k | 0 <= k < |rows| && rows[k].id != c.id ::
              k < |Registered(rows, c)| && Registered(rows, c)[k] == rows[k]
  {
    var i, out := Place(rows, c.id), Registered(rows, c);
    assert i < |out| && out[i] == c;
    forall x | x in rows && x.id != c.id ensures x in out {
      var k :| 0 <= k < |rows| && rows[k] == x;
      assert out[k] == x;
    }
    forall x | x in out ensures x == c || (x in rows && x.id != c.id) {
      var k :| 0 <= k < |out| && out[k] == x;
      assert k < |rows| ==> rows[k] in rows;
    }
  }

  /** The row a result of a client leaves: active, on ubuntu, with the reported state and no labels. */
  function FromResult(r: ClientResult): Client {
    Client(r.client, "ubuntu", map[], r.state, true)
  }

  /** Every result overwrites the row of its client, whatever was registered before. */
  function SeenIn(rows: seq<Client>, r: ClientResult): seq<Client> {
    if r.client == "" then rows else Registered(rows, FromResult(r))
  }

  lemma {:induction false} SeenKeepsDistinct(rows: seq<Client>, r: ClientResult)
    requires Grouping.DistinctIDs(rows)
    ensures Grouping.DistinctIDs(SeenIn(rows, r))
  {
    if r.client == "" {
    } else {
      RegisteredKeepsDistinct(rows, FromResult(r));
    }
  }

  /**
   * After any result of a client it is active, on ubuntu, in the reported state, and has lost its
   * labels: every condition on a label is false for it, whatever the operator, until it registers
   * again, and a path into its state leads into the reported one. Other clients keep their rows.
   */
  lemma {:induction false} ResultErasesLabels(
      rt: Runtime, rows: seq<Client>, r: ClientResult, name: string, op: FilterOp, v: Value, keys: seq<string>)
    requires Grouping.DistinctIDs(rows) && r.client != "" && FilterFields.DotFree(keys)
    ensures exists c :: c in SeenIn(rows, r) && c.id == r.client
    ensures forall c | c in SeenIn(rows, r) && c.id == r.client ::
              && c.active && c.os == "ubuntu" && c.state == r.state && c.labels == map[]
              && Evaluate(rt, Cond("labels." + name, op, v), c) == Ok(false)
              && GetField(c, FilterFields.Join(["state"] + keys)) == FilterFields.Descend(Dict(r.state), keys)
    ensures forall c: Client | c.id != r.client :: c in SeenIn(rows, r) <==> c in rows
  {
    RegisteredHolds(rows, FromResult(r));
    assert FromResult(r) in SeenIn(rows, r);
    FilterFields.LabelPath(FromResult(r), name);
    FilterFields.UnknownNeverMatches(rt, "labels." + name, op, v, FromResult(r));
    FilterFields.StatePath(FromResult(r), "state", keys);
  }

  class ClientRepo {
    var rows: seq<Client>

    constructor ()
      ensures rows == []
    {
      rows := [];
    }

    /** Upsert by client id. */
    method SaveClient(c: Client)
      modifies this
      ensures rows == Registered(old(rows), c)
    {
      var i := Place(rows, c.id);
      if i < |rows| {
        rows := rows[i := c];
      } else {
        rows := rows + [c];
      }
    }
  }

  /** The first handler of every result. */
  class ClientRegistrationService {
    const clients: ClientRepo

    constructor (clients: ClientRepo)
      ensures this.clients == clients
    {
      this.clients := clients;
    }

    method HandleResult(r: ClientResult)
      modifies clients
      ensures clients.rows == SeenIn(old(clients.rows), r)
    {
      if r.client == "" {
        return;
      }
      clients.SaveClient(Client(r.client, "ubuntu", map[], r.state, true));
    }
  }
}
