/** The log of messages and bans, which bans are in force at its end, and when it is safe. */
module DispatchLog {
  import opened Sequences
  import opened Dispatching

  datatype Event =
    | Sent(client: string, wfType: string)
    | Barred(client: string, wfType: string)
    | Lifted(client: string, wfType: string)

  function AsEvents(ds: seq<Dispatch>): (es: seq<Event>)
    ensures |es| == |ds|
  {
    seq(|ds|, i requires 0 <= i < |ds| => Sent(ds[i].client, ds[i].wfType))
  }

  /** The last ban event of the pair is a ban. */
  predicate InForce(log: seq<Event>, c: string, t: string) {
    log != [] &&
    var last := log[|log| - 1];
    if last == Barred(c, t) then true
    else if last == Lifted(c, t) then false
    else InForce(log[..|log| - 1], c, t)
  }

  ghost predicate Safe(log: seq<Event>) {
    forall j | 0 <= j < |log| && log[j].Sent? ::
      !InForce(log[..j], log[j].client, log[j].wfType) && !InForce(log[..j], log[j].client, "")
  }

  lemma {:induction false} InForceAfter(log: seq<Event>, e: Event, c: string, t: string)
    ensures InForce(log + [e], c, t)
         == if e == Barred(c, t) then true else if e == Lifted(c, t) then false else InForce(log, c, t)
  {
    assert (log + [e])[..|log|] == log;
  }

  lemma {:induction false} SafeAfter(log: seq<Event>, e: Event)
    requires Safe(log)
    requires e.Sent? ==> !InForce(log, e.client, e.wfType) && !InForce(log, e.client, "")
    ensures Safe(log + [e])
  {
    var all := log + [e];
    forall j | 0 <= j < |all| && all[j].Sent?
      ensures !InForce(all[..j], all[j].client, all[j].wfType) && !InForce(all[..j], all[j].client, "")
    {
      assert all[..j] == log[..j];
      assert j == |log| ==> log[..j] == log;
    }
  }

  /** Messages to clients without a ban in force keep the log safe and the bans in force. */
  lemma {:induction false} SendingIsSafe(log: seq<Event>, es: seq<Event>)
    requires Safe(log)
    requires forall e | e in es :: e.Sent? && !InForce(log, e.client, e.wfType) && !InForce(log, e.client, "")
    ensures Safe(log + es)
    ensures forall c, t :: InForce(log + es, c, t) == InForce(log, c, t)
  {
    if es == [] {
      assert log + es == log;
    } else {
      var init, last := es[..|es| - 1], es[|es| - 1];
      SendingIsSafe(log, init);
      assert (log + init) + [last] == log + es;
      SafeAfter(log + init, last);
      forall c, t ensures InForce(log + es, c, t) == InForce(log, c, t) {
        InForceAfter(log + init, last, c, t);
      }
    }
  }

  lemma {:induction false} StaysInForce(log: seq<Event>, i: nat, j: nat)
    requires i < j <= |log| && log[i].Barred?
    requires forall k | i < k < j :: log[k] != Lifted(log[i].client, log[i].wfType)
    ensures InForce(log[..j], log[i].client, log[i].wfType)
    decreases j
  {
    assert log[..j][..j - 1] == log[..j - 1];
    if i < j - 1 {
      StaysInForce(log, i, j - 1);
    }
  }

  // ---------------------------------------------------------------- the messages in the log

  /** The messages of the log, without the ban events. */
  function Sends(log: seq<Event>): seq<Event> {
    if log == [] then []
    else Sends(log[..|log| - 1]) + if log[|log| - 1].Sent? then [log[|log| - 1]] else []
  }

  lemma {:induction false} SendsAfter(log: seq<Event>, e: Event)
    ensures Sends(log + [e]) == if e.Sent? then Sends(log) + [e] else Sends(log)
  {
    assert (log + [e])[..|log|] == log;
  }

  lemma {:induction false} SendsOfSends(log: seq<Event>, es: seq<Event>)
    requires forall e | e in es :: e.Sent?
    ensures Sends(log + es) == Sends(log) + es
  {
    if es == [] {
      JoinNothing(log);
      JoinNothing(Sends(log));
    } else {
      var init, last := es[..|es| - 1], es[|es| - 1];
      SplitLast(es);
      SendsOfSends(log, init);
      SendsAfter(log + init, last);
      Regroup(log, init, [last]);
      Regroup(Sends(log), init, [last]);
    }
  }

  lemma {:induction false} SendsOfMessages(log: seq<Event>, ds: seq<Dispatch>)
    ensures Sends(log + AsEvents(ds)) == Sends(log) + AsEvents(ds)
  {
    SendsOfSends(log, AsEvents(ds));
  }

  lemma {:induction false} EventsJoin(a: seq<Dispatch>, b: seq<Dispatch>)
    ensures AsEvents(a + b) == AsEvents(a) + AsEvents(b)
  {
  }
}
