/** What holds of every run of the server, ticks of the trigger loop included. */
module ServerSafety {
  import opened Wrappers
  import opened Bans
  import opened Results
  import opened Dispatching
  import opened DispatchLog
  import opened ServerRuns
  import W = Workflows
  import CB = CircuitBreaker
  import BR = BreakerRuns
  import BanService
  import Orchestration
  import LoopDetection

  /** Between a ban and a later message it concerns there is the lifting of that ban. */
  lemma {:induction false} LiftedBetween(setting: Setting, s: Server, i: nat, j: nat)
    requires Invariant(setting, s) && i < j < |s.log| && s.log[i].Barred? && s.log[j].Sent?
    requires s.log[i].client == s.log[j].client
    requires s.log[i].wfType == s.log[j].wfType || s.log[i].wfType == ""
    ensures exists k :: i < k < j && s.log[k] == Lifted(s.log[i].client, s.log[i].wfType)
  {
    if forall k | i < k < j :: s.log[k] != Lifted(s.log[i].client, s.log[i].wfType) {
      StaysInForce(s.log, i, j);
      assert false;
    }
  }

  /**
   * Dispatch safety over whole runs: the messages of the log are those the broker took, in order,
   * and wherever it shows one to a client of some type, every earlier ban of that client from
   * that type or from all types was lifted in between.
   */
  lemma {:induction false} NoMessageUnderBan(setting: Setting, ops: seq<ServerOp>, end: Server)
    requires SoundSetting(setting) && RunsTo(setting, START, ops, end)
    ensures Sends(end.log) == AsEvents(end.books.sent)
    ensures forall i, j | 0 <= i < j < |end.log| && end.log[i].Barred? && end.log[j].Sent?
                          && end.log[i].client == end.log[j].client
                          && (end.log[i].wfType == end.log[j].wfType || end.log[i].wfType == "") ::
              exists k :: i < k < j && end.log[k] == Lifted(end.log[i].client, end.log[i].wfType)
  {
    StartIsGood(setting);
    RunsKeepInvariant(setting, START, ops, end);
    forall i, j | 0 <= i < j < |end.log| && end.log[i].Barred? && end.log[j].Sent?
                  && end.log[i].client == end.log[j].client
                  && (end.log[i].wfType == end.log[j].wfType || end.log[i].wfType == "")
      ensures exists k :: i < k < j && end.log[k] == Lifted(end.log[i].client, end.log[i].wfType)
    {
      LiftedBetween(setting, end, i, j);
    }
  }

  lemma {:induction false} StartIsGood(setting: Setting)
    ensures Invariant(setting, START)
  {
  }

  /**
   * The breaker over whole runs: the alerts of a workflow alternate, starting with an opening, and
   * its circuit is open exactly while the last one was an opening.
   */
  lemma {:induction false} BreakersAlternate(setting: Setting, ops: seq<ServerOp>, end: Server, id: string)
    requires SoundSetting(setting) && RunsTo(setting, START, ops, end)
    ensures CB.Phase(end.health.alerts, id) == Some(CB.IsOpen(end.health.circuits, id))
    ensures BR.Count(end.health.alerts, id, BanService.CircuitOpened)
         == BR.Count(end.health.alerts, id, BanService.CircuitClosed)
            + if CB.IsOpen(end.health.circuits, id) then 1 else 0
  {
    StartIsGood(setting);
    RunsKeepInvariant(setting, START, ops, end);
    BR.PhaseBalances(end.health.alerts, id);
  }

  /** A result that convicts its client closes the type of its workflow to it at once. */
  lemma {:induction false} ConvictionTakesEffect(
      setting: Setting, s: Server, r: ClientResult, now: int, w: W.Workflow, later: int)
    requires SoundSetting(setting) && Invariant(setting, s) && LoopDetection.Convicts(s.wfs, s.books.tables, r)
        && now != 0 && w in s.wfs && w.id == r.wfID
    ensures var end := Reported(setting, s, r, now, false);
            && end.log == s.log + [Barred(r.client, w.wfType)]
            && Banned(end.bans, r.client, w.wfType, later)
  {
    ReportingIsSafe(setting, s, r, now, false);
    LoopDetection.LoopBanIs(s.wfs, r, now, w);
    var end := Reported(setting, s, r, now, false);
    InForceAfter(s.log, Barred(r.client, w.wfType), r.client, w.wfType);
    ExactAnswers(end.bans, r.client, w.wfType, later);
  }

  /** Every message of type t to client c at or after position n follows a lifting of the ban at n. */
  ghost predicate OnlyAfterLifting(log: seq<Event>, n: nat, c: string, t: string) {
    && n < |log| && log[n] == Barred(c, t)
    && forall j | n < j < |log| && log[j] == Sent(c, t) :: exists k :: n < k < j && log[k] == Lifted(c, t)
  }

  lemma {:induction false} StaysInPlace(log: seq<Event>, e: Event, longer: seq<Event>, longest: seq<Event>)
    requires longer == log + [e] && longer <= longest
    ensures |log| < |longest| && longest[|log|] == e
  {
    assert longer[|log|] == e;
  }

  lemma {:induction false} BarredUntilLifted(setting: Setting, end: Server, n: nat, c: string, t: string)
    requires Invariant(setting, end) && n < |end.log| && end.log[n] == Barred(c, t)
    ensures OnlyAfterLifting(end.log, n, c, t)
  {
    forall j | n < j < |end.log| && end.log[j] == Sent(c, t)
      ensures exists k :: n < k < j && end.log[k] == Lifted(c, t)
    {
      LiftedBetween(setting, end, n, j);
    }
  }

  /**
   * From a convicting result on, in whatever way the server goes on, a message of that type goes
   * to the client only after somebody lifted the ban.
   */
  lemma {:induction false} ConvictedUntilLifted(
      setting: Setting, before: seq<ServerOp>, s: Server, r: ClientResult, now: int, w: W.Workflow,
      after: seq<ServerOp>, end: Server)
    requires SoundSetting(setting) && RunsTo(setting, START, before, s)
    requires LoopDetection.Convicts(s.wfs, s.books.tables, r) && w in s.wfs && w.id == r.wfID
    requires RunsTo(setting, s, [Report(r, now, false)] + after, end)
    ensures OnlyAfterLifting(end.log, |s.log|, r.client, w.wfType)
  {
    StartIsGood(setting);
    RunsKeepInvariant(setting, START, before, s);
    RunsKeepInvariant(setting, s, [Report(r, now, false)] + after, end);
    var mid := Reported(setting, s, r, now, false);
    RunSplits(setting, s, Report(r, now, false), after, end);
    ConvictionTakesEffect(setting, s, r, now, w, now);
    RunGrowsLog(setting, mid, after, end);
    StaysInPlace(s.log, Barred(r.client, w.wfType), mid.log, end.log);
    BarredUntilLifted(setting, end, |s.log|, r.client, w.wfType);
  }

  // ---------------------------------------------------------------- ticks of the trigger loop

  /** The triggers of one tick, as operations. */
  function Fires(ws: seq<W.Workflow>, due: set<string>, net: Net, now: int): seq<ServerOp> {
    if ws == [] then []
    else (if ws[0].id in due then [Fire(ws[0].id, "scheduled", net, now)] else []) + Fires(ws[1..], due, net, now)
  }

  /** A tick of the trigger loop is a run of ordinary triggers, so all that holds of runs holds of ticks. */
  lemma {:induction false} TickIsARun(
      setting: Setting, s: Server, ws: seq<W.Workflow>, due: set<string>, net: Net, now: int)
    returns (end: Server)
    requires W.Ranked(s.wfs)
    ensures RunsTo(setting, s, Fires(ws, due, net, now), end)
    ensures end.books == Orchestration.Ticked(WorldOf(setting, s, net, now), s.books, ws, due)
    decreases |ws|
  {
    if ws == [] {
      end := s;
    } else {
      var rest := Fires(ws[1..], due, net, now);
      if ws[0].id in due {
        var op := Fire(ws[0].id, "scheduled", net, now);
        end := TickIsARun(setting, Step(setting, s, op), ws[1..], due, net, now);
        assert ([op] + rest)[1..] == rest;
      } else {
        end := TickIsARun(setting, s, ws[1..], due, net, now);
        assert [] + rest == rest;
      }
    }
  }
}
