/** The dispatcher of results: its three handlers together make the server's Report step. */
module ResultDispatch {
  import opened Results
  import opened Clients
  import opened LoopDetection
  import opened HealthService
  import opened ServerRuns
  import HP = HealthPipeline
  import Runs

  class ResultMessageDispatcher {
    const registration: ClientRegistrationService
    const loops: LoopDetectionService
    const health: HealthMonitoringService

    constructor (registration: ClientRegistrationService, loops: LoopDetectionService, health: HealthMonitoringService)
      ensures this.registration == registration && this.loops == loops && this.health == health
    {
      this.registration := registration;
      this.loops := loops;
      this.health := health;
    }

    /** The services share their tables. */
    ghost predicate Wired()
      reads health.runs, health.breaker.workflows, health.breaker.circuits, health.breaker.alerts
    {
      && loops.runs == health.runs && loops.workflows == health.breaker.workflows && loops.enforcer.repo == health.bans
      && loops.alerts == loops.enforcer.alerts && loops.alerts != health.breaker.alerts
      && health.Wired() && Runs.Keyed(health.runs.tables)
    }

    /** The tables behind the services are those of the server s. */
    ghost predicate Represents(s: Server)
      reads registration.clients, loops.enforcer.repo, loops.enforcer.blocker, health.runs, health.results,
          health.health
      reads health.breaker.workflows, health.breaker.circuits, health.breaker.alerts
    {
      && s.clients == registration.clients.rows
      && s.bans == loops.enforcer.State()
      && MonitorOf(s) == health.State()
    }

    /** Malformed results are dropped; any other passes through the handlers by priority. */
    method Dispatch(r: ClientResult, now: int, dbFails: bool, ghost setting: Setting, ghost s: Server)
      requires Wired() && now != 0 && Represents(s) && setting.cfg == health.Settings()
      modifies registration.clients, loops.enforcer.repo, loops.enforcer.blocker, loops.alerts
      modifies health.runs, health.results, health.health
      modifies health.breaker.workflows, health.breaker.circuits, health.breaker.alerts
      ensures Wired() && Represents(Reported(setting, s, r, now, dbFails))
    {
      if !r.IsValid() {
        MalformedIsDropped(setting, s, r, now, dbFails);
        return;
      }
      RegisterAndJudge(r, now, dbFails, s);
      Monitor(r, now, setting, Judged(Seen(s, r), r, now, dbFails));
    }

    /** The handlers of priority 0 and 1. */
    method RegisterAndJudge(r: ClientResult, now: int, dbFails: bool, ghost s: Server)
      requires Wired() && Represents(s) && r.IsValid()
      modifies registration.clients, loops.enforcer.repo, loops.enforcer.blocker, loops.alerts
      ensures Wired() && Represents(Judged(Seen(s, r), r, now, dbFails))
    {
      registration.HandleResult(r);
      loops.HandleResult(r, now, dbFails);
    }

    /** The handler of priority 2. */
    method Monitor(r: ClientResult, now: int, ghost setting: Setting, ghost s: Server)
      requires Wired() && now != 0 && Represents(s) && setting.cfg == health.Settings()
      modifies health.runs, health.results, health.health
      modifies health.breaker.workflows, health.breaker.circuits, health.breaker.alerts
      ensures Wired() && Represents(Monitored(setting, s, r, now))
    {
      KeysStay(setting, s, r, now);
      health.HandleResult(r, now);
      assert MonitorOf(Monitored(setting, s, r, now)) == health.State();
      assert health.runs.tables == health.State().tables;
    }
  }

  lemma {:induction false} KeysStay(setting: Setting, s: Server, r: ClientResult, now: int)
    requires Runs.Keyed(s.books.tables)
    ensures Runs.Keyed(Monitored(setting, s, r, now).books.tables)
  {
    HP.ResultFrame(MonitorOf(s), r, s.bans.table, setting.cfg, now);
    Runs.SameRunsKeyed(s.books.tables, Monitored(setting, s, r, now).books.tables);
  }

  lemma {:induction false} MalformedIsDropped(setting: Setting, s: Server, r: ClientResult, now: int, dbFails: bool)
    requires !r.IsValid()
    ensures Reported(setting, s, r, now, dbFails) == s
  {
    assert WithMonitor(s, MonitorOf(s)) == s;
  }
}
