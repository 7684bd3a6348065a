/** Scheduled triggers: the next-fire bookkeeping over an abstract schedule. */
module Cron {
  import opened Wrappers
  import opened Workflows

  /** The least instant of the schedule after a time. */
  type Schedule = int -> int

  /** What parsing a cron text yields: a schedule, or None for a malformed text. */
  type Parser = string -> Option<Schedule>

  ghost predicate IsNext(instants: iset<int>, next: Schedule) {
    forall t :: t < next(t) && next(t) in instants && forall u | t < u < next(t) :: u !in instants
  }

  /** Some instant of the schedule lies in (since, now]. */
  ghost predicate Passed(instants: iset<int>, since: int, now: int) {
    exists u :: u in instants && since < u <= now
  }

  lemma {:induction false} NextTellsPassed(instants: iset<int>, next: Schedule, since: int, now: int)
    requires IsNext(instants, next)
    ensures Passed(instants, since, now) <==> next(since) <= now
  {
    if next(since) <= now {
      assert next(since) in instants;
    }
  }

  /** A scheduled trigger whose schedule has passed an instant since it last fired or was first seen. */
  ghost predicate Due(
      parse: Parser, instants: iset<int>, since: map<string, int>, id: string, spec: TriggerSpec, now: int) {
    && spec.kind.Scheduled? && spec.cron != "" && parse(spec.cron).Some?
    && id in since && Passed(instants, since[id], now)
  }

  predicate SameAt(a: map<string, int>, b: map<string, int>, id: string) {
    (id in b <==> id in a) && (id in a ==> b[id] == a[id])
  }

  ghost predicate SameElsewhere(a: map<string, int>, b: map<string, int>, id: string) {
    forall other | other != id :: SameAt(a, b, other)
  }

  /** What looking at a trigger leaves on record: due ones and new ones count from now. */
  ghost predicate Reset(
      parse: Parser, instants: iset<int>, before: map<string, int>, after: map<string, int>, id: string,
      spec: TriggerSpec, now: int)
  {
    if spec.kind.Scheduled? && spec.cron != "" && parse(spec.cron).Some? then
      && id in after
      && after[id] == if id !in before || Due(parse, instants, before, id, spec, now) then now else before[id]
    else SameAt(before, after, id)
  }

  class CronEvaluator {
    const parse: Parser
    var next: map<string, int>
    /** When each workflow last fired, or was first looked at. */
    ghost var since: map<string, int>
    /** The cron text each workflow was first looked at with. */
    ghost var texts: map<string, string>

    constructor (parse: Parser)
      ensures this.parse == parse && Valid() && since == map[]
    {
      this.parse := parse;
      next, since, texts := map[], map[], map[];
    }

    ghost predicate Valid()
      reads this
    {
      next.Keys == since.Keys == texts.Keys
      && forall id | id in next :: parse(texts[id]).Some? && next[id] == parse(texts[id]).value(since[id])
    }

    /** The trigger is a scheduled one with a text that parses. */
    predicate Tells(spec: TriggerSpec) {
      spec.kind.Scheduled? && spec.cron != "" && parse(spec.cron).Some?
    }

    /**
     * Fires exactly when an instant of the schedule has passed since the last firing or the first
     * look; the first look never fires. A workflow's trigger does not change once created.
     */
    method ShouldFire(id: string, spec: TriggerSpec, now: int, ghost instants: iset<int>) returns (r: Result<bool, ()>)
      requires Valid() && (id in texts ==> texts[id] == spec.cron)
      requires parse(spec.cron).Some? ==> IsNext(instants, parse(spec.cron).value)
      modifies this
      ensures Valid()
      ensures texts == if id in old(texts) || !Tells(spec) then old(texts) else old(texts)[id := spec.cron]
      ensures r.Err? <==> spec.kind.Scheduled? && spec.cron != "" && parse(spec.cron).None?
      ensures r.Ok? ==> r.value == Due(parse, instants, old(since), id, spec, now)
      ensures Reset(parse, instants, old(since), since, id, spec, now) && SameElsewhere(old(since), since, id)
    {
      if !spec.kind.Scheduled? || spec.cron == "" {
        return Ok(false);
      }
      var sched := parse(spec.cron);
      if sched.None? {
        return Err(());
      }
      var due := Decide(id, spec, sched.value, now, instants);
      return Ok(due);
    }

    /** A trigger whose text parses: the first look only remembers, a later one compares. */
    method Decide(
        id: string, spec: TriggerSpec, next': Schedule, now: int, ghost instants: iset<int>) returns (due: bool)
      requires Valid() && (id in texts ==> texts[id] == spec.cron)
      requires Tells(spec) && parse(spec.cron).value == next' && IsNext(instants, next')
      modifies this
      ensures Valid()
      ensures texts == if id in old(texts) then old(texts) else old(texts)[id := spec.cron]
      ensures due == Due(parse, instants, old(since), id, spec, now)
      ensures Reset(parse, instants, old(since), since, id, spec, now) && SameElsewhere(old(since), since, id)
    {
      if id !in next {
        next, since, texts := next[id := next'(now)], since[id := now], texts[id := spec.cron];
        return false;
      }
      NextTellsPassed(instants, next', since[id], now);
      if now < next[id] {
        return false;
      }
      next, since := next[id := next'(now)], since[id := now];
      return true;
    }
  }
}
