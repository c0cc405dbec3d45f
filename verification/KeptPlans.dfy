/** What is planned stays planned until it is handed over: for one-time and recurring events, with or without
    Count and Until. */
module KeptPlans {
  import opened Times
  import opened Recurrence
  import opened Tables
  import opened Redis
  import opened Pipeline
  import opened Conservation
  import opened Dispatching
  import opened Handover
  import opened NoMissed
  import opened DoubleMoves

  lemma {:induction false} RunKeepsAccounted(c: Config, s: State, steps: seq<Step>, e: EventId, x: Instant)
    requires Traced(c, s) && Accounted(s, e, x)
    requires Run(c, s, steps) && forall step :: step in steps ==> KeepsPlan(step, e)
    ensures Traced(c, Final(c, s, steps)) && Accounted(Final(c, s, steps), e, x)
    decreases |steps|
  {
    hide Enabled, Apply, Traced, Accounted, KeepsPlan;
    if steps != [] {
      StepKeepsTraced(c, s, steps[0]);
      StepAccounts(c, s, steps[0], e);
      AccountedStays(s, Apply(c, s, steps[0]), e);
      RunKeepsAccounted(c, Apply(c, s, steps[0]), steps[1..], e, x);
    }
  }

  /** In every run from the empty system, whatever fails, is retried, edited, deleted or archived in between:
      an instant with a hash entry keeps it until its second begins, unless a handler removes the event's plan,
      and is handed over before the entry goes. */
  lemma PlannedIsKept(c: Config, s0: State, before: seq<Step>, after: seq<Step>, e: EventId, x: Instant)
    requires Initial(s0) && Run(c, s0, before) && Run(c, Final(c, s0, before), after)
    requires KeyFor(e, x) in Final(c, s0, before).redis.data
    requires forall step :: step in after ==> KeepsPlan(step, e)
    ensures var s := Final(c, Final(c, s0, before), after);
            && (KeyFor(e, x) in s.redis.data || exists y :: (e, y) in s.moved && Unix(y) == Unix(x))
            && (Unix(s.clock) < Unix(x) ==> KeyFor(e, x) in s.redis.data)
  {
    var s1 := Final(c, s0, before);
    InitiallyTraced(c, s0);
    RunKeepsTraced(c, s0, before);
    hide Run, Final, Initial, KeepsPlan;
    assert Accounted(s1, e, x);
    RunKeepsAccounted(c, s1, after, e, x);
    PendingWhileNotDue(Final(c, s1, after), c, e, x);
  }

  /** An undisturbed expansion of a one-time event, as a run: exactly what the code leaves in Redis if the start
      lies in the closed window, and no expansion otherwise. */
  lemma OnceExpansionIsRun(c: Config, s: State, j: nat, e: EventId, id: OccurrenceId)
    requires e in s.events && s.events[e].schedule == None && j !in s.jobs && id !in s.issued
    ensures var start := s.events[e].start;
            if s.clock - c.gracePeriod <= start <= s.clock + c.lookAhead then
              Run(c, s, OnceSteps(s, j, e, id)) &&
              Final(c, s, OnceSteps(s, j, e, id)).redis == Scheduled(s.redis, Item(id, e, start, 0))
            else !Enabled(c, s, BeginOnce(j, e))
  {
    if Enabled(c, s, BeginOnce(j, e)) {
      OnceIsRun(c, s, j, e, id);
      hide Run, Final, OnceSteps;
    }
  }

  /** No missed one-time event: once it has been expanded with its start in the closed window, it is pending
      until its second begins, and handed over before its entry goes. */
  lemma OneTimeIsNotMissed(c: Config, s0: State, before: seq<Step>, j: nat, e: EventId, id: OccurrenceId,
                           after: seq<Step>)
    requires Initial(s0) && Run(c, s0, before)
    requires var s := Final(c, s0, before);
             && e in s.events && s.events[e].schedule == None && j !in s.jobs && id !in s.issued
             && s.clock - c.gracePeriod <= s.events[e].start <= s.clock + c.lookAhead
             && Run(c, s, OnceSteps(s, j, e, id)) && Run(c, Final(c, s, OnceSteps(s, j, e, id)), after)
    requires forall step :: step in after ==> KeepsPlan(step, e)
    ensures var s, x := Final(c, s0, before), Final(c, s0, before).events[e].start;
            var s' := Final(c, Final(c, s, OnceSteps(s, j, e, id)), after);
            && (KeyFor(e, x) in s'.redis.data || exists y :: (e, y) in s'.moved && Unix(y) == Unix(x))
            && (Unix(s'.clock) < Unix(x) ==> KeyFor(e, x) in s'.redis.data)
  {
    var s := Final(c, s0, before);
    var once := OnceSteps(s, j, e, id);
    OnceExpansionIsRun(c, s, j, e, id);
    RunAppend(c, s0, before, once);
    hide Run, Final, Initial, KeepsPlan, OnceSteps;
    PlannedIsKept(c, s0, before + once, after, e, s.events[e].start);
  }
}
