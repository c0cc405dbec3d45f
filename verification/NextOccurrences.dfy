/** The second recurrence engine, Schedule.GetNextOccurrences, and where it agrees with the
    expander's. */
module NextOccurrences {
  import opened Times
  import opened Calendar
  import opened Recurrence
  import opened Tables
  import Pipeline

  const MAX_OCCURRENCES := 1000

  /** Schedule of internal/scheduler/schedule.go. */
  datatype Rule = Rule(
    frequency: Frequency,
    interval: int,
    daysOfWeek: seq<string>,
    daysOfMonth: seq<int>,
    months: seq<int>,
    count: Option<int>,
    until: Option<Instant>)

  /** Schedule.Validate. */
  predicate Accepted(r: Rule) {
    && !r.frequency.Unknown?
    && r.interval >= 1
    && (forall d :: d in r.daysOfWeek ==> d in WEEKDAYS)
    && (forall d :: d in r.daysOfMonth ==> 1 <= d <= 31)
    && (forall m :: m in r.months ==> 1 <= m <= 12)
    && (r.count.Some? ==> r.count.value >= 1)
  }

  /** time.Weekday.String()[:2]: only the first letter is a capital. */
  function ShortName(weekday: int): string
    requires 0 <= weekday < 7
  {
    ["Su", "Mo", "Tu", "We", "Th", "Fr", "Sa"][weekday]
  }

  /** isValidOccurrence. */
  predicate IsValidOccurrence(r: Rule, t: Instant) {
    var d := DayOfInstant(t);
    && (r.daysOfWeek == [] || ShortName(Weekday(d)) in r.daysOfWeek)
    && (r.daysOfMonth == [] || DayOf(d) in r.daysOfMonth)
    && (r.months == [] || MonthOf(d) % 12 + 1 in r.months)
  }

  /** The rule's stepping, seen as an expander schedule without lists. */
  function AsSchedule(r: Rule): Schedule {
    Schedule(r.frequency, r.interval, [], [], [], r.count,
             if r.until.Some? then Before(r.until.value) else Never)
  }

  /** How many occurrences one call may return. */
  function Limit(r: Rule): nat
    requires Accepted(r)
  {
    if r.count.Some? then Min(MAX_OCCURRENCES, r.count.value) else MAX_OCCURRENCES
  }

  /** The instants from t on that the loop returns, given how many it may still return. */
  function From(r: Rule, t: Instant, end: Instant, left: nat): (found: seq<Instant>)
    requires Accepted(r)
    ensures |found| <= left
    decreases Max(0, end - t)
  {
    StepAdvances(AsSchedule(r), t);
    if t >= end || left == 0 || (r.until.Some? && t > r.until.value) then []
    else if IsValidOccurrence(r, t) then [t] + From(r, Step(AsSchedule(r), t), end, left - 1)
    else From(r, Step(AsSchedule(r), t), end, left)
  }

  method GetNextOccurrences(r: Rule, startTime: Instant, endTime: Instant)
    returns (occurrences: seq<Instant>)
    requires Accepted(r)
    ensures occurrences == From(r, startTime, endTime, Limit(r))
    ensures |occurrences| <= 1000 && (r.count.Some? ==> |occurrences| <= r.count.value)
  {
    hide IsValidOccurrence, Step;
    occurrences := [];
    var current := startTime;
    var count := 0;
    while current < endTime && count < MAX_OCCURRENCES
      invariant 0 <= count <= Limit(r)
      invariant occurrences + From(r, current, endTime, Limit(r) - count) ==
                From(r, startTime, endTime, Limit(r))
      decreases endTime - current
    {
      if r.count.Some? && count >= r.count.value {
        break;
      }
      if r.until.Some? && current > r.until.value {
        break;
      }
      if IsValidOccurrence(r, current) {
        occurrences := occurrences + [current];
        count := count + 1;
      }
      StepAdvances(AsSchedule(r), current);
      current := Step(AsSchedule(r), current);
    }
  }

  // ---------- agreement ----------

  predicate HasNoFilters(r: Rule) {
    r.daysOfWeek == [] && r.daysOfMonth == [] && r.months == []
  }

  function Take(xs: seq<Instant>, n: nat): seq<Instant> {
    if |xs| <= n then xs else xs[..n]
  }

  /** The expander's Until filter keeps instants before the bound; this engine keeps the bound too. */
  function Keep(xs: seq<Instant>, until: Option<Instant>, inclusive: bool): (r: seq<Instant>)
    ensures forall x :: x in r <==>
              x in xs && (until.Some? ==> x < until.value || (inclusive && x == until.value))
  {
    if xs == [] then []
    else if until.Some? && (xs[0] > until.value || (xs[0] == until.value && !inclusive)) then
      Keep(xs[1..], until, inclusive)
    else [xs[0]] + Keep(xs[1..], until, inclusive)
  }

  /** The rule as the schedule of an event. */
  function AsEvent(r: Rule, start: Instant): Event {
    Event(start, Some(AsSchedule(r)), Active, true)
  }

  /** The expander's list before its Until filter. */
  function Counted(r: Rule, start: Instant, lo: Instant, end: Instant): seq<Instant>
    requires Accepted(r)
  {
    Pipeline.Truncated(Occurrences(AsSchedule(r), start, lo, end), r.count)
  }

  lemma {:induction false} KeepIsBefore(xs: seq<Instant>, bound: Instant)
    ensures Keep(xs, Some(bound), false) == Pipeline.BeforeUntil(xs, bound)
  {
    if xs != [] {
      KeepIsBefore(xs[1..], bound);
    }
  }

  lemma {:induction false} KeepAll(xs: seq<Instant>, inclusive: bool)
    ensures Keep(xs, None, inclusive) == xs
  {
    if xs != [] {
      KeepAll(xs[1..], inclusive);
    }
  }

  /** The list that the expander plans is the counted one, cut before Until. */
  lemma PlanIsKept(c: Pipeline.Config, r: Rule, start: Instant, now: Instant)
    requires Accepted(r)
    ensures Pipeline.PlanOf(c, AsEvent(r, start), now) ==
            Keep(Counted(r, start, now - c.gracePeriod, now + c.lookAhead), r.until, false)
  {
    hide Occurrences;
    var all := Counted(r, start, now - c.gracePeriod, now + c.lookAhead);
    if r.until.Some? {
      KeepIsBefore(all, r.until.value);
    } else {
      KeepAll(all, false);
    }
  }

  /** Without filters every base point in the window is an occurrence. */
  lemma PlainHead(r: Rule, t: Instant, lo: Instant, end: Instant)
    requires Accepted(r) && lo < t < end
    ensures var s := AsSchedule(r);
            Occurrences(s, t, lo, end) == [t] + Occurrences(s, Step(s, t), lo, end)
  {
    hide Step;
    assert Candidates(AsSchedule(r), t) == [t];
    assert [t][..0] == [];
    assert Window([t], lo, end) == [t];
  }

  lemma {:induction false} KeepNothing(xs: seq<Instant>, until: Option<Instant>, inclusive: bool)
    requires until.Some?
    requires forall i :: 0 <= i < |xs| ==> xs[i] > until.value || (xs[i] == until.value && !inclusive)
    ensures Keep(xs, until, inclusive) == []
  {
    if xs != [] {
      KeepNothing(xs[1..], until, inclusive);
    }
  }

  predicate Ascending(xs: seq<Instant>) {
    forall i, j :: 0 <= i < j < |xs| ==> xs[i] < xs[j]
  }

  lemma {:induction false} PlainAscending(r: Rule, t: Instant, lo: Instant, end: Instant)
    requires Accepted(r) && lo < t
    ensures var xs := Occurrences(AsSchedule(r), t, lo, end);
            Ascending(xs) && forall x :: x in xs ==> x >= t
    decreases Max(0, end - t)
  {
    hide Step;
    var s := AsSchedule(r);
    StepAdvances(s, t);
    if t < end {
      PlainHead(r, t, lo, end);
      PlainAscending(r, Step(s, t), lo, end);
      var rest := Occurrences(s, Step(s, t), lo, end);
      forall j | 0 <= j < |rest|
        ensures rest[j] > t
      {
        assert rest[j] in rest;
      }
    }
  }

  lemma TakeCons(x: Instant, xs: seq<Instant>, n: nat)
    requires n > 0
    ensures Take([x] + xs, n) == [x] + Take(xs, n - 1)
  {
  }

  lemma PastBound(r: Rule, t: Instant, lo: Instant, end: Instant, n: nat)
    requires Accepted(r) && lo < t && r.until.Some? && t > r.until.value
    ensures Keep(Take(Occurrences(AsSchedule(r), t, lo, end), n), r.until, true) == []
  {
    hide Occurrences;
    var all := Occurrences(AsSchedule(r), t, lo, end);
    PlainAscending(r, t, lo, end);
    assert forall i :: 0 <= i < |all| ==> all[i] in all;
    KeepNothing(Take(all, n), r.until, true);
  }

  /** The loop returns the first elements of the series up to the bound. */
  lemma {:induction false} FromIsPrefix(r: Rule, t: Instant, lo: Instant, end: Instant, n: nat)
    requires Accepted(r) && HasNoFilters(r) && lo < t
    ensures From(r, t, end, n) == Keep(Take(Occurrences(AsSchedule(r), t, lo, end), n), r.until, true)
    decreases Max(0, end - t)
  {
    hide Step;
    var s := AsSchedule(r);
    StepAdvances(s, t);
    if t < end && n > 0 {
      if r.until.Some? && t > r.until.value {
        PastBound(r, t, lo, end, n);
      } else {
        PlainHead(r, t, lo, end);
        TakeCons(t, Occurrences(s, Step(s, t), lo, end), n);
        FromIsPrefix(r, Step(s, t), lo, end, n - 1);
      }
    }
  }

  /** The bound itself, when the list contains it. */
  function AtBound(xs: seq<Instant>, until: Option<Instant>): seq<Instant> {
    if until.Some? && until.value in xs then [until.value] else []
  }

  lemma {:induction false} InclusiveIsExclusivePlusBound(xs: seq<Instant>, until: Option<Instant>, n: nat)
    requires Ascending(xs)
    ensures Keep(Take(xs, n), until, true) == Take(Keep(xs, until, false) + AtBound(xs, until), n)
  {
    if xs != [] && n > 0 {
      hide Keep, Take, AtBound;
      if until.Some? && xs[0] >= until.value {
        BoundReached(xs, until, n);
      } else {
        assert Ascending(xs[1..]);
        hide Ascending;
        InclusiveIsExclusivePlusBound(xs[1..], until, n - 1);
        BoundAhead(xs, until, n);
      }
    }
  }

  lemma BoundReached(xs: seq<Instant>, until: Option<Instant>, n: nat)
    requires Ascending(xs) && xs != [] && n > 0 && until.Some? && xs[0] >= until.value
    ensures Keep(Take(xs, n), until, true) == Take(Keep(xs, until, false) + AtBound(xs, until), n)
  {
    var rest := xs[1..];
    assert xs == [xs[0]] + rest;
    TakeCons(xs[0], rest, n);
    KeepNothing(xs, until, false);
    KeepNothing(Take(rest, n - 1), until, true);
  }

  lemma BoundAhead(xs: seq<Instant>, until: Option<Instant>, n: nat)
    requires xs != [] && n > 0 && (until.Some? ==> xs[0] < until.value)
    requires var rest := xs[1..];
             Keep(Take(rest, n - 1), until, true) == Take(Keep(rest, until, false) + AtBound(rest, until), n - 1)
    ensures Keep(Take(xs, n), until, true) == Take(Keep(xs, until, false) + AtBound(xs, until), n)
  {
    var x, rest := xs[0], xs[1..];
    assert xs == [x] + rest;
    KeepCons(x, Take(rest, n - 1), until, true);
    KeepCons(x, rest, until, false);
    assert AtBound(xs, until) == AtBound(rest, until);
    hide Keep, Take, AtBound;
    TakeCons(x, rest, n);
    TakeCons(x, Keep(rest, until, false) + AtBound(rest, until), n);
    assert [x] + (Keep(rest, until, false) + AtBound(rest, until)) == Keep(xs, until, false) + AtBound(xs, until);
  }

  lemma KeepCons(x: Instant, rest: seq<Instant>, until: Option<Instant>, inclusive: bool)
    requires until.Some? ==> x < until.value
    ensures Keep([x] + rest, until, inclusive) == [x] + Keep(rest, until, inclusive)
  {
    assert ([x] + rest)[1..] == rest;
  }

  lemma OneMoreShows(xs: seq<Instant>, more: seq<Instant>, n: nat)
    requires |more| <= 1
    ensures Take(xs + more, n) == Take(xs, n) <==> (more != [] ==> |xs| >= n)
  {
    assert |xs| >= n ==> (xs + more)[..n] == xs[..n];
  }

  /** The two engines for one window: GetNextOccurrences returns the first 1000 instants of the list the
      expander plans, and after them Until itself if it is an instant of the counted list; so they agree
      outright if and only if it is none or lies beyond the limit. */
  lemma EnginesAgree(c: Pipeline.Config, r: Rule, start: Instant, now: Instant)
    requires Accepted(r) && HasNoFilters(r) && now - c.gracePeriod < start
    ensures var plan := Pipeline.PlanOf(c, AsEvent(r, start), now);
            var counted := Counted(r, start, now - c.gracePeriod, now + c.lookAhead);
            var next := From(r, start, now + c.lookAhead, Limit(r));
            && next == Take(plan + AtBound(counted, r.until), MAX_OCCURRENCES)
            && (next == Take(plan, MAX_OCCURRENCES) <==>
                  (r.until.Some? && r.until.value in counted ==> |plan| >= MAX_OCCURRENCES))
  {
    PlanIsKept(c, r, start, now);
    var lo, end := now - c.gracePeriod, now + c.lookAhead;
    var counted := Counted(r, start, lo, end);
    FromKeepsCounted(r, start, lo, end);
    hide Occurrences, Pipeline.PlanOf, Counted, From, Take, Keep;
    InclusiveIsExclusivePlusBound(counted, r.until, MAX_OCCURRENCES);
    OneMoreShows(Keep(counted, r.until, false), AtBound(counted, r.until), MAX_OCCURRENCES);
  }

  lemma FromKeepsCounted(r: Rule, start: Instant, lo: Instant, end: Instant)
    requires Accepted(r) && HasNoFilters(r) && lo < start
    ensures From(r, start, end, Limit(r)) == Keep(Take(Counted(r, start, lo, end), MAX_OCCURRENCES), r.until, true)
    ensures Ascending(Counted(r, start, lo, end))
  {
    hide Occurrences, Keep;
    var all := Occurrences(AsSchedule(r), start, lo, end);
    FromIsPrefix(r, start, lo, end, Limit(r));
    PlainAscending(r, start, lo, end);
    assert Take(all, Limit(r)) == Take(Counted(r, start, lo, end), MAX_OCCURRENCES);
  }

  // ---------- the day-of-week filter ----------

  /** "Mo" is never "MO": a validated rule with days of the week matches no instant at all. */
  lemma DaysOfWeekMatchNothing(r: Rule, t: Instant)
    requires Accepted(r)
    ensures r.daysOfWeek != [] ==> !IsValidOccurrence(r, t)
  {
  }

  lemma {:induction false} DaysOfWeekReturnNothing(r: Rule, t: Instant, end: Instant, left: nat)
    requires Accepted(r) && r.daysOfWeek != []
    ensures From(r, t, end, left) == []
    decreases Max(0, end - t)
  {
    hide IsValidOccurrence, Step;
    StepAdvances(AsSchedule(r), t);
    DaysOfWeekMatchNothing(r, t);
    if t < end {
      DaysOfWeekReturnNothing(r, Step(AsSchedule(r), t), end, left);
    }
  }

  // ---------- the other filters ----------

  /** The date of t, written out. */
  predicate IsDate(t: Instant, month: int, day: int) {
    1 <= day <= MonthLength(month) && DayOfInstant(t) == Date(month, day)
  }

  /** Without weekdays a rule keeps the instants whose date has a listed day of the month, if any are listed,
      and a listed month of the year, if any are. */
  lemma FiltersByDate(r: Rule, t: Instant, month: int, day: int)
    requires r.daysOfWeek == [] && IsDate(t, month, day)
    ensures IsValidOccurrence(r, t) <==>
            (r.daysOfMonth == [] || day in r.daysOfMonth) && (r.months == [] || month % 12 + 1 in r.months)
  {
    DateReadsBack(month, day);
    hide Date, MonthOf, DayOf, MonthLength;
  }

  /** What is returned while the limit is not reached: exactly the base points before the end, up to Until,
      that the filters keep. */
  lemma {:induction false} FromExact(r: Rule, t: Instant, end: Instant, left: nat, x: Instant)
    requires Accepted(r) && |From(r, t, end, left)| < left
    ensures x in From(r, t, end, left) <==>
            x < end && (r.until.Some? ==> x <= r.until.value) && IsValidOccurrence(r, x) &&
            IsBasePoint(AsSchedule(r), t, x)
    decreases Max(0, end - t)
  {
    hide IsValidOccurrence, Step;
    var s := AsSchedule(r);
    StepAdvances(s, t);
    if t >= end || (r.until.Some? && t > r.until.value) {
      forall k: nat
        ensures Nth(s, t, k) >= t
      {
        SeriesGrowth(s, t, k);
      }
    } else {
      FromExact(r, Step(s, t), end, if IsValidOccurrence(r, t) then left - 1 else left, x);
      BasePointsSplit(s, t, x);
    }
  }

  ghost predicate IsBasePoint(s: Schedule, t: Instant, x: Instant) {
    exists k: nat :: x == Nth(s, t, k)
  }

  lemma BasePointsSplit(s: Schedule, t: Instant, x: Instant)
    ensures IsBasePoint(s, t, x) <==> x == t || IsBasePoint(s, Step(s, t), x)
  {
    hide Step;
    assert Nth(s, t, 0) == t;
    if x != t && IsBasePoint(s, t, x) {
      var k: nat :| x == Nth(s, t, k);
      assert x == Nth(s, Step(s, t), k - 1);
    }
    if IsBasePoint(s, Step(s, t), x) {
      var k: nat :| x == Nth(s, Step(s, t), k);
      assert Nth(s, t, k + 1) == Nth(s, Step(s, t), k);
    }
  }

  /** A smaller limit returns the first of what a larger one does. */
  lemma {:induction false} FromIsCut(r: Rule, t: Instant, end: Instant, m: nat, n: nat)
    requires Accepted(r) && m <= n
    ensures From(r, t, end, m) == Take(From(r, t, end, n), m)
    decreases Max(0, end - t)
  {
    hide IsValidOccurrence, Step;
    var s := AsSchedule(r);
    StepAdvances(s, t);
    if t < end && m > 0 && !(r.until.Some? && t > r.until.value) {
      if IsValidOccurrence(r, t) {
        FromIsCut(r, Step(s, t), end, m - 1, n - 1);
        TakeCons(t, From(r, Step(s, t), end, n - 1), m);
      } else {
        FromIsCut(r, Step(s, t), end, m, n);
      }
    }
  }

  /** The whole result: below 1000 instants and below Count nothing is missing. */
  lemma NextIsComplete(r: Rule, start: Instant, end: Instant, x: Instant)
    requires Accepted(r)
    requires var n := |From(r, start, end, Limit(r))|; n < 1000 && (r.count.Some? ==> n < r.count.value)
    ensures x in From(r, start, end, Limit(r)) <==>
            x < end && (r.until.Some? ==> x <= r.until.value) && IsValidOccurrence(r, x) &&
            IsBasePoint(AsSchedule(r), start, x)
  {
    hide From, IsValidOccurrence, IsBasePoint;
    FromExact(r, start, end, Limit(r), x);
  }
}
