/** What Count limits: each list of the expander, never the series. */
module Counting {
  import opened Times
  import opened Recurrence
  import opened RecurrenceLaws
  import opened Tables
  import opened Pipeline

  predicate HasNoList(s: Schedule) {
    && (s.frequency.Weekly? ==> s.byDay == [])
    && (s.frequency.Monthly? ==> s.byMonthDay == [])
    && (s.frequency.Yearly? ==> s.byMonth == [])
  }

  /** A window that opens just before the k-th instant starts with it. */
  lemma {:induction false} WindowStartsAt(s: Schedule, t: Instant, k: nat, hi: Instant)
    requires WellFormed(s) && HasNoList(s) && Nth(s, t, k) < hi
    ensures var xs := Occurrences(s, t, Nth(s, t, k) - 1, hi); xs != [] && xs[0] == Nth(s, t, k)
    decreases k
  {
    assert Candidates(s, t) == [t];
    var x := Nth(s, t, k);
    if k == 0 {
      assert Window([t], x - 1, hi) == [t];
    } else {
      SeriesIncreases(s, t, 0, k);
      assert Window([t], x - 1, hi) == [];
      WindowStartsAt(s, Recurrence.Step(s, t), k - 1, hi);
    }
  }

  /** The instants of a window that Count leaves. */
  function Counted(c: Config, e: Event, now: Instant): seq<Instant>
    requires Expandable(e)
  {
    var sch := e.schedule.value;
    var all := Occurrences(sch, e.start, now - c.gracePeriod, now + c.lookAhead);
    var n := if sch.count.Some? && sch.count.value >= 0 then Min(sch.count.value, |all|) else |all|;
    all[..n]
  }

  predicate IsBeforeUntil(e: Event, x: Instant)
    requires Expandable(e)
  {
    e.schedule.value.until.Before? ==> x < e.schedule.value.until.bound
  }

  lemma {:induction false} KeepsAllIff(xs: seq<Instant>, bound: Instant)
    ensures BeforeUntil(xs, bound) == xs <==> forall x :: x in xs ==> x < bound
  {
    if forall x :: x in xs ==> x < bound {
      if xs != [] {
        assert xs[0] in xs && forall x :: x in xs[1..] ==> x in xs;
        KeepsAllIff(xs[1..], bound);
      }
    } else {
      var x :| x in xs && x >= bound;
      assert x !in BeforeUntil(xs, bound);
    }
  }

  /** Every schedule and every window, however much has completed: a list holds the instants before Until
      among the first Count of its window, and it is those first Count exactly if all are before Until. So
      an instant that Count cuts makes no room for a later one, and one that Until cuts has used its place. */
  lemma CountCutsWindows(c: Config, e: Event, now: Instant)
    requires Expandable(e)
    ensures forall x :: x in PlanOf(c, e, now) <==> x in Counted(c, e, now) && IsBeforeUntil(e, x)
    ensures PlanOf(c, e, now) == Counted(c, e, now) <==> forall x :: x in Counted(c, e, now) ==> IsBeforeUntil(e, x)
    ensures PlanOf(c, e, now) != [] <==> exists x :: x in Counted(c, e, now) && IsBeforeUntil(e, x)
  {
    var sch := e.schedule.value;
    hide Occurrences;
    var all := Occurrences(sch, e.start, now - c.gracePeriod, now + c.lookAhead);
    assert Counted(c, e, now) == Truncated(all, sch.count);
    if sch.until.Before? {
      KeepsAllIff(Counted(c, e, now), sch.until.bound);
    }
    var plan := PlanOf(c, e, now);
    assert plan != [] ==> plan[0] in plan;
    assert plan == [] ==> forall x :: x !in plan;
  }

  /** Some base point at or before x proposes it. */
  ghost predicate IsForwardAt(s: Schedule, start: Instant, x: Instant) {
    exists k: nat :: Nth(s, start, k) <= x && Proposed(s, start, k, x)
  }

  /** However small Count is and however much has completed, planning goes on until Until: for every schedule
      and every instant x before Until that some base point at or before it proposes, the clock reading whose
      window ends with x has a plan that is not empty. Only the status, which the dispatcher changes, ends a
      counted event. */
  lemma CountNeverEndsTheSeries(c: Config, e: Event, x: Instant)
    requires Expandable(e) && IsForwardAt(e.schedule.value, e.start, x) && IsBeforeUntil(e, x)
    requires c.gracePeriod + c.lookAhead > 1
    requires e.schedule.value.count.Some? ==> e.schedule.value.count.value >= 1
    ensures PlanOf(c, e, x + 1 - c.lookAhead) != []
  {
    var now := x + 1 - c.lookAhead;
    hide Counted, Occurrences, PlanOf, IsForwardAt;
    LastOfWindow(e.schedule.value, e.start, now - c.gracePeriod, x);
    var first := FirstCounted(c, e, now, x);
    CountCutsWindows(c, e, now);
  }

  lemma FirstCounted(c: Config, e: Event, now: Instant, x: Instant) returns (first: Instant)
    requires Expandable(e) && x in Occurrences(e.schedule.value, e.start, now - c.gracePeriod, now + c.lookAhead)
    requires e.schedule.value.count.Some? ==> e.schedule.value.count.value >= 1
    ensures first in Counted(c, e, now) && now - c.gracePeriod < first < now + c.lookAhead
  {
    hide Occurrences;
    var all := Occurrences(e.schedule.value, e.start, now - c.gracePeriod, now + c.lookAhead);
    first := all[0];
    assert Counted(c, e, now)[0] == first;
    hide Counted;
    InWindowBounds(e.schedule.value, e.start, now - c.gracePeriod, now + c.lookAhead, first);
  }

  lemma LastOfWindow(s: Schedule, start: Instant, lo: Instant, x: Instant)
    requires WellFormed(s) && IsForwardAt(s, start, x) && lo < x
    ensures x in Occurrences(s, start, lo, x + 1)
  {
    hide Occurrences, Proposed, Nth;
    OccurrencesExact(s, start, lo, x + 1, x);
  }

  lemma InWindowBounds(s: Schedule, start: Instant, lo: Instant, hi: Instant, x: Instant)
    requires WellFormed(s) && x in Occurrences(s, start, lo, hi)
    ensures lo < x < hi
  {
    hide Occurrences, Proposed, Nth;
    OccurrencesExact(s, start, lo, hi, x);
  }

  /** A schedule whose windows are slices has no other instants. */
  lemma SlicedIsForward(s: Schedule, start: Instant, x: Instant)
    requires WellFormed(s) && IsSliced(s, start) && Occurs(s, start, x)
    ensures IsForwardAt(s, start, x)
  {
    SlicedIffForward(s, start);
  }

  /** Without lists, each instant of the infinite series in turn heads the plan. */
  lemma EveryInstantIsPlanned(c: Config, e: Event, k: nat)
    requires Expandable(e) && HasNoList(e.schedule.value) && c.gracePeriod + c.lookAhead > 1
    requires e.schedule.value.count.Some? ==> e.schedule.value.count.value >= 1
    requires var x := Nth(e.schedule.value, e.start, k);
             e.schedule.value.until.Before? ==> x < e.schedule.value.until.bound
    ensures var x := Nth(e.schedule.value, e.start, k);
            var plan := PlanOf(c, e, x - 1 + c.gracePeriod);
            plan != [] && plan[0] == x
  {
    var sch := e.schedule.value;
    var now := Nth(sch, e.start, k) - 1 + c.gracePeriod;
    WindowStartsAt(sch, e.start, k, now + c.lookAhead);
    var xs := Occurrences(sch, e.start, now - c.gracePeriod, now + c.lookAhead);
    hide Occurrences;
    var ys := Truncated(xs, sch.count);
    assert ys != [] && ys[0] == xs[0];
  }

  /** And no list is longer than Count. */
  lemma ListsAreCounted(c: Config, e: Event, now: Instant)
    requires Expandable(e) && e.schedule.value.count.Some? && e.schedule.value.count.value >= 0
    ensures |PlanOf(c, e, now)| <= e.schedule.value.count.value
  {
    var sch := e.schedule.value;
    var xs := Truncated(Occurrences(sch, e.start, now - c.gracePeriod, now + c.lookAhead), sch.count);
    if sch.until.Before? {
      FilteredIsShorter(xs, sch.until.bound);
    }
  }

  lemma {:induction false} FilteredIsShorter(xs: seq<Instant>, bound: Instant)
    ensures |BeforeUntil(xs, bound)| <= |xs|
  {
    if xs != [] {
      FilteredIsShorter(xs[1..], bound);
    }
  }
}
