/** The recurrence engine of the expander: every loop of expandRecurringEvent walks a base
    series from the start time and, at each base point, proposes candidate instants. */
module Recurrence {
  import opened Times
  import opened Calendar

  datatype Frequency = Minutely | Hourly | Daily | Weekly | Monthly | Yearly | Unknown(name: string)

  datatype Until = Never | Before(bound: Instant) | Malformed

  /** models.ScheduleConfig. */
  datatype Schedule = Schedule(
    frequency: Frequency,
    interval: int,
    byDay: seq<string>,
    byMonth: seq<int>,
    byMonthDay: seq<int>,
    count: Option<int>,
    until: Until)

  const WEEKDAYS := ["SU", "MO", "TU", "WE", "TH", "FR", "SA"]

  /** isValidSchedule: what the create and update handlers accept. */
  predicate IsValidSchedule(schedule: Option<Schedule>) {
    schedule.Some? &&
    var s := schedule.value;
    && !s.frequency.Unknown?
    && s.interval >= 1
    && (s.frequency.Weekly? ==> forall d :: d in s.byDay ==> d in WEEKDAYS)
    && (s.frequency.Monthly? ==> forall d :: d in s.byMonthDay ==> 1 <= d <= 31)
    && (s.frequency.Yearly? ==> forall m :: m in s.byMonth ==> 1 <= m <= 12)
    && (s.count.Some? ==> s.count.value >= 1)
    && !s.until.Malformed?
  }

  /** What the expansion loops need in order to stop. */
  predicate WellFormed(s: Schedule) {
    !s.frequency.Unknown? && s.interval >= 1
  }

  // ---------- the base series ----------

  /** One turn of the loop header. */
  function Step(s: Schedule, t: Instant): Instant {
    match s.frequency
    case Minutely => t + s.interval * MINUTE
    case Hourly => t + s.interval * HOUR
    case Daily => AddDays(t, s.interval)
    case Weekly => AddDays(t, 7 * s.interval)
    case Monthly => AddMonths(t, s.interval)
    case Yearly => AddMonths(t, 12 * s.interval)
    case Unknown(_) => t
  }

  /** The loop variable moves forward exactly for a positive interval; at interval 0 it stands still. */
  lemma StepAdvances(s: Schedule, t: Instant)
    requires !s.frequency.Unknown?
    ensures s.interval >= 1 <==> Step(s, t) > t
    ensures s.interval == 0 <==> Step(s, t) == t
  {
    match s.frequency
    case Monthly => AddMonthsAdvances(t, s.interval);
    case Yearly => AddMonthsAdvances(t, 12 * s.interval);
    case _ =>
  }

  function Nth(s: Schedule, t: Instant, k: nat): Instant
    decreases k
  {
    if k == 0 then t else Nth(s, Step(s, t), k - 1)
  }

  lemma {:induction false} NthStep(s: Schedule, t: Instant, k: nat)
    ensures Nth(s, t, k + 1) == Step(s, Nth(s, t, k))
    decreases k
  {
    if k > 0 {
      NthStep(s, Step(s, t), k - 1);
    }
  }

  lemma {:induction false} SeriesIncreases(s: Schedule, t: Instant, j: nat, k: nat)
    requires WellFormed(s) && j < k
    ensures Nth(s, t, j) < Nth(s, t, k)
    decreases k
  {
    NthStep(s, t, k - 1);
    StepAdvances(s, Nth(s, t, k - 1));
    if j < k - 1 {
      SeriesIncreases(s, t, j, k - 1);
    }
  }

  lemma {:induction false} SeriesGrowth(s: Schedule, t: Instant, k: nat)
    requires !s.frequency.Unknown?
    ensures s.interval >= 1 ==> Nth(s, t, k) >= t + k
    ensures s.interval <= 0 ==> Nth(s, t, k) <= t
    decreases k
  {
    hide Step;
    if k > 0 {
      NthStep(s, t, k - 1);
      StepAdvances(s, Nth(s, t, k - 1));
      SeriesGrowth(s, t, k - 1);
    }
  }

  /** The loop variable gets past the end of the window. */
  ghost predicate Passes(s: Schedule, t: Instant, end: Instant) {
    exists k: nat :: Nth(s, t, k) >= end
  }

  /** The expansion loops stop for every window exactly when the interval is positive, which the
      handlers check. */
  lemma LoopsStopIff(s: Schedule, t: Instant)
    requires !s.frequency.Unknown?
    ensures (forall end :: Passes(s, t, end)) <==> s.interval >= 1
    ensures IsValidSchedule(Some(s)) ==> WellFormed(s)
  {
    if s.interval >= 1 {
      forall end
        ensures Passes(s, t, end)
      {
        SeriesGrowth(s, t, Max(0, end - t));
      }
    } else {
      forall k: nat
        ensures Nth(s, t, k) < t + 1
      {
        SeriesGrowth(s, t, k);
      }
      assert !Passes(s, t, t + 1);
    }
  }

  // ---------- candidates at a base point ----------

  /** weekdayMap[day]: a name that is not in the map reads as 0, which is Sunday. */
  function WeekdayNumber(name: string): (n: int)
    ensures 0 <= n < 7
  {
    if name == "MO" then 1 else if name == "TU" then 2 else if name == "WE" then 3
    else if name == "TH" then 4 else if name == "FR" then 5 else if name == "SA" then 6
    else 0
  }

  /** Days from t to the next day with the given weekday number, t's own day included. */
  function DaysUntil(t: Instant, weekday: int): int {
    (weekday - Weekday(DayOfInstant(t)) + 7) % 7
  }

  /** The instants the loop body proposes at base point t. */
  function Candidates(s: Schedule, t: Instant): seq<Instant> {
    var d := DayOfInstant(t);
    if s.frequency.Weekly? && s.byDay != [] then
      seq(|s.byDay|, i requires 0 <= i < |s.byDay| => AddDays(t, DaysUntil(t, WeekdayNumber(s.byDay[i]))))
    else if s.frequency.Monthly? && s.byMonthDay != [] then
      seq(|s.byMonthDay|, i requires 0 <= i < |s.byMonthDay| => OnDay(t, Date(MonthOf(d), s.byMonthDay[i])))
    else if s.frequency.Yearly? && s.byMonth != [] then
      seq(|s.byMonth|, i requires 0 <= i < |s.byMonth| =>
        OnDay(t, Date(MonthOf(d) / 12 * 12 + s.byMonth[i] - 1, DayOf(d))))
    else [t]
  }

  /** The elements strictly between lo and hi, in order. */
  function Window(xs: seq<Instant>, lo: Instant, hi: Instant): (r: seq<Instant>)
    ensures forall x :: x in r <==> x in xs && lo < x < hi
  {
    if xs == [] then []
    else
      var last := xs[|xs| - 1];
      assert xs == xs[..|xs| - 1] + [last];
      Window(xs[..|xs| - 1], lo, hi) + if lo < last < hi then [last] else []
  }

  /** All candidates of the base points before hi that lie in the open window (lo, hi). */
  function Occurrences(s: Schedule, t: Instant, lo: Instant, hi: Instant): seq<Instant>
    requires WellFormed(s)
    decreases Max(0, hi - t)
  {
    StepAdvances(s, t);
    if t >= hi then []
    else Window(Candidates(s, t), lo, hi) + Occurrences(s, Step(s, t), lo, hi)
  }

  /** The inner loop over the listed days or months. */
  method KeepInWindow(candidates: seq<Instant>, graceStart: Instant, endTime: Instant)
    returns (kept: seq<Instant>)
    ensures kept == Window(candidates, graceStart, endTime)
  {
    kept := [];
    for i := 0 to |candidates|
      invariant kept == Window(candidates[..i], graceStart, endTime)
    {
      assert candidates[..i + 1][..i] == candidates[..i];
      if graceStart < candidates[i] < endTime {
        kept := kept + [candidates[i]];
      }
    }
    assert candidates[..|candidates|] == candidates;
  }

  /** The expansion loops: base points outside, candidates inside. */
  method CollectOccurrences(s: Schedule, start: Instant, graceStart: Instant, endTime: Instant)
    returns (occurrences: seq<Instant>)
    requires WellFormed(s)
    ensures occurrences == Occurrences(s, start, graceStart, endTime)
  {
    hide Candidates, Window, Step;
    occurrences := [];
    var t := start;
    while t < endTime
      invariant occurrences + Occurrences(s, t, graceStart, endTime) ==
                Occurrences(s, start, graceStart, endTime)
      decreases endTime - t
    {
      var kept := KeepInWindow(Candidates(s, t), graceStart, endTime);
      occurrences := occurrences + kept;
      StepAdvances(s, t);
      t := Step(s, t);
    }
  }

  /** x is a candidate of the k-th base point. */
  predicate Proposed(s: Schedule, t: Instant, k: nat, x: Instant) {
    x in Candidates(s, Nth(s, t, k))
  }

  /** Membership: an instant is generated exactly when it lies in the window and some base point
      before the window's end proposes it. */
  lemma {:induction false} OccurrencesExact(s: Schedule, t: Instant, lo: Instant, hi: Instant, x: Instant)
    requires WellFormed(s)
    ensures x in Occurrences(s, t, lo, hi) <==>
            lo < x < hi && exists k: nat :: Nth(s, t, k) < hi && Proposed(s, t, k, x)
    decreases Max(0, hi - t)
  {
    StepAdvances(s, t);
    var u := Step(s, t);
    if t < hi {
      OccurrencesExact(s, u, lo, hi, x);
    }
    if x in Occurrences(s, t, lo, hi) {
      if x in Candidates(s, t) && lo < x < hi {
        assert Proposed(s, t, 0, x);
      } else {
        var k: nat :| Nth(s, u, k) < hi && Proposed(s, u, k, x);
        assert Nth(s, t, k + 1) == Nth(s, u, k) && Proposed(s, t, k + 1, x);
      }
    } else if lo < x < hi {
      forall k: nat | Proposed(s, t, k, x)
        ensures Nth(s, t, k) >= hi
      {
        if k > 0 {
          assert Nth(s, t, k) == Nth(s, u, k - 1) && Proposed(s, u, k - 1, x);
          SeriesIncreases(s, t, 0, k);
        }
      }
    }
  }
}
