/** What every frequency generates, in nanoseconds and calendar dates, for every start and every window. */
module ExactSets {
  import opened Times
  import opened Calendar
  import opened Recurrence
  import opened RecurrenceLaws

  // ---------- fixed steps ----------

  predicate IsMultiple(start: Instant, unit: int, k: nat, x: Instant) {
    x == start + k * unit
  }

  lemma {:induction false} NthFixed(s: Schedule, t: Instant, unit: int, k: nat)
    requires forall u :: Step(s, u) == u + unit
    ensures Nth(s, t, k) == t + k * unit
  {
    hide Step;
    if k > 0 {
      NthFixed(s, t, unit, k - 1);
      NthStep(s, t, k - 1);
      assert k * unit == (k - 1) * unit + unit;
    }
  }

  lemma FixedExact(s: Schedule, start: Instant, unit: int, lo: Instant, hi: Instant, x: Instant)
    requires WellFormed(s) && (forall u :: Step(s, u) == u + unit) && (forall u :: Candidates(s, u) == [u])
    ensures x in Occurrences(s, start, lo, hi) <==> lo < x < hi && exists k: nat :: IsMultiple(start, unit, k, x)
  {
    hide Step, Candidates, Occurrences;
    OccurrencesExact(s, start, lo, hi, x);
    if x in Occurrences(s, start, lo, hi) {
      var k: nat :| Nth(s, start, k) < hi && Proposed(s, start, k, x);
      NthFixed(s, start, unit, k);
      assert IsMultiple(start, unit, k, x);
    }
    if k: nat :| IsMultiple(start, unit, k, x) && lo < x < hi {
      NthFixed(s, start, unit, k);
      assert Proposed(s, start, k, x);
    }
  }

  /** Every interval-th minute, hour, day or week from the start on, the start included, strictly inside the
      window and nothing else: 60 s, 3600 s, 86400 s and seven days in nanoseconds. */
  lemma FixedStepsExact(s: Schedule, start: Instant, lo: Instant, hi: Instant, x: Instant)
    requires WellFormed(s)
    ensures s.frequency.Minutely? ==>
              (x in Occurrences(s, start, lo, hi) <==>
                 lo < x < hi && exists k: nat :: IsMultiple(start, s.interval * 60_000_000_000, k, x))
    ensures s.frequency.Hourly? ==>
              (x in Occurrences(s, start, lo, hi) <==>
                 lo < x < hi && exists k: nat :: IsMultiple(start, s.interval * 3_600_000_000_000, k, x))
    ensures s.frequency.Daily? ==>
              (x in Occurrences(s, start, lo, hi) <==>
                 lo < x < hi && exists k: nat :: IsMultiple(start, s.interval * 86_400_000_000_000, k, x))
    ensures s.frequency.Weekly? && s.byDay == [] ==>
              (x in Occurrences(s, start, lo, hi) <==>
                 lo < x < hi && exists k: nat :: IsMultiple(start, s.interval * 604_800_000_000_000, k, x))
  {
    hide Occurrences, IsMultiple;
    match s.frequency
    case Minutely => FixedExact(s, start, s.interval * 60_000_000_000, lo, hi, x);
    case Hourly => FixedExact(s, start, s.interval * 3_600_000_000_000, lo, hi, x);
    case Daily => FixedExact(s, start, s.interval * 86_400_000_000_000, lo, hi, x);
    case Weekly =>
      if s.byDay == [] {
        FixedExact(s, start, s.interval * 604_800_000_000_000, lo, hi, x);
      }
    case _ =>
  }

  // ---------- months and years ----------

  /** The month that k steps of q months lead to is too short for the start's day. */
  predicate Lacks(start: Instant, q: int, k: nat) {
    DayAt(start) > MonthLength(MonthAt(start) + k * q)
  }

  ghost predicate LackedBy(start: Instant, q: int, k: nat) {
    exists j: nat :: j <= k && Lacks(start, q, j)
  }

  ghost predicate LacksFirst(start: Instant, q: int, j: nat) {
    Lacks(start, q, j) && forall i: nat :: i < j ==> !Lacks(start, q, i)
  }

  /** x is the k-th base point of steps of q months, as a date: the start's day of that month; or, from the
      first month on that lacks the day, the month after, on the day by which it went over. */
  ghost predicate IsBasePoint(start: Instant, q: int, k: nat, x: Instant) {
    if LackedBy(start, q, k) then
      exists j: nat :: j <= k && LacksFirst(start, q, j) &&
        x == OnDay(start, Date(MonthAt(start) + k * q + 1, DayAt(start) - MonthLength(MonthAt(start) + j * q)))
    else x == OnDay(start, Date(MonthAt(start) + k * q, DayAt(start)))
  }

  lemma LacksIff(s: Schedule, start: Instant, q: int)
    requires q == MonthsPerStep(s)
    ensures forall k: nat :: Lacks(start, q, k) <==> !Fits(s, start, k)
  {
    hide DayAt, MonthAt, MonthLength, MonthsPerStep;
  }

  lemma PointBefore(s: Schedule, start: Instant, q: int, k: nat)
    requires ByMonths(s) && q == MonthsPerStep(s) && !LackedBy(start, q, k)
    ensures Nth(s, start, k) == OnDay(start, Date(MonthAt(start) + k * q, DayAt(start)))
  {
    LacksIff(s, start, q);
    hide Lacks, Fits, Nth, OnDay, DayAt, MonthAt, MonthLength, MonthsPerStep, Date;
    SeriesBeforeDrift(s, start, k);
    WrittenBack(start, Nth(s, start, k));
  }

  lemma PointAfter(s: Schedule, start: Instant, q: int, j: nat, k: nat)
    requires ByMonths(s) && q == MonthsPerStep(s) && j <= k && LacksFirst(start, q, j)
    ensures Nth(s, start, k) ==
            OnDay(start, Date(MonthAt(start) + k * q + 1, DayAt(start) - MonthLength(MonthAt(start) + j * q)))
  {
    hide *;
    FirstMissing(s, start, q, j);
    SeriesAfterDrift(s, start, j, k);
    WrittenBack(start, Nth(s, start, k));
  }

  lemma FirstMissing(s: Schedule, start: Instant, q: int, j: nat)
    requires q == MonthsPerStep(s) && LacksFirst(start, q, j)
    ensures 0 < j && !Fits(s, start, j) && forall i: nat :: i < j ==> Fits(s, start, i)
  {
    LacksIff(s, start, q);
    StartFits(s, start);
    hide Lacks, Fits, MonthsPerStep;
  }

  lemma {:induction false} FirstLack(start: Instant, q: int, k: nat) returns (j: nat)
    requires LackedBy(start, q, k)
    ensures j <= k && LacksFirst(start, q, j)
  {
    hide Lacks;
    j :| j <= k && Lacks(start, q, j);
    if i: nat :| i < j && Lacks(start, q, i) {
      j := FirstLack(start, q, i);
    }
  }

  lemma PointExact(s: Schedule, start: Instant, q: int, k: nat)
    requires ByMonths(s) && q == MonthsPerStep(s)
    ensures IsBasePoint(start, q, k, Nth(s, start, k))
  {
    hide Lacks, Nth, OnDay, DayAt, MonthAt, MonthLength, Date, LackedBy, LacksFirst, MonthsPerStep;
    if LackedBy(start, q, k) {
      var j := FirstLack(start, q, k);
      PointAfter(s, start, q, j, k);
    } else {
      PointBefore(s, start, q, k);
    }
  }

  lemma PointUnique(start: Instant, q: int, k: nat, x: Instant, y: Instant)
    requires IsBasePoint(start, q, k, x) && IsBasePoint(start, q, k, y)
    ensures x == y
  {
    hide Lacks, OnDay, DayAt, MonthAt, MonthLength, Date, LackedBy;
    if LackedBy(start, q, k) {
      var i: nat :| i <= k && LacksFirst(start, q, i) &&
        x == OnDay(start, Date(MonthAt(start) + k * q + 1, DayAt(start) - MonthLength(MonthAt(start) + i * q)));
      var j: nat :| j <= k && LacksFirst(start, q, j) &&
        y == OnDay(start, Date(MonthAt(start) + k * q + 1, DayAt(start) - MonthLength(MonthAt(start) + j * q)));
      assert i == j;
    }
  }

  lemma PointsExact(s: Schedule, start: Instant, q: int, lo: Instant, hi: Instant, x: Instant)
    requires WellFormed(s) && ByMonths(s) && q == MonthsPerStep(s) && !HasMonthDays(s) && !HasMonths(s)
    ensures x in Occurrences(s, start, lo, hi) <==> lo < x < hi && exists k: nat :: IsBasePoint(start, q, k, x)
  {
    OccurrencesExact(s, start, lo, hi, x);
    assert forall k: nat :: Proposed(s, start, k, x) <==> x == Nth(s, start, k);
    hide *;
    if k: nat :| Nth(s, start, k) < hi && Proposed(s, start, k, x) {
      PointExact(s, start, q, k);
    }
    if k: nat :| IsBasePoint(start, q, k, x) && lo < x < hi {
      PointExact(s, start, q, k);
      PointUnique(start, q, k, x, Nth(s, start, k));
      assert Proposed(s, start, k, x);
    }
  }

  /** Monthly and yearly without lists, for every start: exactly the dates of the base points, drifted or
      not, every interval-th month or every interval-th year. */
  lemma MonthsAndYearsExact(s: Schedule, start: Instant, lo: Instant, hi: Instant, x: Instant)
    requires WellFormed(s)
    ensures s.frequency.Monthly? && s.byMonthDay == [] ==>
              (x in Occurrences(s, start, lo, hi) <==>
                 lo < x < hi && exists k: nat :: IsBasePoint(start, s.interval, k, x))
    ensures s.frequency.Yearly? && s.byMonth == [] ==>
              (x in Occurrences(s, start, lo, hi) <==>
                 lo < x < hi && exists k: nat :: IsBasePoint(start, 12 * s.interval, k, x))
  {
    hide Occurrences, IsBasePoint;
    if ByMonths(s) && !HasMonthDays(s) && !HasMonths(s) {
      PointsExact(s, start, MonthsPerStep(s), lo, hi, x);
    }
  }

  // ---------- listed days and months ----------

  /** Day d of the k-th visited month, which is one later once the start's day was lacking. */
  ghost function DayOfMonth(start: Instant, q: int, k: nat, d: int): Instant {
    OnDay(start, Date(MonthAt(start) + k * q + (if LackedBy(start, q, k) then 1 else 0), d))
  }

  ghost predicate IsListedDay(s: Schedule, start: Instant, k: nat, x: Instant) {
    exists d :: d in s.byMonthDay && x == DayOfMonth(start, s.interval, k, d)
  }

  lemma SameDayTime(t: Instant, u: Instant, day: int)
    requires t % DAY == u % DAY
    ensures OnDay(t, day) == OnDay(u, day)
  {
  }

  lemma MonthOfPoint(s: Schedule, start: Instant, q: int, k: nat)
    requires ByMonths(s) && q == MonthsPerStep(s)
    ensures MonthAt(Nth(s, start, k)) == MonthAt(start) + k * q + if LackedBy(start, q, k) then 1 else 0
    ensures !LackedBy(start, q, k) ==> DayAt(Nth(s, start, k)) == DayAt(start)
    ensures Nth(s, start, k) % DAY == start % DAY
  {
    LacksIff(s, start, q);
    StartFits(s, start);
    hide Lacks, Fits, Nth, OnDay, DayAt, MonthAt, MonthLength, MonthsPerStep, Date;
    if LackedBy(start, q, k) {
      var j := FirstLack(start, q, k);
      SeriesAfterDrift(s, start, j, k);
    } else {
      SeriesBeforeDrift(s, start, k);
    }
  }

  lemma DayOfPoint(s: Schedule, start: Instant, k: nat, d: int)
    requires s.frequency.Monthly?
    ensures OnDay(Nth(s, start, k), Date(MonthAt(Nth(s, start, k)), d)) == DayOfMonth(start, s.interval, k, d)
  {
    MonthOfPoint(s, start, s.interval, k);
    hide Nth, OnDay, MonthAt, Date, LackedBy;
    SameDayTime(Nth(s, start, k), start, Date(MonthAt(Nth(s, start, k)), d));
  }

  lemma ProposedDay(s: Schedule, start: Instant, k: nat, x: Instant)
    requires HasMonthDays(s)
    ensures Proposed(s, start, k, x) <==> IsListedDay(s, start, k, x)
  {
    ProposedMonthDay(s, start, k, x);
    hide Nth, OnDay, MonthAt, Date, Proposed, DayOfMonth;
    forall d
      ensures OnDay(Nth(s, start, k), Date(MonthAt(Nth(s, start, k)), d)) == DayOfMonth(start, s.interval, k, d)
    {
      DayOfPoint(s, start, k, d);
    }
  }

  /** Monthly with by_month_day, for every start and every list, days 29 to 31 and drifting starts included:
      exactly the listed days of the visited months, normalised as time.Date does, of the base points before
      the window's end; and of all base points if no listed day comes before the start's. */
  lemma ListedDaysExact(s: Schedule, start: Instant, lo: Instant, hi: Instant, x: Instant)
    requires WellFormed(s) && s.frequency.Monthly? && s.byMonthDay != []
    ensures x in Occurrences(s, start, lo, hi) <==>
            lo < x < hi && exists k: nat :: Nth(s, start, k) < hi && IsListedDay(s, start, k, x)
    ensures (forall d :: d in s.byMonthDay ==> d >= DayAt(start)) ==>
              (x in Occurrences(s, start, lo, hi) <==> lo < x < hi && exists k: nat :: IsListedDay(s, start, k, x))
  {
    OccurrencesExact(s, start, lo, hi, x);
    MonthDaysSlicedIff(s, start);
    forall k: nat
      ensures Proposed(s, start, k, x) <==> IsListedDay(s, start, k, x)
    {
      ProposedDay(s, start, k, x);
    }
    hide Occurrences, Proposed, IsListedDay, Nth, IsSliced, DayAt;
    if forall d :: d in s.byMonthDay ==> d >= DayAt(start) {
      Slice(s, start, lo, hi, x);
    }
  }

  /** The start's day in month m of the k-th visited year; the first of the month once a 29 February was
      lacking. */
  ghost function DayInYear(start: Instant, interval: int, k: nat, m: int): Instant {
    OnDay(start, Date(12 * (MonthAt(start) / 12 + k * interval) + m - 1,
                      if LackedBy(start, 12 * interval, k) then 1 else DayAt(start)))
  }

  ghost predicate IsInListedMonth(s: Schedule, start: Instant, k: nat, x: Instant) {
    exists m :: m in s.byMonth && x == DayInYear(start, s.interval, k, m)
  }

  lemma YearOfPoint(s: Schedule, start: Instant, k: nat)
    requires s.frequency.Yearly?
    ensures MonthAt(Nth(s, start, k)) / 12 == MonthAt(start) / 12 + k * s.interval
    ensures DayAt(Nth(s, start, k)) == if LackedBy(start, 12 * s.interval, k) then 1 else DayAt(start)
    ensures Nth(s, start, k) % DAY == start % DAY
  {
    var q := 12 * s.interval;
    assert ByMonths(s) && q == MonthsPerStep(s);
    LacksIff(s, start, q);
    StartFits(s, start);
    MonthOfPoint(s, start, q, k);
    YearsPerStep(s, k);
    hide Lacks, Fits, Nth, OnDay, DayAt, MonthAt, MonthLength, MonthsPerStep, Date;
    if LackedBy(start, q, k) {
      var j := FirstLack(start, q, k);
      YearlyDrift(s, start, j);
      YearlyAfter(s, start, j, k);
    }
    WholeYears(MonthAt(start), k * s.interval);
    assert MonthAt(start) % 12 == 1 ==> (MonthAt(start) + 12 * (k * s.interval) + 1) / 12 ==
                                        (MonthAt(start) + 12 * (k * s.interval)) / 12;
  }

  lemma InMonthOfPoint(s: Schedule, start: Instant, k: nat, m: int)
    requires s.frequency.Yearly?
    ensures InMonth(Nth(s, start, k), m) == DayInYear(start, s.interval, k, m)
  {
    var t := Nth(s, start, k);
    YearOfPoint(s, start, k);
    hide Nth, OnDay, DayAt, MonthAt, Date, LackedBy;
    SameDayTime(t, start, Date(MonthAt(t) / 12 * 12 + m - 1, DayAt(t)));
  }

  lemma ProposedInMonth(s: Schedule, start: Instant, k: nat, x: Instant)
    requires HasMonths(s)
    ensures Proposed(s, start, k, x) <==> IsInListedMonth(s, start, k, x)
  {
    ProposedMonth(s, start, k, x);
    hide Nth, InMonth, Proposed, DayInYear;
    forall m
      ensures InMonth(Nth(s, start, k), m) == DayInYear(start, s.interval, k, m)
    {
      InMonthOfPoint(s, start, k, m);
    }
  }

  /** Yearly with by_month, for every start and every list, a drifting 29 February included: exactly those
      dates, of the base points before the window's end; and of all base points if the windows are slices. */
  lemma ListedMonthsExact(s: Schedule, start: Instant, lo: Instant, hi: Instant, x: Instant)
    requires WellFormed(s) && s.frequency.Yearly? && s.byMonth != []
    ensures x in Occurrences(s, start, lo, hi) <==>
            lo < x < hi && exists k: nat :: Nth(s, start, k) < hi && IsInListedMonth(s, start, k, x)
    ensures IsSliced(s, start) ==>
              (x in Occurrences(s, start, lo, hi) <==> lo < x < hi && exists k: nat :: IsInListedMonth(s, start, k, x))
  {
    OccurrencesExact(s, start, lo, hi, x);
    forall k: nat
      ensures Proposed(s, start, k, x) <==> IsInListedMonth(s, start, k, x)
    {
      ProposedInMonth(s, start, k, x);
    }
    hide Occurrences, Proposed, IsInListedMonth, Nth;
    if IsSliced(s, start) {
      Slice(s, start, lo, hi, x);
      hide IsSliced;
    }
  }

  /** Every base point of every monthly and yearly schedule, for every start. */
  lemma BasePointExact(s: Schedule, start: Instant, k: nat)
    ensures s.frequency.Monthly? ==> IsBasePoint(start, s.interval, k, Nth(s, start, k))
    ensures s.frequency.Yearly? ==> IsBasePoint(start, 12 * s.interval, k, Nth(s, start, k))
  {
    hide IsBasePoint, Nth;
    if ByMonths(s) {
      PointExact(s, start, MonthsPerStep(s), k);
    }
  }

  // ---------- what the handlers accept ----------

  /** Sunday is 0; a name that is none of the seven reads as Sunday too. */
  lemma WeekdayNames(name: string)
    ensures WeekdayNumber("SU") == 0 && WeekdayNumber("MO") == 1 && WeekdayNumber("TU") == 2 && WeekdayNumber("WE") == 3
    ensures WeekdayNumber("TH") == 4 && WeekdayNumber("FR") == 5 && WeekdayNumber("SA") == 6
    ensures name !in ["SU", "MO", "TU", "WE", "TH", "FR", "SA"] ==> WeekdayNumber(name) == 0
  {
  }

  /** Some month has the day. */
  ghost predicate IsDayOfSomeMonth(d: int) {
    1 <= d && exists month :: d <= MonthLength(month)
  }

  lemma DaysOfMonths(d: int)
    ensures IsDayOfSomeMonth(d) <==> 1 <= d <= 31
  {
    assert MonthLength(EPOCH_MONTH) == 31;
  }

  /** The expansion loops stop for every start and every window. */
  ghost predicate AlwaysStops(s: Schedule) {
    forall t, end :: Passes(s, t, end)
  }

  lemma AlwaysStopsIff(s: Schedule)
    requires !s.frequency.Unknown?
    ensures AlwaysStops(s) <==> s.interval >= 1
  {
    hide Passes;
    if s.interval >= 1 {
      forall t, end
        ensures Passes(s, t, end)
      {
        LoopsStopIff(s, t);
      }
    } else {
      LoopsStopIff(s, 0);
    }
  }

  /** A schedule is accepted if and only if its loops stop for every start and window, no listed weekday is
      read as Sunday by default, every listed day exists in some month, every listed month in a year, Count
      asks for something and Until can be read. Lists of other frequencies are not looked at. */
  lemma ValidScheduleIff(s: Schedule)
    ensures IsValidSchedule(Some(s)) <==>
            && !s.frequency.Unknown?
            && AlwaysStops(s)
            && (s.frequency.Weekly? ==> forall d :: d in s.byDay ==> WeekdayNumber(d) > 0 || d == "SU")
            && (s.frequency.Monthly? ==> forall d :: d in s.byMonthDay ==> IsDayOfSomeMonth(d))
            && (s.frequency.Yearly? ==> forall m :: m in s.byMonth ==> m in [1, 2, 3, 4, 5, 6, 7, 8, 9, 10, 11, 12])
            && (s.count.Some? ==> s.count.value > 0)
            && !s.until.Malformed?
    ensures !IsValidSchedule(None)
  {
    if !s.frequency.Unknown? {
      AlwaysStopsIff(s);
    }
    forall d: string
      ensures d in WEEKDAYS <==> WeekdayNumber(d) > 0 || d == "SU"
    {
      WeekdayNames(d);
    }
    forall d
      ensures IsDayOfSomeMonth(d) <==> 1 <= d <= 31
    {
      DaysOfMonths(d);
    }
    hide AlwaysStops, IsDayOfSomeMonth, WeekdayNumber;
  }
}
