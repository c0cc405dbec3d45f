/** What the expansion loops generate, said without the loops. */
module RecurrenceLaws {
  import opened Times
  import opened Calendar
  import opened Recurrence

  // ---------- windows are slices of one infinite set ----------

  /** x belongs to the schedule, whatever the window. */
  ghost predicate Occurs(s: Schedule, start: Instant, x: Instant) {
    exists k: nat :: Proposed(s, start, k, x)
  }

  predicate InWindow(s: Schedule, start: Instant, lo: Instant, hi: Instant, x: Instant)
    requires WellFormed(s)
  {
    x in Occurrences(s, start, lo, hi)
  }

  /** Every window returns exactly the part of the fixed set that lies in it. */
  ghost predicate IsSliced(s: Schedule, start: Instant)
    requires WellFormed(s)
  {
    forall lo, hi, x :: InWindow(s, start, lo, hi, x) <==> lo < x < hi && Occurs(s, start, x)
  }

  lemma Slice(s: Schedule, start: Instant, lo: Instant, hi: Instant, x: Instant)
    requires WellFormed(s) && IsSliced(s, start)
    ensures x in Occurrences(s, start, lo, hi) <==> lo < x < hi && Occurs(s, start, x)
  {
    assert InWindow(s, start, lo, hi, x) <==> lo < x < hi && Occurs(s, start, x);
  }

  /** No occurrence is proposed only by base points that come after it. */
  ghost predicate IsForward(s: Schedule, start: Instant) {
    forall x :: Occurs(s, start, x) ==> exists k: nat :: Nth(s, start, k) <= x && Proposed(s, start, k, x)
  }

  lemma SlicedIffForward(s: Schedule, start: Instant)
    requires WellFormed(s)
    ensures IsSliced(s, start) <==> IsForward(s, start)
  {
    if IsForward(s, start) {
      forall lo, hi, x
        ensures InWindow(s, start, lo, hi, x) <==> lo < x < hi && Occurs(s, start, x)
      {
        OccurrencesExact(s, start, lo, hi, x);
      }
    }
    if IsSliced(s, start) {
      forall x | Occurs(s, start, x)
        ensures exists k: nat :: Nth(s, start, k) <= x && Proposed(s, start, k, x)
      {
        assert InWindow(s, start, x - 1, x + 1, x);
        OccurrencesExact(s, start, x - 1, x + 1, x);
      }
    }
  }

  /** Candidates never precede their base point, so no window can cut one off. */
  lemma ForwardCandidates(s: Schedule, start: Instant)
    requires WellFormed(s)
    requires forall k: nat, x :: Proposed(s, start, k, x) ==> Nth(s, start, k) <= x
    ensures IsSliced(s, start)
  {
    SlicedIffForward(s, start);
  }

  /** An occurrence before the start is one that no later window can be trusted to return. */
  lemma EarlyCandidate(s: Schedule, start: Instant, x: Instant)
    requires WellFormed(s) && Occurs(s, start, x) && x < start
    ensures !IsSliced(s, start)
  {
    SlicedIffForward(s, start);
    if IsForward(s, start) {
      var k: nat :| Nth(s, start, k) <= x && Proposed(s, start, k, x);
      if k > 0 {
        SeriesIncreases(s, start, 0, k);
      }
      assert false;
    }
  }

  /** Schedules without a by_month_day or by_month list are always sliced. */
  lemma PlainIsSliced(s: Schedule, start: Instant)
    requires WellFormed(s)
    requires s.frequency.Monthly? ==> s.byMonthDay == []
    requires s.frequency.Yearly? ==> s.byMonth == []
    ensures IsSliced(s, start)
  {
    ForwardCandidates(s, start);
  }

  // ---------- monthly and yearly stepping ----------

  predicate ByMonths(s: Schedule) {
    s.frequency.Monthly? || s.frequency.Yearly?
  }

  function MonthsPerStep(s: Schedule): int {
    if s.frequency.Monthly? then s.interval else 12 * s.interval
  }

  function MonthAt(t: Instant): int {
    MonthOf(DayOfInstant(t))
  }

  function DayAt(t: Instant): int {
    DayOf(DayOfInstant(t))
  }

  lemma SameTimeOfDay(t: Instant, day: int)
    ensures OnDay(t, day) % DAY == t % DAY
  {
  }

  /** One AddDate by months: the day of the month is kept if the target month has it, and
      otherwise becomes 1, 2 or 3 of the month after. */
  lemma AddMonthsLands(t: Instant, q: int)
    ensures AddMonths(t, q) % DAY == t % DAY
    ensures DayAt(t) <= MonthLength(MonthAt(t) + q) ==>
              MonthAt(AddMonths(t, q)) == MonthAt(t) + q && DayAt(AddMonths(t, q)) == DayAt(t)
    ensures DayAt(t) > MonthLength(MonthAt(t) + q) ==>
              MonthAt(AddMonths(t, q)) == MonthAt(t) + q + 1 &&
              DayAt(AddMonths(t, q)) == DayAt(t) - MonthLength(MonthAt(t) + q) && 1 <= DayAt(AddMonths(t, q)) <= 3
  {
    var day := Date(MonthAt(t) + q, DayAt(t));
    OnDayOrder(t, day);
    SameTimeOfDay(t, day);
    DateReadsBack(MonthAt(t) + q, DayAt(t));
  }

  /** The month reached by k steps has the start's day of the month. */
  predicate Fits(s: Schedule, start: Instant, k: nat) {
    DayAt(start) <= MonthLength(MonthAt(start) + k * MonthsPerStep(s))
  }

  /** The (k+1)-st base point is AddDate of the k-th, seen as month, day and time of day. */
  lemma MonthSeriesStep(s: Schedule, start: Instant, k: nat)
    requires ByMonths(s)
    ensures Nth(s, start, k + 1) == AddMonths(Nth(s, start, k), MonthsPerStep(s))
  {
    hide AddMonths;
    NthStep(s, start, k);
  }

  /** As long as every visited month is long enough, the series keeps its day of the month. */
  lemma {:induction false} SeriesBeforeDrift(s: Schedule, start: Instant, k: nat)
    requires ByMonths(s)
    requires forall j: nat :: j <= k ==> Fits(s, start, j)
    ensures MonthAt(Nth(s, start, k)) == MonthAt(start) + k * MonthsPerStep(s)
    ensures DayAt(Nth(s, start, k)) == DayAt(start)
    ensures Nth(s, start, k) % DAY == start % DAY
  {
    hide DayAt, MonthAt, MonthLength, MonthsPerStep;
    if k > 0 {
      assert Fits(s, start, k);
      hide *;
      SeriesBeforeDrift(s, start, k - 1);
      MonthSeriesStep(s, start, k - 1);
      assert k * MonthsPerStep(s) == (k - 1) * MonthsPerStep(s) + MonthsPerStep(s);
      AddMonthsLands(Nth(s, start, k - 1), MonthsPerStep(s));
    }
  }

  /** From the first month that is too short on, the series is shifted by one month and keeps a
      day of the month in 1..3 for ever. */
  lemma {:induction false} SeriesAfterDrift(s: Schedule, start: Instant, j: nat, k: nat)
    requires ByMonths(s) && 0 < j <= k
    requires !Fits(s, start, j) && forall i: nat :: i < j ==> Fits(s, start, i)
    ensures MonthAt(Nth(s, start, k)) == MonthAt(start) + k * MonthsPerStep(s) + 1
    ensures DayAt(Nth(s, start, k)) == DayAt(start) - MonthLength(MonthAt(start) + j * MonthsPerStep(s))
    ensures 1 <= DayAt(Nth(s, start, k)) <= 3
    ensures Nth(s, start, k) % DAY == start % DAY
    decreases k
  {
    assert DayAt(start) > MonthLength(MonthAt(start) + j * MonthsPerStep(s)) by {
      hide DayAt, MonthAt, MonthLength;
    }
    hide *;
    if j < k {
      SeriesAfterDrift(s, start, j, k - 1);
    } else {
      SeriesBeforeDrift(s, start, k - 1);
    }
    NextMonthLands(s, start, k);
  }

  /** AddMonthsLands for one step of the series. */
  lemma NextMonthLands(s: Schedule, start: Instant, k: nat)
    requires ByMonths(s) && k > 0
    ensures k * MonthsPerStep(s) == (k - 1) * MonthsPerStep(s) + MonthsPerStep(s)
    ensures var t, u, m := Nth(s, start, k - 1), Nth(s, start, k), MonthAt(Nth(s, start, k - 1)) + MonthsPerStep(s);
            && u % DAY == t % DAY
            && (DayAt(t) <= MonthLength(m) ==> MonthAt(u) == m && DayAt(u) == DayAt(t))
            && (DayAt(t) > MonthLength(m) ==>
                  MonthAt(u) == m + 1 && DayAt(u) == DayAt(t) - MonthLength(m) && 1 <= DayAt(u) <= 3)
  {
    hide *;
    MonthSeriesStep(s, start, k - 1);
    AddMonthsLands(Nth(s, start, k - 1), MonthsPerStep(s));
  }

  /** Start days up to the 28th never drift. */
  lemma ShortDaySeries(s: Schedule, start: Instant, k: nat)
    requires ByMonths(s) && DayAt(start) <= 28
    ensures MonthAt(Nth(s, start, k)) == MonthAt(start) + k * MonthsPerStep(s)
    ensures DayAt(Nth(s, start, k)) == DayAt(start)
    ensures Nth(s, start, k) % DAY == start % DAY
  {
    SeriesBeforeDrift(s, start, k);
  }

  /** The start itself always fits, so the first short month, if any, comes after it. */
  lemma StartFits(s: Schedule, start: Instant)
    ensures Fits(s, start, 0)
  {
    assert MonthAt(start) + 0 * MonthsPerStep(s) == MonthAt(start);
  }

  lemma {:induction false} FirstMisfit(s: Schedule, start: Instant, j: nat) returns (i: nat)
    requires !Fits(s, start, j)
    ensures 0 < i <= j && !Fits(s, start, i) && forall h: nat :: h < i ==> Fits(s, start, h)
  {
    StartFits(s, start);
    hide Fits;
    if h: nat :| h < j && !Fits(s, start, h) {
      i := FirstMisfit(s, start, h);
    } else {
      i := j;
    }
  }

  /** Once the day of the month differs from the start's it never changes again, and is at most 3. */
  lemma DriftsAtMostOnce(s: Schedule, start: Instant, j: nat, k: nat)
    requires ByMonths(s) && j <= k && DayAt(Nth(s, start, j)) != DayAt(start)
    ensures DayAt(Nth(s, start, k)) == DayAt(Nth(s, start, j)) && 1 <= DayAt(Nth(s, start, k)) <= 3
  {
    hide DayAt, MonthAt, MonthLength, MonthsPerStep, Nth, Fits;
    if i: nat :| i <= j && !Fits(s, start, i) {
      var first := FirstMisfit(s, start, i);
      SeriesAfterDrift(s, start, first, j);
      SeriesAfterDrift(s, start, first, k);
    } else {
      SeriesBeforeDrift(s, start, j);
    }
  }

  /** Some visited month is too short for the start's day. */
  ghost predicate Drifts(s: Schedule, start: Instant) {
    exists k: nat :: !Fits(s, start, k)
  }

  /** 400 years. */
  const CYCLE := 4800

  lemma LengthsRepeat(month: int, q: int)
    ensures MonthLength(month + CYCLE * q) == MonthLength(month)
  {
    assert (month + CYCLE * q) / 12 == month / 12 + 400 * q && (month + CYCLE * q) % 12 == month % 12;
    LeapYearsRepeat(month / 12, q);
  }

  lemma LeapYearsRepeat(year: int, q: int)
    ensures IsLeap(year + 400 * q) == IsLeap(year)
  {
    Fours(year, 100 * q);
    Hundreds(year, 4 * q);
    FourHundreds(year, q);
  }

  lemma Fours(a: int, q: int)
    ensures (a + 4 * q) % 4 == a % 4
  {
  }

  lemma Hundreds(a: int, q: int)
    ensures (a + 100 * q) % 100 == a % 100
  {
  }

  lemma FourHundreds(a: int, q: int)
    ensures (a + 400 * q) % 400 == a % 400
  {
  }

  lemma FitsRepeats(s: Schedule, start: Instant, k: nat)
    requires k >= CYCLE
    ensures Fits(s, start, k) == Fits(s, start, k - CYCLE)
  {
    var step := MonthsPerStep(s);
    hide DayAt, MonthAt, MonthLength, MonthsPerStep;
    LengthsRepeat(MonthAt(start) + (k - CYCLE) * step, step);
    assert MonthAt(start) + (k - CYCLE) * step + CYCLE * step == MonthAt(start) + k * step;
  }

  lemma {:induction false} EarlyMisfit(s: Schedule, start: Instant, k: nat) returns (i: nat)
    requires !Fits(s, start, k)
    ensures i < CYCLE && !Fits(s, start, i)
  {
    hide Fits;
    if k < CYCLE {
      i := k;
    } else {
      FitsRepeats(s, start, k);
      i := EarlyMisfit(s, start, k - CYCLE);
    }
  }

  /** Month lengths repeat every 400 years, so looking at as many base points as they have months decides
      whether the series drifts. */
  lemma DriftsIff(s: Schedule, start: Instant)
    ensures Drifts(s, start) <==> exists k: nat :: k < CYCLE && !Fits(s, start, k)
  {
    hide Fits;
    if k: nat :| !Fits(s, start, k) {
      var i := EarlyMisfit(s, start, k);
    }
  }

  predicate KeepsDay(s: Schedule, start: Instant, k: nat) {
    DayAt(Nth(s, start, k)) == DayAt(start)
  }

  /** The start's day is kept for ever if and only if every visited month has it: 31 January every twelve
      months does, every month does not. */
  lemma KeepsDayIff(s: Schedule, start: Instant)
    requires ByMonths(s)
    ensures (forall k: nat :: KeepsDay(s, start, k)) <==> !Drifts(s, start)
  {
    hide DayAt, MonthAt, MonthLength, MonthsPerStep, Nth, Fits;
    if k: nat :| !Fits(s, start, k) {
      var first := FirstMisfit(s, start, k);
      SeriesAfterDrift(s, start, first, first);
      MonthLengthAtLeast(s, start, first);
      assert !KeepsDay(s, start, first);
    } else {
      forall k: nat
        ensures KeepsDay(s, start, k)
      {
        SeriesBeforeDrift(s, start, k);
      }
    }
  }

  lemma MonthLengthAtLeast(s: Schedule, start: Instant, k: nat)
    ensures MonthLength(MonthAt(start) + k * MonthsPerStep(s)) >= 28
  {
  }

  /** The day of the month never grows along the series. */
  lemma {:induction false} DayNeverGrows(s: Schedule, start: Instant, k: nat)
    requires ByMonths(s)
    ensures DayAt(Nth(s, start, k)) <= DayAt(start)
  {
    hide DayAt, MonthAt;
    if k > 0 {
      DayNeverGrows(s, start, k - 1);
      MonthSeriesStep(s, start, k - 1);
      hide Nth, AddMonths;
      AddMonthsLands(Nth(s, start, k - 1), MonthsPerStep(s));
    }
  }

  // ---------- by_month_day and by_month lists ----------

  predicate HasMonthDays(s: Schedule) {
    s.frequency.Monthly? && s.byMonthDay != []
  }

  predicate HasMonths(s: Schedule) {
    s.frequency.Yearly? && s.byMonth != []
  }

  /** time.Date(t.Year(), t.Month(), day, ...) against t itself. */
  lemma MonthDayOrder(t: Instant, day: int)
    ensures OnDay(t, Date(MonthAt(t), day)) < t <==> day < DayAt(t)
  {
    OnDayOrder(t, Date(MonthAt(t), day));
  }

  lemma ProposedMonthDay(s: Schedule, start: Instant, k: nat, x: Instant)
    requires HasMonthDays(s)
    ensures Proposed(s, start, k, x) <==>
            exists d :: d in s.byMonthDay && x == OnDay(Nth(s, start, k), Date(MonthAt(Nth(s, start, k)), d))
  {
    hide OnDay, Date, MonthOf;
    var t := Nth(s, start, k);
    var c := Candidates(s, t);
    assert |c| == |s.byMonthDay|;
    assert forall i :: 0 <= i < |c| ==> c[i] == OnDay(t, Date(MonthAt(t), s.byMonthDay[i]));
    forall d | d in s.byMonthDay
      ensures OnDay(t, Date(MonthAt(t), d)) in c
    {
      var i :| 0 <= i < |c| && s.byMonthDay[i] == d;
      assert c[i] in c;
    }
  }

  /** A by_month_day schedule yields the same instants whatever the window if and only if no
      listed day comes before the day of the start. */
  lemma MonthDaysSlicedIff(s: Schedule, start: Instant)
    requires WellFormed(s) && HasMonthDays(s)
    ensures IsSliced(s, start) <==> forall d :: d in s.byMonthDay ==> d >= DayAt(start)
  {
    hide DayAt, MonthAt, Nth, IsSliced, Occurrences, OnDay, Proposed;
    if d :| d in s.byMonthDay && d < DayAt(start) {
      var x := OnDay(start, Date(MonthAt(start), d));
      assert Nth(s, start, 0) == start by { SeriesStart(s, start); }
      ProposedMonthDay(s, start, 0, x);
      MonthDayOrder(start, d);
      assert Occurs(s, start, x);
      EarlyCandidate(s, start, x);
    } else {
      forall k: nat, x | Proposed(s, start, k, x)
        ensures Nth(s, start, k) <= x
      {
        ProposedMonthDay(s, start, k, x);
        var d :| d in s.byMonthDay && x == OnDay(Nth(s, start, k), Date(MonthAt(Nth(s, start, k)), d));
        DayNeverGrows(s, start, k);
        MonthDayOrder(Nth(s, start, k), d);
      }
      ForwardCandidates(s, start);
    }
  }

  lemma SeriesStart(s: Schedule, start: Instant)
    ensures Nth(s, start, 0) == start
  {
  }

  /** time.Date(t.Year(), month, t.Day(), ...) at a base point. */
  function InMonth(t: Instant, month: int): Instant {
    OnDay(t, Date(MonthAt(t) / 12 * 12 + month - 1, DayAt(t)))
  }

  lemma InMonthOrder(t: Instant, month: int)
    ensures InMonth(t, month) < t <==> month - 1 < MonthAt(t) % 12
  {
    var m := MonthAt(t);
    var shift := month - 1 - m % 12;
    assert m / 12 * 12 + month - 1 == m + shift;
    MonthsLater(DayOfInstant(t), shift);
    OnDayOrder(t, Date(m + shift, DayAt(t)));
  }

  lemma ProposedMonth(s: Schedule, start: Instant, k: nat, x: Instant)
    requires HasMonths(s)
    ensures Proposed(s, start, k, x) <==> exists m :: m in s.byMonth && x == InMonth(Nth(s, start, k), m)
  {
    hide OnDay, Date, MonthOf, DayOf;
    var t := Nth(s, start, k);
    var c := Candidates(s, t);
    assert |c| == |s.byMonth|;
    assert forall i :: 0 <= i < |c| ==> c[i] == InMonth(t, s.byMonth[i]);
    forall m | m in s.byMonth
      ensures InMonth(t, m) in c
    {
      var i :| 0 <= i < |c| && s.byMonth[i] == m;
      assert c[i] in c;
    }
  }

  lemma WholeYears(month: int, years: int)
    ensures (month + 12 * years) % 12 == month % 12 && (month + 12 * years) / 12 == month / 12 + years
    ensures month % 12 != 1 ==> MonthLength(month + 12 * years) == MonthLength(month)
    ensures month % 12 == 1 ==> MonthLength(month) <= 29
  {
  }

  lemma YearsPerStep(s: Schedule, k: nat)
    requires s.frequency.Yearly?
    ensures k * MonthsPerStep(s) == 12 * (k * s.interval)
  {
  }

  /** Only a 29 February can drift along years. */
  lemma YearlyDrift(s: Schedule, start: Instant, k: nat)
    requires s.frequency.Yearly? && !Fits(s, start, k)
    ensures MonthAt(start) % 12 == 1 && DayAt(start) == 29
    ensures MonthLength(MonthAt(start) + k * MonthsPerStep(s)) == 28
  {
    YearsPerStep(s, k);
    WholeYears(MonthAt(start), k * s.interval);
    StartLength(start);
    MonthLengthAtLeast(s, start, k);
    hide MonthLength, DayAt, MonthAt, MonthsPerStep;
  }

  lemma StartLength(start: Instant)
    ensures 1 <= DayAt(start) <= MonthLength(MonthAt(start))
  {
  }

  lemma YearlyBefore(s: Schedule, start: Instant, k: nat)
    requires s.frequency.Yearly? && forall j: nat :: j <= k ==> Fits(s, start, j)
    ensures MonthAt(Nth(s, start, k)) == MonthAt(start) + 12 * (k * s.interval)
    ensures DayAt(Nth(s, start, k)) == DayAt(start) && Nth(s, start, k) % DAY == start % DAY
  {
    SeriesBeforeDrift(s, start, k);
    YearsPerStep(s, k);
    hide *;
  }

  /** From the first year without a 29 February on, the base points are first days of March. */
  lemma YearlyAfter(s: Schedule, start: Instant, j: nat, k: nat)
    requires s.frequency.Yearly? && 0 < j <= k
    requires !Fits(s, start, j) && forall i: nat :: i < j ==> Fits(s, start, i)
    ensures MonthAt(Nth(s, start, k)) % 12 == 2 && DayAt(Nth(s, start, k)) == 1
  {
    assert ByMonths(s);
    hide *;
    SeriesAfterDrift(s, start, j, k);
    YearsPerStep(s, k);
    YearlyDrift(s, start, j);
    MarchFollows(MonthAt(start), k * s.interval);
  }

  lemma MarchFollows(month: int, years: int)
    requires month % 12 == 1
    ensures (month + 12 * years + 1) % 12 == 2
  {
  }

  /** The month of the year of a base point. */
  lemma YearlyMonth(s: Schedule, start: Instant, k: nat)
    requires s.frequency.Yearly?
    ensures MonthAt(Nth(s, start, k)) % 12 == MonthAt(start) % 12 ||
            (Drifts(s, start) && MonthAt(start) % 12 == 1 && MonthAt(Nth(s, start, k)) % 12 == 2)
  {
    hide DayAt, MonthAt, MonthLength, MonthsPerStep, Nth, Fits;
    if i: nat :| i <= k && !Fits(s, start, i) {
      var first := FirstMisfit(s, start, i);
      YearlyAfter(s, start, first, k);
      YearlyDrift(s, start, first);
    } else {
      YearlyBefore(s, start, k);
      WholeYears(MonthAt(start), k * s.interval);
    }
  }

  /** The candidate for February at a first of March is proposed by no earlier base point. */
  lemma FebruaryIsLate(s: Schedule, start: Instant, j: nat, k: nat, m: int)
    requires s.frequency.Yearly? && k < j && !Fits(s, start, j) && forall i: nat :: i < j ==> Fits(s, start, i)
    ensures InMonth(Nth(s, start, k), m) != InMonth(Nth(s, start, j), 2)
  {
    hide *;
    var t, u := Nth(s, start, j), Nth(s, start, k);
    YearlyAfter(s, start, j, j);
    YearlyDrift(s, start, j);
    YearlyBefore(s, start, k);
    var feb, other := MonthAt(t) / 12 * 12 + 1, MonthAt(u) / 12 * 12 + m - 1;
    InMonthReadsBack(t, 2);
    InMonthReadsBack(u, m);
    ShortMonth(feb);
    ShortMonth(other);
    NextIsMarch(MonthAt(t), other);
  }

  /** time.Date in a listed month, read back. */
  lemma InMonthReadsBack(t: Instant, m: int)
    ensures var x, month := InMonth(t, m), MonthAt(t) / 12 * 12 + m - 1;
            && (DayAt(t) <= MonthLength(month) ==> MonthAt(x) == month && DayAt(x) == DayAt(t))
            && (DayAt(t) > MonthLength(month) ==> MonthAt(x) == month + 1)
  {
    var day := Date(MonthAt(t) / 12 * 12 + m - 1, DayAt(t));
    OnDayOrder(t, day);
    DateReadsBack(MonthAt(t) / 12 * 12 + m - 1, DayAt(t));
  }

  lemma NextIsMarch(month: int, other: int)
    ensures (month / 12 * 12 + 1) % 12 == 1
    ensures other % 12 == 1 ==> (other + 1) % 12 == 2
  {
  }

  lemma ShortMonth(month: int)
    ensures MonthLength(month) >= 28 && (MonthLength(month) < 29 ==> month % 12 == 1)
  {
  }

  lemma DriftIsNotSliced(s: Schedule, start: Instant)
    requires WellFormed(s) && HasMonths(s) && Drifts(s, start) && 2 in s.byMonth
    ensures !IsSliced(s, start)
  {
    var i: nat :| !Fits(s, start, i);
    var j := FirstMisfit(s, start, i);
    var t := Nth(s, start, j);
    var x := InMonth(t, 2);
    YearlyAfter(s, start, j, j);
    InMonthOrder(t, 2);
    ProposedMonth(s, start, j, x);
    hide Nth, Fits, InMonth, DayAt, MonthAt, Proposed, IsSliced;
    assert Occurs(s, start, x);
    SlicedIffForward(s, start);
    if IsForward(s, start) {
      var k: nat :| Nth(s, start, k) <= x && Proposed(s, start, k, x);
      ProposedMonth(s, start, k, x);
      var m :| m in s.byMonth && x == InMonth(Nth(s, start, k), m);
      if k < j {
        FebruaryIsLate(s, start, j, k, m);
      } else if j < k {
        SeriesIncreases(s, start, j, k);
      }
      assert false;
    }
  }

  /** A by_month schedule is the same in every window if and only if no listed month comes before the
      month of the start and, for a 29 February that drifts into March, February itself is not listed. */
  lemma MonthsSlicedIff(s: Schedule, start: Instant)
    requires WellFormed(s) && HasMonths(s)
    ensures IsSliced(s, start) <==>
            forall m :: m in s.byMonth ==> m - 1 >= MonthAt(start) % 12 && (Drifts(s, start) ==> m != 2)
  {
    hide DayAt, MonthAt, Nth, IsSliced, Occurrences, InMonth, Proposed, Drifts;
    if m :| m in s.byMonth && m - 1 < MonthAt(start) % 12 {
      assert Nth(s, start, 0) == start by { SeriesStart(s, start); }
      ProposedMonth(s, start, 0, InMonth(start, m));
      InMonthOrder(start, m);
      assert Occurs(s, start, InMonth(start, m));
      EarlyCandidate(s, start, InMonth(start, m));
    } else if Drifts(s, start) && 2 in s.byMonth {
      DriftIsNotSliced(s, start);
    } else {
      forall k: nat, x | Proposed(s, start, k, x)
        ensures Nth(s, start, k) <= x
      {
        ProposedMonth(s, start, k, x);
        var m :| m in s.byMonth && x == InMonth(Nth(s, start, k), m);
        YearlyMonth(s, start, k);
        InMonthOrder(Nth(s, start, k), m);
      }
      ForwardCandidates(s, start);
    }
  }

  // ---------- exact sets in calendar terms ----------

  /** Weekly with by_day: the days j after the start whose week number is a multiple of the
      interval and whose weekday is listed. */
  ghost predicate WeeklyDay(s: Schedule, start: Instant, j: nat) {
    && (exists k: nat :: j / 7 == k * s.interval)
    && exists name :: name in s.byDay && Weekday(DayOfInstant(start) + j) == WeekdayNumber(name)
  }

  lemma {:induction false} WeeklySeries(s: Schedule, start: Instant, k: nat)
    requires s.frequency.Weekly?
    ensures Nth(s, start, k) == AddDays(start, 7 * (k * s.interval))
  {
    if k > 0 {
      WeeklySeries(s, start, k - 1);
      NthStep(s, start, k - 1);
      AddDaysTwice(start, 7 * ((k - 1) * s.interval), 7 * s.interval);
      assert k * s.interval == (k - 1) * s.interval + s.interval;
    }
  }

  lemma NextWeekday(n: int, weekday: int)
    requires 0 <= weekday < 7
    ensures var a := (weekday - n % 7 + 7) % 7;
            0 <= a < 7 && (n + a) % 7 == weekday
  {
  }

  /** A whole number of weeks on, DaysUntil counts to the same weekday. */
  lemma WeekdayReached(start: Instant, weeks: int, weekday: int)
    requires 0 <= weekday < 7
    ensures var a := DaysUntil(AddDays(start, 7 * weeks), weekday);
            0 <= a < 7 && Weekday(DayOfInstant(start) + 7 * weeks + a) == weekday
  {
    AddDaysTwice(start, 7 * weeks, 0);
    hide AddDays, DayOfInstant;
    NextWeekday(DayOfInstant(start) + 7 * weeks + 4, weekday);
  }

  lemma ProposedWeekday(s: Schedule, start: Instant, k: nat, x: Instant)
    requires s.frequency.Weekly? && s.byDay != []
    ensures Proposed(s, start, k, x) <==>
            exists name :: name in s.byDay &&
              x == AddDays(Nth(s, start, k), DaysUntil(Nth(s, start, k), WeekdayNumber(name)))
  {
    hide Nth, DaysUntil, AddDays, WeekdayNumber;
    var t := Nth(s, start, k);
    var c := Candidates(s, t);
    assert |c| == |s.byDay|;
    assert forall i :: 0 <= i < |c| ==> c[i] == AddDays(t, DaysUntil(t, WeekdayNumber(s.byDay[i])));
    forall name | name in s.byDay
      ensures AddDays(t, DaysUntil(t, WeekdayNumber(name))) in c
    {
      var i :| 0 <= i < |c| && s.byDay[i] == name;
      assert c[i] in c;
    }
  }

  lemma ProposedIsWeeklyDay(s: Schedule, start: Instant, k: nat, x: Instant) returns (j: nat)
    requires WellFormed(s) && s.frequency.Weekly? && s.byDay != [] && Proposed(s, start, k, x)
    ensures x == AddDays(start, j) && WeeklyDay(s, start, j)
  {
    hide Nth, Proposed, WeekdayNumber, DaysUntil, AddDays, Weekday, DayOfInstant;
    ProposedWeekday(s, start, k, x);
    var t := Nth(s, start, k);
    var name :| name in s.byDay && x == AddDays(t, DaysUntil(t, WeekdayNumber(name)));
    var weeks := k * s.interval;
    WeeklySeries(s, start, k);
    WeekdayReached(start, weeks, WeekdayNumber(name));
    AddDaysTwice(start, 7 * weeks, DaysUntil(t, WeekdayNumber(name)));
    j := 7 * weeks + DaysUntil(t, WeekdayNumber(name));
    assert j / 7 == weeks;
  }

  lemma WeeklyDayIsProposed(s: Schedule, start: Instant, j: nat)
    requires WellFormed(s) && s.frequency.Weekly? && s.byDay != [] && WeeklyDay(s, start, j)
    ensures Occurs(s, start, AddDays(start, j))
  {
    hide Nth, Proposed, WeekdayNumber, DaysUntil, AddDays, DayOfInstant;
    var k: nat :| j / 7 == k * s.interval;
    var name :| name in s.byDay && Weekday(DayOfInstant(start) + j) == WeekdayNumber(name);
    var weeks := k * s.interval;
    var a := DaysUntil(AddDays(start, 7 * weeks), WeekdayNumber(name));
    WeeklySeries(s, start, k);
    WeekdayReached(start, weeks, WeekdayNumber(name));
    assert a == j % 7;
    AddDaysTwice(start, 7 * weeks, a);
    ProposedWeekday(s, start, k, AddDays(start, j));
  }

  /** The weekly by_day expansion is exact in every window. */
  lemma WeeklyExact(s: Schedule, start: Instant, lo: Instant, hi: Instant, x: Instant)
    requires WellFormed(s) && s.frequency.Weekly? && s.byDay != []
    ensures x in Occurrences(s, start, lo, hi) <==>
            lo < x < hi && exists j: nat :: x == AddDays(start, j) && WeeklyDay(s, start, j)
  {
    hide Occurrences, WeeklyDay, Proposed, AddDays;
    PlainIsSliced(s, start);
    Slice(s, start, lo, hi, x);
    hide IsSliced;
    if Occurs(s, start, x) {
      var k: nat :| Proposed(s, start, k, x);
      var j := ProposedIsWeeklyDay(s, start, k, x);
    }
    if j: nat :| x == AddDays(start, j) && WeeklyDay(s, start, j) {
      WeeklyDayIsProposed(s, start, j);
    }
  }

  /** Instants are determined by month, day of the month and time of day. */
  lemma ReadBack(t: Instant, month: int, day: int)
    requires 1 <= day <= 28
    ensures MonthAt(OnDay(t, Date(month, day))) == month && DayAt(OnDay(t, Date(month, day))) == day
    ensures OnDay(t, Date(month, day)) % DAY == t % DAY
  {
    OnDayOrder(t, Date(month, day));
    SameTimeOfDay(t, Date(month, day));
    DateReadsBack(month, day);
  }

  lemma WrittenBack(t: Instant, x: Instant)
    requires x % DAY == t % DAY
    ensures x == OnDay(t, Date(MonthAt(x), DayAt(x)))
  {
    assert Date(MonthAt(x), DayAt(x)) == DayOfInstant(x);
    OnDayOrder(x, DayOfInstant(x));
    hide MonthOf, DayOf;
  }

  /** x lies in a month the series visits, at the start's time of day. */
  ghost predicate InVisitedMonth(s: Schedule, start: Instant, x: Instant) {
    x % DAY == start % DAY && exists k: nat :: MonthAt(x) == MonthAt(start) + k * MonthsPerStep(s)
  }

  /** Monthly by_month_day, for a start day up to the 28th and listed days from it to the 28th:
      exactly the listed days of every interval-th month. */
  lemma MonthDaysExact(s: Schedule, start: Instant, lo: Instant, hi: Instant, x: Instant)
    requires WellFormed(s) && HasMonthDays(s)
    requires forall d :: d in s.byMonthDay ==> DayAt(start) <= d <= 28
    ensures x in Occurrences(s, start, lo, hi) <==>
            lo < x < hi && InVisitedMonth(s, start, x) && DayAt(x) in s.byMonthDay
  {
    hide Occurrences, DayAt, MonthAt, OnDay, Proposed;
    assert s.byMonthDay[0] in s.byMonthDay;
    MonthDaysSlicedIff(s, start);
    Slice(s, start, lo, hi, x);
    hide IsSliced;
    if Occurs(s, start, x) {
      var k: nat :| Proposed(s, start, k, x);
      ProposedMonthDay(s, start, k, x);
      var t := Nth(s, start, k);
      var d :| d in s.byMonthDay && x == OnDay(t, Date(MonthAt(t), d));
      ShortDaySeries(s, start, k);
      DayPositive(start);
      ReadBack(t, MonthAt(t), d);
    }
    if InVisitedMonth(s, start, x) && DayAt(x) in s.byMonthDay {
      var k: nat :| MonthAt(x) == MonthAt(start) + k * MonthsPerStep(s);
      ShortDaySeries(s, start, k);
      WrittenBack(Nth(s, start, k), x);
      ProposedMonthDay(s, start, k, x);
    }
  }

  lemma DayPositive(t: Instant)
    ensures DayAt(t) >= 1
  {
  }

  /** Monthly and yearly schedules without lists, for a start day up to the 28th: exactly the
      start's day of every visited month. */
  lemma MonthlyExact(s: Schedule, start: Instant, lo: Instant, hi: Instant, x: Instant)
    requires WellFormed(s) && ByMonths(s) && !HasMonthDays(s) && !HasMonths(s)
    requires DayAt(start) <= 28
    ensures x in Occurrences(s, start, lo, hi) <==>
            lo < x < hi && InVisitedMonth(s, start, x) && DayAt(x) == DayAt(start)
  {
    hide Occurrences, DayAt, MonthAt, OnDay, Nth;
    PlainIsSliced(s, start);
    Slice(s, start, lo, hi, x);
    hide IsSliced;
    assert forall k: nat :: Proposed(s, start, k, x) <==> x == Nth(s, start, k);
    if Occurs(s, start, x) {
      var k: nat :| Proposed(s, start, k, x);
      ShortDaySeries(s, start, k);
    }
    if InVisitedMonth(s, start, x) && DayAt(x) == DayAt(start) {
      var k: nat :| MonthAt(x) == MonthAt(start) + k * MonthsPerStep(s);
      ShortDaySeries(s, start, k);
      WrittenBack(Nth(s, start, k), x);
      WrittenBack(Nth(s, start, k), Nth(s, start, k));
      assert Proposed(s, start, k, x);
    }
  }

  /** The start's day in a listed month of the k-th visited year, normalised as time.Date does. */
  ghost predicate IsListedMonth(s: Schedule, start: Instant, k: nat, m: int, x: Instant) {
    m in s.byMonth && x == OnDay(start, Date(12 * (MonthAt(start) / 12 + k * s.interval) + m - 1, DayAt(start)))
  }

  lemma InMonthOfNth(s: Schedule, start: Instant, k: nat, m: int)
    requires s.frequency.Yearly? && !Drifts(s, start)
    ensures InMonth(Nth(s, start, k), m) ==
            OnDay(start, Date(12 * (MonthAt(start) / 12 + k * s.interval) + m - 1, DayAt(start)))
  {
    assert forall j: nat :: Fits(s, start, j);
    hide DayAt, MonthAt, Nth, Fits, Date;
    YearlyBefore(s, start, k);
    WholeYears(MonthAt(start), k * s.interval);
  }

  /** Yearly with by_month, for listed months from the start's on and a start that does not drift:
      exactly the start's day of the listed months of every interval-th year. */
  lemma MonthsExact(s: Schedule, start: Instant, lo: Instant, hi: Instant, x: Instant)
    requires WellFormed(s) && HasMonths(s) && !Drifts(s, start)
    requires forall m :: m in s.byMonth ==> m - 1 >= MonthAt(start) % 12
    ensures x in Occurrences(s, start, lo, hi) <==>
            lo < x < hi && exists k: nat, m :: IsListedMonth(s, start, k, m, x)
  {
    hide Occurrences, DayAt, MonthAt, OnDay, Date, Proposed, Drifts, InMonth, Nth;
    MonthsSlicedIff(s, start);
    Slice(s, start, lo, hi, x);
    hide IsSliced;
    if Occurs(s, start, x) {
      var k: nat :| Proposed(s, start, k, x);
      ProposedMonth(s, start, k, x);
      var m :| m in s.byMonth && x == InMonth(Nth(s, start, k), m);
      InMonthOfNth(s, start, k, m);
      assert IsListedMonth(s, start, k, m, x);
    }
    if k: nat, m :| IsListedMonth(s, start, k, m, x) {
      InMonthOfNth(s, start, k, m);
      ProposedMonth(s, start, k, x);
    }
  }
}
