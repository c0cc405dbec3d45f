/** The proleptic Gregorian calendar as Go's time.Date and Time.AddDate see it in UTC.
    Days are numbered from 1970-01-01; months are numbered 12 * year + (month - 1). */
module Calendar {
  import opened Times

  /** January 1970. */
  const EPOCH_MONTH := 12 * 1970

  predicate IsLeap(year: int) {
    year % 4 == 0 && (year % 100 != 0 || year % 400 == 0)
  }

  function MonthLength(month: int): (n: int)
    ensures 28 <= n <= 31
  {
    var i := month % 12;
    if i == 1 then (if IsLeap(month / 12) then 29 else 28)
    else if i == 3 || i == 5 || i == 8 || i == 10 then 30
    else 31
  }

  /** Day number of the first day of a month. */
  function FirstOfMonth(month: int): int
    decreases if month < EPOCH_MONTH then EPOCH_MONTH - month else month - EPOCH_MONTH
  {
    if month == EPOCH_MONTH then 0
    else if month > EPOCH_MONTH then FirstOfMonth(month - 1) + MonthLength(month - 1)
    else FirstOfMonth(month + 1) - MonthLength(month)
  }

  lemma NextMonth(month: int)
    ensures FirstOfMonth(month + 1) == FirstOfMonth(month) + MonthLength(month)
  {
  }

  lemma {:induction false} MonthsApart(a: int, b: int)
    requires a <= b
    ensures FirstOfMonth(a) + 28 * (b - a) <= FirstOfMonth(b)
    decreases b - a
  {
    if a < b {
      NextMonth(a);
      MonthsApart(a + 1, b);
    }
  }

  /** Search for the month of a day, from a guess. */
  function FindMonth(day: int, guess: int): (m: int)
    ensures FirstOfMonth(m) <= day < FirstOfMonth(m + 1)
    decreases if day < FirstOfMonth(guess) then FirstOfMonth(guess) - day
              else if day >= FirstOfMonth(guess + 1) then day - FirstOfMonth(guess)
              else 0
  {
    NextMonth(guess - 1);
    NextMonth(guess);
    NextMonth(guess + 1);
    if day < FirstOfMonth(guess) then FindMonth(day, guess - 1)
    else if day >= FirstOfMonth(guess + 1) then FindMonth(day, guess + 1)
    else guess
  }

  function MonthOf(day: int): (m: int)
    ensures FirstOfMonth(m) <= day < FirstOfMonth(m + 1)
  {
    FindMonth(day, day / 31)
  }

  /** Day of the month, from 1. */
  function DayOf(day: int): (d: int)
    ensures 1 <= d <= MonthLength(MonthOf(day)) <= 31
  {
    NextMonth(MonthOf(day));
    day - FirstOfMonth(MonthOf(day)) + 1
  }

  /** time.Date: a month out of 1..12 and a day out of 1..length both carry over. */
  function Date(month: int, day: int): int {
    FirstOfMonth(month) + day - 1
  }

  /** Sunday is 0, as in time.Weekday; 1970-01-01 was a Thursday. */
  function Weekday(day: int): int {
    (day + 4) % 7
  }

  lemma MonthUnique(day: int, m: int)
    requires FirstOfMonth(m) <= day < FirstOfMonth(m + 1)
    ensures MonthOf(day) == m && DayOf(day) == day - FirstOfMonth(m) + 1
  {
    hide FirstOfMonth, MonthOf, MonthLength;
    var n := MonthOf(day);
    if n < m {
      MonthsApart(n + 1, m);
    } else if m < n {
      MonthsApart(m + 1, n);
    }
  }

  /** A date that exists is read back; one past the end of a month lands in the next month. */
  lemma DateReadsBack(month: int, day: int)
    requires 1 <= day <= 31
    ensures day <= MonthLength(month) ==>
              MonthOf(Date(month, day)) == month && DayOf(Date(month, day)) == day
    ensures day > MonthLength(month) ==>
              MonthOf(Date(month, day)) == month + 1 &&
              DayOf(Date(month, day)) == day - MonthLength(month) <= 3
  {
    NextMonth(month);
    NextMonth(month + 1);
    if day <= MonthLength(month) {
      MonthUnique(Date(month, day), month);
    } else {
      MonthUnique(Date(month, day), month + 1);
    }
  }

  // ---------- the calendar from outside ----------

  /** Days of a year before each month, without a leap day. */
  const DAYS_BEFORE := [0, 31, 59, 90, 120, 151, 181, 212, 243, 273, 304, 334]

  /** Leap days in the years from 0 to the one before. */
  function LeapDaysBefore(year: int): int {
    (year - 1) / 4 - (year - 1) / 100 + (year - 1) / 400
  }

  /** A month begins as many days into its year as on any calendar. */
  lemma {:induction false} MonthOffset(year: int, i: nat)
    requires i < 12
    ensures FirstOfMonth(12 * year + i) == FirstOfMonth(12 * year) + DAYS_BEFORE[i] +
            if i >= 2 && year % 4 == 0 && (year % 100 != 0 || year % 400 == 0) then 1 else 0
  {
    hide FirstOfMonth;
    assert (12 * year + i - 1) % 12 == (i + 11) % 12;
    if i > 0 {
      MonthOffset(year, i - 1);
      NextMonth(12 * year + i - 1);
      assert (12 * year + i - 1) % 12 == i - 1 && (12 * year + i - 1) / 12 == year;
    }
  }

  lemma YearLength(year: int)
    ensures FirstOfMonth(12 * (year + 1)) ==
            FirstOfMonth(12 * year) + if year % 4 == 0 && (year % 100 != 0 || year % 400 == 0) then 366 else 365
  {
    hide FirstOfMonth;
    MonthOffset(year, 11);
    NextMonth(12 * year + 11);
    assert (12 * year + 11) % 12 == 11;
  }

  lemma Multiple4(year: int)
    ensures year / 4 == (year - 1) / 4 + if year % 4 == 0 then 1 else 0
  {
  }

  lemma Multiple100(year: int)
    ensures year / 100 == (year - 1) / 100 + if year % 100 == 0 then 1 else 0
    ensures year % 100 == 0 ==> year % 4 == 0
  {
  }

  lemma Multiple400(year: int)
    ensures year / 400 == (year - 1) / 400 + if year % 400 == 0 then 1 else 0
    ensures year % 400 == 0 ==> year % 100 == 0
  {
  }

  lemma LeapDayMore(year: int)
    ensures LeapDaysBefore(year + 1) ==
            LeapDaysBefore(year) + if year % 4 == 0 && (year % 100 != 0 || year % 400 == 0) then 1 else 0
  {
    Multiple4(year);
    Multiple100(year);
    Multiple400(year);
  }

  lemma EpochYear()
    ensures FirstOfMonth(12 * 1970) == 0 && LeapDaysBefore(1970) == 477
  {
  }

  /** The first day of every year: 365 days a year since 1970, and the leap days, of which 477 lie before. */
  lemma {:induction false} YearBegins(year: int)
    ensures FirstOfMonth(12 * year) == 365 * (year - 1970) + LeapDaysBefore(year) - 477
    decreases if year < 1970 then 1970 - year else year - 1970
  {
    hide FirstOfMonth, LeapDaysBefore;
    if year > 1970 {
      YearBegins(year - 1);
      YearLength(year - 1);
      LeapDayMore(year - 1);
    } else if year < 1970 {
      YearBegins(year + 1);
      YearLength(year);
      LeapDayMore(year);
    } else {
      EpochYear();
    }
  }

  /** Every date, by the Gregorian rule alone. */
  lemma DateExact(year: int, i: nat, day: int)
    requires i < 12
    ensures Date(12 * year + i, day) ==
            365 * (year - 1970) + (year - 1) / 4 - (year - 1) / 100 + (year - 1) / 400 - 477 + DAYS_BEFORE[i] +
            (if i >= 2 && year % 4 == 0 && (year % 100 != 0 || year % 400 == 0) then 1 else 0) + day - 1
  {
    YearBegins(year);
    MonthOffset(year, i);
    hide FirstOfMonth;
  }

  /** 1970-01-01 is day 0, a Thursday; 2000-02-29 exists, a Tuesday, and 2100-02-29 does not. */
  lemma KnownDates()
    ensures Date(12 * 1970, 1) == 0 && Weekday(Date(12 * 1970, 1)) == 4
    ensures MonthLength(12 * 2000 + 1) == 29 && Weekday(Date(12 * 2000 + 1, 29)) == 2
    ensures MonthLength(12 * 2100 + 1) == 28 && Weekday(Date(12 * 2100 + 1, 28)) == 0
  {
    hide Date;
    DateExact(1970, 0, 1);
    DateExact(2000, 1, 29);
    DateExact(2100, 1, 28);
  }

  /** Any 400 years are 20871 weeks. */
  lemma CalendarRepeats(year: int, i: nat, day: int)
    requires i < 12
    ensures Date(12 * (year + 400) + i, day) == Date(12 * year + i, day) + 7 * 20871
  {
    hide FirstOfMonth, LeapDaysBefore;
    MonthOffset(year, i);
    MonthOffset(year + 400, i);
    YearBegins(year);
    YearBegins(year + 400);
    SameRule(year);
  }

  lemma SameRule(year: int)
    ensures (year + 400) % 4 == year % 4 && (year + 400) % 100 == year % 100 && (year + 400) % 400 == year % 400
    ensures LeapDaysBefore(year + 400) == LeapDaysBefore(year) + 97
  {
    assert (year + 400 - 1) / 4 == (year - 1) / 4 + 100;
    assert (year + 400 - 1) / 100 == (year - 1) / 100 + 4;
    assert (year + 400 - 1) / 400 == (year - 1) / 400 + 1;
  }

  /** Weekdays follow one another, and come back every seven days. */
  lemma WeekdaysFollow(day: int)
    ensures Weekday(day + 1) == (if Weekday(day) == 6 then 0 else Weekday(day) + 1)
    ensures Weekday(day + 7) == Weekday(day)
  {
  }

  function DayOfInstant(t: Instant): int {
    t / DAY
  }

  /** The same time of day on another day. */
  function OnDay(t: Instant, day: int): Instant {
    day * DAY + t % DAY
  }

  /** AddDate(0, 0, days) in UTC. */
  function AddDays(t: Instant, days: int): Instant {
    t + days * DAY
  }

  lemma AddDaysTwice(t: Instant, a: int, b: int)
    ensures AddDays(AddDays(t, a), b) == AddDays(t, a + b)
    ensures DayOfInstant(AddDays(t, a)) == DayOfInstant(t) + a
  {
  }

  /** AddDate(0, months, 0): add to the month number, keep the day of the month, normalise. */
  function AddMonths(t: Instant, months: int): Instant {
    var d := DayOfInstant(t);
    OnDay(t, Date(MonthOf(d) + months, DayOf(d)))
  }

  /** Days order instants with the same time of day. */
  lemma OnDayOrder(t: Instant, day: int)
    ensures day > DayOfInstant(t) <==> OnDay(t, day) > t
    ensures day == DayOfInstant(t) <==> OnDay(t, day) == t
    ensures DayOfInstant(OnDay(t, day)) == day
  {
    assert t == DayOfInstant(t) * DAY + t % DAY;
  }

  lemma MonthsLater(d: int, months: int)
    ensures months >= 1 <==> Date(MonthOf(d) + months, DayOf(d)) > d
    ensures months == 0 <==> Date(MonthOf(d) + months, DayOf(d)) == d
  {
    if months >= 1 {
      MonthsApart(MonthOf(d), MonthOf(d) + months);
    } else {
      MonthsApart(MonthOf(d) + months, MonthOf(d));
    }
  }

  lemma AddMonthsAdvances(t: Instant, months: int)
    ensures months >= 1 <==> AddMonths(t, months) > t
    ensures months == 0 <==> AddMonths(t, months) == t
  {
    var d := DayOfInstant(t);
    MonthsLater(d, months);
    OnDayOrder(t, Date(MonthOf(d) + months, DayOf(d)));
  }
}
