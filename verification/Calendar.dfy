/** The calendar between an integer time and its UTC date and clock fields. */
module Calendar {
  import opened Orders

  const MICROS_PER_SECOND := 1_000_000
  const SECONDS_PER_DAY := 86_400

  datatype Date = Date(year: nat, month: nat, day: nat)

  datatype Civil = Civil(date: Date, hour: nat, minute: nat, second: nat, nano: nat)

  predicate Leap(y: nat) { y % 4 == 0 && (y % 100 != 0 || y % 400 == 0) }

  function DaysIn(y: nat, m: nat): nat {
    if m == 2 then if Leap(y) then 29 else 28
    else if m == 4 || m == 6 || m == 9 || m == 11 then 30
    else 31
  }

  predicate ValidDate(d: Date) {
    1 <= d.year && 1 <= d.month <= 12 && 1 <= d.day <= DaysIn(d.year, d.month)
  }

  predicate ValidCivil(c: Civil) {
    ValidDate(c.date) && c.hour < 24 && c.minute < 60 && c.second < 60 && c.nano < 1_000_000_000
  }

  function NextDay(d: Date): Date {
    if d.day < DaysIn(d.year, d.month) then d.(day := d.day + 1)
    else if d.month < 12 then Date(d.year, d.month + 1, 1)
    else Date(d.year + 1, 1, 1)
  }

  /** The date n days after 0001-01-01. */
  function DateOf(n: nat): (d: Date)
    ensures ValidDate(d)
  {
    if n == 0 then Date(1, 1, 1) else NextDay(DateOf(n - 1))
  }

  function DaysBeforeMonth(y: nat, m: nat): nat {
    if m <= 1 then 0 else DaysBeforeMonth(y, m - 1) + DaysIn(y, m - 1)
  }

  function DaysBeforeYear(y: nat): nat {
    if y <= 1 then 0 else DaysBeforeYear(y - 1) + DaysBeforeMonth(y - 1, 12) + DaysIn(y - 1, 12)
  }

  /** How many days a date is after 0001-01-01. */
  function DayNumber(d: Date): nat
    requires ValidDate(d)
  {
    DaysBeforeYear(d.year) + DaysBeforeMonth(d.year, d.month) + d.day - 1
  }

  lemma {:induction false} DayNumberOfDate(n: nat)
    ensures DayNumber(DateOf(n)) == n
  {
    if n > 0 {
      DayNumberOfDate(n - 1);
      var d := DateOf(n - 1);
      if d.day == DaysIn(d.year, d.month) && d.month < 12 {
        assert DaysBeforeMonth(d.year, d.month + 1) == DaysBeforeMonth(d.year, d.month) + DaysIn(d.year, d.month);
      } else if d.day == DaysIn(d.year, d.month) {
        assert DaysBeforeMonth(d.year + 1, 1) == 0;
        assert DaysBeforeYear(d.year + 1) == DaysBeforeYear(d.year) + DaysBeforeMonth(d.year, 12) + DaysIn(d.year, 12);
      }
    }
  }

  function CivilOf(t: Time): Civil
    requires t >= ZERO_TIME
  {
    var seconds := t / MICROS_PER_SECOND;
    var inDay := seconds % SECONDS_PER_DAY;
    Civil(DateOf(seconds / SECONDS_PER_DAY), inDay / 3600, inDay / 60 % 60, inDay % 60,
          t % MICROS_PER_SECOND * 1000)
  }

  function TimeOf(c: Civil): Time
    requires ValidDate(c.date)
  {
    ((DayNumber(c.date) * 24 + c.hour) * 60 + c.minute) * 60 * MICROS_PER_SECOND
      + c.second * MICROS_PER_SECOND + c.nano / 1000
  }

  /** Breaking a time into fields and putting it together again changes nothing. */
  lemma CivilRoundTrip(t: Time)
    requires t >= ZERO_TIME
    ensures ValidCivil(CivilOf(t)) && TimeOf(CivilOf(t)) == t
  {
    var seconds := t / MICROS_PER_SECOND;
    DayNumberOfDate(seconds / SECONDS_PER_DAY);
    var inDay := seconds % SECONDS_PER_DAY;
    assert inDay / 3600 < 24;
    assert inDay == inDay / 3600 * 3600 + inDay / 60 % 60 * 60 + inDay % 60;
    assert t == seconds * MICROS_PER_SECOND + t % MICROS_PER_SECOND;
    assert seconds == seconds / SECONDS_PER_DAY * SECONDS_PER_DAY + inDay;
  }

  lemma {:induction false} YearsGrow(m: nat, n: nat)
    requires m <= n
    ensures DateOf(m).year <= DateOf(n).year
  {
    if m < n {
      YearsGrow(m, n - 1);
    }
  }

  /** Later times do not lie in earlier years. */
  lemma LaterYear(t: Time, later: Time)
    requires ZERO_TIME <= t <= later
    ensures CivilOf(t).date.year <= CivilOf(later).date.year
  {
    YearsGrow(t / MICROS_PER_SECOND / SECONDS_PER_DAY, later / MICROS_PER_SECOND / SECONDS_PER_DAY);
  }

  // ---- the calendar against the Gregorian rules ----

  /** Days before each month of a common year. */
  const MONTH_STARTS: seq<nat> := [0, 31, 59, 90, 120, 151, 181, 212, 243, 273, 304, 334]

  lemma MonthStarts(y: nat, m: nat)
    requires 1 <= m <= 12
    ensures DaysBeforeMonth(y, m) == MONTH_STARTS[m - 1] + if Leap(y) && m > 2 then 1 else 0
  {
    if m > 1 {
      MonthStarts(y, m - 1);
    }
  }

  lemma YearLength(y: nat)
    ensures DaysBeforeMonth(y, 12) + DaysIn(y, 12) == if Leap(y) then 366 else 365
  {
    MonthStarts(y, 12);
  }

  /** Every fourth year has a leap day, but for centuries that 400 does not divide. */
  lemma {:induction false} DaysBeforeYearFormula(y: nat)
    requires y >= 1
    ensures DaysBeforeYear(y) == 365 * (y - 1) + (y - 1) / 4 - (y - 1) / 100 + (y - 1) / 400
  {
    if y > 1 {
      DaysBeforeYearFormula(y - 1);
      YearLength(y - 1);
      LeapDays(y - 1);
    }
  }

  lemma LeapDays(y: nat)
    requires y >= 1
    ensures y / 4 - y / 100 + y / 400 == (y - 1) / 4 - (y - 1) / 100 + (y - 1) / 400 + if Leap(y) then 1 else 0
  {
    assert y / 4 == (y - 1) / 4 + if y % 4 == 0 then 1 else 0;
    assert y / 100 == (y - 1) / 100 + if y % 100 == 0 then 1 else 0;
    assert y / 400 == (y - 1) / 400 + if y % 400 == 0 then 1 else 0;
    Multiples(y);
  }

  lemma Multiples(y: nat)
    ensures (y % 400 == 0 ==> y % 100 == 0) && (y % 100 == 0 ==> y % 4 == 0)
  {
    if y % 100 == 0 {
      assert y == 4 * (25 * (y / 100));
    }
    if y % 400 == 0 {
      assert y == 100 * (4 * (y / 400));
    }
  }

  /** Four hundred years are 146097 days. */
  lemma GregorianCycle(y: nat)
    requires y >= 1
    ensures DaysBeforeYear(y + 400) == DaysBeforeYear(y) + 146_097
  {
    DaysBeforeYearFormula(y);
    DaysBeforeYearFormula(y + 400);
    var n: nat := y - 1;
    assert (n + 400) / 4 == n / 4 + 100;
    assert (n + 400) / 100 == n / 100 + 4;
    assert (n + 400) / 400 == n / 400 + 1;
  }

  /** The date n days after 0001-01-01 is the one whose Gregorian day number is n. */
  lemma DateByRule(n: nat)
    ensures var d := DateOf(n);
      && ValidDate(d)
      && n == 365 * (d.year - 1) + (d.year - 1) / 4 - (d.year - 1) / 100 + (d.year - 1) / 400
              + MONTH_STARTS[d.month - 1] + (if Leap(d.year) && d.month > 2 then 1 else 0) + d.day - 1
  {
    DayNumberOfDate(n);
    DaysBeforeYearFormula(DateOf(n).year);
    MonthStarts(DateOf(n).year, DateOf(n).month);
  }

  /** The fields of a time: whole days, then hours, minutes and seconds of that day, then the rest in nanoseconds. */
  lemma FieldsByRule(t: Time)
    requires t >= ZERO_TIME
    ensures var c := CivilOf(t);
      && c.date == DateOf(t / 86_400_000_000) && c.hour < 24 && c.minute < 60 && c.second < 60
      && t % 86_400_000_000 == (c.hour * 3600 + c.minute * 60 + c.second) * 1_000_000 + c.nano / 1000
      && c.nano % 1000 == 0 && c.nano < 1_000_000_000
  {
    var seconds := t / 1_000_000;
    var inDay := seconds % 86_400;
    assert t / 86_400_000_000 == seconds / 86_400;
    assert t % 86_400_000_000 == inDay * 1_000_000 + t % 1_000_000;
    assert inDay == inDay / 3600 * 3600 + inDay / 60 % 60 * 60 + inDay % 60;
    assert inDay / 3600 < 24;
  }
}
