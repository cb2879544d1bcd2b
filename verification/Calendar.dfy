/** The proleptic Gregorian calendar as day ordinals: day 1 is 1 January of year 1, a Monday.  Months are
    numbered on one line, month 12*y + m - 1 being month m of year y. */
module Calendar {

  datatype Civil = Civil(year: int, month: int, day: int)

  predicate Leap(y: int) { y % 4 == 0 && (y % 100 != 0 || y % 400 == 0) }

  /** Days in month m (0 to 11) of year y. */
  function DaysInMonth(y: int, m: int): (days: int)
    ensures 28 <= days <= 31
  {
    if m == 1 then (if Leap(y) then 29 else 28)
    else if m == 3 || m == 5 || m == 8 || m == 10 then 30
    else 31
  }

  function DaysBeforeYear(y: int): int {
    365 * (y - 1) + (y - 1) / 4 - (y - 1) / 100 + (y - 1) / 400
  }

  function DaysBeforeMonth(y: int, m: nat): int {
    if m == 0 then 0 else DaysBeforeMonth(y, m - 1) + DaysInMonth(y, m - 1)
  }

  function MonthOf(c: Civil): int { 12 * c.year + c.month - 1 }

  function Length(month: int): int { DaysInMonth(month / 12, month % 12) }

  /** The ordinal of the day before a month begins. */
  function Before(month: int): int { DaysBeforeYear(month / 12) + DaysBeforeMonth(month / 12, month % 12) }

  function Ordinal(c: Civil): int { Before(MonthOf(c)) + c.day }

  /** Sunday is 0. */
  function Weekday(ordinal: int): int { ordinal % 7 }

  predicate IsDate(c: Civil) {
    1 <= c.year <= 9999 && 1 <= c.month <= 12 && 1 <= c.day <= DaysInMonth(c.year, c.month - 1)
  }

  /** The lengths of the months. */
  lemma MonthLengths(y: int)
    ensures DaysInMonth(y, 0) == DaysInMonth(y, 2) == DaysInMonth(y, 4) == DaysInMonth(y, 6) == 31
    ensures DaysInMonth(y, 7) == DaysInMonth(y, 9) == DaysInMonth(y, 11) == 31
    ensures DaysInMonth(y, 3) == DaysInMonth(y, 5) == DaysInMonth(y, 8) == DaysInMonth(y, 10) == 30
    ensures DaysInMonth(y, 1) == if (y % 4 == 0 && y % 100 != 0) || y % 400 == 0 then 29 else 28
  {
    CenturiesNest(y);
  }

  /** Where the calendar is anchored: 1 January 1970 was a Thursday. */
  lemma Epoch(day: Civil)
    requires day == Civil(1970, 1, 1)
    ensures Ordinal(day) == 719163 && Weekday(719163) == 4
  {
    FirstOfYear(day.year);
  }

  lemma FirstOfYear(y: int)
    ensures Ordinal(Civil(y, 1, 1)) == DaysBeforeYear(y) + 1
  {
    MonthParts(y, 0);
  }

  lemma MonthParts(y: int, m: int)
    requires 0 <= m < 12
    ensures (12 * y + m) / 12 == y && (12 * y + m) % 12 == m
  {
  }

  lemma EveryFourth(y: int)
    ensures y / 4 - (y - 1) / 4 == if y % 4 == 0 then 1 else 0
  {
  }

  lemma EveryHundredth(y: int)
    ensures y / 100 - (y - 1) / 100 == if y % 100 == 0 then 1 else 0
  {
  }

  lemma EveryFourHundredth(y: int)
    ensures y / 400 - (y - 1) / 400 == if y % 400 == 0 then 1 else 0
  {
    var q, rest := (y - 1) / 400, (y - 1) % 400;
    if rest == 399 {
      assert y == 400 * (q + 1);
    } else {
      assert y == 400 * q + (rest + 1);
    }
  }

  lemma FourHundredthIsHundredth(q: int)
    ensures 400 * q % 100 == 0
  {
    assert 400 * q == 100 * (4 * q);
  }

  lemma HundredthIsFourth(q: int)
    ensures 100 * q % 4 == 0
  {
    assert 100 * q == 4 * (25 * q);
  }

  lemma CenturiesNest(y: int)
    ensures y % 400 == 0 ==> y % 100 == 0
    ensures y % 100 == 0 ==> y % 4 == 0
  {
    if y % 400 == 0 {
      FourHundredthIsHundredth(y / 400);
    }
    if y % 100 == 0 {
      HundredthIsFourth(y / 100);
    }
  }

  lemma YearLength(y: int)
    ensures DaysBeforeYear(y + 1) == DaysBeforeYear(y) + (if Leap(y) then 366 else 365)
  {
    EveryFourth(y);
    EveryHundredth(y);
    EveryFourHundredth(y);
    CenturiesNest(y);
  }

  lemma MonthsFillTheYear(y: int)
    ensures DaysBeforeMonth(y, 12) == if Leap(y) then 366 else 365
  {
    var feb := DaysInMonth(y, 1);
    assert DaysBeforeMonth(y, 1) == 31;
    assert DaysBeforeMonth(y, 3) == 62 + feb;
    assert DaysBeforeMonth(y, 5) == 123 + feb;
    assert DaysBeforeMonth(y, 7) == 184 + feb;
    assert DaysBeforeMonth(y, 9) == 245 + feb;
    assert DaysBeforeMonth(y, 11) == 306 + feb;
  }

  lemma NextParts(month: int)
    ensures month % 12 < 11 ==> (month + 1) / 12 == month / 12 && (month + 1) % 12 == month % 12 + 1
    ensures month % 12 == 11 ==> (month + 1) / 12 == month / 12 + 1 && (month + 1) % 12 == 0
  {
    var y, m := month / 12, month % 12;
    assert month == 12 * y + m;
    if m < 11 {
      MonthParts(y, m + 1);
    } else {
      MonthParts(y + 1, 0);
    }
  }

  /** Each month begins where the previous one ended. */
  lemma NextMonth(month: int)
    ensures Before(month + 1) == Before(month) + Length(month)
  {
    var y, m := month / 12, month % 12;
    NextParts(month);
    if m == 11 {
      MonthsFillTheYear(y);
      YearLength(y);
      assert DaysBeforeMonth(y, 12) == DaysBeforeMonth(y, 11) + DaysInMonth(y, 11);
    } else {
      assert DaysBeforeMonth(y, m + 1) == DaysBeforeMonth(y, m) + DaysInMonth(y, m);
    }
  }

  lemma {:induction false} MonthsAscend(a: int, b: int)
    requires a < b
    ensures Before(a) + Length(a) <= Before(b)
    decreases b - a
  {
    NextMonth(b - 1);
    if a < b - 1 {
      MonthsAscend(a, b - 1);
    }
  }

  /** Later months hold later days. */
  lemma DaysAscend(a: int, i: int, b: int, j: int)
    requires a < b && i <= Length(a) && 1 <= j
    ensures Before(a) + i < Before(b) + j
  {
    MonthsAscend(a, b);
  }

  const LAST: int := Ordinal(Civil(9999, 12, 31))

  /** A day of a month lies past the calendar exactly when the month's year does. */
  lemma PastTheCalendar(month: int, day: int)
    requires 1 <= day <= Length(month)
    ensures month / 12 > 9999 <==> Before(month) + day > LAST
  {
    var december := 12 * 9999 + 11;
    if month > december {
      DaysAscend(december, 31, month, day);
    } else if month < december {
      DaysAscend(month, day, december, 31);
    }
  }
}
