/** The two walks of solarToLunar: the year walk, which looks for the first
    lunar year from 1900 on that is longer than the day offset (it never
    subtracts the years it passes), and the month walk, which splits an
    offset inside a year into a month, a leap flag and a day. */
module LunarWalk {
  import opened LunarTables
  import opened LunarLengths

  /** The year the walk stops at for `offset`: the least year from 1900 on
      whose length exceeds the offset. */
  predicate IsLunarYearOf(offset: int, year: int)
  {
    year >= FirstYear && offset < YearDays(year) &&
    forall z :: FirstYear <= z < year ==> YearDays(z) <= offset
  }

  /** No year from 1900 on is longer than `offset`: the walk never stops. */
  ghost predicate NoLunarYear(offset: int)
  {
    forall y :: y >= FirstYear ==> YearDays(y) <= offset
  }

  /** How the year walk ends. */
  datatype YearWalk = Stops(year: int) | WalksForever

  /** The year walk. The source loops for ever when the offset is at least
      the length of every year; past 2100 every year is 360 days long, so
      once the walk reaches 2101 with the offset still at least 360 it
      reports WalksForever instead of going on. */
  method FindLunarYear(offset: int) returns (r: YearWalk)
    ensures r.Stops? ==> IsLunarYearOf(offset, r.year)
    ensures r.WalksForever? <==> NoLunarYear(offset)
  {
    var lunarYear := FirstYear;
    var daysInLunarYear := GetLunarYearDays(lunarYear);
    while offset >= daysInLunarYear
      invariant FirstYear <= lunarYear <= FirstYear + LunarInfoLength
      invariant daysInLunarYear == YearDays(lunarYear)
      invariant forall z :: FirstYear <= z < lunarYear ==> YearDays(z) <= offset
      decreases FirstYear + LunarInfoLength - lunarYear
    {
      if lunarYear == FirstYear + LunarInfoLength {
        BeyondTableNoYear(offset, lunarYear);
        return WalksForever;
      }
      AllShorterStep(offset, lunarYear);
      lunarYear := lunarYear + 1;
      daysInLunarYear := GetLunarYearDays(lunarYear);
    }
    r := Stops(lunarYear);
    assert !(YearDays(lunarYear) <= offset);
  }

  /** One more year no longer than the offset extends the walk's invariant. */
  lemma AllShorterStep(offset: int, year: int)
    requires forall z :: FirstYear <= z < year ==> YearDays(z) <= offset
    requires YearDays(year) <= offset
    ensures forall z :: FirstYear <= z < year + 1 ==> YearDays(z) <= offset
  {
  }

  /** Once the walk is past the table with every earlier year no longer than
      the offset, it can never stop. */
  lemma BeyondTableNoYear(offset: int, from: int)
    requires from == FirstYear + LunarInfoLength && YearDays(from) <= offset
    requires forall z :: FirstYear <= z < from ==> YearDays(z) <= offset
    ensures NoLunarYear(offset)
  {
    OutOfTableYearDays(from);
    forall y | y >= FirstYear
      ensures YearDays(y) <= offset
    {
      if y >= from {
        OutOfTableYearDays(y);
      }
    }
  }

  /** The year the walk stops at is unique. */
  lemma LunarYearUnique(offset: int, y1: int, y2: int)
    requires IsLunarYearOf(offset, y1) && IsLunarYearOf(offset, y2)
    ensures y1 == y2
  {
  }

  /** The walk stays at 1900 exactly when the offset is shorter than 1900's
      385 days; in particular a negative offset leaves the year at 1900. */
  lemma StaysInFirstYear(offset: int)
    ensures IsLunarYearOf(offset, FirstYear) <==> offset < 385
  {
    YearDays1900();
  }

  /** An offset below 360 makes the walk stop, at 2101 at the latest. */
  lemma SmallOffsetStops(offset: int)
    requires offset < 360
    ensures exists y :: y <= FirstYear + LunarInfoLength && IsLunarYearOf(offset, y)
  {
    SearchFrom(offset, FirstYear);
  }

  lemma {:induction false} SearchFrom(offset: int, from: int)
    requires offset < 360 && FirstYear <= from <= FirstYear + LunarInfoLength
    requires forall z :: FirstYear <= z < from ==> YearDays(z) <= offset
    ensures exists y :: y <= FirstYear + LunarInfoLength && IsLunarYearOf(offset, y)
    decreases FirstYear + LunarInfoLength - from
  {
    if offset < YearDays(from) {
      assert IsLunarYearOf(offset, from);
    } else {
      if from == FirstYear + LunarInfoLength {
        OutOfTableYearDays(from);
        assert false;
      }
      AllShorterStep(offset, from);
      SearchFrom(offset, from + 1);
    }
  }

  /** No year is longer than 390 days, so an offset of 390 or more (every
      date from 1902 on) makes the walk run for ever. */
  lemma LargeOffsetNeverStops(offset: int)
    requires offset >= 390
    ensures NoLunarYear(offset)
  {
  }

  /** The offset inside the year as solarToLunar computes it,
      `offset - (getLunarYearDays(year - 1) - getLunarYearDays(1900) + 0)`:
      not the days before `year`, but the offset shifted by the difference
      between the previous year's length and 1900's. For a year after a year
      outside the table (1900 itself, and 2102 on) the previous year counts
      as 360 days. */
  function InYearOffset(offset: int, year: int): (r: int)
    ensures !InTable(year - 1) ==> r == offset - 360 + YearDays(FirstYear)
    ensures offset - 390 + YearDays(FirstYear) <= r <= offset - 348 + YearDays(FirstYear)
  {
    assert !InTable(year - 1) ==> YearDays(year - 1) == 360 by {
      if !InTable(year - 1) {
        OutOfTableYearDays(year - 1);
      }
    }
    offset - (YearDays(year - 1) - YearDays(FirstYear) + 0)
  }

  /** At the epoch the in-year offset is 25, not 0: 1899 lies outside the
      table and counts as 360 days against 1900's 385. */
  lemma EpochInYearOffset()
    ensures InYearOffset(0, FirstYear) == 25
  {
    YearDays1900();
    OutOfTableYearDays(FirstYear - 1);
  }

  /** Days of `year` before the first day of (month, isLeapMonth), in the
      order the month walk visits them: regular month 1, 2, ..., with the
      leap month right after the regular month of the same number. */
  function DaysBefore(year: int, month: int, isLeapMonth: bool): int
    requires 1 <= month <= 13
  {
    var leapMonth := LeapMonth(year);
    MonthsTotal(year, month - 1)
      + (if 0 < leapMonth < month then MonthDays(year, leapMonth, true) else 0)
      + (if isLeapMonth then MonthDays(year, month, false) else 0)
  }

  /** (month, isLeapMonth, day) is the day of `year` at `offsetInYear`. */
  predicate IsPositionOf(year: int, offsetInYear: int, month: int, isLeapMonth: bool, day: int)
  {
    1 <= month <= 12 && (isLeapMonth ==> month == LeapMonth(year)) &&
    1 <= day <= MonthDays(year, month, isLeapMonth) &&
    DaysBefore(year, month, isLeapMonth) + day - 1 == offsetInYear
  }

  /** The regular month after `month` starts once `month` and, when
      `month` is the leap month, its leap month are over. */
  lemma NextMonthStart(year: int, month: int)
    requires 1 <= month <= 12
    ensures DaysBefore(year, month + 1, false) ==
      DaysBefore(year, month, false) + MonthDays(year, month, false)
        + (if month == LeapMonth(year) then MonthDays(year, month, true) else 0)
  {
  }

  /** Past the twelfth month and the leap month the year is over. */
  lemma YearEnd(year: int)
    ensures DaysBefore(year, 13, false) == YearDays(year)
  {
    LeapMonthRange(year);
  }

  /** The month walk of solarToLunar, with its early exit in the leap month. */
  method ResolveMonthDay(year: int, offsetInYear: int) returns (month: int, isLeapMonth: bool, day: int)
    requires 0 <= offsetInYear < YearDays(year)
    ensures IsPositionOf(year, offsetInYear, month, isLeapMonth, day)
  {
    YearEnd(year);
    var lunarMonth := 1;
    var daysInLunarMonth := GetLunarMonthDays(year, lunarMonth, false);
    var leapMonth := LeapMonth(year);
    var isLeap := false;
    var rest := offsetInYear;
    while rest >= daysInLunarMonth
      invariant 1 <= lunarMonth <= 12 && !isLeap
      invariant daysInLunarMonth == MonthDays(year, lunarMonth, false)
      invariant 0 <= rest && DaysBefore(year, lunarMonth, false) + rest == offsetInYear
      decreases rest
    {
      NextMonthStart(year, lunarMonth);
      rest := rest - daysInLunarMonth;
      if lunarMonth == leapMonth {
        if !isLeap {
          isLeap := true;
          daysInLunarMonth := GetLunarMonthDays(year, lunarMonth, true);
          if rest < daysInLunarMonth {
            break;
          }
          rest := rest - daysInLunarMonth;
        }
        isLeap := false;
      }
      lunarMonth := lunarMonth + 1;
      daysInLunarMonth := GetLunarMonthDays(year, lunarMonth, false);
    }
    month, isLeapMonth, day := lunarMonth, isLeap, rest + 1;
  }

  /** Adding months never shortens the total. */
  lemma {:induction false} MonthsTotalMonotone(year: int, a: nat, b: nat)
    requires a <= b <= 16
    ensures MonthsTotal(year, a) <= MonthsTotal(year, b)
    decreases b - a
  {
    if a < b {
      MonthsTotalMonotone(year, a, b - 1);
    }
  }

  /** A month that the walk visits earlier ends no later than a later one
      begins. */
  lemma {:induction false} EarlierEndsFirst(year: int, m1: int, l1: bool, m2: int, l2: bool)
    requires 1 <= m1 <= 12 && 1 <= m2 <= 12
    requires l1 ==> m1 == LeapMonth(year)
    requires m1 < m2 || (m1 == m2 && !l1 && l2)
    ensures DaysBefore(year, m1, l1) + MonthDays(year, m1, l1) <= DaysBefore(year, m2, l2)
  {
    if m1 < m2 {
      var leapMonth := LeapMonth(year);
      var leapDays := if leapMonth > 0 then MonthDays(year, leapMonth, true) else 0;
      var leapBefore1 := if 0 < leapMonth <= m1 then leapDays else 0;
      var leapBefore2 := if 0 < leapMonth < m2 then leapDays else 0;
      MonthEnd(year, m1, l1);
      MonthsTotalMonotone(year, m1, m2 - 1);
      MonthStart(year, m2, l2);
      SumsOrdered(MonthsTotal(year, m1), MonthsTotal(year, m2 - 1), leapBefore1, leapBefore2);
    } else {
      assert DaysBefore(year, m2, l2) == DaysBefore(year, m1, false) + MonthDays(year, m1, false);
    }
  }

  lemma SumsOrdered(a: int, b: int, c: int, d: int)
    requires a <= b && c <= d
    ensures a + c <= b + d
  {
  }

  /** Days of the year up to the end of (month, isLeapMonth): at most the
      regular months 1..month and the leap month if it is one of them. */
  lemma MonthEnd(year: int, month: int, isLeapMonth: bool)
    requires 1 <= month <= 12
    requires isLeapMonth ==> month == LeapMonth(year)
    ensures var leapMonth := LeapMonth(year);
      DaysBefore(year, month, isLeapMonth) + MonthDays(year, month, isLeapMonth) <=
        MonthsTotal(year, month) + (if 0 < leapMonth <= month then MonthDays(year, leapMonth, true) else 0)
  {
  }

  /** Days of the year before (month, isLeapMonth): at least the regular
      months before it and the leap month if it comes before. */
  lemma MonthStart(year: int, month: int, isLeapMonth: bool)
    requires 1 <= month <= 12
    ensures var leapMonth := LeapMonth(year);
      MonthsTotal(year, month - 1) + (if 0 < leapMonth < month then MonthDays(year, leapMonth, true) else 0) <=
        DaysBefore(year, month, isLeapMonth)
  {
  }

  /** The month walk's answer is the only position of the offset. */
  lemma PositionUnique(year: int, offsetInYear: int, m1: int, l1: bool, d1: int, m2: int, l2: bool, d2: int)
    requires IsPositionOf(year, offsetInYear, m1, l1, d1)
    requires IsPositionOf(year, offsetInYear, m2, l2, d2)
    ensures m1 == m2 && l1 == l2 && d1 == d2
  {
    if m1 < m2 || (m1 == m2 && !l1 && l2) {
      EarlierEndsFirst(year, m1, l1, m2, l2);
    } else if m2 < m1 || (m1 == m2 && l1 && !l2) {
      EarlierEndsFirst(year, m2, l2, m1, l1);
    }
  }

  /** The epoch, offset 0, falls in 1900 at its in-year offset 25, which is
      day 26 of the first month. */
  lemma EpochPosition()
    ensures IsLunarYearOf(0, FirstYear)
    ensures IsPositionOf(FirstYear, InYearOffset(0, FirstYear), 1, false, 26)
  {
    YearDays1900();
    EpochInYearOffset();
    EpochDay();
  }

  /** Day 26 of the first month of 1900 lies 25 days into the year. */
  lemma EpochDay()
    ensures IsPositionOf(FirstYear, 25, 1, false, 26)
  {
    Entry1900();
    assert MonthDays(FirstYear, 1, false) == 29;
  }
}
