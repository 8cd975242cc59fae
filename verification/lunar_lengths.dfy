/** Month and year lengths decoded from the packed table (getLeapMonth,
    getLunarMonthDays, getLunarYearDays). JavaScript's `>>` and `&` are applied
    here only to table entries, which are non-negative and below 2^17, with
    shift counts 0..17; on such operands they coincide with floor division by
    a power of two and with the remainder. */
module LunarLengths {
  import opened LunarTables

  /** The year of table entry 0; the last entry is for 2100. */
  const FirstYear: int := 1900

  const PowersOfTwo: seq<nat> :=
    [1, 2, 4, 8, 16, 32, 64, 128, 256, 512, 1024, 2048, 4096, 8192, 16384, 32768, 65536, 131072]

  function Pow2(k: nat): (r: nat)
    requires k <= 17
    ensures r >= 1
  {
    PowersOfTwo[k]
  }

  /** `x >> k` for the operands above. */
  function ShiftRight(x: nat, k: nat): nat
    requires k <= 17
  {
    x / Pow2(k)
  }

  /** `(x >> k) & 0x1`. */
  function Bit(x: nat, k: nat): nat
    requires k <= 17
  {
    ShiftRight(x, k) % 2
  }

  /** Shifting right by one and then by k is shifting right by k + 1. */
  lemma ShiftRightTwice(x: nat, k: nat)
    requires k <= 16
    ensures ShiftRight(ShiftRight(x, 1), k) == ShiftRight(x, k + 1)
  {
    var b := Pow2(k);
    assert Pow2(k + 1) == 2 * b;
    var q, r := (x / 2) / b, (x / 2) % b;
    assert x / 2 == b * q + r;
    assert x == (2 * b) * q + (2 * r + x % 2);
    DivUnique(x, 2 * b, q, 2 * r + x % 2);
  }

  lemma DivUnique(x: int, d: int, q: int, r: int)
    requires d > 0 && x == d * q + r && 0 <= r < d
    ensures x / d == q
  {
    var q0, r0 := x / d, x % d;
    assert d * (q0 - q) == r - r0;
    MulSmall(d, q0 - q);
  }

  lemma MulSmall(d: int, k: int)
    requires d > 0 && -d < d * k < d
    ensures k == 0
  {
    MulAtLeast(d, k);
    MulAtLeast(d, -k);
  }

  lemma MulAtLeast(d: int, k: int)
    requires d > 0
    ensures k >= 1 ==> d * k >= d
  {
    if k >= 1 {
      assert d * k == d + d * (k - 1);
    }
  }

  /** Whether LUNAR_INFO has an entry for `year`. */
  predicate InTable(year: int)
  {
    0 <= year - FirstYear < LunarInfoLength
  }

  /** getLeapMonth: the low nibble of the year's entry, 0 outside the table. */
  function LeapMonth(year: int): (r: nat)
    ensures r < 16
    ensures !InTable(year) ==> r == 0
  {
    var yearIndex := year - FirstYear;
    if yearIndex < 0 || yearIndex >= LunarInfoLength then 0 else LunarInfo(yearIndex) % 16
  }

  /** Every leap month in the table is one of the months 2..11. */
  lemma LeapMonthRange(year: int)
    ensures LeapMonth(year) <= 11 && LeapMonth(year) != 1
  {
    if InTable(year) {
      TableLeapNibbles(year - FirstYear);
    }
  }

  /** The bit of the year's entry that decides the length of (month,
      isLeapMonth): bit 16 - month, but bit 17 - month for a regular month after
      the leap month and for the leap month itself, because the source shifts
      the entry right by one in exactly those cases. */
  function MonthBit(year: int, month: int, isLeapMonth: bool): (k: nat)
    requires 1 <= month <= 16
    ensures k <= 16
    ensures k == 16 - month || k == 17 - month
    ensures LeapMonth(year) == 0 || month < LeapMonth(year) ==> k == 16 - month
  {
    var leapMonth := LeapMonth(year);
    if (!isLeapMonth && leapMonth > 0 && month > leapMonth) || (isLeapMonth && month == leapMonth)
    then 17 - month
    else 16 - month
  }

  /** Length of a lunar month as the table encodes it: the sentinel 30 when the
      year is not in the table or a leap month is asked for that the year does
      not have, otherwise 30 or 29 as MonthBit is set or clear. */
  function MonthDays(year: int, month: int, isLeapMonth: bool): (r: int)
    requires 1 <= month <= 16
    ensures r == 29 || r == 30
  {
    if !InTable(year) || (isLeapMonth && month != LeapMonth(year)) then 30
    else if Bit(LunarInfo(year - FirstYear), MonthBit(year, month, isLeapMonth)) == 1 then 30
    else 29
  }

  /** getLunarMonthDays, step by step as the source computes it; the shift
      count 16 - month is non-negative for every month it is called with. */
  method GetLunarMonthDays(year: int, month: int, isLeapMonth: bool) returns (days: int)
    requires 1 <= month <= 16
    ensures days == MonthDays(year, month, isLeapMonth)
  {
    var yearIndex := year - FirstYear;
    if yearIndex < 0 || yearIndex >= LunarInfoLength {
      return 30;
    }
    var monthInfo := LunarInfo(yearIndex);
    var leapMonth := LeapMonth(year);
    if isLeapMonth && leapMonth != month {
      return 30;
    }
    if (!isLeapMonth && leapMonth > 0 && month > leapMonth) || (isLeapMonth && month == leapMonth) {
      ShiftRightTwice(monthInfo, 16 - month);
      monthInfo := ShiftRight(monthInfo, 1);
    }
    days := if Bit(monthInfo, 16 - month) == 1 then 30 else 29;
  }

  /** Total length of the regular months 1..n of `year`. */
  function MonthsTotal(year: int, n: nat): (r: int)
    requires n <= 16
    ensures 29 * n <= r <= 30 * n
  {
    if n == 0 then 0 else MonthsTotal(year, n - 1) + MonthDays(year, n, false)
  }

  /** Length of a lunar year: its twelve regular months plus its leap month. */
  function YearDays(year: int): (r: int)
    ensures 348 <= r <= 390
  {
    var leapMonth := LeapMonth(year);
    MonthsTotal(year, 12) + (if leapMonth > 0 then MonthDays(year, leapMonth, true) else 0)
  }

  /** getLunarYearDays: accumulates the month lengths in a loop. */
  method GetLunarYearDays(year: int) returns (days: int)
    ensures days == YearDays(year)
  {
    days := 0;
    var leapMonth := LeapMonth(year);
    for i := 1 to 13
      invariant days == MonthsTotal(year, i - 1)
    {
      var d := GetLunarMonthDays(year, i, false);
      days := days + d;
    }
    if leapMonth > 0 {
      var d := GetLunarMonthDays(year, leapMonth, true);
      days := days + d;
    }
  }

  /** Outside the table every month reads as the 30-day sentinel. */
  lemma {:induction false} OutOfTableMonthsTotal(year: int, n: nat)
    requires !InTable(year) && n <= 16
    ensures MonthsTotal(year, n) == 30 * n
  {
    if n > 0 {
      OutOfTableMonthsTotal(year, n - 1);
    }
  }

  /** A year outside 1900..2100 is counted as exactly 360 days. */
  lemma OutOfTableYearDays(year: int)
    requires !InTable(year)
    ensures YearDays(year) == 360
  {
    OutOfTableMonthsTotal(year, 12);
  }

  /** A year of the table has a leap month exactly when it is longer than 360
      days. */
  lemma LeapYearIsLong(year: int)
    requires InTable(year)
    ensures LeapMonth(year) > 0 <==> YearDays(year) > 360
  {
  }

  /** 1900, the epoch's year, has 385 days. */
  lemma YearDays1900()
    ensures YearDays(1900) == 385
  {
    Entry1900();
    Months1900();
    assert MonthDays(1900, 8, true) == 30;
  }

  /** The table entry of 1900 and its leap month. */
  lemma Entry1900()
    ensures LunarInfo(0) == 0x04bd8 && LeapMonth(1900) == 8
  {
    LunarInfoInRow(0);
    assert LunarInfo(0) == 0x04bd8;
  }

  /** The regular months of 1900, two at a time. */
  lemma Months1900()
    ensures MonthsTotal(1900, 12) == 355
  {
    Entry1900();
    assert MonthsTotal(1900, 2) == 59;
    assert MonthsTotal(1900, 4) == 117;
    assert MonthsTotal(1900, 6) == 176;
    assert MonthsTotal(1900, 8) == 236;
    assert MonthsTotal(1900, 10) == 296;
  }

  /** 2012 has 386 days: as the code decodes the table, a year can exceed 385. */
  lemma YearDays2012()
    ensures YearDays(2012) == 386
  {
    Entry2012();
    Months2012();
  }

  /** The table entry of 2012 and its leap month. */
  lemma Entry2012()
    ensures LunarInfo(112) == 0x0baa4 && LeapMonth(2012) == 4
  {
    LunarInfoInRow(112);
    assert LunarInfo(112) == 0x0baa4;
  }

  /** The regular months of 2012, two at a time. */
  lemma Months2012()
    ensures MonthsTotal(2012, 12) == 356
  {
    Entry2012();
    assert MonthsTotal(2012, 2) == 59;
    assert MonthsTotal(2012, 4) == 119;
    assert MonthsTotal(2012, 6) == 179;
    assert MonthsTotal(2012, 8) == 238;
    assert MonthsTotal(2012, 10) == 297;
  }
}
