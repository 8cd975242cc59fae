/** solarToLunar and the two formatters built on it. The Gregorian date
    enters as its day offset from 1900-01-31 and its 0-based month and its
    day of the month. */
module LunarConversion {
  import opened LunarTables
  import opened LunarLengths
  import opened LunarWalk
  import opened LunarNames

  /** The record solarToLunar returns. */
  datatype LunarDate = LunarDate(
    year: int, month: int, day: int, isLeapMonth: bool,
    yearName: string, monthName: string, dayName: string, zodiac: string,
    festival: string, solarTerm: string)

  /** How a call ends: with a value; with a year and in-year offset for which
      the source would index its label lists out of range and put JavaScript's
      `undefined` into the labels; or never, when the year walk does not
      stop. */
  datatype Outcome<T> = Done(value: T) | UndefinedLabels(year: int, offsetInYear: int) | NeverReturns

  /** `d` is what solarToLunar returns for the offset and the Gregorian month
      and day: the walk's year, the position of the in-year offset in that
      year, and the labels of both. */
  predicate ConvertsTo(offset: int, solarMonth: int, solarDay: int, d: LunarDate)
    ensures ConvertsTo(offset, solarMonth, solarDay, d) ==>
      d.year >= FirstYear && 1 <= d.month <= 12 && 1 <= d.day <= 30
  {
    IsLunarYearOf(offset, d.year) &&
    IsPositionOf(d.year, InYearOffset(offset, d.year), d.month, d.isLeapMonth, d.day) &&
    d.yearName == YearName(d.year) && d.zodiac == Zodiac(d.year) &&
    d.monthName == MonthName(d.month, d.isLeapMonth) && d.dayName == DayName(d.day) &&
    d.festival == Festival(d.month, d.day) && d.solarTerm == SolarTerm(solarMonth, solarDay)
  }

  /** The walk stops at `year` but the in-year offset lies outside it. */
  predicate OutOfYear(offset: int, year: int, offsetInYear: int)
  {
    IsLunarYearOf(offset, year) && offsetInYear == InYearOffset(offset, year) &&
    !(0 <= offsetInYear < YearDays(year))
  }

  /** The record assembled from the walks' results is the conversion. */
  lemma Assembled(offset: int, solarMonth: int, solarDay: int, year: int, month: int, isLeapMonth: bool, day: int)
    requires IsLunarYearOf(offset, year)
    requires IsPositionOf(year, InYearOffset(offset, year), month, isLeapMonth, day)
    ensures ConvertsTo(offset, solarMonth, solarDay, LunarDate(
      year, month, day, isLeapMonth,
      YearName(year), MonthName(month, isLeapMonth), DayName(day), Zodiac(year),
      Festival(month, day), SolarTerm(solarMonth, solarDay)))
  {
  }

  /** The in-year offset solarToLunar computes from the two year lengths it
      asks for is InYearOffset. */
  lemma InYearOffsetComputed(offset: int, year: int, previousYearDays: int, firstYearDays: int)
    requires previousYearDays == YearDays(year - 1) && firstYearDays == YearDays(FirstYear)
    ensures offset - (previousYearDays - firstYearDays + 0) == InYearOffset(offset, year)
  {
  }

  /** solarToLunar. */
  method SolarToLunar(offset: int, solarMonth: int, solarDay: int) returns (r: Outcome<LunarDate>)
    ensures r.Done? ==> ConvertsTo(offset, solarMonth, solarDay, r.value)
    ensures r.UndefinedLabels? ==> OutOfYear(offset, r.year, r.offsetInYear)
    ensures r.NeverReturns? <==> NoLunarYear(offset)
  {
    var walk := FindLunarYear(offset);
    if walk.WalksForever? {
      return NeverReturns;
    }
    var lunarYear := walk.year;
    var daysInLunarYear := GetLunarYearDays(lunarYear);
    var previousYearDays := GetLunarYearDays(lunarYear - 1);
    var firstYearDays := GetLunarYearDays(FirstYear);
    var offsetInYear := offset - (previousYearDays - firstYearDays + 0);
    InYearOffsetComputed(offset, lunarYear, previousYearDays, firstYearDays);
    if !(0 <= offsetInYear < daysInLunarYear) {
      return UndefinedLabels(lunarYear, offsetInYear);
    }
    var lunarMonth, isLeapMonth, lunarDay := ResolveMonthDay(lunarYear, offsetInYear);
    Assembled(offset, solarMonth, solarDay, lunarYear, lunarMonth, isLeapMonth, lunarDay);
    var festival := Festival(lunarMonth, lunarDay);
    var solarTerm := SolarTerm(solarMonth, solarDay);
    r := Done(LunarDate(
      lunarYear, lunarMonth, lunarDay, isLeapMonth,
      YearName(lunarYear), MonthName(lunarMonth, isLeapMonth), DayName(lunarDay), Zodiac(lunarYear),
      festival, solarTerm));
  }

  /** The conversion is a function of its inputs: at most one record
      satisfies ConvertsTo. */
  lemma ConversionUnique(offset: int, solarMonth: int, solarDay: int, a: LunarDate, b: LunarDate)
    requires ConvertsTo(offset, solarMonth, solarDay, a)
    requires ConvertsTo(offset, solarMonth, solarDay, b)
    ensures a == b
  {
    LunarYearUnique(offset, a.year, b.year);
    var o := InYearOffset(offset, a.year);
    PositionUnique(a.year, o, a.month, a.isLeapMonth, a.day, b.month, b.isLeapMonth, b.day);
  }

  /** Offsets shorter than 1900: they convert exactly from -25 to 359. From
      360 to 384 the in-year offset runs past the year's 385 days. */
  lemma FirstYearConverts(offset: int)
    requires offset < 385
    ensures IsLunarYearOf(offset, FirstYear)
    ensures 0 <= InYearOffset(offset, FirstYear) < YearDays(FirstYear) <==> -25 <= offset < 360
  {
    StaysInFirstYear(offset);
    EpochInYearOffset();
    YearDays1900();
  }

  /** The epoch 1900-01-31 (offset 0, month 0, day 31) converts to the 26th
      of the first month of 1900, 甲子, year of the rat, with no festival and
      no solar term. */
  lemma EpochConversion()
    ensures ConvertsTo(0, 0, 31, LunarDate(1900, 1, 26, false, "甲子年", "正月", "廿六", "鼠", "", ""))
  {
    EpochPosition();
    EpochLabels();
  }

  /** The labels of 正月廿六 1900 on 31 January. */
  lemma EpochLabels()
    ensures YearName(1900) == "甲子年" && Zodiac(1900) == "鼠"
    ensures MonthName(1, false) == "正月" && DayName(26) == "廿六"
    ensures Festival(1, 26) == "" && SolarTerm(0, 31) == ""
  {
    NamedYears();
    FestivalDays(1, 26);
  }

  /** " 【x】" when x is not empty, "" otherwise. */
  function Bracketed(x: string): string
  {
    if x != "" then " 【" + x + "】" else ""
  }

  /** " | x" when x is not empty, "" otherwise. */
  function Piped(x: string): string
  {
    if x != "" then " | " + x else ""
  }

  /** getLunarDateString's text for a record. */
  function LongForm(d: LunarDate): (r: string)
    ensures |r| >= |d.yearName| + |d.zodiac| + |d.monthName| + |d.dayName| + 3
    ensures r[..|d.yearName|] == d.yearName
    ensures d.solarTerm != "" ==>
      |r| > |d.solarTerm| + 3 && r[|r| - |d.solarTerm| - 1..] == d.solarTerm + "】"
    ensures d.festival == "" && d.solarTerm == "" ==> r[|r| - |d.dayName|..] == d.dayName
  {
    d.yearName + " " + d.zodiac + "年 " + d.monthName + d.dayName + Bracketed(d.festival) + Bracketed(d.solarTerm)
  }

  /** getShortLunarDateString's text for a record. */
  function ShortForm(d: LunarDate): (r: string)
    ensures |r| >= |d.monthName| + |d.dayName| + 2
    ensures r[..2] == "农历"
    ensures d.solarTerm != "" ==>
      |r| > |d.solarTerm| + 3 && r[|r| - |d.solarTerm| - 3..] == " | " + d.solarTerm
    ensures d.festival == "" && d.solarTerm == "" ==> r[|r| - |d.dayName|..] == d.dayName
  {
    "农历" + d.monthName + d.dayName + Piped(d.festival) + Piped(d.solarTerm)
  }

  /** getLunarDateString: the conversion, then the long text. */
  method GetLunarDateString(offset: int, solarMonth: int, solarDay: int) returns (r: Outcome<string>)
    ensures r.Done? ==> exists d :: ConvertsTo(offset, solarMonth, solarDay, d) && r.value == LongForm(d)
    ensures r.UndefinedLabels? ==> OutOfYear(offset, r.year, r.offsetInYear)
    ensures r.NeverReturns? <==> NoLunarYear(offset)
  {
    var lunar := SolarToLunar(offset, solarMonth, solarDay);
    match lunar
    case NeverReturns => return NeverReturns;
    case UndefinedLabels(y, o) => return UndefinedLabels(y, o);
    case Done(d) =>
      var head := d.yearName + " " + d.zodiac + "年 " + d.monthName + d.dayName;
      var result := head;
      if d.festival != "" {
        result := result + (" 【" + d.festival + "】");
      }
      assert result == head + Bracketed(d.festival);
      var withFestival := result;
      if d.solarTerm != "" {
        result := result + (" 【" + d.solarTerm + "】");
      }
      assert result == withFestival + Bracketed(d.solarTerm);
      r := Done(result);
  }

  /** getShortLunarDateString: the conversion, then the short text. */
  method GetShortLunarDateString(offset: int, solarMonth: int, solarDay: int) returns (r: Outcome<string>)
    ensures r.Done? ==> exists d :: ConvertsTo(offset, solarMonth, solarDay, d) && r.value == ShortForm(d)
    ensures r.UndefinedLabels? ==> OutOfYear(offset, r.year, r.offsetInYear)
    ensures r.NeverReturns? <==> NoLunarYear(offset)
  {
    var lunar := SolarToLunar(offset, solarMonth, solarDay);
    match lunar
    case NeverReturns => return NeverReturns;
    case UndefinedLabels(y, o) => return UndefinedLabels(y, o);
    case Done(d) =>
      var head := "农历" + d.monthName + d.dayName;
      var result := head;
      if d.festival != "" {
        result := result + (" | " + d.festival);
      }
      assert result == head + Piped(d.festival);
      var withFestival := result;
      if d.solarTerm != "" {
        result := result + (" | " + d.solarTerm);
      }
      assert result == withFestival + Piped(d.solarTerm);
      r := Done(result);
  }

  /** Number of occurrences of `c` in `s`. */
  function Occurrences(c: char, s: string): nat
  {
    if |s| == 0 then 0 else (if s[0] == c then 1 else 0) + Occurrences(c, s[1..])
  }

  /** Occurrences add up over a concatenation. */
  lemma {:induction false} OccurrencesConcat(c: char, s: string, t: string)
    ensures Occurrences(c, s + t) == Occurrences(c, s) + Occurrences(c, t)
    decreases |s|
  {
    if |s| == 0 {
      assert s + t == t;
    } else {
      assert (s + t)[1..] == s[1..] + t;
      OccurrencesConcat(c, s[1..], t);
    }
  }

  /** No character of `x` is one of the formatters' markers. */
  predicate Plain(x: string)
  {
    forall i | 0 <= i < |x| :: x[i] != '【' && x[i] != '】' && x[i] != '|'
  }

  /** A character that does not occur is counted zero times. */
  lemma {:induction false} AbsentNotCounted(c: char, s: string)
    requires forall i | 0 <= i < |s| :: s[i] != c
    ensures Occurrences(c, s) == 0
    decreases |s|
  {
    if |s| > 0 {
      assert forall i | 0 <= i < |s| - 1 :: s[1..][i] == s[i + 1];
      AbsentNotCounted(c, s[1..]);
    }
  }

  predicate PlainLabels(d: LunarDate)
  {
    Plain(d.yearName) && Plain(d.zodiac) && Plain(d.monthName) && Plain(d.dayName) &&
    Plain(d.festival) && Plain(d.solarTerm)
  }

  /** The number of 【 in the long text is the number of annotations, one for
      a festival and one for a solar term. */
  lemma LongFormAnnotations(d: LunarDate)
    requires PlainLabels(d)
    ensures Occurrences('【', LongForm(d)) ==
      (if d.festival != "" then 1 else 0) + (if d.solarTerm != "" then 1 else 0)
  {
    var c := '【';
    AbsentNotCounted(c, d.yearName);
    AbsentNotCounted(c, d.zodiac);
    AbsentNotCounted(c, d.monthName);
    AbsentNotCounted(c, d.dayName);
    var head := d.yearName + " " + d.zodiac + "年 " + d.monthName + d.dayName;
    OccurrencesConcat(c, d.yearName, " ");
    OccurrencesConcat(c, d.yearName + " ", d.zodiac);
    OccurrencesConcat(c, d.yearName + " " + d.zodiac, "年 ");
    OccurrencesConcat(c, d.yearName + " " + d.zodiac + "年 ", d.monthName);
    OccurrencesConcat(c, d.yearName + " " + d.zodiac + "年 " + d.monthName, d.dayName);
    BracketedOccurrences(d.festival);
    BracketedOccurrences(d.solarTerm);
    OccurrencesConcat(c, head, Bracketed(d.festival));
    OccurrencesConcat(c, head + Bracketed(d.festival), Bracketed(d.solarTerm));
  }

  lemma BracketedOccurrences(x: string)
    requires Plain(x)
    ensures Occurrences('【', Bracketed(x)) == if x != "" then 1 else 0
  {
    if x != "" {
      AbsentNotCounted('【', x);
      OccurrencesConcat('【', " 【", x);
      OccurrencesConcat('【', " 【" + x, "】");
    }
  }

  /** The number of | in the short text is the number of annotations. */
  lemma ShortFormAnnotations(d: LunarDate)
    requires PlainLabels(d)
    ensures Occurrences('|', ShortForm(d)) ==
      (if d.festival != "" then 1 else 0) + (if d.solarTerm != "" then 1 else 0)
  {
    var c := '|';
    AbsentNotCounted(c, d.monthName);
    AbsentNotCounted(c, d.dayName);
    var head := "农历" + d.monthName + d.dayName;
    OccurrencesConcat(c, "农历", d.monthName);
    OccurrencesConcat(c, "农历" + d.monthName, d.dayName);
    PipedOccurrences(d.festival);
    PipedOccurrences(d.solarTerm);
    OccurrencesConcat(c, head, Piped(d.festival));
    OccurrencesConcat(c, head + Piped(d.festival), Piped(d.solarTerm));
  }

  lemma PipedOccurrences(x: string)
    requires Plain(x)
    ensures Occurrences('|', Piped(x)) == if x != "" then 1 else 0
  {
    if x != "" {
      AbsentNotCounted('|', x);
      OccurrencesConcat('|', " | ", x);
    }
  }

  lemma PlainConcat(x: string, y: string)
    requires Plain(x) && Plain(y)
    ensures Plain(x + y)
  {
    assert forall i | |x| <= i < |x + y| :: (x + y)[i] == y[i - |x|];
  }

  lemma PlainYearLabels()
    ensures forall i | 0 <= i < |CelestialStems| :: Plain(CelestialStems[i])
    ensures forall i | 0 <= i < |TerrestrialBranches| :: Plain(TerrestrialBranches[i])
    ensures forall i | 0 <= i < |ChineseZodiac| :: Plain(ChineseZodiac[i])
  {
  }

  lemma PlainMonthDayLabels()
    ensures forall i | 0 <= i < |LunarMonths| :: Plain(LunarMonths[i])
    ensures forall i | 0 <= i < |LunarDays| :: Plain(LunarDays[i])
  {
  }

  lemma PlainFestivals()
    ensures forall key | key in TraditionalFestivals :: Plain(TraditionalFestivals[key])
  {
  }

  lemma PlainYearName(year: int)
    requires year >= 1900
    ensures Plain(YearName(year)) && Plain(Zodiac(year))
  {
    PlainYearLabels();
    var y := year - 1900;
    PlainConcat(CelestialStems[y % 10], TerrestrialBranches[y % 12]);
    PlainConcat(CelestialStems[y % 10] + TerrestrialBranches[y % 12], "年");
  }

  lemma PlainMonthDayNames(month: int, isLeapMonth: bool, day: int)
    requires 1 <= month <= 12 && 1 <= day <= 30
    ensures Plain(MonthName(month, isLeapMonth)) && Plain(DayName(day)) && Plain(Festival(month, day))
  {
    PlainMonthDayLabels();
    PlainFestivals();
    PlainConcat(if isLeapMonth then "闰" else "", LunarMonths[month - 1]);
    PlainConcat((if isLeapMonth then "闰" else "") + LunarMonths[month - 1], "月");
  }

  lemma PlainSolarTerm(solarMonth: int, solarDay: int)
    ensures Plain(SolarTerm(solarMonth, solarDay))
  {
  }

  /** Every label of a converted date is free of the markers. */
  lemma ConvertedLabelsPlain(offset: int, solarMonth: int, solarDay: int, d: LunarDate)
    requires ConvertsTo(offset, solarMonth, solarDay, d)
    ensures PlainLabels(d)
  {
    PlainYearName(d.year);
    PlainMonthDayNames(d.month, d.isLeapMonth, d.day);
    PlainSolarTerm(solarMonth, solarDay);
  }

  /** For every converted date the long text carries one 【 per annotation
      and the short text one | per annotation. */
  lemma ConvertedAnnotations(offset: int, solarMonth: int, solarDay: int, d: LunarDate)
    requires ConvertsTo(offset, solarMonth, solarDay, d)
    ensures Occurrences('【', LongForm(d)) ==
      (if d.festival != "" then 1 else 0) + (if d.solarTerm != "" then 1 else 0)
    ensures Occurrences('|', ShortForm(d)) ==
      (if d.festival != "" then 1 else 0) + (if d.solarTerm != "" then 1 else 0)
  {
    ConvertedLabelsPlain(offset, solarMonth, solarDay, d);
    LongFormAnnotations(d);
    ShortFormAnnotations(d);
  }
}
