/** The labels solarToLunar attaches to a lunar date: the stem-branch year
    name and zodiac animal (counted from 1900 as 甲子), month and day labels,
    the festival looked up by month and day, and the fixed-date solar term
    for the Gregorian month and day. */
module LunarNames {
  import opened LunarTables

  /** getLunarYearName: the stem of (year - 1900) % 10 and the branch of
      (year - 1900) % 12, followed by "年". The converter only asks for years
      from 1900 on, where JavaScript's % agrees with Dafny's. */
  function YearName(year: int): (r: string)
    requires year >= 1900
    ensures |r| == 3 && r[2] == '年'
    ensures [r[0]] in CelestialStems && [r[1]] in TerrestrialBranches
  {
    var offset := year - 1900;
    CelestialStems[offset % 10] + TerrestrialBranches[offset % 12] + "年"
  }

  /** getChineseZodiac: the animal at the same index as the year's branch. */
  function Zodiac(year: int): (r: string)
    requires year >= 1900
    ensures |r| == 1 && r in ChineseZodiac
  {
    ChineseZodiac[(year - 1900) % 12]
  }

  /** The year name repeats every sixty years. */
  lemma YearNamePeriod(year: int)
    requires year >= 1900
    ensures YearName(year + 60) == YearName(year)
  {
    assert (year + 60 - 1900) % 10 == (year - 1900) % 10;
    assert (year + 60 - 1900) % 12 == (year - 1900) % 12;
  }

  /** The zodiac repeats every twelve years. */
  lemma ZodiacPeriod(year: int)
    requires year >= 1900
    ensures Zodiac(year + 12) == Zodiac(year)
  {
    assert (year + 12 - 1900) % 12 == (year - 1900) % 12;
  }

  /** The position of a stem character in the stem list, -1 for any other. */
  function StemIndex(c: char): int
  {
    if c == '甲' then 0 else if c == '乙' then 1 else if c == '丙' then 2
    else if c == '丁' then 3 else if c == '戊' then 4 else if c == '己' then 5
    else if c == '庚' then 6 else if c == '辛' then 7 else if c == '壬' then 8
    else if c == '癸' then 9 else -1
  }

  /** The position of a branch character in the branch list, -1 for any other. */
  function BranchIndex(c: char): int
  {
    if c == '子' then 0 else if c == '丑' then 1 else if c == '寅' then 2
    else if c == '卯' then 3 else if c == '辰' then 4 else if c == '巳' then 5
    else if c == '午' then 6 else if c == '未' then 7 else if c == '申' then 8
    else if c == '酉' then 9 else if c == '戌' then 10 else if c == '亥' then 11 else -1
  }

  /** The position of an animal in the zodiac list, -1 for any other string. */
  function ZodiacIndex(animal: string): int
  {
    if animal == "鼠" then 0 else if animal == "牛" then 1 else if animal == "虎" then 2
    else if animal == "兔" then 3 else if animal == "龙" then 4 else if animal == "蛇" then 5
    else if animal == "马" then 6 else if animal == "羊" then 7 else if animal == "猴" then 8
    else if animal == "鸡" then 9 else if animal == "狗" then 10 else if animal == "猪" then 11 else -1
  }

  lemma StemIndexInverts()
    ensures forall i | 0 <= i < |CelestialStems| ::
      |CelestialStems[i]| == 1 && StemIndex(CelestialStems[i][0]) == i
  {
  }

  lemma BranchIndexInverts()
    ensures forall i | 0 <= i < |TerrestrialBranches| ::
      |TerrestrialBranches[i]| == 1 && BranchIndex(TerrestrialBranches[i][0]) == i
  {
  }

  lemma ZodiacIndexInverts()
    ensures forall i | 0 <= i < |ChineseZodiac| :: ZodiacIndex(ChineseZodiac[i]) == i
  {
  }

  /** The stem and the branch can be read back from a year name. */
  lemma YearNameParts(year: int)
    requires year >= 1900
    ensures |YearName(year)| == 3
    ensures StemIndex(YearName(year)[0]) == (year - 1900) % 10
    ensures BranchIndex(YearName(year)[1]) == (year - 1900) % 12
  {
    StemIndexInverts();
    BranchIndexInverts();
  }

  /** The remainders by 10 and by 12, read off a quotient and remainder. */
  lemma RemainderOf(x: int, q: int, r: int)
    ensures x == 10 * q + r && 0 <= r < 10 ==> x % 10 == r
    ensures x == 12 * q + r && 0 <= r < 12 ==> x % 12 == r
  {
  }

  /** A difference that is a multiple of 10 and of 12 is a multiple of 60. */
  lemma CommonMultiple(d: int)
    requires d % 10 == 0 && d % 12 == 0
    ensures d % 60 == 0
  {
    var q, r := d / 60, d % 60;
    var a, b := d / 10 - 6 * q, d / 12 - 5 * q;
    assert r == 10 * a && r == 12 * b;
    assert 0 <= a < 6;
    assert a == 0 || a == 1 || a == 2 || a == 3 || a == 4 || a == 5;
  }

  /** Equal remainders by 10 and by 12 mean a difference that is a multiple
      of 60, and conversely. */
  lemma SixtyYearCycle(x: int, y: int)
    ensures (x % 10 == y % 10 && x % 12 == y % 12) <==> (x - y) % 60 == 0
  {
    if x % 10 == y % 10 && x % 12 == y % 12 {
      RemainderOf(x - y, x / 10 - y / 10, 0);
      RemainderOf(x - y, x / 12 - y / 12, 0);
      CommonMultiple(x - y);
    }
    if (x - y) % 60 == 0 {
      var k := (x - y) / 60;
      assert x == y + 60 * k;
      RemainderOf(x, y / 10 + 6 * k, y % 10);
      RemainderOf(x, y / 12 + 5 * k, y % 12);
    }
  }

  /** Two years have the same name exactly when they are a multiple of sixty
      years apart. */
  lemma YearNameCycle(a: int, b: int)
    requires a >= 1900 && b >= 1900
    ensures YearName(a) == YearName(b) <==> (a - b) % 60 == 0
  {
    YearNameParts(a);
    YearNameParts(b);
    SixtyYearCycle(a - 1900, b - 1900);
  }

  /** The animal always pairs with the year's branch: two years share the
      branch character of their names exactly when they share the animal. */
  lemma ZodiacFollowsBranch(a: int, b: int)
    requires a >= 1900 && b >= 1900
    ensures YearName(a)[1] == YearName(b)[1] <==> Zodiac(a) == Zodiac(b)
  {
    YearNameParts(a);
    YearNameParts(b);
    ZodiacIndexInverts();
  }

  /** The counting starts at 甲子 for 1900, so 2025 is named 己巳 (its
      traditional name is 乙巳) while its animal is the snake. */
  lemma NamedYears()
    ensures YearName(1900) == "甲子年" && Zodiac(1900) == "鼠"
    ensures YearName(2025) == "己巳年" && Zodiac(2025) == "蛇"
  {
  }

  /** The month label: "闰" for a leap month, the month's label and "月". */
  function MonthName(month: int, isLeapMonth: bool): (r: string)
    requires 1 <= month <= 12
    ensures |r| == (if isLeapMonth then 3 else 2) && r[|r| - 1] == '月'
    ensures isLeapMonth <==> r[0] == '闰'
  {
    (if isLeapMonth then "闰" else "") + LunarMonths[month - 1] + "月"
  }

  /** The day label of day 1..30. */
  function DayName(day: int): (r: string)
    requires 1 <= day <= 30
    ensures |r| == 2 && r in LunarDays
  {
    LunarDays[day - 1]
  }

  /** The month number of a month-label character, 0 for any other. */
  function MonthOfLabel(c: char): int
  {
    if c == '正' then 1 else if c == '二' then 2 else if c == '三' then 3
    else if c == '四' then 4 else if c == '五' then 5 else if c == '六' then 6
    else if c == '七' then 7 else if c == '八' then 8 else if c == '九' then 9
    else if c == '十' then 10 else if c == '冬' then 11 else if c == '腊' then 12 else 0
  }

  /** Reads a month name back as (month, isLeapMonth); (0, false) for a
      string that is no month name. */
  function ParseMonthName(name: string): (int, bool)
  {
    if |name| == 3 && name[0] == '闰' && name[2] == '月' then (MonthOfLabel(name[1]), true)
    else if |name| == 2 && name[1] == '月' then (MonthOfLabel(name[0]), false)
    else (0, false)
  }

  /** The tens of a day label's first character. */
  function DayTens(c: char): int
  {
    if c == '初' then 0 else if c == '十' then 10 else if c == '二' then 10
    else if c == '廿' then 20 else if c == '三' then 20 else -100
  }

  /** The units of a day label's second character; 十 counts as ten. */
  function DayUnits(c: char): int
  {
    if c == '一' then 1 else if c == '二' then 2 else if c == '三' then 3
    else if c == '四' then 4 else if c == '五' then 5 else if c == '六' then 6
    else if c == '七' then 7 else if c == '八' then 8 else if c == '九' then 9
    else if c == '十' then 10 else -100
  }

  /** Reads a day label back as its day number; 0 for a string of another
      length. */
  function DayNumber(dayName: string): int
  {
    if |dayName| == 2 then DayTens(dayName[0]) + DayUnits(dayName[1]) else 0
  }

  lemma MonthOfLabelInverts()
    ensures forall i | 0 <= i < |LunarMonths| ::
      |LunarMonths[i]| == 1 && MonthOfLabel(LunarMonths[i][0]) == i + 1
  {
  }

  lemma DayNumberInverts()
    ensures forall i | 0 <= i < |LunarDays| :: DayNumber(LunarDays[i]) == i + 1
  {
  }

  /** A month name reads back as the month and leap flag it was made from. */
  lemma MonthNameRoundTrip(month: int, isLeapMonth: bool)
    requires 1 <= month <= 12
    ensures ParseMonthName(MonthName(month, isLeapMonth)) == (month, isLeapMonth)
  {
    MonthOfLabelInverts();
  }

  /** A day label reads back as its day. */
  lemma DayNameRoundTrip(day: int)
    requires 1 <= day <= 30
    ensures |DayName(day)| == 2 && DayNumber(DayName(day)) == day
  {
    DayNumberInverts();
  }

  /** Two months get the same name exactly when they are the same month with
      the same leap flag. */
  lemma MonthNameInjective(m1: int, l1: bool, m2: int, l2: bool)
    requires 1 <= m1 <= 12 && 1 <= m2 <= 12
    ensures MonthName(m1, l1) == MonthName(m2, l2) <==> m1 == m2 && l1 == l2
  {
    MonthNameRoundTrip(m1, l1);
    MonthNameRoundTrip(m2, l2);
  }

  /** Two days get the same label exactly when they are the same day. */
  lemma DayNameInjective(d1: int, d2: int)
    requires 1 <= d1 <= 30 && 1 <= d2 <= 30
    ensures DayName(d1) == DayName(d2) <==> d1 == d2
  {
    DayNameRoundTrip(d1);
    DayNameRoundTrip(d2);
  }

  /** The festival key: month label, "月", day label, with no leap marker. */
  function FestivalKey(month: int, day: int): (r: string)
    requires 1 <= month <= 12 && 1 <= day <= 30
    ensures |r| == 4 && r[1] == '月'
  {
    LunarMonths[month - 1] + "月" + LunarDays[day - 1]
  }

  /** The festival of a lunar month and day, "" when the key is not in the
      table. The leap flag is not part of the key, so a leap month shares
      the festivals of its regular month. */
  function Festival(month: int, day: int): (r: string)
    requires 1 <= month <= 12 && 1 <= day <= 30
    ensures r == "" || r in TraditionalFestivals.Values
  {
    var key := FestivalKey(month, day);
    if key in TraditionalFestivals then TraditionalFestivals[key] else ""
  }

  /** Reads a festival key back as (month, day); (0, 0) for a string of
      another shape. */
  function ParseFestivalKey(key: string): (int, int)
  {
    if |key| == 4 && key[1] == '月' then (MonthOfLabel(key[0]), DayNumber(key[2..])) else (0, 0)
  }

  /** A key reads back as the month and day it was made from. */
  lemma FestivalKeyRoundTrip(month: int, day: int)
    requires 1 <= month <= 12 && 1 <= day <= 30
    ensures ParseFestivalKey(FestivalKey(month, day)) == (month, day)
  {
    MonthOfLabelInverts();
    DayNameRoundTrip(day);
    var key := FestivalKey(month, day);
    assert key[2..] == LunarDays[day - 1];
  }

  /** The (month, day) pairs the festival table names. */
  predicate IsFestivalDay(month: int, day: int)
  {
    (month, day) in {(1, 1), (1, 15), (5, 5), (7, 7), (8, 15), (9, 9), (12, 30), (12, 23), (12, 24)}
  }

  lemma TableKeysAreFestivalDays()
    ensures forall key | key in TraditionalFestivals ::
      IsFestivalDay(ParseFestivalKey(key).0, ParseFestivalKey(key).1)
  {
  }

  /** A day has a festival exactly when it is one of the nine table days. */
  lemma FestivalDays(month: int, day: int)
    requires 1 <= month <= 12 && 1 <= day <= 30
    ensures Festival(month, day) != "" <==> IsFestivalDay(month, day)
  {
    FestivalKeyRoundTrip(month, day);
    TableKeysAreFestivalDays();
    FestivalDayKeys();
  }

  /** The keys of the nine festival days. */
  lemma FestivalDayKeys()
    ensures FestivalKey(1, 1) == "正月初一" && FestivalKey(1, 15) == "正月十五"
    ensures FestivalKey(5, 5) == "五月初五" && FestivalKey(7, 7) == "七月初七"
    ensures FestivalKey(8, 15) == "八月十五" && FestivalKey(9, 9) == "九月初九"
    ensures FestivalKey(12, 30) == "腊月三十" && FestivalKey(12, 23) == "腊月廿三"
    ensures FestivalKey(12, 24) == "腊月廿四"
  {
  }

  /** The festivals of the New Year, mid-autumn and both 小年 days. */
  lemma NamedFestivals()
    ensures Festival(1, 1) == "春节" && Festival(8, 15) == "中秋节"
    ensures Festival(12, 23) == "小年" && Festival(12, 24) == "小年"
    ensures Festival(12, 30) == "除夕" && Festival(3, 3) == ""
  {
    FestivalDayKeys();
    FestivalDays(3, 3);
  }

  /** The simplified solar term of a Gregorian month (0-based) and day. */
  function SolarTerm(solarMonth: int, solarDay: int): (r: string)
    ensures r == "" || r in SolarTermNames
    ensures r != "" ==> 1 <= solarMonth <= 11 && solarMonth % 3 != 0 && 4 <= solarDay <= 23
  {
    if (solarMonth == 1 && solarDay == 4) || (solarMonth == 1 && solarDay == 5) then "立春"
    else if (solarMonth == 2 && solarDay == 20) || (solarMonth == 2 && solarDay == 21) then "春分"
    else if (solarMonth == 4 && solarDay == 5) || (solarMonth == 4 && solarDay == 6) then "立夏"
    else if (solarMonth == 5 && solarDay == 21) || (solarMonth == 5 && solarDay == 22) then "夏至"
    else if (solarMonth == 7 && solarDay == 7) || (solarMonth == 7 && solarDay == 8) then "立秋"
    else if (solarMonth == 8 && solarDay == 22) || (solarMonth == 8 && solarDay == 23) then "秋分"
    else if (solarMonth == 10 && solarDay == 7) || (solarMonth == 10 && solarDay == 8) then "立冬"
    else if (solarMonth == 11 && solarDay == 21) || (solarMonth == 11 && solarDay == 22) then "冬至"
    else ""
  }

  /** The sixteen dates of the solar terms, as a table. */
  const SolarTermDates: map<(int, int), string> := map[
    (1, 4) := "立春", (1, 5) := "立春",
    (2, 20) := "春分", (2, 21) := "春分",
    (4, 5) := "立夏", (4, 6) := "立夏",
    (5, 21) := "夏至", (5, 22) := "夏至",
    (7, 7) := "立秋", (7, 8) := "立秋",
    (8, 22) := "秋分", (8, 23) := "秋分",
    (10, 7) := "立冬", (10, 8) := "立冬",
    (11, 21) := "冬至", (11, 22) := "冬至"
  ]

  /** The eight terms the converter knows. */
  const SolarTermNames: set<string> := {"立春", "春分", "立夏", "夏至", "立秋", "秋分", "立冬", "冬至"}

  /** The if-chain agrees with the table of sixteen dates: a date gets a term
      exactly when it is in the table, and then the table's term. */
  lemma SolarTermMatchesTable(solarMonth: int, solarDay: int)
    ensures SolarTerm(solarMonth, solarDay) != "" <==> (solarMonth, solarDay) in SolarTermDates
    ensures (solarMonth, solarDay) in SolarTermDates ==>
      SolarTerm(solarMonth, solarDay) == SolarTermDates[(solarMonth, solarDay)]
  {
  }

  /** Every term is one of the eight, and none falls in January, April, July
      or October (months 0, 3, 6 and 9). */
  lemma SolarTermRange(solarMonth: int, solarDay: int)
    ensures SolarTerm(solarMonth, solarDay) == "" || SolarTerm(solarMonth, solarDay) in SolarTermNames
    ensures solarMonth in {0, 3, 6, 9} ==> SolarTerm(solarMonth, solarDay) == ""
  {
  }
}
