/** Constant tables of the lunisolar converter: label lists, the packed
    per-year encoding for 1900..2100 and the festival table. */
module LunarTables {

  /** The ten celestial stems (天干). */
  const CelestialStems: seq<string> := ["甲", "乙", "丙", "丁", "戊", "己", "庚", "辛", "壬", "癸"]

  /** The twelve terrestrial branches (地支). */
  const TerrestrialBranches: seq<string> :=
    ["子", "丑", "寅", "卯", "辰", "巳", "午", "未", "申", "酉", "戌", "亥"]

  /** The twelve zodiac animals, index-aligned with the branches. */
  const ChineseZodiac: seq<string> :=
    ["鼠", "牛", "虎", "兔", "龙", "蛇", "马", "羊", "猴", "鸡", "狗", "猪"]

  /** Month labels; the display name appends "月". */
  const LunarMonths: seq<string> :=
    ["正", "二", "三", "四", "五", "六", "七", "八", "九", "十", "冬", "腊"]

  /** Day labels for days 1..30. */
  const LunarDays: seq<string> := [
    "初一", "初二", "初三", "初四", "初五", "初六", "初七", "初八", "初九", "初十",
    "十一", "十二", "十三", "十四", "十五", "十六", "十七", "十八", "十九", "二十",
    "廿一", "廿二", "廿三", "廿四", "廿五", "廿六", "廿七", "廿八", "廿九", "三十"
  ]

  /** LUNAR_INFO: one packed value per lunar year 1900..2100. The low four
      bits hold the leap month (0: none); the bits above hold one 29/30-day
      flag per month. The 201 entries are stored in rows of one decade each,
      as the source lays them out. */
  const LunarInfoLength: nat := 201

  /** Entry `index` of the table, the one for year 1900 + index; every entry
      fits in the 17 bits the decoding reads (the leap nibble, twelve month
      flags, and bit 16 for the length of the leap month). */
  function LunarInfo(index: nat): (r: nat)
    requires index < LunarInfoLength
    ensures r < 0x20000
  {
    EntryInRows(LunarInfoRows, index);
    var row := LunarInfoRows[index / 10];
    assert row in LunarInfoRows && row[index % 10] in row;
    AllRowsNibbles();
    EntryIn(LunarInfoRows, index)
  }

  /** Entry `index` of the rows read one after another; 0 past the end. */
  function EntryIn(rows: seq<seq<nat>>, index: nat): nat
    decreases |rows|
  {
    if |rows| == 0 then 0
    else if index < |rows[0]| then rows[0][index]
    else EntryIn(rows[1..], index - |rows[0]|)
  }

  /** Rows of ten: entry `index` is entry index % 10 of row index / 10. */
  lemma {:induction false} EntryInRows(rows: seq<seq<nat>>, index: nat)
    requires forall r | 0 <= r < |rows| - 1 :: |rows[r]| == 10
    requires |rows| > 0 && 0 < |rows[|rows| - 1]| <= 10
    requires index < 10 * (|rows| - 1) + |rows[|rows| - 1]|
    ensures index / 10 < |rows| && index % 10 < |rows[index / 10]|
    ensures EntryIn(rows, index) == rows[index / 10][index % 10]
    decreases |rows|
  {
    if index >= 10 {
      assert |rows[0]| == 10;
      var tail := rows[1..];
      assert forall r | 0 <= r < |tail| - 1 :: |tail[r]| == 10 by {
        forall r | 0 <= r < |tail| - 1 ensures |tail[r]| == 10 {
          assert tail[r] == rows[r + 1];
        }
      }
      EntryInRows(tail, index - 10);
      assert (index - 10) / 10 == index / 10 - 1;
      assert (index - 10) % 10 == index % 10;
    }
  }

  /** LunarInfo as a lookup in row index / 10, column index % 10. */
  lemma LunarInfoInRow(index: nat)
    requires index < LunarInfoLength
    ensures LunarInfo(index) == LunarInfoRows[index / 10][index % 10]
  {
    EntryInRows(LunarInfoRows, index);
  }

  const LunarInfoRows: seq<seq<nat>> := [
    Info1900, Info1910, Info1920, Info1930, Info1940, Info1950, Info1960,
    Info1970, Info1980, Info1990, Info2000, Info2010, Info2020, Info2030,
    Info2040, Info2050, Info2060, Info2070, Info2080, Info2090, Info2100
  ]

  const Info1900: seq<nat> := [0x04bd8, 0x04ae0, 0x0a570, 0x054d5, 0x0d260, 0x0d950, 0x16554, 0x056a0, 0x09ad0, 0x055d2]
  const Info1910: seq<nat> := [0x04ae0, 0x0a5b6, 0x0a4d0, 0x0d250, 0x1d255, 0x0b540, 0x0d6a0, 0x0ada2, 0x095b0, 0x14977]
  const Info1920: seq<nat> := [0x04970, 0x0a4b0, 0x0b4b5, 0x06a50, 0x06d40, 0x1ab54, 0x02b60, 0x09570, 0x052f2, 0x04970]
  const Info1930: seq<nat> := [0x06566, 0x0d4a0, 0x0ea50, 0x06e95, 0x05ad0, 0x02b60, 0x186e3, 0x092e0, 0x1c8d7, 0x0c950]
  const Info1940: seq<nat> := [0x0d4a0, 0x1d8a6, 0x0b550, 0x056a0, 0x1a5b4, 0x025d0, 0x092d0, 0x0d2b2, 0x0a950, 0x0b557]
  const Info1950: seq<nat> := [0x06ca0, 0x0b550, 0x15355, 0x04da0, 0x0a5b0, 0x14573, 0x052b0, 0x0a9a8, 0x0e950, 0x06aa0]
  const Info1960: seq<nat> := [0x0aea6, 0x0ab50, 0x04b60, 0x0aae4, 0x0a570, 0x05260, 0x0f263, 0x0d950, 0x05b57, 0x056a0]
  const Info1970: seq<nat> := [0x096d0, 0x04dd5, 0x04ad0, 0x0a4d0, 0x0d4d4, 0x0d250, 0x0d558, 0x0b540, 0x0b6a0, 0x195a6]
  const Info1980: seq<nat> := [0x095b0, 0x049b0, 0x0a974, 0x0a4b0, 0x0b27a, 0x06a50, 0x06d40, 0x0af46, 0x0ab60, 0x09570]
  const Info1990: seq<nat> := [0x04af5, 0x04970, 0x064b0, 0x074a3, 0x0ea50, 0x06b58, 0x055c0, 0x0ab60, 0x096d5, 0x092e0]
  const Info2000: seq<nat> := [0x0c960, 0x0d954, 0x0d4a0, 0x0da50, 0x07552, 0x056a0, 0x0abb7, 0x025d0, 0x092d0, 0x0cab5]
  const Info2010: seq<nat> := [0x0a950, 0x0b4a0, 0x0baa4, 0x0ad50, 0x055d9, 0x04ba0, 0x0a5b0, 0x15176, 0x052b0, 0x0a930]
  const Info2020: seq<nat> := [0x07954, 0x06aa0, 0x0ad50, 0x05b52, 0x04b60, 0x0a6e6, 0x0a4e0, 0x0d260, 0x0ea65, 0x0d530]
  const Info2030: seq<nat> := [0x05aa0, 0x076a3, 0x096d0, 0x04afb, 0x04ad0, 0x0a4d0, 0x1d0b6, 0x0d250, 0x0d520, 0x0dd45]
  const Info2040: seq<nat> := [0x0b5a0, 0x056d0, 0x055b2, 0x049b0, 0x0a577, 0x0a4b0, 0x0aa50, 0x1b255, 0x06d20, 0x0ada0]
  const Info2050: seq<nat> := [0x14b63, 0x09370, 0x049f8, 0x04970, 0x064b0, 0x168a6, 0x0ea50, 0x06b20, 0x1a6c4, 0x0aae0]
  const Info2060: seq<nat> := [0x0a2e0, 0x0d2e3, 0x0c960, 0x0d557, 0x0d4a0, 0x0da50, 0x05d55, 0x056a0, 0x0a6d0, 0x055d4]
  const Info2070: seq<nat> := [0x052d0, 0x0a9b8, 0x0a950, 0x0b4a0, 0x0b6a6, 0x0ad50, 0x055a0, 0x0aba4, 0x0a5b0, 0x052b0]
  const Info2080: seq<nat> := [0x0b273, 0x06930, 0x07337, 0x06aa0, 0x0ad50, 0x14b55, 0x04b60, 0x0a570, 0x054e4, 0x0d160]
  const Info2090: seq<nat> := [0x0e968, 0x0d520, 0x0daa0, 0x16aa6, 0x056d0, 0x04ae0, 0x0a9d4, 0x0a2d0, 0x0d150, 0x0f252]
  const Info2100: seq<nat> := [0x0d520]

  /** A leap-month nibble the table actually uses: none, or one of 2..11. */
  predicate LeapNibbleOk(v: nat)
  {
    var n := v % 16;
    n <= 11 && n != 1
  }

  lemma Info1900Nibbles() ensures forall v | v in Info1900 :: v < 0x20000 && LeapNibbleOk(v) {}
  lemma Info1910Nibbles() ensures forall v | v in Info1910 :: v < 0x20000 && LeapNibbleOk(v) {}
  lemma Info1920Nibbles() ensures forall v | v in Info1920 :: v < 0x20000 && LeapNibbleOk(v) {}
  lemma Info1930Nibbles() ensures forall v | v in Info1930 :: v < 0x20000 && LeapNibbleOk(v) {}
  lemma Info1940Nibbles() ensures forall v | v in Info1940 :: v < 0x20000 && LeapNibbleOk(v) {}
  lemma Info1950Nibbles() ensures forall v | v in Info1950 :: v < 0x20000 && LeapNibbleOk(v) {}
  lemma Info1960Nibbles() ensures forall v | v in Info1960 :: v < 0x20000 && LeapNibbleOk(v) {}
  lemma Info1970Nibbles() ensures forall v | v in Info1970 :: v < 0x20000 && LeapNibbleOk(v) {}
  lemma Info1980Nibbles() ensures forall v | v in Info1980 :: v < 0x20000 && LeapNibbleOk(v) {}
  lemma Info1990Nibbles() ensures forall v | v in Info1990 :: v < 0x20000 && LeapNibbleOk(v) {}
  lemma Info2000Nibbles() ensures forall v | v in Info2000 :: v < 0x20000 && LeapNibbleOk(v) {}
  lemma Info2010Nibbles() ensures forall v | v in Info2010 :: v < 0x20000 && LeapNibbleOk(v) {}
  lemma Info2020Nibbles() ensures forall v | v in Info2020 :: v < 0x20000 && LeapNibbleOk(v) {}
  lemma Info2030Nibbles() ensures forall v | v in Info2030 :: v < 0x20000 && LeapNibbleOk(v) {}
  lemma Info2040Nibbles() ensures forall v | v in Info2040 :: v < 0x20000 && LeapNibbleOk(v) {}
  lemma Info2050Nibbles() ensures forall v | v in Info2050 :: v < 0x20000 && LeapNibbleOk(v) {}
  lemma Info2060Nibbles() ensures forall v | v in Info2060 :: v < 0x20000 && LeapNibbleOk(v) {}
  lemma Info2070Nibbles() ensures forall v | v in Info2070 :: v < 0x20000 && LeapNibbleOk(v) {}
  lemma Info2080Nibbles() ensures forall v | v in Info2080 :: v < 0x20000 && LeapNibbleOk(v) {}
  lemma Info2090Nibbles() ensures forall v | v in Info2090 :: v < 0x20000 && LeapNibbleOk(v) {}
  lemma Info2100Nibbles() ensures forall v | v in Info2100 :: v < 0x20000 && LeapNibbleOk(v) {}

  lemma AllRowsNibbles()
    ensures forall row, v | row in LunarInfoRows && v in row :: v < 0x20000 && LeapNibbleOk(v)
  {
    Info1900Nibbles();
    Info1910Nibbles();
    Info1920Nibbles();
    Info1930Nibbles();
    Info1940Nibbles();
    Info1950Nibbles();
    Info1960Nibbles();
    Info1970Nibbles();
    Info1980Nibbles();
    Info1990Nibbles();
    Info2000Nibbles();
    Info2010Nibbles();
    Info2020Nibbles();
    Info2030Nibbles();
    Info2040Nibbles();
    Info2050Nibbles();
    Info2060Nibbles();
    Info2070Nibbles();
    Info2080Nibbles();
    Info2090Nibbles();
    Info2100Nibbles();
  }

  /** Every entry of the table names no leap month or one of the months 2..11. */
  lemma TableLeapNibbles(index: nat)
    requires index < LunarInfoLength
    ensures LeapNibbleOk(LunarInfo(index))
  {
    LunarInfoInRow(index);
    var row := LunarInfoRows[index / 10];
    assert row in LunarInfoRows;
    assert LunarInfo(index) in row;
    AllRowsNibbles();
  }

  /** Traditional festivals, keyed by month label + "月" + day label. */
  const TraditionalFestivals: map<string, string> := map[
    "正月初一" := "春节",
    "正月十五" := "元宵节",
    "五月初五" := "端午节",
    "七月初七" := "七夕节",
    "八月十五" := "中秋节",
    "九月初九" := "重阳节",
    "腊月三十" := "除夕",
    "腊月廿三" := "小年",
    "腊月廿四" := "小年"
  ]
}
