/** Time-zone abbreviations by UTC offset and the rough daylight-saving
    rule. Every offset the table knows is a whole multiple of a quarter
    hour, so offsets are counted here in quarter hours: -14 stands for
    -3.5 hours. JavaScript's Number.prototype.toString on such an offset is
    OffsetString. */
module TimeZoneAbbreviations {

  datatype Option<T> = None | Some(value: T)

  /** One entry of the table: the standard and daylight abbreviations and
      the zone's name. */
  datatype ZoneNames = ZoneNames(standard: string, daylight: string, name: string)

  /** timeZoneAbbreviations, keyed by the offset's decimal text. */
  const Zones: map<string, ZoneNames> := map[
    "-10" := ZoneNames("HST", "HDT", "Hawaii–Aleutian"),
    "-9" := ZoneNames("AKST", "AKDT", "Alaska"),
    "-8" := ZoneNames("PST", "PDT", "Pacific"),
    "-7" := ZoneNames("MST", "MDT", "Mountain"),
    "-6" := ZoneNames("CST", "CDT", "Central"),
    "-5" := ZoneNames("EST", "EDT", "Eastern"),
    "-4" := ZoneNames("AST", "ADT", "Atlantic"),
    "-3.5" := ZoneNames("NST", "NDT", "Newfoundland"),
    "-3" := ZoneNames("ART", "ART", "Argentina"),
    "0" := ZoneNames("GMT", "BST", "Greenwich Mean"),
    "1" := ZoneNames("CET", "CEST", "Central European"),
    "2" := ZoneNames("EET", "EEST", "Eastern European"),
    "3" := ZoneNames("MSK", "MSK", "Moscow"),
    "3.5" := ZoneNames("IRST", "IRDT", "Iran"),
    "4" := ZoneNames("GST", "GST", "Gulf"),
    "4.5" := ZoneNames("AFT", "AFT", "Afghanistan"),
    "5" := ZoneNames("PKT", "PKT", "Pakistan"),
    "5.5" := ZoneNames("IST", "IST", "India"),
    "5.75" := ZoneNames("NPT", "NPT", "Nepal"),
    "6" := ZoneNames("BST", "BST", "Bangladesh"),
    "6.5" := ZoneNames("MMT", "MMT", "Myanmar"),
    "7" := ZoneNames("ICT", "ICT", "Indochina"),
    "8" := ZoneNames("CST", "CST", "China"),
    "9" := ZoneNames("JST", "JST", "Japan"),
    "9.5" := ZoneNames("ACST", "ACDT", "Australian Central"),
    "10" := ZoneNames("AEST", "AEDT", "Australian Eastern"),
    "11" := ZoneNames("AEDT", "AEDT", "Australian Eastern Daylight"),
    "12" := ZoneNames("NZST", "NZDT", "New Zealand"),
    "13" := ZoneNames("TOT", "TOT", "Tonga"),
    "-1" := ZoneNames("AZOST", "AZOST", "Azores"),
    "-2" := ZoneNames("GST", "GST", "South Georgia"),
    "-11" := ZoneNames("SST", "SST", "Samoa"),
    "-12" := ZoneNames("BIT", "BIT", "Baker Island")
  ]

  /** The offsets of the table, in quarter hours. */
  const KnownQuarters: set<int> := {
    -40, -36, -32, -28, -24, -20, -16, -14, -12,
    0, 4, 8, 12,
    14, 16, 18, 20, 22, 23, 24, 26, 28, 32, 36, 38, 40, 44, 48, 52,
    -4, -8, -44, -48
  }

  /** Decimal digits of a natural number, most significant first. */
  function NatToString(n: nat): (s: string)
    ensures |s| > 0
    decreases n
  {
    if n < 10 then [DigitChar(n)] else NatToString(n / 10) + [DigitChar(n % 10)]
  }

  function DigitChar(d: nat): char
    requires d < 10
  {
    ['0', '1', '2', '3', '4', '5', '6', '7', '8', '9'][d]
  }

  predicate IsDigit(c: char)
  {
    '0' <= c <= '9'
  }

  predicate AllDigits(s: string)
  {
    forall i | 0 <= i < |s| :: IsDigit(s[i])
  }

  /** The text of an offset of `quarters` quarter hours, as toString writes
      it: an optional minus sign, the whole hours, then ".25", ".5" or ".75"
      for a fractional hour. */
  function OffsetString(quarters: int): (s: string)
    ensures |s| > 0 && (s[0] == '-' <==> quarters < 0)
  {
    MagnitudeText(if quarters < 0 then -quarters else quarters);
    if quarters < 0 then "-" + UnsignedText(-quarters) else UnsignedText(quarters)
  }

  /** The whole hours and the fractional suffix of a magnitude in quarter
      hours. */
  function UnsignedText(magnitude: nat): string
  {
    NatToString(magnitude / 4) + FractionString(magnitude % 4)
  }

  function FractionString(fraction: int): string
  {
    if fraction == 1 then ".25" else if fraction == 2 then ".5" else if fraction == 3 then ".75" else ""
  }

  /** The value of a string of decimal digits. */
  function DigitsValue(s: string): nat
    requires AllDigits(s)
    decreases |s|
  {
    if |s| == 0 then 0
    else 10 * DigitsValue(s[..|s| - 1]) + (s[|s| - 1] as int - '0' as int)
  }

  /** Reads a whole-hours part and its fractional suffix back into quarter
      hours. */
  function ParseMagnitude(s: string): Option<nat>
  {
    var suffix := FractionSuffix(s);
    var whole := s[..|s| - suffix.length];
    if |whole| > 0 && AllDigits(whole) then Some(4 * DigitsValue(whole) + suffix.quarters) else None
  }

  /** A fractional suffix: its length in characters and its value in
      quarter hours. */
  datatype Suffix = Suffix(length: nat, quarters: nat)

  /** The fractional suffix ".25", ".5" or ".75" that `s` ends with, or the
      empty suffix. */
  function FractionSuffix(s: string): (r: Suffix)
    ensures r.length <= |s|
  {
    var n := |s|;
    if n >= 3 && s[n - 3] == '.' && s[n - 2] == '2' && s[n - 1] == '5' then Suffix(3, 1)
    else if n >= 3 && s[n - 3] == '.' && s[n - 2] == '7' && s[n - 1] == '5' then Suffix(3, 3)
    else if n >= 2 && s[n - 2] == '.' && s[n - 1] == '5' then Suffix(2, 2)
    else Suffix(0, 0)
  }

  /** Reads the text of an offset back into quarter hours. */
  function ParseOffset(s: string): Option<int>
  {
    if |s| > 0 && s[0] == '-' then
      match ParseMagnitude(s[1..])
      case Some(m) => Some(-(m as int))
      case None => None
    else ParseMagnitude(s)
  }

  lemma DigitCharIsDigit(d: nat)
    requires d < 10
    ensures IsDigit(DigitChar(d)) && DigitChar(d) as int - '0' as int == d
  {
  }

  /** The digits of n read back as n. */
  lemma {:induction false} NatToStringRoundTrip(n: nat)
    ensures AllDigits(NatToString(n))
    ensures DigitsValue(NatToString(n)) == n
    decreases n
  {
    DigitCharIsDigit(n % 10);
    if n >= 10 {
      NatToStringRoundTrip(n / 10);
      var s := NatToString(n);
      assert s[..|s| - 1] == NatToString(n / 10);
    }
  }

  /** The text of every offset reads back as that offset. */
  lemma OffsetStringRoundTrip(quarters: int)
    ensures ParseOffset(OffsetString(quarters)) == Some(quarters)
  {
    var magnitude := if quarters < 0 then -quarters else quarters;
    MagnitudeText(magnitude);
    if quarters < 0 {
      NegativeRoundTrip(OffsetString(quarters), UnsignedText(magnitude), magnitude);
    } else {
      NonNegativeRoundTrip(OffsetString(quarters), magnitude);
    }
  }

  /** The unsigned part of an offset's text reads back as its magnitude. */
  lemma MagnitudeText(magnitude: nat)
    ensures |UnsignedText(magnitude)| > 0 && IsDigit(UnsignedText(magnitude)[0])
    ensures ParseMagnitude(UnsignedText(magnitude)) == Some(magnitude)
  {
    var digits := NatToString(magnitude / 4);
    NatToStringRoundTrip(magnitude / 4);
    assert IsDigit(digits[0]);
    MagnitudeRoundTrip(digits, magnitude / 4, magnitude % 4);
  }

  lemma NegativeRoundTrip(s: string, text: string, magnitude: nat)
    requires s == "-" + text && ParseMagnitude(text) == Some(magnitude)
    ensures ParseOffset(s) == Some(-(magnitude as int))
  {
    assert s[1..] == text;
  }

  lemma NonNegativeRoundTrip(text: string, magnitude: nat)
    requires |text| > 0 && IsDigit(text[0])
    requires ParseMagnitude(text) == Some(magnitude)
    ensures ParseOffset(text) == Some(magnitude)
  {
  }

  lemma MagnitudeRoundTrip(digits: string, whole: nat, fraction: int)
    requires |digits| > 0 && AllDigits(digits) && DigitsValue(digits) == whole
    requires 0 <= fraction < 4
    ensures ParseMagnitude(digits + FractionString(fraction)) == Some(4 * whole + fraction)
  {
    var s := digits + FractionString(fraction);
    var n := |s|;
    assert IsDigit(s[|digits| - 1]);
    if fraction == 0 {
      assert s == digits;
      assert n >= 2 ==> IsDigit(s[n - 2]);
      assert FractionSuffix(s) == Suffix(0, 0);
    } else if fraction == 2 {
      assert s[n - 2] == '.' && s[n - 1] == '5' && s[n - 3] == digits[|digits| - 1];
      assert FractionSuffix(s) == Suffix(2, 2);
      assert s[..n - 2] == digits;
    } else {
      assert s[n - 3] == '.' && s[n - 1] == '5';
      assert s[n - 2] == (if fraction == 1 then '2' else '7');
      assert FractionSuffix(s) == Suffix(3, fraction);
      assert s[..n - 3] == digits;
    }
  }

  /** Different offsets have different texts. */
  lemma OffsetStringInjective(q1: int, q2: int)
    requires OffsetString(q1) == OffsetString(q2)
    ensures q1 == q2
  {
    OffsetStringRoundTrip(q1);
    OffsetStringRoundTrip(q2);
  }

  /** The negative keys of the table with the offsets, in quarter hours,
      they are the texts of. */
  const NegativeKeys: map<string, int> := map[
    "-10" := -40,
    "-9" := -36,
    "-8" := -32,
    "-7" := -28,
    "-6" := -24,
    "-5" := -20,
    "-4" := -16,
    "-3.5" := -14,
    "-3" := -12,
    "-1" := -4,
    "-2" := -8,
    "-11" := -44,
    "-12" := -48
  ]

  /** The other keys of the table with their offsets. */
  const NonNegativeKeys: map<string, int> := map[
    "0" := 0,
    "1" := 4,
    "2" := 8,
    "3" := 12,
    "3.5" := 14,
    "4" := 16,
    "4.5" := 18,
    "5" := 20,
    "5.5" := 22,
    "5.75" := 23,
    "6" := 24,
    "6.5" := 26,
    "7" := 28,
    "8" := 32,
    "9" := 36,
    "9.5" := 38,
    "10" := 40,
    "11" := 44,
    "12" := 48,
    "13" := 52
  ]

  /** The two-digit hour counts of the table. */
  lemma TwoDigitHours()
    ensures NatToString(10) == "10" && NatToString(11) == "11"
    ensures NatToString(12) == "12" && NatToString(13) == "13"
  {
  }

  /** The text of each known negative offset. */
  lemma NegativeOffsetTexts()
    ensures OffsetString(-40) == "-10"
    ensures OffsetString(-36) == "-9"
    ensures OffsetString(-32) == "-8"
    ensures OffsetString(-28) == "-7"
    ensures OffsetString(-24) == "-6"
    ensures OffsetString(-20) == "-5"
    ensures OffsetString(-16) == "-4"
    ensures OffsetString(-14) == "-3.5"
    ensures OffsetString(-12) == "-3"
    ensures OffsetString(-4) == "-1"
    ensures OffsetString(-8) == "-2"
    ensures OffsetString(-44) == "-11"
    ensures OffsetString(-48) == "-12"
  {
    TwoDigitHours();
  }

  /** The text of each known non-negative offset. */
  lemma NonNegativeOffsetTexts()
    ensures OffsetString(0) == "0"
    ensures OffsetString(4) == "1"
    ensures OffsetString(8) == "2"
    ensures OffsetString(12) == "3"
    ensures OffsetString(14) == "3.5"
    ensures OffsetString(16) == "4"
    ensures OffsetString(18) == "4.5"
    ensures OffsetString(20) == "5"
    ensures OffsetString(22) == "5.5"
    ensures OffsetString(23) == "5.75"
    ensures OffsetString(24) == "6"
    ensures OffsetString(26) == "6.5"
    ensures OffsetString(28) == "7"
    ensures OffsetString(32) == "8"
    ensures OffsetString(36) == "9"
    ensures OffsetString(38) == "9.5"
    ensures OffsetString(40) == "10"
    ensures OffsetString(44) == "11"
    ensures OffsetString(48) == "12"
    ensures OffsetString(52) == "13"
  {
    TwoDigitHours();
  }

  /** Every known offset's text is a key of the table. */
  lemma KnownOffsetsAreKeys()
    ensures forall q | q in KnownQuarters :: OffsetString(q) in Zones
  {
    NegativeOffsetTexts();
    NonNegativeOffsetTexts();
  }

  /** Every key of the table is one of the listed keys. */
  lemma KeysListed()
    ensures forall key | key in Zones :: key in NegativeKeys || key in NonNegativeKeys
  {
  }

  lemma NegativeKeysKnown()
    ensures forall key | key in NegativeKeys ::
      NegativeKeys[key] in KnownQuarters && OffsetString(NegativeKeys[key]) == key
  {
    NegativeOffsetTexts();
  }

  lemma NonNegativeKeysKnown()
    ensures forall key | key in NonNegativeKeys ::
      NonNegativeKeys[key] in KnownQuarters && OffsetString(NonNegativeKeys[key]) == key
  {
    NonNegativeOffsetTexts();
  }

  /** Every key of the table is the text of a known offset. */
  lemma KeysAreKnownOffsets()
    ensures forall key | key in Zones :: exists q | q in KnownQuarters :: OffsetString(q) == key
  {
    KeysListed();
    NegativeKeysKnown();
    NonNegativeKeysKnown();
    forall key | key in Zones
      ensures exists q | q in KnownQuarters :: OffsetString(q) == key
    {
      var q := if key in NegativeKeys then NegativeKeys[key] else NonNegativeKeys[key];
      assert q in KnownQuarters && OffsetString(q) == key;
    }
  }

  /** The table has an entry for an offset exactly when the offset is one of
      the known quarter-hour offsets. */
  lemma KnownOffsets(quarters: int)
    ensures OffsetString(quarters) in Zones <==> quarters in KnownQuarters
  {
    KnownOffsetsAreKeys();
    KeysAreKnownOffsets();
    var key := OffsetString(quarters);
    if key in Zones {
      var q :| q in KnownQuarters && OffsetString(q) == key;
      OffsetStringInjective(quarters, q);
    }
  }

  /** The abbreviation and the zone name getTimeZoneAbbreviation returns. */
  datatype Abbreviation = Abbreviation(abbr: string, name: string)

  /** getTimeZoneAbbreviation: the table entry for the offset's text, or the
      UTC form of the offset. */
  function TimeZoneAbbreviation(quarters: int, isDST: bool): (r: Abbreviation)
    ensures quarters in KnownQuarters ==>
      OffsetString(quarters) in Zones && r.name == Zones[OffsetString(quarters)].name
    ensures quarters !in KnownQuarters ==> |r.abbr| > 3 && r.abbr[..3] == "UTC"
  {
    KnownOffsets(quarters);
    var offsetStr := OffsetString(quarters);
    if offsetStr in Zones then
      var zone := Zones[offsetStr];
      Abbreviation(if isDST then zone.daylight else zone.standard, zone.name)
    else
      var sign := if quarters >= 0 then "+" else "";
      Abbreviation("UTC" + sign + offsetStr, "Coordinated Universal Time " + sign + offsetStr)
  }

  /** A known offset gets its entry's daylight or standard abbreviation as
      isDST says, and the entry's name. */
  lemma KnownAbbreviation(quarters: int, isDST: bool)
    requires quarters in KnownQuarters
    ensures OffsetString(quarters) in Zones
    ensures var zone := Zones[OffsetString(quarters)];
      TimeZoneAbbreviation(quarters, isDST) ==
        Abbreviation(if isDST then zone.daylight else zone.standard, zone.name)
  {
    KnownOffsets(quarters);
  }

  /** The entries for 3.5, 9.5, 10 and 12 hours carry daylight
      abbreviations (IRDT, ACDT, AEDT, NZDT), but isDaylightSavingTime gives
      false for those offsets, so a caller that takes the flag from it always
      gets the standard abbreviation. */
  lemma UnusedDaylightNames(month: int)
    ensures TimeZoneAbbreviation(14, true).abbr == "IRDT" && !IsDaylightSavingTime(month, 14)
    ensures TimeZoneAbbreviation(38, true).abbr == "ACDT" && !IsDaylightSavingTime(month, 38)
    ensures TimeZoneAbbreviation(40, true).abbr == "AEDT" && !IsDaylightSavingTime(month, 40)
    ensures TimeZoneAbbreviation(48, true).abbr == "NZDT" && !IsDaylightSavingTime(month, 48)
  {
    HalfHourDaylightNames();
    WholeHourDaylightNames();
  }

  lemma HalfHourDaylightNames()
    ensures TimeZoneAbbreviation(14, true).abbr == "IRDT"
    ensures TimeZoneAbbreviation(38, true).abbr == "ACDT"
  {
    assert OffsetString(14) == "3.5" && OffsetString(38) == "9.5";
  }

  lemma WholeHourDaylightNames()
    ensures TimeZoneAbbreviation(40, true).abbr == "AEDT"
    ensures TimeZoneAbbreviation(48, true).abbr == "NZDT"
  {
    TwoDigitHours();
    assert OffsetString(40) == "10" && OffsetString(48) == "12";
  }

  /** An unknown offset gets "UTC", a plus sign unless it is negative, and
      its text; the offset can be read back from the abbreviation. */
  lemma FallbackAbbreviation(quarters: int, isDST: bool)
    requires quarters !in KnownQuarters
    ensures var r := TimeZoneAbbreviation(quarters, isDST);
      |r.abbr| > 4 && r.abbr[..3] == "UTC" &&
      (quarters >= 0 <==> r.abbr[3] == '+') &&
      ParseOffset(if quarters >= 0 then r.abbr[4..] else r.abbr[3..]) == Some(quarters) &&
      r.name == "Coordinated Universal Time " + r.abbr[3..]
  {
    KnownOffsets(quarters);
    OffsetStringRoundTrip(quarters);
    var text := OffsetString(quarters);
    var sign := if quarters >= 0 then "+" else "";
    assert TimeZoneAbbreviation(quarters, isDST) ==
      Abbreviation("UTC" + sign + text, "Coordinated Universal Time " + sign + text);
    assert |text| > 0 && (quarters < 0 <==> text[0] == '-');
    UtcForm(text, sign, quarters);
  }

  /** The UTC form of an offset's text, taken apart again. */
  lemma UtcForm(text: string, sign: string, quarters: int)
    requires |text| > 0 && ParseOffset(text) == Some(quarters)
    requires quarters < 0 <==> text[0] == '-'
    requires sign == if quarters >= 0 then "+" else ""
    ensures var abbr := "UTC" + sign + text;
      |abbr| > 4 && abbr[..3] == "UTC" &&
      (quarters >= 0 <==> abbr[3] == '+') &&
      ParseOffset(if quarters >= 0 then abbr[4..] else abbr[3..]) == Some(quarters) &&
      "Coordinated Universal Time " + sign + text == "Coordinated Universal Time " + abbr[3..]
  {
    var abbr := "UTC" + sign + text;
    assert abbr[3..] == sign + text;
    if quarters >= 0 {
      assert abbr[4..] == text;
    }
  }

  /** Eastern time reads EDT under daylight saving time and EST
      otherwise. */
  lemma EasternExample()
    ensures TimeZoneAbbreviation(-20, true) == Abbreviation("EDT", "Eastern")
    ensures TimeZoneAbbreviation(-20, false) == Abbreviation("EST", "Eastern")
  {
    assert OffsetString(-20) == "-5";
  }

  /** India and China have one abbreviation each, whatever the flag. */
  lemma SingleAbbreviationExamples(isDST: bool)
    ensures TimeZoneAbbreviation(22, isDST) == Abbreviation("IST", "India")
    ensures TimeZoneAbbreviation(32, isDST) == Abbreviation("CST", "China")
  {
    assert OffsetString(22) == "5.5" && OffsetString(32) == "8";
  }

  /** A known offset whose entry has one abbreviation for both seasons gets
      that abbreviation whatever the flag. */
  lemma AbbreviationIgnoresFlag(quarters: int)
    requires quarters in KnownQuarters
    ensures OffsetString(quarters) in Zones
    ensures Zones[OffsetString(quarters)].standard == Zones[OffsetString(quarters)].daylight ==>
      TimeZoneAbbreviation(quarters, true) == TimeZoneAbbreviation(quarters, false)
  {
    KnownAbbreviation(quarters, true);
    KnownAbbreviation(quarters, false);
  }

  /** An offset of 5.25 hours is not in the table. */
  lemma FallbackExample(isDST: bool)
    ensures TimeZoneAbbreviation(21, isDST) == Abbreviation("UTC+5.25", "Coordinated Universal Time +5.25")
  {
    KnownOffsets(21);
    assert OffsetString(21) == "5.25";
  }

  /** Nor is -13 hours; a negative offset brings its own sign. */
  lemma NegativeFallbackExample(isDST: bool)
    ensures TimeZoneAbbreviation(-52, isDST) == Abbreviation("UTC-13", "Coordinated Universal Time -13")
  {
    KnownOffsets(-52);
    TwoDigitHours();
    assert OffsetString(-52) == "-13";
  }

  /** The offsets that observe daylight saving time, in quarter hours:
      -10, -9, -8, -7, -6, -5, -4, -3.5, 0, 1 and 2 hours. */
  const DstQuarters: seq<int> := [-40, -36, -32, -28, -24, -20, -16, -14, 0, 4, 8]

  /** isDaylightSavingTime for the 0-based month of the date and the offset. */
  function IsDaylightSavingTime(month: int, quarters: int): (r: bool)
    ensures r ==> quarters in DstQuarters
    ensures r && quarters >= -20 ==> 3 <= month <= 9
    ensures r && quarters < -20 ==> month <= 3 || month >= 9
  {
    var usesDST := quarters in DstQuarters;
    if !usesDST then false
    else if quarters >= -20 && quarters <= 8 then month >= 3 && month <= 9
    else if quarters <= -24 || quarters >= 32 then month >= 9 || month <= 3
    else false
  }

  /** The rule stated without its dead parts: April to October for the
      listed offsets from -5 to 2 hours, October to April for the listed
      offsets from -10 to -6 hours, never otherwise. */
  function DstReference(month: int, quarters: int): bool
  {
    (quarters in {-20, -16, -14, 0, 4, 8} && 3 <= month <= 9) ||
    (quarters in {-40, -36, -32, -28, -24} && (month <= 3 || month >= 9))
  }

  /** isDaylightSavingTime agrees with the reference rule everywhere; the
      `offset >= 8` test and the final `return false` never decide. */
  lemma DstMatchesReference(month: int, quarters: int)
    ensures IsDaylightSavingTime(month, quarters) == DstReference(month, quarters)
  {
  }

  /** An offset that is not listed never observes daylight saving time. */
  lemma UnlistedNoDst(month: int, quarters: int)
    requires quarters !in DstQuarters
    ensures !IsDaylightSavingTime(month, quarters)
  {
  }

  /** Listed offsets from -5 to 2 hours: daylight time from April through
      October. */
  lemma NorthernDst(month: int, quarters: int)
    requires quarters in DstQuarters && -20 <= quarters <= 8
    ensures IsDaylightSavingTime(month, quarters) <==> 3 <= month <= 9
  {
  }

  /** Listed offsets from -10 to -6 hours: daylight time from October
      through April. */
  lemma SouthernDst(month: int, quarters: int)
    requires quarters in DstQuarters && quarters <= -24
    ensures IsDaylightSavingTime(month, quarters) <==> (month >= 9 || month <= 3)
  {
  }
}
