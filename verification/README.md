# Lunar calendar and time-zone abbreviations, modelled in Dafny

This project models two library files of a world-clock web application.

`lib/lunar-calendar.ts` converts a Gregorian date to a Chinese lunar date:
- It unpacks month and year lengths from a packed table that covers 1900 to 2100 (`getLeapMonth`, `getLunarMonthDays`, `getLunarYearDays`).
- It walks years, and then months, from the epoch 1900-01-31 (`solarToLunar`).
- It names the year by its stem and branch (干支) and its animal, and names the month and the day.
- It looks up a traditional festival and a simplified solar term.
- It formats the result as a long and a short text (`getLunarDateString`, `getShortLunarDateString`).

`lib/time-zone-abbreviations.ts` handles time-zone labels:
- It maps a UTC offset to a standard or daylight abbreviation and a zone name, with a `UTC±offset` form as the fallback (`getTimeZoneAbbreviation`).
- It applies a rough month rule for daylight saving time (`isDaylightSavingTime`).

## Modules

- `LunarTables` (`lunar_tables.dfy`) holds:
  - the label lists;
  - the packed `LUNAR_INFO` table, as decade rows;
  - the festival table.
- `LunarLengths` (`lunar_lengths.dfy`) models:
  - the bit decoding of the table;
  - the loop of `getLunarYearDays` and the steps of `getLunarMonthDays`, as methods proved equal to the specification functions `MonthDays` and `YearDays`.
- `LunarWalk` (`lunar_walk.dfy`) models the two loops of `solarToLunar`:
  - The year walk (`FindLunarYear`) stops at the least year from 1900 on that is longer than the day offset.
  - The month walk (`ResolveMonthDay`) splits the in-year offset into a month, a leap flag and a day. It is proved against `IsPositionOf`.
- `LunarNames` (`lunar_names.dfy`) holds:
  - the year, zodiac, month and day labels;
  - the festival lookup and the solar-term chain;
  - inverse readers for each, used to prove that the labels are injective.
- `LunarConversion` (`lunar_conversion.dfy`) holds:
  - `solarToLunar` and the two formatters, as methods;
  - the specification predicate `ConvertsTo`;
  - lemmas that count the annotations in the formatted texts.
- `TimeZoneAbbreviations` (`time_zone_abbreviations.dfy`) holds:
  - the offset table, keyed by the offset's text as in the source;
  - JavaScript's `toString` for quarter-hour offsets, with a parser that reads it back;
  - the abbreviation lookup and the daylight-saving rule.

## How the inputs are represented

- `solarToLunar` takes a `Date`. The model takes three integers instead:
  - the whole days since 1900-01-31, which the source computes as `Math.floor((date - baseDate) / 86400000)`;
  - the value of `getMonth()` (0-based);
  - the value of `getDate()`.
- Offsets in hours are whole multiples of a quarter hour in the table. The model counts them in quarter hours, so -14 stands for -3.5.
- JavaScript's `>>` and `& 0x1` are applied only to table entries. Those are non-negative and below 2^17, so the model uses division by a power of two and the remainder.

## What the code does

These are properties of the code as written. Where the comments say otherwise, the model follows the code.

- **The year walk never subtracts.** It stops at the first year from 1900 on whose length exceeds the whole offset.
  - An offset of at least 390 days makes it loop for ever (`LargeOffsetNeverStops`). That covers every date from 1902 on.
  - An offset of at least every year's length also loops for ever. `FindLunarYear` reports this as `WalksForever`, and `SolarToLunar` as `NeverReturns`. Both are proved equivalent to "no year is long enough" (`NoLunarYear`).
- **The in-year offset is not counted from the start of the year.** The code computes `offset - (days(year - 1) - days(1900))`.
  - The table has no 1899, so that year counts as 360 days.
  - At the epoch this gives 25, not 0. So 1900-01-31 converts to the 26th of the first month (`EpochInYearOffset`, `EpochConversion`), although the comment calls it the first day.
  - For a stopped year, the in-year offset can still fall outside the year. For 1900, offsets 360 to 384 do (`FirstYearConverts`).
  - In that case the source indexes its label lists out of range and puts `undefined` into the labels. `SolarToLunar` returns `UndefinedLabels` there.
- **Month lengths use a shifted bit.** A regular month after the leap month, and the leap month itself, read bit `17 - month` instead of `16 - month` (`MonthBit`).
  - As decoded this way, a year can have 386 days (2012, `YearDays2012`).
- **Year names count from 甲子 in 1900.** The stem index is `(year - 1900) % 10`. So 1900 is 甲子 and 2025 is 己巳 (`NamedYears`).
- **The daylight-saving rule has dead parts.**
  - The `offset >= 8` test and the final `return false` never decide anything, because no listed offset reaches them (`DstMatchesReference`).
  - The October-to-April rule, which the comment calls the southern hemisphere's, applies to the listed offsets from -10 to -6 hours.
- **Some daylight abbreviations are never chosen by the rule.** The table has daylight abbreviations for 3.5, 9.5, 10 and 12 hours. The rule gives false for those offsets, so a flag taken from it never selects them (`UnusedDaylightNames`).

## Model

| member | source | states |
|---|---|---|
| LunarTables.LunarInfo | lib/lunar-calendar.ts:52-254 | entry `index` of the 201-entry table, stored by decade; every entry fits in the 17 bits the decoding reads |
| LunarTables.TableLeapNibbles | lib/lunar-calendar.ts:52-254 | every entry of the packed table has a leap-month nibble of 0 or 2..11 |
| LunarLengths.LeapMonth | lib/lunar-calendar.ts:332-336 | the leap month is a nibble below 16, and 0 for a year outside 1900..2100 |
| LunarLengths.LeapMonthRange | lib/lunar-calendar.ts:332-336 | every year's leap month is 0 or one of the months 2..11 |
| LunarLengths.MonthBit | lib/lunar-calendar.ts:356-362 | the bit that decides a month's length is 16 - month, or 17 - month after the extra shift; with no leap month, and before the leap month, it is always 16 - month |
| LunarLengths.MonthDays | lib/lunar-calendar.ts:345-363 | every month decodes to 29 or 30 days |
| LunarLengths.GetLunarMonthDays | lib/lunar-calendar.ts:345-363 | the source's steps (the sentinel 30, the extra shift after the leap month) compute MonthDays |
| LunarLengths.MonthsTotal | lib/lunar-calendar.ts:374-377 | n months total between 29n and 30n days |
| LunarLengths.YearDays | lib/lunar-calendar.ts:370-385 | every year has between 348 and 390 days |
| LunarLengths.GetLunarYearDays | lib/lunar-calendar.ts:370-385 | the loop over months 1..12 plus the leap month computes YearDays |
| LunarLengths.OutOfTableYearDays | lib/lunar-calendar.ts:345-347 | a year outside the table counts as exactly 360 days |
| LunarLengths.LeapYearIsLong | lib/lunar-calendar.ts:370-385 | a table year has a leap month exactly when it is longer than 360 days |
| LunarLengths.YearDays1900 | lib/lunar-calendar.ts:370-385 | 1900 has 385 days |
| LunarLengths.YearDays2012 | lib/lunar-calendar.ts:356-362 | 2012 has 386 days as the code decodes it |
| LunarWalk.FindLunarYear | lib/lunar-calendar.ts:411-417 | the walk stops at the least year from 1900 on that is longer than the offset, and runs for ever exactly when no year is |
| LunarWalk.BeyondTableNoYear | lib/lunar-calendar.ts:411-417 | once the walk passes 2100 with the offset still too long, no year ever stops it |
| LunarWalk.LunarYearUnique | lib/lunar-calendar.ts:411-417 | the year the walk stops at is unique |
| LunarWalk.StaysInFirstYear | lib/lunar-calendar.ts:411-417 | the walk stays at 1900 exactly for offsets below 385, negative ones included |
| LunarWalk.SmallOffsetStops | lib/lunar-calendar.ts:411-417 | every offset below 360 stops the walk, at 2101 at the latest |
| LunarWalk.LargeOffsetNeverStops | lib/lunar-calendar.ts:411-417 | every offset of 390 or more makes the walk run for ever |
| LunarWalk.InYearOffset | lib/lunar-calendar.ts:424 | the in-year offset as written, `offset - (days(year - 1) - days(1900) + 0)`: after a year outside the table it is the offset minus 360 plus 1900's length, and it always lies within 348..390 days below the offset plus 1900's length |
| LunarWalk.EpochInYearOffset | lib/lunar-calendar.ts:424 | at the epoch the in-year offset is 25 |
| LunarWalk.ResolveMonthDay | lib/lunar-calendar.ts:420-444 | the month walk, with its leap-month exit, ends at the month, leap flag and day whose position in the year is the in-year offset |
| LunarWalk.YearEnd | lib/lunar-calendar.ts:426-441 | the months and the leap month, in walk order, fill the year exactly |
| LunarWalk.PositionUnique | lib/lunar-calendar.ts:426-444 | an in-year offset has only one (month, leap flag, day) position |
| LunarWalk.EpochPosition | lib/lunar-calendar.ts:396-444 | offset 0 falls in 1900, month 1 (not leap), day 26 |
| LunarNames.YearName | lib/lunar-calendar.ts:309-314 | the year name is three characters: a celestial stem, a terrestrial branch and 年 |
| LunarNames.Zodiac | lib/lunar-calendar.ts:321-325 | the zodiac is one of the twelve single-character animals |
| LunarNames.YearNamePeriod | lib/lunar-calendar.ts:309-314 | the year name repeats after sixty years |
| LunarNames.ZodiacPeriod | lib/lunar-calendar.ts:321-325 | the zodiac repeats after twelve years |
| LunarNames.YearNameParts | lib/lunar-calendar.ts:309-314 | the stem and branch read back from a year name are (year - 1900) % 10 and % 12 |
| LunarNames.SixtyYearCycle | lib/lunar-calendar.ts:311-312 | equal remainders by 10 and 12 hold exactly when the difference is a multiple of 60 |
| LunarNames.YearNameCycle | lib/lunar-calendar.ts:309-314 | two years share a name exactly when they differ by a multiple of sixty |
| LunarNames.ZodiacFollowsBranch | lib/lunar-calendar.ts:309-325 | two years share the animal exactly when they share the branch |
| LunarNames.NamedYears | lib/lunar-calendar.ts:309-325 | 1900 is 甲子年 of the rat, 2025 is 己巳年 of the snake |
| LunarNames.MonthName | lib/lunar-calendar.ts:448 | the month name ends in 月, starts with 闰 exactly for a leap month, and has three characters then and two otherwise |
| LunarNames.DayName | lib/lunar-calendar.ts:449 | the day name is one of the thirty two-character day labels |
| LunarNames.MonthNameRoundTrip | lib/lunar-calendar.ts:448 | a month name reads back as its month and leap flag |
| LunarNames.DayNameRoundTrip | lib/lunar-calendar.ts:449 | a day name reads back as its day |
| LunarNames.MonthNameInjective | lib/lunar-calendar.ts:448 | two months share a name exactly when month and leap flag agree |
| LunarNames.DayNameInjective | lib/lunar-calendar.ts:15-46 | two days share a label exactly when they are the same day |
| LunarNames.FestivalKey | lib/lunar-calendar.ts:455 | the festival key is four characters with 月 second and no leap marker |
| LunarNames.Festival | lib/lunar-calendar.ts:455-456 | the festival is one of the table's festivals, or "" when the key is not in the table |
| LunarNames.FestivalKeyRoundTrip | lib/lunar-calendar.ts:455 | the festival key reads back as its month and day |
| LunarNames.FestivalDays | lib/lunar-calendar.ts:455-456 | a lunar day has a festival exactly when it is one of the nine days of the table |
| LunarNames.NamedFestivals | lib/lunar-calendar.ts:257-267 | 正月初一 is 春节, 八月十五 is 中秋节, 腊月廿三 and 廿四 are 小年, 腊月三十 is 除夕, and 三月初三 has no festival |
| LunarNames.SolarTerm | lib/lunar-calendar.ts:459-481 | the term is "" or one of the eight names, and a term falls only on days 4..23 of February, March, May, June, August, September, November and December |
| LunarNames.SolarTermMatchesTable | lib/lunar-calendar.ts:459-481 | a date gets a term exactly on the sixteen table dates, and then that date's term |
| LunarNames.SolarTermRange | lib/lunar-calendar.ts:459-481 | every term is one of the eight, and January, April, July and October have none |
| LunarConversion.ConvertsTo | lib/lunar-calendar.ts:392-495 | a converted record has a year from 1900 on, a month in 1..12 and a day in 1..30 |
| LunarConversion.SolarToLunar | lib/lunar-calendar.ts:392-495 | the result is the record ConvertsTo describes; the undefined-label case is exactly an in-year offset outside the year; it runs for ever exactly when no year is long enough |
| LunarConversion.ConversionUnique | lib/lunar-calendar.ts:392-495 | the conversion is a function of the day offset and the Gregorian month and day |
| LunarConversion.FirstYearConverts | lib/lunar-calendar.ts:411-444 | offsets below 385 land in 1900, and their in-year offset lies inside 1900 exactly from -25 to 359 |
| LunarConversion.EpochConversion | lib/lunar-calendar.ts:396-494 | 1900-01-31 converts to 1900, 正月廿六, 甲子年, 鼠, no festival, no term |
| LunarConversion.EpochLabels | lib/lunar-calendar.ts:447-481 | 1900 is named 甲子年 and 鼠, month 1 and day 26 are named 正月 and 廿六, 正月廿六 has no festival and 31 January no solar term |
| LunarConversion.LongForm | lib/lunar-calendar.ts:504-512 | the long text starts with the year name, ends with the term and 】 when there is a term, and ends with the day name when there is no annotation |
| LunarConversion.ShortForm | lib/lunar-calendar.ts:524-532 | the short text starts with 农历, ends with " \| " and the term when there is a term, and ends with the day name when there is no annotation |
| LunarConversion.GetLunarDateString | lib/lunar-calendar.ts:502-515 | the long text is LongForm of the converted record, with the same undefined and never-returning cases |
| LunarConversion.GetShortLunarDateString | lib/lunar-calendar.ts:522-535 | the short text is ShortForm of the converted record, with the same undefined and never-returning cases |
| LunarConversion.LongFormAnnotations | lib/lunar-calendar.ts:502-515 | for labels free of the markers, the long text has one 【 per non-empty festival or term |
| LunarConversion.ShortFormAnnotations | lib/lunar-calendar.ts:522-535 | for labels free of the markers, the short text has one \| per non-empty festival or term |
| LunarConversion.ConvertedLabelsPlain | lib/lunar-calendar.ts:447-481 | no label of a converted date contains 【, 】 or \| |
| LunarConversion.ConvertedAnnotations | lib/lunar-calendar.ts:502-535 | for every converted date, both texts carry exactly one marker per annotation |
| TimeZoneAbbreviations.OffsetString | lib/time-zone-abbreviations.ts:60 | the text of an offset is not empty and starts with "-" exactly for a negative offset |
| TimeZoneAbbreviations.NatToStringRoundTrip | lib/time-zone-abbreviations.ts:60 | the decimal digits of a whole number read back as that number |
| TimeZoneAbbreviations.OffsetStringRoundTrip | lib/time-zone-abbreviations.ts:60 | the text of every quarter-hour offset reads back as that offset |
| TimeZoneAbbreviations.OffsetStringInjective | lib/time-zone-abbreviations.ts:60 | different offsets have different texts |
| TimeZoneAbbreviations.KnownOffsetsAreKeys | lib/time-zone-abbreviations.ts:4-45 | the text of each of the 33 known offsets is a key of the table |
| TimeZoneAbbreviations.KeysAreKnownOffsets | lib/time-zone-abbreviations.ts:4-45 | every key of the table is the text of a known offset |
| TimeZoneAbbreviations.KnownOffsets | lib/time-zone-abbreviations.ts:60-63 | the table has an entry for an offset exactly when the offset is one of the 33 known ones |
| TimeZoneAbbreviations.TimeZoneAbbreviation | lib/time-zone-abbreviations.ts:53-76 | a known offset gets its table entry's zone name; any other offset gets an abbreviation starting with UTC |
| TimeZoneAbbreviations.KnownAbbreviation | lib/time-zone-abbreviations.ts:63-68 | a known offset gets its entry's daylight or standard abbreviation as isDST says, and the entry's name |
| TimeZoneAbbreviations.AbbreviationIgnoresFlag | lib/time-zone-abbreviations.ts:63-68 | a known offset whose entry has the same standard and daylight abbreviation gets the same result whatever isDST says |
| TimeZoneAbbreviations.FallbackAbbreviation | lib/time-zone-abbreviations.ts:70-75 | an unknown offset gets "UTC", a "+" exactly when it is not negative, and its text, from which the offset reads back; the name is "Coordinated Universal Time " and the same suffix |
| TimeZoneAbbreviations.UnusedDaylightNames | lib/time-zone-abbreviations.ts:23-37 | IRDT, ACDT, AEDT and NZDT are in the table but the daylight rule is false for their offsets |
| TimeZoneAbbreviations.EasternExample | lib/time-zone-abbreviations.ts:11 | -5 hours reads EDT under daylight time and EST otherwise |
| TimeZoneAbbreviations.SingleAbbreviationExamples | lib/time-zone-abbreviations.ts:27-32 | 5.5 and 8 hours read IST and CST whatever the flag |
| TimeZoneAbbreviations.FallbackExample | lib/time-zone-abbreviations.ts:70-75 | 5.25 hours reads UTC+5.25 |
| TimeZoneAbbreviations.NegativeFallbackExample | lib/time-zone-abbreviations.ts:70-75 | -13 hours reads UTC-13, with no added sign |
| TimeZoneAbbreviations.IsDaylightSavingTime | lib/time-zone-abbreviations.ts:86-106 | daylight time holds only for the listed offsets; for those from -5 hours up only in months 3..9, and for those below only in months 9..11 and 0..3 |
| TimeZoneAbbreviations.DstMatchesReference | lib/time-zone-abbreviations.ts:86-106 | the rule equals: April to October for the listed offsets from -5 to 2 hours, October to April for those from -10 to -6, never otherwise |
| TimeZoneAbbreviations.UnlistedNoDst | lib/time-zone-abbreviations.ts:92-93 | an offset that is not listed never observes daylight time |
| TimeZoneAbbreviations.NorthernDst | lib/time-zone-abbreviations.ts:96-98 | for listed offsets from -5 to 2 hours, daylight time holds exactly in months 3..9 |
| TimeZoneAbbreviations.SouthernDst | lib/time-zone-abbreviations.ts:100-103 | for listed offsets up to -6 hours, daylight time holds exactly in months 9..11 and 0..3 |

## Left out

- Date arithmetic: building the epoch `new Date(1900, 0, 31)` and turning a `Date` into a day offset, `getMonth()` and `getDate()`. The model takes the three integers as inputs, so time zones, daylight shifts and floating-point rounding of `getTime()` are not modelled.
- `SOLAR_TERMS` and `TERM_INFO` (lib/lunar-calendar.ts:270-302) are declared but never used, so they are not in the model.
- `undefined` in the labels: when the in-year offset falls outside the year, the source builds labels from out-of-range indices. The model returns `UndefinedLabels(year, offsetInYear)` instead of a record of "undefined" strings.
- Loops that never end: the source's year walk runs for ever for long offsets. The model stops at 2101 with the verdict `WalksForever` / `NeverReturns`, which is proved equivalent to the source looping for ever.
- LunarNames.YearName: requires year >= 1900. The source's only caller passes the walk's year, which is never below 1900. A smaller year would make JavaScript's `%` negative and give `undefined`, which is not modelled.
- LunarNames.MonthName and LunarNames.DayName: require an in-range month and day. The conversion calls them only after the month walk, which guarantees the range.
- LunarWalk.LargeOffsetNeverStops: stated from 390 days, the proved upper bound of every year. The exact threshold (386, the longest year as decoded) is not proved.
- TimeZoneAbbreviations.OffsetString: models `Number.prototype.toString` only for quarter-hour offsets. Other fractional offsets, `-0`, `NaN` and exponent notation are not modelled.
- The default `isDST = false` of `getTimeZoneAbbreviation`: Dafny has no default arguments here, so the flag is always passed.
- The React components, the server-time route and `lib/user-location.ts` are not part of this model.
