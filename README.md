# make-dates-great-again, modelled in Dafny

The library adds calendar arithmetic and a pattern formatter to the host
`Date`. This project models the logic of `src/index.ts` and proves properties
of it.

The model works on two views of a date:

- **Local calendar fields.** `Calendar.DateTime` holds the year, the zero-based
  month, the day, the hour, the minute, the second and the millisecond.
  `Formatter.LocalView` adds the weekday that `getDay()` reports and the
  minutes that `getTimezoneOffset()` reports.
- **The instant.** This is the `getTime()` value in milliseconds since the
  epoch, as a plain `int`. The `Instants` module uses it.

A missing operand (`null` or `undefined`) is `Option.None`. The one thrown
error ("month is out of bounds") is `Result.Failure`.

Modules:

- `Wrappers`: `Option` and `Result`.
- `JsSemantics`: the JavaScript behaviour the library relies on, on integers.
  - `Math.trunc` of a quotient and the `%` operator, both rounding toward zero.
  - `toString`.
  - `padStart`.
  - `substr`.
- `Replace`: `String.prototype.replace` with a global regular expression that
  matches one literal string. Also the `indexOf(...) > -1` guard in front of it.
- `Calendar`:
  - `isLeapYear` and `daysInMonth`.
  - Day rollover, which is what the host's `setDate` and `setFullYear` do to
    the copy the library mutates. `SetDate` is a loop proved against a day
    number.
  - `addDays`, `addMonths` and `addYears`.
  - `startOfDay`, `startOfMonth` and `startOfYear`.
  - `isOnSameDayAs` and `age`.
- `Instants`:
  - `daysBetween`.
  - `compare`, `isEqualTo`, `isAfter`, `isBefore` and `isBetween`.
  - `addMs`, `addSeconds`, `addMinutes` and `addHours`.
- `Tokens`: the first phase of `format`. A chain of 31 global replaces turns
  each token of a pattern into a placeholder `{0}` .. `{29}`. `Lex` is a
  reference tokenizer that always takes the longest token. The proof shows
  that the chain writes exactly the placeholder encoding of `Lex`'s tokens,
  for every pattern.
- `Formatter`: the second phase and the whole `format`. Thirty guarded
  replaces, in code order, each put one field's text in place of its
  placeholder.
  - `FieldText` gives that text for each code.
  - `Render` is the reference meaning: every token written as its field's
    text, every other character kept.
  - `FormatIsRender` proves that `Format` equals `Render` of the tokenized
    pattern whenever neither the pattern nor the names hold a `{`.
- `SourceExamples`: the formatter on the patterns the repository's tests use.
  For each pattern, a general lemma says what `format` gives for any date. A
  concrete lemma then gives the exact string for the test's date.
- `CalendarExamples`: the calendar operations on the dates the repository's
  tests use.

### Where the documentation and the code disagree

The model follows the code.

- **`addMonths` across a year boundary.** The documentation comment of
  `addMonths` (src/index.ts:33-36) promises "the specified number of months
  after the source date". The code (src/index.ts:184-197) splits `months`
  with `Math.trunc` and JavaScript's `%`. When the month then leaves 0..11,
  it moves the year by one but the month by 11, not 12. So 25 November 1991
  plus 3 months gives 25 March 1992, four months later (see "## Findings").
- **The `addMonths` round trip.** Under that documentation, adding `n` months
  and then `-n` months would come back to the start when no day is clamped.
  For the code the round trip lands one month off in two cases:
  - from December, when the forward step crosses the year end;
  - from January, when a backward step crosses the year start.

  `Calendar.AddMonthsRoundTrip` states exactly when this happens.

### Short years under `yy` and `y`

`yy` takes `toString().substr(2)` of the year (src/index.ts:315), which is ""
for a one- or two-digit year. `y` then reads `parseInt("")` and writes "NaN".

## Model

| member | source | states |
|---|---|---|
| JsSemantics.TruncDiv | src/index.ts:185 | `Math.trunc(a / b)`: the magnitude is `\|a\|` divided by `b`, and the sign is that of `a` (or the result is 0) |
| JsSemantics.JsRem | src/index.ts:186 | `a % b`: `a == b * TruncDiv(a, b) + r`, with `\|r\| < b`, `r` taking the dividend's sign, and `\|r\| == \|a\| mod b` |
| JsSemantics.NatToString | src/index.ts:331 | `n.toString()`: a non-empty digit string with no leading zero unless `n` is 0, whose value is `n` |
| JsSemantics.NatToStringInjective | src/index.ts:331 | two naturals with the same numeral are equal |
| JsSemantics.NatToStringShort | src/index.ts:328 | the numeral has one digit exactly below 10, two digits exactly from 10 to 99, and at most three digits exactly below 1000 |
| JsSemantics.IntToString | src/index.ts:312 | `toString()` of an integer: the numeral for a non-negative one, `-` before the magnitude's numeral otherwise |
| JsSemantics.PadStart | src/index.ts:328 | `padStart(width, fill)`: length `max(\|s\|, width)`, `s` at the end, only `fill` before it |
| JsSemantics.PadStartValue | src/index.ts:328 | zero-padding a digit string keeps it all digits and keeps its value |
| JsSemantics.SubstrFrom | src/index.ts:315 | `substr(start)`: the suffix after `start`, empty past the end |
| JsSemantics.SubstrPrefix | src/index.ts:325 | `substr(0, n)`: a prefix of `s` of length `min(n, \|s\|)` |
| Replace.ReplaceAll | src/index.ts:270-418 | definition of a global literal replace; `ReplaceAbsent`, `ReplaceNoFirstChar`, `ReplaceRunSplit`, `ReplaceInRun` and `ReplaceEnds` state its behaviour |
| Replace.ContainsMeansOccurs | src/index.ts:311 | `s.indexOf(p) > -1` holds exactly when `p` occurs in `s` at some index |
| Replace.ReplaceAbsent | src/index.ts:311-313 | a global replace leaves a text in which the pattern does not occur unchanged |
| Replace.GuardedReplace | src/index.ts:311-313 | the `indexOf` guard in front of a replace never changes the result |
| Replace.ReplaceNoFirstChar | src/index.ts:271-308 | a text without the pattern's first character is left unchanged |
| Replace.ReplaceRunSplit | src/index.ts:271-308 | for a run pattern, replacing distributes over a split point that does not cut a run of that character |
| Replace.ReplaceInRun | src/index.ts:271-273 | a run of `k` copies of `c` under a pattern of `n` copies becomes `k / n` replacements followed by `k % n` copies of `c` |
| Replace.ReplaceEnds | src/index.ts:271-308 | a replace keeps a non-empty text non-empty; its first and last characters come from the text or from the replacement |
| Tokens.Tokenize | src/index.ts:270-308 | definition of the chain of 31 replaces; `TokenizeIsEncodedLex` states what it computes |
| Tokens.RulesGrouped | src/index.ts:270-308 | every replace is a run of 1 to 4 copies of a token letter with a code below 30; for each letter the runs go longest first and end with the single letter |
| Tokens.ApplySplit | src/index.ts:270-308 | the replace chain distributes over a boundary that no token can straddle |
| Tokens.LexSplit | src/index.ts:270-308 | so does the reference tokenizer |
| Tokens.RunAgrees | src/index.ts:270-308 | on a run of one character, the replace chain writes the placeholders of the tokenizer's longest-first tokens |
| Tokens.ApplyIsEncodedLex | src/index.ts:270-308 | for any rule list grouped letter by letter, longest first, the replace chain equals the placeholder encoding of the tokenizer's output on every text |
| Tokens.TokenizeIsEncodedLex | src/index.ts:270-308 | the library's chain of 31 replaces turns every pattern into exactly the placeholder encoding of its longest-match tokens |
| Tokens.LexCodes | src/index.ts:270-308 | every placeholder code produced is one of `{0}` .. `{29}` |
| Tokens.LexLiteral | src/index.ts:270-308 | a text without token letters tokenizes to literals that spell it unchanged |
| Tokens.LexLits | src/index.ts:270-308 | every literal the tokenizer emits is a character of its input |
| Tokens.SpellConcat | src/index.ts:270-308 | the spelling and the meaning of a token list both distribute over concatenation |
| Tokens.LexSpell | src/index.ts:270-308 | writing a token list out (no two neighbouring tokens of one letter) and tokenizing it again gives back the fields and literals it stands for |
| Formatter.LabelsFor | src/index.ts:266 | a left-out argument takes its default: the English day and month tables, "AM" and "PM"; a supplied argument is used as given; the tables have 7 and 12 entries |
| Formatter.FieldText | src/index.ts:311-418 | definition of each placeholder's text; the `*Fields` lemmas below state each text's meaning |
| Formatter.YearTail | src/index.ts:315 | `substr(2)` of the year's numeral is all digits; `YearFields` gives its value |
| Formatter.OffsetText | src/index.ts:400-403 | definition of `K`; `OffsetRoundTrip` states its layout and value |
| Formatter.OffsetHoursText | src/index.ts:404-411 | definition of `zz` and `z`; `OffsetHoursMeaning` states their value |
| Formatter.Format | src/index.ts:267-268 | an absent or empty pattern gives "" |
| Formatter.Hour12 | src/index.ts:349 | the 12-hour dial value lies in 1..12 and agrees with the hour modulo 12 (0 reads 12, 14 reads 2) |
| Formatter.Centiseconds | src/index.ts:381 | `(ms / 10).toFixed(0)`: the nearest hundredth of a second, halves rounded up |
| Formatter.Deciseconds | src/index.ts:384 | `(ms / 100).toFixed(0)`: the nearest tenth of a second, halves rounded up |
| Formatter.Pad2Value | src/index.ts:328 | below 100, two-digit padding has exactly two digits and reads back as the number |
| Formatter.Pad3Value | src/index.ts:378 | below 1000, three-digit padding has exactly three digits and reads back as the number |
| Formatter.YearFields | src/index.ts:311-319 | `yyyy` reads back as the year; for a four-digit year `yy` is its last two digits and `y` the same without a leading zero; for a year of one or two digits `yy` is "" and `y` is "NaN" |
| Formatter.NameFields | src/index.ts:321-339 | `MMMM` and `dddd` index the month and day tables by month and weekday; `MMM` and `ddd` are their first three characters |
| Formatter.MonthNumberFields | src/index.ts:327-332 | `MM` is the one-based month in two digits; `M` is its plain numeral |
| Formatter.DayNumberFields | src/index.ts:340-345 | `dd` is the day in two digits; `d` is its plain numeral |
| Formatter.TwelveHourFields | src/index.ts:347-354 | `hh` is the 12-hour value in two digits; `h` is its plain numeral |
| Formatter.HourFields | src/index.ts:356-361 | `HH` is the hour in two digits; `H` is its plain numeral |
| Formatter.MinuteFields | src/index.ts:363-368 | `mm` is the minute in two digits; `m` is its plain numeral |
| Formatter.SecondFields | src/index.ts:370-375 | `ss` is the second in two digits; `s` is its plain numeral |
| Formatter.MillisField | src/index.ts:377-379 | `fff` is the millisecond in three digits |
| Formatter.CentisecondsField | src/index.ts:380-382 | `ff` is the rounded hundredths, in at least two digits |
| Formatter.ZeroNumeral | src/index.ts:393 | a numeral is "0" exactly for the number 0 |
| Formatter.TrimmedMillisField | src/index.ts:387-390 | `FFF` is empty exactly when the millisecond is 0, and otherwise is its plain numeral |
| Formatter.TrimmedFractionFields | src/index.ts:391-398 | `FF` is empty exactly below 5 ms and `F` exactly below 50 ms; otherwise each is the plain numeral of the rounded hundredths or tenths |
| Formatter.OffsetRoundTrip | src/index.ts:400-403 | below 100 hours, `K` is six characters; the sign is `+` exactly for an offset above 0; the hours and minutes are two digits each, the minutes are below 60, and together they give back the offset's magnitude |
| Formatter.OffsetHoursMeaning | src/index.ts:404-411 | a non-negative offset gives `z` as the nearest whole hour, halves rounded up, and `zz` as the same value padded; a negative one gives `-` and the whole hours truncated toward zero |
| Formatter.DesignatorFields | src/index.ts:413-418 | `tt` is the PM label from hour 12 on and the AM label before; `t` is its first character, or "undefined" for an empty label |
| Formatter.FieldTextBraceFree | src/index.ts:311-418 | no field text holds a `{` when the names and labels hold none |
| Formatter.RenderConcat | src/index.ts:311-418 | rendering distributes over concatenation of token lists |
| Formatter.PartialStep | src/index.ts:311-418 | one guarded replace step writes exactly field `k` and leaves the other placeholders alone |
| Formatter.ResolvePartial | src/index.ts:311-418 | after the first `k` steps, every field below `k` is written and every other field still waits as its placeholder |
| Formatter.FormatIsRender | src/index.ts:266-421 | for a non-empty pattern without `{` and names without `{`, `format` writes every longest-match token as its field's text and keeps every other character |
| Formatter.RenderBraceFree | src/index.ts:311-418 | a rendering of brace-free literals under brace-free labels holds no `{` |
| Formatter.FormatResolvesAll | src/index.ts:311-418 | under the same conditions, no placeholder is left in the result |
| Formatter.FormatLiteral | src/index.ts:266-421 | a pattern with no token letter and no `{` comes back unchanged, whatever the labels |
| SourceExamples.JoinConcat | src/index.ts:311-418 | joining pieces distributes over concatenation of the piece lists |
| SourceExamples.FormatDesignator | src/index.ts:266-421 | "hhtt ht" gives `hh`, `tt`, a space, `h`, `t` |
| SourceExamples.FormatMonthName | src/index.ts:266-421 | "MMMM MMM" gives `MMMM`, a space, `MMM` |
| SourceExamples.FormatDayName | src/index.ts:266-421 | "dddd ddd" gives `dddd`, a space, `ddd` |
| SourceExamples.FormatIso | src/index.ts:266-421 | "yyyy-MM-ddTHH:mm:ss.fff K" gives the fields in order, with the literal `-`, `T`, `:`, `.` and space between them |
| SourceExamples.FormatZone | src/index.ts:266-421 | "K zzz zz z" gives `K` twice, then `zz`, then `z`, separated by spaces |
| SourceExamples.FormatUnusual | src/index.ts:266-421 | "$dddd~[MMMM],d\n\t@hh/h\|mm&s.FFF/FF/F\n»K/zz/z" keeps every non-token character and writes its 13 tokens in place |
| SourceExamples.LabelsForBraceFree | src/index.ts:266 | the default tables and labels hold no `{`, so brace-free arguments give brace-free labels |
| SourceExamples.MidnightHours | src/index.ts:347-354 | at hour 0, `hh` and `h` are both "12" |
| SourceExamples.AfternoonHours | src/index.ts:347-354 | at hour 14, `hh` is "02" and `h` is "2" |
| SourceExamples.MorningDesignator | src/index.ts:413-418 | before noon with AM label "午前", `tt` is "午前" and `t` is "午" |
| SourceExamples.AfternoonDesignator | src/index.ts:413-418 | from noon on with PM label "午後", `tt` is "午後" and `t` is "午" |
| SourceExamples.FormatIsoPattern | src/index.test.ts:622-628 | 28 May 1983 16:20:04.020 under "yyyy-MM-ddTHH:mm:ss.fff K" gives "1983-05-28T16:20:04.020 " followed by the offset |
| SourceExamples.FormatCustomMonthNames | src/index.test.ts:636-655 | 28 May 1983 under "MMMM MMM" with Latin month names gives "Maius Mai" |
| SourceExamples.FormatCustomDayNames | src/index.test.ts:656-670 | Thursday 14 October 2021 under "dddd ddd" with Tagalog day names gives "Huwébes Huw" |
| SourceExamples.FormatCustomAm | src/index.test.ts:671-677 | midnight under "hhtt ht" with AM label "午前" gives "12午前 12午" |
| SourceExamples.FormatCustomPm | src/index.test.ts:678-684 | 14:00 under "hhtt ht" with PM label "午後" gives "02午後 2午" |
| SourceExamples.FormatPositiveOffset | src/index.test.ts:685-692 | a timezone offset of 180 under "K zzz zz z" gives "+03:00 +03:00 03 3" |
| SourceExamples.FormatNegativeOffset | src/index.test.ts:693-700 | a timezone offset of -90 under "K zzz zz z" gives "-01:30 -01:30 -01 -1" |
| SourceExamples.FormatUnusualPattern | src/index.test.ts:701-707 | 01:00 local on Saturday 28 May 1983, with offset -60, under the unusual pattern gives "$Saturday~[May],28\n\t@01/1\|00&0.//\n»-01:00/-01/-1" |
| Calendar.IsLeapYear | src/index.ts:115-117 | definition of `Math.trunc(year) % 4 === 0`; `LeapYearIsDivisibleByFour` states its meaning |
| Calendar.LeapYearIsDivisibleByFour | src/index.ts:115-117 | `isLeapYear` is divisibility by 4, with no century rule, for negative years as well |
| Calendar.DaysInMonth | src/index.ts:118-135 | defined exactly for months 0..11 and "month is out of bounds" otherwise; January, March, May, July, August, October and December have 31 days; April, June, September and November have 30; February has 29 in a leap year and 28 otherwise |
| Calendar.YearLength | src/index.ts:121-134 | the twelve month lengths add up to 366 in a leap year and 365 otherwise |
| Calendar.OrdinalInjective | src/index.ts:180 | distinct valid dates have distinct day numbers |
| Calendar.SetDate | src/index.ts:180 | `setDate(n)` on a copy gives a valid date whose day number is that of day `n` of the current month; the other fields are kept, and an in-range `n` only sets the day |
| Calendar.SetFullYear | src/index.ts:207 | `setFullYear(y)` on a copy gives a valid date whose day number is that of the same month and day in year `y`; the other fields are kept, and a date that exists in `y` only changes the year |
| Calendar.AddDays | src/index.ts:178-182 | the valid date exactly `days` day numbers away, at the same time of day, `days` whole days later in local milliseconds; `addDays(0)` changes nothing |
| Calendar.AddMonths | src/index.ts:184-197 | a valid date at midnight; its month count moves by `months` plus the drift of the 11-month renormalisation; its day is the source day clamped to the target month's length |
| Calendar.MonthDriftSign | src/index.ts:188-194 | the drift is -1, 0 or 1; it is 0 exactly when the raw month stays in 0..11, and it always points the way the months move |
| Calendar.AddMonthsRoundTrip | src/index.ts:184-197 | for a day up to 28, adding `months` and then `-months` lands back at the same day, at midnight; it is one month later only from December with a forward drift, and one month earlier only from January with a backward drift |
| Calendar.AddMonthsIntended | src/index.ts:184-197 | with renormalisation by 12: a valid date at midnight whose month count moves by exactly `months`, with the day clamped to the target month |
| Calendar.AddMonthsIntendedRoundTrip | src/index.ts:184-197 | with renormalisation by 12, adding `months` and then `-months` to a day up to 28 comes back to the start of the same day |
| Calendar.AddYears | src/index.ts:199-210 | a valid date in year `year + years` with the same month and time; the day is the same, except that 29 February becomes 28 February when the target year is not a leap year; `addYears(0)` changes nothing |
| Calendar.StartOfDay | src/index.ts:232-234 | the same day at the earliest local time of any valid time on that day, not after the source and less than a day before it |
| Calendar.StartOfMonth | src/index.ts:236-238 | the same month at the earliest local time of any valid date in it, not after the source and less than the month's length before it |
| Calendar.StartOfYear | src/index.ts:240-242 | the same year at the earliest local time of any valid date in it, not after the source and less than the year's length before it |
| Calendar.IsOnSameDayAs | src/index.ts:228-230 | true exactly when the other date is present and has the same year, month and day |
| Calendar.Age | src/index.ts:162-176 | the number of birthdays reached by the other date: birthday number `r` has been reached, and birthday number `r + 1` has not |
| Calendar.AgeRule | src/index.ts:162-176 | the age is the difference in years, less one exactly when the other date's month and day come before the birth month and day |
| Instants.DaysBetween | src/index.ts:136-138 | the whole number of days nearest to the distance between the instants, halves rounded up |
| Instants.DaysBetweenSymmetric | src/index.ts:136-138 | the order of the instants does not matter, and an instant is 0 days from itself |
| Instants.DaysBetweenNearest | src/index.ts:136-138 | instants within half a day of `n` whole days apart are `n` days apart |
| Instants.ConsecutiveMidnights | src/index.test.ts:69-72 | two midnights 23 to 25 hours apart are 1 day apart, in either order |
| Instants.Compare | src/index.ts:145-152 | 1, -1 or 0 by the order of the instants; 0 when the other instant is missing |
| Instants.IsEqualTo | src/index.ts:244-246 | for a present operand, true exactly when `compare` gives 0; false for a missing one, where `compare` also gives 0 |
| Instants.IsAfter | src/index.ts:248-250 | true exactly when `compare` gives 1, so false for a missing operand |
| Instants.IsBefore | src/index.ts:252-254 | true exactly when `compare` gives -1, so false for a missing operand |
| Instants.ComparePredicates | src/index.ts:244-254 | for a present operand, `isAfter`, `isBefore` and `isEqualTo` agree with `compare` being 1, -1 and 0, and exactly one of them holds; `isAfter` and `isBefore` never both hold; a missing operand gives 0 and three falses |
| Instants.CompareAntisymmetric | src/index.ts:145-152 | swapping the operands negates `compare` and exchanges `isAfter` with `isBefore` |
| Instants.IsBetween | src/index.ts:256-264 | true exactly when both bounds are present and the instant lies between them, both included, in either order |
| Instants.IsBetweenSymmetric | src/index.ts:256-264 | swapping the bounds changes nothing, and each bound lies between them |
| Instants.AddMs | src/index.ts:212-214 | the result is after, equal to or before the instant as `n` is positive, zero or negative, and its distance in days from it depends only on `n` |
| Instants.AddSeconds | src/index.ts:216-218 | the same as adding `1000 * n` milliseconds; later exactly for a positive `n`, earlier exactly for a negative one |
| Instants.AddMinutes | src/index.ts:220-222 | the same as adding `60 * n` seconds |
| Instants.AddHours | src/index.ts:224-226 | the same as adding `60 * n` minutes |
| Instants.AddUnits | src/index.ts:212-226 | adding zero of any unit changes nothing; adding and then subtracting hours comes back; millisecond additions compose; adding `n` ms is later exactly when `n > 0` |
| CalendarExamples.MonthTables | src/index.test.ts:14-52 | February has 29 days in 2020 and 28 in 2021; the years have 366 and 365 days; months -1 and 12 fail with "month is out of bounds" |
| CalendarExamples.AddDaysForward | src/index.test.ts:131-143 | 1 January 2021 plus 50 days is 20 February 2021 |
| CalendarExamples.AddDaysBackward | src/index.test.ts:144-156 | 1 January 2021 minus 50 days is 12 November 2020 |
| CalendarExamples.AddMonthsWithinYear | src/index.test.ts:160-168 | 1 January 1970 plus 3 months is 1 April 1970 |
| CalendarExamples.SubtractMonthsWithinYear | src/index.test.ts:170-178 | 25 December 1983 minus 6 months is 25 June 1983 |
| CalendarExamples.AddMonthsWholeYears | src/index.test.ts:180-188 | 28 May 1983 plus 456 months is 28 May 2021 |
| CalendarExamples.SubtractMonthsWholeYears | src/index.test.ts:190-198 | 31 October 2021 minus 36 months is 31 October 2018 |
| CalendarExamples.AddMonthsIntoNextYear | src/index.test.ts:200-208 | 25 November 1991 plus 3 months is 25 March 1992 as written, but 25 February 1992 with renormalisation by 12 |
| CalendarExamples.SubtractMonthsIntoPreviousYear | src/index.test.ts:210-218 | 14 February 2016 minus 6 months is 14 July 2015 as written, but 14 August 2015 with renormalisation by 12 |
| CalendarExamples.AddMonthFromDecember | src/index.ts:188-194 | 15 December 2020 plus 1 month is 15 February 2021 as written, but 15 January 2021 with renormalisation by 12; one month back from the as-written result is 15 January 2021 |
| CalendarExamples.AddYearFromLeapDay | src/index.test.ts:262-274 | 29 February 2000 plus one year is 28 February 2001 |

## Left out

- `Date.today()` and the default `atDate` of `age` read the host clock (src/index.ts:111-114, 162). `Age` takes the other date as a parameter. "Today" is `StartOfDay` of a given date.
- `clone()` and the "returns a new instance" checks concern object identity. The model works on immutable values, so a clone is the value itself.
- The instance forms `isLeapYear()` and `daysInMonth()` pass `getFullYear()` and `getMonth()` to the static functions. They are `IsLeapYear` and `DaysInMonth` applied to a date's fields.
- The host's mapping between the epoch and local fields is not modelled: time zones, daylight saving, `getDay()` and `getTimezoneOffset()`. The weekday and the offset are inputs (`LocalView.weekday`, `LocalView.offset`). `LocalMs` counts local wall-clock milliseconds, not epoch milliseconds.
- The host's Gregorian normalisation in `setDate` and `setFullYear` is modelled with the library's own `year % 4` rule. The two calendars agree only from 1901 to 2099.
- `new Date(year, month, day)` maps years 0 to 99 to 1900 onwards. `Calendar.AddMonths`, `Calendar.StartOfDay`, `Calendar.StartOfMonth`, `Calendar.StartOfYear` and `Calendar.IsOnSameDayAs` (src/index.ts:185-196, 228-242), and `Date.today()` (src/index.ts:111-114), do not model this: they keep years 0 to 99 as they are. In the library, for example, the start of a day in year 50 falls in 1950, and 1 January 50 is on the same day as 1 January 1950.
- Floating point is not modelled. Arguments to `addDays`, `addMonths`, `addYears` and the `add*` unit functions are integers. `Math.round` and `toFixed(0)` become exact integer rounding, halves up. Non-integer, infinite and NaN inputs are not covered.
- A `null` day-name table, month-name table or label is not modelled. JavaScript default parameters apply only to `undefined`, so in the library `null` makes `dddd`, `ddd`, `MMMM` and `MMM` throw, and a `null` designator in use makes `tt` write "null" and `t` throw. `Formatter.LabelsFor` reads `None` as an argument left out. Only `pattern` treats `null` like a missing argument (src/index.ts:267).
- JavaScript's replacement patterns are not modelled. A day name, month name or label containing `$&`, `$1` or `$$` is inserted literally.
- `Formatter.FormatIsRender` and `Formatter.FormatResolvesAll` require a pattern and labels without `{`. `Format` itself is defined for every input, but for text holding a literal `{n}` the later replaces could rewrite it, and no property is stated for that case.
- Strings are sequences of Unicode characters, not UTF-16 code units. `substr(0, 3)` and `am[0]` / `pm[0]` differ from the host on characters outside the Basic Multilingual Plane.
- The `declare global` block (src/index.ts:4-108) is typing only. The `DayNames` and `MonthNames` tuple types become 7- and 12-entry length preconditions. `webpack.config.ts` is build configuration.
- The "replaces all instances of repeated tokens" test (src/index.test.ts:629-635) only matches a pattern against the output. No separate member states it; `Formatter.FormatIsRender` covers that pattern.
- The spy tests (src/index.test.ts:53-60, 406-413) check which function is called. They are not modelled.

## Findings

| source | as written | input that shows it | evidently intended | confidence | as-written member | corrected member |
|---|---|---|---|---|---|---|
| src/index.ts:188-194 | a month past December is brought back by subtracting 11, and one before January by adding 11, while the year moves by one | 15 December 2020 plus 1 month gives 15 February 2021; 25 November 1991 plus 3 months gives 25 March 1992 | subtract or add 12, giving 15 January 2021 and 25 February 1992 | not executed; the repository's own tests (src/index.test.ts:200-219) expect the as-written values | CalendarExamples.AddMonthFromDecember | Calendar.AddMonthsIntended |

`Calendar.AddMonths` keeps the as-written behaviour because the repository's
tests expect it. The examples built from those tests therefore use it.
`Calendar.AddMonthsIntended` is the corrected operation.
`Calendar.AddMonthsIntendedRoundTrip` proves its round trip holds without
exception.
