# alfred-epoch query resolver in Dafny

This project models the query resolver of an Alfred workflow that turns a typed query into
an instant. A query is a base followed by offset operations. The base is now, an epoch
number or a calendar date. An operation is a signed amount in a unit, such as
`2025-12-01 + 1 day` or `1733900000 - 3 days`. The model covers the four functions that do
this, and it proves what they compute:

- `parse_time_operations`, the offset lexer, is module `OffsetLexer` (`offset_lexer.dfy`).
  - The regular expression `([+\-])\s*(\d+)\s*(\w+)` is written in closed form as `MatchAt`.
    `MatchAtIsFirstMatch` proves it is the match Python's backtracking matcher makes.
  - `re.findall` is `FindAll`.
  - The loop that adds up the `timedelta` pieces is the method `LexLoop`. It is proved
    against the left fold `LexTokens`.
  - A `timedelta` outside its 999999999-day range raises `OverflowError`. The model returns
    `Overflow` in that case.
- `parse_epoch_value`, the length heuristic for seconds, milliseconds, microseconds and
  nanoseconds, is module `EpochInterpreter` (`epoch_interpreter.dfy`). It uses exact reals.
- `parse_datetime_string` is module `CalendarParser` (`calendar_parser.dfy`).
  - The method `ParseDatetimeString` keeps the source's two loops, its `try` blocks and its
    early returns.
  - It is proved against `ParseCalendar`: the first attempt that does not fall through
    among the ten templates with a year and then the two without.
  - An attempt falls through on a `ValueError` from `strptime`, from `replace(year=)` or
    from `astimezone()`. An `OverflowError` from `astimezone()` escapes the parser.
- `process_query` is module `QueryResolver` (`query_resolver.dfy`).
  - The split pattern `(^|[\s])[+\-]\s*\d+\s*\w+` and `re.search` are `OperationAt` and
    `SearchOperation`.
  - The base text, the three kinds of base and their flags, and the offset are modelled.
  - An `OverflowError` from the lexer or from the calendar conversion escapes as `Raised`.
  - The clock, the current year, `datetime.strptime` and the local-time to epoch
    conversion are fields of a `Host` value. The conversion returns an instant, a
    `ValueError` or an `OverflowError`.

`text.dfy` (module `Text`) holds the character classes, `str.strip`, `str.lower` and the
value of a digit string. `wrappers.dfy` holds `Option`. `scenarios.dfy` (module
`Scenarios`) proves the outcome of each query in the repository's test script on the model.
It also proves a few edge cases the code handles:

- a backtracked unit;
- the upper-case `M`;
- an overflowing offset;
- a query that is not a date.

The calendar scenarios assume what `strptime` returns for their text, and that the
conversion of the date found succeeds, because template matching and time zones belong to
the host.

## Model

| member | source | states |
|---|---|---|
| `Text.IsSpace` | workflow.py:174-181 | The class `\s` of both patterns and the whitespace of `str.strip`, on ASCII: tab to carriage return, 0x1C to 0x1F and the space. |
| `Text.IsDigit` | workflow.py:125 | The class `\d`, and the characters `str.isdigit` accepts, on ASCII: `0` to `9`. |
| `Text.IsWord` | workflow.py:125 | The class `\w` on ASCII: letters, digits and the underscore. |
| `Text.IsSign` | workflow.py:125 | The class `[+\-]`. |
| `Text.IsDigitString` | workflow.py:188 | `str.isdigit()`: non-empty and made of digits only. |
| `Text.Strip` | workflow.py:178-181 | `str.strip()`: the result is a slice of the text. It is empty exactly when the text is all whitespace, and otherwise neither starts nor ends with whitespace. |
| `Text.StripIsSlice` | workflow.py:178-181 | The stripped text is exactly the slice from the first non-whitespace character to the end of the last one. |
| `Text.RunEnd` | workflow.py:125 | A greedy run of one character class: every character up to the end belongs to the class, and the character at the end does not. |
| `Text.RunEndIsMaximal` | workflow.py:125 | No run of the class starting at the same place reaches past the greedy run's end. |
| `Text.DigitsValue` | workflow.py:136 | The number a digit string denotes, read left to right in base ten, as `int(value)` here and `Decimal(epoch_str)` at line 157 read it. |
| `Text.Pow10` | workflow.py:160-167 | Ten to the power `n`. The epoch divisors 1000, 1_000_000 and 1_000_000_000 are its third, sixth and ninth powers. |
| `Text.DigitsValueLeadingZero` | workflow.py:136 | `int()` and `Decimal()` ignore leading zeros: a zero in front does not change the value. |
| `Text.DigitsValueAppend` | workflow.py:157 | Concatenating digit strings shifts the first one's value by the second one's length in decimal places. |
| `Text.DigitsValueTimes1000` | workflow.py:157-167 | Three trailing zeros multiply the value by 1000. |
| `Text.LowerChar` | workflow.py:130 | One character lower-cased: `A` to `Z` become `a` to `z`, everything else is kept. |
| `Text.Lower` | workflow.py:130 | `unit.lower()`: the same length, each character lower-cased. |
| `Text.LowerHasNoUpper` | workflow.py:130 | `lower()` leaves no upper-case letter. |
| `Text.LowerOfLowerCase` | workflow.py:130 | Text without upper-case letters is its own lower-case form. |
| `OffsetLexer.UnitSeconds` | workflow.py:138-151 | Seconds in one unit: 1, 60, 3600 and 86400, a week of 7 days, a month of 30 days and a year of 365 days. |
| `OffsetLexer.LookupUnit` | workflow.py:115-131 | `unit_map.get(unit.lower())`: the unit of the lower-cased word in the 23-key table, `None` for a word not in it. |
| `OffsetLexer.MatchAt` | workflow.py:125-126 | Every match it returns starts at the position tried and decomposes as sign, spaces, digits, spaces, word. |
| `OffsetLexer.MatchAtIsFirstMatch` | workflow.py:125-126 | The pattern matches at a position exactly when some decomposition exists there. The match returned is the one a backtracking matcher tries first: greedy quantifiers, longest first, left to right. |
| `OffsetLexer.TokenOf` | workflow.py:126 | The groups of a match form a well-formed token: a sign and a non-empty digit string. |
| `OffsetLexer.FindAll` | workflow.py:126 | `re.findall` yields only well-formed tokens. |
| `OffsetLexer.Amount` | workflow.py:136 | `int(value)` for a `+` sign, and its negation for `-`. |
| `OffsetLexer.TokenSeconds` | workflow.py:130-151 | A token's piece in seconds: its amount times its unit's seconds, and 0 for a unit not in the table. |
| `OffsetLexer.SumSeconds` | workflow.py:128-151 | The plain sum of the tokens' pieces, with no range check. |
| `OffsetLexer.SecondsAt` | workflow.py:125-151 | The piece of the match the pattern makes at one position, and 0 where it makes none. |
| `OffsetLexer.OffsetSumFrom` | workflow.py:125-153 | The reference total: the pieces of independent match attempts at every position from `i` on. |
| `OffsetLexer.OffsetSum` | workflow.py:125-153 | The reference total over the whole query. |
| `OffsetLexer.FindAllCoversEverySign` | workflow.py:126-153 | The skip-past-the-match scan loses nothing: its token total equals the sum over every position tried independently. |
| `OffsetLexer.FindAllCoversMatch` | workflow.py:126-153 | One match step of that scan: when the rest of the scan agrees with the reference total, so does the scan from the match. |
| `OffsetLexer.FindAllStepSum` | workflow.py:126 | After a match, the scan resumes at the match's end, and the match's token comes first. |
| `OffsetLexer.MatchHoldsOneSign` | workflow.py:125 | A match holds exactly one sign, at its start. |
| `OffsetLexer.FindAllSkipsSignFree` | workflow.py:126 | Positions that hold no sign produce no tokens. |
| `OffsetLexer.NoSignAddsNothing` | workflow.py:126-153 | Positions that hold no sign add nothing to the reference total. |
| `OffsetLexer.NoSignNoDelta` | workflow.py:126-153 | A query with no sign yields a zero `timedelta`. |
| `OffsetLexer.FitsTimedelta` | workflow.py:139-151 | The `timedelta` range: the day part, the floor of seconds / 86400, is within 999999999 days either way. |
| `OffsetLexer.LexTokens` | workflow.py:128-153 | The loop as a left fold over the tokens: a unit not in the table is skipped, a piece is added, and `Overflow` is final once a piece or a running total leaves the range. |
| `OffsetLexer.Lex` | workflow.py:113-153 | `parse_time_operations` as a value: the fold over the tokens `re.findall` yields for the query. |
| `OffsetLexer.OverflowsAt` | workflow.py:133-151 | Token `i` raises: its unit is in the table, and its piece or the total of the tokens before it plus its piece leaves the range. |
| `OffsetLexer.LexLoop` | workflow.py:128-153 | The source's loop: it skips unknown units, adds each signed piece, and raises when a piece or a running total is outside the `timedelta` range. Its result is the left fold over the tokens. |
| `OffsetLexer.UnitPiece` | workflow.py:138-151 | The constructor chain: an amount of each unit is that many seconds, with a month as 30 days and a year as 365 days. |
| `OffsetLexer.LexTokensStep` | workflow.py:129-151 | One iteration: an unknown unit leaves the total alone. A known unit adds its piece unless the piece or the new total does not fit. |
| `OffsetLexer.ParseTimeOperations` | workflow.py:113-153 | `parse_time_operations`: its result is the lexer on the whole query. Unless it raises, it is the sum over every sign position of the query. |
| `OffsetLexer.OverflowIsFinal` | workflow.py:128-153 | Once some prefix of the tokens raises, the whole loop raises. |
| `OffsetLexer.LexTokensMeaning` | workflow.py:128-153 | The loop raises exactly when some token's piece, or the running total after it, does not fit. Otherwise the result is the plain sum of the pieces. |
| `OffsetLexer.LexPrefixMeaning` | workflow.py:128-153 | The same for every prefix of the tokens: whether a token raises depends only on the tokens up to it. |
| `OffsetLexer.RaisesBeforeMeaning` | workflow.py:128-153 | Some token before position `n` raises exactly when one at some index below `n` does. |
| `OffsetLexer.SumSecondsPrefixStep` | workflow.py:128-151 | The running total after a token is the total before it plus its piece. |
| `OffsetLexer.LexMeaning` | workflow.py:113-153 | On a query: `OverflowError` exactly when some token of `re.findall` overflows, and otherwise the per-position sum. |
| `OffsetLexer.SumSecondsAppend` | workflow.py:128-153 | The total of two token runs is the sum of their totals. |
| `OffsetLexer.SumSecondsPermutation` | workflow.py:128-153 | Reordering the tokens does not change the plain sum of their pieces, with no range check. Whether the loop raises can depend on the order. |
| `OffsetLexer.LexTokensPermutation` | workflow.py:128-153 | When two orders of the same tokens both finish without raising, they give the same `timedelta`. |
| `OffsetLexer.UnknownUnitAddsNothing` | workflow.py:133-134 | A token of an unknown unit, at any position among the others, changes neither the result nor whether the loop raises. |
| `OffsetLexer.LookupLowerCaseWord` | workflow.py:115-131 | A word with no upper-case letter is looked up in the table as it is: `unit_map.get` of the word. |
| `OffsetLexer.LookupUnitIgnoresCase` | workflow.py:130-131 | The unit lookup does not depend on letter case. |
| `OffsetLexer.MonthsOnlyByName` | workflow.py:115-123 | Only "month" and "months" name months. The table's `M` key cannot be reached after lower-casing, so `M` means minutes. |
| `OffsetLexer.DigitLedUnitIsUnknown` | workflow.py:131-134 | A unit word that starts with a digit is not in the table and is skipped. |
| `OffsetLexer.BacktrackedUnitIsUnknown` | workflow.py:125-134 | When a match's digit group stops short of the digit run, the matcher has backtracked. The unit group is then the run's last digit, directly after the group, and the table does not know it. |
| `EpochInterpreter.UnitExponent` | workflow.py:158-167 | The number of divisions by 1000 is at most three. |
| `EpochInterpreter.ParseEpochValue` | workflow.py:156-167 | `parse_epoch_value`: the result is non-negative. Scaled back by the unit its length selects, it is the number the digits denote. |
| `EpochInterpreter.EpochUnitBands` | workflow.py:160-167 | Up to 11 digits are seconds, 12-14 milliseconds, 15-17 microseconds, and 18 or more nanoseconds. |
| `EpochInterpreter.FinerResolutionSameInstant` | workflow.py:160-167 | For 9 to 17 digits, the same instant written at the next finer resolution (three more digits) reads as the same seconds. |
| `EpochInterpreter.SameBandOutsideRange` | workflow.py:160-167 | For 8 digits or fewer, or 18 or more, three more digits stay in the same band and read as a thousand times the instant. |
| `EpochInterpreter.LeadingZeroChangesUnit` | workflow.py:158-163 | The band counts characters, so a leading zero turns 11-digit seconds into milliseconds, a thousand times smaller. |
| `CalendarParser.IsLeapYear` | workflow.py:105 | The Gregorian leap-year rule that `replace(year=)` applies. |
| `CalendarParser.DaysInMonth` | workflow.py:105 | The days in a month of a year: 28 or 29 for February, 30 for April, June, September and November, and 31 otherwise. |
| `CalendarParser.ReplaceYear` | workflow.py:105 | `dt.replace(year=...)`: `None` when the year is outside 1..9999 or the day is not in that year's month, and otherwise the same date and time with the year changed. |
| `CalendarParser.Localized` | workflow.py:96-99 | The conversion step of one `try` block. No match, or a `ValueError` from the conversion, falls through. An instant is a date found, and an `OverflowError` escapes. |
| `CalendarParser.Attempt` | workflow.py:95-108 | Attempt `k`: the ten year-bearing templates in order, then the two year-less ones with the year replaced by the current year before the conversion. |
| `CalendarParser.FirstSuccessFrom` | workflow.py:95-110 | The first attempt from `k` on that does not fall through, and `NotFound`, the final `return None`, when every one does. |
| `CalendarParser.ParseCalendar` | workflow.py:75-110 | `parse_datetime_string` as a value: the first attempt, from the first template on, that does not fall through. |
| `CalendarParser.FirstSuccessFromMeaning` | workflow.py:95-110 | The parse is an attempt all of whose predecessors fell through. It is `None` exactly when every attempt falls through. |
| `CalendarParser.ParseDatetimeString` | workflow.py:75-110 | `parse_datetime_string`, with both loops, the `try` blocks and the early returns: it returns the first attempt in template order that does not fall through. That is a date with its instant, or the conversion's `OverflowError`. |
| `CalendarParser.YearBearingTemplateWins` | workflow.py:95-100 | The first year-bearing template whose match converts, or raises `OverflowError`, decides, whatever the year-less templates would give. |
| `CalendarParser.YearlessMatchTakesCurrentYear` | workflow.py:102-108 | When every year-bearing template falls through, a date found comes from a year-less template. It carries the current year, every other field as matched, and the instant the host converts it to. |
| `CalendarParser.ParseCalendarFails` | workflow.py:95-110 | No date exactly when every year-bearing template fails to match or to convert, and each year-less one fails to match, cannot take the current year or fails to convert. |
| `CalendarParser.ParsedComesFromConversion` | workflow.py:95-110 | A date found carries the instant its conversion gives. The parser raises exactly when some attempt's conversion raises `OverflowError` and every earlier attempt falls through. |
| `CalendarParser.ReplaceYearFailsOnlyOnLeapDay` | workflow.py:105 | `replace(year=)` into a valid year fails only for 29 February in a common year. Otherwise only the year changes. |
| `QueryResolver.OperationAt` | workflow.py:174 | The split pattern matches at `q`: at the start of the text on an offset token, or on a whitespace character followed by one. |
| `QueryResolver.FirstFrom` | workflow.py:174 | The leftmost index in a range that satisfies a predicate: it holds there and at no earlier index. `None` means it holds nowhere in the range. |
| `QueryResolver.SearchOperation` | workflow.py:174 | `re.search` for the split pattern: the leftmost position where it matches, or `None` when it matches nowhere. |
| `QueryResolver.ProcessQuery` | workflow.py:170-202 | `process_query`: a result flagged as now is also flagged as epoch input. |
| `QueryResolver.BaseText` | workflow.py:176-181 | The base part: the stripped text before the split, or the whole stripped query when the split pattern matches nowhere. |
| `QueryResolver.QueryDelta` | workflow.py:176-182 | The offset: the lexer on the whole query when the split pattern matches, and a zero `timedelta` otherwise. |
| `QueryResolver.Shifted` | workflow.py:193-200 | The resolved base plus the offset seconds, flags kept. A base the calendar parser rejects, and one whose conversion raises, stay as they are. |
| `QueryResolver.OffsetsOverflow` | workflow.py:174-179 | Some token of the query raises, and the split pattern matches, since only then is the lexer run. |
| `QueryResolver.OffsetSeconds` | workflow.py:176-182 | The offset in seconds: the reference total of the query when the split pattern matches, and 0 otherwise. |
| `QueryResolver.BaseOverflows` | workflow.py:192-196 | The base part goes to the calendar parser, and the conversion of the date it finds raises `OverflowError`. |
| `QueryResolver.ResolveBase` | workflow.py:184-198 | The base raises exactly when a non-digit base reaches the calendar parser and its conversion overflows. `show_now` is set exactly for an empty base, and `is_epoch_input` exactly for an empty or digit base. The result is unresolved exactly when a non-digit base finds no date. |
| `QueryResolver.EmptyQueryIsNow` | workflow.py:171-172 | The empty query is now with both flags set. |
| `QueryResolver.FirstOperationIsSplit` | workflow.py:174-178 | The split is the first position where the split pattern matches, and the base is the stripped text before it. |
| `QueryResolver.QueryDeltaMeaning` | workflow.py:176-182 | The offset raises exactly when there is an operation and some token overflows. Otherwise it is the sum over every sign position, or zero when there is no operation. |
| `QueryResolver.EmptyBaseIsNowPlusOffset` | workflow.py:184-202 | An empty base gives now plus the offset, flagged as now. |
| `QueryResolver.DigitBaseIsEpochPlusOffset` | workflow.py:188-202 | A digit base gives the epoch value plus the offset, flagged as epoch input. |
| `QueryResolver.CalendarBasePlusOffset` | workflow.py:192-202 | Any other base gives the parsed date read as local time plus the offset. It gives no result when no template takes it, and raises when the conversion overflows. |
| `QueryResolver.OverflowEscapes` | workflow.py:179-198 | The query raises exactly when it is non-empty and either its offsets overflow, whatever the base, or its calendar base's conversion overflows. The lexer runs before the base is parsed. |
| `QueryResolver.FailureDiscardsOffsets` | workflow.py:193-195 | The query fails exactly when its offsets fit, its base goes to the calendar parser and no template takes it. Valid offsets are then discarded. |
| `QueryResolver.FlagsClassifyBase` | workflow.py:184-198 | On a resolved query, `show_now` holds exactly for an empty query or base. `is_epoch_input` holds exactly for those and for a digit base. |
| `QueryResolver.SplitIsAtSign` | workflow.py:174 | The split lies on a sign at the start, or on whitespace followed immediately by a sign. |
| `QueryResolver.LeadingOperationIsFromNow` | workflow.py:174-187 | A query that opens with an offset token is relative to now. It raises exactly when its lexer does. |
| `QueryResolver.OperationAfterBase` | workflow.py:174-202 | With the first operation at whitespace position `q`, the base is the stripped text before `q`, shifted by the lexer's total over the whole query. |
| `QueryResolver.NoSpaceNoOperation` | workflow.py:174-182 | Without whitespace, and without a sign at the start, no operation is found: the base is the whole query and the offset zero. |
| `QueryResolver.DigitQueryIsEpoch` | workflow.py:188-191 | A plain digit string is an epoch value with no offset. |
| `Scenarios.DashedDate` | test_workflow.py:72-77 | "2025-12-01" is the local instant of 1 December 2025, flagged as a date. |
| `Scenarios.SlashedDate` | test_workflow.py:79-84 | "2025/12/01" is the same instant. |
| `Scenarios.MonthDayTakesCurrentYear` | test_workflow.py:86-91 | "12/25" is 25 December of the current year, for any current year from 1 to 9999. |
| `Scenarios.EpochSeconds` | test_workflow.py:93-98 | "1733900000" is 1733900000 seconds. |
| `Scenarios.EpochMilliseconds` | test_workflow.py:100-105 | "1733900000000" is the same instant, in milliseconds. |
| `Scenarios.EpochMicroseconds` | test_workflow.py:107-112 | "1765760400822456" is 1765760400.822456 seconds. |
| `Scenarios.EpochNanoseconds` | test_workflow.py:114-119 | "1765760400822456789" is 1765760400.822456789 seconds. |
| `Scenarios.TwoHoursFromNow` | test_workflow.py:123-128 | "+ 2 hours" is now plus 7200 seconds, flagged as now. |
| `Scenarios.DateAddOneDay` | test_workflow.py:130-135 | "2025-12-01 + 1 day" is one day after the date. |
| `Scenarios.EpochMinusThreeDays` | test_workflow.py:137-142 | "1733900000 - 3 days" is the epoch value minus 259200 seconds. |
| `Scenarios.DateMinusTwoWeeks` | test_workflow.py:144-149 | "2025-12-01 - 2 weeks" is fourteen days before the date. |
| `Scenarios.DateWithSeveralOperations` | test_workflow.py:151-156 | "2025-12-01 -1d +4d - 1y + 20w" is 222 days before the date, with a year counted as 365 days. |
| `Scenarios.MixedUnitsFromNow` | test_workflow.py:158-163 | "-1d -13min +40 seconds" is now minus 86400, minus 780, plus 40 seconds. |
| `Scenarios.BacktrackedUnitIsIgnored` | workflow.py:125-134 | "+12" has no unit word. The matcher backtracks to unit "2", the table skips it, and the query is now. |
| `Scenarios.CapitalMIsMinutes` | workflow.py:121-131 | "+1M" is lower-cased to "m" and means one minute. |
| `Scenarios.HugeOffsetRaises` | workflow.py:150-151 | "+9999999 years" is past the `timedelta` range, so the query raises. |
| `Scenarios.OrderDecidesOverflow` | workflow.py:128-145 | The tokens "+999999999d", "+1d" and "-1d" raise in that order. With the last two swapped they give 999999999 days. |
| `Scenarios.NotADateIsUnresolved` | workflow.py:192-195 | "not-a-date" has signs but no operation, matches no template, and gives no result. |

## Left out

- `main`, the command-line argument, the Alfred JSON items (`create_alfred_item`) and the
  display records `DisplayItem` and `EpochData` (workflow.py:15-72, 205-228) are not part of
  this model. They do I/O and presentation only.
- The clock (`time.time()`, `datetime.now()`) is modelled as `Host.now` and
  `Host.currentYear`.
- `datetime.strptime` is modelled as `Host.strptime`. `None` stands for `ValueError`, and
  no template grammar is modelled.
- `astimezone()` followed by `timestamp()` is modelled as `Host.localize`. It gives an
  instant, a `ValueError` (the attempt falls through) or an `OverflowError` (it escapes).
  Time zones and daylight-saving time belong to the host. `timestamp()` runs outside the
  `try` blocks (workflow.py:196). The model folds it into the same host function, so an
  error of its own is not told apart from one of `astimezone()`.
- `ProcessQuery` and `EpochInterpreter.ParseEpochValue` compute with exact reals. The
  source works otherwise in three ways that the model does not capture.
  - The division by 1000, 1000000 or 1000000000 is done in the default `Decimal` context,
    which rounds to 28 significant digits.
  - The quotient is converted to a float and floats are added, so float rounding is not
    modelled.
  - A digit base of more than about 318 digits converts to an infinite float at
    workflow.py:167 without raising. The model gives a finite real.
- `OffsetLexer.SumSecondsPermutation` is about the plain sum, not the loop. Whether the
  loop raises can depend on the order of the tokens, because a running total may leave the
  range and come back (`Scenarios.OrderDecidesOverflow`). Order does not matter only when
  neither order raises (`OffsetLexer.LexTokensPermutation`).
- `OffsetLexer.LexTokens` counts a `timedelta` in whole seconds. The offsets are whole
  numbers of seconds, so the day, second and microsecond normalisation changes nothing.
  It is represented only by the range check on the day part.
- Character classes are ASCII only.
  - Unicode whitespace, digits and word characters outside ASCII belong to no class in the
    model.
  - Unicode case mappings of `str.lower` are not modelled.
  - The `re.IGNORECASE` flag of the lexer's pattern has no effect on its ASCII classes.
- Python's limit on the length of a digit string that `int()` converts is not modelled.
  `int()` of a very long amount would raise `ValueError`, which the model does not
  produce.
- A query of `None` is not modelled. The model's query is always a string, and the empty
  string takes the same branch as `None`.
- `Text.Strip` is `str.strip()` on whitespace defined as in the model. It is written as one
  slice rather than as separate left and right strips.
