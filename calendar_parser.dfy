/** The calendar parser `parse_datetime_string`: the text is tried against ten
    templates that carry a year and then two that do not, and the first that
    matches and converts to local time wins. A year-less match takes the
    current year.

    Matching one template (`datetime.strptime`) and the conversion to local
    time (`astimezone()`, then `timestamp()`) are the host library's business
    and are function parameters here. A template that does not match yields
    `None` where `strptime` raises `ValueError`.
 */
module CalendarParser {
  import opened Wrappers

  /** A naive date and time, as `strptime` returns it. */
  datatype DateTime = DateTime(year: int, month: int, day: int, hour: int, minute: int, second: int, microsecond: int)

  /** What `astimezone()` followed by `timestamp()` makes of a naive date and
      time: seconds since the epoch, or the `ValueError` or `OverflowError`
      that `astimezone()` raises when the instant falls outside the years
      1..9999 it can represent. */
  datatype Conversion = Converted(epoch: real) | ConversionValueError | ConversionOverflow

  /** The parser's outcome: the date and time found, with the instant it
      converts to; `None`; or the `OverflowError` that escapes the parser. */
  datatype Parsed = Found(local: DateTime, epoch: real) | NotFound | Overflowed

  /** The templates with a year, in the order they are tried. */
  const FormatsWithYear: seq<string> := [
    "%Y-%m-%d %H:%M:%S.%f",
    "%Y-%m-%d %H:%M:%S",
    "%Y-%m-%d %H:%M",
    "%Y-%m-%d",
    "%Y/%m/%d %H:%M:%S.%f",
    "%Y/%m/%d %H:%M:%S",
    "%Y/%m/%d %H:%M",
    "%Y/%m/%d",
    "%Y %m %d %H:%M:%S",
    "%Y %m %d"
  ]

  /** The templates without a year, tried after all of the above. */
  const FormatsWithoutYear: seq<string> := ["%m/%d", "%m %d"]

  const AttemptCount := |FormatsWithYear| + |FormatsWithoutYear|

  predicate IsLeapYear(year: int) {
    year % 4 == 0 && (year % 100 != 0 || year % 400 == 0)
  }

  function DaysInMonth(year: int, month: int): int {
    if month == 2 then (if IsLeapYear(year) then 29 else 28)
    else if month == 4 || month == 6 || month == 9 || month == 11 then 30
    else 31
  }

  /** `datetime.replace(year=year)`: `None` where it raises `ValueError`,
      because the year is outside 1..9999 or the day does not exist in that
      month of the new year. */
  function ReplaceYear(dt: DateTime, year: int): Option<DateTime> {
    if !(1 <= year <= 9999) || dt.day > DaysInMonth(year, dt.month) then None
    else Some(dt.(year := year))
  }

  /** One `try` block from the conversion on: a match converts to its
      instant. A match `astimezone()` rejects with `ValueError` falls through
      like a failed match, and its `OverflowError` escapes. */
  function Localized(localize: DateTime -> Conversion, dt: Option<DateTime>): Parsed {
    match dt
    case None => NotFound
    case Some(d) =>
      match localize(d)
      case Converted(epoch) => Found(d, epoch)
      case ConversionValueError => NotFound
      case ConversionOverflow => Overflowed
  }

  /** Attempt `k` of the parser, in its order: the year-bearing templates
      first; a year-less template falls through when `strptime`, the year
      replacement or the conversion raises `ValueError`. */
  function Attempt(strptime: (string, string) -> Option<DateTime>, localize: DateTime -> Conversion,
                   text: string, currentYear: int, k: nat): Parsed
    requires k < AttemptCount
  {
    if k < |FormatsWithYear| then Localized(localize, strptime(text, FormatsWithYear[k]))
    else
      match strptime(text, FormatsWithoutYear[k - |FormatsWithYear|])
      case None => NotFound
      case Some(dt) => Localized(localize, ReplaceYear(dt, currentYear))
  }

  /** The first attempt from `k` on that does not fall through, in order. */
  function FirstSuccessFrom(strptime: (string, string) -> Option<DateTime>, localize: DateTime -> Conversion,
                            text: string, currentYear: int, k: nat): Parsed
    requires k <= AttemptCount
    decreases AttemptCount - k
  {
    if k == AttemptCount then NotFound
    else
      var r := Attempt(strptime, localize, text, currentYear, k);
      if r.NotFound? then FirstSuccessFrom(strptime, localize, text, currentYear, k + 1) else r
  }

  /** The result from `k` on is the attempt of some `j >= k` all of whose
      predecessors fell through, and `NotFound` exactly when every attempt
      falls through. */
  lemma {:induction false} FirstSuccessFromMeaning(strptime: (string, string) -> Option<DateTime>, localize: DateTime -> Conversion,
                                                   text: string, currentYear: int, k: nat)
    requires k <= AttemptCount
    ensures var r := FirstSuccessFrom(strptime, localize, text, currentYear, k);
      !r.NotFound? ==>
        exists j :: k <= j < AttemptCount && r == Attempt(strptime, localize, text, currentYear, j) &&
          forall i :: k <= i < j ==> Attempt(strptime, localize, text, currentYear, i).NotFound?
    ensures FirstSuccessFrom(strptime, localize, text, currentYear, k).NotFound? <==>
      forall j :: k <= j < AttemptCount ==> Attempt(strptime, localize, text, currentYear, j).NotFound?
    decreases AttemptCount - k
  {
    if k < AttemptCount && Attempt(strptime, localize, text, currentYear, k).NotFound? {
      FirstSuccessFromMeaning(strptime, localize, text, currentYear, k + 1);
    }
  }

  function ParseCalendar(strptime: (string, string) -> Option<DateTime>, localize: DateTime -> Conversion,
                         text: string, currentYear: int): Parsed {
    FirstSuccessFrom(strptime, localize, text, currentYear, 0)
  }

  /** `parse_datetime_string`, with the two loops, the `try` blocks and the
      early returns of the source. The current year is a parameter. */
  method ParseDatetimeString(strptime: (string, string) -> Option<DateTime>, localize: DateTime -> Conversion,
                             dateStr: string, currentYear: int)
    returns (r: Parsed)
    ensures r == ParseCalendar(strptime, localize, dateStr, currentYear)
  {
    for i := 0 to |FormatsWithYear|
      invariant ParseCalendar(strptime, localize, dateStr, currentYear) == FirstSuccessFrom(strptime, localize, dateStr, currentYear, i)
    {
      var dt := strptime(dateStr, FormatsWithYear[i]);
      if dt.Some? {
        match localize(dt.value) {
          case Converted(epoch) => return Found(dt.value, epoch);
          case ConversionOverflow => return Overflowed;
          case ConversionValueError =>
        }
      }
    }
    for i := 0 to |FormatsWithoutYear|
      invariant ParseCalendar(strptime, localize, dateStr, currentYear) ==
        FirstSuccessFrom(strptime, localize, dateStr, currentYear, |FormatsWithYear| + i)
    {
      var dt := strptime(dateStr, FormatsWithoutYear[i]);
      if dt.Some? {
        var withYear := ReplaceYear(dt.value, currentYear);
        if withYear.Some? {
          match localize(withYear.value) {
            case Converted(epoch) => return Found(withYear.value, epoch);
            case ConversionOverflow => return Overflowed;
            case ConversionValueError =>
          }
        }
      }
    }
    return NotFound;
  }

  // ---------------------------------------------------------------------
  // Properties

  /** A year-bearing template that matches and does not fall through wins
      over every year-less one: the result is that of the first such
      template. */
  lemma YearBearingTemplateWins(strptime: (string, string) -> Option<DateTime>, localize: DateTime -> Conversion,
                                text: string, currentYear: int, k: nat)
    requires k < |FormatsWithYear| && !Localized(localize, strptime(text, FormatsWithYear[k])).NotFound?
    requires forall i :: 0 <= i < k ==> Localized(localize, strptime(text, FormatsWithYear[i])).NotFound?
    ensures ParseCalendar(strptime, localize, text, currentYear) == Localized(localize, strptime(text, FormatsWithYear[k]))
  {
    var r := ParseCalendar(strptime, localize, text, currentYear);
    FirstSuccessFromMeaning(strptime, localize, text, currentYear, 0);
    assert !Attempt(strptime, localize, text, currentYear, k).NotFound?;
    var j :| 0 <= j < AttemptCount && r == Attempt(strptime, localize, text, currentYear, j) &&
      forall i :: 0 <= i < j ==> Attempt(strptime, localize, text, currentYear, i).NotFound?;
  }

  /** When every year-bearing template falls through, a date found comes from
      a year-less template and carries the current year, every other field as
      matched, and the instant it converts to. */
  lemma YearlessMatchTakesCurrentYear(strptime: (string, string) -> Option<DateTime>, localize: DateTime -> Conversion,
                                      text: string, currentYear: int)
    requires forall i :: 0 <= i < |FormatsWithYear| ==> Localized(localize, strptime(text, FormatsWithYear[i])).NotFound?
    requires ParseCalendar(strptime, localize, text, currentYear).Found?
    ensures var r := ParseCalendar(strptime, localize, text, currentYear);
      && r.local.year == currentYear
      && localize(r.local) == Converted(r.epoch)
      && exists j :: 0 <= j < |FormatsWithoutYear| && strptime(text, FormatsWithoutYear[j]).Some? &&
           r.local == strptime(text, FormatsWithoutYear[j]).value.(year := currentYear)
  {
    var r := ParseCalendar(strptime, localize, text, currentYear);
    FirstSuccessFromMeaning(strptime, localize, text, currentYear, 0);
    var j :| 0 <= j < AttemptCount && r == Attempt(strptime, localize, text, currentYear, j) &&
      forall i :: 0 <= i < j ==> Attempt(strptime, localize, text, currentYear, i).NotFound?;
    var m := j - |FormatsWithYear|;
    assert strptime(text, FormatsWithoutYear[m]).Some?;
  }

  /** The parser gives `None` exactly when every year-bearing template fails
      to match or to convert, and each year-less one fails to match, cannot
      take the current year or fails to convert. */
  lemma ParseCalendarFails(strptime: (string, string) -> Option<DateTime>, localize: DateTime -> Conversion,
                           text: string, currentYear: int)
    ensures ParseCalendar(strptime, localize, text, currentYear).NotFound? <==>
      && (forall i :: 0 <= i < |FormatsWithYear| ==> Localized(localize, strptime(text, FormatsWithYear[i])).NotFound?)
      && (forall i :: 0 <= i < |FormatsWithoutYear| ==>
            strptime(text, FormatsWithoutYear[i]).None? ||
            Localized(localize, ReplaceYear(strptime(text, FormatsWithoutYear[i]).value, currentYear)).NotFound?)
  {
    FirstSuccessFromMeaning(strptime, localize, text, currentYear, 0);
    if ParseCalendar(strptime, localize, text, currentYear).NotFound? {
      forall i | 0 <= i < |FormatsWithYear| ensures Localized(localize, strptime(text, FormatsWithYear[i])).NotFound? {
        assert Attempt(strptime, localize, text, currentYear, i).NotFound?;
      }
      forall i | 0 <= i < |FormatsWithoutYear|
        ensures strptime(text, FormatsWithoutYear[i]).None? ||
          Localized(localize, ReplaceYear(strptime(text, FormatsWithoutYear[i]).value, currentYear)).NotFound?
      {
        assert Attempt(strptime, localize, text, currentYear, |FormatsWithYear| + i).NotFound?;
      }
    } else {
      var r := ParseCalendar(strptime, localize, text, currentYear);
      var j :| 0 <= j < AttemptCount && r == Attempt(strptime, localize, text, currentYear, j);
      if j >= |FormatsWithYear| {
        var m := j - |FormatsWithYear|;
        assert strptime(text, FormatsWithoutYear[m]).Some?;
      }
    }
  }

  /** A date found is what its template matched, with the instant the host
      converts it to; an `OverflowError` comes from the conversion of the
      first match that does not fall through. */
  lemma ParsedComesFromConversion(strptime: (string, string) -> Option<DateTime>, localize: DateTime -> Conversion,
                                  text: string, currentYear: int)
    ensures var r := ParseCalendar(strptime, localize, text, currentYear);
      r.Found? ==> localize(r.local) == Converted(r.epoch)
    ensures ParseCalendar(strptime, localize, text, currentYear).Overflowed? <==>
      exists j :: 0 <= j < AttemptCount && Attempt(strptime, localize, text, currentYear, j).Overflowed? &&
        forall i :: 0 <= i < j ==> Attempt(strptime, localize, text, currentYear, i).NotFound?
  {
    FirstSuccessFromMeaning(strptime, localize, text, currentYear, 0);
    var r := ParseCalendar(strptime, localize, text, currentYear);
    if exists j :: 0 <= j < AttemptCount && Attempt(strptime, localize, text, currentYear, j).Overflowed? &&
        forall i :: 0 <= i < j ==> Attempt(strptime, localize, text, currentYear, i).NotFound? {
      var j :| 0 <= j < AttemptCount && Attempt(strptime, localize, text, currentYear, j).Overflowed? &&
        forall i :: 0 <= i < j ==> Attempt(strptime, localize, text, currentYear, i).NotFound?;
      var j' :| 0 <= j' < AttemptCount && r == Attempt(strptime, localize, text, currentYear, j') &&
        forall i :: 0 <= i < j' ==> Attempt(strptime, localize, text, currentYear, i).NotFound?;
      assert j == j';
    }
  }

  /** The year replacement fails only for 29 February in a common year (the
      current year always lies in 1..9999): such a year-less match falls
      through to the next template. */
  lemma ReplaceYearFailsOnlyOnLeapDay(dt: DateTime, year: int)
    requires 1 <= year <= 9999
    requires 1 <= dt.month <= 12 && 1 <= dt.day <= DaysInMonth(2000, dt.month)
    ensures ReplaceYear(dt, year).None? <==> dt.month == 2 && dt.day == 29 && !IsLeapYear(year)
    ensures ReplaceYear(dt, year).Some? ==> ReplaceYear(dt, year).value == dt.(year := year)
  {
  }
}
