/** The query resolver `process_query`: it splits the query at its first
    offset operation, resolves the base text to now, an epoch value or a
    calendar date, and adds the offset duration. The clock, the current year,
    template matching and the conversion of local time to seconds since the
    epoch come from the `Host`.
 */
module QueryResolver {
  import opened Wrappers
  import opened Text
  import opened OffsetLexer
  import opened EpochInterpreter
  import opened CalendarParser

  /** What a resolution reads from its surroundings: the wall clock
      (`time.time()`), the current local year (`datetime.now().year`), one
      template match (`datetime.strptime`, `None` for `ValueError`), and the
      reading of a naive local date and time as seconds since the epoch
      (`astimezone()` followed by `timestamp()`), which can raise near the
      ends of the year range. */
  datatype Host = Host(
    now: real,
    currentYear: int,
    strptime: (string, string) -> Option<DateTime>,
    localize: DateTime -> Conversion)

  /** The outcome: the `(timestamp, is_epoch_input, show_now)` triple, the
      `(None, None, None)` triple, or an `OverflowError` that escapes, from the
      offset lexer or from the calendar parser's conversion. */
  datatype Resolution =
    | Resolved(timestamp: real, isEpochInput: bool, showNow: bool)
    | Unresolved
    | Raised

  /** The split pattern `(^|[\s])[+\-]\s*\d+\s*\w+` matches at `q`: either at
      the start of the text, or on a whitespace character followed by an
      offset token. */
  predicate OperationAt(s: string, q: nat) {
    || (q == 0 && MatchAt(s, 0).Some?)
    || (q < |s| && IsSpace(s[q]) && MatchAt(s, q + 1).Some?)
  }

  /** The first index in `q..n` that satisfies `P`. */
  function FirstFrom(n: nat, q: nat, P: nat -> bool): (r: Option<nat>)
    ensures r.Some? ==> q <= r.value < n && P(r.value)
    ensures r.Some? ==> forall k :: q <= k < r.value ==> !P(k)
    ensures r.None? ==> forall k :: q <= k < n ==> !P(k)
    decreases n - q
  {
    if q >= n then None
    else if P(q) then Some(q)
    else FirstFrom(n, q + 1, P)
  }

  /** `re.search` for the split pattern from `q` on: the leftmost position at
      which it matches, or `None` when it matches nowhere. */
  function SearchOperation(s: string, q: nat): (r: Option<nat>)
    ensures r.Some? ==> q <= r.value < |s| && OperationAt(s, r.value)
    ensures r.Some? ==> forall k :: q <= k < r.value ==> !OperationAt(s, k)
    ensures r.None? ==> forall k :: q <= k < |s| ==> !OperationAt(s, k)
  {
    var operationAt := (k: nat) => OperationAt(s, k);
    assert forall k: nat :: operationAt(k) == OperationAt(s, k);
    FirstFrom(|s|, q, operationAt)
  }

  /** `process_query`: an empty query is now; otherwise the base text is
      resolved and the offset duration added, unless the lexer raises or the
      calendar parser rejects the base. */
  function ProcessQuery(query: string, host: Host): (r: Resolution)
    ensures r.Resolved? && r.showNow ==> r.isEpochInput
  {
    if query == "" then Resolved(host.now, true, true)
    else
      match QueryDelta(query)
      case Overflow => Raised
      case Delta(seconds) => Shifted(ResolveBase(BaseText(query), host), seconds)
  }

  /** The resolved base moved by the offset, flags kept; a base the calendar
      parser rejects stays unresolved, and one whose conversion raises still
      raises. */
  function Shifted(base: Resolution, seconds: int): Resolution {
    match base
    case Resolved(instant, isEpochInput, showNow) => Resolved(instant + seconds as real, isEpochInput, showNow)
    case Unresolved => Unresolved
    case Raised => Raised
  }

  /** The base part: the stripped text before the split, or the whole
      stripped query when the split pattern matches nowhere. */
  function BaseText(query: string): string {
    match SearchOperation(query, 0)
    case Some(q) => Strip(query[..q])
    case None => Strip(query)
  }

  /** The offset duration: the lexer on the whole query when the split
      pattern matches, and zero otherwise. */
  function QueryDelta(query: string): Lexed {
    match SearchOperation(query, 0)
    case Some(_) => Lex(query)
    case None => Delta(0)
  }

  /** The base instant and flags: now for an empty base, the epoch interpreter
      for a digit string, the calendar parser for anything else. */
  function ResolveBase(basePart: string, host: Host): (r: Resolution)
    ensures r == Raised <==>
      basePart != "" && !IsDigitString(basePart) && ParseCalendar(host.strptime, host.localize, basePart, host.currentYear).Overflowed?
    ensures r.Resolved? ==> (r.showNow <==> basePart == "")
    ensures r.Resolved? ==> (r.isEpochInput <==> basePart == "" || IsDigitString(basePart))
    ensures r == Unresolved <==>
      basePart != "" && !IsDigitString(basePart) && ParseCalendar(host.strptime, host.localize, basePart, host.currentYear).NotFound?
  {
    if basePart == "" then Resolved(host.now, true, true)
    else if IsDigitString(basePart) then Resolved(ParseEpochValue(basePart), true, false)
    else
      match ParseCalendar(host.strptime, host.localize, basePart, host.currentYear)
      case NotFound => Unresolved
      case Overflowed => Raised
      case Found(_, epoch) => Resolved(epoch, false, false)
  }

  // ---------------------------------------------------------------------
  // Reference definitions the properties are stated in

  /** Some offset token raises `OverflowError`; only when the query has an
      operation at all, because only then is the lexer run. */
  predicate OffsetsOverflow(query: string) {
    var ts := FindAll(query, 0);
    SearchOperation(query, 0).Some? && exists i :: 0 <= i < |ts| && OverflowsAt(ts, i)
  }

  /** The offset in seconds: what every sign position of the whole query
      contributes when the query has an operation, and zero otherwise. */
  function OffsetSeconds(query: string): int {
    if SearchOperation(query, 0).Some? then OffsetSum(query) else 0
  }

  /** The base part goes to the calendar parser, and the conversion of the
      date it finds raises `OverflowError`. */
  predicate BaseOverflows(query: string, host: Host) {
    var base := BaseText(query);
    base != "" && !IsDigitString(base) && ParseCalendar(host.strptime, host.localize, base, host.currentYear).Overflowed?
  }

  // ---------------------------------------------------------------------
  // Properties

  /** An empty query is now, with both flags set and no offset. */
  lemma EmptyQueryIsNow(host: Host)
    ensures ProcessQuery("", host) == Resolved(host.now, true, true)
  {
  }

  /** The split lies at the first position where the split pattern matches,
      and the base text is what precedes it, stripped. */
  lemma FirstOperationIsSplit(query: string, q: nat)
    requires OperationAt(query, q)
    requires forall k :: 0 <= k < q ==> !OperationAt(query, k)
    ensures SearchOperation(query, 0) == Some(q)
    ensures BaseText(query) == Strip(query[..q])
  {
  }

  /** The offset duration raises exactly when the query has an operation and
      one of its tokens overflows; otherwise it is the sum over every sign
      position of the query, or zero when there is no operation. */
  lemma QueryDeltaMeaning(query: string)
    ensures QueryDelta(query) == if OffsetsOverflow(query) then Overflow else Delta(OffsetSeconds(query))
  {
    var ts := FindAll(query, 0);
    if SearchOperation(query, 0).Some? {
      LexMeaning(query);
      assert QueryDelta(query) == Lex(query);
      assert OffsetsOverflow(query) <==> exists i :: 0 <= i < |ts| && OverflowsAt(ts, i);
    }
  }

  /** An empty base part (a query that starts with an operation) is now plus
      the offset, flagged as now. */
  lemma EmptyBaseIsNowPlusOffset(query: string, host: Host)
    requires query != "" && !OffsetsOverflow(query) && BaseText(query) == ""
    ensures ProcessQuery(query, host) == Resolved(host.now + OffsetSeconds(query) as real, true, true)
  {
    QueryDeltaMeaning(query);
  }

  /** A digit-string base part is the epoch value plus the offset, flagged as
      epoch input. */
  lemma DigitBaseIsEpochPlusOffset(query: string, host: Host)
    requires query != "" && !OffsetsOverflow(query) && IsDigitString(BaseText(query))
    ensures ProcessQuery(query, host) == Resolved(ParseEpochValue(BaseText(query)) + OffsetSeconds(query) as real, true, false)
  {
    QueryDeltaMeaning(query);
  }

  /** Any other base part goes to the calendar parser: the instant its date
      converts to, plus the offset; no result when no template takes it; the
      conversion's `OverflowError` when that raises. */
  lemma CalendarBasePlusOffset(query: string, host: Host)
    requires query != "" && !OffsetsOverflow(query)
    requires BaseText(query) != "" && !IsDigitString(BaseText(query))
    ensures var r := ProcessQuery(query, host);
      match ParseCalendar(host.strptime, host.localize, BaseText(query), host.currentYear)
      case NotFound => r == Unresolved
      case Overflowed => r == Raised
      case Found(_, epoch) => r == Resolved(epoch + OffsetSeconds(query) as real, false, false)
  {
    QueryDeltaMeaning(query);
  }

  /** The offset lexer's `OverflowError` escapes whatever the base is, even a
      base the calendar parser rejects, because the lexer runs first; with
      offsets that fit, the calendar parser's conversion can raise too. */
  lemma OverflowEscapes(query: string, host: Host)
    ensures ProcessQuery(query, host) == Raised <==>
      query != "" && (OffsetsOverflow(query) || BaseOverflows(query, host))
  {
    QueryDeltaMeaning(query);
  }

  /** The query fails as a whole exactly when the base goes to the calendar
      parser and no template takes it; valid offsets are then discarded. */
  lemma FailureDiscardsOffsets(query: string, host: Host)
    ensures ProcessQuery(query, host) == Unresolved <==>
      && query != ""
      && !OffsetsOverflow(query)
      && BaseText(query) != ""
      && !IsDigitString(BaseText(query))
      && ParseCalendar(host.strptime, host.localize, BaseText(query), host.currentYear).NotFound?
  {
    QueryDeltaMeaning(query);
  }

  /** The flags tell the three bases apart: `is_epoch_input` is false exactly
      for a calendar base, and `show_now` is true exactly for now. */
  lemma FlagsClassifyBase(query: string, host: Host)
    requires ProcessQuery(query, host).Resolved?
    ensures var r, base := ProcessQuery(query, host), BaseText(query);
      && (r.showNow <==> query == "" || base == "")
      && (r.isEpochInput <==> query == "" || base == "" || IsDigitString(base))
  {
  }

  /** The split lies on an operation: a sign at the very start, or a
      whitespace character immediately followed by a sign. */
  lemma SplitIsAtSign(query: string)
    requires SearchOperation(query, 0).Some?
    ensures var q := SearchOperation(query, 0).value;
      || (q == 0 && IsSign(query[0]))
      || (q + 1 < |query| && IsSpace(query[q]) && IsSign(query[q + 1]))
  {
    var q := SearchOperation(query, 0).value;
    if !(q == 0 && MatchAt(query, 0).Some?) {
      var m := MatchAt(query, q + 1).value;
      assert IsMatch(query, m);
    }
  }

  /** A query that opens with an offset token is relative to now: its base
      part is empty, and the lexer decides the rest. */
  lemma LeadingOperationIsFromNow(query: string, host: Host)
    requires MatchAt(query, 0).Some?
    ensures Lex(query).Overflow? ==> ProcessQuery(query, host) == Raised
    ensures Lex(query).Delta? ==> ProcessQuery(query, host) == Resolved(host.now + Lex(query).seconds as real, true, true)
  {
    FirstOperationIsSplit(query, 0);
    StripIsSlice(query[..0], 0, 0);
  }

  /** A query whose first operation is the whitespace at `q` resolves its
      stripped prefix as the base and the whole query for the offset. */
  lemma OperationAfterBase(query: string, q: nat, host: Host)
    requires q < |query| && IsSpace(query[q]) && MatchAt(query, q + 1).Some?
    requires forall k :: 0 <= k < q ==> !OperationAt(query, k)
    ensures Lex(query).Overflow? ==> ProcessQuery(query, host) == Raised
    ensures Lex(query).Delta? ==> ProcessQuery(query, host) == Shifted(ResolveBase(Strip(query[..q]), host), Lex(query).seconds)
  {
    FirstOperationIsSplit(query, q);
  }

  /** A query without whitespace that does not start with a sign has no
      operation, whatever signs it holds further on: its base part is the
      whole query and its offset is zero. */
  lemma NoSpaceNoOperation(query: string)
    requires forall k :: 0 <= k < |query| ==> !IsSpace(query[k])
    requires query == [] || !IsSign(query[0])
    ensures SearchOperation(query, 0).None?
    ensures BaseText(query) == query && QueryDelta(query) == Delta(0)
  {
    if query != [] {
      StripIsSlice(query, 0, |query|);
      assert query[0..|query|] == query;
    }
  }

  /** A query that is a plain digit string is an epoch value with no offset. */
  lemma DigitQueryIsEpoch(query: string, host: Host)
    requires IsDigitString(query)
    ensures ProcessQuery(query, host) == Resolved(ParseEpochValue(query), true, false)
  {
    if SearchOperation(query, 0).Some? {
      SplitIsAtSign(query);
      assert false;
    }
    StripIsSlice(query, 0, |query|);
    assert query[0..|query|] == query;
  }
}
