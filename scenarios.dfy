/** The queries the repository's test script runs, resolved by the model.
    Calendar queries need the host's template matching and local-time
    conversion; each such lemma requires exactly the `strptime` outcomes the
    host library gives for the text, and that the date found converts. */
module Scenarios {
  import opened Wrappers
  import opened Text
  import opened OffsetLexer
  import opened EpochInterpreter
  import opened CalendarParser
  import opened QueryResolver

  // ---------------------------------------------------------------------
  // Evaluating the lexer on a concrete query

  /** Runs of whitespace, digits, whitespace and word characters after the
      sign at `p` that end at `a`, `b`, `c` and `e`. */
  lemma Runs(s: string, p: nat, a: nat, b: nat, c: nat, e: nat)
    requires p < a <= b <= c <= e <= |s|
    requires forall k :: p + 1 <= k < a ==> IsSpace(s[k])
    requires a == |s| || !IsSpace(s[a])
    requires forall k :: a <= k < b ==> IsDigit(s[k])
    requires b == |s| || !IsDigit(s[b])
    requires forall k :: b <= k < c ==> IsSpace(s[k])
    requires c == |s| || !IsSpace(s[c])
    requires forall k :: c <= k < e ==> IsWord(s[k])
    requires e == |s| || !IsWord(s[e])
    ensures RunEnd(s, p + 1, IsSpace) == a && RunEnd(s, a, IsDigit) == b
    ensures RunEnd(s, b, IsSpace) == c && RunEnd(s, c, IsWord) == e
  {
    RunEndIs(s, p + 1, IsSpace, a);
    RunEndIs(s, a, IsDigit, b);
    RunEndIs(s, b, IsSpace, c);
    RunEndIs(s, c, IsWord, e);
  }

  lemma ScanAtMatch(s: string, p: nat, m: Match)
    requires MatchAt(s, p) == Some(m)
    ensures FindAll(s, p) == [TokenOf(s, m)] + FindAll(s, m.end)
  {
  }

  /** The scan at the sign at `p`, whose runs end at `a`, `b`, `c` and `e`,
      yields one token and resumes at `j`: the digits and the word when a word
      follows, and otherwise the backtracked split whose unit is the last
      digit. */
  lemma TokenStep(s: string, p: nat, a: nat, b: nat, c: nat, e: nat, j: nat)
    requires p < a < b <= c <= e <= j <= |s| && IsSign(s[p])
    requires RunEnd(s, p + 1, IsSpace) == a && RunEnd(s, a, IsDigit) == b
    requires RunEnd(s, b, IsSpace) == c && RunEnd(s, c, IsWord) == e
    requires forall k :: e <= k < j ==> !IsSign(s[k])
    requires c < e || b - a >= 2
    ensures MatchAt(s, p).Some?
    ensures c < e ==> FindAll(s, p) == [Token(s[p], s[a..b], s[c..e])] + FindAll(s, j)
    ensures c == e ==> FindAll(s, p) == [Token(s[p], s[a..b - 1], s[b - 1..b])] + FindAll(s, j)
  {
    if c < e {
      WordStep(s, p, a, b, c, e);
      FindAllSkipsSignFree(s, e, j);
    } else {
      BacktrackStep(s, p, a, b, c);
      FindAllSkipsSignFree(s, b, j);
    }
  }

  /** A word follows the digits: it is the unit. */
  lemma WordStep(s: string, p: nat, a: nat, b: nat, c: nat, e: nat)
    requires p < a < b <= c < e <= |s| && IsSign(s[p])
    requires RunEnd(s, p + 1, IsSpace) == a && RunEnd(s, a, IsDigit) == b
    requires RunEnd(s, b, IsSpace) == c && RunEnd(s, c, IsWord) == e
    ensures MatchAt(s, p) == Some(Match(p, a, b, c, e))
    ensures FindAll(s, p) == [Token(s[p], s[a..b], s[c..e])] + FindAll(s, e)
  {
    var m := Match(p, a, b, c, e);
    assert MatchAt(s, p) == Some(m);
    ScanAtMatch(s, p, m);
  }

  /** No word follows two or more digits: the last digit is the unit. */
  lemma BacktrackStep(s: string, p: nat, a: nat, b: nat, c: nat)
    requires p < a < b <= c <= |s| && b - a >= 2 && IsSign(s[p])
    requires RunEnd(s, p + 1, IsSpace) == a && RunEnd(s, a, IsDigit) == b
    requires RunEnd(s, b, IsSpace) == c && RunEnd(s, c, IsWord) == c
    ensures MatchAt(s, p) == Some(Match(p, a, b - 1, b - 1, b))
    ensures FindAll(s, p) == [Token(s[p], s[a..b - 1], s[b - 1..b])] + FindAll(s, b)
  {
    var m := Match(p, a, b - 1, b - 1, b);
    assert MatchAt(s, p) == Some(m);
    ScanAtMatch(s, p, m);
  }

  // One more token with a known unit, whose piece and new total fit: the
  // loop's step at each position of a short token list.

  lemma AddFirst(t0: Token, u: Unit, piece: int)
    requires WellFormed(t0)
    requires LookupUnit(t0.unit) == Some(u) && piece == Amount(t0) * UnitSeconds(u) && FitsTimedelta(piece)
    ensures LexTokens([t0]) == Delta(piece)
  {
    assert [t0][..0] == [];
  }

  lemma AddSecond(t0: Token, t1: Token, total: int, u: Unit, piece: int)
    requires WellFormed(t0) && WellFormed(t1) && LexTokens([t0]) == Delta(total)
    requires LookupUnit(t1.unit) == Some(u) && piece == Amount(t1) * UnitSeconds(u)
    requires FitsTimedelta(piece) && FitsTimedelta(total + piece)
    ensures LexTokens([t0, t1]) == Delta(total + piece)
  {
    assert [t0, t1][..1] == [t0];
  }

  lemma AddThird(t0: Token, t1: Token, t2: Token, total: int, u: Unit, piece: int)
    requires WellFormed(t0) && WellFormed(t1) && WellFormed(t2) && LexTokens([t0, t1]) == Delta(total)
    requires LookupUnit(t2.unit) == Some(u) && piece == Amount(t2) * UnitSeconds(u)
    requires FitsTimedelta(piece) && FitsTimedelta(total + piece)
    ensures LexTokens([t0, t1, t2]) == Delta(total + piece)
  {
    assert [t0, t1, t2][..2] == [t0, t1];
  }

  lemma AddFourth(t0: Token, t1: Token, t2: Token, t3: Token, total: int, u: Unit, piece: int)
    requires WellFormed(t0) && WellFormed(t1) && WellFormed(t2) && WellFormed(t3)
    requires LexTokens([t0, t1, t2]) == Delta(total)
    requires LookupUnit(t3.unit) == Some(u) && piece == Amount(t3) * UnitSeconds(u)
    requires FitsTimedelta(piece) && FitsTimedelta(total + piece)
    ensures LexTokens([t0, t1, t2, t3]) == Delta(total + piece)
  {
    assert [t0, t1, t2, t3][..3] == [t0, t1, t2];
  }

  /** No position before `q` starts an operation when none of them holds
      whitespace and the text does not open with a sign. */
  lemma NoOperationBefore(s: string, q: nat)
    requires q <= |s|
    requires forall k :: 0 <= k < q ==> !IsSpace(s[k])
    requires q == 0 || !IsSign(s[0])
    ensures forall k :: 0 <= k < q ==> !OperationAt(s, k)
  {
  }

  /** A query that has an operation, whose offsets add up to `seconds` and
      whose base text resolves: that instant shifted by the offset, with the
      base's flags. */
  lemma Final(s: string, host: Host, seconds: int, base: string, instant: real, isEpochInput: bool, showNow: bool)
    requires SearchOperation(s, 0).Some? && Lex(s) == Delta(seconds)
    requires BaseText(s) == base && ResolveBase(base, host) == Resolved(instant, isEpochInput, showNow)
    ensures ProcessQuery(s, host) == Resolved(instant + seconds as real, isEpochInput, showNow)
  {
  }

  /** A query that opens with an operation whose offsets add up to `seconds`:
      now, shifted. */
  lemma NowShifted(query: string, host: Host, seconds: int)
    requires MatchAt(query, 0).Some? && Lex(query) == Delta(seconds)
    ensures ProcessQuery(query, host) == Resolved(host.now + seconds as real, true, true)
  {
    LeadingOperationIsFromNow(query, host);
  }

  // ---------------------------------------------------------------------
  // Offsets from now

  lemma TwoHoursRuns(s: string)
    requires s == "+ 2 hours"
    ensures RunEnd(s, 1, IsSpace) == 2 && RunEnd(s, 2, IsDigit) == 3 && RunEnd(s, 3, IsSpace) == 4 && RunEnd(s, 4, IsWord) == 9
  {
    Runs(s, 0, 2, 3, 4, 9);
  }

  lemma TwoHoursChars(s: string)
    requires s == "+ 2 hours"
    ensures |s| == 9 && s[0] == '+' && s[2..3] == "2" && s[4..9] == "hours"
  {
  }

  lemma TwoHoursTokens(s: string)
    requires s == "+ 2 hours"
    ensures MatchAt(s, 0).Some? && FindAll(s, 0) == [Token('+', "2", "hours")]
  {
    TwoHoursRuns(s);
    TwoHoursChars(s);
    TokenStep(s, 0, 2, 3, 4, 9, 9);
  }


  lemma TwoHoursSum()
    ensures LexTokens([Token('+', "2", "hours")]) == Delta(7200)
  {
    LookupLowerCaseWord("hours");
    AddFirst(Token('+', "2", "hours"), Hours, 7200);
  }

  /** "+ 2 hours": two hours from now, shown as now. */
  lemma TwoHoursFromNow(s: string, host: Host)
    requires s == "+ 2 hours"
    ensures ProcessQuery(s, host) == Resolved(host.now + 7200.0, true, true)
  {
    TwoHoursTokens(s);
    TwoHoursSum();
    NowShifted(s, host, 7200);
  }

  lemma MixedRuns0(s: string)
    requires s == "-1d -13min +40 seconds"
    ensures RunEnd(s, 1, IsSpace) == 1 && RunEnd(s, 1, IsDigit) == 2 && RunEnd(s, 2, IsSpace) == 2 && RunEnd(s, 2, IsWord) == 3
  {
    Runs(s, 0, 1, 2, 2, 3);
  }

  lemma MixedChars0(s: string)
    requires s == "-1d -13min +40 seconds"
    ensures s[0] == '-' && s[1..2] == "1" && s[2..3] == "d" && !IsSign(s[3])
  {
  }

  lemma MixedToken0(s: string)
    requires s == "-1d -13min +40 seconds"
    ensures MatchAt(s, 0).Some? && FindAll(s, 0) == [Token('-', "1", "d")] + FindAll(s, 4)
  {
    MixedRuns0(s);
    MixedChars0(s);
    TokenStep(s, 0, 1, 2, 2, 3, 4);
  }

  lemma MixedRuns4(s: string)
    requires s == "-1d -13min +40 seconds"
    ensures RunEnd(s, 5, IsSpace) == 5 && RunEnd(s, 5, IsDigit) == 7 && RunEnd(s, 7, IsSpace) == 7 && RunEnd(s, 7, IsWord) == 10
  {
    Runs(s, 4, 5, 7, 7, 10);
  }

  lemma MixedChars4(s: string)
    requires s == "-1d -13min +40 seconds"
    ensures s[4] == '-' && s[5..7] == "13" && s[7..10] == "min" && !IsSign(s[10])
  {
  }

  lemma MixedToken4(s: string)
    requires s == "-1d -13min +40 seconds"
    ensures FindAll(s, 4) == [Token('-', "13", "min")] + FindAll(s, 11)
  {
    MixedRuns4(s);
    MixedChars4(s);
    TokenStep(s, 4, 5, 7, 7, 10, 11);
  }

  lemma MixedRuns11(s: string)
    requires s == "-1d -13min +40 seconds"
    ensures RunEnd(s, 12, IsSpace) == 12 && RunEnd(s, 12, IsDigit) == 14 && RunEnd(s, 14, IsSpace) == 15 && RunEnd(s, 15, IsWord) == 22
  {
    Runs(s, 11, 12, 14, 15, 22);
  }

  lemma MixedChars11(s: string)
    requires s == "-1d -13min +40 seconds"
    ensures |s| == 22 && s[11] == '+' && s[12..14] == "40" && s[15..22] == "seconds"
  {
  }

  lemma MixedToken11(s: string)
    requires s == "-1d -13min +40 seconds"
    ensures FindAll(s, 11) == [Token('+', "40", "seconds")]
  {
    MixedRuns11(s);
    MixedChars11(s);
    TokenStep(s, 11, 12, 14, 15, 22, 22);
  }

  lemma MixedTokens(s: string)
    requires s == "-1d -13min +40 seconds"
    ensures MatchAt(s, 0).Some?
    ensures FindAll(s, 0) == [Token('-', "1", "d"), Token('-', "13", "min"), Token('+', "40", "seconds")]
  {
    MixedToken0(s);
    MixedToken4(s);
    MixedToken11(s);
  }

  lemma MixedSum()
    ensures LexTokens([Token('-', "1", "d"), Token('-', "13", "min"), Token('+', "40", "seconds")]) == Delta(-86400 - 780 + 40)
  {
    var t0, t1, t2 := Token('-', "1", "d"), Token('-', "13", "min"), Token('+', "40", "seconds");
    MixedSum2();
    LookupLowerCaseWord("seconds");
    Value40();
    assert Amount(t2) * UnitSeconds(Seconds) == 40;
    AddThird(t0, t1, t2, -86400 - 780, Seconds, 40);
  }

  lemma MixedSum2()
    ensures LexTokens([Token('-', "1", "d"), Token('-', "13", "min")]) == Delta(-86400 - 780)
  {
    FirstDayBack();
    LookupLowerCaseWord("min");
    Value13();
    AddSecond(Token('-', "1", "d"), Token('-', "13", "min"), -86400, Minutes, -780);
  }

  /** "-1d" alone: a day back. */
  lemma FirstDayBack()
    ensures LexTokens([Token('-', "1", "d")]) == Delta(-86400)
  {
    LookupLowerCaseWord("d");
    AddFirst(Token('-', "1", "d"), Days, -86400);
  }

  /** "-1d -13min +40 seconds": each token counts in its own unit. */
  lemma MixedUnitsFromNow(s: string, host: Host)
    requires s == "-1d -13min +40 seconds"
    ensures ProcessQuery(s, host) == Resolved(host.now + (-86400 - 780 + 40) as real, true, true)
  {
    MixedTokens(s);
    MixedSum();
    NowShifted(s, host, -86400 - 780 + 40);
  }

  /** "+12": the digits take no unit, so the matcher backtracks and reads unit
      "2", which the table does not know; the query is now. */
  lemma BacktrackedUnitIsIgnored(s: string, host: Host)
    requires s == "+12"
    ensures ProcessQuery(s, host) == Resolved(host.now, true, true)
  {
    UnknownUnitTokens(s);
    UnknownUnitSum();
    NowShifted(s, host, 0);
  }

  lemma UnknownUnitRuns(s: string)
    requires s == "+12"
    ensures RunEnd(s, 1, IsSpace) == 1 && RunEnd(s, 1, IsDigit) == 3 && RunEnd(s, 3, IsSpace) == 3 && RunEnd(s, 3, IsWord) == 3
  {
    Runs(s, 0, 1, 3, 3, 3);
  }

  lemma UnknownUnitChars(s: string)
    requires s == "+12"
    ensures |s| == 3 && s[0] == '+' && s[1..2] == "1" && s[2..3] == "2"
  {
  }

  lemma UnknownUnitTokens(s: string)
    requires s == "+12"
    ensures MatchAt(s, 0).Some? && FindAll(s, 0) == [Token('+', "1", "2")]
  {
    UnknownUnitRuns(s);
    UnknownUnitChars(s);
    TokenStep(s, 0, 1, 3, 3, 3, 3);
  }

  lemma UnknownUnitSum()
    ensures LexTokens([Token('+', "1", "2")]) == Delta(0)
  {
    DigitLedUnitIsUnknown("2");
    UnknownUnitAddsNothing([], Token('+', "1", "2"), []);
    assert [] + [Token('+', "1", "2")] + [] == [Token('+', "1", "2")];
  }

  /** "+1M": the upper-case `M` is lower-cased before the lookup and names
      minutes. */
  lemma CapitalMIsMinutes(s: string, host: Host)
    requires s == "+1M"
    ensures ProcessQuery(s, host) == Resolved(host.now + 60.0, true, true)
  {
    CapitalMTokens(s);
    CapitalMSum();
    NowShifted(s, host, 60);
  }

  lemma CapitalMRuns(s: string)
    requires s == "+1M"
    ensures RunEnd(s, 1, IsSpace) == 1 && RunEnd(s, 1, IsDigit) == 2 && RunEnd(s, 2, IsSpace) == 2 && RunEnd(s, 2, IsWord) == 3
  {
    Runs(s, 0, 1, 2, 2, 3);
  }

  lemma CapitalMChars(s: string)
    requires s == "+1M"
    ensures |s| == 3 && s[0] == '+' && s[1..2] == "1" && s[2..3] == "M"
  {
  }

  lemma CapitalMTokens(s: string)
    requires s == "+1M"
    ensures MatchAt(s, 0).Some? && FindAll(s, 0) == [Token('+', "1", "M")]
  {
    CapitalMRuns(s);
    CapitalMChars(s);
    TokenStep(s, 0, 1, 2, 2, 3, 3);
  }

  lemma CapitalMSum()
    ensures LexTokens([Token('+', "1", "M")]) == Delta(60)
  {
    MonthsOnlyByName("M");
    AddFirst(Token('+', "1", "M"), Minutes, 60);
  }

  /** "+9999999 years" is 3649999635 days, past what a `timedelta` holds: the
      query raises. */
  lemma HugeOffsetRaises(s: string, host: Host)
    requires s == "+9999999 years"
    ensures ProcessQuery(s, host) == Raised
  {
    HugeOffsetTokens(s);
    HugeOffsetSum();
    LeadingOperationIsFromNow(s, host);
  }

  lemma HugeOffsetRuns(s: string)
    requires s == "+9999999 years"
    ensures RunEnd(s, 1, IsSpace) == 1 && RunEnd(s, 1, IsDigit) == 8 && RunEnd(s, 8, IsSpace) == 9 && RunEnd(s, 9, IsWord) == 14
  {
    Runs(s, 0, 1, 8, 9, 14);
  }

  lemma HugeOffsetChars(s: string)
    requires s == "+9999999 years"
    ensures |s| == 14 && s[0] == '+' && s[1..8] == "9999999" && s[9..14] == "years"
  {
  }

  lemma HugeOffsetTokens(s: string)
    requires s == "+9999999 years"
    ensures MatchAt(s, 0).Some? && FindAll(s, 0) == [Token('+', "9999999", "years")]
  {
    HugeOffsetRuns(s);
    HugeOffsetChars(s);
    TokenStep(s, 0, 1, 8, 9, 14, 14);
  }

  lemma Value13()
    ensures DigitsValue("13") == 13
  {
  }

  lemma Value20()
    ensures DigitsValue("20") == 20
  {
  }

  lemma Value40()
    ensures DigitsValue("40") == 40
  {
  }

  lemma Value9999999()
    ensures DigitsValue("9999999") == 9999999
  {
    DigitsValueAppend("99", "99");
    assert "99" + "99" == "9999";
    DigitsValueAppend("9999", "99");
    assert "9999" + "99" == "999999";
    DigitsValueAppend("999999", "9");
    assert "999999" + "9" == "9999999";
  }

  lemma HugeOffsetSum()
    ensures LexTokens([Token('+', "9999999", "years")]) == Overflow
  {
    var t := Token('+', "9999999", "years");
    Value9999999();
    LookupLowerCaseWord("years");
    HugePieceOverflows(Amount(t));
    assert [t][..0] == [];
  }

  lemma HugePieceOverflows(amount: int)
    requires amount == 9999999
    ensures !FitsTimedelta(amount * UnitSeconds(Years))
  {
  }

  lemma Value999999999()
    ensures DigitsValue("999999999") == 999999999
  {
    Value9999999();
    DigitsValueAppend("9999999", "99");
    assert "9999999" + "99" == "999999999";
  }

  /** The same three tokens in two orders: a day forward and a day back
      after the largest day count. Forward first leaves the range on the
      way, so the loop raises; back first stays inside and ends on the
      largest day count. */
  lemma OrderDecidesOverflow()
    ensures var big, plus, minus := Token('+', "999999999", "d"), Token('+', "1", "d"), Token('-', "1", "d");
      multiset([big, plus, minus]) == multiset([big, minus, plus]) &&
      LexTokens([big, plus, minus]) == Overflow &&
      LexTokens([big, minus, plus]) == Delta(MaxTimedeltaDays * 86400)
  {
    ForwardFirstOverflows();
    BackFirstFits();
  }

  lemma ForwardFirstOverflows()
    ensures LexTokens([Token('+', "999999999", "d"), Token('+', "1", "d"), Token('-', "1", "d")]) == Overflow
  {
    var big, plus, minus := Token('+', "999999999", "d"), Token('+', "1", "d"), Token('-', "1", "d");
    Value999999999();
    LookupLowerCaseWord("d");
    AddFirst(big, Days, MaxTimedeltaDays * 86400);
    assert [big, plus][..1] == [big];
    assert LexTokens([big, plus]) == Overflow;
    assert [big, plus, minus][..2] == [big, plus];
  }

  lemma BackFirstFits()
    ensures LexTokens([Token('+', "999999999", "d"), Token('-', "1", "d"), Token('+', "1", "d")]) == Delta(MaxTimedeltaDays * 86400)
  {
    var big, minus, plus := Token('+', "999999999", "d"), Token('-', "1", "d"), Token('+', "1", "d");
    var day := MaxTimedeltaDays * 86400;
    Value999999999();
    LookupLowerCaseWord("d");
    AddFirst(big, Days, day);
    AddSecond(big, minus, day, Days, -86400);
    AddThird(big, minus, plus, day - 86400, Days, 86400);
  }

  // ---------------------------------------------------------------------
  // Epoch values

  lemma Value17339()
    ensures DigitsValue("17339") == 17339
  {
    DigitsValueAppend("17", "33");
    assert "17" + "33" == "1733";
    DigitsValueAppend("1733", "9");
    assert "1733" + "9" == "17339";
  }

  lemma Value00000()
    ensures DigitsValue("00000") == 0
  {
    DigitsValueLeadingZero("0");
    assert "0" + "0" == "00";
    DigitsValueLeadingZero("00");
    assert "0" + "00" == "000";
    DigitsValueLeadingZero("000");
    assert "0" + "000" == "0000";
    DigitsValueLeadingZero("0000");
    assert "0" + "0000" == "00000";
  }

  lemma Value1733900000()
    ensures DigitsValue("1733900000") == 1733900000
  {
    Value17339();
    Value00000();
    DigitsValueAppend("17339", "00000");
    assert "17339" + "00000" == "1733900000";
    assert Pow10(5) == 100000;
  }

  lemma Value1765()
    ensures DigitsValue("1765") == 1765
  {
    DigitsValueAppend("17", "65");
    assert "17" + "65" == "1765";
  }

  lemma Value7604()
    ensures DigitsValue("7604") == 7604
  {
    DigitsValueAppend("76", "04");
    assert "76" + "04" == "7604";
  }

  lemma Value17657604()
    ensures DigitsValue("17657604") == 17657604
  {
    Value1765();
    Value7604();
    DigitsValueAppend("1765", "7604");
    assert "1765" + "7604" == "17657604";
    assert Pow10(4) == 10000;
  }

  lemma Value0082()
    ensures DigitsValue("0082") == 82
  {
    DigitsValueAppend("00", "82");
    assert "00" + "82" == "0082";
  }

  lemma Value2456()
    ensures DigitsValue("2456") == 2456
  {
    DigitsValueAppend("24", "56");
    assert "24" + "56" == "2456";
  }

  lemma Value00822456()
    ensures DigitsValue("00822456") == 822456
  {
    Value0082();
    Value2456();
    DigitsValueAppend("0082", "2456");
    assert "0082" + "2456" == "00822456";
    assert Pow10(4) == 10000;
  }

  lemma Value1765760400822456()
    ensures DigitsValue("1765760400822456") == 1765760400822456
  {
    Value17657604();
    Value00822456();
    DigitsValueAppend("17657604", "00822456");
    assert "17657604" + "00822456" == "1765760400822456";
    assert Pow10(8) == 100000000;
  }

  lemma Value1765760400822456789()
    ensures DigitsValue("1765760400822456789") == 1765760400822456789
  {
    Value1765760400822456();
    DigitsValueAppend("78", "9");
    assert "78" + "9" == "789";
    DigitsValueAppend("1765760400822456", "789");
    assert "1765760400822456" + "789" == "1765760400822456789";
  }

  /** "1733900000": ten digits are seconds. */
  lemma EpochSeconds(s: string, host: Host)
    requires s == "1733900000"
    ensures ProcessQuery(s, host) == Resolved(1733900000.0, true, false)
  {
    Value1733900000();
    DigitQueryIsEpoch(s, host);
  }

  /** "1733900000000": thirteen digits are milliseconds, the same instant. */
  lemma EpochMilliseconds(s: string, host: Host)
    requires s == "1733900000000"
    ensures ProcessQuery(s, host) == Resolved(1733900000.0, true, false)
  {
    Value1733900000();
    assert "1733900000" + "000" == s;
    FinerResolutionSameInstant("1733900000");
    DigitQueryIsEpoch(s, host);
  }

  /** "1765760400822456": sixteen digits are microseconds. */
  lemma EpochMicroseconds(s: string, host: Host)
    requires s == "1765760400822456"
    ensures ProcessQuery(s, host) == Resolved(1765760400.822456, true, false)
  {
    Value1765760400822456();
    DigitQueryIsEpoch(s, host);
  }

  /** "1765760400822456789": nineteen digits are nanoseconds. */
  lemma EpochNanoseconds(s: string, host: Host)
    requires s == "1765760400822456789"
    ensures ProcessQuery(s, host) == Resolved(1765760400.822456789, true, false)
  {
    Value1765760400822456789();
    DigitQueryIsEpoch(s, host);
  }

  /** "1733900000 - 3 days": the epoch base minus three days. */
  lemma EpochMinusThreeDays(s: string, host: Host)
    requires s == "1733900000 - 3 days"
    ensures ProcessQuery(s, host) == Resolved(1733900000.0 - 259200.0, true, false)
  {
    EpochMinusLex(s);
    EpochMinusSplit(s);
    EpochDigitsBase(host);
    Final(s, host, -259200, "1733900000", 1733900000.0, true, false);
  }

  lemma EpochMinusRuns(s: string)
    requires s == "1733900000 - 3 days"
    ensures RunEnd(s, 12, IsSpace) == 13 && RunEnd(s, 13, IsDigit) == 14 && RunEnd(s, 14, IsSpace) == 15 && RunEnd(s, 15, IsWord) == 19
  {
    Runs(s, 11, 13, 14, 15, 19);
  }

  lemma EpochMinusChars(s: string)
    requires s == "1733900000 - 3 days"
    ensures |s| == 19 && s[11] == '-' && s[13..14] == "3" && s[15..19] == "days"
    ensures forall k :: 0 <= k < 11 ==> !IsSign(s[k])
  {
  }

  lemma EpochMinusTokens(s: string)
    requires s == "1733900000 - 3 days"
    ensures MatchAt(s, 11).Some? && FindAll(s, 0) == [Token('-', "3", "days")]
  {
    EpochMinusRuns(s);
    EpochMinusChars(s);
    TokenStep(s, 11, 13, 14, 15, 19, 19);
    FindAllSkipsSignFree(s, 0, 11);
  }

  lemma EpochMinusLex(s: string)
    requires s == "1733900000 - 3 days"
    ensures MatchAt(s, 11).Some? && Lex(s) == Delta(-259200)
  {
    EpochMinusTokens(s);
    EpochMinusSum();
  }

  lemma EpochMinusSum()
    ensures LexTokens([Token('-', "3", "days")]) == Delta(-259200)
  {
    LookupLowerCaseWord("days");
    AddFirst(Token('-', "3", "days"), Days, -259200);
  }

  /** The first operation is the whitespace after the digits. */
  lemma EpochMinusSplit(s: string)
    requires s == "1733900000 - 3 days"
    ensures SearchOperation(s, 0) == Some(10) && BaseText(s) == "1733900000"
  {
    EpochMinusTokens(s);
    EpochMinusNoOperation(s);
    FirstOperationIsSplit(s, 10);
    EpochMinusStrip(s);
  }

  lemma EpochMinusNoOperation(s: string)
    requires s == "1733900000 - 3 days"
    ensures IsSpace(s[10]) && forall k :: 0 <= k < 10 ==> !OperationAt(s, k)
  {
    NoOperationBefore(s, 10);
  }

  lemma EpochMinusStrip(s: string)
    requires s == "1733900000 - 3 days"
    ensures Strip(s[..10]) == "1733900000"
  {
    assert s[..10] == "1733900000";
    StripIsSlice(s[..10], 0, 10);
    assert s[..10][0..10] == "1733900000";
  }

  lemma EpochDigitsBase(host: Host)
    ensures ResolveBase("1733900000", host) == Resolved(1733900000.0, true, false)
  {
    Value1733900000();
  }

  // ---------------------------------------------------------------------
  // Calendar dates

  const DashedDay := DateTime(2025, 12, 1, 0, 0, 0, 0)

  /** What the host library does with "2025-12-01": the first three templates
      reject it, "%Y-%m-%d" reads midnight on 1 December 2025, and that local
      time converts to an instant. */
  predicate ReadsDashedDate(host: Host) {
    && host.strptime("2025-12-01", "%Y-%m-%d %H:%M:%S.%f").None?
    && host.strptime("2025-12-01", "%Y-%m-%d %H:%M:%S").None?
    && host.strptime("2025-12-01", "%Y-%m-%d %H:%M").None?
    && host.strptime("2025-12-01", "%Y-%m-%d") == Some(DashedDay)
    && host.localize(DashedDay).Converted?
  }

  lemma DashedDateBase(host: Host)
    requires ReadsDashedDate(host)
    ensures ResolveBase("2025-12-01", host) == Resolved(host.localize(DashedDay).epoch, false, false)
  {
    YearBearingTemplateWins(host.strptime, host.localize, "2025-12-01", host.currentYear, 3);
    assert !IsDigit("2025-12-01"[4]);
  }

  /** "2025-12-01": a date with dashes, read by its fourth template. */
  lemma DashedDate(s: string, host: Host)
    requires s == "2025-12-01" && ReadsDashedDate(host)
    ensures ProcessQuery(s, host) == Resolved(host.localize(DashedDay).epoch, false, false)
  {
    NoSpaceNoOperation(s);
    DashedDateBase(host);
  }

  /** "12/25": no template with a year matches, "%m/%d" does, and the date
      takes the current year, whichever it is. */
  lemma MonthDayTakesCurrentYear(s: string, host: Host)
    requires s == "12/25" && 1 <= host.currentYear <= 9999
    requires forall i :: 0 <= i < |FormatsWithYear| ==> host.strptime(s, FormatsWithYear[i]).None?
    requires host.strptime(s, "%m/%d") == Some(DateTime(1900, 12, 25, 0, 0, 0, 0))
    requires host.localize(DateTime(host.currentYear, 12, 25, 0, 0, 0, 0)).Converted?
    ensures ProcessQuery(s, host) ==
      Resolved(host.localize(DateTime(host.currentYear, 12, 25, 0, 0, 0, 0)).epoch, false, false)
  {
    NoSpaceNoOperation(s);
    var christmas := DateTime(host.currentYear, 12, 25, 0, 0, 0, 0);
    assert ReplaceYear(DateTime(1900, 12, 25, 0, 0, 0, 0), host.currentYear) == Some(christmas);
    assert Attempt(host.strptime, host.localize, s, host.currentYear, 10) == Found(christmas, host.localize(christmas).epoch);
    assert !IsDigit(s[2]);
  }

  /** "not-a-date": no template matches; its signs start no token, so the
      whole query is the base and the result is no result. */
  lemma NotADateIsUnresolved(s: string, host: Host)
    requires s == "not-a-date"
    requires forall f :: host.strptime(s, f).None?
    ensures ProcessQuery(s, host) == Unresolved
  {
    NoSpaceNoOperation(s);
    ParseCalendarFails(host.strptime, host.localize, s, host.currentYear);
    assert !IsDigit(s[0]);
  }

  // ---------------------------------------------------------------------
  // Calendar dates with offsets

  /** The characters of a query that starts with "2025-12-01 ". */
  lemma DashedChars(s: string)
    requires |s| > 11 && s[..11] == "2025-12-01 "
    ensures forall k :: 0 <= k < 4 ==> IsDigit(s[k])
    ensures s[4] == '-' && s[5] == '1' && s[6] == '2' && s[7] == '-' && s[8] == '0' && s[9] == '1' && s[10] == ' '
  {
    assert forall k :: 0 <= k < 11 ==> s[k] == s[..11][k];
  }

  /** The hyphens of "2025-12-01" followed by whitespace and a sign: each
      takes two digits, finds no word after them and backtracks, so the scan
      yields two tokens with digit units and resumes at the sign. */
  lemma DashedPrefixTokens(s: string)
    requires |s| > 11 && s[..11] == "2025-12-01 " && IsSign(s[11])
    ensures FindAll(s, 0) == [Token('-', "1", "2"), Token('-', "0", "1")] + FindAll(s, 11)
  {
    DashedChars(s);
    DashedTokensFrom4(s);
    DashedTokensFrom7(s);
    FindAllSkipsSignFree(s, 0, 4);
    TwoTokens(Token('-', "1", "2"), Token('-', "0", "1"), FindAll(s, 11), FindAll(s, 7), FindAll(s, 4));
  }

  lemma DashedRuns4(s: string)
    requires |s| > 7 && s[4] == '-' && s[5] == '1' && s[6] == '2' && s[7] == '-'
    ensures RunEnd(s, 5, IsSpace) == 5 && RunEnd(s, 5, IsDigit) == 7 && RunEnd(s, 7, IsSpace) == 7 && RunEnd(s, 7, IsWord) == 7
  {
    Runs(s, 4, 5, 7, 7, 7);
  }

  lemma DashedTokensFrom4(s: string)
    requires |s| > 7 && s[4] == '-' && s[5] == '1' && s[6] == '2' && s[7] == '-'
    ensures FindAll(s, 4) == [Token('-', "1", "2")] + FindAll(s, 7)
  {
    DashedRuns4(s);
    TokenStep(s, 4, 5, 7, 7, 7, 7);
    assert s[5..6] == "1" && s[6..7] == "2";
  }

  lemma DashedRuns7(s: string)
    requires |s| > 11 && s[7] == '-' && s[8] == '0' && s[9] == '1' && s[10] == ' ' && IsSign(s[11])
    ensures RunEnd(s, 8, IsSpace) == 8 && RunEnd(s, 8, IsDigit) == 10 && RunEnd(s, 10, IsSpace) == 11 && RunEnd(s, 11, IsWord) == 11
  {
    Runs(s, 7, 8, 10, 11, 11);
  }

  lemma DashedTokensFrom7(s: string)
    requires |s| > 11 && s[7] == '-' && s[8] == '0' && s[9] == '1' && s[10] == ' ' && IsSign(s[11])
    ensures FindAll(s, 7) == [Token('-', "0", "1")] + FindAll(s, 11)
  {
    DashedRuns7(s);
    TokenStep(s, 7, 8, 10, 11, 11, 11);
    assert s[8..9] == "0" && s[9..10] == "1";
  }

  lemma TwoTokens(a: Token, b: Token, rest: seq<Token>, from7: seq<Token>, from4: seq<Token>)
    requires from7 == [b] + rest && from4 == [a] + from7
    ensures from4 == [a, b] + rest
  {
  }

  lemma DashedNoOperation(s: string)
    requires |s| > 11 && s[..11] == "2025-12-01 "
    ensures forall k :: 0 <= k < 10 ==> !OperationAt(s, k)
    ensures IsSpace(s[10])
  {
    assert forall k :: 0 <= k < 11 ==> s[k] == "2025-12-01 "[k];
    NoOperationBefore(s, 10);
  }

  lemma DashedStrip(t: string)
    requires t == "2025-12-01 "[..10]
    ensures Strip(t) == "2025-12-01"
  {
    StripIsSlice(t, 0, 10);
    assert t[0..10] == "2025-12-01";
  }

  /** The two backtracked tokens of the date add nothing. */
  lemma DashedPrefixSum(rest: seq<Token>)
    requires AllWellFormed(rest)
    ensures AllWellFormed([Token('-', "1", "2"), Token('-', "0", "1")] + rest)
    ensures LexTokens([Token('-', "1", "2"), Token('-', "0", "1")] + rest) == LexTokens(rest)
  {
    var a, b := Token('-', "1", "2"), Token('-', "0", "1");
    DigitLedUnitIsUnknown("2");
    DigitLedUnitIsUnknown("1");
    UnknownUnitAddsNothing([a], b, rest);
    assert [a] + [b] + rest == [a, b] + rest;
    UnknownUnitAddsNothing([], a, rest);
    assert [] + [a] + rest == [a] + rest;
    assert [] + rest == rest;
  }

  lemma DashedLex(s: string, seconds: int)
    requires |s| > 11 && s[..11] == "2025-12-01 " && IsSign(s[11])
    requires LexTokens(FindAll(s, 11)) == Delta(seconds)
    ensures Lex(s) == Delta(seconds)
  {
    DashedPrefixTokens(s);
    DashedPrefixSum(FindAll(s, 11));
  }

  /** The base text of "2025-12-01 " followed by an operation. */
  lemma DashedStripPrefix(s: string)
    requires |s| > 11 && s[..11] == "2025-12-01 "
    ensures Strip(s[..10]) == "2025-12-01"
  {
    assert s[..10] == s[..11][..10];
    DashedStrip(s[..10]);
  }

  /** "2025-12-01 + 1 day": the next day. */
  lemma DateAddOneDay(s: string, host: Host)
    requires s == "2025-12-01 + 1 day" && ReadsDashedDate(host)
    ensures ProcessQuery(s, host) == Resolved(host.localize(DashedDay).epoch + 86400.0, false, false)
  {
    OneDayLex(s);
    OneDaySplit(s);
    DashedDateBase(host);
    Final(s, host, 86400, "2025-12-01", host.localize(DashedDay).epoch, false, false);
  }

  lemma OneDayPrefix(s: string)
    requires s == "2025-12-01 + 1 day"
    ensures |s| > 11 && s[..11] == "2025-12-01 "
  {
  }

  lemma OneDayLex(s: string)
    requires s == "2025-12-01 + 1 day"
    ensures Lex(s) == Delta(86400)
  {
    OneDayPrefix(s);
    OneDayTokens(s);
    OneDaySum();
    DashedLex(s, 86400);
  }

  lemma OneDaySplit(s: string)
    requires s == "2025-12-01 + 1 day"
    ensures SearchOperation(s, 0) == Some(10) && BaseText(s) == "2025-12-01"
  {
    OneDayPrefix(s);
    OneDayTokens(s);
    DashedNoOperation(s);
    FirstOperationIsSplit(s, 10);
    DashedStripPrefix(s);
  }

  lemma OneDayRuns(s: string)
    requires s == "2025-12-01 + 1 day"
    ensures RunEnd(s, 12, IsSpace) == 13 && RunEnd(s, 13, IsDigit) == 14 && RunEnd(s, 14, IsSpace) == 15 && RunEnd(s, 15, IsWord) == 18
  {
    Runs(s, 11, 13, 14, 15, 18);
  }

  lemma OneDayChars(s: string)
    requires s == "2025-12-01 + 1 day"
    ensures |s| == 18 && s[11] == '+' && s[13..14] == "1" && s[15..18] == "day"
  {
  }

  lemma OneDayTokens(s: string)
    requires s == "2025-12-01 + 1 day"
    ensures MatchAt(s, 11).Some? && FindAll(s, 11) == [Token('+', "1", "day")]
  {
    OneDayRuns(s);
    OneDayChars(s);
    TokenStep(s, 11, 13, 14, 15, 18, 18);
  }

  lemma OneDaySum()
    ensures LexTokens([Token('+', "1", "day")]) == Delta(86400)
  {
    LookupLowerCaseWord("day");
    AddFirst(Token('+', "1", "day"), Days, 86400);
  }

  /** "2025-12-01 - 2 weeks": fourteen days earlier. */
  lemma DateMinusTwoWeeks(s: string, host: Host)
    requires s == "2025-12-01 - 2 weeks" && ReadsDashedDate(host)
    ensures ProcessQuery(s, host) == Resolved(host.localize(DashedDay).epoch - 1209600.0, false, false)
  {
    TwoWeeksLex(s);
    TwoWeeksSplit(s);
    DashedDateBase(host);
    Final(s, host, -1209600, "2025-12-01", host.localize(DashedDay).epoch, false, false);
  }

  lemma TwoWeeksPrefix(s: string)
    requires s == "2025-12-01 - 2 weeks"
    ensures |s| > 11 && s[..11] == "2025-12-01 "
  {
  }

  lemma TwoWeeksLex(s: string)
    requires s == "2025-12-01 - 2 weeks"
    ensures Lex(s) == Delta(-1209600)
  {
    TwoWeeksPrefix(s);
    TwoWeeksTokens(s);
    TwoWeeksSum();
    DashedLex(s, -1209600);
  }

  lemma TwoWeeksSplit(s: string)
    requires s == "2025-12-01 - 2 weeks"
    ensures SearchOperation(s, 0) == Some(10) && BaseText(s) == "2025-12-01"
  {
    TwoWeeksPrefix(s);
    TwoWeeksTokens(s);
    DashedNoOperation(s);
    FirstOperationIsSplit(s, 10);
    DashedStripPrefix(s);
  }

  lemma TwoWeeksRuns(s: string)
    requires s == "2025-12-01 - 2 weeks"
    ensures RunEnd(s, 12, IsSpace) == 13 && RunEnd(s, 13, IsDigit) == 14 && RunEnd(s, 14, IsSpace) == 15 && RunEnd(s, 15, IsWord) == 20
  {
    Runs(s, 11, 13, 14, 15, 20);
  }

  lemma TwoWeeksChars(s: string)
    requires s == "2025-12-01 - 2 weeks"
    ensures |s| == 20 && s[11] == '-' && s[13..14] == "2" && s[15..20] == "weeks"
  {
  }

  lemma TwoWeeksTokens(s: string)
    requires s == "2025-12-01 - 2 weeks"
    ensures MatchAt(s, 11).Some? && FindAll(s, 11) == [Token('-', "2", "weeks")]
  {
    TwoWeeksRuns(s);
    TwoWeeksChars(s);
    TokenStep(s, 11, 13, 14, 15, 20, 20);
  }

  lemma TwoWeeksSum()
    ensures LexTokens([Token('-', "2", "weeks")]) == Delta(-1209600)
  {
    LookupLowerCaseWord("weeks");
    AddFirst(Token('-', "2", "weeks"), Weeks, -1209600);
  }

  /** "2025-12-01 -1d +4d - 1y + 20w": the four operations add up to 222 days
      back (a year is 365 days). */
  lemma DateWithSeveralOperations(s: string, host: Host)
    requires s == "2025-12-01 -1d +4d - 1y + 20w" && ReadsDashedDate(host)
    ensures ProcessQuery(s, host) == Resolved(host.localize(DashedDay).epoch - (222 * 86400) as real, false, false)
  {
    SeveralLex(s);
    SeveralSplit(s);
    DashedDateBase(host);
    Final(s, host, -222 * 86400, "2025-12-01", host.localize(DashedDay).epoch, false, false);
  }

  lemma SeveralPrefix(s: string)
    requires s == "2025-12-01 -1d +4d - 1y + 20w"
    ensures |s| > 11 && s[..11] == "2025-12-01 "
  {
  }

  lemma SeveralLex(s: string)
    requires s == "2025-12-01 -1d +4d - 1y + 20w"
    ensures Lex(s) == Delta(-222 * 86400)
  {
    SeveralPrefix(s);
    SeveralTokens(s);
    SeveralSum();
    DashedLex(s, -222 * 86400);
  }

  lemma SeveralSplit(s: string)
    requires s == "2025-12-01 -1d +4d - 1y + 20w"
    ensures SearchOperation(s, 0) == Some(10) && BaseText(s) == "2025-12-01"
  {
    SeveralPrefix(s);
    SeveralToken11(s);
    DashedNoOperation(s);
    FirstOperationIsSplit(s, 10);
    DashedStripPrefix(s);
  }

  lemma SeveralRuns11(s: string)
    requires s == "2025-12-01 -1d +4d - 1y + 20w"
    ensures RunEnd(s, 12, IsSpace) == 12 && RunEnd(s, 12, IsDigit) == 13 && RunEnd(s, 13, IsSpace) == 13 && RunEnd(s, 13, IsWord) == 14
  {
    Runs(s, 11, 12, 13, 13, 14);
  }

  lemma SeveralChars11(s: string)
    requires s == "2025-12-01 -1d +4d - 1y + 20w"
    ensures s[11] == '-' && s[12..13] == "1" && s[13..14] == "d" && !IsSign(s[14])
  {
  }

  lemma SeveralToken11(s: string)
    requires s == "2025-12-01 -1d +4d - 1y + 20w"
    ensures MatchAt(s, 11).Some? && FindAll(s, 11) == [Token('-', "1", "d")] + FindAll(s, 15)
  {
    SeveralRuns11(s);
    SeveralChars11(s);
    TokenStep(s, 11, 12, 13, 13, 14, 15);
  }

  lemma SeveralRuns15(s: string)
    requires s == "2025-12-01 -1d +4d - 1y + 20w"
    ensures RunEnd(s, 16, IsSpace) == 16 && RunEnd(s, 16, IsDigit) == 17 && RunEnd(s, 17, IsSpace) == 17 && RunEnd(s, 17, IsWord) == 18
  {
    Runs(s, 15, 16, 17, 17, 18);
  }

  lemma SeveralChars15(s: string)
    requires s == "2025-12-01 -1d +4d - 1y + 20w"
    ensures s[15] == '+' && s[16..17] == "4" && s[17..18] == "d" && !IsSign(s[18])
  {
  }

  lemma SeveralToken15(s: string)
    requires s == "2025-12-01 -1d +4d - 1y + 20w"
    ensures FindAll(s, 15) == [Token('+', "4", "d")] + FindAll(s, 19)
  {
    SeveralRuns15(s);
    SeveralChars15(s);
    TokenStep(s, 15, 16, 17, 17, 18, 19);
  }

  lemma SeveralRuns19(s: string)
    requires s == "2025-12-01 -1d +4d - 1y + 20w"
    ensures RunEnd(s, 20, IsSpace) == 21 && RunEnd(s, 21, IsDigit) == 22 && RunEnd(s, 22, IsSpace) == 22 && RunEnd(s, 22, IsWord) == 23
  {
    Runs(s, 19, 21, 22, 22, 23);
  }

  lemma SeveralChars19(s: string)
    requires s == "2025-12-01 -1d +4d - 1y + 20w"
    ensures s[19] == '-' && s[21..22] == "1" && s[22..23] == "y" && !IsSign(s[23])
  {
  }

  lemma SeveralToken19(s: string)
    requires s == "2025-12-01 -1d +4d - 1y + 20w"
    ensures FindAll(s, 19) == [Token('-', "1", "y")] + FindAll(s, 24)
  {
    SeveralRuns19(s);
    SeveralChars19(s);
    TokenStep(s, 19, 21, 22, 22, 23, 24);
  }

  lemma SeveralRuns24(s: string)
    requires s == "2025-12-01 -1d +4d - 1y + 20w"
    ensures RunEnd(s, 25, IsSpace) == 26 && RunEnd(s, 26, IsDigit) == 28 && RunEnd(s, 28, IsSpace) == 28 && RunEnd(s, 28, IsWord) == 29
  {
    Runs(s, 24, 26, 28, 28, 29);
  }

  lemma SeveralChars24(s: string)
    requires s == "2025-12-01 -1d +4d - 1y + 20w"
    ensures |s| == 29 && s[24] == '+' && s[26..28] == "20" && s[28..29] == "w"
  {
  }

  lemma SeveralToken24(s: string)
    requires s == "2025-12-01 -1d +4d - 1y + 20w"
    ensures FindAll(s, 24) == [Token('+', "20", "w")]
  {
    SeveralRuns24(s);
    SeveralChars24(s);
    TokenStep(s, 24, 26, 28, 28, 29, 29);
  }

  lemma SeveralTokens(s: string)
    requires s == "2025-12-01 -1d +4d - 1y + 20w"
    ensures MatchAt(s, 11).Some?
    ensures FindAll(s, 11) == [Token('-', "1", "d"), Token('+', "4", "d"), Token('-', "1", "y"), Token('+', "20", "w")]
  {
    SeveralToken11(s);
    SeveralTokensFrom15(s);
    ConsToken(Token('-', "1", "d"), [Token('+', "4", "d"), Token('-', "1", "y"), Token('+', "20", "w")], FindAll(s, 11));
  }

  lemma ConsToken(t: Token, tail: seq<Token>, whole: seq<Token>)
    requires |tail| == 3 && whole == [t] + tail
    ensures whole == [t, tail[0], tail[1], tail[2]]
  {
  }

  lemma SeveralTokensFrom15(s: string)
    requires s == "2025-12-01 -1d +4d - 1y + 20w"
    ensures FindAll(s, 15) == [Token('+', "4", "d"), Token('-', "1", "y"), Token('+', "20", "w")]
  {
    SeveralToken15(s);
    SeveralTokensFrom19(s);
  }

  lemma SeveralTokensFrom19(s: string)
    requires s == "2025-12-01 -1d +4d - 1y + 20w"
    ensures FindAll(s, 19) == [Token('-', "1", "y"), Token('+', "20", "w")]
  {
    SeveralToken19(s);
    SeveralToken24(s);
  }

  lemma SeveralSum()
    ensures LexTokens([Token('-', "1", "d"), Token('+', "4", "d"), Token('-', "1", "y"), Token('+', "20", "w")]) == Delta(-222 * 86400)
  {
    SeveralSum3();
    LookupLowerCaseWord("w");
    Value20();
    AddFourth(Token('-', "1", "d"), Token('+', "4", "d"), Token('-', "1", "y"), Token('+', "20", "w"), -362 * 86400, Weeks, 140 * 86400);
  }

  lemma SeveralSum3()
    ensures LexTokens([Token('-', "1", "d"), Token('+', "4", "d"), Token('-', "1", "y")]) == Delta(-362 * 86400)
  {
    SeveralSum2();
    LookupLowerCaseWord("y");
    AddThird(Token('-', "1", "d"), Token('+', "4", "d"), Token('-', "1", "y"), 3 * 86400, Years, -365 * 86400);
  }

  lemma SeveralSum2()
    ensures LexTokens([Token('-', "1", "d"), Token('+', "4", "d")]) == Delta(3 * 86400)
  {
    FirstDayBack();
    LookupLowerCaseWord("d");
    AddSecond(Token('-', "1", "d"), Token('+', "4", "d"), -86400, Days, 4 * 86400);
  }

  // ---------------------------------------------------------------------
  // A date with slashes

  const SlashedText := "2025/12/01"

  /** What the host library does with "2025/12/01": the seven templates
      before "%Y/%m/%d" fail on it, that one reads 1 December 2025, and that
      local time converts to an instant. */
  predicate ReadsSlashedDate(host: Host) {
    && (forall i :: 0 <= i < 7 ==> host.strptime(SlashedText, FormatsWithYear[i]).None?)
    && host.strptime(SlashedText, "%Y/%m/%d") == Some(DashedDay)
    && host.localize(DashedDay).Converted?
  }

  /** "2025/12/01": the same day, read by the eighth template. */
  lemma SlashedDate(s: string, host: Host)
    requires s == SlashedText && ReadsSlashedDate(host)
    ensures ProcessQuery(s, host) == Resolved(host.localize(DashedDay).epoch, false, false)
  {
    NoSpaceNoOperation(s);
    SlashedDateBase(host);
  }

  lemma SlashedDateBase(host: Host)
    requires ReadsSlashedDate(host)
    ensures ResolveBase(SlashedText, host) == Resolved(host.localize(DashedDay).epoch, false, false)
  {
    YearBearingTemplateWins(host.strptime, host.localize, SlashedText, host.currentYear, 7);
    assert !IsDigit(SlashedText[4]);
  }
}
