/** The offset lexer `parse_time_operations`: every match of the regular
    expression `([+\-])\s*(\d+)\s*(\w+)` in the query contributes a signed
    amount of a unit from a synonym table, and the contributions are summed
    into a `timedelta`, counted here in whole seconds.
 */
module OffsetLexer {
  import opened Wrappers
  import opened Text

  datatype Unit = Seconds | Minutes | Hours | Days | Weeks | Months | Years

  /** The synonym table, with its keys exactly as the source writes them. */
  const UnitTable: map<string, Unit> := map[
    "s" := Seconds, "sec" := Seconds, "second" := Seconds, "seconds" := Seconds,
    "m" := Minutes, "min" := Minutes, "minute" := Minutes, "minutes" := Minutes,
    "h" := Hours, "hour" := Hours, "hours" := Hours,
    "d" := Days, "day" := Days, "days" := Days,
    "w" := Weeks, "week" := Weeks, "weeks" := Weeks,
    "M" := Months, "month" := Months, "months" := Months,
    "y" := Years, "year" := Years, "years" := Years
  ]

  /** Seconds per unit; a month is 30 days and a year 365 days. */
  function UnitSeconds(u: Unit): nat {
    match u
    case Seconds => 1
    case Minutes => 60
    case Hours => 3600
    case Days => 86400
    case Weeks => 7 * 86400
    case Months => 30 * 86400
    case Years => 365 * 86400
  }

  /** The unit a unit word names: the word is lower-cased, then looked up. */
  function LookupUnit(word: string): Option<Unit> {
    var key := Lower(word);
    if key in UnitTable then Some(UnitTable[key]) else None
  }

  // ---------------------------------------------------------------------
  // One regular-expression match

  /** The positions of one match of `([+\-])\s*(\d+)\s*(\w+)`: the sign is at
      `start`, group 2 is `s[digitsStart..digitsEnd]` and group 3 is
      `s[unitStart..end]`. */
  datatype Match = Match(start: nat, digitsStart: nat, digitsEnd: nat, unitStart: nat, end: nat)

  /** `s[p..e]` is a sign, whitespace up to `a`, digits up to `b`, whitespace
      up to `c` and word characters up to `e`: one way the pattern can match at
      `p`. */
  ghost predicate Decomposes(s: string, p: nat, a: nat, b: nat, c: nat, e: nat) {
    && p < |s| && IsSign(s[p])
    && p + 1 <= a < b <= c < e <= |s|
    && (forall k :: p + 1 <= k < a ==> IsSpace(s[k]))
    && (forall k :: a <= k < b ==> IsDigit(s[k]))
    && (forall k :: b <= k < c ==> IsSpace(s[k]))
    && (forall k :: c <= k < e ==> IsWord(s[k]))
  }

  ghost predicate IsMatch(s: string, m: Match) {
    Decomposes(s, m.start, m.digitsStart, m.digitsEnd, m.unitStart, m.end)
  }

  /** The way of matching `(a, b, c, e)` comes no earlier than `m` in the order
      a backtracking matcher tries greedy quantifiers: the end of each
      quantifier, first to last, from longest to shortest. */
  predicate TriedNoEarlier(a: nat, b: nat, c: nat, e: nat, m: Match) {
    || a < m.digitsStart
    || (a == m.digitsStart && b < m.digitsEnd)
    || (a == m.digitsStart && b == m.digitsEnd && c < m.unitStart)
    || (a == m.digitsStart && b == m.digitsEnd && c == m.unitStart && e <= m.end)
  }

  /** The match the pattern makes at position `p`, if any: the maximal digit
      run and, after optional whitespace, the maximal word run; when no word
      character follows, the matcher backtracks and gives the last digit to the
      unit group. */
  function MatchAt(s: string, p: nat): (r: Option<Match>)
    ensures r.Some? ==> r.value.start == p && IsMatch(s, r.value)
  {
    if p >= |s| || !IsSign(s[p]) then None
    else
      var a := RunEnd(s, p + 1, IsSpace);
      var b := RunEnd(s, a, IsDigit);
      if b == a then None
      else
        var c := RunEnd(s, b, IsSpace);
        var e := RunEnd(s, c, IsWord);
        if c < e then Some(Match(p, a, b, c, e))
        else if b - a >= 2 then Some(Match(p, a, b - 1, b - 1, b))
        else None
  }

  /** `MatchAt` is the regular expression's match: there is one exactly when
      the pattern can match at `p`, and it is the way of matching that Python's
      backtracking matcher tries first. */
  lemma MatchAtIsFirstMatch(s: string, p: nat)
    ensures MatchAt(s, p).None? <==> forall a, b, c, e :: !Decomposes(s, p, a, b, c, e)
    ensures MatchAt(s, p).Some? ==>
      forall a, b, c, e :: Decomposes(s, p, a, b, c, e) ==> TriedNoEarlier(a, b, c, e, MatchAt(s, p).value)
  {
    if p < |s| && IsSign(s[p]) {
      var A := RunEnd(s, p + 1, IsSpace);
      var B := RunEnd(s, A, IsDigit);
      var C := RunEnd(s, B, IsSpace);
      var E := RunEnd(s, C, IsWord);
      forall a: nat, b: nat, c: nat, e: nat | Decomposes(s, p, a, b, c, e)
        ensures MatchAt(s, p).Some? && TriedNoEarlier(a, b, c, e, MatchAt(s, p).value)
      {
        assert IsDigit(s[a]);
        RunEndIsMaximal(s, p + 1, IsSpace, a);
        assert a == A;
        RunEndIsMaximal(s, A, IsDigit, b);
        assert IsWord(s[c]);
        if b == B {
          RunEndIsMaximal(s, B, IsSpace, c);
          assert c == C;
          RunEndIsMaximal(s, C, IsWord, e);
          assert C < E;
        } else {
          assert IsDigit(s[b]);
          assert c == b;
          if C == E {
            assert B < |s| ==> !IsWord(s[B]);
          }
        }
      }
    }
  }

  // ---------------------------------------------------------------------
  // All matches

  /** The groups of one match, as `re.findall` returns them. */
  datatype Token = Token(sign: char, value: string, unit: string)

  predicate WellFormed(t: Token) {
    IsSign(t.sign) && IsDigitString(t.value)
  }

  predicate AllWellFormed(ts: seq<Token>) {
    forall k :: 0 <= k < |ts| ==> WellFormed(ts[k])
  }

  function TokenOf(s: string, m: Match): (t: Token)
    requires IsMatch(s, m)
    ensures WellFormed(t)
  {
    Token(s[m.start], s[m.digitsStart..m.digitsEnd], s[m.unitStart..m.end])
  }

  /** `re.findall` from position `i`: after a match the scan resumes at its
      end, otherwise at the next position. */
  function FindAll(s: string, i: nat): (ts: seq<Token>)
    ensures AllWellFormed(ts)
    decreases |s| - i
  {
    if i >= |s| then []
    else
      match MatchAt(s, i)
      case Some(m) => [TokenOf(s, m)] + FindAll(s, m.end)
      case None => FindAll(s, i + 1)
  }

  // ---------------------------------------------------------------------
  // What the tokens add up to

  /** The signed magnitude: `+` adds, `-` subtracts. */
  function Amount(t: Token): int
    requires WellFormed(t)
  {
    if t.sign == '+' then DigitsValue(t.value) as int else -(DigitsValue(t.value) as int)
  }

  /** What one token adds, in seconds: nothing when its unit is not in the table. */
  function TokenSeconds(t: Token): int
    requires WellFormed(t)
  {
    match LookupUnit(t.unit)
    case None => 0
    case Some(u) => Amount(t) * UnitSeconds(u)
  }

  function SumSeconds(ts: seq<Token>): int
    requires AllWellFormed(ts)
  {
    if ts == [] then 0 else TokenSeconds(ts[0]) + SumSeconds(ts[1..])
  }

  /** What the pattern's match at `p` adds; nothing when it does not match there. */
  function SecondsAt(s: string, p: nat): int {
    match MatchAt(s, p)
    case None => 0
    case Some(m) => TokenSeconds(TokenOf(s, m))
  }

  /** The reference total: every position of the query, from `i` on, tried as
      an independent match attempt. */
  function OffsetSumFrom(s: string, i: nat): int
    decreases |s| - i
  {
    if i >= |s| then 0 else SecondsAt(s, i) + OffsetSumFrom(s, i + 1)
  }

  function OffsetSum(s: string): int {
    OffsetSumFrom(s, 0)
  }

  // ---------------------------------------------------------------------
  // The timedelta accumulation

  /** `timedelta` keeps at most 999999999 days either way. */
  const MaxTimedeltaDays := 999999999

  /** A whole number of seconds a `timedelta` can hold: its day part, the
      floor of seconds / 86400, is within range. */
  predicate FitsTimedelta(seconds: int) {
    -MaxTimedeltaDays <= seconds / 86400 <= MaxTimedeltaDays
  }

  /** The lexer's outcome: a duration in seconds, or the `OverflowError` that
      `timedelta` raises when a piece or a running total is out of range. */
  datatype Lexed = Delta(seconds: int) | Overflow

  /** The source's loop over the matches, in order, as a left fold. */
  function LexTokens(ts: seq<Token>): Lexed
    requires AllWellFormed(ts)
    decreases |ts|
  {
    if ts == [] then Delta(0)
    else
      var t := ts[|ts| - 1];
      match LexTokens(ts[..|ts| - 1])
      case Overflow => Overflow
      case Delta(total) =>
        if LookupUnit(t.unit).None? then Delta(total)
        else
          var piece := TokenSeconds(t);
          if !FitsTimedelta(piece) || !FitsTimedelta(total + piece) then Overflow
          else Delta(total + piece)
  }

  /** The lexer applied to a whole query. */
  function Lex(query: string): Lexed {
    LexTokens(FindAll(query, 0))
  }

  /** Token `i` raises: its unit is known, and its piece or the running total
      after it does not fit a `timedelta`. */
  predicate OverflowsAt(ts: seq<Token>, i: nat)
    requires AllWellFormed(ts)
  {
    && i < |ts|
    && LookupUnit(ts[i].unit).Some?
    && (!FitsTimedelta(TokenSeconds(ts[i])) || !FitsTimedelta(SumSeconds(ts[..i]) + TokenSeconds(ts[i])))
  }

  /** The loop on the tokens `ts`, step by step as the source runs it. */
  method LexLoop(ts: seq<Token>) returns (delta: Lexed)
    requires AllWellFormed(ts)
    ensures delta == LexTokens(ts)
  {
    var total := 0;
    for i := 0 to |ts|
      invariant LexTokens(ts[..i]) == Delta(total)
    {
      LexTokensStep(ts, i, total);
      var t := ts[i];
      var unit := LookupUnit(t.unit);
      if unit.None? {
        continue;
      }
      var amount := Amount(t);
      var piece := UnitPiece(amount, unit.value);
      if !FitsTimedelta(piece) || !FitsTimedelta(total + piece) {
        OverflowIsFinal(ts, i + 1);
        return Overflow;
      }
      total := total + piece;
    }
    assert ts[..|ts|] == ts;
    return Delta(total);
  }

  /** The source's chain of `timedelta` constructors, one per unit: months and
      years go in as 30 and 365 days. */
  method UnitPiece(amount: int, unit: Unit) returns (piece: int)
    ensures piece == amount * UnitSeconds(unit)
  {
    match unit {
      case Seconds => piece := amount;
      case Minutes => piece := amount * 60;
      case Hours => piece := amount * 3600;
      case Days => piece := amount * 86400;
      case Weeks => piece := amount * 7 * 86400;
      case Months => piece := amount * 30 * 86400;
      case Years => piece := amount * 365 * 86400;
    }
  }

  /** One more token: skipped when its unit is unknown, otherwise added
      unless the piece or the new total does not fit. */
  lemma LexTokensStep(ts: seq<Token>, i: nat, total: int)
    requires AllWellFormed(ts) && i < |ts| && LexTokens(ts[..i]) == Delta(total)
    ensures LookupUnit(ts[i].unit).None? ==> LexTokens(ts[..i + 1]) == Delta(total)
    ensures LookupUnit(ts[i].unit).Some? ==>
      var piece := TokenSeconds(ts[i]);
      LexTokens(ts[..i + 1]) == if !FitsTimedelta(piece) || !FitsTimedelta(total + piece) then Overflow else Delta(total + piece)
  {
    assert ts[..i + 1][..i] == ts[..i];
  }

  /** `parse_time_operations`: the matches of the whole query, accumulated. */
  method ParseTimeOperations(query: string) returns (delta: Lexed)
    ensures delta == Lex(query)
    ensures delta.Delta? ==> delta.seconds == OffsetSum(query)
  {
    var matches := FindAll(query, 0);
    delta := LexLoop(matches);
    LexMeaning(query);
  }

  // ---------------------------------------------------------------------
  // Properties

  /** Once a prefix of the tokens raises, the whole loop raises. */
  lemma {:induction false} OverflowIsFinal(ts: seq<Token>, n: nat)
    requires AllWellFormed(ts) && n <= |ts|
    requires LexTokens(ts[..n]) == Overflow
    ensures LexTokens(ts) == Overflow
    decreases |ts| - n
  {
    if n < |ts| {
      assert ts[..n + 1][..n] == ts[..n];
      OverflowIsFinal(ts, n + 1);
    } else {
      assert ts[..n] == ts;
    }
  }

  lemma {:induction false} SumSecondsAppend(a: seq<Token>, b: seq<Token>)
    requires AllWellFormed(a) && AllWellFormed(b)
    ensures AllWellFormed(a + b) && SumSeconds(a + b) == SumSeconds(a) + SumSeconds(b)
  {
    if a != [] {
      assert (a + b)[1..] == a[1..] + b;
      SumSecondsAppend(a[1..], b);
    } else {
      assert a + b == b;
    }
  }

  /** The loop raises exactly when some token raises; otherwise it yields the
      plain sum of the tokens' contributions. */
  lemma LexTokensMeaning(ts: seq<Token>)
    requires AllWellFormed(ts)
    ensures LexTokens(ts) ==
      if exists i :: 0 <= i < |ts| && OverflowsAt(ts, i) then Overflow else Delta(SumSeconds(ts))
  {
    LexPrefixMeaning(ts, |ts|);
    RaisesBeforeMeaning(ts, |ts|);
    assert ts[..|ts|] == ts;
  }

  /** Some token before `n` raises. */
  predicate RaisesBefore(ts: seq<Token>, n: nat)
    requires AllWellFormed(ts) && n <= |ts|
  {
    n > 0 && (RaisesBefore(ts, n - 1) || OverflowsAt(ts, n - 1))
  }

  lemma {:induction false} RaisesBeforeMeaning(ts: seq<Token>, n: nat)
    requires AllWellFormed(ts) && n <= |ts|
    ensures RaisesBefore(ts, n) <==> exists i :: 0 <= i < n && OverflowsAt(ts, i)
  {
    if n > 0 {
      RaisesBeforeMeaning(ts, n - 1);
      if OverflowsAt(ts, n - 1) {
        assert 0 <= n - 1 < n && OverflowsAt(ts, n - 1);
      }
    }
  }

  /** The same for the first `n` tokens, however many tokens follow them:
      whether token `i` raises depends only on the tokens up to `i`. */
  lemma {:induction false} LexPrefixMeaning(ts: seq<Token>, n: nat)
    requires AllWellFormed(ts) && n <= |ts|
    ensures LexTokens(ts[..n]) == if RaisesBefore(ts, n) then Overflow else Delta(SumSeconds(ts[..n]))
    decreases n
  {
    if n > 0 {
      var m := n - 1;
      LexPrefixMeaning(ts, m);
      assert ts[..n][..m] == ts[..m];
      if !RaisesBefore(ts, m) {
        LexTokensStep(ts, m, SumSeconds(ts[..m]));
        SumSecondsPrefixStep(ts, m);
      }
    }
  }

  /** The sum of the first `m + 1` tokens adds token `m` to that of the first `m`. */
  lemma SumSecondsPrefixStep(ts: seq<Token>, m: nat)
    requires AllWellFormed(ts) && m < |ts|
    ensures SumSeconds(ts[..m + 1]) == SumSeconds(ts[..m]) + TokenSeconds(ts[m])
  {
    SumSecondsSnoc(ts[..m + 1]);
    assert ts[..m + 1][..m] == ts[..m];
  }

  lemma {:induction false} SumSecondsSnoc(ts: seq<Token>)
    requires AllWellFormed(ts) && ts != []
    ensures SumSeconds(ts) == SumSeconds(ts[..|ts| - 1]) + TokenSeconds(ts[|ts| - 1])
    decreases |ts|
  {
    if |ts| > 1 {
      var n := |ts| - 1;
      SumSecondsSnoc(ts[1..]);
      assert ts[1..][..n - 1] == ts[..n][1..];
    }
  }

  /** Positions before `j` that hold no sign add nothing. */
  lemma {:induction false} NoSignAddsNothing(s: string, i: nat, j: nat)
    requires i <= j <= |s|
    requires forall k :: i <= k < j ==> !IsSign(s[k])
    ensures OffsetSumFrom(s, i) == OffsetSumFrom(s, j)
    decreases j - i
  {
    if i < j {
      NoSignAddsNothing(s, i + 1, j);
    }
  }

  /** `re.findall` finds every contributing token: the sum over its matches is
      the sum over every position tried independently, because no match holds
      a second sign. */
  lemma {:induction false} FindAllCoversEverySign(s: string, i: nat)
    ensures SumSeconds(FindAll(s, i)) == OffsetSumFrom(s, i)
    decreases |s| - i
  {
    if i < |s| {
      var r := MatchAt(s, i);
      if r.None? {
        FindAllCoversEverySign(s, i + 1);
      } else {
        FindAllCoversEverySign(s, r.value.end);
        FindAllCoversMatch(s, i, r.value);
      }
    }
  }

  /** One match of the scan: if the sum from its end on is the reference
      total, so is the sum from its start, since the skipped positions hold
      no sign. */
  lemma FindAllCoversMatch(s: string, i: nat, m: Match)
    requires i < |s| && MatchAt(s, i) == Some(m)
    requires SumSeconds(FindAll(s, m.end)) == OffsetSumFrom(s, m.end)
    ensures SumSeconds(FindAll(s, i)) == OffsetSumFrom(s, i)
  {
    assert m.start == i && i < m.end <= |s|;
    MatchHoldsOneSign(s, m);
    NoSignAddsNothing(s, i + 1, m.end);
    FindAllStepSum(s, i, m);
    assert OffsetSumFrom(s, i) == SecondsAt(s, i) + OffsetSumFrom(s, i + 1);
  }

  /** A match's token comes first, and the scan resumes at its end. */
  lemma FindAllStepSum(s: string, i: nat, m: Match)
    requires i < |s| && MatchAt(s, i) == Some(m)
    ensures i < m.end
    ensures FindAll(s, i) == [TokenOf(s, m)] + FindAll(s, m.end)
    ensures SumSeconds(FindAll(s, i)) == SecondsAt(s, i) + SumSeconds(FindAll(s, m.end))
  {
    var t, rest := TokenOf(s, m), FindAll(s, m.end);
    assert ([t] + rest)[1..] == rest;
  }

  /** A match holds no sign after its first character: its other characters
      are whitespace, digits or word characters. */
  lemma MatchHoldsOneSign(s: string, m: Match)
    requires IsMatch(s, m)
    ensures forall k :: m.start < k < m.end ==> !IsSign(s[k])
  {
    forall k | m.start < k < m.end ensures !IsSign(s[k]) {
      if k < m.digitsStart {
        assert IsSpace(s[k]);
      } else if k < m.digitsEnd {
        assert IsDigit(s[k]);
      } else if k < m.unitStart {
        assert IsSpace(s[k]);
      } else {
        assert IsWord(s[k]);
      }
    }
  }

  /** The lexer on a query: `OverflowError` when some token overflows,
      otherwise the sum of what every sign position contributes. */
  lemma LexMeaning(query: string)
    ensures var ts := FindAll(query, 0);
      Lex(query) == if exists i :: 0 <= i < |ts| && OverflowsAt(ts, i) then Overflow else Delta(OffsetSum(query))
  {
    LexTokensMeaning(FindAll(query, 0));
    FindAllCoversEverySign(query, 0);
  }

  /** A query with no sign in it yields a zero duration. */
  lemma NoSignNoDelta(query: string)
    requires forall k :: 0 <= k < |query| ==> !IsSign(query[k])
    ensures Lex(query) == Delta(0)
  {
    NoSignAddsNothing(query, 0, |query|);
    LexMeaning(query);
    assert FindAll(query, 0) == [] by {
      FindAllSkipsSignFree(query, 0, |query|);
    }
  }

  /** The scan passes over positions that hold no sign. */
  lemma {:induction false} FindAllSkipsSignFree(s: string, i: nat, j: nat)
    requires i <= j <= |s|
    requires forall k :: i <= k < j ==> !IsSign(s[k])
    ensures FindAll(s, i) == FindAll(s, j)
    decreases j - i
  {
    if i < j {
      FindAllSkipsSignFree(s, i, j - 1);
      assert MatchAt(s, j - 1) == None;
    }
  }

  /** The total does not depend on the order of the tokens. */
  lemma {:induction false} SumSecondsPermutation(a: seq<Token>, b: seq<Token>)
    requires AllWellFormed(a) && AllWellFormed(b)
    requires multiset(a) == multiset(b)
    ensures SumSeconds(a) == SumSeconds(b)
    decreases |a|
  {
    if a != [] {
      var j := MatchFirst(a, b);
      SumSecondsWithout(b, j);
      SumSecondsPermutation(a[1..], b[..j] + b[j + 1..]);
    } else {
      assert |b| == |multiset(b)| == 0;
    }
  }

  /** The loop's result does not depend on the order of the tokens when
      neither order raises. Whether it raises can depend on the order: a
      running total may leave the range on the way and come back. */
  lemma LexTokensPermutation(a: seq<Token>, b: seq<Token>)
    requires AllWellFormed(a) && AllWellFormed(b)
    requires multiset(a) == multiset(b)
    requires LexTokens(a).Delta? && LexTokens(b).Delta?
    ensures LexTokens(a) == LexTokens(b)
  {
    LexTokensMeaning(a);
    LexTokensMeaning(b);
    SumSecondsPermutation(a, b);
  }

  /** Where the first element of `a` sits in its permutation `b`. */
  lemma {:induction false} MatchFirst(a: seq<Token>, b: seq<Token>) returns (j: nat)
    requires a != [] && multiset(a) == multiset(b)
    ensures j < |b| && b[j] == a[0]
    ensures multiset(a[1..]) == multiset(b[..j] + b[j + 1..])
  {
    var x := a[0];
    assert x in multiset(a);
    assert x in b;
    j :| 0 <= j < |b| && b[j] == x;
    assert a == [x] + a[1..];
    assert b == b[..j] + [x] + b[j + 1..];
    assert multiset(a[1..]) == multiset(a) - multiset{x};
  }

  lemma {:induction false} SumSecondsCons(x: Token, post: seq<Token>)
    requires WellFormed(x) && AllWellFormed(post)
    ensures AllWellFormed([x] + post) && SumSeconds([x] + post) == TokenSeconds(x) + SumSeconds(post)
  {
    assert ([x] + post)[1..] == post;
  }

  lemma {:induction false} SumSecondsWithout(s: seq<Token>, j: nat)
    requires AllWellFormed(s) && j < |s|
    ensures AllWellFormed(s[..j] + s[j + 1..])
    ensures SumSeconds(s) == TokenSeconds(s[j]) + SumSeconds(s[..j] + s[j + 1..])
  {
    var pre, post := s[..j], s[j + 1..];
    SumSecondsCons(s[j], post);
    SumSecondsAppend(pre, [s[j]] + post);
    SumSecondsAppend(pre, post);
    assert pre + ([s[j]] + post) == s;
  }

  /** One step of the loop on the same token keeps two equal results equal. */
  lemma SameStep(a: seq<Token>, b: seq<Token>, t: Token)
    requires AllWellFormed(a) && AllWellFormed(b) && WellFormed(t) && LexTokens(a) == LexTokens(b)
    ensures AllWellFormed(a + [t]) && AllWellFormed(b + [t])
    ensures LexTokens(a + [t]) == LexTokens(b + [t])
  {
    assert (a + [t])[..|a|] == a;
    assert (b + [t])[..|b|] == b;
  }

  /** The source's `continue`: a token whose unit is not in the table, at
      any position, changes neither the result nor whether the loop raises. */
  lemma {:induction false} UnknownUnitAddsNothing(pre: seq<Token>, t: Token, post: seq<Token>)
    requires AllWellFormed(pre) && WellFormed(t) && AllWellFormed(post) && LookupUnit(t.unit).None?
    ensures AllWellFormed(pre + [t] + post) && AllWellFormed(pre + post)
    ensures LexTokens(pre + [t] + post) == LexTokens(pre + post)
    decreases |post|
  {
    if post == [] {
      assert (pre + [t] + post)[..|pre|] == pre;
      assert pre + post == pre;
    } else {
      var n := |post| - 1;
      UnknownUnitAddsNothing(pre, t, post[..n]);
      SameStep(pre + [t] + post[..n], pre + post[..n], post[n]);
      assert pre + [t] + post == pre + [t] + post[..n] + [post[n]];
      assert pre + post == pre + post[..n] + [post[n]];
    }
  }


  /** A unit word without upper-case letters is looked up as written. */
  lemma LookupLowerCaseWord(word: string)
    requires forall k :: 0 <= k < |word| ==> !('A' <= word[k] <= 'Z')
    ensures LookupUnit(word) == if word in UnitTable then Some(UnitTable[word]) else None
  {
    LowerOfLowerCase(word);
  }

  /** Lower-casing is idempotent, so the lookup is blind to case. */
  lemma LookupUnitIgnoresCase(word: string)
    ensures LookupUnit(word) == LookupUnit(Lower(word))
  {
    assert Lower(Lower(word)) == Lower(word);
  }

  /** The table's `M` entry is unreachable: only "month" and "months" name
      months, and "M" names minutes. */
  lemma MonthsOnlyByName(word: string)
    ensures LookupUnit(word) == Some(Months) ==> Lower(word) == "month" || Lower(word) == "months"
    ensures LookupUnit("M") == Some(Minutes)
  {
    var key := Lower(word);
    if LookupUnit(word) == Some(Months) {
      assert key in UnitTable && UnitTable[key] == Months;
      assert |key| > 0 ==> key[0] != 'M';
      assert key != "M";
    }
    assert Lower("M") == "m";
  }

  /** A unit word that starts with a digit, as a backtracked unit does, is
      not in the table. */
  lemma DigitLedUnitIsUnknown(word: string)
    requires |word| > 0 && IsDigit(word[0])
    ensures LookupUnit(word) == None
  {
    var key := Lower(word);
    assert IsDigit(key[0]);
    assert forall w :: w in UnitTable ==> |w| > 0 && !IsDigit(w[0]);
  }

  /** When the digit group stops short of the digit run, the matcher has
      backtracked: no word character followed the digits, so the unit group is
      the run's last digit, and the table does not know it. */
  lemma BacktrackedUnitIsUnknown(s: string, p: nat)
    requires MatchAt(s, p).Some?
    requires MatchAt(s, p).value.digitsEnd < RunEnd(s, MatchAt(s, p).value.digitsStart, IsDigit)
    ensures var m := MatchAt(s, p).value;
      && m.unitStart == m.digitsEnd && m.end == m.unitStart + 1 && IsDigit(s[m.unitStart])
      && m.end == RunEnd(s, m.digitsStart, IsDigit)
    ensures LookupUnit(TokenOf(s, MatchAt(s, p).value).unit).None?
  {
    var m := MatchAt(s, p).value;
    assert IsDigit(s[m.unitStart]);
    DigitLedUnitIsUnknown(TokenOf(s, m).unit);
  }
}
