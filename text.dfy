/** Character classes and string helpers shared by the query parsers.

    The model is restricted to ASCII: every character outside it belongs to
    none of the classes below.
 */
module Text {

  /** Whitespace as Python's `str.isspace` and the regex class `\s` see it on
      ASCII: tab, line feed, vertical tab, form feed, carriage return, the four
      information separators 0x1C..0x1F and the space. */
  predicate IsSpace(c: char) {
    9 <= c as int <= 13 || 28 <= c as int <= 32
  }

  /** The regex class `\d`, and `str.isdigit`, on ASCII. */
  predicate IsDigit(c: char) {
    '0' <= c <= '9'
  }

  /** The regex class `\w` on ASCII: letters, digits and the underscore. */
  predicate IsWord(c: char) {
    ('a' <= c <= 'z') || ('A' <= c <= 'Z') || IsDigit(c) || c == '_'
  }

  /** The regex class `[+\-]`. */
  predicate IsSign(c: char) {
    c == '+' || c == '-'
  }

  /** Every character of `s` is a decimal digit (the empty string included). */
  predicate AllDigits(s: string) {
    forall k :: 0 <= k < |s| ==> IsDigit(s[k])
  }

  /** Python's `str.isdigit`: non-empty and made of digits only. */
  predicate IsDigitString(s: string) {
    |s| > 0 && AllDigits(s)
  }

  /** The end of the longest run of characters of class `cls` that starts at `i`. */
  function RunEnd(s: string, i: nat, cls: char -> bool): (e: nat)
    requires i <= |s|
    ensures i <= e <= |s|
    ensures forall k :: i <= k < e ==> cls(s[k])
    ensures e == |s| || !cls(s[e])
    decreases |s| - i
  {
    if i < |s| && cls(s[i]) then RunEnd(s, i + 1, cls) else i
  }

  /** No run of class `cls` that starts at `i` reaches past `RunEnd(s, i, cls)`. */
  lemma RunEndIsMaximal(s: string, i: nat, cls: char -> bool, j: nat)
    requires i <= j <= |s|
    requires forall k :: i <= k < j ==> cls(s[k])
    ensures j <= RunEnd(s, i, cls)
  {
  }

  /** A run's end is where its characters stop belonging to `cls`. */
  lemma RunEndIs(s: string, i: nat, cls: char -> bool, e: nat)
    requires i <= e <= |s|
    requires forall k :: i <= k < e ==> cls(s[k])
    requires e == |s| || !cls(s[e])
    ensures RunEnd(s, i, cls) == e
  {
    RunEndIsMaximal(s, i, cls, e);
  }

  /** The value of a decimal digit character. */
  function DigitValue(c: char): (d: nat)
    requires IsDigit(c)
    ensures d <= 9
  {
    c as int - '0' as int
  }

  /** The number a string of decimal digits denotes, as Python's `int` and
      `Decimal` read it (leading zeros allowed; the empty string is 0). */
  function DigitsValue(s: string): nat
    requires AllDigits(s)
  {
    if s == [] then 0 else 10 * DigitsValue(s[..|s| - 1]) + DigitValue(s[|s| - 1])
  }

  /** Leading zeros do not change the number a digit string denotes. */
  lemma {:induction false} DigitsValueLeadingZero(s: string)
    requires AllDigits(s)
    ensures AllDigits("0" + s) && DigitsValue("0" + s) == DigitsValue(s)
  {
    if s != [] {
      assert ("0" + s)[..|"0" + s| - 1] == "0" + s[..|s| - 1];
      DigitsValueLeadingZero(s[..|s| - 1]);
    }
  }

  function Pow10(n: nat): (p: nat)
    ensures p >= 1
  {
    if n == 0 then 1 else 10 * Pow10(n - 1)
  }

  /** The digits of `s` followed by those of `t` denote `s`'s number shifted
      by `|t|` decimal places plus `t`'s. */
  lemma {:induction false} DigitsValueAppend(s: string, t: string)
    requires AllDigits(s) && AllDigits(t)
    ensures AllDigits(s + t) && DigitsValue(s + t) == DigitsValue(s) * Pow10(|t|) + DigitsValue(t)
    decreases |t|
  {
    if t == [] {
      assert s + t == s;
    } else {
      var init, last := t[..|t| - 1], t[|t| - 1];
      assert (s + t)[..|s + t| - 1] == s + init;
      DigitsValueAppend(s, init);
      var a, p, b, d := DigitsValue(s), Pow10(|init|), DigitsValue(init), DigitValue(last);
      calc {
        DigitsValue(s + t);
        10 * DigitsValue(s + init) + d;
        10 * (a * p + b) + d;
        { LinearStep(a, p, b, d); }
        a * (10 * p) + (10 * b + d);
      }
    }
  }

  lemma LinearStep(a: int, p: int, b: int, d: int)
    ensures 10 * (a * p + b) + d == a * (10 * p) + (10 * b + d)
  {
  }

  /** Appending three zero digits multiplies the number by 1000. */
  lemma DigitsValueTimes1000(s: string)
    requires AllDigits(s)
    ensures AllDigits(s + "000") && DigitsValue(s + "000") == 1000 * DigitsValue(s)
  {
    var s0, s00, s000 := s + "0", s + "00", s + "000";
    assert s0[..|s|] == s;
    assert s00[..|s| + 1] == s0;
    assert s000[..|s| + 2] == s00;
    assert DigitsValue(s0) == 10 * DigitsValue(s);
    assert DigitsValue(s00) == 10 * DigitsValue(s0);
  }

  /** ASCII lower-casing of one character. */
  function LowerChar(c: char): char {
    if 'A' <= c <= 'Z' then (c as int + 32) as char else c
  }

  /** Python's `str.lower` on ASCII. */
  function Lower(s: string): string {
    seq(|s|, k requires 0 <= k < |s| => LowerChar(s[k]))
  }

  /** Text without upper-case letters is its own lower-case form. */
  lemma LowerOfLowerCase(s: string)
    requires forall k :: 0 <= k < |s| ==> !('A' <= s[k] <= 'Z')
    ensures Lower(s) == s
  {
  }

  /** Lower-casing leaves no upper-case letter behind. */
  lemma LowerHasNoUpper(s: string)
    ensures forall k :: 0 <= k < |s| ==> !('A' <= Lower(s)[k] <= 'Z')
  {
  }

  /** Where the run of whitespace that ends at `j` starts. */
  function TrailStart(s: string, j: nat): (b: nat)
    requires j <= |s|
    ensures b <= j
    ensures forall k :: b <= k < j ==> IsSpace(s[k])
    ensures b == 0 || !IsSpace(s[b - 1])
  {
    if j > 0 && IsSpace(s[j - 1]) then TrailStart(s, j - 1) else j
  }

  /** Python's `str.strip()`: `s` without its leading and trailing whitespace,
      that is the slice from the first non-whitespace character to the end of
      the last one. The result is empty exactly when `s` is all whitespace,
      and otherwise starts and ends with a non-whitespace character. */
  function Strip(s: string): (r: string)
    ensures exists i :: 0 <= i <= |s| && r <= s[i..]
    ensures r == [] <==> forall k :: 0 <= k < |s| ==> IsSpace(s[k])
    ensures r != [] ==> !IsSpace(r[0]) && !IsSpace(r[|r| - 1])
  {
    var i := RunEnd(s, 0, IsSpace);
    if i == |s| then
      assert [] <= s[i..];
      []
    else
      var j := TrailStart(s, |s|);
      assert s[i..j] <= s[i..];
      s[i..j]
  }

  /** `Strip` keeps exactly the slice from the first to the last
      non-whitespace character. */
  lemma StripIsSlice(s: string, i: nat, j: nat)
    requires i <= j <= |s|
    requires forall k :: 0 <= k < i ==> IsSpace(s[k])
    requires forall k :: j <= k < |s| ==> IsSpace(s[k])
    requires i < j ==> !IsSpace(s[i]) && !IsSpace(s[j - 1])
    ensures Strip(s) == s[i..j]
  {
    if i < j {
      RunEndIs(s, 0, IsSpace, i);
      TrailStartIs(s, |s|, j);
    } else {
      RunEndIs(s, 0, IsSpace, |s|);
    }
  }

  /** A trailing run's start is where its characters start being whitespace. */
  lemma {:induction false} TrailStartIs(s: string, j: nat, b: nat)
    requires b <= j <= |s|
    requires forall k :: b <= k < j ==> IsSpace(s[k])
    requires b == 0 || !IsSpace(s[b - 1])
    ensures TrailStart(s, j) == b
    decreases j
  {
    if b < j {
      TrailStartIs(s, j - 1, b);
    }
  }
}
