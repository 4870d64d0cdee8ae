/** The epoch interpreter `parse_epoch_value`: a string of decimal digits is
    read as seconds, milliseconds, microseconds or nanoseconds since the Unix
    epoch according to its character count, and converted to seconds. The
    model computes exactly, with reals, where the source divides a `Decimal`
    and converts the quotient to a float.
 */
module EpochInterpreter {
  import opened Text

  /** How many times a digit string of `count` characters is divided by 1000:
      up to 11 characters are seconds, 12 to 14 milliseconds, 15 to 17
      microseconds, and 18 or more nanoseconds. */
  function UnitExponent(count: nat): (k: nat)
    ensures k <= 3
  {
    if count <= 11 then 0 else if count <= 14 then 1 else if count <= 17 then 2 else 3
  }

  /** `parse_epoch_value`: seconds since the epoch. The result, scaled back by
      the unit the length selects (1000 to the power `UnitExponent`, that is
      ten to three times that power), is the number the digits denote. */
  function ParseEpochValue(epochStr: string): (r: real)
    requires IsDigitString(epochStr)
    ensures r >= 0.0
    ensures r * Pow10(3 * UnitExponent(|epochStr|)) as real == DigitsValue(epochStr) as real
  {
    var value := DigitsValue(epochStr) as real;
    var digitCount := |epochStr|;
    if digitCount <= 11 then value
    else if digitCount <= 14 then value / 1000.0
    else if digitCount <= 17 then value / 1000000.0
    else value / 1000000000.0
  }

  /** The four length bands and the divisor each one applies. */
  lemma EpochUnitBands(epochStr: string)
    requires IsDigitString(epochStr)
    ensures var n, v := |epochStr|, DigitsValue(epochStr) as real;
      && (n <= 11 ==> ParseEpochValue(epochStr) == v)
      && (12 <= n <= 14 ==> ParseEpochValue(epochStr) == v / 1000.0)
      && (15 <= n <= 17 ==> ParseEpochValue(epochStr) == v / 1000000.0)
      && (18 <= n ==> ParseEpochValue(epochStr) == v / 1000000000.0)
  {
  }

  /** The bands line up with the resolutions: writing the same instant with
      three more digits (seconds as milliseconds, milliseconds as microseconds,
      microseconds as nanoseconds) gives the same seconds, for every string of
      9 to 17 digits. */
  lemma FinerResolutionSameInstant(epochStr: string)
    requires IsDigitString(epochStr) && 9 <= |epochStr| <= 17
    ensures IsDigitString(epochStr + "000")
    ensures ParseEpochValue(epochStr + "000") == ParseEpochValue(epochStr)
  {
    DigitsValueTimes1000(epochStr);
  }

  /** Outside those lengths the heuristic does not line up: three more digits
      stay in the same band and denote a thousand times the instant. */
  lemma SameBandOutsideRange(epochStr: string)
    requires IsDigitString(epochStr) && (|epochStr| <= 8 || 18 <= |epochStr|)
    ensures IsDigitString(epochStr + "000")
    ensures ParseEpochValue(epochStr + "000") == 1000.0 * ParseEpochValue(epochStr)
  {
    DigitsValueTimes1000(epochStr);
  }

  /** The band is chosen by character count, so leading zeros count: an
      11-digit string with a zero in front is read as milliseconds. */
  lemma LeadingZeroChangesUnit(epochStr: string)
    requires IsDigitString(epochStr) && |epochStr| == 11
    ensures IsDigitString("0" + epochStr)
    ensures ParseEpochValue("0" + epochStr) * 1000.0 == ParseEpochValue(epochStr)
  {
    DigitsValueLeadingZero(epochStr);
  }
}
