/** The table-independent cases of the package's tests: the length gates.

    The identifiers are written as ASCII text and converted to bytes. Cases
    whose expected digit depends on the values of the tables are not stated.
 */
module ChecksumTestVectors {
  import opened CheckDigitTables
  import opened Checksum

  /** The bytes of an ASCII string. */
  function Ascii(s: string): (b: Bytes)
    requires forall i :: 0 <= i < |s| ==> s[i] as int < 256
    ensures |b| == |s|
    ensures forall i :: 0 <= i < |s| ==> b[i] == s[i] as int
  {
    seq(|s|, i requires 0 <= i < |s| => s[i] as int)
  }

  /** A 13-byte identifier is too short for both operations. */
  lemma TooShortRejected(t: Tables)
    requires ValidTables(t)
    ensures var s := Ascii("DE83DUIEN83QG");
      CalculateOutcome(t, s) == ([], Some(InvalidLength(s, 13))) &&
      VerifyOutcome(t, s) == (false, Some(MissingCheckDigit(s)))
  {
  }

  /** A 16-byte identifier is too long for both operations. */
  lemma TooLongRejected(t: Tables)
    requires ValidTables(t)
    ensures var s := Ascii("DE83DUIEN83QGZXX");
      CalculateOutcome(t, s) == ([], Some(InvalidLength(s, 16))) &&
      VerifyOutcome(t, s) == (false, Some(MissingCheckDigit(s)))
  {
  }

  /** Identifiers with separators are measured with their dashes, so they fail
      the length gate of `Verify`, although the package's tests expect them to
      verify. */
  lemma DashedIdentifiersRejected(t: Tables)
    requires ValidTables(t)
    ensures VerifyOutcome(t, Ascii("DE-8AA-CA2B3C4D5-L")).1.Some?
    ensures VerifyOutcome(t, Ascii("de-8aa-ca2b3c4d5-l")).1.Some?
  {
  }

  /** A payload with separators is 16 bytes long, so it fails the length gate
      of `CalculateCheckDigit`, although the package's tests expect a digit. */
  lemma DashedPayloadRejected(t: Tables)
    requires ValidTables(t)
    ensures CalculateOutcome(t, Ascii("DE-8AA-CA2B3C4D5")).1.Some?
  {
  }
}
