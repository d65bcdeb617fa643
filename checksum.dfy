/** The Contract-ID (EVCO ID) check digit calculator of package `checksum`.

    A 14-byte payload is turned into a single check-digit string: each byte is
    looked up in `alpha`, the 56 resulting entries are weighted by `p1` and `p2`
    into four sums, the sums are reduced modulo 2 and 3, remapped, packed into an
    index and looked up in `reverse`. `Verify` recomputes the digit of a 15-byte
    identifier and compares it with the last byte.

    Each Go function that returns `(value, error)` is modelled by a method with
    two out-parameters, and by a specification function returning the pair.
 */
module Checksum {
  import opened CheckDigitTables

  datatype Option<T> = None | Some(value: T)

  /** The errors the Go functions return, without their message text. */
  datatype Error =
    | InvalidLength(id: Bytes, length: nat)   // CalculateCheckDigit: length not 14 or 15
    | MissingCheckDigit(id: Bytes)            // Verify: length not 15
    | CalculationFailed(cause: Error)         // Verify: CalculateCheckDigit failed

  /** Go's `string(b)` for a byte `b`: the UTF-8 encoding of the code point
      `b`, one byte below 128 and from 128 on a lead byte carrying the top two
      bits and a continuation byte carrying the low six. */
  function RuneString(b: byte): (r: Bytes)
    ensures b < 128 ==> r == [b]
    ensures b >= 128 ==>
      |r| == 2 && 0xC2 <= r[0] <= 0xC3 && 0x80 <= r[1] < 0xC0 &&
      (r[0] - 0xC0) * 64 + (r[1] - 0x80) == b
  {
    if b < 128 then [b] else [0xC0 + b / 64, 0x80 + b % 64]
  }

  // ---------------------------------------------------------------------------
  // Arithmetic of the reduction step
  // ---------------------------------------------------------------------------

  /** Go's `a % n`: the remainder of division truncated toward zero, so it keeps
      the sign of `a` (Dafny's `%` never returns a negative number). */
  function GoRem(a: int, n: int): (r: int)
    requires n > 0
    ensures a >= 0 ==> 0 <= r < n
    ensures a < 0 ==> -n < r <= 0
    ensures r == a % n || r == a % n - n
  {
    if a >= 0 then a % n
    else
      var b := -a;
      var k := b / n + a / n;
      assert b % n + a % n == -n * k;
      assert 0 <= b % n + a % n < 2 * n;
      assert k == 0 || k == -1;
      -(b % n)
  }

  /** The remap of `c4 % 3`; any other argument falls to the default -1. */
  function CalculateR1(c4: int): (r1: int)
    ensures 0 <= c4 < 3 ==> r1 == (2 * c4) % 3
    ensures !(0 <= c4 < 3) ==> r1 == -1
  {
    match c4
    case 0 => 0
    case 1 => 2
    case 2 => 1
    case _ => -1
  }

  /** The remap of `c3 % 3 + r1`; any sum outside [0,4] falls to the default -1. */
  function CalculateR2(c3: int, r1: int): (r2: int)
    ensures 0 <= c3 + r1 <= 4 ==> r2 == (2 * (c3 + r1)) % 3
    ensures !(0 <= c3 + r1 <= 4) ==> r2 == -1
  {
    var v := c3 + r1;
    match v
    case 0 => 0
    case 1 => 2
    case 2 => 1
    case 3 => 0
    case 4 => 2
    case _ => -1
  }

  /** The four reduced values packed into the index. */
  datatype Reduced = Reduced(q1: int, q2: int, r1: int, r2: int)

  predicate InRange(d: Reduced)
  {
    0 <= d.q1 < 2 && 0 <= d.q2 < 2 && 0 <= d.r1 < 3 && 0 <= d.r2 < 3
  }

  /** Reduces the four sums as the Go code does: `%=` by 2 and 3, then the remaps.
      On non-negative sums every value lands in range and neither remap takes
      its default branch. */
  function Reduce(c1: int, c2: int, c3: int, c4: int): (d: Reduced)
    ensures c1 >= 0 && c2 >= 0 && c3 >= 0 && c4 >= 0 ==>
      InRange(d) &&
      d.q1 == c1 % 2 && d.q2 == c2 % 2 &&
      d.r1 == (2 * (c4 % 3)) % 3 &&
      d.r2 == (2 * (c3 % 3 + d.r1)) % 3
  {
    var r1 := CalculateR1(GoRem(c4, 3));
    Reduced(GoRem(c1, 2), GoRem(c2, 2), r1, CalculateR2(GoRem(c3, 3), r1))
  }

  /** `v := q1 + q2*2 + r1*4 + r2*16`. */
  function Pack(d: Reduced): int
  {
    d.q1 + d.q2 * 2 + d.r1 * 4 + d.r2 * 16
  }

  /** The inverse of `Pack` on the indices it can form. */
  function Unpack(v: int): Reduced
  {
    Reduced(v % 2, (v / 2) % 2, (v % 16) / 4, v / 16)
  }

  /** Every in-range tuple packs to an index, and unpacking recovers it. */
  lemma PackUnpack(d: Reduced)
    requires InRange(d)
    ensures IsIndex(Pack(d)) && Unpack(Pack(d)) == d
  {
    var low := d.q1 + d.q2 * 2 + d.r1 * 4;
    assert 0 <= low < 12;
    assert Pack(d) == low + 16 * d.r2;
    assert Pack(d) % 16 == low && Pack(d) / 16 == d.r2;
    assert low % 2 == d.q1 && (low / 2) % 2 == d.q2 && low / 4 == d.r1;
  }

  /** Every index unpacks to an in-range tuple that packs back to it. */
  lemma UnpackPack(v: int)
    requires IsIndex(v)
    ensures InRange(Unpack(v)) && Pack(Unpack(v)) == v
  {
  }

  /** Distinct in-range tuples give distinct indices. */
  lemma PackInjective(a: Reduced, b: Reduced)
    requires InRange(a) && InRange(b)
    requires Pack(a) == Pack(b)
    ensures a == b
  {
  }

  // ---------------------------------------------------------------------------
  // The specification of calculateCheckDigit
  // ---------------------------------------------------------------------------

  /** The vectors of the first `n` bytes of `s`, concatenated: the array `m`. */
  function Flatten(alpha: map<byte, seq<int>>, s: Bytes, n: nat): (m: seq<int>)
    requires ValidAlpha(alpha) && InAlphabet(alpha, s, n)
    ensures |m| == VectorLength * n
    ensures forall k :: 0 <= k < |m| ==> m[k] >= 0
  {
    if n == 0 then [] else Flatten(alpha, s, n - 1) + alpha[s[n - 1]]
  }

  /** Entry `4*i + j` of the flattened array is entry `j` of the vector of `s[i]`. */
  lemma {:induction false} FlattenAt(alpha: map<byte, seq<int>>, s: Bytes, n: nat, i: nat, j: nat)
    requires ValidAlpha(alpha) && InAlphabet(alpha, s, n)
    requires i < n && j < VectorLength
    ensures Flatten(alpha, s, n)[VectorLength * i + j] == alpha[s[i]][j]
  {
    if i < n - 1 {
      FlattenAt(alpha, s, n - 1, i, j);
    }
  }

  /** The flattened array depends only on the first `n` bytes. */
  lemma {:induction false} FlattenPrefix(alpha: map<byte, seq<int>>, s: Bytes, s': Bytes, n: nat)
    requires ValidAlpha(alpha) && InAlphabet(alpha, s, n) && InAlphabet(alpha, s', n)
    requires s[..n] == s'[..n]
    ensures Flatten(alpha, s, n) == Flatten(alpha, s', n)
  {
    if n > 0 {
      assert s[n - 1] == s[..n][n - 1] == s'[..n][n - 1] == s'[n - 1];
      assert s[..n - 1] == s[..n][..n - 1] == s'[..n][..n - 1] == s'[..n - 1];
      FlattenPrefix(alpha, s, s', n - 1);
    }
  }

  /** The first `n` terms of one accumulator: for each position `i`, entry
      `bit` of its vector times `p[i][col]` plus entry `bit + 1` times
      `p[i][col + 2]`. `c1` is (p1, bit 0, col 0), `c2` (p1, 0, 1),
      `c3` (p2, 2, 0) and `c4` (p2, 2, 1). */
  function WeightedSum(m: seq<int>, p: seq<seq<int>>, n: nat, bit: nat, col: nat): (c: int)
    requires ValidCoefficients(p)
    requires n <= PayloadLength && VectorLength * n <= |m|
    requires bit <= 2 && col <= 1
    ensures (forall k :: 0 <= k < |m| ==> m[k] >= 0) ==> c >= 0
  {
    if n == 0 then 0
    else
      var i := n - 1;
      var term := m[i * 4 + bit] * p[i][col] + m[i * 4 + bit + 1] * p[i][col + 2];
      assert (forall k :: 0 <= k < |m| ==> m[k] >= 0) ==> term >= 0;
      WeightedSum(m, p, i, bit, col) + term
  }

  /** The index `v` the algorithm forms from the payload of `s`. */
  function Index(t: Tables, s: Bytes): (v: int)
    requires ValidTables(t) && Encodable(t, s)
    ensures IsIndex(v)
  {
    var m := Flatten(t.alpha, s, PayloadLength);
    var d := Reduce(
      WeightedSum(m, t.p1, PayloadLength, 0, 0),
      WeightedSum(m, t.p1, PayloadLength, 0, 1),
      WeightedSum(m, t.p2, PayloadLength, 2, 0),
      WeightedSum(m, t.p2, PayloadLength, 2, 1));
    PackUnpack(d);
    Pack(d)
  }

  /** The check digit of the payload of `s`. */
  function DigitOf(t: Tables, s: Bytes): (d: Bytes)
    requires ValidTables(t) && Encodable(t, s)
    ensures |d| == 1
  {
    t.reverse[Index(t, s)]
  }

  /** The digit depends on the first 14 bytes only. */
  lemma DigitOfPayload(t: Tables, s: Bytes, s': Bytes)
    requires ValidTables(t) && Encodable(t, s) && Encodable(t, s')
    requires s[..PayloadLength] == s'[..PayloadLength]
    ensures DigitOf(t, s) == DigitOf(t, s')
  {
    FlattenPrefix(t.alpha, s, s', PayloadLength);
  }

  /** What `CalculateCheckDigit` returns: an error exactly when the length is
      not 14 or 15, and otherwise the digit of the first 14 bytes. */
  function CalculateOutcome(t: Tables, s: Bytes): (r: (Bytes, Option<Error>))
    requires ValidTables(t)
    requires PayloadLength <= |s| <= IdLength ==> Encodable(t, s)
    ensures r.1.Some? <==> |s| < PayloadLength || |s| > IdLength
    ensures r.1.Some? ==> r == ([], Some(InvalidLength(s, |s|)))
    ensures r.1.None? ==> |r.0| == 1 && r.0 == DigitOf(t, s[..PayloadLength])
  {
    if |s| < PayloadLength || |s| > IdLength then
      ([], Some(InvalidLength(s, |s|)))
    else
      DigitOfPayload(t, s, s[..PayloadLength]);
      (DigitOf(t, s), None)
  }

  /** What `Verify` returns: `false` with an error exactly when the length is
      not 15, and otherwise whether the last byte, converted to a string as
      Go's `string(byte)` does, is the digit of the first 14. A last byte of
      128 or more becomes two bytes and never matches the one-byte digit. */
  function VerifyOutcome(t: Tables, s: Bytes): (r: (bool, Option<Error>))
    requires ValidTables(t)
    requires |s| == IdLength ==> Encodable(t, s)
    ensures r.1.Some? <==> |s| != IdLength
    ensures r.1.Some? ==> r == (false, Some(MissingCheckDigit(s)))
    ensures |s| == IdLength ==>
      (r.0 <==> s[PayloadLength] < 128 && s[PayloadLength] == DigitOf(t, s[..PayloadLength])[0])
  {
    if |s| != IdLength then
      (false, Some(MissingCheckDigit(s)))
    else
      var (digit, err) := CalculateOutcome(t, s);
      match err
      case Some(e) => (false, Some(CalculationFailed(e)))
      case None => (RuneString(s[PayloadLength]) == digit, None)
  }

  // ---------------------------------------------------------------------------
  // Properties relating computation and verification
  // ---------------------------------------------------------------------------

  /** For a 15-byte input the last byte is ignored. */
  lemma CalculateIgnoresLastByte(t: Tables, p: Bytes, x: byte)
    requires ValidTables(t) && |p| == PayloadLength && Encodable(t, p)
    ensures CalculateOutcome(t, p + [x]) == CalculateOutcome(t, p)
  {
  }

  /** Appending the computed digit to a payload gives an identifier that
      verifies, without error. */
  lemma RoundTrip(t: Tables, p: Bytes)
    requires ValidTables(t) && |p| == PayloadLength && Encodable(t, p)
    ensures CalculateOutcome(t, p).1.None?
    ensures VerifyOutcome(t, p + CalculateOutcome(t, p).0) == (true, None)
  {
  }

  /** A payload followed by one byte verifies, without error, exactly when
      that byte is the computed digit. */
  lemma VerifyAppended(t: Tables, p: Bytes, x: byte)
    requires ValidTables(t) && |p| == PayloadLength && Encodable(t, p)
    ensures VerifyOutcome(t, p + [x]) == ([x] == CalculateOutcome(t, p).0, None)
  {
  }

  /** A last byte of 128 or more converts to a two-byte string, so it never
      equals a one-byte digit: such an identifier verifies as false. */
  lemma NonAsciiLastByteRejected(t: Tables, s: Bytes)
    requires ValidTables(t) && |s| == IdLength && Encodable(t, s)
    requires s[PayloadLength] >= 128
    ensures VerifyOutcome(t, s) == (false, None)
  {
  }

  // ---------------------------------------------------------------------------
  // The Go functions
  // ---------------------------------------------------------------------------

  /** The fill loop of calculateCheckDigit: the vectors of the 14 payload
      bytes written one entry at a time into a 56-entry array. */
  method FillBits(t: Tables, s: Bytes) returns (m: array<int>, index: int)
    requires ValidAlpha(t.alpha) && Encodable(t, s)
    ensures index == VectorLength * PayloadLength && m.Length == index
    ensures m[..] == Flatten(t.alpha, s, PayloadLength)
    ensures forall i, j :: 0 <= i < PayloadLength && 0 <= j < VectorLength ==>
      m[VectorLength * i + j] == t.alpha[s[i]][j]
  {
    index := 0;
    m := new int[VectorLength * PayloadLength];
    var i := 0;
    while i < PayloadLength
      invariant 0 <= i <= PayloadLength
      invariant index == VectorLength * i
      invariant m[..index] == Flatten(t.alpha, s, i)
    {
      var j := 0;
      while j < VectorLength
        invariant 0 <= j <= VectorLength
        invariant index == VectorLength * i + j
        invariant m[..index] == Flatten(t.alpha, s, i) + t.alpha[s[i]][..j]
      {
        m[index] := t.alpha[s[i]][j];
        index := index + 1;
        j := j + 1;
      }
      assert t.alpha[s[i]][..j] == t.alpha[s[i]];
      i := i + 1;
    }
    assert m[..] == m[..index];
    forall i, j | 0 <= i < PayloadLength && 0 <= j < VectorLength
      ensures m[VectorLength * i + j] == t.alpha[s[i]][j]
    {
      FlattenAt(t.alpha, s, PayloadLength, i, j);
    }
  }

  /** The accumulation loop of calculateCheckDigit: the four weighted sums. */
  method Accumulate(t: Tables, m: array<int>) returns (c1: int, c2: int, c3: int, c4: int)
    requires ValidCoefficients(t.p1) && ValidCoefficients(t.p2)
    requires m.Length == VectorLength * PayloadLength
    ensures c1 == WeightedSum(m[..], t.p1, PayloadLength, 0, 0)
    ensures c2 == WeightedSum(m[..], t.p1, PayloadLength, 0, 1)
    ensures c3 == WeightedSum(m[..], t.p2, PayloadLength, 2, 0)
    ensures c4 == WeightedSum(m[..], t.p2, PayloadLength, 2, 1)
  {
    c1, c2, c3, c4 := 0, 0, 0, 0;
    for i := 0 to PayloadLength
      invariant c1 == WeightedSum(m[..], t.p1, i, 0, 0)
      invariant c2 == WeightedSum(m[..], t.p1, i, 0, 1)
      invariant c3 == WeightedSum(m[..], t.p2, i, 2, 0)
      invariant c4 == WeightedSum(m[..], t.p2, i, 2, 1)
    {
      c1 := c1 + m[i * 4] * t.p1[i][0] + m[i * 4 + 1] * t.p1[i][2];
      c2 := c2 + m[i * 4] * t.p1[i][1] + m[i * 4 + 1] * t.p1[i][3];
      c3 := c3 + m[i * 4 + 2] * t.p2[i][0] + m[i * 4 + 3] * t.p2[i][2];
      c4 := c4 + m[i * 4 + 2] * t.p2[i][1] + m[i * 4 + 3] * t.p2[i][3];
    }
  }

  /** calculateCheckDigit: the digit of the first 14 bytes; its error is always nil. */
  method CalculateDigit(t: Tables, s: Bytes) returns (digit: Bytes, err: Option<Error>)
    requires ValidTables(t) && Encodable(t, s)
    ensures digit == DigitOf(t, s) && err == None
  {
    var m, index := FillBits(t, s);
    var c1, c2, c3, c4 := Accumulate(t, m);

    c1 := GoRem(c1, 2);
    c2 := GoRem(c2, 2);
    c3 := GoRem(c3, 3);
    c4 := GoRem(c4, 3);

    var q1, q2 := c1, c2;
    var r1 := CalculateR1(c4);
    var r2 := CalculateR2(c3, r1);

    var v := q1 + q2 * 2 + r1 * 4 + r2 * 16;
    assert v == Index(t, s);
    digit := t.reverse[v];
    err := None;
  }

  /** CalculateCheckDigit: the length gate, then calculateCheckDigit. */
  method CalculateCheckDigit(t: Tables, s: Bytes) returns (digit: Bytes, err: Option<Error>)
    requires ValidTables(t)
    requires PayloadLength <= |s| <= IdLength ==> Encodable(t, s)
    ensures (digit, err) == CalculateOutcome(t, s)
  {
    if |s| < PayloadLength || |s| > IdLength {
      return [], Some(InvalidLength(s, |s|));
    }
    digit, err := CalculateDigit(t, s);
  }

  /** Verify: the length gate, then a comparison of the last byte with the
      computed digit. */
  method Verify(t: Tables, s: Bytes) returns (valid: bool, err: Option<Error>)
    requires ValidTables(t)
    requires |s| == IdLength ==> Encodable(t, s)
    ensures (valid, err) == VerifyOutcome(t, s)
  {
    if |s| != IdLength {
      return false, Some(MissingCheckDigit(s));
    }
    var digit, e := CalculateCheckDigit(t, s);
    match e
    case Some(cause) =>
      return false, Some(CalculationFailed(cause));
    case None =>
      return RuneString(s[PayloadLength]) == digit, None;
  }
}
