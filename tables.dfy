/** The static lookup tables of the Contract-ID check digit algorithm.

    The Go package defines four process-wide constants: `alpha` (symbol to a
    4-entry vector), `p1` and `p2` (two 14x4 coefficient matrices) and
    `reverse` (index to check-digit string). Their values are not part of this
    model, so they are a parameter of every operation, and `ValidTables` states
    what the algorithm assumes of them.
 */
module CheckDigitTables {

  /** A Go byte: Go indexes and measures strings byte by byte. */
  type byte = b: int | 0 <= b < 256

  /** A Go string, as its bytes. */
  type Bytes = seq<byte>

  /** Length of a Contract-ID without its check digit. */
  const PayloadLength: nat := 14

  /** Length of a Contract-ID with its check digit. */
  const IdLength: nat := 15

  /** Length of each vector in `alpha` and of each row of `p1` and `p2`. */
  const VectorLength: nat := 4

  datatype Tables = Tables(
    alpha: map<byte, seq<int>>,
    p1: seq<seq<int>>,
    p2: seq<seq<int>>,
    reverse: map<int, Bytes>)

  /** Every symbol maps to a vector of four non-negative entries. */
  predicate ValidAlpha(alpha: map<byte, seq<int>>)
  {
    forall c :: c in alpha ==>
      |alpha[c]| == VectorLength && forall j :: 0 <= j < VectorLength ==> alpha[c][j] >= 0
  }

  /** A 14x4 matrix of non-negative coefficients. */
  predicate ValidCoefficients(p: seq<seq<int>>)
  {
    |p| == PayloadLength &&
    forall i :: 0 <= i < |p| ==>
      |p[i]| == VectorLength && forall j :: 0 <= j < VectorLength ==> p[i][j] >= 0
  }

  /** The indices `q1 + 2*q2 + 4*r1 + 16*r2` with `q1, q2` in {0,1} and
      `r1, r2` in {0,1,2}: the low nibble is below 12 and `r2` is below 3. */
  predicate IsIndex(v: int)
  {
    0 <= v < 48 && v % 16 < 12
  }

  /** `reverse` yields a one-byte ASCII string for every index the algorithm
      can form. */
  ghost predicate ValidReverse(reverse: map<int, Bytes>)
  {
    forall v :: IsIndex(v) ==> v in reverse && |reverse[v]| == 1 && reverse[v][0] < 128
  }

  ghost predicate ValidTables(t: Tables)
  {
    ValidAlpha(t.alpha) && ValidCoefficients(t.p1) && ValidCoefficients(t.p2) && ValidReverse(t.reverse)
  }

  /** The first `n` bytes of `s` are all symbols of `alpha`. */
  predicate InAlphabet(alpha: map<byte, seq<int>>, s: Bytes, n: nat)
  {
    n <= |s| && forall i :: 0 <= i < n ==> s[i] in alpha
  }

  /** `s` has a payload of 14 bytes, each of which `alpha` maps. */
  predicate Encodable(t: Tables, s: Bytes)
  {
    InAlphabet(t.alpha, s, PayloadLength)
  }
}
