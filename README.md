# Contract-ID check digit, modelled in Dafny

This project models the `checksum` package of ev-id-tools. The package computes and verifies the check digit of an e-mobility Contract-ID (EVCO ID). It follows the OCHP document "Check Digit Calculation for Contract-IDs". A 14-byte payload gets a one-character check digit. A 15-byte identifier is valid when its last byte is that digit.

The algorithm works in five steps:

1. Each of the 14 payload bytes is looked up in the table `alpha`, which gives a vector of 4 entries. The vectors are written one after another into a 56-entry array.
2. Four accumulators `c1`..`c4` sum the entries weighted by the 14x4 matrices `p1` and `p2`.
3. The sums are reduced with Go's `%` by 2 and by 3.
4. The mod-3 parts are remapped by `calculateR1` and `calculateR2`, and the results are packed into `v = q1 + 2*q2 + 4*r1 + 16*r2`.
5. `v` is looked up in the table `reverse`.

Files:

- `tables.dfy` (module `CheckDigitTables`) defines bytes and Go strings as `seq` of bytes. It holds the four tables as a `Tables` value and `ValidTables`, which states what the algorithm assumes of the tables:
  - every `alpha` vector has 4 non-negative entries;
  - `p1` and `p2` are 14x4 with non-negative entries;
  - `reverse` holds a one-byte ASCII string for every index the algorithm can form.
- `checksum.dfy` (module `Checksum`) holds the algorithm and the Go functions.
  - It has specification functions: `Flatten`, `WeightedSum`, `Reduce`, `Pack`/`Unpack`, `Index`, `DigitOf`, `CalculateOutcome` and `VerifyOutcome`.
  - It has the imperative parts of `calculateCheckDigit`: the fill loop `FillBits` over a 56-entry array, the accumulation loop `Accumulate` and the method `CalculateDigit`. Each is proved against the specification functions.
  - It has the guards `CalculateCheckDigit` and `Verify`.
  - It has lemmas relating computation and verification.
- `checksum_test_vectors.dfy` (module `ChecksumTestVectors`) holds the cases of the package's tests that do not depend on the table values.

Go's `(value, error)` returns are modelled as a pair whose error is an `Option<Error>`. So "`false` with an error" and "`""` with an error" are both visible.

The index set: with `q1, q2` in {0,1} and `r1, r2` in {0,1,2}, `v` ranges over {0..11, 16..27, 32..43}. `IsIndex` states this as `0 <= v < 48 && v % 16 < 12`. The largest index is 43: `calculateR2` returns 0, 1 or 2 (checksum/checksum.go:95-111), so `r2*16` reaches 32 (checksum/checksum.go:75).

## Model

| member | source | states |
|---|---|---|
| `Checksum.GoRem` | checksum/checksum.go:64-67 | Go's `%` keeps the sign of its left operand: the result has absolute value below n, its sign is that of the dividend, and it is congruent to the dividend modulo n. On non-negative input it is Dafny's `%`. |
| `Checksum.CalculateR1` | checksum/checksum.go:82-93 | On 0, 1, 2 the remap is the closed form `(2*c4) % 3` (0→0, 1→2, 2→1). Every other argument takes the -1 default. |
| `Checksum.CalculateR2` | checksum/checksum.go:95-111 | When `c3 + r1` is in [0,4] the remap is `(2*(c3 + r1)) % 3`. Otherwise it takes the -1 default. |
| `Checksum.Reduce` | checksum/checksum.go:64-73 | On non-negative sums, `q1` and `q2` are in {0,1} and `r1` and `r2` are in {0,1,2}. Neither -1 default is reached, and `r1`, `r2` have the closed forms of the remaps applied to the Euclidean remainders. |
| `Checksum.PackUnpack` | checksum/checksum.go:75 | Every in-range `(q1,q2,r1,r2)` packs to an index in {0..11, 16..27, 32..43}, and unpacking that index gives the tuple back. |
| `Checksum.UnpackPack` | checksum/checksum.go:75 | Every index in that set is the packing of exactly one in-range tuple, so the packing is onto the index set. |
| `Checksum.PackInjective` | checksum/checksum.go:75 | Distinct in-range tuples give distinct `v`. |
| `Checksum.Flatten` | checksum/checksum.go:46-53 | The concatenated vectors of the first n bytes have length 4n, and every entry is non-negative. |
| `Checksum.FlattenAt` | checksum/checksum.go:46-53 | Entry `4*i + j` of the flattened array is `alpha[s[i]][j]`. |
| `Checksum.FlattenPrefix` | checksum/checksum.go:48-50 | The flattened array reads only the first n bytes of the identifier. |
| `Checksum.WeightedSum` | checksum/checksum.go:55-62 | An accumulator over non-negative entries and coefficients is non-negative. |
| `Checksum.Index` | checksum/checksum.go:44-75 | The index formed from any encodable payload lies in the index set, so it is at most 43 and `reverse` is defined there. |
| `Checksum.DigitOf` | checksum/checksum.go:77-79 | The digit looked up in `reverse` is a one-byte string. |
| `Checksum.DigitOfPayload` | checksum/checksum.go:44-62 | The digit depends only on the first 14 bytes of the identifier. |
| `Checksum.CalculateOutcome` | checksum/checksum.go:31-38 | `CalculateCheckDigit` errs, with `""` and an invalid-length error carrying the length, exactly when the length is below 14 or above 15. Otherwise it returns the one-byte digit of the first 14 bytes. |
| `Checksum.VerifyOutcome` | checksum/checksum.go:11-26 | `Verify` errs exactly when the length is not 15, and then returns `false` with the missing-check-digit error. On 15 bytes it returns true iff byte 14 is below 128 and equals the digit computed from bytes 0..13. |
| `Checksum.RuneString` | checksum/checksum.go:25 | Go's `string(byte)` is the UTF-8 encoding of the byte as a code point. A byte below 128 gives itself. A byte of 128 or more gives two bytes: a lead byte 0xC2 or 0xC3 and a continuation byte in [0x80, 0xC0). Together their payload bits decode back to the byte. |
| `Checksum.NonAsciiLastByteRejected` | checksum/checksum.go:25 | A 15-byte identifier whose last byte is 128 or more verifies as `false`, without error, because its two-byte string never equals the one-byte digit. |
| `Checksum.CalculateIgnoresLastByte` | checksum/checksum.go:28-37 | For a 14-byte payload `p` and any byte `x`, `CalculateCheckDigit(p + x) == CalculateCheckDigit(p)`. |
| `Checksum.RoundTrip` | checksum/checksum.go:20-25 | For an encodable 14-byte payload, `CalculateCheckDigit` succeeds. `Verify` of the payload followed by that digit returns true with no error. |
| `Checksum.VerifyAppended` | checksum/checksum.go:20-25 | A 14-byte payload followed by any byte `x` verifies, without error, exactly when `x` is the digit `CalculateCheckDigit` returns for the payload. Every other last byte gives `false`. |
| `Checksum.FillBits` | checksum/checksum.go:46-53 | After the fill loop, `index == 56` and `m[4*i + j] == alpha[s[i]][j]` for all `i < 14`, `j < 4`. The array equals the flattened vectors. |
| `Checksum.Accumulate` | checksum/checksum.go:55-62 | After the loop, each of `c1`..`c4` equals the full sum over positions 0..13 of its two weighted terms. The loop invariant is the same sum over the positions done so far. |
| `Checksum.CalculateDigit` | checksum/checksum.go:44-80 | `calculateCheckDigit` returns the digit the specification defines, and its error is always nil. |
| `Checksum.CalculateCheckDigit` | checksum/checksum.go:31-38 | The method returns exactly `CalculateOutcome`: the length gate, then the digit. |
| `Checksum.Verify` | checksum/checksum.go:11-26 | The method returns exactly `VerifyOutcome`: the length gate, then the comparison of the last byte with the computed digit. |
| `ChecksumTestVectors.TooShortRejected` | checksum/checksum_test.go:42-47 | The 13-byte identifier makes both operations err, and `Verify` returns `false`. |
| `ChecksumTestVectors.TooLongRejected` | checksum/checksum_test.go:48-53 | The 16-byte identifier makes both operations err, and `Verify` returns `false`. |
| `ChecksumTestVectors.DashedIdentifiersRejected` | checksum/checksum_test.go:30-41 | As written, the 18-byte identifiers with dashes, in upper and in lower case, make `Verify` err on its length gate. The tests expect them to verify. |
| `ChecksumTestVectors.DashedPayloadRejected` | checksum/checksum_test.go:82-87 | As written, the 16-byte dashed payload makes `CalculateCheckDigit` err on its length gate. The test expects the digit `L`. |

## Left out

- Table contents: the values of `alpha`, `p1`, `p2` and `reverse` are defined outside `checksum.go`, in a file that is not part of this model. They are a parameter, constrained only by `ValidTables`. For that reason the digits the tests expect (`"DE83DUIEN83QGZD"` ends in `D`, `"DE-8AA-CA2B3C4D5"` gives `L`) are not stated.
- Normalization (removing dashes, upper-casing) is only a to-do comment in `Verify`, and the code measures the raw byte length. The model follows the code. The tests `ok/dashes`, `ok/lowercase` and `ok/dashes-without-check-digit` expect success, but the code as written returns a length error for those inputs (`DashedIdentifiersRejected`, `DashedPayloadRejected`). No normalizer is modelled.
- Missing lookups: a byte absent from `alpha`, or an index absent from `reverse`, makes the Go code panic or read a zero value, depending on the table types, which are not known. Membership is a precondition instead (`Encodable`, `ValidTables`).
- Error text: the `fmt.Errorf` messages and `%w` wrapping are plain `Error` variants that keep the identifier, the length and the wrapped cause.
- Integer width: the accumulators are unbounded here, and `ValidTables` puts no upper bound on table entries. Go's `int` is 64 bits on 64-bit targets and 32 bits on 32-bit ones. So the model matches the code only for entries small enough that no sum of 28 products overflows that width. Overflow, and the negative sums it could cause, are not modelled.
- Unicode: Go's `len` and indexing count bytes, and so does the model. The one rune conversion that matters, `string(contractID[14])`, is modelled by `RuneString`. `ValidTables` assumes every digit in `reverse` is ASCII, as the check-digit alphabet is. `RoundTrip` and `VerifyAppended` rely on that assumption.
- The Go test harness itself is not modelled.
