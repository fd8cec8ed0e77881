/**
 * Go strings as byte sequences, and `strconv.Itoa` on non-negative integers,
 * which the router uses to name shards ("0", "1", ...).
 */
module Strconv {

  /** A Go `byte`. */
  newtype byte = b: int | 0 <= b < 256

  /** A Go `string` or `[]byte`: bytes, with no encoding attached. */
  type Bytes = seq<byte>

  /** The ASCII digit '0'. */
  const Zero: byte := 48

  predicate IsDigit(b: byte) {
    Zero <= b <= Zero + 9
  }

  /** Canonical decimal text: at least one digit, and no leading zero unless the text is "0". */
  predicate IsDecimal(s: Bytes) {
    && |s| > 0
    && (forall i :: 0 <= i < |s| ==> IsDigit(s[i]))
    && (s[0] == Zero ==> |s| == 1)
  }

  /** The value of a digit string, most significant digit first (the reading of decimal text). */
  function ParseDecimal(s: Bytes): int {
    if s == [] then 0 else 10 * ParseDecimal(s[..|s| - 1]) + (s[|s| - 1] as int - Zero as int)
  }

  /**
   * `strconv.Itoa(n)` for `n >= 0`: canonical decimal text that reads back as `n`.
   * Reading back as `n` makes Itoa injective, so distinct shard indices get distinct names.
   */
  function Itoa(n: nat): (r: Bytes)
    ensures IsDecimal(r)
    ensures ParseDecimal(r) == n
  {
    var d := (Zero as int + n % 10) as byte;
    if n < 10 then
      assert ParseDecimal([d]) == ParseDecimal([]) * 10 + n by {
        assert [d][..0] == [];
      }
      [d]
    else
      var p := Itoa(n / 10);
      assert (p + [d])[..|p|] == p;
      p + [d]
  }
}
