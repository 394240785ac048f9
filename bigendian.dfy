/**
 * `big.Int.SetBytes` (a byte string read as a big-endian unsigned number),
 * its partner `big.Int.Bytes` (the shortest big-endian byte string of a
 * number), and `big.Int.Int64` on a non-negative number (the low 64 bits read
 * as a two's-complement integer).
 */
module BigEndian {
  import opened Base64Url

  function Pow256(n: nat): (p: nat)
    ensures p >= 1
  {
    if n == 0 then 1 else 256 * Pow256(n - 1)
  }

  /** `new(big.Int).SetBytes(b)`; an empty string is zero. */
  function Value(b: seq<byte>): (v: nat)
    ensures v < Pow256(|b|)
  {
    if b == [] then 0 else Value(b[..|b| - 1]) * 256 + b[|b| - 1]
  }

  /** `v.Bytes()`: the shortest big-endian representation, with no leading zero byte. */
  function ToBytes(v: nat): (b: seq<byte>)
    ensures b == [] || b[0] != 0
  {
    if v == 0 then [] else ToBytes(v / 256) + [v % 256]
  }

  /** Reading back the bytes of a number gives the number. */
  lemma {:induction false} ValueOfToBytes(v: nat)
    ensures Value(ToBytes(v)) == v
  {
    if v != 0 {
      var b := ToBytes(v);
      assert b[..|b| - 1] == ToBytes(v / 256);
      ValueOfToBytes(v / 256);
    }
  }

  /** Leading zero bytes do not change the value. */
  lemma {:induction false} LeadingZeroIgnored(b: seq<byte>)
    ensures Value([0] + b) == Value(b)
  {
    if b != [] {
      assert ([0] + b)[..|b|] == [0] + b[..|b| - 1];
      LeadingZeroIgnored(b[..|b| - 1]);
    }
  }

  const TwoTo63: int := 0x8000_0000_0000_0000
  const TwoTo64: int := 0x1_0000_0000_0000_0000

  /**
   * `x.Int64()` for `x >= 0`: the low 64 bits of `x` as a signed integer. The
   * result is the one value of the `int64` range congruent to `v` modulo
   * 2^64, which is `v` itself when `v` fits.
   */
  function ToInt64(v: nat): (r: int)
    ensures -TwoTo63 <= r < TwoTo63
    ensures (v - r) % TwoTo64 == 0
    ensures v < TwoTo63 ==> r == v
  {
    var low := v % TwoTo64;
    if low >= TwoTo63 then low - TwoTo64 else low
  }

  /** A value with bit 63 set and nothing above it reads as negative. */
  lemma ToInt64UpperHalf(v: nat)
    requires TwoTo63 <= v < TwoTo64
    ensures ToInt64(v) == v - TwoTo64
  {
    assert v % TwoTo64 == v;
  }
}
