/**
 * Octets, little-endian unsigned 64-bit integers and ASCII helpers shared by
 * the bank reader and writer. Every numeric field of a bank is a u64 stored
 * little-endian.
 */
module Bytes {

  /** One octet of a bank stream. */
  type byte = b: int | 0 <= b < 256

  /** The range of Rust's `u64`. */
  const TWO_64: nat := 0x1_0000_0000_0000_0000
  type u64 = n: int | 0 <= n < 0x1_0000_0000_0000_0000

  const ZERO: byte := 0

  function Pow256(k: nat): (r: nat)
    ensures r > 0
  {
    if k == 0 then 1 else 256 * Pow256(k - 1)
  }

  lemma Pow256Eight()
    ensures Pow256(8) == TWO_64
  {
    assert Pow256(1) == 0x100;
    assert Pow256(2) == 0x1_0000;
    assert Pow256(3) == 0x100_0000;
    assert Pow256(4) == 0x1_0000_0000;
    assert Pow256(5) == 0x100_0000_0000;
    assert Pow256(6) == 0x1_0000_0000_0000;
    assert Pow256(7) == 0x100_0000_0000_0000;
  }

  /** The k low-order base-256 digits of n, least significant first. */
  function LittleEndian(n: nat, k: nat): (r: seq<byte>)
    ensures |r| == k
  {
    if k == 0 then [] else [n % 256] + LittleEndian(n / 256, k - 1)
  }

  /** The number a little-endian digit string denotes; it always fits in |b| bytes. */
  function FromLittleEndian(b: seq<byte>): (r: nat)
    ensures r < Pow256(|b|)
  {
    if b == [] then 0 else b[0] + 256 * FromLittleEndian(b[1..])
  }

  lemma {:induction false} DigitsRoundTrip(n: nat, k: nat)
    requires n < Pow256(k)
    ensures FromLittleEndian(LittleEndian(n, k)) == n
  {
    if k > 0 {
      DigitsRoundTrip(n / 256, k - 1);
      assert LittleEndian(n, k)[1..] == LittleEndian(n / 256, k - 1);
    }
  }

  lemma {:induction false} ValueRoundTrip(b: seq<byte>)
    ensures LittleEndian(FromLittleEndian(b), |b|) == b
  {
    if b != [] {
      ValueRoundTrip(b[1..]);
      var n := FromLittleEndian(b);
      assert n % 256 == b[0] && n / 256 == FromLittleEndian(b[1..]);
    }
  }

  /**
   * `write_u64::<LittleEndian>`: the eight bytes of n. A value that does not
   * fit in a u64 is written modulo 2^64, as Rust's `as u64` cast and wrapping
   * addition leave it.
   */
  function LE64(n: nat): (r: seq<byte>)
    ensures |r| == 8
  {
    LittleEndian(n % TWO_64, 8)
  }

  /** `read_u64::<LittleEndian>` on eight bytes. */
  function DecodeLE64(b: seq<byte>): (r: u64)
    requires |b| == 8
  {
    Pow256Eight();
    FromLittleEndian(b)
  }

  /** Decoding an encoded value gives it back, reduced modulo 2^64. */
  lemma LE64RoundTrip(n: nat)
    ensures DecodeLE64(LE64(n)) == n % TWO_64
    ensures n < TWO_64 ==> DecodeLE64(LE64(n)) == n
  {
    Pow256Eight();
    DigitsRoundTrip(n % TWO_64, 8);
  }

  /** Every eight-byte string is the encoding of the value it decodes to. */
  lemma DecodeThenEncode(b: seq<byte>)
    requires |b| == 8
    ensures LE64(DecodeLE64(b)) == b
  {
    var n := DecodeLE64(b);
    ValueRoundTrip(b);
    assert n % TWO_64 == n;
  }

  /** Appending to an appended sequence; stated once so proofs need not rediscover it. */
  lemma AppendAssoc<T>(a: seq<T>, b: seq<T>, c: seq<T>)
    ensures (a + b) + c == a + (b + c)
  {
  }

  /** The bytes of an ASCII string constant. */
  function AsciiBytes(s: string): (r: seq<byte>)
    ensures |r| == |s|
  {
    seq(|s|, i requires 0 <= i < |s| => (s[i] as int) % 256)
  }

  /** `u8::to_ascii_lowercase`, on bytes; `Kinds.ToAsciiLowercase` is the same map on chars. */
  function ToAsciiLower(b: byte): byte
  {
    if 65 <= b <= 90 then b + 32 else b
  }

  /** `[u8]::eq_ignore_ascii_case`. */
  predicate EqIgnoreAsciiCase(a: seq<byte>, b: seq<byte>)
  {
    |a| == |b| && forall i :: 0 <= i < |a| ==> ToAsciiLower(a[i]) == ToAsciiLower(b[i])
  }
}
