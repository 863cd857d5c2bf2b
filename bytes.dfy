/**
 * Byte-level primitives the extractor relies on: Python's slice semantics on
 * the whole-file buffer, the native ('i') 4-byte signed integer, which is
 * modelled as little-endian two's complement, and Python's int() on a float,
 * which truncates toward zero.
 */
module Bytes {

  newtype byte = x: int | 0 <= x < 256

  const TwoTo31: int := 0x8000_0000
  const TwoTo32: int := 0x1_0000_0000

  /** Where Python puts a slice bound `i` in a sequence of length `len`:
      a negative bound counts from the end, and the result is clamped to 0..len. */
  function SliceBound(i: int, len: nat): (r: nat)
    ensures r <= len
    ensures 0 <= i <= len ==> r == i
    ensures i < 0 <= i + len ==> r == i + len
    ensures i + len < 0 ==> r == 0
    ensures len < i ==> r == len
  {
    if i < 0 then (if i + len < 0 then 0 else i + len)
    else if i > len then len
    else i
  }

  /** `s[lo:hi]` in Python. */
  function PySlice(s: seq<byte>, lo: int, hi: int): (r: seq<byte>)
    ensures |r| <= |s|
    ensures 0 <= lo <= hi <= |s| ==> r == s[lo..hi]
    ensures 0 <= hi <= lo ==> r == []
    ensures -|s| <= lo <= hi < 0 ==> r == s[lo + |s|..hi + |s|]
  {
    var a, b := SliceBound(lo, |s|), SliceBound(hi, |s|);
    if a < b then s[a..b] else []
  }

  /** The signed 32-bit integer stored little-endian in the four bytes `w`. */
  function Int32LE(w: seq<byte>): (v: int)
    requires |w| == 4
    ensures -TwoTo31 <= v < TwoTo31
    ensures v < 0 <==> w[3] >= 0x80
  {
    var u := w[0] as int + 0x100 * w[1] as int + 0x1_0000 * w[2] as int + 0x100_0000 * w[3] as int;
    if u < TwoTo31 then u else u - TwoTo32
  }

  /** The four little-endian two's-complement bytes of a signed 32-bit integer. */
  function EncodeInt32LE(v: int): (w: seq<byte>)
    requires -TwoTo31 <= v < TwoTo31
    ensures |w| == 4
  {
    var u := if v < 0 then v + TwoTo32 else v;
    [(u % 0x100) as byte, (u / 0x100 % 0x100) as byte,
     (u / 0x1_0000 % 0x100) as byte, (u / 0x100_0000) as byte]
  }

  /** Decoding undoes encoding ... */
  lemma Int32LEOfEncode(v: int)
    requires -TwoTo31 <= v < TwoTo31
    ensures Int32LE(EncodeInt32LE(v)) == v
  {
    var u := if v < 0 then v + TwoTo32 else v;
    var w := EncodeInt32LE(v);
    assert u == u % 0x100 + 0x100 * (u / 0x100);
    assert u / 0x100 == u / 0x100 % 0x100 + 0x100 * (u / 0x1_0000);
    assert u / 0x1_0000 == u / 0x1_0000 % 0x100 + 0x100 * (u / 0x100_0000);
  }

  /** ... and encoding undoes decoding, so every 4-byte word is one integer. */
  lemma EncodeOfInt32LE(w: seq<byte>)
    requires |w| == 4
    ensures EncodeInt32LE(Int32LE(w)) == w
  {
    var b0, b1, b2, b3 := w[0] as int, w[1] as int, w[2] as int, w[3] as int;
    var u := b0 + 0x100 * b1 + 0x1_0000 * b2 + 0x100_0000 * b3;
    var e := EncodeInt32LE(Int32LE(w));
    assert (if Int32LE(w) < 0 then Int32LE(w) + TwoTo32 else Int32LE(w)) == u;
    DivMod256(b0, b1 + 0x100 * b2 + 0x1_0000 * b3);
    DivMod256(b1, b2 + 0x100 * b3);
    DivMod256(b2, b3);
    DivMod65536(b0 + 0x100 * b1, b2 + 0x100 * b3);
    DivMod16M(b0 + 0x100 * b1 + 0x1_0000 * b2, b3);
    assert e[0] == w[0] && e[1] == w[1] && e[2] == w[2] && e[3] == w[3];
  }

  lemma DivMod256(lo: int, hi: int)
    requires 0 <= lo < 0x100
    ensures (lo + 0x100 * hi) % 0x100 == lo && (lo + 0x100 * hi) / 0x100 == hi
  {
  }

  lemma DivMod65536(lo: int, hi: int)
    requires 0 <= lo < 0x1_0000
    ensures (lo + 0x1_0000 * hi) / 0x1_0000 == hi
  {
  }

  lemma DivMod16M(lo: int, hi: int)
    requires 0 <= lo < 0x100_0000
    ensures (lo + 0x100_0000 * hi) / 0x100_0000 == hi
  {
  }

  /** Python's int() on a (finite) float: truncation toward zero. */
  function Trunc(x: real): (n: int)
    ensures 0.0 <= x ==> 0 <= n && n as real <= x < n as real + 1.0
    ensures x < 0.0 ==> n <= 0 && n as real - 1.0 < x <= n as real
  {
    if x >= 0.0 then x.Floor else -((-x).Floor)
  }
}
