/** Bytes, little-endian integers and the byte-to-char view of a C++ std::string. */
module Bytes {

  /** One octet, as Python's bytes objects and C++'s uint8_t hold it. */
  type byte = x: int | 0 <= x < 256

  /** 2^64: the modulus of size_t / uint64_t arithmetic. */
  const TWO_64: nat := 0x1_0000_0000_0000_0000

  function Pow256(n: nat): (r: nat)
    ensures r >= 1
  {
    if n == 0 then 1 else 256 * Pow256(n - 1)
  }

  /** The unsigned integer whose little-endian encoding is `b` (first byte least significant). */
  function LeValue(b: seq<byte>): nat
  {
    if b == [] then 0 else b[0] + 256 * LeValue(b[1..])
  }

  lemma {:induction false} LeValueBound(b: seq<byte>)
    ensures LeValue(b) < Pow256(|b|)
  {
    if b != [] {
      LeValueBound(b[1..]);
    }
  }

  /** Appending a more significant byte adds it at weight 256^|b|. */
  lemma {:induction false} LeValueSnoc(b: seq<byte>, x: byte)
    ensures LeValue(b + [x]) == LeValue(b) + x * Pow256(|b|)
  {
    if b != [] {
      var t := b[1..];
      assert (b + [x])[1..] == t + [x];
      LeValueSnoc(t, x);
      assert LeValue(b + [x]) == b[0] + 256 * (LeValue(t) + x * Pow256(|t|));
      assert 256 * (x * Pow256(|t|)) == x * Pow256(|b|) by {
        assert Pow256(|b|) == 256 * Pow256(|t|);
      }
    }
  }

  /** The `width` low-order bytes of `n`, least significant first (struct.pack '<Q' for width 8). */
  function PackLe(n: nat, width: nat): (r: seq<byte>)
    ensures |r| == width
  {
    if width == 0 then [] else [n % 256] + PackLe(n / 256, width - 1)
  }

  lemma {:induction false} PackLeRoundTrip(n: nat, width: nat)
    requires n < Pow256(width)
    ensures LeValue(PackLe(n, width)) == n
  {
    if width > 0 {
      DivBelow(n, Pow256(width - 1));
      PackLeRoundTrip(n / 256, width - 1);
      assert PackLe(n, width)[1..] == PackLe(n / 256, width - 1);
    }
  }

  lemma DivBelow(n: nat, p: nat)
    requires n < 256 * p
    ensures n / 256 < p && n == n % 256 + 256 * (n / 256)
  {
  }

  lemma Pow256Eight()
    ensures Pow256(8) == TWO_64
  {
  }

  /** The characters of a std::string built from raw bytes: one char per byte. */
  function BytesToChars(b: seq<byte>): (s: string)
    ensures |s| == |b|
    ensures forall i :: 0 <= i < |b| ==> s[i] as int == b[i]
  {
    seq(|b|, i requires 0 <= i < |b| => b[i] as char)
  }
}
