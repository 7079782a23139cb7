/**
 * 16- and 32-bit words stored in byte buffers, least significant byte first
 * (the engine reads uint16_t and writes float through typed pointers on a
 * little-endian host), and the element-by-element widening of a buffer of
 * 16-bit words into a buffer of 32-bit words.
 */
module Words {
  import opened Bytes
  import opened Tensors

  /** The sign bit of a binary32 pattern. */
  function SignOf(f: bv32): bv32 { f >> 31 }

  /** The eight-bit biased exponent field of a binary32 pattern. */
  function ExpOf(f: bv32): bv32 { (f >> 23) & 0xFF }

  /** The 23-bit mantissa field of a binary32 pattern. */
  function MantOf(f: bv32): bv32 { f & 0x7F_FFFF }

  /** The 16-bit word whose low byte is `lo` and high byte is `hi`. */
  function HalfOf(lo: byte, hi: byte): bv16
  {
    (lo as int + 256 * hi as int) as bv16
  }

  /** The 16-bit word at element index i of a little-endian buffer. */
  function HalfAt(b: seq<byte>, i: nat): bv16
    requires 2 * i + 2 <= |b|
  {
    HalfOf(b[2 * i], b[2 * i + 1])
  }

  /** The four bytes of a 32-bit word, least significant first. */
  function WordBytes(w: bv32): (r: seq<byte>)
    ensures |r| == 4
  {
    PackLe(w as int, 4)
  }

  /** Each 16-bit word of `b`, converted by `conv`, stored as a 32-bit word: element i of the result is conv(element i of `b`). */
  function Widened(b: seq<byte>, conv: bv16 -> bv32): (w: seq<byte>)
    requires |b| % 2 == 0
    ensures |w| == 2 * |b|
  {
    if b == [] then [] else WordBytes(conv(HalfAt(b, 0))) + Widened(b[2..], conv)
  }

  /** Widening one more word appends its converted four bytes. */
  lemma {:induction false} WidenedSnoc(b: seq<byte>, x: byte, y: byte, conv: bv16 -> bv32)
    requires |b| % 2 == 0
    ensures Widened(b + [x, y], conv) == Widened(b, conv) + WordBytes(conv(HalfAt([x, y], 0)))
  {
    if b == [] {
      assert [x, y][2..] == [];
    } else {
      assert (b + [x, y])[2..] == b[2..] + [x, y];
      assert HalfAt(b + [x, y], 0) == HalfAt(b, 0);
      WidenedSnoc(b[2..], x, y, conv);
    }
  }

  /** Bytes [4i, 4i+4) of the widened buffer hold conv of the i-th 16-bit word. */
  lemma {:induction false} WidenedAt(b: seq<byte>, conv: bv16 -> bv32, i: nat)
    requires |b| % 2 == 0 && 2 * i + 2 <= |b|
    ensures Widened(b, conv)[4 * i .. 4 * i + 4] == WordBytes(conv(HalfAt(b, i)))
  {
    if i > 0 {
      var rest := b[2..];
      var head, tail := WordBytes(conv(HalfAt(b, 0))), Widened(rest, conv);
      WidenedAt(rest, conv, i - 1);
      assert rest[2 * (i - 1)] == b[2 * i] && rest[2 * (i - 1) + 1] == b[2 * i + 1];
      assert HalfAt(rest, i - 1) == HalfAt(b, i);
      assert Widened(b, conv) == head + tail;
      SliceAfterWord(head, tail, i);
      assert Widened(b, conv)[4 * i .. 4 * i + 4] == tail[4 * (i - 1) .. 4 * (i - 1) + 4];
    } else {
      var head := WordBytes(conv(HalfAt(b, 0)));
      assert Widened(b, conv) == head + Widened(b[2..], conv);
      assert (head + Widened(b[2..], conv))[0 .. 4] == head;
      assert Widened(b, conv)[4 * i .. 4 * i + 4] == head;
    }
  }

  lemma SliceAfterWord(head: seq<byte>, tail: seq<byte>, i: nat)
    requires |head| == 4 && 0 < i && 4 * i <= |tail|
    ensures (head + tail)[4 * i .. 4 * i + 4] == tail[4 * (i - 1) .. 4 * (i - 1) + 4]
  {
  }

  /** Widening the first i + 1 words extends the widening of the first i by word i. */
  lemma WidenedPrefix(b: seq<byte>, conv: bv16 -> bv32, i: nat)
    requires 2 * i + 2 <= |b|
    ensures Widened(b[..2 * i + 2], conv) == Widened(b[..2 * i], conv) + WordBytes(conv(HalfAt(b, i)))
  {
    assert b[..2 * i + 2] == b[..2 * i] + [b[2 * i], b[2 * i + 1]];
    WidenedSnoc(b[..2 * i], b[2 * i], b[2 * i + 1], conv);
  }

  /** A store of a 32-bit value through a float pointer: the four bytes at `at` take the word's bytes. */
  method StoreWord(dst: array<byte>, at: nat, w: bv32)
    requires at + 4 <= dst.Length
    modifies dst
    ensures dst[..] == Splice(old(dst[..]), at, WordBytes(w))
  {
    var bytes := WordBytes(w);
    dst[at] := bytes[0];
    dst[at + 1] := bytes[1];
    dst[at + 2] := bytes[2];
    dst[at + 3] := bytes[3];
    assert dst[..] == old(dst[..])[..at] + bytes + old(dst[..])[at + 4..];
  }

  /**
   * The widening loop: for each element index i < n, the 16-bit word at
   * src[off + 2i] is converted by `conv` and stored at dst[4i].
   */
  method WidenInto(dst: array<byte>, src: array<byte>, off: nat, n: nat, conv: bv16 -> bv32)
    requires dst != src && dst.Length == 4 * n && off + 2 * n <= src.Length
    modifies dst
    ensures dst[..] == Widened(src[off .. off + 2 * n], conv)
  {
    ghost var input := src[off .. off + 2 * n];
    for i := 0 to n
      invariant dst[..4 * i] == Widened(input[..2 * i], conv)
    {
      var h := HalfOf(src[off + 2 * i], src[off + 2 * i + 1]);
      assert h == HalfAt(input, i);
      ghost var before := dst[..];
      StoreWord(dst, 4 * i, conv(h));
      assert dst[..4 * i + 4] == before[..4 * i] + WordBytes(conv(h));
      WidenedPrefix(input, conv, i);
    }
    assert dst[..] == dst[..4 * n];
    assert input[..2 * n] == input;
  }
}
