/** Bytes, the little-endian accessors of the partition table code, and in-place patches of a byte string. */
module Bytes {
  type byte = x: int | 0 <= x < 256
  type uint32 = x: int | 0 <= x < 0x1_0000_0000

  /** Four little-endian bytes at offset `o`, as the reading macro assembles them. */
  function Get4(s: seq<byte>, o: nat): uint32
    requires o + 4 <= |s|
  {
    var b0: int, b1: int, b2: int, b3: int := s[o], s[o + 1], s[o + 2], s[o + 3];
    b0 + 0x100 * b1 + 0x1_0000 * b2 + 0x100_0000 * b3
  }

  /** Eight little-endian bytes at offset `o`. */
  function Get8(s: seq<byte>, o: nat): nat
    requires o + 8 <= |s|
  {
    Get4(s, o) + 0x1_0000_0000 * Get4(s, o + 4)
  }

  /** The byte string after storing `y` little-endian at offset `o`. */
  function Put4(s: seq<byte>, o: nat, y: uint32): (r: seq<byte>)
    requires o + 4 <= |s|
    ensures |r| == |s|
    ensures forall k :: 0 <= k < |s| && !(o <= k < o + 4) ==> r[k] == s[k]
  {
    s[o := y % 0x100][o + 1 := y / 0x100 % 0x100][o + 2 := y / 0x1_0000 % 0x100][o + 3 := y / 0x100_0000 % 0x100]
  }

  /** Storing the low, then the next, byte of a number and adding them up again loses nothing. */
  lemma SplitDigits(y: uint32)
    ensures y % 0x100 + 0x100 * (y / 0x100 % 0x100) + 0x1_0000 * (y / 0x1_0000 % 0x100)
            + 0x100_0000 * (y / 0x100_0000 % 0x100) == y
  {
    assert y / 0x1_0000 == y / 0x100 / 0x100;
    assert y / 0x100_0000 == y / 0x1_0000 / 0x100;
  }

  lemma GetOfPut(s: seq<byte>, o: nat, y: uint32)
    requires o + 4 <= |s|
    ensures Get4(Put4(s, o, y), o) == y
  {
    SplitDigits(y);
  }

  lemma PutOfGet(s: seq<byte>, o: nat)
    requires o + 4 <= |s|
    ensures Put4(s, o, Get4(s, o)) == s
  {
    var y := Get4(s, o);
    var b1: int, b2: int, b3: int := s[o + 1], s[o + 2], s[o + 3];
    assert y / 0x100 == b1 + 0x100 * b2 + 0x1_0000 * b3;
    assert y / 0x1_0000 == b2 + 0x100 * b3;
    assert y / 0x100_0000 == b3;
  }

  /** `d` with the bytes from `o` on replaced by `x`. */
  function Patch(d: seq<byte>, o: nat, x: seq<byte>): (r: seq<byte>)
    requires o + |x| <= |d|
    ensures |r| == |d|
    ensures forall k :: 0 <= k < |d| ==> r[k] == if o <= k < o + |x| then x[k - o] else d[k]
  {
    seq(|d|, k requires 0 <= k < |d| => if o <= k < o + |x| then x[k - o] else d[k])
  }

  lemma PatchRead(d: seq<byte>, o: nat, x: seq<byte>, o': nat, n: nat)
    requires o + |x| <= |d| && o' + n <= |d|
    ensures o' == o && n == |x| ==> Patch(d, o, x)[o'..o' + n] == x
    ensures o' + n <= o || o + |x| <= o' ==> Patch(d, o, x)[o'..o' + n] == d[o'..o' + n]
  {
  }

  /** Storing four bytes into a buffer in place. */
  method PutBytes(buf: array<byte>, o: nat, y: uint32)
    requires o + 4 <= buf.Length
    modifies buf
    ensures buf[..] == Put4(old(buf[..]), o, y)
  {
    buf[o] := y % 0x100;
    buf[o + 1] := y / 0x100 % 0x100;
    buf[o + 2] := y / 0x1_0000 % 0x100;
    buf[o + 3] := y / 0x100_0000 % 0x100;
  }

  /** Copies `n` bytes, byte by byte, between places that do not overlap. */
  method MemCpy(dst: array<byte>, dstOff: nat, src: array<byte>, srcOff: nat, n: nat)
    requires dstOff + n <= dst.Length && srcOff + n <= src.Length
    requires dst == src ==> dstOff + n <= srcOff || srcOff + n <= dstOff
    modifies dst
    ensures dst[..] == Patch(old(dst[..]), dstOff, old(src[srcOff..srcOff + n]))
  {
    var i := 0;
    while i < n
      invariant 0 <= i <= n
      invariant src[srcOff..srcOff + n] == old(src[srcOff..srcOff + n])
      invariant forall k :: 0 <= k < dst.Length ==>
        dst[k] == if dstOff <= k < dstOff + i then old(src[srcOff..srcOff + n])[k - dstOff] else old(dst[k])
    {
      assert src[srcOff + i] == src[srcOff..srcOff + n][i];
      dst[dstOff + i] := src[srcOff + i];
      i := i + 1;
    }
  }
}
