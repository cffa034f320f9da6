/** Copying a bit string in network bit order: bit 0 is the most significant bit of the first byte. */
module BitStrings {

  /** The mask of the `split` most significant bits of a byte: a 32-bit negation cut down to 8 bits. */
  function ContextSplitMask(split: nat): bv8
    requires split <= 8
  {
    ((0 - ((0x100 as bv32) >> split)) & 0xFF) as bv8
  }

  /** Bit `j` of a byte, counted from the most significant one. */
  predicate BitOf(b: bv8, j: nat)
    requires j < 8
  {
    b & ((0x80 as bv8) >> j) != 0
  }

  predicate Bit(s: seq<bv8>, k: nat)
    requires k < 8 * |s|
  {
    BitOf(s[k / 8], k % 8)
  }

  /** The mask selects exactly the first `split` bits. */
  lemma MaskSelects(split: nat, j: nat)
    requires split <= 8 && j < 8
    ensures BitOf(ContextSplitMask(split), j) <==> j < split
  {
    MaskValue(split);
  }

  /** The nine masks. */
  lemma MaskValue(split: nat)
    requires split <= 8
    ensures ContextSplitMask(split) == [0x00, 0x80, 0xC0, 0xE0, 0xF0, 0xF8, 0xFC, 0xFE, 0xFF][split]
  {
  }

  /** The byte with only bit `j` set. */
  lemma SingleBit(j: nat)
    requires j < 8
    ensures (0x80 as bv8) >> j == [0x80, 0x40, 0x20, 0x10, 0x08, 0x04, 0x02, 0x01][j]
  {
  }

  function Merged(s: bv8, d: bv8, mask: bv8): bv8 {
    (s & mask) | (d & !mask)
  }

  lemma MergeAt(s: bv8, d: bv8, mask: bv8, bit: bv8)
    requires bit in [0x80, 0x40, 0x20, 0x10, 0x08, 0x04, 0x02, 0x01]
    ensures Merged(s, d, mask) & bit == if mask & bit != 0 then s & bit else d & bit
  {
    if bit == 0x80 {
    } else if bit == 0x40 {
    } else if bit == 0x20 {
    } else if bit == 0x10 {
    } else if bit == 0x08 {
    } else if bit == 0x04 {
    } else if bit == 0x02 {
    } else {
    }
  }

  /** Merging two bytes under a mask takes each bit from the side that the mask says. */
  lemma MergeBit(s: bv8, d: bv8, mask: bv8, j: nat)
    requires j < 8
    ensures BitOf(Merged(s, d, mask), j) == if BitOf(mask, j) then BitOf(s, j) else BitOf(d, j)
  {
    SingleBit(j);
    MergeAt(s, d, mask, (0x80 as bv8) >> j);
  }

  /** The destination after copying `bits` bits: whole bytes, and one byte that is split. */
  function Copied(d: seq<bv8>, s: seq<bv8>, bits: nat): (r: seq<bv8>)
    requires bits <= 8 * |d| && bits <= 8 * |s|
    ensures |r| == |d|
  {
    var n := bits / 8;
    if bits % 8 == 0 then s[..n] + d[n..]
    else s[..n] + [Merged(s[n], d[n], ContextSplitMask(bits % 8))] + d[n + 1..]
  }

  /** Exactly the first `bits` bits come from the source, and every later bit is as it was. */
  lemma CopiedBit(d: seq<bv8>, s: seq<bv8>, bits: nat, k: nat)
    requires bits <= 8 * |d| && bits <= 8 * |s| && k < 8 * |d|
    ensures Bit(Copied(d, s, bits), k) == if k < bits then Bit(s, k) else Bit(d, k)
  {
    var n := bits / 8;
    if k / 8 == n && bits % 8 != 0 {
      MaskSelects(bits % 8, k % 8);
      MergeBit(s[n], d[n], ContextSplitMask(bits % 8), k % 8);
      assert k < bits <==> k % 8 < bits % 8;
    } else if k / 8 < n {
      assert Copied(d, s, bits)[k / 8] == s[k / 8];
    } else {
      assert Copied(d, s, bits)[k / 8] == d[k / 8];
    }
  }

  lemma CopiedBits(d: seq<bv8>, s: seq<bv8>, bits: nat, r: seq<bv8>)
    requires bits <= 8 * |d| && bits <= 8 * |s| && r == Copied(d, s, bits)
    ensures forall k :: 0 <= k < 8 * |r| ==> Bit(r, k) == if k < bits then Bit(s, k) else Bit(d, k)
  {
    forall k | 0 <= k < 8 * |r|
      ensures Bit(r, k) == if k < bits then Bit(s, k) else Bit(d, k)
    {
      CopiedBit(d, s, bits, k);
    }
  }

  /** `memcpy` of the first `n` bytes. */
  method CopyBytes(dst: array<bv8>, src: array<bv8>, n: nat)
    requires dst != src && n <= dst.Length && n <= src.Length
    modifies dst
    ensures dst[..] == src[..n] + old(dst[..])[n..]
  {
    forall i | 0 <= i < n {
      dst[i] := src[i];
    }
  }

  /** The byte that is split: its first `rest` bits are copied. */
  method CopySplitByte(dst: array<bv8>, src: array<bv8>, at: nat, rest: nat)
    requires dst != src && at < dst.Length && at < src.Length && rest <= 8
    modifies dst
    ensures dst[..] == old(dst[..])[at := Merged(src[at], old(dst[at]), ContextSplitMask(rest))]
  {
    var splitBit := ContextSplitMask(rest);
    dst[at] := (src[at] & splitBit) | (dst[at] & !splitBit);
  }

  lemma SplitByte(d: seq<bv8>, s: seq<bv8>, bits: nat, r: seq<bv8>)
    requires bits <= 8 * |d| && bits <= 8 * |s|
    requires var n := bits / 8;
      r == if bits % 8 == 0 then s[..n] + d[n..]
           else (s[..n] + d[n..])[n := Merged(s[n], d[n], ContextSplitMask(bits % 8))]
    ensures r == Copied(d, s, bits)
  {
  }

  /** The bytes of the result: copied whole before the one that is split, and left alone after it. */
  lemma CopiedBytes(d: seq<bv8>, s: seq<bv8>, bits: nat, r: seq<bv8>)
    requires bits <= 8 * |d| && bits <= 8 * |s| && r == Copied(d, s, bits)
    ensures forall i :: 0 <= i < bits / 8 ==> r[i] == s[i]
    ensures forall i :: (bits + 7) / 8 <= i < |d| ==> r[i] == d[i]
  {
  }

  /**
   Copies `bits` bits in place. `end` is the offset of the returned pointer. The header says that the
   destination is returned; the code returns it exactly when less than one whole byte is copied.
   */
  method BitCopy(dst: array<bv8>, src: array<bv8>, bits: nat) returns (end: nat)
    requires dst != src && bits <= 8 * dst.Length && bits <= 8 * src.Length
    modifies dst
    ensures dst[..] == Copied(old(dst[..]), src[..], bits)
    ensures end == bits / 8 && (end == 0 <==> bits < 8)
    ensures forall k :: 0 <= k < 8 * dst.Length ==>
      Bit(dst[..], k) == if k < bits then Bit(src[..], k) else Bit(old(dst[..]), k)
    ensures forall i :: 0 <= i < bits / 8 ==> dst[i] == src[i]
    ensures forall i :: (bits + 7) / 8 <= i < dst.Length ==> dst[i] == old(dst[i])
  {
    ghost var d, s := dst[..], src[..];
    var bytes := bits / 8;
    var rest := bits % 8;
    end := 0;
    if bytes != 0 {
      CopyBytes(dst, src, bytes);
      end := bytes;
    }
    assert dst[..] == s[..bytes] + d[bytes..];
    if rest != 0 {
      CopySplitByte(dst, src, end, rest);
    }
    SplitByte(d, s, bits, dst[..]);
    CopiedBytes(d, s, bits, dst[..]);
    CopiedBits(d, s, bits, dst[..]);
  }
}
