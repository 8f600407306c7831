/**
 * Bytes as read from the target process, and the little-endian field
 * extraction that `struct.unpack('<…')` performs on them.
 */
module Bytes {

  type byte = x: int | 0 <= x < 0x100

  function Min(a: int, b: int): int
  {
    if a <= b then a else b
  }

  function Pow256(n: nat): nat
  {
    if n == 0 then 1 else 0x100 * Pow256(n - 1)
  }

  /** The unsigned little-endian value of a byte string. */
  function LittleEndian(s: seq<byte>): nat
  {
    if s == [] then 0 else s[0] + 0x100 * LittleEndian(s[1..])
  }

  lemma {:induction false} LittleEndianBound(s: seq<byte>)
    ensures LittleEndian(s) < Pow256(|s|)
  {
    if s != [] {
      LittleEndianBound(s[1..]);
    }
  }

  /** A little-endian value is zero exactly when every byte is zero. */
  lemma {:induction false} LittleEndianZero(s: seq<byte>)
    ensures LittleEndian(s) == 0 <==> forall i :: 0 <= i < |s| ==> s[i] == 0
  {
    if s != [] {
      LittleEndianZero(s[1..]);
      if LittleEndian(s) == 0 {
        assert s[0] == 0 && LittleEndian(s[1..]) == 0;
        forall i | 0 <= i < |s| ensures s[i] == 0 {
          if i > 0 { assert s[i] == s[1..][i - 1]; }
        }
      }
    }
  }

  /** `struct.unpack('<H', s[off:off+2])`. */
  function U16(s: seq<byte>, off: nat): (r: nat)
    requires off + 2 <= |s|
    ensures r < 0x1_0000
  {
    s[off] as int + 0x100 * s[off + 1] as int
  }

  /** `struct.unpack('<I', s[off:off+4])`. */
  function U32(s: seq<byte>, off: nat): (r: nat)
    requires off + 4 <= |s|
    ensures r < 0x1_0000_0000
  {
    U16(s, off) + 0x1_0000 * U16(s, off + 2)
  }

  /** `struct.unpack('<Q', s[off:off+8])`. */
  function U64(s: seq<byte>, off: nat): (r: nat)
    requires off + 8 <= |s|
    ensures r < 0x1_0000_0000_0000_0000
  {
    U32(s, off) + 0x1_0000_0000 * U32(s, off + 4)
  }

  /** Peeling the lowest byte off a window of `s`. */
  lemma LittleEndianUnfold(s: seq<byte>, i: nat, j: nat)
    requires i < j <= |s|
    ensures LittleEndian(s[i..j]) == s[i] + 0x100 * LittleEndian(s[i + 1..j])
  {
    assert s[i..j][0] == s[i];
    assert s[i..j][1..] == s[i + 1..j];
  }

  /** The fixed-width readers agree with the little-endian value of the bytes they cover. */
  lemma U16IsLittleEndian(s: seq<byte>, off: nat)
    requires off + 2 <= |s|
    ensures U16(s, off) == LittleEndian(s[off..off + 2])
  {
    LittleEndianUnfold(s, off, off + 2);
    LittleEndianUnfold(s, off + 1, off + 2);
    assert s[off + 2..off + 2] == [];
  }

  lemma U32IsLittleEndian(s: seq<byte>, off: nat)
    requires off + 4 <= |s|
    ensures U32(s, off) == LittleEndian(s[off..off + 4])
  {
    var e := off + 4;
    LittleEndianUnfold(s, off, e);
    LittleEndianUnfold(s, off + 1, e);
    LittleEndianUnfold(s, off + 2, e);
    LittleEndianUnfold(s, off + 3, e);
    assert s[e..e] == [];
  }

  lemma U64IsLittleEndian(s: seq<byte>, off: nat)
    requires off + 8 <= |s|
    ensures U64(s, off) == LittleEndian(s[off..off + 8])
  {
    var e := off + 8;
    LittleEndianUnfold(s, off, e);
    LittleEndianUnfold(s, off + 1, e);
    LittleEndianUnfold(s, off + 2, e);
    LittleEndianUnfold(s, off + 3, e);
    LittleEndianUnfold(s, off + 4, e);
    LittleEndianUnfold(s, off + 5, e);
    LittleEndianUnfold(s, off + 6, e);
    LittleEndianUnfold(s, off + 7, e);
    assert s[e..e] == [];
  }

  /** `struct.unpack('<i', s[off:off+4])`: the two's-complement reading of U32. */
  function I32(s: seq<byte>, off: nat): (r: int)
    requires off + 4 <= |s|
    ensures -0x8000_0000 <= r < 0x8000_0000
    ensures r >= 0 ==> r == U32(s, off)
    ensures r < 0 ==> r == U32(s, off) - 0x1_0000_0000
  {
    var u := U32(s, off);
    if u < 0x8000_0000 then u else u - 0x1_0000_0000
  }

  /** `flags & mask != 0` for a single-bit mask (1, 0x100, 0x10000, …). */
  predicate HasFlag(flags: nat, mask: nat)
    requires mask > 0
  {
    (flags / mask) % 2 == 1
  }

  /**
   * The three flag bits of a 32-bit little-endian word are the low bits of its
   * first three bytes: bit 0 of byte 0, bit 8 = bit 0 of byte 1, bit 16 = bit 0 of byte 2.
   */
  lemma FlagBitsAreByteParity(s: seq<byte>, off: nat)
    requires off + 4 <= |s|
    ensures HasFlag(U32(s, off), 0x1) <==> s[off] % 2 == 1
    ensures HasFlag(U32(s, off), 0x100) <==> s[off + 1] % 2 == 1
    ensures HasFlag(U32(s, off), 0x1_0000) <==> s[off + 2] % 2 == 1
  {
    var b0, b1, b2, b3: int := s[off], s[off + 1], s[off + 2], s[off + 3];
    var hi := b2 + 0x100 * b3;
    var mid := b1 + 0x100 * hi;
    var u := U32(s, off);
    assert u == b0 + 0x100 * mid;
    assert u / 0x1 == u;
    assert u % 2 == b0 % 2;
    assert u / 0x100 == mid;
    assert mid % 2 == b1 % 2;
    assert u == (b0 + 0x100 * b1) + 0x1_0000 * hi;
    assert u / 0x1_0000 == hi;
    assert hi % 2 == b2 % 2;
  }
}
