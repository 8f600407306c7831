/**
 * The remote-memory accessor and the interned-name decoder.
 *
 * The live process is replaced by a fixed snapshot of its address space: a
 * read either fails or yields exactly the bytes that were asked for, which is
 * what ReadProcessMemory does (a partial copy is reported as a failure).
 */
module Memory {
  import opened Wrappers
  import opened Bytes
  import opened Strings

  /** Lowest address the pointer test accepts; `0x10000` itself only inside the module. */
  const MinPointer := 0x1_0000
  /** Top of the user-mode address range; excluded. */
  const MaxUserPointer := 0x7FFF_FFFF_FFFF
  /** `read_cstring`'s default `max_len`. */
  const CStringMax := 128
  /** Size of the StringName header read. */
  const StringNameHeader := 32
  /** Size of the UTF-32 window read for a wide name. */
  const WideWindow := 256

  /** A read-only view of the target process. */
  datatype MemoryReader = MemoryReader(image: map<int, byte>)
  {
    /** Every address of [address, address + size) is mapped. */
    predicate Mapped(address: int, size: nat)
    {
      forall a :: address <= a < address + size ==> a in image
    }

    /** `read_bytes`: the `size` bytes at `address`, or None when any of them is unmapped. */
    function ReadBytes(address: int, size: nat): (r: Option<seq<byte>>)
      ensures r.Some? <==> Mapped(address, size)
      ensures r.Some? ==> |r.value| == size
    {
      if Mapped(address, size) then
        Some(seq(size, i requires 0 <= i < size => image[address + i]))
      else
        None
    }

    /** `read_qword`: the unsigned 64-bit little-endian value at `address`. */
    function ReadQword(address: int): (r: Option<nat>)
      ensures r.None? <==> ReadBytes(address, 8).None?
      ensures r.Some? ==> r.value < 0x1_0000_0000_0000_0000
      ensures r.Some? ==> r.value == U64(seq(8, i requires 0 <= i < 8 => image[address + i]), 0)
    {
      var data := ReadBytes(address, 8);
      if data.Some? && |data.value| > 0 && |data.value| == 8 then
        assert data.value[0..8] == seq(8, i requires 0 <= i < 8 => image[address + i]);
        Some(U64(data.value, 0))
      else None
    }

    /** `read_dword`: the unsigned 32-bit little-endian value at `address`. */
    function ReadDword(address: int): (r: Option<nat>)
      ensures r.None? <==> ReadBytes(address, 4).None?
      ensures r.Some? ==> r.value < 0x1_0000_0000
      ensures r.Some? ==> r.value == U32(seq(4, i requires 0 <= i < 4 => image[address + i]), 0)
    {
      var data := ReadBytes(address, 4);
      if data.Some? && |data.value| > 0 && |data.value| == 4 then
        assert data.value[0..4] == seq(4, i requires 0 <= i < 4 => image[address + i]);
        Some(U32(data.value, 0))
      else None
    }
  }

  /**
   * `is_valid_pointer`: a cheap plausibility test, no read. Below 0x10000 is
   * never plausible; inside the module always; elsewhere only strictly
   * between 0x10000 and the top of user space.
   */
  predicate IsValidPointer(ptr: int, base: int, moduleSize: int)
  {
    if ptr < MinPointer then false
    else if base <= ptr < base + moduleSize then true
    else if MinPointer < ptr < MaxUserPointer then true
    else false
  }

  /** The whole test as one formula, and its consequence that a plausible pointer is never null. */
  lemma PointerCharacterization(ptr: int, base: int, moduleSize: int)
    ensures IsValidPointer(ptr, base, moduleSize) <==>
              ptr >= MinPointer && ((base <= ptr < base + moduleSize) || (MinPointer < ptr < MaxUserPointer))
    ensures IsValidPointer(ptr, base, moduleSize) ==> ptr > 0
  {
  }

  /** The boundary cases of the test for a module lying above 0x10000. */
  lemma PointerBoundaries(base: int, moduleSize: int)
    requires base > MinPointer && moduleSize > 0
    ensures !IsValidPointer(0, base, moduleSize)
    ensures !IsValidPointer(MinPointer, base, moduleSize)
    ensures IsValidPointer(base, base, moduleSize)
    ensures IsValidPointer(base + moduleSize - 1, base, moduleSize)
    ensures base + moduleSize >= MaxUserPointer ==> !IsValidPointer(base + moduleSize, base, moduleSize)
    ensures base + moduleSize <= MaxUserPointer - 1 ==> IsValidPointer(MaxUserPointer - 1, base, moduleSize)
    ensures base > MaxUserPointer || base + moduleSize <= MaxUserPointer ==> !IsValidPointer(MaxUserPointer, base, moduleSize)
  {
  }

  /** `bytes.index(0)`: the position of the first zero byte, if there is one. */
  function FirstZero(s: seq<byte>): (r: Option<nat>)
    ensures r.Some? ==> r.value < |s| && s[r.value] == 0
    ensures r.Some? ==> forall i :: 0 <= i < r.value ==> s[i] != 0
    ensures r.None? ==> forall i :: 0 <= i < |s| ==> s[i] != 0
    decreases |s|
  {
    if s == [] then None
    else if s[0] == 0 then Some(0)
    else match FirstZero(s[1..])
      case None => None
      case Some(k) => Some(k + 1)
  }

  /**
   * `read_cstring`: the printable, non-empty text before the first zero byte
   * of a `maxLen`-byte window, or None.
   */
  function ReadCString(mem: MemoryReader, address: int, maxLen: nat := CStringMax): (r: Option<Text>)
    ensures address < MinPointer ==> r.None?
    ensures mem.ReadBytes(address, maxLen).None? ==> r.None?
    ensures mem.ReadBytes(address, maxLen).Some? && FirstZero(mem.ReadBytes(address, maxLen).value).None? ==> r.None?
    ensures r.Some? ==> |r.value| > 0 && |r.value| < maxLen && IsPrintableText(r.value)
    ensures r.Some? ==> forall i :: 0 <= i < |r.value| ==> r.value[i] != 0
  {
    if address == 0 || address < MinPointer then None
    else
      var data := mem.ReadBytes(address, maxLen);
      if data.None? || |data.value| == 0 then None
      else match FirstZero(data.value)
        case None => None
        case Some(nul) =>
          var s := AsciiDecode(data.value[..nul]);
          if IsPrintableText(s) && |s| > 0 then
            NoZeroBeforeNul(data.value, nul, s);
            Some(s)
          else None
  }

  lemma NoZeroBeforeNul(data: seq<byte>, nul: nat, s: Text)
    requires nul < |data| && forall i :: 0 <= i < nul ==> data[i] != 0
    requires s == AsciiDecode(data[..nul])
    ensures forall i :: 0 <= i < |s| ==> s[i] != 0
  {
    forall i | 0 <= i < |s| ensures s[i] != 0 {
      AsciiDecodeFrom(data[..nul], i);
    }
  }

  /** On ASCII data the decoded C string is exactly the bytes before the first zero. */
  lemma CStringIsPrefixBeforeNul(mem: MemoryReader, address: int, maxLen: nat)
    requires ReadCString(mem, address, maxLen).Some?
    ensures mem.ReadBytes(address, maxLen).Some?
    ensures FirstZero(mem.ReadBytes(address, maxLen).value).Some?
    ensures var data := mem.ReadBytes(address, maxLen).value;
            var nul := FirstZero(data).value;
            (forall i :: 0 <= i < nul ==> data[i] < 0x80) ==>
              ReadCString(mem, address, maxLen).value == seq(nul, i requires 0 <= i < nul => data[i] as CodePoint)
  {
    var data := mem.ReadBytes(address, maxLen).value;
    var nul := FirstZero(data).value;
    if forall i :: 0 <= i < nul ==> data[i] < 0x80 {
      AsciiDecodeOfAscii(data[..nul]);
    }
  }

  /**
   * Both directions of `read_cstring`: a string comes back exactly when the
   * address is at least 0x10000, the window reads, it holds a zero byte, and
   * the decoded text before that zero is non-empty and printable; the string
   * is then that text.
   */
  lemma ReadCStringCases(mem: MemoryReader, address: int, maxLen: nat)
    ensures var data := mem.ReadBytes(address, maxLen);
            (address >= MinPointer && data.Some? && FirstZero(data.value).Some? &&
             var s := AsciiDecode(data.value[..FirstZero(data.value).value]);
             |s| > 0 && IsPrintableText(s))
            ==> ReadCString(mem, address, maxLen) == Some(AsciiDecode(data.value[..FirstZero(data.value).value]))
    ensures var data := mem.ReadBytes(address, maxLen);
            ReadCString(mem, address, maxLen).Some? ==>
              && address >= MinPointer && data.Some? && FirstZero(data.value).Some?
              && ReadCString(mem, address, maxLen).value == AsciiDecode(data.value[..FirstZero(data.value).value])
  {
  }

  /**
   * The UTF-32 fallback: 4-byte little-endian words up to the first zero
   * word; words that are not code points (0x110000 and above) are skipped.
   */
  function Utf32Prefix(buf: seq<byte>): (t: Text)
    ensures forall i :: 0 <= i < |t| ==> t[i] != 0
    ensures |t| <= |buf| / 4
    decreases |buf|
  {
    if |buf| < 4 then []
    else
      var v := U32(buf, 0);
      if v == 0 then []
      else (if v < 0x11_0000 then [v as CodePoint] else []) + Utf32Prefix(buf[4..])
  }

  /** The complete 4-byte words of a buffer, in order. */
  function Words(buf: seq<byte>): (ws: seq<nat>)
    ensures |ws| == |buf| / 4
    decreases |buf|
  {
    if |buf| < 4 then [] else [U32(buf, 0)] + Words(buf[4..])
  }

  function UntilZero(ws: seq<nat>): (r: seq<nat>)
  {
    if ws == [] || ws[0] == 0 then [] else [ws[0]] + UntilZero(ws[1..])
  }

  function Scalars(ws: seq<nat>): (r: Text)
  {
    if ws == [] then [] else (if ws[0] < 0x11_0000 then [ws[0] as CodePoint] else []) + Scalars(ws[1..])
  }

  /** The fallback decoder is: words, cut at the first zero word, invalid words dropped. */
  lemma {:induction false} Utf32PrefixIsFilteredWords(buf: seq<byte>)
    ensures Utf32Prefix(buf) == Scalars(UntilZero(Words(buf)))
    decreases |buf|
  {
    if |buf| >= 4 && U32(buf, 0) != 0 {
      Utf32PrefixIsFilteredWords(buf[4..]);
    }
  }

  /** The worked example: code points 'S', 'p', then a zero word, decode to "Sp". */
  lemma Utf32Example()
    ensures Utf32Prefix([0x53, 0, 0, 0, 0x70, 0, 0, 0, 0, 0, 0, 0, 0x41, 0, 0, 0]) == Chars("Sp")
  {
    var buf: seq<byte> := [0x53, 0, 0, 0, 0x70, 0, 0, 0, 0, 0, 0, 0, 0x41, 0, 0, 0];
    assert U32(buf, 0) == 0x53;
    assert U32(buf[4..], 0) == 0x70;
    assert U32(buf[4..][4..], 0) == 0;
  }

  /** The narrow representation: a plausible pointer to a C string. */
  function NarrowName(mem: MemoryReader, cnamePtr: int, base: int, moduleSize: int): Option<Text>
  {
    if IsValidPointer(cnamePtr, base, moduleSize) then ReadCString(mem, cnamePtr) else None
  }

  /** The wide representation: a plausible pointer to a UTF-32 array. */
  function WideName(mem: MemoryReader, namePtr: int, base: int, moduleSize: int): Option<Text>
  {
    if !IsValidPointer(namePtr, base, moduleSize) then None
    else match mem.ReadBytes(namePtr, WideWindow)
      case None => None
      case Some(buf) =>
        var chars := Utf32Prefix(buf);
        if |buf| > 0 && |chars| > 0 then Some(chars) else None
  }

  /**
   * `read_stringname`: decode the StringName at `ptr`, preferring the narrow
   * pointer (header offset 8) and falling back to the wide one (offset 16).
   */
  function StringName(mem: MemoryReader, ptr: int, base: int, moduleSize: int): (r: Option<Text>)
    ensures r.Some? ==> |r.value| > 0
    ensures !IsValidPointer(ptr, base, moduleSize) ==> r.None?
    ensures mem.ReadBytes(ptr, StringNameHeader).None? ==> r.None?
    ensures IsValidPointer(ptr, base, moduleSize) && mem.ReadBytes(ptr, StringNameHeader).Some? ==>
              var header := mem.ReadBytes(ptr, StringNameHeader).value;
              var narrow := NarrowName(mem, U64(header, 8), base, moduleSize);
              r == if narrow.Some? then narrow else WideName(mem, U64(header, 16), base, moduleSize)
  {
    if !IsValidPointer(ptr, base, moduleSize) then None
    else
      var header := mem.ReadBytes(ptr, StringNameHeader);
      if header.None? || |header.value| < 24 then None
      else
        var narrow := NarrowName(mem, U64(header.value, 8), base, moduleSize);
        if narrow.Some? && |narrow.value| > 0 then narrow
        else WideName(mem, U64(header.value, 16), base, moduleSize)
  }

  /** One step of the fallback decoder, at word offset `i` of the buffer. */
  lemma Utf32PrefixAt(buf: seq<byte>, i: nat)
    requires i <= |buf|
    ensures i + 4 > |buf| ==> Utf32Prefix(buf[i..]) == []
    ensures i + 4 <= |buf| && U32(buf, i) == 0 ==> Utf32Prefix(buf[i..]) == []
    ensures i + 4 <= |buf| && U32(buf, i) != 0 ==>
              Utf32Prefix(buf[i..]) ==
                (if U32(buf, i) < 0x11_0000 then [U32(buf, i) as CodePoint] else []) + Utf32Prefix(buf[i + 4..])
  {
    if i + 4 <= |buf| {
      assert buf[i..][0..4] == buf[i..i + 4];
      assert buf[i..][4..] == buf[i + 4..];
    }
  }

  /** The loop of the UTF-32 fallback: collect code points word by word. */
  method DecodeUtf32(buf: seq<byte>) returns (chars: Text)
    ensures chars == Utf32Prefix(buf)
  {
    chars := [];
    var i := 0;
    while i < |buf|
      invariant 0 <= i <= |buf|
      invariant chars + Utf32Prefix(buf[i..]) == Utf32Prefix(buf)
    {
      Utf32PrefixAt(buf, i);
      if i + 4 > |buf| {
        break;
      }
      var val := U32(buf, i);
      if val == 0 {
        break;
      }
      if val < 0x11_0000 {
        chars := chars + [val];
      }
      i := i + 4;
    }
    Utf32PrefixAt(buf, i);
  }

  /** `read_stringname` as the source runs it, with the UTF-32 fallback as a loop. */
  method ReadStringName(mem: MemoryReader, ptr: int, base: int, moduleSize: int) returns (r: Option<Text>)
    ensures r == StringName(mem, ptr, base, moduleSize)
  {
    if !IsValidPointer(ptr, base, moduleSize) {
      return None;
    }
    var header := mem.ReadBytes(ptr, StringNameHeader);
    if header.None? || |header.value| < 24 {
      return None;
    }
    var cnamePtr := U64(header.value, 8);
    var namePtr := U64(header.value, 16);
    if IsValidPointer(cnamePtr, base, moduleSize) {
      var name := ReadCString(mem, cnamePtr);
      if name.Some? && |name.value| > 0 {
        return name;
      }
    }
    if IsValidPointer(namePtr, base, moduleSize) {
      var data := mem.ReadBytes(namePtr, WideWindow);
      if data.Some? && |data.value| > 0 {
        var chars := DecodeUtf32(data.value);
        if |chars| > 0 {
          return Some(chars);
        }
      }
    }
    return None;
  }
}
