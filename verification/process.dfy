/**
 * `get_pe_sections`: the section table of the module image, read through
 * the DOS header, the PE signature, the COFF file header (section 3.3 of
 * the Microsoft PE/COFF Specification) and the 40-byte section headers
 * (section 4 of the same specification).
 */
module Process {
  import opened Wrappers
  import opened Bytes
  import opened Strings
  import opened Memory

  /** Bytes read for the DOS header; `e_lfanew` sits in its last four. */
  const DosHeaderSize := 64
  const LfanewOffset := 60
  /** Bytes read at `e_lfanew`: the signature, the COFF header and the start of the optional header. */
  const PeHeaderSize := 264
  /** `NumberOfSections` and `SizeOfOptionalHeader`, counted from the signature. */
  const NumberOfSectionsOffset := 6
  const SizeOfOptionalHeaderOffset := 20
  /** The signature (4 bytes) plus the COFF file header (20 bytes). */
  const OptionalHeaderStart := 24
  /** One section header: Name[8], VirtualSize, VirtualAddress, then fields the dumper ignores. */
  const SectionHeaderSize := 40
  const SectionNameSize := 8
  const VirtualSizeOffset := 8
  const VirtualAddressOffset := 12

  /** One entry of the result: `{'name': …, 'va': …, 'size': …}`. */
  datatype Section = Section(name: Text, va: int, size: int)

  /** Where the section table starts and how many headers it declares. */
  datatype SectionTable = SectionTable(start: int, count: nat)

  /** `b.rstrip(b'\x00')`: drop the trailing zero bytes. */
  function StripTrailingNul(b: seq<byte>): (r: seq<byte>)
    ensures |r| <= |b| && r == b[..|r|]
    ensures forall i :: |r| <= i < |b| ==> b[i] == 0
    ensures r == [] || r[|r| - 1] != 0
  {
    if b == [] then []
    else if b[|b| - 1] == 0 then StripTrailingNul(b[..|b| - 1])
    else b
  }

  /** The section name: the eight name bytes, trailing zeros stripped, decoded as ASCII (other bytes ignored). */
  function SectionName(raw: seq<byte>): (name: Text)
    requires |raw| == SectionHeaderSize
    ensures |name| <= SectionNameSize
    ensures forall i :: 0 <= i < |name| ==> name[i] < 0x80
  {
    AsciiDecode(StripTrailingNul(raw[..SectionNameSize]))
  }

  /** The entry for one 40-byte section header of a module loaded at `base`. */
  function SectionOf(base: int, raw: seq<byte>): Section
    requires |raw| == SectionHeaderSize
  {
    Section(SectionName(raw), base + U32(raw, VirtualAddressOffset), U32(raw, VirtualSizeOffset))
  }

  /** The DOS and PE headers: None unless both signatures match. */
  function Headers(mem: MemoryReader, base: int): (r: Option<SectionTable>)
    ensures r.Some? ==> mem.ReadBytes(base, DosHeaderSize).Some?
    ensures r.Some? ==> mem.ReadBytes(base, DosHeaderSize).value[..2] == [0x4D, 0x5A]
  {
    var dos := mem.ReadBytes(base, DosHeaderSize);
    if dos.None? || |dos.value| == 0 || dos.value[..2] != [0x4D, 0x5A] then None
    else
      var lfanew := U32(dos.value, LfanewOffset);
      var pe := mem.ReadBytes(base + lfanew, PeHeaderSize);
      if pe.None? || |pe.value| == 0 || pe.value[..4] != [0x50, 0x45, 0x00, 0x00] then None
      else
        var count := U16(pe.value, NumberOfSectionsOffset);
        var optionalSize := U16(pe.value, SizeOfOptionalHeaderOffset);
        Some(SectionTable(base + lfanew + OptionalHeaderStart + optionalSize, count))
  }

  /** The address of section header `k` of the table at `start`. */
  function SlotAddress(start: int, k: nat): int
  {
    start + 40 * k
  }

  /** Reading section header `k` of the table at `start`. */
  function SlotReader(mem: MemoryReader, start: int): nat -> Option<seq<byte>>
  {
    (k: nat) => mem.ReadBytes(SlotAddress(start, k), SectionHeaderSize)
  }

  /** A header read either fails or yields the whole 40 bytes. */
  ghost predicate WholeHeaders(read: nat -> Option<seq<byte>>)
  {
    forall k :: read(k).Some? ==> |read(k).value| == SectionHeaderSize
  }

  lemma SlotReaderWhole(mem: MemoryReader, start: int)
    ensures WholeHeaders(SlotReader(mem, start))
  {
  }

  /** The entries for the first `n` header reads; a failed read is skipped. */
  function Entries(base: int, read: nat -> Option<seq<byte>>, n: nat): (r: seq<Section>)
    requires WholeHeaders(read)
    ensures |r| <= n
  {
    if n == 0 then []
    else
      Entries(base, read, n - 1)
      + match read(n - 1)
        case None => []
        case Some(raw) => [SectionOf(base, raw)]
  }

  /** What `get_pe_sections` returns. */
  function PeSections(mem: MemoryReader, base: int): (r: seq<Section>)
    ensures Headers(mem, base).None? ==> r == []
    ensures Headers(mem, base).Some? ==> |r| <= Headers(mem, base).value.count
  {
    match Headers(mem, base)
    case None => []
    case Some(t) =>
      SlotReaderWhole(mem, t.start);
      Entries(base, SlotReader(mem, t.start), t.count)
  }

  /** With valid signatures, the result is the entries of the declared table. */
  lemma PeSectionsOfTable(mem: MemoryReader, base: int, start: int, count: nat)
    requires Headers(mem, base) == Some(SectionTable(start, count))
    ensures PeSections(mem, base) == Entries(base, SlotReader(mem, start), count)
  {
  }

  /** `get_pe_sections`: check both signatures, then read the declared section headers. */
  method GetPeSections(mem: MemoryReader, base: int) returns (sections: seq<Section>)
    ensures sections == PeSections(mem, base)
  {
    var dosHeader := mem.ReadBytes(base, DosHeaderSize);
    if dosHeader.None? || |dosHeader.value| == 0 || dosHeader.value[..2] != [0x4D, 0x5A] {
      return [];
    }
    var lfanew := U32(dosHeader.value, LfanewOffset);
    var peHeader := mem.ReadBytes(base + lfanew, PeHeaderSize);
    if peHeader.None? || |peHeader.value| == 0 || peHeader.value[..4] != [0x50, 0x45, 0x00, 0x00] {
      return [];
    }
    var numSections := U16(peHeader.value, NumberOfSectionsOffset);
    var sizeOptHeader := U16(peHeader.value, SizeOfOptionalHeaderOffset);
    var sectionOffset := lfanew + OptionalHeaderStart + sizeOptHeader;
    assert Headers(mem, base) == Some(SectionTable(base + sectionOffset, numSections));
    PeSectionsOfTable(mem, base, base + sectionOffset, numSections);
    sections := ReadSectionTable(mem, base, sectionOffset, numSections);
  }

  /** The loop of `get_pe_sections`: header `i` at `base + sectionOffset + 40 * i`, skipped when unreadable. */
  method ReadSectionTable(mem: MemoryReader, base: int, sectionOffset: int, numSections: nat) returns (sections: seq<Section>)
    ensures sections == Entries(base, SlotReader(mem, base + sectionOffset), numSections)
  {
    ghost var read := SlotReader(mem, base + sectionOffset);
    SlotReaderWhole(mem, base + sectionOffset);
    sections := [];
    for i := 0 to numSections
      invariant sections == Entries(base, read, i)
    {
      var secData := mem.ReadBytes(base + sectionOffset + i * SectionHeaderSize, SectionHeaderSize);
      assert secData == read(i);
      EntriesNext(base, read, i);
      if secData.None? || |secData.value| == 0 {
        continue;
      }
      var name := AsciiDecode(StripTrailingNul(secData.value[..SectionNameSize]));
      var virtualSize := U32(secData.value, VirtualSizeOffset);
      var virtualAddr := U32(secData.value, VirtualAddressOffset);
      assert Section(name, base + virtualAddr, virtualSize) == SectionOf(base, secData.value);
      sections := sections + [Section(name, base + virtualAddr, virtualSize)];
    }
  }

  /** One more read: its entry, if it succeeds, goes after the earlier ones. */
  lemma EntriesNext(base: int, read: nat -> Option<seq<byte>>, i: nat)
    requires WholeHeaders(read)
    ensures Entries(base, read, i + 1)
            == Entries(base, read, i) + (if read(i).Some? then [SectionOf(base, read(i).value)] else [])
  {
  }

  /** Exactly `n` entries come back exactly when each of the `n` header reads succeeds. */
  lemma {:induction false} EntriesCount(base: int, read: nat -> Option<seq<byte>>, n: nat)
    requires WholeHeaders(read)
    ensures |Entries(base, read, n)| == n <==> forall k :: 0 <= k < n ==> read(k).Some?
  {
    if n > 0 {
      EntriesCount(base, read, n - 1);
      if |Entries(base, read, n)| == n {
        assert read(n - 1).Some?;
      }
    }
  }

  /** With every read succeeding, entry `k` is section header `k`, in table order. */
  lemma {:induction false} EntriesInOrder(base: int, read: nat -> Option<seq<byte>>, n: nat)
    requires WholeHeaders(read)
    requires forall k :: 0 <= k < n ==> read(k).Some?
    ensures var r := Entries(base, read, n);
            |r| == n && forall k :: 0 <= k < n ==> r[k] == SectionOf(base, read(k).value)
  {
    if n > 0 {
      EntriesInOrder(base, read, n - 1);
    }
  }

  /** Every entry comes from a successful read among the first `n`. */
  lemma {:induction false} EntriesFrom(base: int, read: nat -> Option<seq<byte>>, n: nat, s: Section)
    requires WholeHeaders(read)
    requires s in Entries(base, read, n)
    ensures exists k :: 0 <= k < n && read(k).Some? && s == SectionOf(base, read(k).value)
  {
    if s in Entries(base, read, n - 1) {
      EntriesFrom(base, read, n - 1, s);
    } else {
      assert read(n - 1).Some? && s == SectionOf(base, read(n - 1).value);
    }
  }

  /**
   * With valid signatures and every declared header readable, the result
   * has one entry per header, in table order.
   */
  lemma PeSectionsInOrder(mem: MemoryReader, base: int)
    requires Headers(mem, base).Some?
    requires var t := Headers(mem, base).value;
             forall k :: 0 <= k < t.count ==> mem.ReadBytes(SlotAddress(t.start, k), SectionHeaderSize).Some?
    ensures var t := Headers(mem, base).value;
            var r := PeSections(mem, base);
            |r| == t.count &&
            forall k :: 0 <= k < t.count ==>
              r[k] == SectionOf(base, mem.ReadBytes(SlotAddress(t.start, k), SectionHeaderSize).value)
  {
    var t := Headers(mem, base).value;
    var read := SlotReader(mem, t.start);
    SlotReaderWhole(mem, t.start);
    assert forall k :: 0 <= k < t.count ==> read(k).Some?;
    EntriesInOrder(base, read, t.count);
  }

  /** A missing `MZ` signature yields no sections. */
  lemma NoDosSignature(mem: MemoryReader, base: int)
    requires mem.ReadBytes(base, DosHeaderSize).None? || mem.ReadBytes(base, DosHeaderSize).value[..2] != [0x4D, 0x5A]
    ensures PeSections(mem, base) == []
  {
  }

  /**
   * The header half of `get_pe_sections`: a table is found exactly when the
   * 64-byte DOS header reads and starts with `MZ` and the 264 bytes at
   * `base + e_lfanew` (the u32 at DOS offset 60) read and start with
   * `PE\0\0`. The table then holds `NumberOfSections` (the u16 at PE offset 6)
   * headers starting `24 + SizeOfOptionalHeader` (the u16 at PE offset 20)
   * bytes after the signature.
   */
  lemma HeadersLocateTable(mem: MemoryReader, base: int)
    ensures Headers(mem, base).Some? <==>
              var dos := mem.ReadBytes(base, DosHeaderSize);
              && dos.Some? && dos.value[..2] == [0x4D, 0x5A]
              && var lfanew := LittleEndian(dos.value[LfanewOffset..LfanewOffset + 4]);
                 var pe := mem.ReadBytes(base + lfanew, PeHeaderSize);
                 pe.Some? && pe.value[..4] == [0x50, 0x45, 0x00, 0x00]
    ensures Headers(mem, base).Some? ==>
              var dos := mem.ReadBytes(base, DosHeaderSize).value;
              var lfanew := LittleEndian(dos[LfanewOffset..LfanewOffset + 4]);
              var pe := mem.ReadBytes(base + lfanew, PeHeaderSize).value;
              Headers(mem, base).value ==
                SectionTable(base + lfanew + OptionalHeaderStart
                               + LittleEndian(pe[SizeOfOptionalHeaderOffset..SizeOfOptionalHeaderOffset + 2]),
                             LittleEndian(pe[NumberOfSectionsOffset..NumberOfSectionsOffset + 2]))
  {
    var dos := mem.ReadBytes(base, DosHeaderSize);
    if dos.Some? {
      U32IsLittleEndian(dos.value, LfanewOffset);
      var lfanew := U32(dos.value, LfanewOffset);
      var pe := mem.ReadBytes(base + lfanew, PeHeaderSize);
      if pe.Some? {
        U16IsLittleEndian(pe.value, NumberOfSectionsOffset);
        U16IsLittleEndian(pe.value, SizeOfOptionalHeaderOffset);
      }
    }
  }

  /** A readable `MZ` header whose `e_lfanew` names no readable `PE\0\0` signature yields no sections. */
  lemma NoPeSignature(mem: MemoryReader, base: int)
    requires mem.ReadBytes(base, DosHeaderSize).Some?
    requires var dos := mem.ReadBytes(base, DosHeaderSize).value;
             var pe := mem.ReadBytes(base + LittleEndian(dos[LfanewOffset..LfanewOffset + 4]), PeHeaderSize);
             pe.None? || pe.value[..4] != [0x50, 0x45, 0x00, 0x00]
    ensures PeSections(mem, base) == []
  {
    HeadersLocateTable(mem, base);
  }

  /**
   * With valid signatures, the sections are the entries read from the table
   * at `base + e_lfanew + 24 + SizeOfOptionalHeader`, `NumberOfSections` of them.
   */
  lemma PeSectionsLocated(mem: MemoryReader, base: int)
    requires var dos := mem.ReadBytes(base, DosHeaderSize);
             && dos.Some? && dos.value[..2] == [0x4D, 0x5A]
             && var pe := mem.ReadBytes(base + LittleEndian(dos.value[LfanewOffset..LfanewOffset + 4]), PeHeaderSize);
                pe.Some? && pe.value[..4] == [0x50, 0x45, 0x00, 0x00]
    ensures var dos := mem.ReadBytes(base, DosHeaderSize).value;
            var lfanew := LittleEndian(dos[LfanewOffset..LfanewOffset + 4]);
            var pe := mem.ReadBytes(base + lfanew, PeHeaderSize).value;
            var start := base + lfanew + OptionalHeaderStart
                           + LittleEndian(pe[SizeOfOptionalHeaderOffset..SizeOfOptionalHeaderOffset + 2]);
            var count := LittleEndian(pe[NumberOfSectionsOffset..NumberOfSectionsOffset + 2]);
            WholeHeaders(SlotReader(mem, start)) && PeSections(mem, base) == Entries(base, SlotReader(mem, start), count)
  {
    HeadersLocateTable(mem, base);
    var t := Headers(mem, base).value;
    SlotReaderWhole(mem, t.start);
    PeSectionsOfTable(mem, base, t.start, t.count);
  }

  /** An entry's address and size are the little-endian VirtualAddress (offset by the image base) and VirtualSize. */
  lemma SectionFields(base: int, raw: seq<byte>)
    requires |raw| == SectionHeaderSize
    ensures SectionOf(base, raw).va == base + LittleEndian(raw[VirtualAddressOffset..VirtualAddressOffset + 4])
    ensures SectionOf(base, raw).size == LittleEndian(raw[VirtualSizeOffset..VirtualSizeOffset + 4])
  {
    U32IsLittleEndian(raw, VirtualAddressOffset);
    U32IsLittleEndian(raw, VirtualSizeOffset);
  }

  /** An ASCII name is the name bytes up to the zero padding, and does not end in a zero. */
  lemma AsciiSectionName(raw: seq<byte>)
    requires |raw| == SectionHeaderSize
    requires forall i :: 0 <= i < SectionNameSize ==> raw[i] < 0x80
    ensures var stripped := StripTrailingNul(raw[..SectionNameSize]);
            SectionName(raw) == seq(|stripped|, i requires 0 <= i < |stripped| => stripped[i] as CodePoint)
    ensures SectionName(raw) == [] || SectionName(raw)[|SectionName(raw)| - 1] != 0
  {
    var stripped := StripTrailingNul(raw[..SectionNameSize]);
    assert forall i :: 0 <= i < |stripped| ==> stripped[i] == raw[i];
    AsciiDecodeOfAscii(stripped);
  }
}
