/**
 * The class map: `dump_all_classes` walks the registry's element list,
 * decodes the ClassInfo in each element and keys the classes by name.
 */
module ClassMap {
  import opened Wrappers
  import opened Bytes
  import opened Strings
  import opened Memory
  import opened Constants
  import opened Chains
  import opened Records
  import opened Parser
  import opened Registry

  /** A ClassInfo starts 24 bytes into its class-map element. */
  const ClassInfoInElement := 24

  /** The class a ClassInfo window describes, when its name decodes to a non-empty string. */
  function ClassFromInfo(mem: MemoryReader, ci: seq<byte>, base: int, moduleSize: int): (r: seq<ClassRecord>)
    requires |ci| == ParserClassInfoWindow
    ensures |r| <= 1
    ensures forall c :: c in r ==> |c.name| > 0 && c.size.None?
  {
    var name := StringName(mem, U64(ci, ClassInfoNameOffset), base, moduleSize);
    var parent := StringName(mem, U64(ci, ClassInfoInheritsOffset), base, moduleSize);
    if name.Some? && |name.value| > 0 then
      [ClassRecord(name.value, parent, ClassMethods(mem, ci, base, moduleSize),
                   ClassProperties(mem, ci, base, moduleSize), None)]
    else []
  }

  /** The class the class-map element at `elementAddr` contributes: the one its ClassInfo, 24 bytes in, describes. */
  function ClassAt(mem: MemoryReader, elementAddr: int, base: int, moduleSize: int): (r: seq<ClassRecord>)
    ensures |r| <= 1
    ensures forall c :: c in r ==> |c.name| > 0 && c.size.None?
  {
    match mem.ReadBytes(elementAddr + ClassInfoInElement, ParserClassInfoWindow)
    case None => []
    case Some(ci) => ClassFromInfo(mem, ci, base, moduleSize)
  }

  function ClassDecoder(mem: MemoryReader, base: int, moduleSize: int): Node -> seq<ClassRecord>
  {
    (n: Node) => ClassAt(mem, n.addr, base, moduleSize)
  }

  /** How `dump_all_classes` reads the class map's header. */
  datatype HeaderOutcome =
    | EmptyMap                      // no head element: `return {}`
    | MapAt(head: nat, size: nat)   // walk from `head` for at most `size + 100` steps
    | RaisesTypeError               // `None + 100` in the loop condition

  /**
   * The header read as written: the head pointer at +16 and the element count
   * at +36 are read separately, and only the head pointer is tested, so a
   * readable non-zero head with an unreadable count reaches `size + 100`
   * with `size` None.
   */
  function HeaderAsWritten(mem: MemoryReader, addr: int): HeaderOutcome
  {
    var head := mem.ReadQword(addr + HeaderHeadOffset);
    var size := mem.ReadDword(addr + HeaderSizeOffset);
    if head.None? || head.value == 0 then EmptyMap
    else if size.None? then RaisesTypeError
    else MapAt(head.value, size.value)
  }

  /** A registry whose head qword is mapped but whose count dword is not makes the decoder raise. */
  lemma HeaderAsWrittenRaises()
    ensures HeaderAsWritten(MemoryReader(map[16 := 1, 17 := 1, 18 := 1, 19 := 1, 20 := 1, 21 := 1, 22 := 1, 23 := 1]), 0) == RaisesTypeError
  {
    var mem := MemoryReader(map[16 := 1, 17 := 1, 18 := 1, 19 := 1, 20 := 1, 21 := 1, 22 := 1, 23 := 1]);
    var w := seq(8, i requires 0 <= i < 8 => mem.image[16 + i]);
    assert w[0] == 1;
    assert U64(w, 0) != 0;
    assert mem.ReadQword(16) == Some(U64(w, 0));
    assert 36 !in mem.image;
    assert mem.ReadDword(36).None?;
  }

  /** The header as intended: an unreadable count means there is no class map to walk. */
  function Header(mem: MemoryReader, addr: int): (r: HeaderOutcome)
    ensures !r.RaisesTypeError?
    ensures !HeaderAsWritten(mem, addr).RaisesTypeError? ==> r == HeaderAsWritten(mem, addr)
    ensures r.MapAt? <==> mem.ReadBytes(addr + HeaderHeadOffset, 8).Some? && mem.ReadBytes(addr + HeaderSizeOffset, 4).Some?
                          && mem.ReadQword(addr + HeaderHeadOffset) != Some(0)
  {
    var head := mem.ReadQword(addr + HeaderHeadOffset);
    var size := mem.ReadDword(addr + HeaderSizeOffset);
    if head.None? || head.value == 0 || size.None? then EmptyMap
    else MapAt(head.value, size.value)
  }

  /** The classes a walk from the header's head decodes, in walk order (repeats included). */
  function WalkRecords(mem: MemoryReader, decode: Node -> seq<ClassRecord>, h: HeaderOutcome): seq<ClassRecord>
  {
    if h.MapAt? then Collect(decode, Chain(mem, h.head, BucketNodeSize, h.size + ClassSlack))
    else []
  }

  /** The classes `dump_all_classes` meets, in walk order. */
  function ClassRecords(mem: MemoryReader, addr: int, base: int, moduleSize: int): seq<ClassRecord>
  {
    WalkRecords(mem, ClassDecoder(mem, base, moduleSize), Header(mem, addr))
  }

  /** `dump_all_classes`: the decoded classes keyed by name. */
  function AllClasses(mem: MemoryReader, addr: int, base: int, moduleSize: int): map<Text, ClassRecord>
  {
    Register(map[], ClassRecords(mem, addr, base, moduleSize))
  }

  /** The walk a readable header starts. */
  lemma WalkRecordsMapAt(mem: MemoryReader, decode: Node -> seq<ClassRecord>, head: nat, size: nat)
    ensures WalkRecords(mem, decode, MapAt(head, size)) == Collect(decode, Chain(mem, head, BucketNodeSize, size + ClassSlack))
  {
  }

  /** A readable, non-zero head and a readable count make a walkable header. */
  lemma HeaderMapAt(mem: MemoryReader, addr: int, head: nat, size: nat)
    requires mem.ReadQword(addr + HeaderHeadOffset) == Some(head) && head != 0
    requires mem.ReadDword(addr + HeaderSizeOffset) == Some(size)
    ensures Header(mem, addr) == MapAt(head, size)
  {
  }

  /** Without a readable, non-zero head and a readable count, the dictionary is empty. */
  lemma AllClassesWithoutHeader(mem: MemoryReader, addr: int, base: int, moduleSize: int)
    requires var head := mem.ReadQword(addr + HeaderHeadOffset);
             head.None? || head.value == 0 || mem.ReadDword(addr + HeaderSizeOffset).None?
    ensures AllClasses(mem, addr, base, moduleSize) == map[]
  {
    assert Header(mem, addr) == EmptyMap;
    assert ClassRecords(mem, addr, base, moduleSize) == [];
  }

  /** Decode one ClassInfo window: its name, its parent's name, its methods and its properties. */
  method DecodeClassInfo(mem: MemoryReader, ci: seq<byte>, base: int, moduleSize: int) returns (found: seq<ClassRecord>)
    requires |ci| == ParserClassInfoWindow
    ensures found == ClassFromInfo(mem, ci, base, moduleSize)
  {
    found := [];
    var namePtr := U64(ci, ClassInfoNameOffset);
    var inheritsPtr := U64(ci, ClassInfoInheritsOffset);
    var className := ReadStringName(mem, namePtr, base, moduleSize);
    var parentName := ReadStringName(mem, inheritsPtr, base, moduleSize);
    if className.Some? && |className.value| > 0 {
      var methods := DumpClassMethods(mem, ci, base, moduleSize);
      var properties := DumpClassProperties(mem, ci, base, moduleSize);
      found := [ClassRecord(className.value, parentName, methods, properties, None)];
    }
  }

  /** The body of the class-map walk for one element: read the ClassInfo 24 bytes in and decode it. */
  method DecodeClassElement(mem: MemoryReader, base: int, moduleSize: int, current: int) returns (found: seq<ClassRecord>)
    ensures found == ClassAt(mem, current, base, moduleSize)
  {
    found := [];
    var classInfoAddr := current + ClassInfoInElement;
    var ciData := mem.ReadBytes(classInfoAddr, ParserClassInfoWindow);
    if ciData.Some? && |ciData.value| > 0 {
      found := DecodeClassInfo(mem, ciData.value, base, moduleSize);
    }
  }

  /**
   * The loop of `dump_all_classes`: from `head`, at most `bound` elements,
   * each decoded class stored under its name, a later one replacing an
   * earlier one of the same name.
   */
  method WalkClasses(mem: MemoryReader, hashmapAddr: int, head: nat, size: nat, base: int, moduleSize: int)
    returns (classes: map<Text, ClassRecord>)
    requires Header(mem, hashmapAddr) == MapAt(head, size)
    ensures classes == AllClasses(mem, hashmapAddr, base, moduleSize)
  {
    var bound := size + ClassSlack;
    ghost var decode := ClassDecoder(mem, base, moduleSize);
    WalkRecordsMapAt(mem, decode, head, size);
    ghost var records := ClassRecords(mem, hashmapAddr, base, moduleSize);
    assert records == Collect(decode, Chain(mem, head, BucketNodeSize, bound));
    ghost var total := Register(map[], records);
    classes := map[];
    var current := head;
    var count := 0;
    ghost var fuel: nat := bound;
    while current != 0 && count < bound
      invariant count <= bound && fuel == bound - count
      invariant Register(classes, Collect(decode, Chain(mem, current, BucketNodeSize, fuel))) == total
      decreases bound - count
    {
      var elemData := mem.ReadBytes(current, BucketNodeSize);
      if elemData.None? || |elemData.value| == 0 {
        break;
      }
      var nextPtr := U64(elemData.value, 0);
      ghost var nextFuel: nat := fuel - 1;
      RegisterWalkStep(decode, mem, current, BucketNodeSize, fuel, nextFuel, classes, total);
      var found := DecodeClassElement(mem, base, moduleSize, current);
      assert found == decode(Node(current, elemData.value));
      RegisterAtMostOne(classes, found);
      if |found| == 1 {
        classes := classes[found[0].name := found[0]];
      }
      current := nextPtr;
      count := count + 1;
      fuel := nextFuel;
      if nextPtr == 0 {
        break;
      }
    }
    RegisterWalkDone(decode, mem, current, BucketNodeSize, fuel, classes, total);
  }

  /** `dump_all_classes` over the intended header: read the header, then walk the class map. */
  method DumpAllClasses(mem: MemoryReader, hashmapAddr: int, base: int, moduleSize: int)
    returns (classes: map<Text, ClassRecord>)
    ensures classes == AllClasses(mem, hashmapAddr, base, moduleSize)
  {
    var headElement := mem.ReadQword(hashmapAddr + HeaderHeadOffset);
    var size := mem.ReadDword(hashmapAddr + HeaderSizeOffset);
    if headElement.None? || headElement.value == 0 || size.None? {
      AllClassesWithoutHeader(mem, hashmapAddr, base, moduleSize);
      return map[];
    }
    HeaderMapAt(mem, hashmapAddr, headElement.value, size.value);
    classes := WalkClasses(mem, hashmapAddr, headElement.value, size.value, base, moduleSize);
  }
}
