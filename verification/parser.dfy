/**
 * The registry decoder for one class: method binds and the per-class method
 * and property lists, each a bounded walk over a linked element list.
 */
module Parser {
  import opened Wrappers
  import opened Bytes
  import opened Strings
  import opened Memory
  import opened Constants
  import opened Chains
  import opened Records

  const BucketNodeSize := 32
  const MethodBindSize := 80
  const PropertyNodeSize := 80
  /** An argument count must lie in [0, MaxArgCount) for the type array to be read. */
  const MaxArgCount := 30
  /** Extra steps allowed beyond a nested map's declared size. */
  const NestedSlack := 10
  /** Extra steps allowed beyond the class map's declared size. */
  const ClassSlack := 100

  // ---------------------------------------------------------------- parse_method

  /** The return type and argument types read from the type array, or (0, []) when it is not read. */
  function Signature(mem: MemoryReader, argTypesPtr: int, argCount: int, base: int, moduleSize: int): (int, seq<int>)
  {
    if IsValidPointer(argTypesPtr, base, moduleSize) && 0 <= argCount < MaxArgCount then
      match mem.ReadBytes(argTypesPtr, (argCount + 1) * 4)
      case None => (0, [])
      case Some(t) =>
        if |t| > 0 && |t| >= (argCount + 1) * 4 then
          (I32(t, 0), seq(argCount, i requires 0 <= i < argCount => I32(t, (i + 1) * 4)))
        else (0, [])
    else (0, [])
  }

  /** `parse_method`: the MethodBind at `addr`, or None when it cannot be read or has no name. */
  function MethodAt(mem: MemoryReader, addr: int, base: int, moduleSize: int): Option<MethodRecord>
  {
    match mem.ReadBytes(addr, MethodBindSize)
    case None => None
    case Some(data) =>
      if |data| == 0 then None
      else
        var name := StringName(mem, U64(data, 16), base, moduleSize);
        if name.None? || |name.value| == 0 then None
        else
          var flags := U32(data, 56);
          var argCount := I32(data, 52);
          var sig := Signature(mem, U64(data, 64), argCount, base, moduleSize);
          Some(MethodRecord(
            name := name.value,
            methodId := I32(data, 8),
            argCount := argCount,
            defaultArgCount := I32(data, 48),
            isStatic := HasFlag(flags, 0x1),
            isConst := HasFlag(flags, 0x100),
            hasReturn := HasFlag(flags, 0x1_0000),
            returnType := sig.0,
            argTypes := sig.1))
  }

  /**
   * What a decoded method is, field by field, in terms of the 80-byte record:
   * it exists exactly when the record is readable and its name decodes; the
   * flags are the low bits of bytes 56, 57 and 58; the type array is read only
   * for a plausible pointer and a count in [0, 30), and then supplies the
   * return type and exactly `argCount` argument types in order.
   */
  lemma MethodAtFields(mem: MemoryReader, addr: int, base: int, moduleSize: int)
    ensures MethodAt(mem, addr, base, moduleSize).Some? <==>
              mem.ReadBytes(addr, MethodBindSize).Some? &&
              StringName(mem, U64(mem.ReadBytes(addr, MethodBindSize).value, 16), base, moduleSize).Some?
    ensures MethodAt(mem, addr, base, moduleSize).Some? ==>
              var data := mem.ReadBytes(addr, MethodBindSize).value;
              var m := MethodAt(mem, addr, base, moduleSize).value;
              && Some(m.name) == StringName(mem, U64(data, 16), base, moduleSize)
              && m.methodId == I32(data, 8)
              && m.defaultArgCount == I32(data, 48)
              && m.argCount == I32(data, 52)
              && (m.isStatic <==> data[56] % 2 == 1)
              && (m.isConst <==> data[57] % 2 == 1)
              && (m.hasReturn <==> data[58] % 2 == 1)
              && var argTypesPtr := U64(data, 64);
                 if IsValidPointer(argTypesPtr, base, moduleSize) && 0 <= m.argCount < MaxArgCount
                    && mem.ReadBytes(argTypesPtr, (m.argCount + 1) * 4).Some?
                 then
                   var t := mem.ReadBytes(argTypesPtr, (m.argCount + 1) * 4).value;
                   && m.returnType == I32(t, 0)
                   && |m.argTypes| == m.argCount
                   && forall i :: 0 <= i < m.argCount ==> m.argTypes[i] == I32(t, (i + 1) * 4)
                 else m.returnType == 0 && m.argTypes == []
  {
    if MethodAt(mem, addr, base, moduleSize).Some? {
      var data := mem.ReadBytes(addr, MethodBindSize).value;
      FlagBitsAreByteParity(data, 56);
    }
  }

  /** The type-array part of `parse_method`: the argument types are appended in a loop. */
  method ReadSignature(mem: MemoryReader, argTypesPtr: int, argCount: int, base: int, moduleSize: int)
    returns (returnType: int, argTypes: seq<int>)
    ensures (returnType, argTypes) == Signature(mem, argTypesPtr, argCount, base, moduleSize)
  {
    returnType := 0;
    argTypes := [];
    if IsValidPointer(argTypesPtr, base, moduleSize) && 0 <= argCount < MaxArgCount {
      var typesData := mem.ReadBytes(argTypesPtr, (argCount + 1) * 4);
      if typesData.Some? && |typesData.value| > 0 && |typesData.value| >= (argCount + 1) * 4 {
        var t := typesData.value;
        returnType := I32(t, 0);
        for i := 0 to argCount
          invariant argTypes == seq(i, j requires 0 <= j < i => I32(t, (j + 1) * 4))
        {
          argTypes := argTypes + [I32(t, (i + 1) * 4)];
        }
      }
    }
  }

  /** `parse_method` as the source runs it. */
  method ParseMethod(mem: MemoryReader, addr: int, base: int, moduleSize: int) returns (r: Option<MethodRecord>)
    ensures r == MethodAt(mem, addr, base, moduleSize)
  {
    var data := mem.ReadBytes(addr, MethodBindSize);
    if data.None? || |data.value| == 0 {
      return None;
    }
    var d := data.value;
    var methodId := I32(d, 8);
    var namePtr := U64(d, 16);
    var defaultArgCount := I32(d, 48);
    var argCount := I32(d, 52);
    var flags := U32(d, 56);
    var argTypesPtr := U64(d, 64);

    var name := ReadStringName(mem, namePtr, base, moduleSize);
    if name.None? || |name.value| == 0 {
      return None;
    }

    var returnType, argTypes := ReadSignature(mem, argTypesPtr, argCount, base, moduleSize);
    r := Some(MethodRecord(
      name := name.value,
      methodId := methodId,
      argCount := argCount,
      defaultArgCount := defaultArgCount,
      isStatic := HasFlag(flags, 0x1),
      isConst := HasFlag(flags, 0x100),
      hasReturn := HasFlag(flags, 0x1_0000),
      returnType := returnType,
      argTypes := argTypes));
  }

  // ---------------------------------------------------------------- dump_class_methods

  /** The head pointer of the hash map whose header starts at `mapOffset` of the window. */
  function MapHead(ci: seq<byte>, mapOffset: nat): nat
    requires mapOffset + HeaderSizeOffset + 4 <= |ci|
  {
    U64(ci, mapOffset + HeaderHeadOffset)
  }

  /** The element count of the hash map whose header starts at `mapOffset` of the window. */
  function MapSize(ci: seq<byte>, mapOffset: nat): nat
    requires mapOffset + HeaderSizeOffset + 4 <= |ci|
  {
    U32(ci, mapOffset + HeaderSizeOffset)
  }

  /** The method a method-map node contributes: its value pointer's MethodBind, if any. */
  function MethodOfNode(mem: MemoryReader, base: int, moduleSize: int, n: Node): (r: seq<MethodRecord>)
    ensures |r| <= 1
  {
    if |n.data| < BucketNodeSize then []
    else
      var valuePtr := U64(n.data, 24);
      if IsValidPointer(valuePtr, base, moduleSize) then
        match MethodAt(mem, valuePtr, base, moduleSize)
        case None => []
        case Some(m) => [m]
      else []
  }

  function MethodDecoder(mem: MemoryReader, base: int, moduleSize: int): Node -> seq<MethodRecord>
  {
    n => MethodOfNode(mem, base, moduleSize, n)
  }

  /** The method list of a class whose 0x200-byte ClassInfo window is `ci`. */
  function ClassMethods(mem: MemoryReader, ci: seq<byte>, base: int, moduleSize: int): seq<MethodRecord>
    requires |ci| == ParserClassInfoWindow
  {
    var head := MapHead(ci, ClassInfoMethodMapOffset);
    var size := MapSize(ci, ClassInfoMethodMapOffset);
    Collect(MethodDecoder(mem, base, moduleSize), Chain(mem, head, BucketNodeSize, size + NestedSlack))
  }

  /** The body of the method-map walk for one element: parse the MethodBind its value pointer names. */
  method DecodeMethodElement(mem: MemoryReader, base: int, moduleSize: int, current: int, elemData: seq<byte>)
    returns (found: seq<MethodRecord>)
    requires |elemData| == BucketNodeSize
    ensures found == MethodOfNode(mem, base, moduleSize, Node(current, elemData))
  {
    found := [];
    var valuePtr := U64(elemData, 24);
    if IsValidPointer(valuePtr, base, moduleSize) {
      var mb := ParseMethod(mem, valuePtr, base, moduleSize);
      if mb.Some? {
        found := [mb.value];
      }
    }
  }

  /** `dump_class_methods`: walk the method map named by the ClassInfo window. */
  method DumpClassMethods(mem: MemoryReader, ci: seq<byte>, base: int, moduleSize: int) returns (methods: seq<MethodRecord>)
    requires |ci| == ParserClassInfoWindow
    ensures methods == ClassMethods(mem, ci, base, moduleSize)
    ensures |methods| <= MapSize(ci, ClassInfoMethodMapOffset) + NestedSlack
  {
    var mmHead := MapHead(ci, ClassInfoMethodMapOffset);
    var mmSize := MapSize(ci, ClassInfoMethodMapOffset);
    var bound := mmSize + NestedSlack;
    ghost var decode := MethodDecoder(mem, base, moduleSize);
    ghost var total := Collect(decode, Chain(mem, mmHead, BucketNodeSize, bound));
    assert total == ClassMethods(mem, ci, base, moduleSize);
    CollectBound(decode, Chain(mem, mmHead, BucketNodeSize, bound));
    methods := [];
    var current := mmHead;
    var count := 0;
    ghost var fuel: nat := bound;
    while current != 0 && count < bound
      invariant count <= bound && fuel == bound - count
      invariant methods + Collect(decode, Chain(mem, current, BucketNodeSize, fuel)) == total
      decreases bound - count
    {
      var elemData := mem.ReadBytes(current, BucketNodeSize);
      if elemData.None? || |elemData.value| == 0 {
        ChainEnds(mem, current, BucketNodeSize, fuel);
        break;
      }
      var nextPtr := U64(elemData.value, 0);
      ghost var nextFuel: nat := fuel - 1;
      CollectStep(decode, mem, current, BucketNodeSize, fuel, nextFuel, methods, total);
      var found := DecodeMethodElement(mem, base, moduleSize, current, elemData.value);
      assert found == decode(Node(current, elemData.value));
      methods := methods + found;
      current := nextPtr;
      count := count + 1;
      fuel := nextFuel;
      if nextPtr == 0 {
        ChainEnds(mem, current, BucketNodeSize, fuel);
        break;
      }
    }
    ChainEnds(mem, current, BucketNodeSize, fuel);
    assert methods + [] == methods;
  }

  // ---------------------------------------------------------------- dump_class_properties

  /** The property a property-map node contributes: its key's name and the type tag at node offset 24. */
  function PropertyOfNode(mem: MemoryReader, base: int, moduleSize: int, n: Node): (r: seq<PropertyRecord>)
    ensures |r| <= 1
    ensures |r| == 1 ==> |r[0].name| > 0 && r[0].offset.None?
  {
    if |n.data| < PropertyNodeSize then []
    else
      var name := StringName(mem, U64(n.data, 16), base, moduleSize);
      if name.Some? && |name.value| > 0 then [PropertyRecord(name.value, I32(n.data, 24), None)] else []
  }

  function PropertyDecoder(mem: MemoryReader, base: int, moduleSize: int): Node -> seq<PropertyRecord>
  {
    n => PropertyOfNode(mem, base, moduleSize, n)
  }

  /** The property list of a class whose 0x200-byte ClassInfo window is `ci`. */
  function ClassProperties(mem: MemoryReader, ci: seq<byte>, base: int, moduleSize: int): seq<PropertyRecord>
    requires |ci| == ParserClassInfoWindow
  {
    var head := MapHead(ci, ClassInfoPropertyMapOffset);
    var size := MapSize(ci, ClassInfoPropertyMapOffset);
    Collect(PropertyDecoder(mem, base, moduleSize), Chain(mem, head, PropertyNodeSize, size + NestedSlack))
  }

  /** The body of the property-map walk for one element: its key's name and its type tag. */
  method DecodePropertyElement(mem: MemoryReader, base: int, moduleSize: int, current: int, elemData: seq<byte>)
    returns (found: seq<PropertyRecord>)
    requires |elemData| == PropertyNodeSize
    ensures found == PropertyOfNode(mem, base, moduleSize, Node(current, elemData))
  {
    found := [];
    var keyPtr := U64(elemData, 16);
    var propName := ReadStringName(mem, keyPtr, base, moduleSize);
    if propName.Some? && |propName.value| > 0 {
      var varType := I32(elemData, 24);
      found := [PropertyRecord(propName.value, varType, None)];
    }
  }

  /** `dump_class_properties`: walk the property map named by the ClassInfo window. */
  method DumpClassProperties(mem: MemoryReader, ci: seq<byte>, base: int, moduleSize: int) returns (properties: seq<PropertyRecord>)
    requires |ci| == ParserClassInfoWindow
    ensures properties == ClassProperties(mem, ci, base, moduleSize)
    ensures |properties| <= MapSize(ci, ClassInfoPropertyMapOffset) + NestedSlack
  {
    var propHead := MapHead(ci, ClassInfoPropertyMapOffset);
    var propSize := MapSize(ci, ClassInfoPropertyMapOffset);
    var bound := propSize + NestedSlack;
    ghost var decode := PropertyDecoder(mem, base, moduleSize);
    ghost var total := Collect(decode, Chain(mem, propHead, PropertyNodeSize, bound));
    assert total == ClassProperties(mem, ci, base, moduleSize);
    CollectBound(decode, Chain(mem, propHead, PropertyNodeSize, bound));
    properties := [];
    var current := propHead;
    var count := 0;
    ghost var fuel: nat := bound;
    while current != 0 && count < bound
      invariant count <= bound && fuel == bound - count
      invariant properties + Collect(decode, Chain(mem, current, PropertyNodeSize, fuel)) == total
      decreases bound - count
    {
      var elemData := mem.ReadBytes(current, PropertyNodeSize);
      if elemData.None? || |elemData.value| == 0 {
        ChainEnds(mem, current, PropertyNodeSize, fuel);
        break;
      }
      var nextPtr := U64(elemData.value, 0);
      ghost var nextFuel: nat := fuel - 1;
      CollectStep(decode, mem, current, PropertyNodeSize, fuel, nextFuel, properties, total);
      var found := DecodePropertyElement(mem, base, moduleSize, current, elemData.value);
      assert found == decode(Node(current, elemData.value));
      properties := properties + found;
      current := nextPtr;
      count := count + 1;
      fuel := nextFuel;
      if nextPtr == 0 {
        ChainEnds(mem, current, PropertyNodeSize, fuel);
        break;
      }
    }
    ChainEnds(mem, current, PropertyNodeSize, fuel);
    assert properties + [] == properties;
  }
}
