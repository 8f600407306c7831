/**
 * `calculate_field_offsets`: give every property of every class a byte
 * offset and every class a size. A class's fields start where its parent's
 * fields end (8, the vtable pointer, for a root); each field starts at the
 * next multiple of 8 and takes the tabled size of its Variant type.
 *
 * The layout reads only each class's parent name and its properties' types;
 * `ClassShape` is exactly that part, and the specification functions below
 * are written over it.
 */
module Layout {
  import opened Wrappers
  import opened Strings
  import opened Constants
  import opened Records

  /** Where the fields of a class without a (known) parent begin: right after the vtable pointer. */
  const RootSize := 8
  const Alignment := 8

  /** What the layout reads of one class. */
  datatype ClassShape = ClassShape(parent: Option<Text>, types: seq<int>)

  function Types(props: seq<PropertyRecord>): (r: seq<int>)
    ensures |r| == |props|
    ensures forall j :: 0 <= j < |props| ==> r[j] == props[j].variantType
  {
    seq(|props|, j requires 0 <= j < |props| => props[j].variantType)
  }

  function ShapeOf(classes: map<Text, ClassRecord>): (shape: map<Text, ClassShape>)
    ensures shape.Keys == classes.Keys
  {
    map n | n in classes :: ClassShape(classes[n].parent, Types(classes[n].properties))
  }

  /** Python's truthiness of `cls.get('parent')`: a name that is present and non-empty. */
  predicate HasParent(parent: Option<Text>)
  {
    parent.Some? && parent.value != []
  }

  /** `x & ~7` for a non-negative `x`: clear the three low bits. */
  function ClearLowBits(x: nat): nat
  {
    x - x % Alignment
  }

  /** The source's `if x % 8 != 0: x = (x + 7) & ~7`. */
  function AlignUp(x: nat): nat
  {
    if x % Alignment != 0 then ClearLowBits(x + 7) else x
  }

  /** Rounding up gives the least multiple of 8 at or above `x`. */
  lemma AlignUpIsNextMultiple(x: nat)
    ensures AlignUp(x) % Alignment == 0
    ensures x <= AlignUp(x) < x + Alignment
  {
  }

  /** The offset just past the fields of types `types`, laid out from `start`. */
  function EndOf(start: nat, types: seq<int>): nat
  {
    if types == [] then start
    else
      var init := types[..|types| - 1];
      AlignUp(EndOf(start, init)) + GetTypeSize(types[|types| - 1])
  }

  /** The offsets of fields of types `types`, laid out from `start`. */
  function Offsets(start: nat, types: seq<int>): (r: seq<nat>)
    ensures |r| == |types|
  {
    if types == [] then []
    else
      var init := types[..|types| - 1];
      Offsets(start, init) + [AlignUp(EndOf(start, init))]
  }

  /**
   * `get_parent_size(name)` with `visited` on entry: 8 for an unknown or
   * already-visited class; otherwise the end of its fields laid out after its
   * own parent's size, computed with `name` added to `visited`.
   */
  function ParentSize(shape: map<Text, ClassShape>, name: Text, visited: set<Text>): (r: nat)
    ensures r >= RootSize
    decreases |shape.Keys - visited|
  {
    if name !in shape || name in visited then RootSize
    else
      assert shape.Keys - (visited + {name}) == (shape.Keys - visited) - {name};
      var parent := shape[name].parent;
      var start := if HasParent(parent) then ParentSize(shape, parent.value, visited + {name}) else RootSize;
      EndOfAtLeast(start, shape[name].types);
      EndOf(start, shape[name].types)
  }

  /** Where the first field of a class with parent `parent` may begin. */
  function BaseSize(shape: map<Text, ClassShape>, parent: Option<Text>): nat
  {
    if HasParent(parent) then ParentSize(shape, parent.value, {}) else RootSize
  }

  /** `prop['offset'] = …` for every property, in order. */
  function SetOffsets(props: seq<PropertyRecord>, offsets: seq<nat>): (r: seq<PropertyRecord>)
    requires |offsets| == |props|
    ensures |r| == |props|
    ensures forall j :: 0 <= j < |props| ==> r[j] == props[j].(offset := Some(offsets[j]))
  {
    seq(|props|, j requires 0 <= j < |props| => props[j].(offset := Some(offsets[j])))
  }

  /** Setting offsets changes no property's name or type, and setting the same offsets again changes nothing. */
  lemma SetOffsetsKeepsTypes(props: seq<PropertyRecord>, offsets: seq<nat>)
    requires |offsets| == |props|
    ensures Types(SetOffsets(props, offsets)) == Types(props)
    ensures SetOffsets(SetOffsets(props, offsets), offsets) == SetOffsets(props, offsets)
  {
  }

  /** One class after the layout: every property gets its offset and the class its size. */
  function Laid(cls: ClassRecord, shape: map<Text, ClassShape>): ClassRecord
  {
    var start := BaseSize(shape, cls.parent);
    var types := Types(cls.properties);
    cls.(properties := SetOffsets(cls.properties, Offsets(start, types)), size := Some(EndOf(start, types)))
  }

  /** The class map after `calculate_field_offsets`. */
  function LaidOut(classes: map<Text, ClassRecord>): map<Text, ClassRecord>
  {
    var shape := ShapeOf(classes);
    map n | n in classes :: Laid(classes[n], shape)
  }

  // ---------------------------------------------------------------- properties of one layout

  lemma {:induction false} EndOfAtLeast(start: nat, types: seq<int>)
    ensures EndOf(start, types) >= start
    ensures types != [] ==> EndOf(start, types) > start
  {
    if types != [] {
      var init := types[..|types| - 1];
      EndOfAtLeast(start, init);
      AlignUpIsNextMultiple(EndOf(start, init));
    }
  }

  /**
   * Each field starts on a multiple of 8, no earlier than `start`, and ends no
   * later than the next field starts; the layout ends where its last field ends.
   */
  lemma {:induction false} OffsetsLayout(start: nat, types: seq<int>)
    ensures var offs := Offsets(start, types);
            && (forall j :: 0 <= j < |offs| ==> offs[j] % Alignment == 0 && offs[j] >= start)
            && (forall j :: 0 <= j < |offs| - 1 ==> offs[j] + GetTypeSize(types[j]) <= offs[j + 1])
            && (types == [] ==> EndOf(start, types) == start)
            && (types != [] ==> EndOf(start, types) == offs[|offs| - 1] + GetTypeSize(types[|types| - 1]))
  {
    if types != [] {
      var init := types[..|types| - 1];
      var offs := Offsets(start, types);
      var pre := Offsets(start, init);
      OffsetsLayout(start, init);
      EndOfAtLeast(start, init);
      AlignUpIsNextMultiple(EndOf(start, init));
      assert offs == pre + [AlignUp(EndOf(start, init))];
      forall j | 0 <= j < |offs| - 1 ensures offs[j] + GetTypeSize(types[j]) <= offs[j + 1] {
        assert types[j] == init[j];
        if j < |offs| - 2 {
          assert offs[j] == pre[j] && offs[j + 1] == pre[j + 1];
        } else {
          assert offs[j] == pre[|pre| - 1];
        }
      }
    }
  }

  /** Offsets strictly increase in declaration order. */
  lemma OffsetsIncrease(start: nat, types: seq<int>, i: int, j: int)
    requires 0 <= i < j < |types|
    ensures Offsets(start, types)[i] < Offsets(start, types)[j]
    decreases j - i
  {
    OffsetsLayout(start, types);
    if i + 1 < j {
      OffsetsIncrease(start, types, i + 1, j);
    }
  }

  /** The `i`-th field starts at the end of the fields before it, rounded up to a multiple of 8. */
  lemma {:induction false} OffsetAt(start: nat, types: seq<int>, i: int)
    requires 0 <= i < |types|
    ensures Offsets(start, types)[i] == AlignUp(EndOf(start, types[..i]))
    decreases |types|
  {
    var init := types[..|types| - 1];
    assert Offsets(start, types) == Offsets(start, init) + [AlignUp(EndOf(start, init))];
    if i < |types| - 1 {
      OffsetAt(start, init, i);
      assert init[..i] == types[..i];
    } else {
      assert init == types[..i];
    }
  }

  /** A class with no parent, an empty parent name or an unknown parent starts its fields at 8. */
  lemma RootsStartAtEight(shape: map<Text, ClassShape>, parent: Option<Text>)
    requires !HasParent(parent) || parent.value !in shape
    ensures BaseSize(shape, parent) == RootSize
  {
  }

  /**
   * With `name` known and not yet visited, its size is its own fields laid out
   * after its parent's size, the parent being looked up with `name` visited.
   */
  lemma ParentSizeUnfold(shape: map<Text, ClassShape>, name: Text, visited: set<Text>)
    requires name in shape && name !in visited
    ensures var p := shape[name].parent;
            ParentSize(shape, name, visited) ==
              EndOf(if HasParent(p) then ParentSize(shape, p.value, visited + {name}) else RootSize, shape[name].types)
  {
  }

  /** Two classes naming each other as parent still lay out: the cycle is cut at the repeated name. */
  lemma CycleIsCut(a: Text, b: Text)
    requires a != [] && b != [] && a != b
    ensures var shape := map[a := ClassShape(Some(b), []), b := ClassShape(Some(a), [])];
            ParentSize(shape, a, {}) == RootSize && ParentSize(shape, b, {}) == RootSize
  {
    var shape := map[a := ClassShape(Some(b), []), b := ClassShape(Some(a), [])];
    var none: set<Text> := {};
    assert none + {a} == {a} && none + {b} == {b};
    assert ParentSize(shape, a, {a} + {b}) == RootSize;
    assert ParentSize(shape, b, {a}) == RootSize;
    assert ParentSize(shape, b, {b} + {a}) == RootSize;
    assert ParentSize(shape, a, {b}) == RootSize;
  }

  // ---------------------------------------------------------------- the whole pass

  /** Filling in offsets and sizes leaves a class's shape as it was, and doing it again changes nothing. */
  lemma LaidKeepsShape(cls: ClassRecord, shape: map<Text, ClassShape>)
    ensures var r := Laid(cls, shape);
            && r.name == cls.name && r.parent == cls.parent && r.methods == cls.methods
            && Types(r.properties) == Types(cls.properties)
            && Laid(r, shape) == r
  {
    var start := BaseSize(shape, cls.parent);
    SetOffsetsKeepsTypes(cls.properties, Offsets(start, Types(cls.properties)));
  }

  /** The pass keeps every class's parent and property types. */
  lemma ShapeOfLaidOut(classes: map<Text, ClassRecord>)
    ensures LaidOut(classes).Keys == classes.Keys
    ensures ShapeOf(LaidOut(classes)) == ShapeOf(classes)
  {
    var shape := ShapeOf(classes);
    var once := LaidOut(classes);
    assert once.Keys == classes.Keys;
    forall n | n in classes ensures ShapeOf(once)[n] == shape[n] {
      LaidKeepsShape(classes[n], shape);
    }
  }

  /**
   * `calculate_field_offsets` is idempotent: it reads only parents and
   * property types, which it never writes.
   */
  lemma LayoutIdempotent(classes: map<Text, ClassRecord>)
    ensures LaidOut(LaidOut(classes)) == LaidOut(classes)
  {
    var shape := ShapeOf(classes);
    var once := LaidOut(classes);
    ShapeOfLaidOut(classes);
    forall n | n in once ensures LaidOut(once)[n] == once[n] {
      LaidKeepsShape(classes[n], shape);
    }
  }

  /**
   * One laid-out class: every property keeps its name and type and gets an
   * offset that is a multiple of 8 and at least 8; offsets increase in
   * declaration order with room for each field; a class with properties ends
   * where its last field ends, and one without properties has the size its
   * parent chain gives.
   */
  lemma LaidFields(cls: ClassRecord, shape: map<Text, ClassShape>)
    ensures var r := Laid(cls, shape);
            var props := r.properties;
            var start := BaseSize(shape, cls.parent);
            && |props| == |cls.properties|
            && (forall j :: 0 <= j < |props| ==>
                  props[j].offset.Some? && props[j].offset.value % Alignment == 0 && props[j].offset.value >= RootSize &&
                  props[j] == cls.properties[j].(offset := props[j].offset))
            && (forall j :: 0 <= j < |props| - 1 ==>
                  props[j].offset.value + GetTypeSize(props[j].variantType) <= props[j + 1].offset.value)
            && r.size.Some?
            && (props == [] ==> r.size.value == start)
            && (props != [] ==> r.size.value == props[|props| - 1].offset.value + GetTypeSize(props[|props| - 1].variantType))
  {
    var start := BaseSize(shape, cls.parent);
    var types := Types(cls.properties);
    OffsetsLayout(start, types);
    var offs := Offsets(start, types);
    var props := Laid(cls, shape).properties;
    assert props == SetOffsets(cls.properties, offs);
    forall j | 0 <= j < |props| ensures props[j].offset == Some(offs[j]) && props[j].variantType == types[j] {
    }
  }

  /** `LaidFields` for every class of the map after the pass. */
  lemma LaidOutFields(classes: map<Text, ClassRecord>, n: Text)
    requires n in classes
    ensures n in LaidOut(classes) && LaidOut(classes)[n] == Laid(classes[n], ShapeOf(classes))
  {
  }

  /**
   * The worked example: A has no properties (size 8); B extends A with one
   * bool (offset 8, size 9); C extends B with one int (offset 16, size 24).
   */
  lemma InheritanceExample(a: Text, b: Text, c: Text, flag: Text, count: Text)
    requires a != [] && b != [] && c != [] && a != b && b != c && a != c
    ensures var classes := map[
                a := ClassRecord(a, None, [], [], None),
                b := ClassRecord(b, Some(a), [], [PropertyRecord(flag, 1, None)], None),
                c := ClassRecord(c, Some(b), [], [PropertyRecord(count, 2, None)], None)];
            var laid := LaidOut(classes);
            && laid[a].size == Some(8)
            && laid[b].properties == [PropertyRecord(flag, 1, Some(8))] && laid[b].size == Some(9)
            && laid[c].properties == [PropertyRecord(count, 2, Some(16))] && laid[c].size == Some(24)
  {
    var classes := map[
      a := ClassRecord(a, None, [], [], None),
      b := ClassRecord(b, Some(a), [], [PropertyRecord(flag, 1, None)], None),
      c := ClassRecord(c, Some(b), [], [PropertyRecord(count, 2, None)], None)];
    var shape := ShapeOf(classes);
    assert shape[a] == ClassShape(None, []);
    assert shape[b] == ClassShape(Some(a), [1]);
    var none: set<Text> := {};
    assert none + {b} == {b};
    assert ParentSize(shape, a, {b}) == 8;
    assert ParentSize(shape, a, {}) == 8;
    assert [1][..0] == [];
    assert EndOf(8, [1]) == 9;
    assert ParentSize(shape, b, {}) == 9;
    assert [2][..0] == [];
    assert Offsets(9, [2]) == [16];
    assert EndOf(9, [2]) == 24;
    assert Offsets(8, [1]) == [8];
    LaidOutFields(classes, a);
    LaidOutFields(classes, b);
    LaidOutFields(classes, c);
  }

  // ---------------------------------------------------------------- the source's passes, in place

  /** The decoded classes and the recursion guard of `calculate_field_offsets`. */
  class ClassTable {
    var classes: map<Text, ClassRecord>
    var visited: set<Text>

    constructor(classes: map<Text, ClassRecord>)
      ensures this.classes == classes && visited == {}
    {
      this.classes := classes;
      visited := {};
    }

    /** The field loop shared by both passes: from `start`, align each field and add its size. */
    static method EndOfFields(start: nat, props: seq<PropertyRecord>) returns (end: nat)
      ensures end == EndOf(start, Types(props))
    {
      end := start;
      ghost var types := Types(props);
      for i := 0 to |props|
        invariant end == EndOf(start, types[..i])
      {
        var size := GetTypeSize(props[i].variantType);
        if end % Alignment != 0 {
          end := ClearLowBits(end + 7);
        }
        end := end + size;
        assert types[..i + 1][..i] == types[..i];
      }
      assert types[..|props|] == types;
    }

    /** `get_parent_size`: guarded by `visited`, which it restores before returning. */
    method GetParentSize(name: Text) returns (size: nat)
      modifies this
      ensures classes == old(classes) && visited == old(visited)
      ensures size == ParentSize(ShapeOf(classes), name, visited)
      decreases |classes.Keys - visited|
    {
      if name !in classes || name in visited {
        return RootSize;
      }
      assert classes.Keys - (visited + {name}) == (classes.Keys - visited) - {name};
      visited := visited + {name};
      var cls := classes[name];
      var parentSize: nat := RootSize;
      if cls.parent.Some? && cls.parent.value != [] {
        parentSize := GetParentSize(cls.parent.value);
      }
      size := EndOfFields(parentSize, cls.properties);
      visited := visited - {name};
      assert visited == old(visited);
    }

    /** The field loop of the outer pass: each property gets its offset; the end is the class's size. */
    static method PlaceFields(start: nat, props0: seq<PropertyRecord>) returns (props: seq<PropertyRecord>, end: nat)
      ensures end == EndOf(start, Types(props0))
      ensures props == SetOffsets(props0, Offsets(start, Types(props0)))
    {
      ghost var types := Types(props0);
      ghost var offsets := Offsets(start, types);
      props := props0;
      end := start;
      for i := 0 to |props0|
        invariant |props| == |props0|
        invariant end == EndOf(start, types[..i])
        invariant forall j :: 0 <= j < i ==> props[j] == props0[j].(offset := Some(offsets[j]))
        invariant forall j :: i <= j < |props0| ==> props[j] == props0[j]
      {
        var size := GetTypeSize(props[i].variantType);
        if end % Alignment != 0 {
          end := ClearLowBits(end + 7);
        }
        OffsetAt(start, types, i);
        props := props[i := props[i].(offset := Some(end))];
        end := end + size;
        assert types[..i + 1][..i] == types[..i];
      }
      assert types[..|props0|] == types;
    }

    /** One iteration of the outer pass: lay out the class `name`. */
    method LayOutClass(name: Text)
      modifies this
      requires visited == {} && name in classes
      ensures visited == {}
      ensures classes == old(classes)[name := Laid(old(classes)[name], ShapeOf(old(classes)))]
    {
      var cls := classes[name];
      var offset: nat := RootSize;
      if cls.parent.Some? && cls.parent.value != [] {
        offset := GetParentSize(cls.parent.value);
      }
      var props;
      props, offset := PlaceFields(offset, cls.properties);
      classes := classes[name := cls.(properties := props, size := Some(offset))];
    }

    /** One turn of the outer loop: lay out some class not yet laid out. */
    method LayOutNext(ghost original: map<Text, ClassRecord>, pending: set<Text>) returns (rest: set<Text>)
      modifies this
      requires visited == {} && pending != {} && pending <= original.Keys
      requires classes == PartlyLaid(original, pending)
      ensures visited == {} && rest <= original.Keys && |rest| < |pending|
      ensures classes == PartlyLaid(original, rest)
    {
      var name :| name in pending;
      PartlyLaidStep(original, pending, name);
      LayOutClass(name);
      rest := pending - {name};
    }

    /**
     * `calculate_field_offsets`: for every class, its fields start at its
     * parent's size and each gets its offset; the class gets its size. The
     * classes are taken in an arbitrary order, which the result does not
     * depend on.
     */
    method CalculateFieldOffsets()
      modifies this
      requires visited == {}
      ensures classes == LaidOut(old(classes))
      ensures visited == {}
    {
      ghost var original := classes;
      ghost var shape := ShapeOf(classes);
      var pending := classes.Keys;
      PartlyLaidStart(original);
      while pending != {}
        invariant visited == {}
        invariant pending <= original.Keys
        invariant classes == PartlyLaid(original, pending)
        decreases |pending|
      {
        pending := LayOutNext(original, pending);
      }
      PartlyLaidDone(original);
    }
  }

  /** The class map part-way through the pass: the classes in `pending` are not laid out yet. */
  function PartlyLaid(original: map<Text, ClassRecord>, pending: set<Text>): map<Text, ClassRecord>
  {
    var shape := ShapeOf(original);
    map n | n in original :: if n in pending then original[n] else Laid(original[n], shape)
  }

  lemma PartlyLaidShape(original: map<Text, ClassRecord>, pending: set<Text>)
    ensures PartlyLaid(original, pending).Keys == original.Keys
    ensures ShapeOf(PartlyLaid(original, pending)) == ShapeOf(original)
  {
    var shape := ShapeOf(original);
    var part := PartlyLaid(original, pending);
    forall n | n in original ensures ShapeOf(part)[n] == shape[n] {
      LaidKeepsShape(original[n], shape);
    }
  }

  lemma PartlyLaidStep(original: map<Text, ClassRecord>, pending: set<Text>, name: Text)
    requires name in pending && pending <= original.Keys
    ensures var part := PartlyLaid(original, pending);
            name in part && part[name := Laid(part[name], ShapeOf(part))] == PartlyLaid(original, pending - {name})
  {
    PartlyLaidShape(original, pending);
  }

  lemma PartlyLaidStart(original: map<Text, ClassRecord>)
    ensures PartlyLaid(original, original.Keys) == original
  {
  }

  lemma PartlyLaidDone(original: map<Text, ClassRecord>)
    ensures PartlyLaid(original, {}) == LaidOut(original)
  {
  }

  /** Replacing a class by one of the same shape leaves the map's shape as it was. */
  lemma ShapeOfUpdate(classes: map<Text, ClassRecord>, name: Text, rec: ClassRecord)
    requires name in classes
    requires rec.parent == classes[name].parent && Types(rec.properties) == Types(classes[name].properties)
    ensures ShapeOf(classes[name := rec]) == ShapeOf(classes)
  {
  }
}
