/**
 * The fixed layout constants of one engine build and the Variant type
 * tables used to name and size properties.
 */
module Constants {

  /** Offsets inside the ClassInfo record found at bucket node + 24. */
  const ClassInfoMethodMapOffset := 0x28
  const ClassInfoPropertyMapOffset := 0x120
  const ClassInfoInheritsOffset := 0x178
  const ClassInfoNameOffset := 0x180

  /** Offsets inside a hash-map header (also the nested method and property maps). */
  const HeaderHeadOffset := 16
  const HeaderSizeOffset := 36

  /** The ClassInfo windows read by the decoder and by the scanner. */
  const ParserClassInfoWindow := 0x200
  const ScannerClassInfoWindow := 0x190

  /** `VARIANT_TO_CPP`. */
  const VariantToCpp: map<int, string> := map[
    0 := "Variant", 1 := "bool", 2 := "int64_t", 3 := "double", 4 := "String",
    5 := "Vector2", 6 := "Vector2i", 7 := "Rect2", 8 := "Rect2i", 9 := "Vector3",
    10 := "Vector3i", 11 := "Transform2D", 12 := "Vector4", 13 := "Vector4i", 14 := "Plane",
    15 := "Quaternion", 16 := "AABB", 17 := "Basis", 18 := "Transform3D", 19 := "Projection",
    20 := "Color", 21 := "StringName", 22 := "NodePath", 23 := "RID", 24 := "Object*",
    25 := "Callable", 26 := "Signal", 27 := "Dictionary", 28 := "Array", 29 := "PackedByteArray",
    30 := "PackedInt32Array", 31 := "PackedInt64Array", 32 := "PackedFloat32Array",
    33 := "PackedFloat64Array", 34 := "PackedStringArray", 35 := "PackedVector2Array",
    36 := "PackedVector3Array", 37 := "PackedColorArray", 38 := "PackedVector4Array"]

  /** `TYPE_SIZES`: byte size of a property of each Variant type. */
  const TypeSizes: map<int, int> := map[
    0 := 24, 1 := 1, 2 := 8, 3 := 8, 4 := 8, 5 := 8, 6 := 8, 7 := 16, 8 := 16, 9 := 12,
    10 := 12, 11 := 24, 12 := 16, 13 := 16, 14 := 16, 15 := 16, 16 := 24, 17 := 36, 18 := 48,
    19 := 64, 20 := 16, 21 := 8, 22 := 8, 23 := 8, 24 := 8, 25 := 16, 26 := 16, 27 := 8, 28 := 8]

  /** `get_cpp_type`: the mapped C++ name, "Variant" for an unknown tag. */
  function GetCppType(typeId: int): (r: string)
    ensures 0 <= typeId <= 38 ==> r == VariantToCpp[typeId]
    ensures !(0 <= typeId <= 38) ==> r == "Variant"
  {
    if typeId in VariantToCpp then VariantToCpp[typeId] else "Variant"
  }

  /** `get_type_size`: the tabled size, 8 for an untabled tag; never zero. */
  function GetTypeSize(typeId: int): (r: int)
    ensures r > 0
    ensures 0 <= typeId <= 28 ==> r == TypeSizes[typeId]
    ensures !(0 <= typeId <= 28) ==> r == 8
  {
    if typeId in TypeSizes then TypeSizes[typeId] else 8
  }

  /** The packed-array tags 29..38 have a C++ name but no size entry, so they take the default size. */
  lemma PackedArraysFallBackToEight(typeId: int)
    requires 29 <= typeId <= 38
    ensures GetTypeSize(typeId) == 8
    ensures GetCppType(typeId) != "Variant"
  {
  }

  /**
   * Every field extracted through the ClassInfo offsets lies inside the
   * windows read: the nested map headers' head and size fields, the parent
   * and name pointers inside the decoder's 0x200 window, and the method map
   * and name pointer inside the scanner's 0x190 window.
   */
  lemma ClassInfoFieldsFit()
    ensures ClassInfoMethodMapOffset + HeaderSizeOffset + 4 <= ScannerClassInfoWindow
    ensures ClassInfoNameOffset + 8 <= ScannerClassInfoWindow
    ensures ClassInfoPropertyMapOffset + HeaderSizeOffset + 4 <= ParserClassInfoWindow
    ensures ClassInfoInheritsOffset + 8 <= ParserClassInfoWindow
    ensures ClassInfoNameOffset + 8 <= ParserClassInfoWindow
    ensures ScannerClassInfoWindow <= ParserClassInfoWindow
  {
  }
}
