/**
 * `score_hashmap`: how much a 48-byte candidate hash-map header, and the
 * first few nodes of its element list, look like the engine's class registry.
 */
module Scanner {
  import opened Wrappers
  import opened Bytes
  import opened Strings
  import opened Memory
  import opened Constants
  import opened Chains

  /** The header window and the fields read from it. */
  const HeaderWindow := 48
  const HeadOffset := 16
  const TailOffset := 24
  const CapacityOffset := 32
  const SizeOffset := 36

  /** Bucket nodes: next at 0, prev at 8, key at 16, the ClassInfo value at 24. */
  const ScanNodeSize := 32
  const PrevOffset := 8
  const KeyOffset := 16
  const ValueOffset := 24

  /** At most this many nodes are inspected, and this many valid names are kept as samples. */
  const MaxScanNodes := 20
  const SampleCount := 5

  /** `GODOT_CORE_CLASSES`. */
  const CoreClasses: set<Text> := {
    Chars("Object"), Chars("RefCounted"), Chars("Resource"), Chars("Node"), Chars("Node2D"),
    Chars("Node3D"), Chars("Control"), Chars("Sprite2D"), Chars("Camera2D"), Chars("Camera3D"),
    Chars("AudioStreamPlayer")}

  /**
   * The name test of the walk: an upper-case first character, and what is
   * left after deleting `_`, then `2D`, then `3D` is alphanumeric.
   */
  predicate IsClassLikeName(name: Text)
  {
    |name| > 0 && IsUpper(name[0]) &&
    IsAlnumText(RemoveAll(RemoveAll(RemoveAll(name, Chars("_")), Chars("2D")), Chars("3D")))
  }

  // ---------------------------------------------------------------- the header

  datatype MapHeader = MapHeader(head: nat, tail: nat, capacityIdx: nat, size: nat)

  function HeaderOf(data: seq<byte>): MapHeader
    requires |data| == HeaderWindow
  {
    MapHeader(U64(data, HeadOffset), U64(data, TailOffset), U32(data, CapacityOffset), U32(data, SizeOffset))
  }

  /** The structural checks a header must pass before its list is walked. */
  predicate Plausible(h: MapHeader, base: int, moduleSize: int)
  {
    && 10 <= h.size <= 10000
    && 0 < h.capacityIdx < 30
    && IsValidPointer(h.head, base, moduleSize)
    && IsValidPointer(h.tail, base, moduleSize)
  }

  /** Registries usually hold 500 to 2000 classes. */
  function SizeBonus(size: nat): int
  {
    if 500 <= size <= 2000 then 100 else if 200 <= size <= 3000 then 50 else 10
  }

  function ValidBonus(validElements: nat): int
  {
    if validElements >= 15 then 100 else if validElements >= 10 then 50 else 3 * validElements
  }

  function MethodsBonus(hasMethods: nat): int
  {
    if hasMethods >= 10 then 80 else if hasMethods >= 5 then 40 else 0
  }

  // ---------------------------------------------------------------- one node

  /**
   * What one node adds: whether its prev pointer is set, its name when the
   * name is class-like, whether its ClassInfo has a plausible method map,
   * and the points it earns (core class, method map, matching name).
   */
  datatype NodeScore = NodeScore(prevLinked: bool, valid: Option<Text>, withMethods: bool, bonus: int)

  /** Only a valid node can have methods or earn points, and it earns at most 50 + 5 + 10. */
  predicate ScoreShape(s: NodeScore)
  {
    && (s.withMethods ==> s.valid.Some?)
    && (s.valid.Some? ==> IsClassLikeName(s.valid.value))
    && (s.valid.None? ==> s.bonus == 0)
    && 0 <= s.bonus <= 65
  }

  /** The ClassInfo's method map has a plausible head and a size in (0, 1000). */
  predicate HasMethodMap(ci: seq<byte>, base: int, moduleSize: int)
    requires |ci| == ScannerClassInfoWindow
  {
    var mmHead := U64(ci, ClassInfoMethodMapOffset + HeaderHeadOffset);
    var mmSize := U32(ci, ClassInfoMethodMapOffset + HeaderSizeOffset);
    IsValidPointer(mmHead, base, moduleSize) && 0 < mmSize < 1000
  }

  /** What the ClassInfo stored in a node earns for the node's name: 5 for a method map, 10 for a matching name. */
  datatype InfoCheck = InfoCheck(withMethods: bool, points: int)

  /** The ClassInfo window of the node at `addr`, checked against the key's name. */
  function ClassInfoCheck(mem: MemoryReader, base: int, moduleSize: int, addr: int, name: Text): InfoCheck
  {
    match mem.ReadBytes(addr + ValueOffset, ScannerClassInfoWindow)
    case None => InfoCheck(false, 0)
    case Some(ci) =>
      var withMethods := HasMethodMap(ci, base, moduleSize);
      var sameName := StringName(mem, U64(ci, ClassInfoNameOffset), base, moduleSize) == Some(name);
      InfoCheck(withMethods, (if withMethods then 5 else 0) + (if sameName then 10 else 0))
  }

  /** The score of the node at `addr` whose 32 bytes are `data`. */
  function ScoreNode(mem: MemoryReader, base: int, moduleSize: int, addr: int, data: seq<byte>): NodeScore
    requires |data| == ScanNodeSize
  {
    var prevLinked := U64(data, PrevOffset) != 0;
    var name := StringName(mem, U64(data, KeyOffset), base, moduleSize);
    if name.None? || !IsClassLikeName(name.value) then NodeScore(prevLinked, None, false, 0)
    else
      var core := if name.value in CoreClasses then 50 else 0;
      var info := ClassInfoCheck(mem, base, moduleSize, addr, name.value);
      NodeScore(prevLinked, name, info.withMethods, core + info.points)
  }

  /**
   * A node's score: the prev flag is the prev pointer being set; the node is
   * valid exactly when its key decodes to a class-like name, and then carries
   * that name; only a valid node has methods or earns points, at most 65.
   */
  lemma ScoreNodeMeaning(mem: MemoryReader, base: int, moduleSize: int, addr: int, data: seq<byte>)
    requires |data| == ScanNodeSize
    ensures var r := ScoreNode(mem, base, moduleSize, addr, data);
            var name := StringName(mem, U64(data, KeyOffset), base, moduleSize);
            && ScoreShape(r)
            && (r.prevLinked <==> U64(data, PrevOffset) != 0)
            && (r.valid.Some? <==> name.Some? && IsClassLikeName(name.value))
            && (r.valid.Some? ==> r.valid == name)
  {
    var name := StringName(mem, U64(data, KeyOffset), base, moduleSize);
    if name.Some? && IsClassLikeName(name.value) {
      ClassInfoPoints(mem, base, moduleSize, addr, name.value);
    }
  }

  /** The ClassInfo earns 0, 5, 10 or 15 points, 5 of them exactly for a method map; an unreadable one earns none. */
  lemma ClassInfoPoints(mem: MemoryReader, base: int, moduleSize: int, addr: int, name: Text)
    ensures var r := ClassInfoCheck(mem, base, moduleSize, addr, name);
            && r.points in {0, 5, 10, 15}
            && (r.withMethods <==> r.points == 5 || r.points == 15)
            && (mem.ReadBytes(addr + ValueOffset, ScannerClassInfoWindow).None? ==> r == InfoCheck(false, 0))
  {
  }

  function NodeScores(mem: MemoryReader, base: int, moduleSize: int, n: Node): seq<NodeScore>
  {
    if |n.data| != ScanNodeSize then [] else [ScoreNode(mem, base, moduleSize, n.addr, n.data)]
  }

  function NodeScorer(mem: MemoryReader, base: int, moduleSize: int): Node -> seq<NodeScore>
  {
    n => NodeScores(mem, base, moduleSize, n)
  }

  /** The scores of the walk from `head`, at most `bound` nodes: the shared bucket-chain walk, scored node by node. */
  function Scores(mem: MemoryReader, base: int, moduleSize: int, head: int, bound: nat): seq<NodeScore>
  {
    Collect(NodeScorer(mem, base, moduleSize), Chain(mem, head, ScanNodeSize, bound))
  }

  // ---------------------------------------------------------------- tallies over a walk

  function NameOf(s: NodeScore): seq<Text>
  {
    if s.valid.Some? then [s.valid.value] else []
  }

  /** `class_names`: the valid names in walk order. */
  function ValidNames(ss: seq<NodeScore>): seq<Text>
  {
    if ss == [] then [] else ValidNames(ss[..|ss| - 1]) + NameOf(ss[|ss| - 1])
  }

  /** `has_methods`. */
  function MethodsCount(ss: seq<NodeScore>): nat
  {
    if ss == [] then 0 else MethodsCount(ss[..|ss| - 1]) + (if ss[|ss| - 1].withMethods then 1 else 0)
  }

  /** The points the nodes earn. */
  function BonusSum(ss: seq<NodeScore>): int
  {
    if ss == [] then 0 else BonusSum(ss[..|ss| - 1]) + ss[|ss| - 1].bonus
  }

  /** The broken-list penalty: only the first node's prev pointer is looked at. */
  function FirstPenalty(ss: seq<NodeScore>): int
  {
    if ss != [] && ss[0].prevLinked then -20 else 0
  }

  /** Appending one node's score to the walk so far. */
  lemma TallyStep(done: seq<NodeScore>, s: NodeScore)
    ensures ValidNames(done + [s]) == ValidNames(done) + NameOf(s)
    ensures MethodsCount(done + [s]) == MethodsCount(done) + (if s.withMethods then 1 else 0)
    ensures BonusSum(done + [s]) == BonusSum(done) + s.bonus
    ensures FirstPenalty(done + [s]) == if done == [] then (if s.prevLinked then -20 else 0) else FirstPenalty(done)
  {
    assert (done + [s])[..|done|] == done;
  }

  // ---------------------------------------------------------------- the outcome

  /** The details dictionary: empty, only size and head, or the full walk summary. */
  datatype Details =
    | NoDetails
    | Rejected(size: nat, headPtr: nat)
    | Walked(size: nat, headPtr: nat, validElements: nat, hasMethods: nat, sampleNames: seq<Text>)

  datatype Assessment = Assessment(score: int, details: Details)

  /** The score and details of a header that passed the checks, given its walk's node scores. */
  function Tally(h: MapHeader, ss: seq<NodeScore>): Assessment
  {
    var names := ValidNames(ss);
    var methods := MethodsCount(ss);
    Assessment(
      SizeBonus(h.size) + FirstPenalty(ss) + BonusSum(ss) + ValidBonus(|names|) + MethodsBonus(methods),
      Walked(h.size, h.head, |names|, methods, names[..Min(SampleCount, |names|)]))
  }

  /** The outcome of a walk whose running totals are known. */
  lemma TallyOfTotals(h: MapHeader, ss: seq<NodeScore>, score: int, validElements: nat, hasMethods: nat, classNames: seq<Text>)
    requires Tallied(SizeBonus(h.size), ss, score, validElements, hasMethods, classNames)
    ensures Tally(h, ss) == Assessment(score + ValidBonus(validElements) + MethodsBonus(hasMethods),
                                       Walked(h.size, h.head, validElements, hasMethods, classNames[..Min(SampleCount, |classNames|)]))
  {
  }

  /** `score_hashmap` as a function of memory. */
  function Score(mem: MemoryReader, addr: int, base: int, moduleSize: int): Assessment
  {
    match mem.ReadBytes(addr, HeaderWindow)
    case None => Assessment(0, NoDetails)
    case Some(data) =>
      var h := HeaderOf(data);
      if !Plausible(h, base, moduleSize) then Assessment(0, Rejected(h.size, h.head))
      else Tally(h, Scores(mem, base, moduleSize, h.head, Min(MaxScanNodes, h.size)))
  }

  // ---------------------------------------------------------------- the method

  /** The ClassInfo part of the walk's body, for a node whose key has the class-like name `name`. */
  method CheckClassInfo(mem: MemoryReader, base: int, moduleSize: int, current: int, name: Text)
    returns (withMethods: bool, points: int)
    ensures InfoCheck(withMethods, points) == ClassInfoCheck(mem, base, moduleSize, current, name)
  {
    withMethods, points := false, 0;
    var ciData := mem.ReadBytes(current + ValueOffset, ScannerClassInfoWindow);
    if ciData.Some? {
      var mmHead := U64(ciData.value, ClassInfoMethodMapOffset + HeaderHeadOffset);
      var mmSize := U32(ciData.value, ClassInfoMethodMapOffset + HeaderSizeOffset);
      if IsValidPointer(mmHead, base, moduleSize) && 0 < mmSize < 1000 {
        withMethods := true;
        points := points + 5;
      }
      var namePtr := U64(ciData.value, ClassInfoNameOffset);
      var ciName := ReadStringName(mem, namePtr, base, moduleSize);
      if ciName == Some(name) {
        points := points + 10;
      }
    }
  }

  /** The body of the walk for one node: decode the key's name and, for a class-like name, check its ClassInfo. */
  method ScoreElement(mem: MemoryReader, base: int, moduleSize: int, current: int, elemData: seq<byte>)
    returns (s: NodeScore)
    requires |elemData| == ScanNodeSize
    ensures s == ScoreNode(mem, base, moduleSize, current, elemData)
  {
    var prevPtr := U64(elemData, PrevOffset);
    var keyPtr := U64(elemData, KeyOffset);
    s := NodeScore(prevPtr != 0, None, false, 0);
    var name := ReadStringName(mem, keyPtr, base, moduleSize);
    if name.Some? && |name.value| > 0 {
      if IsClassLikeName(name.value) {
        var bonus := 0;
        if name.value in CoreClasses {
          bonus := bonus + 50;
        }
        var withMethods, points := CheckClassInfo(mem, base, moduleSize, current, name.value);
        s := NodeScore(prevPtr != 0, name, withMethods, bonus + points);
      }
    }
  }

  /** The running totals of the walk agree with the node scores seen so far. */
  predicate Tallied(start: int, done: seq<NodeScore>, score: int, validElements: nat, hasMethods: nat, classNames: seq<Text>)
  {
    && score == start + FirstPenalty(done) + BonusSum(done)
    && classNames == ValidNames(done) && validElements == |classNames|
    && hasMethods == MethodsCount(done)
  }

  /**
   * The body of the walk for one readable node: the broken-list penalty on
   * the first node, then the name and ClassInfo checks, added to the totals.
   */
  method VisitNode(mem: MemoryReader, base: int, moduleSize: int, current: int, elemData: seq<byte>, first: bool,
                   score0: int, valid0: nat, methods0: nat, names0: seq<Text>, ghost start: int, ghost done0: seq<NodeScore>)
    returns (score: int, validElements: nat, hasMethods: nat, classNames: seq<Text>, ghost done: seq<NodeScore>)
    requires |elemData| == ScanNodeSize
    requires first <==> done0 == []
    requires Tallied(start, done0, score0, valid0, methods0, names0)
    ensures done == done0 + NodeScores(mem, base, moduleSize, Node(current, elemData)) && |done| == |done0| + 1
    ensures Tallied(start, done, score, validElements, hasMethods, classNames)
  {
    score, validElements, hasMethods, classNames := score0, valid0, methods0, names0;
    var prevPtr := U64(elemData, PrevOffset);
    var s := ScoreElement(mem, base, moduleSize, current, elemData);
    TallyStep(done0, s);
    if first && prevPtr != 0 {
      score := score - 20;
    }
    if s.valid.Some? {
      validElements := validElements + 1;
      classNames := classNames + [s.valid.value];
    }
    if s.withMethods {
      hasMethods := hasMethods + 1;
    }
    score := score + s.bonus;
    done := done0 + [s];
  }

  /** The bounded walk of `score_hashmap`, from a plausible head, adding to `start`. */
  method WalkNodes(mem: MemoryReader, base: int, moduleSize: int, head: nat, size: nat, start: int)
    returns (score: int, validElements: nat, hasMethods: nat, classNames: seq<Text>, ghost done: seq<NodeScore>)
    ensures done == Scores(mem, base, moduleSize, head, Min(MaxScanNodes, size))
    ensures Tallied(start, done, score, validElements, hasMethods, classNames)
  {
    var bound := Min(MaxScanNodes, size);
    ghost var scorer := NodeScorer(mem, base, moduleSize);
    ghost var total := Collect(scorer, Chain(mem, head, ScanNodeSize, bound));
    assert total == Scores(mem, base, moduleSize, head, bound);
    done := [];
    ghost var fuel: nat := bound;
    score, validElements, hasMethods, classNames := start, 0, 0, [];
    var current := head;
    var i := 0;
    while i < bound
      invariant 0 <= i <= bound && fuel == bound - i && |done| == i
      invariant done + Collect(scorer, Chain(mem, current, ScanNodeSize, fuel)) == total
      invariant Tallied(start, done, score, validElements, hasMethods, classNames)
    {
      if current == 0 {
        ChainEnds(mem, current, ScanNodeSize, fuel);
        break;
      }
      var elemData := mem.ReadBytes(current, ScanNodeSize);
      if elemData.None? {
        ChainEnds(mem, current, ScanNodeSize, fuel);
        break;
      }
      var nextPtr := U64(elemData.value, 0);
      ghost var nextFuel: nat := fuel - 1;
      CollectStep(scorer, mem, current, ScanNodeSize, fuel, nextFuel, done, total);
      assert scorer(Node(current, elemData.value)) == NodeScores(mem, base, moduleSize, Node(current, elemData.value));
      score, validElements, hasMethods, classNames, done :=
        VisitNode(mem, base, moduleSize, current, elemData.value, i == 0, score, validElements, hasMethods, classNames, start, done);
      current := nextPtr;
      i := i + 1;
      fuel := nextFuel;
      if current == 0 {
        ChainEnds(mem, current, ScanNodeSize, fuel);
        break;
      }
    }
    assert Collect(scorer, Chain(mem, current, ScanNodeSize, fuel)) == [];
    assert done == total;
  }

  /** A readable header that passes the checks is scored by its walk. */
  lemma ScoreOfPlausible(mem: MemoryReader, addr: int, base: int, moduleSize: int, h: MapHeader)
    requires mem.ReadBytes(addr, HeaderWindow).Some?
    requires h == HeaderOf(mem.ReadBytes(addr, HeaderWindow).value) && Plausible(h, base, moduleSize)
    ensures Score(mem, addr, base, moduleSize) == Tally(h, Scores(mem, base, moduleSize, h.head, Min(MaxScanNodes, h.size)))
  {
  }

  /** The second half of `score_hashmap`: the size bonus, the walk and the final bonuses. */
  method ScoreWalk(mem: MemoryReader, base: int, moduleSize: int, h: MapHeader)
    returns (score: int, details: Details, ghost walk: seq<NodeScore>)
    ensures walk == Scores(mem, base, moduleSize, h.head, Min(MaxScanNodes, h.size))
    ensures Assessment(score, details) == Tally(h, walk)
  {
    var size := h.size;
    score := 0;
    if 500 <= size <= 2000 {
      score := score + 100;
    } else if 200 <= size <= 3000 {
      score := score + 50;
    } else {
      score := score + 10;
    }
    var validElements, hasMethods, classNames;
    score, validElements, hasMethods, classNames, walk := WalkNodes(mem, base, moduleSize, h.head, size, score);
    TallyOfTotals(h, walk, score, validElements, hasMethods, classNames);
    if validElements >= 15 {
      score := score + 100;
    } else if validElements >= 10 {
      score := score + 50;
    } else {
      score := score + validElements * 3;
    }
    if hasMethods >= 10 {
      score := score + 80;
    } else if hasMethods >= 5 {
      score := score + 40;
    }
    details := Walked(size, h.head, validElements, hasMethods, classNames[..Min(SampleCount, |classNames|)]);
  }

  /** `score_hashmap`. */
  method ScoreHashmap(mem: MemoryReader, addr: int, base: int, moduleSize: int) returns (score: int, details: Details)
    ensures Assessment(score, details) == Score(mem, addr, base, moduleSize)
  {
    var data := mem.ReadBytes(addr, HeaderWindow);
    if data.None? || |data.value| < HeaderWindow {
      return 0, NoDetails;
    }
    var headPtr := U64(data.value, HeadOffset);
    var tailPtr := U64(data.value, TailOffset);
    var capacityIdx := U32(data.value, CapacityOffset);
    var size := U32(data.value, SizeOffset);
    details := Rejected(size, headPtr);
    if size < 10 || size > 10000 {
      return 0, details;
    }
    if !(0 < capacityIdx < 30) {
      return 0, details;
    }
    if !IsValidPointer(headPtr, base, moduleSize) {
      return 0, details;
    }
    if !IsValidPointer(tailPtr, base, moduleSize) {
      return 0, details;
    }
    var h := MapHeader(headPtr, tailPtr, capacityIdx, size);
    ScoreOfPlausible(mem, addr, base, moduleSize, h);
    ghost var walk;
    score, details, walk := ScoreWalk(mem, base, moduleSize, h);
  }
}
