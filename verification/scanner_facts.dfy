/** What `score_hashmap` promises about its score and its details. */
module ScannerFacts {
  import opened Wrappers
  import opened Bytes
  import opened Strings
  import opened Memory
  import opened Chains
  import opened Scanner

  // ---------------------------------------------------------------- tallies

  /** Counting keeps walk order: the valid names of two stretches of walk are those of each, in turn. */
  lemma {:induction false} ValidNamesAppend(a: seq<NodeScore>, b: seq<NodeScore>)
    ensures ValidNames(a + b) == ValidNames(a) + ValidNames(b)
    decreases |b|
  {
    if b == [] {
      assert a + b == a;
    } else {
      var b' := b[..|b| - 1];
      assert (a + b)[..|a + b| - 1] == a + b';
      assert (a + b)[|a + b| - 1] == b[|b| - 1];
      ValidNamesAppend(a, b');
    }
  }

  /** The broken-list penalty is decided by the first node alone: later nodes never change it. */
  lemma FirstPenaltyOnlyFirst(a: seq<NodeScore>, b: seq<NodeScore>)
    requires a != []
    ensures FirstPenalty(a + b) == FirstPenalty(a)
    ensures FirstPenalty(a) == if a[0].prevLinked then -20 else 0
  {
    assert (a + b)[0] == a[0];
  }

  predicate AllShaped(ss: seq<NodeScore>)
  {
    forall k :: 0 <= k < |ss| ==> ScoreShape(ss[k])
  }

  /**
   * Over well-formed node scores: `has_methods <= valid_elements <= nodes`,
   * every valid name is class-like, the points stay within 65 per node, and
   * a walk without valid names earns nothing.
   */
  lemma {:induction false} TallyBounds(ss: seq<NodeScore>)
    requires AllShaped(ss)
    ensures MethodsCount(ss) <= |ValidNames(ss)| <= |ss|
    ensures 0 <= BonusSum(ss) <= 65 * |ss|
    ensures forall k :: 0 <= k < |ValidNames(ss)| ==> IsClassLikeName(ValidNames(ss)[k])
    ensures ValidNames(ss) == [] ==> BonusSum(ss) == 0 && MethodsCount(ss) == 0
  {
    if ss != [] {
      var init := ss[..|ss| - 1];
      var last := ss[|ss| - 1];
      assert AllShaped(init) by {
        forall k | 0 <= k < |init| ensures ScoreShape(init[k]) {
          assert init[k] == ss[k];
        }
      }
      assert ScoreShape(last);
      TallyBounds(init);
      assert ValidNames(ss) == ValidNames(init) + NameOf(last);
    }
  }

  // ---------------------------------------------------------------- the walk

  /** Every node score of a walk is well formed. */
  lemma NodeScorerShaped(mem: MemoryReader, base: int, moduleSize: int)
    ensures forall n: Node, s: NodeScore :: s in NodeScorer(mem, base, moduleSize)(n) ==> ScoreShape(s)
  {
    forall n: Node, s: NodeScore | s in NodeScorer(mem, base, moduleSize)(n) ensures ScoreShape(s) {
      ScoreNodeMeaning(mem, base, moduleSize, n.addr, n.data);
    }
  }

  /** A walk yields exactly one well-formed score per visited node, and visits at most `bound` nodes. */
  lemma ScoresShaped(mem: MemoryReader, base: int, moduleSize: int, head: int, bound: nat)
    ensures var ss := Scores(mem, base, moduleSize, head, bound);
            |ss| == |Chain(mem, head, ScanNodeSize, bound)| <= bound && AllShaped(ss)
  {
    var scorer := NodeScorer(mem, base, moduleSize);
    var nodes := Chain(mem, head, ScanNodeSize, bound);
    assert Scores(mem, base, moduleSize, head, bound) == Collect(scorer, nodes);
    NodeScorerShaped(mem, base, moduleSize);
    CollectAll(scorer, nodes, ScoreShape);
    CollectExact(scorer, nodes, ScanNodeSize);
  }

  /** The penalty looks at the head node only: it is -20 exactly when the head is read and its prev pointer is set. */
  lemma PenaltyFromHead(mem: MemoryReader, base: int, moduleSize: int, head: int, bound: nat)
    requires head != 0 && bound > 0
    ensures var first := mem.ReadBytes(head, ScanNodeSize);
            FirstPenalty(Scores(mem, base, moduleSize, head, bound)) ==
              if first.Some? && U64(first.value, PrevOffset) != 0 then -20 else 0
  {
    var first := mem.ReadBytes(head, ScanNodeSize);
    if first.Some? {
      var d := first.value;
      var scorer := NodeScorer(mem, base, moduleSize);
      var rest := Chain(mem, U64(d, 0), ScanNodeSize, bound - 1);
      ChainStep(mem, head, ScanNodeSize, bound, bound - 1);
      CollectCons(scorer, Node(head, d), rest);
      ScoreNodeMeaning(mem, base, moduleSize, head, d);
      assert Scores(mem, base, moduleSize, head, bound)[0] == ScoreNode(mem, base, moduleSize, head, d);
    } else {
      ChainEnds(mem, head, ScanNodeSize, bound);
    }
  }

  // ---------------------------------------------------------------- the outcome

  /**
   * The rejection rules: an unreadable header scores 0 with empty details;
   * a size outside [10, 10000], a capacity index outside (0, 30), or an
   * implausible head or tail pointer scores 0 with only size and head.
   * Exactly the headers that pass are walked.
   */
  lemma RejectedScoresZero(mem: MemoryReader, addr: int, base: int, moduleSize: int)
    ensures var a := Score(mem, addr, base, moduleSize);
            var data := mem.ReadBytes(addr, HeaderWindow);
            && (data.None? ==> a == Assessment(0, NoDetails))
            && (data.Some? ==>
                  var d := data.value;
                  var size := U32(d, SizeOffset);
                  var capacityIdx := U32(d, CapacityOffset);
                  (size < 10 || size > 10000 || !(0 < capacityIdx < 30) ||
                   !IsValidPointer(U64(d, HeadOffset), base, moduleSize) ||
                   !IsValidPointer(U64(d, TailOffset), base, moduleSize))
                  <==> a == Assessment(0, Rejected(size, U64(d, HeadOffset))))
  {
  }

  /** The score of a walked header: the size bonus, the first-node penalty, the node points and the two count bonuses. */
  lemma WalkedScore(mem: MemoryReader, addr: int, base: int, moduleSize: int)
    ensures var a := Score(mem, addr, base, moduleSize);
            a.details.Walked? ==>
              var d := a.details;
              var ss := Scores(mem, base, moduleSize, d.headPtr, Min(MaxScanNodes, d.size));
              a.score == SizeBonus(d.size) + FirstPenalty(ss) + BonusSum(ss) + ValidBonus(d.validElements) + MethodsBonus(d.hasMethods)
  {
  }

  /** A walked header's outcome is the tally of its walk. */
  lemma ScoreIsTally(mem: MemoryReader, addr: int, base: int, moduleSize: int)
    ensures Score(mem, addr, base, moduleSize).details.Walked? ==>
              && mem.ReadBytes(addr, HeaderWindow).Some?
              && var h := HeaderOf(mem.ReadBytes(addr, HeaderWindow).value);
                 && Plausible(h, base, moduleSize)
                 && Score(mem, addr, base, moduleSize) == Tally(h, Scores(mem, base, moduleSize, h.head, Min(MaxScanNodes, h.size)))
  {
  }

  /** The summary of a walk of well-formed node scores, at most `min(20, size)` of them. */
  lemma TallySummary(h: MapHeader, ss: seq<NodeScore>)
    requires AllShaped(ss) && |ss| <= Min(MaxScanNodes, h.size)
    ensures var a := Tally(h, ss);
            && a.details.Walked?
            && a.details.hasMethods <= a.details.validElements <= |ss|
            && a.details.sampleNames == ValidNames(ss)[..Min(SampleCount, a.details.validElements)]
            && (forall k :: 0 <= k < |a.details.sampleNames| ==> IsClassLikeName(a.details.sampleNames[k]))
            && -10 <= a.score <= 1580
  {
    TallyBounds(ss);
  }

  /**
   * The details of a walked header: `has_methods <= valid_elements <=` the
   * nodes visited `<= min(20, size)`; the samples are the first five valid
   * names, each class-like; and the score lies between -10 and 1580.
   */
  lemma WalkSummary(mem: MemoryReader, addr: int, base: int, moduleSize: int)
    ensures var a := Score(mem, addr, base, moduleSize);
            a.details.Walked? ==>
              var d := a.details;
              var ss := Scores(mem, base, moduleSize, d.headPtr, Min(MaxScanNodes, d.size));
              && d.hasMethods <= d.validElements <= |ss| <= Min(MaxScanNodes, d.size)
              && d.sampleNames == ValidNames(ss)[..Min(SampleCount, d.validElements)]
              && (forall k :: 0 <= k < |d.sampleNames| ==> IsClassLikeName(d.sampleNames[k]))
              && -10 <= a.score <= 1580
  {
    ScoreIsTally(mem, addr, base, moduleSize);
    if Score(mem, addr, base, moduleSize).details.Walked? {
      var h := HeaderOf(mem.ReadBytes(addr, HeaderWindow).value);
      ScoresShaped(mem, base, moduleSize, h.head, Min(MaxScanNodes, h.size));
      TallySummary(h, Scores(mem, base, moduleSize, h.head, Min(MaxScanNodes, h.size)));
    }
  }

  /**
   * The threshold example: a header that passes the checks, declares 500 to
   * 2000 elements, whose head node has no prev pointer and whose walk finds no
   * valid element scores exactly 100, so the sweep does not keep it.
   */
  lemma ExactlyHundred(mem: MemoryReader, addr: int, base: int, moduleSize: int)
    requires var a := Score(mem, addr, base, moduleSize);
             && a.details.Walked? && 500 <= a.details.size <= 2000 && a.details.validElements == 0
             && var first := mem.ReadBytes(a.details.headPtr, ScanNodeSize);
                first.Some? ==> U64(first.value, PrevOffset) == 0
    ensures Score(mem, addr, base, moduleSize).score == 100
  {
    var a := Score(mem, addr, base, moduleSize);
    var d := a.details;
    var bound := Min(MaxScanNodes, d.size);
    var ss := Scores(mem, base, moduleSize, d.headPtr, bound);
    WalkedScore(mem, addr, base, moduleSize);
    WalkSummary(mem, addr, base, moduleSize);
    ScoresShaped(mem, base, moduleSize, d.headPtr, bound);
    TallyBounds(ss);
    assert ValidNames(ss) == [];
    assert d.headPtr != 0 by {
      ScoreIsTally(mem, addr, base, moduleSize);
      PointerCharacterization(d.headPtr, base, moduleSize);
    }
    PenaltyFromHead(mem, base, moduleSize, d.headPtr, bound);
  }
}
