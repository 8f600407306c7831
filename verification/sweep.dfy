/**
 * `scan_for_classdb`: slide `score_hashmap` over the module's data sections
 * in steps of 8 bytes, keep every address scoring above 100 and sort the
 * survivors by score, highest first, keeping discovery order among equals.
 *
 * The sweep is specified over an arbitrary scorer `score: int -> Assessment`
 * so the facts about the sweep do not depend on how one address is scored;
 * `Scorer` plugs in `Scanner.Score`.
 */
module ClassDbScan {
  import opened Wrappers
  import opened Bytes
  import opened Strings
  import opened Memory
  import opened Process
  import opened Scanner
  import opened ScannerFacts

  /** An address is kept only when its score exceeds this. */
  const CandidateThreshold := 100
  /** The sweep advances one pointer width at a time. */
  const ScanStep := 8

  datatype Candidate = Candidate(address: int, offset: int, score: int, details: Details)

  // ---------------------------------------------------------------- sections

  /** A section is scanned when its lower-cased name contains `data` or `bss`. */
  predicate IsDataSection(s: Section)
  {
    Contains(Lower(s.name), Chars("data")) || Contains(Lower(s.name), Chars("bss"))
  }

  /** The data sections, in table order. */
  function DataFilter(sections: seq<Section>): (r: seq<Section>)
    ensures |r| <= |sections|
    ensures forall s :: s in r <==> s in sections && IsDataSection(s)
  {
    if sections == [] then []
    else (if IsDataSection(sections[0]) then [sections[0]] else []) + DataFilter(sections[1..])
  }

  /** Filtering keeps table order and multiplicity: the filter of two stretches of table is the filter of each, in turn. */
  lemma {:induction false} DataFilterAppend(a: seq<Section>, b: seq<Section>)
    ensures DataFilter(a + b) == DataFilter(a) + DataFilter(b)
    decreases |a|
  {
    if a == [] {
      assert a + b == b;
    } else {
      assert (a + b)[0] == a[0] && (a + b)[1..] == a[1..] + b;
      DataFilterAppend(a[1..], b);
    }
  }

  /** One section is kept, once, exactly when it is a data section. */
  lemma DataFilterOne(s: Section)
    ensures DataFilter([s]) == if IsDataSection(s) then [s] else []
  {
    assert [s][1..] == [];
  }

  /** Without any data section the whole module image is scanned as one section named `full`. */
  function FullImage(base: int, moduleSize: int): Section
  {
    Section(Chars("full"), base, moduleSize)
  }

  /** The sections `scan_for_classdb` sweeps. */
  function DataSections(sections: seq<Section>, base: int, moduleSize: int): seq<Section>
  {
    var found := DataFilter(sections);
    if found == [] then [FullImage(base, moduleSize)] else found
  }

  /**
   * The sections swept are the data sections of the table, in table order
   * (see `DataFilterAppend`), when there is one, and the whole image otherwise.
   */
  lemma DataSectionsChosen(sections: seq<Section>, base: int, moduleSize: int)
    ensures var chosen := DataSections(sections, base, moduleSize);
            && chosen != []
            && ((exists s :: s in sections && IsDataSection(s)) ==>
                  && chosen == DataFilter(sections)
                  && forall s :: s in chosen <==> s in sections && IsDataSection(s))
            && ((forall s :: s in sections ==> !IsDataSection(s)) ==>
                  chosen == [FullImage(base, moduleSize)])
  {
    var found := DataFilter(sections);
    if found != [] {
      assert found[0] in found;
    }
    if s :| s in sections && IsDataSection(s) {
      assert s in found;
    }
  }

  // ---------------------------------------------------------------- the sweep

  /** The `k`-th address probed from `start`. */
  function ScanAddress(start: int, k: nat): int
  {
    start + ScanStep * k
  }

  /** An address scoring above the threshold, turned into the candidate `c`. */
  predicate Kept(score: int -> Assessment, base: int, addr: int, c: Candidate)
  {
    score(addr).score > CandidateThreshold &&
    c == Candidate(addr, addr - base, score(addr).score, score(addr).details)
  }

  /** The candidate for one probed address: none, or the one whose score exceeds the threshold. */
  function Probe(score: int -> Assessment, base: int, addr: int): seq<Candidate>
  {
    var a := score(addr);
    if a.score > CandidateThreshold then [Candidate(addr, addr - base, a.score, a.details)] else []
  }

  /** The candidates of one section `[addr, end)`, probing while `addr < end - 48`, in address order. */
  function SweepSection(score: int -> Assessment, base: int, addr: int, end: int): seq<Candidate>
    decreases end - addr
  {
    if addr < end - HeaderWindow then Probe(score, base, addr) + SweepSection(score, base, addr + ScanStep, end)
    else []
  }

  /** The candidates of all sections, section after section, before sorting. */
  function SweepAll(score: int -> Assessment, base: int, sections: seq<Section>): seq<Candidate>
  {
    if sections == [] then []
    else
      var last := sections[|sections| - 1];
      SweepAll(score, base, sections[..|sections| - 1]) + SweepSection(score, base, last.va, last.va + last.size)
  }

  function Scorer(mem: MemoryReader, base: int, moduleSize: int): int -> Assessment
  {
    a => Score(mem, a, base, moduleSize)
  }

  /** The candidate list `scan_for_classdb` returns. */
  function ScanResult(mem: MemoryReader, base: int, moduleSize: int, sections: seq<Section>): seq<Candidate>
  {
    SortByScore(SweepAll(Scorer(mem, base, moduleSize), base, DataSections(sections, base, moduleSize)))
  }

  /**
   * A candidate comes from a section exactly when it is the candidate of
   * one of the probed addresses `start + 8k < end - 48` that scored above 100.
   */
  lemma {:induction false} SweepSectionMembers(score: int -> Assessment, base: int, addr: int, end: int, c: Candidate)
    ensures c in SweepSection(score, base, addr, end) <==>
              exists k: nat :: ScanAddress(addr, k) < end - HeaderWindow && Kept(score, base, ScanAddress(addr, k), c)
    decreases end - addr
  {
    if addr < end - HeaderWindow {
      var next := addr + ScanStep;
      SweepSectionMembers(score, base, next, end, c);
      assert SweepSection(score, base, addr, end) == Probe(score, base, addr) + SweepSection(score, base, next, end);
      if c in SweepSection(score, base, addr, end) {
        if c in Probe(score, base, addr) {
          assert ScanAddress(addr, 0) == addr;
        } else {
          var k: nat :| ScanAddress(next, k) < end - HeaderWindow && Kept(score, base, ScanAddress(next, k), c);
          assert ScanAddress(addr, k + 1) == ScanAddress(next, k);
        }
      }
      if k: nat :| ScanAddress(addr, k) < end - HeaderWindow && Kept(score, base, ScanAddress(addr, k), c) {
        if k == 0 {
          assert c in Probe(score, base, addr);
        } else {
          assert ScanAddress(next, k - 1) == ScanAddress(addr, k);
        }
      }
    } else {
      forall k: nat ensures !(ScanAddress(addr, k) < end - HeaderWindow) {
      }
    }
  }

  /** Which section a candidate came from: `c` is kept at one of its probed addresses. */
  ghost predicate FoundIn(score: int -> Assessment, base: int, s: Section, c: Candidate)
  {
    exists k: nat :: ScanAddress(s.va, k) < s.va + s.size - HeaderWindow && Kept(score, base, ScanAddress(s.va, k), c)
  }

  /** A candidate of the unsorted sweep is exactly one found in one of the swept sections. */
  lemma {:induction false} SweepAllMembers(score: int -> Assessment, base: int, sections: seq<Section>, c: Candidate)
    ensures c in SweepAll(score, base, sections) <==> exists s :: s in sections && FoundIn(score, base, s, c)
  {
    if sections != [] {
      var init := sections[..|sections| - 1];
      var last := sections[|sections| - 1];
      SweepAllMembers(score, base, init, c);
      SweepSectionMembers(score, base, last.va, last.va + last.size, c);
      assert sections == init + [last];
      var here := SweepSection(score, base, last.va, last.va + last.size);
      assert SweepAll(score, base, sections) == SweepAll(score, base, init) + here;
      if c in SweepAll(score, base, sections) {
        if c in SweepAll(score, base, init) {
          var s :| s in init && FoundIn(score, base, s, c);
          assert s in sections;
        } else {
          assert c in here;
          assert FoundIn(score, base, last, c);
        }
      }
      if s :| s in sections && FoundIn(score, base, s, c) {
        if s == last {
          assert c in here;
        } else {
          assert s in init;
        }
      }
    }
  }

  // ---------------------------------------------------------------- the sort

  /** `list.sort(key=score, reverse=True)` is stable: insert `c` before the first element scoring no more than it. */
  function InsertByScore(c: Candidate, sorted: seq<Candidate>): (r: seq<Candidate>)
    ensures |r| == |sorted| + 1
    ensures multiset(r) == multiset(sorted) + multiset{c}
    ensures r[0] == c || (sorted != [] && r[0] == sorted[0])
  {
    if sorted == [] || sorted[0].score <= c.score then [c] + sorted
    else
      assert sorted == [sorted[0]] + sorted[1..];
      [sorted[0]] + InsertByScore(c, sorted[1..])
  }

  function SortByScore(cs: seq<Candidate>): (r: seq<Candidate>)
    ensures multiset(r) == multiset(cs)
  {
    if cs == [] then []
    else
      assert cs == [cs[0]] + cs[1..];
      InsertByScore(cs[0], SortByScore(cs[1..]))
  }

  predicate SortedByScore(cs: seq<Candidate>)
  {
    forall i, j :: 0 <= i < j < |cs| ==> cs[i].score >= cs[j].score
  }

  /** The candidates of one score, in list order. */
  function WithScore(cs: seq<Candidate>, v: int): seq<Candidate>
  {
    if cs == [] then []
    else (if cs[0].score == v then [cs[0]] else []) + WithScore(cs[1..], v)
  }

  lemma SortedCons(h: Candidate, rest: seq<Candidate>)
    requires SortedByScore(rest)
    requires rest != [] ==> h.score >= rest[0].score
    ensures SortedByScore([h] + rest)
  {
    var r := [h] + rest;
    forall i, j | 0 <= i < j < |r| ensures r[i].score >= r[j].score {
      if i == 0 && j > 1 {
        assert r[1] == rest[0] && r[j] == rest[j - 1];
      }
    }
  }

  lemma {:induction false} InsertSorted(c: Candidate, sorted: seq<Candidate>)
    requires SortedByScore(sorted)
    ensures SortedByScore(InsertByScore(c, sorted))
  {
    if sorted == [] || sorted[0].score <= c.score {
      SortedCons(c, sorted);
    } else {
      var tail := sorted[1..];
      InsertSorted(c, tail);
      var rest := InsertByScore(c, tail);
      assert tail != [] ==> tail[0] == sorted[1];
      SortedCons(sorted[0], rest);
    }
  }

  /** The sorted list is ordered by score, highest first, and holds the same candidates. */
  lemma {:induction false} SortByScoreSorted(cs: seq<Candidate>)
    ensures SortedByScore(SortByScore(cs))
    ensures multiset(SortByScore(cs)) == multiset(cs)
  {
    if cs != [] {
      SortByScoreSorted(cs[1..]);
      InsertSorted(cs[0], SortByScore(cs[1..]));
    }
  }

  lemma {:induction false} InsertKeepsTies(c: Candidate, sorted: seq<Candidate>, v: int)
    ensures WithScore(InsertByScore(c, sorted), v) == (if c.score == v then [c] else []) + WithScore(sorted, v)
  {
    if sorted == [] || sorted[0].score <= c.score {
      assert ([c] + sorted)[1..] == sorted;
    } else {
      var tail := sorted[1..];
      InsertKeepsTies(c, tail, v);
      var r := [sorted[0]] + InsertByScore(c, tail);
      assert r[1..] == InsertByScore(c, tail);
    }
  }

  /** The sort is stable: candidates with equal scores keep their discovery order. */
  lemma {:induction false} SortByScoreStable(cs: seq<Candidate>, v: int)
    ensures WithScore(SortByScore(cs), v) == WithScore(cs, v)
  {
    if cs != [] {
      SortByScoreStable(cs[1..], v);
      InsertKeepsTies(cs[0], SortByScore(cs[1..]), v);
    }
  }

  // ---------------------------------------------------------------- the whole scan

  /**
   * The returned list is ordered by score, highest first, is a permutation
   * of the sweep's candidates in section and address order, and keeps that
   * order among candidates of equal score.
   */
  lemma ScanResultOrdered(mem: MemoryReader, base: int, moduleSize: int, sections: seq<Section>)
    ensures var swept := SweepAll(Scorer(mem, base, moduleSize), base, DataSections(sections, base, moduleSize));
            var r := ScanResult(mem, base, moduleSize, sections);
            && SortedByScore(r)
            && multiset(r) == multiset(swept)
            && forall v :: WithScore(r, v) == WithScore(swept, v)
  {
    var swept := SweepAll(Scorer(mem, base, moduleSize), base, DataSections(sections, base, moduleSize));
    SortByScoreSorted(swept);
    forall v ensures WithScore(SortByScore(swept), v) == WithScore(swept, v) {
      SortByScoreStable(swept, v);
    }
  }

  /**
   * A candidate is in the returned list exactly when it is found in one of the
   * swept sections: the data sections, or the whole image when there is none.
   * Every candidate scored above 100 at its address, its offset is its address
   * less the module base, and its score and details are those `score_hashmap`
   * gives at that address.
   */
  lemma ScanResultMembers(mem: MemoryReader, base: int, moduleSize: int, sections: seq<Section>, c: Candidate)
    ensures c in ScanResult(mem, base, moduleSize, sections) <==>
              exists s :: s in DataSections(sections, base, moduleSize) && FoundIn(Scorer(mem, base, moduleSize), base, s, c)
    ensures c in ScanResult(mem, base, moduleSize, sections) ==>
              && c.score > CandidateThreshold
              && c.offset == c.address - base
              && Assessment(c.score, c.details) == Score(mem, c.address, base, moduleSize)
  {
    var score := Scorer(mem, base, moduleSize);
    var swept := SweepAll(score, base, DataSections(sections, base, moduleSize));
    assert c in ScanResult(mem, base, moduleSize, sections) <==> c in swept by {
      SortByScoreSorted(swept);
      assert c in multiset(ScanResult(mem, base, moduleSize, sections)) <==> c in multiset(swept);
    }
    SweepAllMembers(score, base, DataSections(sections, base, moduleSize), c);
  }

  /** A header `score_hashmap` rates exactly 100 never becomes a candidate. */
  lemma HundredNotKept(mem: MemoryReader, base: int, moduleSize: int, sections: seq<Section>, addr: int)
    requires Score(mem, addr, base, moduleSize).score == 100
    ensures forall c :: c in ScanResult(mem, base, moduleSize, sections) ==> c.address != addr
  {
    forall c | c in ScanResult(mem, base, moduleSize, sections) ensures c.address != addr {
      ScanResultMembers(mem, base, moduleSize, sections, c);
    }
  }

  // ---------------------------------------------------------------- the loops

  lemma SweepSectionStep(score: int -> Assessment, base: int, addr: int, end: int)
    requires addr < end - HeaderWindow
    ensures SweepSection(score, base, addr, end) == Probe(score, base, addr) + SweepSection(score, base, addr + ScanStep, end)
  {
  }

  /**
   * `score` agrees with `score_hashmap` at every address probed from `start`;
   * the trigger keeps the solver from expanding the scorer anywhere else.
   */
  ghost predicate ScoresFrom(score: int -> Assessment, mem: MemoryReader, base: int, moduleSize: int, start: int)
  {
    forall k: nat {:trigger ScanAddress(start, k)} ::
      score(ScanAddress(start, k)) == Score(mem, ScanAddress(start, k), base, moduleSize)
  }

  /** The `k`-th probe of a section: score the header there and keep it when it scores above 100. */
  method ProbeAddress(mem: MemoryReader, base: int, moduleSize: int, start: int, k: nat, candidates0: seq<Candidate>,
                      ghost score: int -> Assessment)
    returns (candidates: seq<Candidate>)
    requires ScoresFrom(score, mem, base, moduleSize, start)
    ensures candidates == candidates0 + Probe(score, base, start + ScanStep * k)
  {
    var addr := start + ScanStep * k;
    assert score(addr) == Score(mem, addr, base, moduleSize) by {
      assert addr == ScanAddress(start, k);
    }
    var s, details := ScoreHashmap(mem, addr, base, moduleSize);
    candidates := candidates0;
    if s > CandidateThreshold {
      candidates := candidates + [Candidate(addr, addr - base, s, details)];
    }
  }

  /** The inner `while` loop over one section, appending to `candidates`. */
  method ScanSection(mem: MemoryReader, base: int, moduleSize: int, start: int, end: int, candidates0: seq<Candidate>,
                     ghost score: int -> Assessment)
    returns (candidates: seq<Candidate>)
    requires ScoresFrom(score, mem, base, moduleSize, start)
    ensures candidates == candidates0 + SweepSection(score, base, start, end)
  {
    candidates := candidates0;
    var addr := start;
    var k: nat := 0;
    while addr < end - HeaderWindow
      invariant addr == start + ScanStep * k
      invariant candidates + SweepSection(score, base, addr, end) == candidates0 + SweepSection(score, base, start, end)
      decreases end - addr
    {
      ghost var before := candidates;
      SweepSectionStep(score, base, addr, end);
      candidates := ProbeAddress(mem, base, moduleSize, start, k, candidates, score);
      assert candidates + SweepSection(score, base, addr + ScanStep, end) == before + SweepSection(score, base, addr, end);
      addr := addr + ScanStep;
      k := k + 1;
    }
    assert SweepSection(score, base, addr, end) == [];
  }

  /** The sections to sweep: the data sections, or the whole image when there is none. */
  method ChooseSections(sections: seq<Section>, base: int, moduleSize: int) returns (chosen: seq<Section>)
    ensures chosen == DataSections(sections, base, moduleSize)
  {
    chosen := DataFilter(sections);
    if |chosen| == 0 {
      chosen := [FullImage(base, moduleSize)];
    }
  }

  /** The outer `for` loop: sweep each chosen section in turn. */
  method SweepSections(mem: MemoryReader, base: int, moduleSize: int, chosen: seq<Section>)
    returns (candidates: seq<Candidate>)
    ensures candidates == SweepAll(Scorer(mem, base, moduleSize), base, chosen)
  {
    ghost var score := Scorer(mem, base, moduleSize);
    candidates := [];
    for j := 0 to |chosen|
      invariant candidates == SweepAll(score, base, chosen[..j])
    {
      var sec := chosen[j];
      var start := sec.va;
      var end := start + sec.size;
      assert ScoresFrom(score, mem, base, moduleSize, start);
      candidates := ScanSection(mem, base, moduleSize, start, end, candidates, score);
      assert chosen[..j + 1][..j] == chosen[..j];
    }
    assert chosen[..|chosen|] == chosen;
  }

  /** `scan_for_classdb`: choose the sections, sweep each in turn, then sort by score, highest first. */
  method ScanForClassdb(mem: MemoryReader, base: int, moduleSize: int, sections: seq<Section>)
    returns (candidates: seq<Candidate>)
    ensures candidates == ScanResult(mem, base, moduleSize, sections)
  {
    var dataSections := ChooseSections(sections, base, moduleSize);
    candidates := SweepSections(mem, base, moduleSize, dataSections);
    candidates := SortByScore(candidates);
  }
}
