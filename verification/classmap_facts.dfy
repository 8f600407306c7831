/** What the class dictionary built by `dump_all_classes` holds. */
module ClassMapFacts {
  import opened Strings
  import opened Memory
  import opened Chains
  import opened Records
  import opened Parser
  import opened Registry
  import opened ClassMap

  /** A class-map node contributes at most one class, named and not yet sized. */
  lemma DecoderNamedSingles(mem: MemoryReader, base: int, moduleSize: int)
    ensures NamedSingles(ClassDecoder(mem, base, moduleSize))
  {
  }

  /** Registering what a walk from a header decodes keeps each class under its own non-empty name, unsized. */
  lemma WalkRegistryNamed(mem: MemoryReader, decode: Node -> seq<ClassRecord>, h: HeaderOutcome)
    requires NamedSingles(decode)
    ensures var all := Register(map[], WalkRecords(mem, decode, h));
            forall k :: k in all ==> all[k].name == k && |k| > 0 && all[k].size.None?
  {
    if h.MapAt? {
      var walk := Chain(mem, h.head, BucketNodeSize, h.size + ClassSlack);
      assert WalkRecords(mem, decode, h) == Collect(decode, walk);
      RegisterWalk(decode, walk);
    }
  }

  /** A walk registers at most the declared count plus 100 classes; no walk registers none. */
  lemma WalkRegistryCount(mem: MemoryReader, decode: Node -> seq<ClassRecord>, h: HeaderOutcome)
    requires NamedSingles(decode)
    ensures h.MapAt? ==> |Register(map[], WalkRecords(mem, decode, h)).Keys| <= h.size + ClassSlack
    ensures !h.MapAt? ==> Register(map[], WalkRecords(mem, decode, h)) == map[]
  {
    if h.MapAt? {
      var walk := Chain(mem, h.head, BucketNodeSize, h.size + ClassSlack);
      assert WalkRecords(mem, decode, h) == Collect(decode, walk);
      RegisterWalk(decode, walk);
    }
  }

  /** The dictionary holds exactly the names the walk decoded. */
  lemma AllClassesKeys(mem: MemoryReader, addr: int, base: int, moduleSize: int)
    ensures forall k :: k in AllClasses(mem, addr, base, moduleSize) <==> Carries(ClassRecords(mem, addr, base, moduleSize), k)
  {
    RegisterKeys(map[], ClassRecords(mem, addr, base, moduleSize));
  }

  /** Each class is stored under its own non-empty name, and no class is sized yet. */
  lemma AllClassesKeyedByName(mem: MemoryReader, addr: int, base: int, moduleSize: int)
    ensures var all := AllClasses(mem, addr, base, moduleSize);
            forall k :: k in all ==> all[k].name == k && |k| > 0 && all[k].size.None?
  {
    DecoderNamedSingles(mem, base, moduleSize);
    WalkRegistryNamed(mem, ClassDecoder(mem, base, moduleSize), Header(mem, addr));
  }

  /** An empty or unreadable header gives no classes; a walk gives at most one class per step. */
  lemma AllClassesCount(mem: MemoryReader, addr: int, base: int, moduleSize: int)
    ensures !Header(mem, addr).MapAt? ==> AllClasses(mem, addr, base, moduleSize) == map[]
    ensures Header(mem, addr).MapAt? ==> |AllClasses(mem, addr, base, moduleSize).Keys| <= Header(mem, addr).size + ClassSlack
  {
    DecoderNamedSingles(mem, base, moduleSize);
    WalkRegistryCount(mem, ClassDecoder(mem, base, moduleSize), Header(mem, addr));
  }

  /** Last write wins: a name repeated along the walk keeps the last class that carries it. */
  lemma AllClassesLastWins(mem: MemoryReader, addr: int, base: int, moduleSize: int, i: nat)
    requires var rs := ClassRecords(mem, addr, base, moduleSize);
             i < |rs| && forall j :: i < j < |rs| ==> rs[j].name != rs[i].name
    ensures var rs := ClassRecords(mem, addr, base, moduleSize);
            rs[i].name in AllClasses(mem, addr, base, moduleSize) && AllClasses(mem, addr, base, moduleSize)[rs[i].name] == rs[i]
  {
    RegisterLastWins(map[], ClassRecords(mem, addr, base, moduleSize), i);
  }
}
