/**
 * The class dictionary `dump_all_classes` fills: `classes[name] = record`
 * for each decoded class in walk order, so a later class of the same name
 * replaces an earlier one.
 */
module Registry {
  import opened Bytes
  import opened Strings
  import opened Memory
  import opened Chains
  import opened Records

  /**
   * `classes[name] = record` for each record in order, starting from `acc`:
   * a later class of the same name replaces an earlier one.
   */
  function Register(acc: map<Text, ClassRecord>, rs: seq<ClassRecord>): map<Text, ClassRecord>
    decreases rs
  {
    if rs == [] then acc else Register(acc[rs[0].name := rs[0]], rs[1..])
  }

  lemma {:induction false} RegisterAppend(acc: map<Text, ClassRecord>, a: seq<ClassRecord>, b: seq<ClassRecord>)
    ensures Register(acc, a + b) == Register(Register(acc, a), b)
    decreases a
  {
    if a == [] {
      assert a + b == b;
    } else {
      assert (a + b)[0] == a[0];
      assert (a + b)[1..] == a[1..] + b;
      RegisterAppend(acc[a[0].name := a[0]], a[1..], b);
    }
  }

  /** Some record of `rs` carries the name `k`. */
  predicate Carries(rs: seq<ClassRecord>, k: Text)
  {
    exists i :: 0 <= i < |rs| && rs[i].name == k
  }

  /** The registered names are the names already present and those the records carry, no others. */
  lemma {:induction false} RegisterKeys(acc: map<Text, ClassRecord>, rs: seq<ClassRecord>)
    ensures forall k :: k in Register(acc, rs) <==> k in acc || Carries(rs, k)
    decreases rs
  {
    if rs != [] {
      var acc' := acc[rs[0].name := rs[0]];
      RegisterKeys(acc', rs[1..]);
      forall k | Carries(rs[1..], k)
        ensures Carries(rs, k)
      {
        var i :| 0 <= i < |rs[1..]| && rs[1..][i].name == k;
        assert rs[i + 1].name == k;
      }
      forall k | Carries(rs, k)
        ensures k in acc' || Carries(rs[1..], k)
      {
        var i :| 0 <= i < |rs| && rs[i].name == k;
        if i > 0 {
          assert rs[1..][i - 1].name == k;
        }
      }
    }
  }

  /** A name no record carries keeps its entry. */
  lemma {:induction false} RegisterUntouched(acc: map<Text, ClassRecord>, rs: seq<ClassRecord>, k: Text)
    requires forall j :: 0 <= j < |rs| ==> rs[j].name != k
    ensures k in Register(acc, rs) <==> k in acc
    ensures k in acc ==> Register(acc, rs)[k] == acc[k]
    decreases rs
  {
    if rs != [] {
      assert rs[0].name != k;
      forall j | 0 <= j < |rs[1..]| ensures rs[1..][j].name != k {
        assert rs[1..][j] == rs[j + 1];
      }
      RegisterUntouched(acc[rs[0].name := rs[0]], rs[1..], k);
    }
  }

  /** Last write wins: the record stored under a name is the last record carrying it. */
  lemma {:induction false} RegisterLastWins(acc: map<Text, ClassRecord>, rs: seq<ClassRecord>, i: nat)
    requires i < |rs|
    requires forall j :: i < j < |rs| ==> rs[j].name != rs[i].name
    ensures rs[i].name in Register(acc, rs) && Register(acc, rs)[rs[i].name] == rs[i]
    decreases rs
  {
    var acc' := acc[rs[0].name := rs[0]];
    if i == 0 {
      forall j | 0 <= j < |rs[1..]| ensures rs[1..][j].name != rs[0].name {
        assert rs[1..][j] == rs[j + 1];
      }
      RegisterUntouched(acc', rs[1..], rs[0].name);
    } else {
      forall j | i - 1 < j < |rs[1..]| ensures rs[1..][j].name != rs[1..][i - 1].name {
        assert rs[1..][j] == rs[j + 1];
      }
      RegisterLastWins(acc', rs[1..], i - 1);
    }
  }

  /** Registering adds at most one name per record. */
  lemma {:induction false} RegisterCount(acc: map<Text, ClassRecord>, rs: seq<ClassRecord>)
    ensures |Register(acc, rs).Keys| <= |acc.Keys| + |rs|
    decreases rs
  {
    if rs != [] {
      var acc' := acc[rs[0].name := rs[0]];
      assert acc'.Keys == acc.Keys + {rs[0].name};
      RegisterCount(acc', rs[1..]);
    }
  }

  /** Every entry is one `acc` already held under that name, or one of the records. */
  lemma {:induction false} RegisterValues(acc: map<Text, ClassRecord>, rs: seq<ClassRecord>)
    ensures forall k :: k in Register(acc, rs) ==>
              (k in acc && Register(acc, rs)[k] == acc[k]) || Register(acc, rs)[k] in rs
    decreases rs
  {
    if rs != [] {
      RegisterValues(acc[rs[0].name := rs[0]], rs[1..]);
      forall k | k in Register(acc, rs) && Register(acc, rs)[k] in rs[1..] ensures Register(acc, rs)[k] in rs {
      }
    }
  }

  /** Every entry is stored under its own name, when that already holds of `acc`. */
  lemma {:induction false} RegisterKeyedByName(acc: map<Text, ClassRecord>, rs: seq<ClassRecord>)
    requires forall k :: k in acc ==> acc[k].name == k
    ensures forall k :: k in Register(acc, rs) ==> Register(acc, rs)[k].name == k
    decreases rs
  {
    if rs != [] {
      RegisterKeyedByName(acc[rs[0].name := rs[0]], rs[1..]);
    }
  }

  /** One step of a registering walk, carried over the dictionary built so far. */
  lemma RegisterWalkStep(f: Node -> seq<ClassRecord>, mem: MemoryReader, current: int, nodeSize: nat,
                         fuel: nat, nextFuel: nat,
                         acc: map<Text, ClassRecord>, total: map<Text, ClassRecord>)
    requires nodeSize >= 8 && current != 0 && fuel == nextFuel + 1
    requires mem.ReadBytes(current, nodeSize).Some?
    requires Register(acc, Collect(f, Chain(mem, current, nodeSize, fuel))) == total
    ensures var d := mem.ReadBytes(current, nodeSize).value;
            Register(Register(acc, f(Node(current, d))), Collect(f, Chain(mem, U64(d, 0), nodeSize, nextFuel))) == total
  {
    var d := mem.ReadBytes(current, nodeSize).value;
    var rest := Chain(mem, U64(d, 0), nodeSize, nextFuel);
    ChainStep(mem, current, nodeSize, fuel, nextFuel);
    CollectCons(f, Node(current, d), rest);
    RegisterAppend(acc, f(Node(current, d)), Collect(f, rest));
  }

  /** A walk with nothing left to visit has already registered everything. */
  lemma RegisterWalkDone(f: Node -> seq<ClassRecord>, mem: MemoryReader, current: int, nodeSize: nat, fuel: nat,
                         acc: map<Text, ClassRecord>, total: map<Text, ClassRecord>)
    requires nodeSize >= 8
    requires current == 0 || fuel == 0 || mem.ReadBytes(current, nodeSize).None?
    requires Register(acc, Collect(f, Chain(mem, current, nodeSize, fuel))) == total
    ensures acc == total
  {
    ChainEnds(mem, current, nodeSize, fuel);
  }

  /** Registering at most one record is a single keyed store, or nothing. */
  lemma RegisterAtMostOne(acc: map<Text, ClassRecord>, found: seq<ClassRecord>)
    requires |found| <= 1
    ensures |found| == 1 ==> Register(acc, found) == acc[found[0].name := found[0]]
    ensures |found| == 0 ==> Register(acc, found) == acc
  {
    if |found| == 1 {
      assert found[1..] == [];
    }
  }

  /** A decoder that yields at most one class per node, named and not yet sized. */
  ghost predicate NamedSingles(f: Node -> seq<ClassRecord>)
  {
    forall n :: |f(n)| <= 1 && forall c :: c in f(n) ==> |c.name| > 0 && c.size.None?
  }

  /**
   * Registering what a walk yields, for any decoder that gives at most one
   * named, unsized class per node: exactly the names carried, each entry under
   * its own non-empty name, at most one name per node.
   */
  lemma RegisterWalk(f: Node -> seq<ClassRecord>, nodes: seq<Node>)
    requires NamedSingles(f)
    ensures var all := Register(map[], Collect(f, nodes));
            && (forall k :: k in all <==> Carries(Collect(f, nodes), k))
            && (forall k :: k in all ==> all[k].name == k && |k| > 0 && all[k].size.None?)
            && |all.Keys| <= |nodes|
  {
    var rs := Collect(f, nodes);
    var all := Register(map[], rs);
    RegisterKeys(map[], rs);
    RegisterKeyedByName(map[], rs);
    RegisterCount(map[], rs);
    RegisterValues(map[], rs);
    CollectBound(f, nodes);
    CollectMembers(f, nodes);
    forall k | k in all ensures |k| > 0 && all[k].size.None? {
      var n :| n in nodes && all[k] in f(n);
    }
  }
}
