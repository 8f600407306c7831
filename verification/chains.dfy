/**
 * The bounded walk over a hash map's linked element list that the scanner
 * and the decoder share: start at the head, read one node at a time, follow
 * the next pointer at node offset 0, and stop at a null pointer, a failed
 * read or the step bound, whichever comes first.
 */
module Chains {
  import opened Wrappers
  import opened Bytes
  import opened Memory

  /** One node read during a walk: its address and its raw bytes. */
  datatype Node = Node(addr: int, data: seq<byte>)

  predicate NodesOfSize(nodes: seq<Node>, nodeSize: nat)
  {
    forall k :: 0 <= k < |nodes| ==> |nodes[k].data| == nodeSize
  }

  /** The next pointer of a node. */
  function NextOf(n: Node): nat
    requires |n.data| >= 8
  {
    U64(n.data, 0)
  }

  /** The nodes visited from `current` with at most `fuel` further steps. */
  function Chain(mem: MemoryReader, current: int, nodeSize: nat, fuel: nat): (r: seq<Node>)
    requires nodeSize >= 8
    ensures |r| <= fuel
    ensures NodesOfSize(r, nodeSize)
    decreases fuel
  {
    if fuel == 0 || current == 0 then []
    else match mem.ReadBytes(current, nodeSize)
      case None => []
      case Some(d) => [Node(current, d)] + Chain(mem, U64(d, 0), nodeSize, fuel - 1)
  }

  /** The walk is empty when it starts at null, has no steps left, or cannot read its first node. */
  lemma ChainEnds(mem: MemoryReader, current: int, nodeSize: nat, fuel: nat)
    requires nodeSize >= 8
    requires current == 0 || fuel == 0 || mem.ReadBytes(current, nodeSize).None?
    ensures Chain(mem, current, nodeSize, fuel) == []
  {
  }

  /** One step of the walk: a live, readable node, then the walk from its next pointer with one step less. */
  lemma ChainStep(mem: MemoryReader, current: int, nodeSize: nat, fuel: nat, nextFuel: nat)
    requires nodeSize >= 8 && current != 0 && fuel == nextFuel + 1
    requires mem.ReadBytes(current, nodeSize).Some?
    ensures var d := mem.ReadBytes(current, nodeSize).value;
            Chain(mem, current, nodeSize, fuel) == [Node(current, d)] + Chain(mem, U64(d, 0), nodeSize, nextFuel)
  {
  }

  /**
   * The walk follows the list: the first node is the head, each further node
   * is the one its predecessor's next pointer names, no visited address is
   * null, and each node's bytes are what the memory holds there.
   */
  lemma {:induction false} ChainFollowsLinks(mem: MemoryReader, current: int, nodeSize: nat, fuel: nat)
    requires nodeSize >= 8
    ensures var r := Chain(mem, current, nodeSize, fuel);
            && (|r| > 0 ==> r[0].addr == current)
            && (forall k :: 0 <= k < |r| ==> r[k].addr != 0 && mem.ReadBytes(r[k].addr, nodeSize) == Some(r[k].data))
            && (forall k :: 0 < k < |r| ==> r[k].addr == NextOf(r[k - 1]))
    decreases fuel
  {
    if fuel > 0 && current != 0 && mem.ReadBytes(current, nodeSize).Some? {
      var d := mem.ReadBytes(current, nodeSize).value;
      ChainFollowsLinks(mem, U64(d, 0), nodeSize, fuel - 1);
    }
  }

  /**
   * The walk stops early only for a reason: if it visits fewer nodes than its
   * bound, the last node's next pointer is null or the node it names cannot be read.
   */
  lemma {:induction false} ChainStopsForAReason(mem: MemoryReader, current: int, nodeSize: nat, fuel: nat)
    requires nodeSize >= 8
    requires current != 0 && mem.ReadBytes(current, nodeSize).Some?
    ensures var r := Chain(mem, current, nodeSize, fuel);
            fuel > 0 && |r| < fuel ==>
              |r| > 0 && (NextOf(r[|r| - 1]) == 0 || mem.ReadBytes(NextOf(r[|r| - 1]), nodeSize).None?)
    decreases fuel
  {
    if fuel > 0 {
      var d := mem.ReadBytes(current, nodeSize).value;
      var next := U64(d, 0);
      if next != 0 && mem.ReadBytes(next, nodeSize).Some? {
        ChainStopsForAReason(mem, next, nodeSize, fuel - 1);
      }
    }
  }

  // ------------------------------------------------------------ collecting over a walk

  /** What a walk yields: each node's contribution, concatenated in walk order. */
  function Collect<T>(f: Node -> seq<T>, nodes: seq<Node>): seq<T>
  {
    if nodes == [] then [] else f(nodes[0]) + Collect(f, nodes[1..])
  }

  lemma CollectCons<T>(f: Node -> seq<T>, n: Node, rest: seq<Node>)
    ensures Collect(f, [n] + rest) == f(n) + Collect(f, rest)
  {
    var s := [n] + rest;
    assert s[0] == n;
    assert s[1..] == rest;
  }

  /** Collecting keeps walk order: the yield of a concatenation is the concatenation of the yields. */
  lemma {:induction false} CollectAppend<T>(f: Node -> seq<T>, a: seq<Node>, b: seq<Node>)
    ensures Collect(f, a + b) == Collect(f, a) + Collect(f, b)
  {
    if a != [] {
      assert a == [a[0]] + a[1..];
      assert a + b == [a[0]] + (a[1..] + b);
      CollectAppend(f, a[1..], b);
      CollectCons(f, a[0], a[1..] + b);
      CollectCons(f, a[0], a[1..]);
    } else {
      assert a + b == b;
    }
  }

  /** When each node contributes at most one record, a walk yields at most one record per node. */
  lemma {:induction false} CollectBound<T>(f: Node -> seq<T>, nodes: seq<Node>)
    requires forall n :: |f(n)| <= 1
    ensures |Collect(f, nodes)| <= |nodes|
  {
    if nodes != [] {
      CollectBound(f, nodes[1..]);
    }
  }

  /** When each node of the walk's size contributes exactly one record, a walk yields one record per node. */
  lemma {:induction false} CollectExact<T>(f: Node -> seq<T>, nodes: seq<Node>, nodeSize: nat)
    requires NodesOfSize(nodes, nodeSize)
    requires forall n: Node :: |n.data| == nodeSize ==> |f(n)| == 1
    ensures |Collect(f, nodes)| == |nodes|
  {
    if nodes != [] {
      assert |nodes[0].data| == nodeSize;
      CollectExact(f, nodes[1..], nodeSize);
    }
  }

  /** Everything a walk yields was contributed by one of its nodes. */
  lemma {:induction false} CollectMembers<T>(f: Node -> seq<T>, nodes: seq<Node>)
    ensures forall x :: x in Collect(f, nodes) ==> exists n :: n in nodes && x in f(n)
  {
    if nodes != [] {
      CollectMembers(f, nodes[1..]);
      forall x | x in Collect(f, nodes) ensures exists n :: n in nodes && x in f(n) {
        assert Collect(f, nodes) == f(nodes[0]) + Collect(f, nodes[1..]);
        if x !in f(nodes[0]) {
          assert x in Collect(f, nodes[1..]);
          var n :| n in nodes[1..] && x in f(n);
          assert n in nodes;
        }
      }
    }
  }

  /** A property every node's contribution has, every record of the walk has. */
  lemma {:induction false} CollectAll<T>(f: Node -> seq<T>, nodes: seq<Node>, p: T -> bool)
    requires forall n: Node, x: T :: x in f(n) ==> p(x)
    ensures forall k :: 0 <= k < |Collect(f, nodes)| ==> p(Collect(f, nodes)[k])
  {
    if nodes != [] {
      CollectAll(f, nodes[1..], p);
      var head := f(nodes[0]);
      var rest := Collect(f, nodes[1..]);
      forall k | 0 <= k < |head + rest| ensures p((head + rest)[k]) {
        if k < |head| {
          assert (head + rest)[k] in f(nodes[0]);
        } else {
          assert (head + rest)[k] == rest[k - |head|];
        }
      }
    }
  }

  /** One step of a collecting walk, carried over an accumulator. */
  lemma CollectStep<T>(f: Node -> seq<T>, mem: MemoryReader, current: int, nodeSize: nat, fuel: nat, nextFuel: nat,
                       before: seq<T>, total: seq<T>)
    requires nodeSize >= 8 && current != 0 && fuel == nextFuel + 1
    requires mem.ReadBytes(current, nodeSize).Some?
    requires before + Collect(f, Chain(mem, current, nodeSize, fuel)) == total
    ensures var d := mem.ReadBytes(current, nodeSize).value;
            (before + f(Node(current, d))) + Collect(f, Chain(mem, U64(d, 0), nodeSize, nextFuel)) == total
  {
    var d := mem.ReadBytes(current, nodeSize).value;
    var rest := Chain(mem, U64(d, 0), nodeSize, nextFuel);
    ChainStep(mem, current, nodeSize, fuel, nextFuel);
    CollectCons(f, Node(current, d), rest);
    var a := f(Node(current, d));
    var b := Collect(f, rest);
    assert before + (a + b) == (before + a) + b;
  }
}
