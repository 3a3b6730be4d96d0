/** The two-slot table in which the map counts its live nodes by size. */
module NodeCounts {
  import opened NodeStore
  import opened Rebalance
  import opened Growth
  import opened Ranks

  /** `size_of` a leaf and of an internal node with word-sized keys and values. Both are multiples
      of 8 below 1024, so they are size classes and a node's real size is its size. */
  const LEAF_SIZE: nat := 192
  const INTERNAL_SIZE: nat := 288

  datatype Slot = Slot(size: nat, count: nat)

  datatype SelfAllocatedMemory = SelfAllocatedMemory(first: Slot, second: Slot) {
    /** A slot not in use has size 0; the second is not used before the first. */
    predicate Valid() {
      && (first.size == 0 ==> first.count == 0 && second.size == 0)
      && (second.size == 0 ==> second.count == 0)
      && (first.size == second.size ==> first.size == 0)
      && first.size in {0, LEAF_SIZE, INTERNAL_SIZE} && second.size in {0, LEAF_SIZE, INTERNAL_SIZE}
    }

    function CountFor(size: nat): nat
      requires size > 0
    {
      if first.size == size then first.count else if second.size == size then second.count else 0
    }

    /** One more node of this size, and no other count touched. */
    function Inc(size: nat): (r: SelfAllocatedMemory)
      requires Valid() && size in {LEAF_SIZE, INTERNAL_SIZE}
      ensures r.Valid()
      ensures forall s :: s > 0 ==> r.CountFor(s) == CountFor(s) + (if s == size then 1 else 0)
    {
      if first.size == size then this.(first := Slot(size, first.count + 1))
      else if second.size == size then this.(second := Slot(size, second.count + 1))
      else if first.size == 0 then this.(first := Slot(size, first.count + 1))
      else this.(second := Slot(size, second.count + 1))
    }

    /** One node of this size fewer. The table looks at the first size only. */
    function Dec(size: nat): (r: SelfAllocatedMemory)
      requires Valid() && size in {LEAF_SIZE, INTERNAL_SIZE} && CountFor(size) > 0
      ensures r.Valid()
      ensures forall s :: s > 0 ==> r.CountFor(s) == CountFor(s) - (if s == size then 1 else 0)
    {
      if first.size == size then this.(first := Slot(size, first.count - 1))
      else this.(second := Slot(second.size, second.count - 1))
    }
  }

  function NodeSize(height: nat): nat {
    if height == 0 then LEAF_SIZE else INTERNAL_SIZE
  }

  ghost function NodesOfSize(mem: Mem, size: nat): set<Ptr> {
    set p | p in mem && NodeSize(mem[p].height) == size
  }

  /** The table counts exactly the live leaves and the live internal nodes. */
  ghost predicate Counted(mem: Mem, a: SelfAllocatedMemory) {
    && a.Valid()
    && a.CountFor(LEAF_SIZE) == |NodesOfSize(mem, LEAF_SIZE)|
    && a.CountFor(INTERNAL_SIZE) == |NodesOfSize(mem, INTERNAL_SIZE)|
  }

  lemma CountedSame(mem: Mem, mem': Mem, a: SelfAllocatedMemory)
    requires Counted(mem, a) && mem'.Keys == mem.Keys && forall p :: p in mem ==> mem'[p].height == mem[p].height
    ensures Counted(mem', a)
  {
    assert NodesOfSize(mem', LEAF_SIZE) == NodesOfSize(mem, LEAF_SIZE);
    assert NodesOfSize(mem', INTERNAL_SIZE) == NodesOfSize(mem, INTERNAL_SIZE);
  }

  lemma NodesAlloc(mem: Mem, mem': Mem, p: Ptr, size: nat)
    requires p !in mem && mem'.Keys == mem.Keys + {p} && forall q :: q in mem ==> mem'[q].height == mem[q].height
    ensures NodesOfSize(mem', size) == NodesOfSize(mem, size) + (if NodeSize(mem'[p].height) == size then {p} else {})
    ensures p !in NodesOfSize(mem, size)
  {}

  lemma CountedAlloc(mem: Mem, mem': Mem, a: SelfAllocatedMemory, p: Ptr)
    requires Counted(mem, a)
    requires p !in mem && mem'.Keys == mem.Keys + {p} && forall q :: q in mem ==> mem'[q].height == mem[q].height
    ensures Counted(mem', a.Inc(NodeSize(mem'[p].height)))
  {
    NodesAlloc(mem, mem', p, LEAF_SIZE);
    NodesAlloc(mem, mem', p, INTERNAL_SIZE);
    var size := NodeSize(mem'[p].height);
    assert a.Inc(size).CountFor(LEAF_SIZE) == a.CountFor(LEAF_SIZE) + (if LEAF_SIZE == size then 1 else 0);
    assert a.Inc(size).CountFor(INTERNAL_SIZE) == a.CountFor(INTERNAL_SIZE) + (if INTERNAL_SIZE == size then 1 else 0);
  }

  lemma CountedFree(mem: Mem, mem': Mem, a: SelfAllocatedMemory, p: Ptr)
    requires Counted(mem, a)
    requires p in mem && mem'.Keys == mem.Keys - {p} && forall q :: q in mem' ==> mem'[q].height == mem[q].height
    ensures a.CountFor(NodeSize(mem[p].height)) > 0
    ensures Counted(mem', a.Dec(NodeSize(mem[p].height)))
  {
    assert p in NodesOfSize(mem, NodeSize(mem[p].height));
    if mem[p].height == 0 {
      assert NodesOfSize(mem', LEAF_SIZE) == NodesOfSize(mem, LEAF_SIZE) - {p};
      assert NodesOfSize(mem', INTERNAL_SIZE) == NodesOfSize(mem, INTERNAL_SIZE);
    } else {
      assert NodesOfSize(mem', LEAF_SIZE) == NodesOfSize(mem, LEAF_SIZE);
      assert NodesOfSize(mem', INTERNAL_SIZE) == NodesOfSize(mem, INTERNAL_SIZE) - {p};
    }
  }

  // ----- the counts through the operations on nodes -----

  lemma MergeCounted(mem: Mem, p: Ptr, k: nat, a: SelfAllocatedMemory)
    requires Around(mem, p, k) && Counted(mem, a)
    ensures var size := NodeSize(mem[mem[p].edges[k + 1]].height);
            a.CountFor(size) > 0 && Counted(MergeMem(mem, p, k), a.Dec(size))
  {
    CountedFree(mem, MergeMem(mem, p, k), a, mem[p].edges[k + 1]);
  }

  lemma RebalanceCounted(mem: Mem, p: Ptr, k: nat, n: nat, a: SelfAllocatedMemory)
    requires CanRebalance(mem, p, k, n) && Counted(mem, a)
    ensures Counted(RebalanceMem(mem, p, k, n), a)
  {
    CountedSame(mem, RebalanceMem(mem, p, k, n), a);
  }

  lemma SplitCounted(mem: Mem, p: Ptr, m: nat, new_: Ptr, a: SelfAllocatedMemory)
    requires CanSplit(mem, p, m, new_) && Counted(mem, a)
    ensures Counted(SplitMem(mem, p, m, new_), a.Inc(NodeSize(mem[p].height)))
  {
    CountedAlloc(mem, SplitMem(mem, p, m, new_), a, new_);
  }

  lemma AttachCounted(mem: Mem, p: Ptr, i: nat, kv: KV, r: Ptr, a: SelfAllocatedMemory)
    requires CanAttach(mem, p, i, r) && Counted(mem, a)
    ensures Counted(AttachMem(mem, p, i, kv, r), a)
  {
    CountedSame(mem, AttachMem(mem, p, i, kv, r), a);
  }

  lemma PushLevelCounted(mem: Mem, top: Ptr, new_: Ptr, a: SelfAllocatedMemory)
    requires top in mem && new_ !in mem && Counted(mem, a)
    ensures Counted(PushLevelMem(mem, top, new_), a.Inc(NodeSize(mem[top].height + 1)))
  {
    CountedAlloc(mem, PushLevelMem(mem, top, new_), a, new_);
  }

  lemma PopLevelCounted(mem: Mem, top: Ptr, a: SelfAllocatedMemory)
    requires EmptyRoot(mem, top) && Counted(mem, a)
    ensures a.CountFor(NodeSize(mem[top].height)) > 0
    ensures Counted(PopLevelMem(mem, top), a.Dec(NodeSize(mem[top].height)))
  {
    CountedFree(mem, PopLevelMem(mem, top), a, top);
  }

  lemma PairsCounted(mem: Mem, p: Ptr, kvs: seq<KV>, a: SelfAllocatedMemory)
    requires p in mem && Counted(mem, a)
    ensures Counted(mem[p := mem[p].(kvs := kvs)], a)
  {
    CountedSame(mem, mem[p := mem[p].(kvs := kvs)], a);
  }
}
