/** Taking a whole tree apart: pairs are handed out from both ends, and a node is freed when the
    side that works on it has reached its last edge. */
module IntoIter {
  import opened NodeStore
  import opened Ranks

  datatype LazyLeafHandle = Gone | AtRoot(root: Ptr) | AtEdge(leaf: Ptr, idx: nat)

  datatype MaybeTaken = Nothing | Taken(node: Ptr, idx: nat)

  // ----- what is left of the tree -----

  /** The nodes with an edge between rank `f` and rank `b`. */
  ghost function Live(m0: Mem, own: Spans, f: nat, b: nat): Mem {
    map p | p in m0 && p in own && own[p].hi >= f && own[p].lo <= b :: m0[p]
  }

  /** On the way up at the front: of the nodes that end at `f`, those below level `h` are gone. */
  ghost function FrontLeft(m0: Mem, own: Spans, f: nat, b: nat, h: nat): Mem {
    map p | p in m0 && p in own && own[p].hi >= f && own[p].lo <= b && !(own[p].hi == f && m0[p].height < h) :: m0[p]
  }

  /** On the way up at the back: of the nodes that begin at `b`, those below level `h` are gone. */
  ghost function BackLeft(m0: Mem, own: Spans, f: nat, b: nat, h: nat): Mem {
    map p | p in m0 && p in own && own[p].hi >= f && own[p].lo <= b && !(own[p].lo == b && m0[p].height < h) :: m0[p]
  }

  /** At the end: only the nodes over edge `r` are left, from level `h` up. */
  ghost function PileLeft(m0: Mem, own: Spans, r: nat, h: nat): Mem {
    map p | p in m0 && p in own && own[p].lo <= r <= own[p].hi && m0[p].height >= h :: m0[p]
  }

  lemma Rung(m0: Mem, own: Spans, all: seq<KV>, root: Ptr, p: Ptr, q: Ptr, r: nat)
    requires BTreeOk(m0, own, all, root) && p in m0 && q in m0 && p in own && q in own
    requires m0[p].height == m0[q].height
    requires own[p].lo <= r <= own[p].hi && own[q].lo <= r <= own[q].hi
    ensures p == q
  {
    RootedIsOneTree(m0, root);
    SameRank(m0, own, all, m0.Keys, root, p, q, r);
  }

  /** A node over rank `r` that goes on beyond it has only such nodes above it. */
  lemma BeyondAbove(m0: Mem, own: Spans, all: seq<KV>, root: Ptr, p: Ptr, q: Ptr, r: nat)
    requires BTreeOk(m0, own, all, root) && p in m0 && q in m0 && p in own && q in own
    requires own[p].lo <= r <= own[p].hi && own[q].lo <= r <= own[q].hi && m0[p].height <= m0[q].height
    ensures own[q].lo <= own[p].lo && own[p].hi <= own[q].hi
  {
    RootedIsOneTree(m0, root);
    assert Hangs(m0, root, {}, q);
    var a := Above(m0, own, all, m0.Keys, root, p, m0[q].height);
    Rung(m0, own, all, root, a, q, r);
  }

  /** Freeing `p`, whose last edge is the front's, leads one level up. */
  lemma FrontStep(m0: Mem, own: Spans, all: seq<KV>, root: Ptr, p: Ptr, f: nat, b: nat)
    requires BTreeOk(m0, own, all, root) && p in m0 && p in own && own[p].hi == f < b <= |all|
    ensures p in FrontLeft(m0, own, f, b, m0[p].height)
    ensures FrontLeft(m0, own, f, b, m0[p].height) - {p} == FrontLeft(m0, own, f, b, m0[p].height + 1)
    ensures m0[p].link.Child?
    ensures var Child(q, i) := m0[p].link;
            && q in FrontLeft(m0, own, f, b, m0[p].height + 1) && q in own && q in m0 && m0[q].height == m0[p].height + 1 <= m0[root].height
            && i <= |m0[q].kvs| && i < |m0[q].edges| && m0[q].edges[i] == p
  {
    assert NodeOrderOk(m0, own, own, all, p) && Hangs(m0, root, {}, p);
    ParentSpan(m0, own, all, p);
    assert Hangs(m0, root, {}, m0[p].link.parent);
    var h := m0[p].height;
    forall q | q in m0 && q in own && own[q].hi == f && m0[q].height == h ensures q == p {
      assert NodeOrderOk(m0, own, own, all, q);
      Rung(m0, own, all, root, p, q, f);
    }
  }

  lemma BackStep(m0: Mem, own: Spans, all: seq<KV>, root: Ptr, p: Ptr, f: nat, b: nat)
    requires BTreeOk(m0, own, all, root) && p in m0 && p in own && f < b == own[p].lo
    ensures p in BackLeft(m0, own, f, b, m0[p].height)
    ensures BackLeft(m0, own, f, b, m0[p].height) - {p} == BackLeft(m0, own, f, b, m0[p].height + 1)
    ensures m0[p].link.Child?
    ensures var Child(q, i) := m0[p].link;
            && q in BackLeft(m0, own, f, b, m0[p].height + 1) && q in own && q in m0 && m0[q].height == m0[p].height + 1 <= m0[root].height
            && i <= |m0[q].kvs| && i < |m0[q].edges| && m0[q].edges[i] == p
  {
    assert NodeOrderOk(m0, own, own, all, p) && Hangs(m0, root, {}, p);
    ParentSpan(m0, own, all, p);
    assert Hangs(m0, root, {}, m0[p].link.parent);
    var h := m0[p].height;
    forall q | q in m0 && q in own && own[q].lo == b && m0[q].height == h ensures q == p {
      assert NodeOrderOk(m0, own, own, all, q);
      Rung(m0, own, all, root, p, q, b);
    }
  }

  /** `p` has a pair at rank `f`: what ended at `f` is gone, and that is what rank `f + 1` leaves. */
  lemma FrontDone(m0: Mem, own: Spans, all: seq<KV>, root: Ptr, p: Ptr, i: nat, f: nat, b: nat)
    requires BTreeOk(m0, own, all, root) && PairAt(m0, own, p, i, f) && f < b
    ensures FrontLeft(m0, own, f, b, m0[p].height) == Live(m0, own, f + 1, b)
  {
    var x := PairInside(m0, own, all, p, i);
    forall q | q in m0 && q in own && own[q].hi == f ensures m0[q].height < m0[p].height {
      assert NodeOrderOk(m0, own, own, all, q);
      if m0[q].height >= m0[p].height { BeyondAbove(m0, own, all, root, p, q, f); }
    }
  }

  /** `p` has a pair right before rank `b`. */
  lemma BackDone(m0: Mem, own: Spans, all: seq<KV>, root: Ptr, p: Ptr, i: nat, f: nat, b: nat)
    requires BTreeOk(m0, own, all, root) && b > 0 && PairAt(m0, own, p, i, b - 1) && f < b
    ensures BackLeft(m0, own, f, b, m0[p].height) == Live(m0, own, f, b - 1)
  {
    var x := PairInside(m0, own, all, p, i);
    forall q | q in m0 && q in own && own[q].lo == b ensures m0[q].height < m0[p].height {
      assert NodeOrderOk(m0, own, own, all, q);
      if m0[q].height >= m0[p].height { BeyondAbove(m0, own, all, root, p, q, b); }
    }
  }

  lemma PileStep(m0: Mem, own: Spans, all: seq<KV>, root: Ptr, p: Ptr, r: nat)
    requires BTreeOk(m0, own, all, root) && p in m0 && p in own && own[p].lo <= r <= own[p].hi
    ensures p in PileLeft(m0, own, r, m0[p].height)
    ensures PileLeft(m0, own, r, m0[p].height) - {p} == PileLeft(m0, own, r, m0[p].height + 1)
    ensures if p == root then m0[p].link.NoParent? && PileLeft(m0, own, r, m0[p].height + 1) == map[]
            else
              && m0[p].link.Child? && m0[p].link.parent in m0 && m0[p].link.parent in own
              && var q := m0[p].link.parent;
                 own[q].lo <= r <= own[q].hi && m0[q].height == m0[p].height + 1 <= m0[root].height
  {
    assert Hangs(m0, root, {}, p);
    if p != root {
      ParentSpan(m0, own, all, p);
      assert Hangs(m0, root, {}, m0[p].link.parent);
    }
    forall q | q in m0 && q in own && own[q].lo <= r <= own[q].hi && m0[q].height == m0[p].height ensures q == p {
      Rung(m0, own, all, root, p, q, r);
    }
    if p == root {
      forall q | q in m0 ensures m0[q].height <= m0[p].height { assert Hangs(m0, root, {}, q); }
    }
  }

  // ----- the iterator -----

  class IntoIter {
    var mem: Mem
    var front: LazyLeafHandle
    var back: LazyLeafHandle
    var length: nat
    /** The tree as it was, and the ranks of the front's and the back's edge. */
    ghost const m0: Mem
    ghost const own: Spans
    ghost const all: seq<KV>
    ghost const root: MaybeRoot
    ghost var f: nat
    ghost var b: nat
    /** How often each node was freed. */
    ghost var freed: multiset<Ptr>

    /** A front or back handle at rank `r`. */
    ghost predicate HandleAt(h: LazyLeafHandle, r: nat, atStart: bool)
      reads this
    {
      match h
      case Gone => false
      case AtRoot(p) => root == Root(p) && r == (if atStart then 0 else |all|)
      case AtEdge(p, i) => p in mem && p in m0 && p in own && m0[p].height == 0 && i <= |m0[p].kvs| && own[p].lo + i == r
    }

    ghost predicate Ended()
      reads this
    {
      front == Gone && length == 0 && mem == map[]
    }

    ghost predicate Running()
      reads this
    {
      && root.Root? && BTreeOk(m0, own, all, root.ptr)
      && f <= b <= |all| && length == b - f
      && mem == Live(m0, own, f, b)
      && HandleAt(front, f, true) && HandleAt(back, b, false)
    }

    /** Every node that is not there any more was freed, and once. */
    ghost predicate Valid()
      reads this
    {
      && (Ended() || Running())
      && mem.Keys <= m0.Keys && freed == multiset(m0.Keys - mem.Keys)
    }

    constructor (mem: Mem, root: MaybeRoot, length: nat, ghost own: Spans, ghost all: seq<KV>)
      requires length == |all|
      requires match root case NoRoot => mem == map[] && all == [] case Root(r) => BTreeOk(mem, own, all, r)
      ensures Valid() && m0 == mem && this.all == all && this.length == length && f == 0 && b == |all| && freed == multiset{}
      ensures root.Root? ==> Running()
    {
      this.mem, this.length, this.m0, this.own, this.all, this.root := mem, length, mem, own, all, root;
      front := if root.Root? then AtRoot(root.ptr) else Gone;
      back := if root.Root? then AtRoot(root.ptr) else Gone;
      f, b, freed := 0, |all|, multiset{};
      new;
      if root.Root? {
        forall p | p in m0 ensures p in own && own[p].hi >= 0 && own[p].lo <= |all| {
          assert NodeOrderOk(m0, own, own, all, p);
        }
        assert mem == Live(m0, own, 0, |all|);
      }
    }

    /** Frees `p` and gives its parent edge. */
    method DeallocateAndAscend(p: Ptr) returns (up: Link)
      requires p in mem && mem.Keys <= m0.Keys && freed == multiset(m0.Keys - mem.Keys)
      modifies this`mem, this`freed
      ensures up == old(mem)[p].link && mem == old(mem) - {p}
      ensures mem.Keys <= m0.Keys && freed == multiset(m0.Keys - mem.Keys)
    {
      up := mem[p].link;
      assert m0.Keys - (mem - {p}).Keys == (m0.Keys - mem.Keys) + {p};
      mem := mem - {p};
      freed := freed + multiset{p};
    }

    method FirstLeafEdge(p: Ptr, ghost r: nat) returns (leaf: Ptr)
      requires root.Root? && BTreeOk(m0, own, all, root.ptr) && f <= r <= b && mem == Live(m0, own, f, b)
      requires p in mem && own[p].lo == r
      ensures leaf in mem && leaf in m0 && leaf in own && m0[leaf].height == 0 && own[leaf].lo == r
    {
      leaf := p;
      while mem[leaf].height > 0
        invariant leaf in mem && own[leaf].lo == r
        decreases mem[leaf].height
      {
        assert EdgesOk(m0, leaf) && EdgeOk(m0, leaf, 0) && NodeOrderOk(m0, own, own, all, leaf);
        assert NodeOrderOk(m0, own, own, all, m0[leaf].edges[0]);
        leaf := mem[leaf].edges[0];
      }
    }

    method LastLeafEdge(p: Ptr, ghost r: nat) returns (leaf: Ptr)
      requires root.Root? && BTreeOk(m0, own, all, root.ptr) && f <= r <= b && mem == Live(m0, own, f, b)
      requires p in mem && own[p].hi == r
      ensures leaf in mem && leaf in m0 && leaf in own && m0[leaf].height == 0 && own[leaf].hi == r
      ensures own[leaf].lo + |mem[leaf].kvs| == r
    {
      leaf := p;
      while mem[leaf].height > 0
        invariant leaf in mem && own[leaf].hi == r
        decreases mem[leaf].height
      {
        assert EdgesOk(m0, leaf) && EdgeOk(m0, leaf, |m0[leaf].kvs|) && NodeOrderOk(m0, own, own, all, leaf);
        assert NodeOrderOk(m0, own, own, all, m0[leaf].edges[|m0[leaf].kvs|]);
        leaf := mem[leaf].edges[|mem[leaf].kvs|];
      }
      assert NodeOrderOk(m0, own, own, all, leaf);
    }

    // ----- the front -----

    method InitFront() returns (leaf: Ptr, i: nat)
      requires Running()
      modifies this`front
      ensures Running() && front == AtEdge(leaf, i)
    {
      if front.AtRoot? {
        leaf := FirstLeafEdge(front.root, 0);
        front := AtEdge(leaf, 0);
      }
      leaf, i := front.leaf, front.idx;
    }

    /** Goes up from the front edge, freeing every node it leaves for good, to the next pair. */
    method AscendFront(leaf: Ptr, idx: nat) returns (p: Ptr, i: nat)
      requires Running() && Valid() && f < b && front == AtEdge(leaf, idx)
      modifies this`mem, this`freed
      ensures PairAt(m0, own, p, i, f) && mem == Live(m0, own, f + 1, b)
      ensures mem.Keys <= m0.Keys && freed == multiset(m0.Keys - mem.Keys)
    {
      p, i := leaf, idx;
      assert NodeOrderOk(m0, own, own, all, p);
      assert mem == FrontLeft(m0, own, f, b, 0);
      while i == |mem[p].kvs|
        invariant p in m0 && p in own && i <= |m0[p].kvs| && m0[p].height <= m0[root.ptr].height
        invariant EdgesOk(m0, p) && NodeOrderOk(m0, own, own, all, p)
        invariant if m0[p].height == 0 then own[p].lo + i == f else m0[p].edges[i] in own && own[m0[p].edges[i]].hi == f
        invariant p in mem && mem == FrontLeft(m0, own, f, b, m0[p].height)
        invariant mem.Keys <= m0.Keys && freed == multiset(m0.Keys - mem.Keys)
        decreases m0[root.ptr].height - m0[p].height
      {
        FrontStep(m0, own, all, root.ptr, p, f, b);
        var up := DeallocateAndAscend(p);
        assert EdgesOk(m0, up.parent) && NodeOrderOk(m0, own, own, all, up.parent);
        p, i := up.parent, up.idx;
      }
      FrontDone(m0, own, all, root.ptr, p, i, f, b);
    }

    /** The leaf edge right of the pair that was just reached at the front. */
    method NextLeafEdge(p: Ptr, i: nat) returns (leaf: Ptr, j: nat)
      requires root.Root? && BTreeOk(m0, own, all, root.ptr) && 0 < f <= b <= |all| && mem == Live(m0, own, f, b)
      requires PairAt(m0, own, p, i, f - 1) && own[p].lo <= f - 1 < own[p].hi
      ensures leaf in mem && leaf in m0 && leaf in own && m0[leaf].height == 0 && j <= |m0[leaf].kvs| && own[leaf].lo + j == f
    {
      if mem[p].height == 0 { return p, i + 1; }
      assert EdgesOk(m0, p) && EdgeOk(m0, p, i + 1) && NodeOrderOk(m0, own, own, all, p);
      assert PairOk(m0[p].edges, m0[p].kvs, own, all, i) && NodeOrderOk(m0, own, own, all, m0[p].edges[i + 1]);
      leaf := FirstLeafEdge(mem[p].edges[i + 1], f);
      j := 0;
    }

    /** The leaf edge left of the pair that was just reached at the back. */
    method NextBackLeafEdge(p: Ptr, i: nat) returns (leaf: Ptr, j: nat)
      requires root.Root? && BTreeOk(m0, own, all, root.ptr) && f <= b < |all| && mem == Live(m0, own, f, b)
      requires PairAt(m0, own, p, i, b) && own[p].lo <= b < own[p].hi
      ensures leaf in mem && leaf in m0 && leaf in own && m0[leaf].height == 0 && j <= |m0[leaf].kvs| && own[leaf].lo + j == b
    {
      if mem[p].height == 0 { return p, i; }
      assert EdgesOk(m0, p) && EdgeOk(m0, p, i) && NodeOrderOk(m0, own, own, all, p);
      assert NodeOrderOk(m0, own, own, all, m0[p].edges[i]);
      leaf := LastLeafEdge(mem[p].edges[i], b);
      j := |mem[leaf].kvs|;
    }

    method TakeFront(leaf: Ptr, idx: nat) returns (p: Ptr, i: nat)
      requires Running() && Valid() && f < b && front == AtEdge(leaf, idx)
      modifies this`mem, this`freed, this`f, this`length
      ensures f == old(f) + 1 && length == old(length) - 1 && f <= b <= |all| && length == b - f
      ensures mem == Live(m0, own, f, b) && HandleAt(back, b, false)
      ensures mem.Keys <= m0.Keys && freed == multiset(m0.Keys - mem.Keys)
      ensures PairAt(m0, own, p, i, f - 1) && own[p].lo <= f - 1 < own[p].hi
      ensures p in mem && mem[p].kvs == m0[p].kvs && m0[p].kvs[i] == all[f - 1]
    {
      p, i := AscendFront(leaf, idx);
      ghost var x := PairInside(m0, own, all, p, i);
      f, length := f + 1, length - 1;
      BackStays();
    }

    method TakeBack(leaf: Ptr, idx: nat) returns (p: Ptr, i: nat)
      requires Running() && Valid() && f < b && back == AtEdge(leaf, idx)
      modifies this`mem, this`freed, this`b, this`length
      ensures b == old(b) - 1 && length == old(length) - 1 && f <= b < |all| && length == b - f
      ensures mem == Live(m0, own, f, b) && HandleAt(front, f, true)
      ensures mem.Keys <= m0.Keys && freed == multiset(m0.Keys - mem.Keys)
      ensures PairAt(m0, own, p, i, b) && own[p].lo <= b < own[p].hi
      ensures p in mem && mem[p].kvs == m0[p].kvs && m0[p].kvs[i] == all[b]
    {
      p, i := AscendBack(leaf, idx);
      ghost var x := PairInside(m0, own, all, p, i);
      b, length := b - 1, length - 1;
      FrontStays();
    }

    method DeallocatingNextUnchecked() returns (p: Ptr, i: nat)
      requires Running() && Valid() && f < b
      modifies this`mem, this`front, this`f, this`freed, this`length
      ensures f == old(f) + 1 && length == old(length) - 1 && Running() && Valid()
      ensures p in mem && i < |mem[p].kvs| && mem[p].kvs[i] == all[old(f)]
    {
      var leaf, idx := InitFront();
      p, i := TakeFront(leaf, idx);
      var next, j := NextLeafEdge(p, i);
      front := AtEdge(next, j);
    }

    /** The back's leaf is still there. */
    lemma BackStays()
      requires root.Root? && BTreeOk(m0, own, all, root.ptr) && f <= b <= |all| && mem == Live(m0, own, f, b)
      requires match back
               case Gone => false
               case AtRoot(p) => root == Root(p) && b == |all|
               case AtEdge(p, i) => p in m0 && p in own && m0[p].height == 0 && i <= |m0[p].kvs| && own[p].lo + i == b
      ensures HandleAt(back, b, false)
    {
      if back.AtEdge? { assert NodeOrderOk(m0, own, own, all, back.leaf); }
    }

    lemma FrontStays()
      requires root.Root? && BTreeOk(m0, own, all, root.ptr) && f <= b <= |all| && mem == Live(m0, own, f, b)
      requires match front
               case Gone => false
               case AtRoot(p) => root == Root(p) && f == 0
               case AtEdge(p, i) => p in m0 && p in own && m0[p].height == 0 && i <= |m0[p].kvs| && own[p].lo + i == f
      ensures HandleAt(front, f, true)
    {
      if front.AtEdge? { assert NodeOrderOk(m0, own, own, all, front.leaf); }
    }

    // ----- the back -----

    method InitBack() returns (leaf: Ptr, i: nat)
      requires Running()
      modifies this`back
      ensures Running() && back == AtEdge(leaf, i)
    {
      if back.AtRoot? {
        leaf := LastLeafEdge(back.root, |all|);
        back := AtEdge(leaf, |mem[leaf].kvs|);
      }
      leaf, i := back.leaf, back.idx;
    }

    method AscendBack(leaf: Ptr, idx: nat) returns (p: Ptr, i: nat)
      requires Running() && Valid() && f < b && back == AtEdge(leaf, idx)
      modifies this`mem, this`freed
      ensures PairAt(m0, own, p, i, b - 1) && mem == Live(m0, own, f, b - 1)
      ensures mem.Keys <= m0.Keys && freed == multiset(m0.Keys - mem.Keys)
    {
      p, i := leaf, idx;
      assert NodeOrderOk(m0, own, own, all, p);
      assert mem == BackLeft(m0, own, f, b, 0);
      while i == 0
        invariant p in m0 && p in own && i <= |m0[p].kvs| && m0[p].height <= m0[root.ptr].height
        invariant EdgesOk(m0, p) && NodeOrderOk(m0, own, own, all, p)
        invariant if m0[p].height == 0 then own[p].lo + i == b else m0[p].edges[i] in own && own[m0[p].edges[i]].lo == b
        invariant p in mem && mem == BackLeft(m0, own, f, b, m0[p].height)
        invariant mem.Keys <= m0.Keys && freed == multiset(m0.Keys - mem.Keys)
        decreases m0[root.ptr].height - m0[p].height
      {
        BackStep(m0, own, all, root.ptr, p, f, b);
        var up := DeallocateAndAscend(p);
        assert EdgesOk(m0, up.parent) && NodeOrderOk(m0, own, own, all, up.parent);
        p, i := up.parent, up.idx;
      }
      i := i - 1;
      if m0[p].height > 0 { assert PairOk(m0[p].edges, m0[p].kvs, own, all, i); }
      BackDone(m0, own, all, root.ptr, p, i, f, b);
    }

    method DeallocatingNextBackUnchecked() returns (p: Ptr, i: nat)
      requires Running() && Valid() && f < b
      modifies this`mem, this`back, this`b, this`freed, this`length
      ensures b == old(b) - 1 && length == old(length) - 1 && Running() && Valid()
      ensures p in mem && i < |mem[p].kvs| && mem[p].kvs[i] == all[old(b) - 1]
    {
      var leaf, idx := InitBack();
      p, i := TakeBack(leaf, idx);
      var next, j := NextBackLeafEdge(p, i);
      back := AtEdge(next, j);
    }

    // ----- the end -----

    /** Frees the pile of nodes over the edge where front and back have met. */
    method DeallocatingEnd()
      requires Valid() && length == 0
      modifies this`mem, this`front, this`freed
      ensures Ended() && Valid()
    {
      if front.Gone? { return; }
      var p;
      match front {
        case AtRoot(top) => p := FirstLeafEdge(top, 0);
        case AtEdge(leaf, _) => p := leaf;
      }
      front := Gone;
      assert NodeOrderOk(m0, own, own, all, p);
      assert mem == PileLeft(m0, own, f, 0);
      FreePile(p);
    }

    method FreePile(leaf: Ptr)
      requires root.Root? && BTreeOk(m0, own, all, root.ptr) && leaf in m0 && leaf in own && own[leaf].lo <= f <= own[leaf].hi
      requires m0[leaf].height == 0 && mem == PileLeft(m0, own, f, 0)
      requires mem.Keys <= m0.Keys && freed == multiset(m0.Keys - mem.Keys)
      modifies this`mem, this`freed
      ensures mem == map[] && freed == multiset(m0.Keys - mem.Keys)
    {
      var p := leaf;
      while true
        invariant p in m0 && p in own && own[p].lo <= f <= own[p].hi && m0[p].height <= m0[root.ptr].height
        invariant mem == PileLeft(m0, own, f, m0[p].height)
        invariant mem.Keys <= m0.Keys && freed == multiset(m0.Keys - mem.Keys)
        decreases m0[root.ptr].height - m0[p].height
      {
        PileStep(m0, own, all, root.ptr, p, f);
        var up := DeallocateAndAscend(p);
        if up.NoParent? { break; }
        p := up.parent;
      }
    }

    /** The next pair at the front. When there is none left, every node has been freed. */
    method DyingNext() returns (r: MaybeTaken)
      requires Valid()
      modifies this
      ensures Valid() && b == old(b)
      ensures if old(length) == 0 then r == Nothing && Ended() && f == old(f)
              else r.Taken? && r.node in mem && r.idx < |mem[r.node].kvs| && old(f) < |all| && mem[r.node].kvs[r.idx] == all[old(f)]
                   && f == old(f) + 1 && length == old(length) - 1
    {
      if length == 0 {
        DeallocatingEnd();
        return Nothing;
      }
      var p, i := DeallocatingNextUnchecked();
      return Taken(p, i);
    }

    /** The next pair at the back. */
    method DyingNextBack() returns (r: MaybeTaken)
      requires Valid()
      modifies this
      ensures Valid() && f == old(f)
      ensures if old(length) == 0 then r == Nothing && Ended() && b == old(b)
              else r.Taken? && r.node in mem && r.idx < |mem[r.node].kvs| && 0 < old(b) <= |all| && mem[r.node].kvs[r.idx] == all[old(b) - 1]
                   && b == old(b) - 1 && length == old(length) - 1
    {
      if length == 0 {
        DeallocatingEnd();
        return Nothing;
      }
      var p, i := DeallocatingNextBackUnchecked();
      return Taken(p, i);
    }

    /** Dropping the iterator, however far it has come, frees every node that is left. */
    method Drop()
      requires Valid()
      modifies this
      ensures Ended() && freed == multiset(m0.Keys)
    {
      while true
        invariant Valid()
        decreases length
      {
        var kv := DyingNext();
        if kv.Nothing? { break; }
      }
      assert m0.Keys - mem.Keys == m0.Keys;
    }
  }

  /** Dropping a tree frees every one of its nodes exactly once. */
  method DropTree(mem: Mem, root: MaybeRoot, length: nat, ghost own: Spans, ghost all: seq<KV>) returns (rest: Mem, ghost freed: multiset<Ptr>)
    requires length == |all|
    requires match root case NoRoot => mem == map[] && all == [] case Root(r) => BTreeOk(mem, own, all, r)
    ensures rest == map[] && freed == multiset(mem.Keys)
  {
    var iter := new IntoIter(mem, root, length, own, all);
    iter.Drop();
    rest, freed := iter.mem, iter.freed;
  }
}
