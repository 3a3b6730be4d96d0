/** Pushing pairs at the end of a tree, as `bulk_push` does: whatever leaves the right border on the way is
    full, and the border is stocked up at the end by stealing from full neighbours. The tree had `base`
    pairs to begin with. */
module BulkPush {
  import opened NodeStore
  import opened Rebalance
  import opened Growth
  import opened Ranks
  import opened Insertion
  import opened Borders
  import opened SplitOff

  /** A node that does not reach to the end is full, unless it did not reach to the end in the beginning; then it
      is long enough, and so is one that is on the border since the beginning. */
  ghost predicate LongEnough(mem: Mem, own: Spans, base: nat, top: Ptr, end: nat, p: Ptr)
    requires p in mem
  {
    && p in own && |mem[p].kvs| <= CAPACITY
    && (own[p].hi != end ==> |mem[p].kvs| >= if own[p].hi >= base then CAPACITY else MIN_LEN)
    && (own[p].hi == end && own[p].lo <= base && p != top ==> |mem[p].kvs| >= MIN_LEN)
  }

  ghost predicate AllLong(mem: Mem, own: Spans, base: nat, top: Ptr, end: nat) {
    forall p {:trigger LongEnough(mem, own, base, top, end, p)} :: p in mem ==> LongEnough(mem, own, base, top, end, p)
  }

  /** One tree, long enough but for what is new on its right border. */
  ghost predicate Plentiful(mem: Mem, own: Spans, all: seq<KV>, base: nat, top: Ptr) {
    && Wf(mem, own, all)
    && Rooted(mem, top, {})
    && top in own && own[top] == Span(0, |all|)
    && base <= |all| && AllLong(mem, own, base, top, |all|)
  }

  ghost predicate Pushing(mem: Mem, own: Spans, all: seq<KV>, base: nat, top: Ptr) {
    Plentiful(mem, own, all, base, top) && (mem[top].height > 0 ==> |mem[top].kvs| > 0)
  }

  /** Any B-tree will do. */
  lemma BTreePushing(mem: Mem, own: Spans, all: seq<KV>, top: Ptr)
    requires BTreeOk(mem, own, all, top)
    ensures Pushing(mem, own, all, |all|, top)
  {
    assert LenOk(mem, top, top) && Hangs(mem, top, {}, top);
    forall p | p in mem ensures LongEnough(mem, own, |all|, top, |all|, p) {
      assert LenOk(mem, top, p) && NodeOrderOk(mem, own, own, all, p);
    }
  }

  /** `p` is the last leaf. */
  ghost predicate LastLeaf(mem: Mem, own: Spans, all: seq<KV>, p: Ptr) {
    p in mem && mem[p].height == 0 && p in own && own[p].hi == |all|
  }

  lemma EmptyRootPushing(p: Ptr)
    ensures Pushing(map[p := Node(0, [], [], NoParent)], map[p := Span(0, 0)], [], 0, p)
  {
    SingleLeaf(p, []);
    assert LongEnough(map[p := Node(0, [], [], NoParent)], map[p := Span(0, 0)], 0, p, 0, p);
  }

  // ----- room in the last leaf -----

  lemma PushLeaf(mem: Mem, own: Spans, all: seq<KV>, base: nat, top: Ptr, p: Ptr, kv: KV)
    requires Pushing(mem, own, all, base, top) && LastLeaf(mem, own, all, p) && |mem[p].kvs| < CAPACITY
    ensures var mem', own' := LeafInsertMem(mem, p, |mem[p].kvs|, kv), AllUp(own, |all|);
            Pushing(mem', own', all + [kv], base, top) && LastLeaf(mem', own', all + [kv], p)
  {
    var i := |mem[p].kvs|;
    var mem', own' := LeafInsertMem(mem, p, i, kv), AllUp(own, |all|);
    assert NodeOrderOk(mem, own, own, all, p);
    RootedIsOneTree(mem, top);
    AloneAtRank(mem, own, all, top, p, |all|);
    LeafInsertOrder(mem, own, own, all, p, i, kv);
    LeafInsertPointers(mem, p, i, kv);
    assert InsertAt(all, |all|, kv) == all + [kv];
    forall q | q in mem' ensures Hangs(mem', top, {}, q) && LongEnough(mem', own', base, top, |all| + 1, q) {
      assert Hangs(mem, top, {}, q) && LongEnough(mem, own, base, top, |all|, q) && NodeOrderOk(mem, own, own, all, q);
    }
  }

  // ----- going up to a node with room -----

  ghost predicate FullBelow(mem: Mem, own: Spans, end: nat, h: nat, p: Ptr)
    requires p in mem
  {
    p in own && (mem[p].height < h && own[p].hi == end ==> |mem[p].kvs| == CAPACITY)
  }

  /** The border below level `h` is full. */
  ghost predicate AllFullBelow(mem: Mem, own: Spans, end: nat, h: nat) {
    forall p {:trigger FullBelow(mem, own, end, h, p)} :: p in mem ==> FullBelow(mem, own, end, h, p)
  }

  lemma FullOneUp(mem: Mem, own: Spans, all: seq<KV>, base: nat, top: Ptr, p: Ptr)
    requires Plentiful(mem, own, all, base, top) && p in mem && p in own && own[p].hi == |all|
    requires AllFullBelow(mem, own, |all|, mem[p].height) && |mem[p].kvs| == CAPACITY
    ensures AllFullBelow(mem, own, |all|, mem[p].height + 1)
  {
    RootedIsOneTree(mem, top);
    assert NodeOrderOk(mem, own, own, all, p);
    forall q | q in mem ensures FullBelow(mem, own, |all|, mem[p].height + 1, q) {
      assert FullBelow(mem, own, |all|, mem[p].height, q) && LongEnough(mem, own, base, top, |all|, q) && NodeOrderOk(mem, own, own, all, q);
      if mem[q].height == mem[p].height && own[q].hi == |all| { SameRank(mem, own, all, mem.Keys, top, p, q, |all|); }
    }
  }

  lemma ParentLast(mem: Mem, own: Spans, all: seq<KV>, base: nat, top: Ptr, p: Ptr)
    requires Plentiful(mem, own, all, base, top) && p in mem && p in own && own[p].hi == |all| && mem[p].link.Child?
    ensures var q := mem[p].link.parent;
            q in mem && q in own && own[q].hi == |all| && mem[q].height == mem[p].height + 1 <= mem[top].height
            && |mem[q].kvs| <= CAPACITY
  {
    ParentSpan(mem, own, all, p);
    assert Hangs(mem, top, {}, mem[p].link.parent) && LongEnough(mem, own, base, top, |all|, mem[p].link.parent);
  }

  /** `p` is the lowest node on the right border with room. */
  ghost predicate Open(mem: Mem, own: Spans, all: seq<KV>, base: nat, top: Ptr, p: Ptr) {
    && Plentiful(mem, own, all, base, top)
    && p in mem && p in own && own[p].hi == |all| && mem[p].height > 0 && |mem[p].kvs| < CAPACITY
    && AllFullBelow(mem, own, |all|, mem[p].height)
    && (p != top ==> |mem[top].kvs| > 0)
  }

  /** No node had room: a new root has. */
  lemma NewTopOpen(mem: Mem, own: Spans, all: seq<KV>, base: nat, top: Ptr, new_: Ptr)
    requires Plentiful(mem, own, all, base, top) && AllFullBelow(mem, own, |all|, mem[top].height + 1) && new_ !in mem
    ensures Open(PushLevelMem(mem, top, new_), own[new_ := Span(0, |all|)], all, base, new_, new_)
  {
    var mem', own' := PushLevelMem(mem, top, new_), own[new_ := Span(0, |all|)];
    PushLevelPointers(mem, top, new_);
    PushLevelOrder(mem, own, own, all, top, new_);
    forall q | q in mem' ensures Hangs(mem', new_, {}, q) && LongEnough(mem', own', base, new_, |all|, q) && FullBelow(mem', own', |all|, mem[top].height + 1, q) {
      if q != new_ {
        assert Hangs(mem, top, {}, q) && LongEnough(mem, own, base, top, |all|, q) && FullBelow(mem, own, |all|, mem[top].height + 1, q);
      }
    }
  }

  // ----- pushing a pair and an empty tree -----

  /** The nodes that reach to the end, from level `h` up, reach one rank further. */
  ghost function GrownTo(mem: Mem, own: Spans, end: nat, h: nat): Spans {
    map q | q in own :: if q in mem && mem[q].height >= h && own[q].hi == end then Span(own[q].lo, end + 1) else own[q]
  }

  lemma LaidExtend(edges: seq<Ptr>, kvs: seq<KV>, view: Spans, all: seq<KV>, s: Span, kv: KV)
    requires Laid(edges, kvs, view, all, s)
    ensures Laid(edges, kvs, view, all + [kv], s)
  {
    forall i | 0 <= i < |kvs| ensures PairOk(edges, kvs, view, all + [kv], i) { assert PairOk(edges, kvs, view, all, i); }
    forall i | 0 <= i < |edges| ensures ProperSpan(view, edges[i]) { assert ProperSpan(view, edges[i]); }
  }

  /** The border from level `h` up takes in a pair at the end; the parents on level `h` already
      believe their last child to. */
  lemma GrowEnd(mem: Mem, own: Spans, all: seq<KV>, kv: KV, h: nat)
    requires Wf(mem, own, all) && h > 0
    ensures Ordered(mem, GrownTo(mem, own, |all|, h), GrownTo(mem, own, |all|, h - 1), all + [kv])
  {
    var own', view', all' := GrownTo(mem, own, |all|, h), GrownTo(mem, own, |all|, h - 1), all + [kv];
    forall q | q in mem ensures NodeOrderOk(mem, own', view', all', q) { GrowEndNode(mem, own, all, kv, h, q); }
  }

  lemma GrowEndNode(mem: Mem, own: Spans, all: seq<KV>, kv: KV, h: nat, q: Ptr)
    requires Wf(mem, own, all) && h > 0 && q in mem
    ensures NodeOrderOk(mem, GrownTo(mem, own, |all|, h), GrownTo(mem, own, |all|, h - 1), all + [kv], q)
  {
    var view', all', n := GrownTo(mem, own, |all|, h - 1), all + [kv], mem[q];
    assert NodeOrderOk(mem, own, own, all, q) && EdgesOk(mem, q);
    if n.height == 0 {
      assert all'[own[q].lo..own[q].hi] == all[own[q].lo..own[q].hi];
    } else {
      LaidExtend(n.edges, n.kvs, own, all, own[q], kv);
      forall i | 0 <= i < |n.edges|
        ensures n.edges[i] in own && n.edges[i] in mem && mem[n.edges[i]].height + 1 == n.height
        ensures own[n.edges[i]].hi <= own[q].hi && (i < |n.kvs| ==> own[n.edges[i]].hi < own[q].hi)
      {
        assert EdgeOk(mem, q, i);
        LaidInside(n.edges, n.kvs, own, all, own[q], i);
      }
      if own[q].hi == |all| && n.height >= h {
        LaidShorten(n.edges, n.kvs, own, view', all', own[q], |all| + 1);
      } else {
        LaidKept(n.edges, n.kvs, own, view', all', own[q]);
      }
    }
  }

  /** The empty tree `pillar` is there; the pair and the tree can go into `p`. */
  ghost predicate Extending(mem: Mem, own: Spans, all: seq<KV>, base: nat, top: Ptr, p: Ptr, kv: KV, mem': Mem, own': Spans, view': Spans, pillar: seq<Ptr>) {
    && Open(mem, own, all, base, top, p) && |pillar| == mem[p].height
    && NewTree(mem, GrownTo(mem, own, |all|, |pillar|), GrownTo(mem, own, |all|, |pillar| - 1), mem', own', view', pillar, |all| + 1)
    && PointersOk(mem') && Ordered(mem', own', view', all + [kv])
  }

  lemma ExtendAttach(mem: Mem, own: Spans, all: seq<KV>, base: nat, top: Ptr, p: Ptr, kv: KV, mem': Mem, own': Spans, view': Spans, pillar: seq<Ptr>)
    requires Extending(mem, own, all, base, top, p, kv, mem', own', view', pillar)
    ensures |mem[p].edges| == |mem[p].kvs| + 1
    ensures mem'[p] == mem[p] && CanAttach(mem', p, |mem[p].kvs|, pillar[|pillar| - 1])
    ensures var c, r := mem[p].edges[|mem[p].kvs|], pillar[|pillar| - 1];
            && c in own' && c in view' && r in own' && own'[c].hi == |all| && own'[c].lo <= own'[c].hi && view'[c] == Span(own'[c].lo, |all| + 1)
            && own'[r] == Span(|all| + 1, |all| + 1) && own' == view'[c := own'[c]][r := own'[r]]
  {
    assert EdgesOk(mem, p) && EdgesOk(mem', p);
    var n := mem[p];
    var c, r := n.edges[|n.kvs|], pillar[|pillar| - 1];
    assert EdgeOk(mem, p, |n.kvs|) && NodeOrderOk(mem, own, own, all, p) && NodeOrderOk(mem, own, own, all, c);
    assert PillarNode(mem', pillar, |pillar| - 1);
    forall q | q in own' ensures q in view' && own'[q] == view'[c := own'[c]][r := own'[r]][q] {
      if q in pillar {
        var i :| 0 <= i < |pillar| && pillar[i] == q;
      } else if q in mem && mem[q].height + 1 == mem[p].height && own[q].hi == |all| {
        OnlyLastChild(mem, own, all, base, top, p, q);
      }
    }
  }

  /** Below `p`, on the level of its children, only its last child reaches to the end. */
  lemma OnlyLastChild(mem: Mem, own: Spans, all: seq<KV>, base: nat, top: Ptr, p: Ptr, q: Ptr)
    requires Plentiful(mem, own, all, base, top) && p in mem && p in own && own[p].hi == |all| && mem[p].height > 0
    requires q in mem && q in own && mem[q].height + 1 == mem[p].height && own[q].hi == |all|
    ensures |mem[p].edges| == |mem[p].kvs| + 1 && q == mem[p].edges[|mem[p].kvs|]
  {
    assert EdgesOk(mem, p) && NodeOrderOk(mem, own, own, all, p) && NodeOrderOk(mem, own, own, all, q);
    var c := mem[p].edges[|mem[p].kvs|];
    assert EdgeOk(mem, p, |mem[p].kvs|) && NodeOrderOk(mem, own, own, all, c);
    RootedIsOneTree(mem, top);
    SameRank(mem, own, all, mem.Keys, top, c, q, |all|);
  }

  lemma ExtendWf(mem: Mem, own: Spans, all: seq<KV>, base: nat, top: Ptr, p: Ptr, kv: KV, mem': Mem, own': Spans, view': Spans, pillar: seq<Ptr>)
    requires Extending(mem, own, all, base, top, p, kv, mem', own', view', pillar)
    ensures p in mem' && mem'[p] == mem[p] && CanAttach(mem', p, |mem[p].kvs|, pillar[|pillar| - 1])
    ensures Wf(AttachMem(mem', p, |mem[p].kvs|, kv, pillar[|pillar| - 1]), own', all + [kv])
  {
    ExtendAttach(mem, own, all, base, top, p, kv, mem', own', view', pillar);
    AttachPointers(mem', p, |mem[p].kvs|, kv, pillar[|pillar| - 1]);
    AttachOrder(mem', own', view', all + [kv], p, |mem[p].kvs|, kv, pillar[|pillar| - 1]);
  }

  lemma ExtendPushing(mem: Mem, own: Spans, all: seq<KV>, base: nat, top: Ptr, p: Ptr, kv: KV, mem': Mem, own': Spans, view': Spans, pillar: seq<Ptr>)
    requires Extending(mem, own, all, base, top, p, kv, mem', own', view', pillar)
    ensures p in mem' && mem'[p] == mem[p] && CanAttach(mem', p, |mem[p].kvs|, pillar[|pillar| - 1])
    ensures p in own' && own'[p].hi == |all| + 1
    ensures Pushing(AttachMem(mem', p, |mem[p].kvs|, kv, pillar[|pillar| - 1]), own', all + [kv], base, top)
  {
    ExtendWf(mem, own, all, base, top, p, kv, mem', own', view', pillar);
    var mem2 := AttachMem(mem', p, |mem[p].kvs|, kv, pillar[|pillar| - 1]);
    assert Hangs(mem, top, {}, p);
    forall q | q in mem2 ensures Hangs(mem2, top, {}, q) && LongEnough(mem2, own', base, top, |all| + 1, q) {
      ExtendNode(mem, own, all, base, top, p, kv, mem', own', view', pillar, q);
    }
  }

  lemma ExtendNode(mem: Mem, own: Spans, all: seq<KV>, base: nat, top: Ptr, p: Ptr, kv: KV, mem': Mem, own': Spans, view': Spans, pillar: seq<Ptr>, q: Ptr)
    requires Extending(mem, own, all, base, top, p, kv, mem', own', view', pillar) && q in mem'
    requires p in mem' && mem'[p] == mem[p] && CanAttach(mem', p, |mem[p].kvs|, pillar[|pillar| - 1])
    ensures var mem2 := AttachMem(mem', p, |mem[p].kvs|, kv, pillar[|pillar| - 1]);
            top in mem2 && Hangs(mem2, top, {}, q) && LongEnough(mem2, own', base, top, |all| + 1, q)
  {
    assert Hangs(mem, top, {}, p);
    if q in mem {
      assert Hangs(mem, top, {}, q) && LongEnough(mem, own, base, top, |all|, q) && FullBelow(mem, own, |all|, mem[p].height, q);
      assert NodeOrderOk(mem, own, own, all, q);
    } else {
      var i :| 0 <= i < |pillar| && pillar[i] == q;
      assert PillarNode(mem', pillar, i);
    }
  }

  // ----- stocking up the border -----

  ghost predicate PlentyBelow(mem: Mem, own: Spans, base: nat, top: Ptr, end: nat, h: nat, p: Ptr)
    requires p in mem
  {
    && p in own
    && (mem[p].height < h && own[p].hi != end && own[p].hi >= base ==> |mem[p].kvs| >= 2 * MIN_LEN)
    && (mem[p].height < h && own[p].hi == end && own[p].lo <= base && p != top ==> |mem[p].kvs| >= MIN_LEN)
  }

  /** Below level `h`, what left the border has enough to steal from, and what was always on it needs nothing. */
  ghost predicate AllPlentyBelow(mem: Mem, own: Spans, base: nat, top: Ptr, end: nat, h: nat) {
    forall p {:trigger PlentyBelow(mem, own, base, top, end, h, p)} :: p in mem ==> PlentyBelow(mem, own, base, top, end, h, p)
  }

  /** What holds on the way down the right border. */
  ghost predicate Stocking(mem: Mem, own: Spans, all: seq<KV>, base: nat, top: Ptr, h: nat) {
    && BorderTree(mem, own, all, RightSide, mem.Keys, top, h)
    && AllPlentyBelow(mem, own, base, top, |all|, h)
    && own[top] == Span(0, |all|)
    && (mem[top].height > 0 ==> |mem[top].kvs| > 0)
  }

  lemma StockingStart(mem: Mem, own: Spans, all: seq<KV>, base: nat, top: Ptr)
    requires Pushing(mem, own, all, base, top)
    ensures Stocking(mem, own, all, base, top, mem[top].height)
  {
    RootedIsOneTree(mem, top);
    forall q | q in mem ensures BorderLenOk(mem, own, RightSide, top, mem[top].height, q) && PlentyBelow(mem, own, base, top, |all|, mem[top].height, q) {
      assert LongEnough(mem, own, base, top, |all|, q) && Hangs(mem, top, {}, q);
    }
  }

  lemma StockingPair(mem: Mem, own: Spans, all: seq<KV>, base: nat, top: Ptr, p: Ptr, k: nat, b: Ptr, o: Ptr)
    requires p in mem && Stocking(mem, own, all, base, top, mem[p].height) && BorderPair(mem, RightSide, p, k, b, o) && OnBorder(RightSide, own, top, p)
    ensures AroundInOrder(mem, own, all, p, k) && b != top && o != top && b != o && b in own && own[b].hi == |all|
    ensures |mem[b].kvs| < MIN_LEN ==> |mem[o].kvs| >= 2 * MIN_LEN
    ensures |mem[o].kvs| <= CAPACITY && |mem[b].kvs| <= CAPACITY && mem[b].height + 1 == mem[p].height == mem[o].height + 1
  {
    BorderLevel(mem, own, all, RightSide, mem.Keys, top, p, k, b, o);
    assert EdgeOk(mem, p, k) && EdgeOk(mem, p, k + 1);
    assert PlentyBelow(mem, own, base, top, |all|, mem[p].height, o) && PlentyBelow(mem, own, base, top, |all|, mem[p].height, b);
    assert NodeOrderOk(mem, own, own, all, p) && PairOk(mem[p].edges, mem[p].kvs, own, all, k);
  }

  lemma StockingSteal(mem: Mem, own: Spans, all: seq<KV>, base: nat, top: Ptr, p: Ptr, k: nat, b: Ptr, o: Ptr, n: nat)
    requires p in mem && Stocking(mem, own, all, base, top, mem[p].height) && BorderPair(mem, RightSide, p, k, b, o) && OnBorder(RightSide, own, top, p)
    requires CanRebalance(mem, p, k, n) && n >= MIN_LEN && |BothKvs(mem, p, k)| - n - 1 == MIN_LEN && n <= CAPACITY
    requires p != top ==> |mem[p].kvs| >= MIN_LEN
    ensures o in own && b in own
    ensures var mem', own' := RebalanceMem(mem, p, k, n), BorderSpans(own, o, b, Border(mem, own, p, k, n));
            && Stocking(mem', own', all, base, top, mem[p].height - 1)
            && OnBorder(RightSide, own', top, b) && |mem'[b].kvs| == MIN_LEN && mem'[b].height == mem[b].height
  {
    BorderSteal(mem, own, all, RightSide, mem.Keys, top, p, k, b, o, n);
    StockingPair(mem, own, all, base, top, p, k, b, o);
    var mem', own', h := RebalanceMem(mem, p, k, n), BorderSpans(own, o, b, Border(mem, own, p, k, n)), mem[p].height - 1;
    assert mem'.Keys == mem.Keys;
    forall q | q in mem' ensures PlentyBelow(mem', own', base, top, |all|, h, q) {
      assert PlentyBelow(mem, own, base, top, |all|, mem[p].height, q);
    }
  }

  lemma StockingPass(mem: Mem, own: Spans, all: seq<KV>, base: nat, top: Ptr, p: Ptr, k: nat, b: Ptr, o: Ptr)
    requires p in mem && Stocking(mem, own, all, base, top, mem[p].height) && BorderPair(mem, RightSide, p, k, b, o) && OnBorder(RightSide, own, top, p)
    requires |mem[b].kvs| >= MIN_LEN && (p != top ==> |mem[p].kvs| >= MIN_LEN)
    ensures Stocking(mem, own, all, base, top, mem[p].height - 1) && OnBorder(RightSide, own, top, b)
  {
    BorderPass(mem, own, all, RightSide, mem.Keys, top, p, k, b, o);
    forall q | q in mem ensures PlentyBelow(mem, own, base, top, |all|, mem[p].height - 1, q) {
      assert PlentyBelow(mem, own, base, top, |all|, mem[p].height, q);
    }
  }

  lemma StockingDone(mem: Mem, own: Spans, all: seq<KV>, base: nat, top: Ptr)
    requires Stocking(mem, own, all, base, top, 0)
    ensures BTreeOk(mem, own, all, top)
  {
    BorderDone(mem, own, all, RightSide, mem.Keys, top);
    forall q | q in mem ensures Hangs(mem, top, {}, q) { assert UnderRoot(mem, mem.Keys, top, q); }
    forall q | q in mem ensures LenOk(mem, top, q) { assert LenOk(mem, top, q); }
  }
}
