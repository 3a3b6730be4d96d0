/** Insertion with splits, step by step: what holds between a split and the insertion of the
    split-off part into the parent. */
module Insertion {
  import opened NodeStore
  import opened Growth
  import opened Ranks

  const KV_IDX_CENTER: nat := 5

  datatype LeftOrRight = Left(idx: nat) | Right(idx: nat)

  /** Where to split a full node before inserting at edge `edgeIdx`, and where to insert then. The halves are
      even exactly if that is next to the middle pair; otherwise the half that gets the new pair is the smaller. */
  function Splitpoint(edgeIdx: nat): (r: (nat, LeftOrRight))
    requires edgeIdx <= CAPACITY
    ensures r.0 < CAPACITY && (r.0 == KV_IDX_CENTER <==> edgeIdx == KV_IDX_CENTER || edgeIdx == KV_IDX_CENTER + 1)
    ensures match r.1 {
              case Left(i) => i == edgeIdx <= r.0 && r.0 + 1 >= MIN_LEN && CAPACITY - r.0 - 1 >= MIN_LEN
              case Right(i) => edgeIdx > r.0 && i == edgeIdx - r.0 - 1 && r.0 >= MIN_LEN && CAPACITY - r.0 >= MIN_LEN
            }
  {
    if edgeIdx < KV_IDX_CENTER then (KV_IDX_CENTER - 1, Left(edgeIdx))
    else if edgeIdx == KV_IDX_CENTER then (KV_IDX_CENTER, Left(edgeIdx))
    else if edgeIdx == KV_IDX_CENTER + 1 then (KV_IDX_CENTER, Right(0))
    else (KV_IDX_CENTER + 1, Right(edgeIdx - (KV_IDX_CENTER + 1 + 1)))
  }

  /** `left` was split: the pair `kv` and the node `right` are not yet in its parent, which still
      believes `left` to reach to the end of `right`. */
  ghost predicate Pending(mem: Mem, own: Spans, view: Spans, all: seq<KV>, left: Ptr, kv: KV, right: Ptr) {
    && left in mem && right in mem && left != right && left in own && right in own
    && mem[left].height == mem[right].height
    && mem[right].link == NoParent
    && own[left].lo <= own[left].hi < |all| && all[own[left].hi] == kv
    && own[right].lo == own[left].hi + 1 <= own[right].hi <= |all|
    && view == own[left := Span(own[left].lo, own[right].hi)]
  }

  ghost predicate Growing(mem: Mem, own: Spans, view: Spans, all: seq<KV>, root: Ptr, left: Ptr, kv: KV, right: Ptr) {
    && PointersOk(mem)
    && Ordered(mem, own, view, all)
    && Pending(mem, own, view, all, left, kv, right)
    && Rooted(mem, root, {right})
    && root in view && view[root] == Span(0, |all|)
    && Lens(mem, root) && |mem[left].kvs| >= MIN_LEN
  }

  // ----- the leaf -----

  lemma LeafInsertPointers(mem: Mem, p: Ptr, i: nat, kv: KV)
    requires PointersOk(mem) && p in mem && mem[p].height == 0 && i <= |mem[p].kvs|
    ensures PointersOk(LeafInsertMem(mem, p, i, kv))
  {
    var mem' := LeafInsertMem(mem, p, i, kv);
    forall q | q in mem' ensures EdgesOk(mem', q) && LinkOk(mem', q) {
      assert EdgesOk(mem, q) && LinkOk(mem, q);
      forall j | 0 <= j < |mem'[q].edges| ensures EdgeOk(mem', q, j) { assert EdgeOk(mem, q, j); }
    }
  }

  /** A pair inserted into a leaf with room for it. */
  lemma LeafInsertBTree(mem: Mem, own: Spans, all: seq<KV>, root: Ptr, p: Ptr, i: nat, kv: KV)
    requires BTreeOk(mem, own, all, root)
    requires p in mem && p in own && mem[p].height == 0 && i <= |mem[p].kvs| < CAPACITY
    ensures var r := own[p].lo + i;
            && r <= |all|
            && BTreeOk(LeafInsertMem(mem, p, i, kv), AllUp(own, r), InsertAt(all, r, kv), root)
            && PairAt(LeafInsertMem(mem, p, i, kv), AllUp(own, r), p, i, r)
  {
    var r, mem' := own[p].lo + i, LeafInsertMem(mem, p, i, kv);
    assert NodeOrderOk(mem, own, own, all, p);
    RootedIsOneTree(mem, root);
    AloneAtRank(mem, own, all, root, p, r);
    LeafInsertOrder(mem, own, own, all, p, i, kv);
    LeafInsertPointers(mem, p, i, kv);
    forall q | q in mem' ensures Hangs(mem', root, {}, q) && LenOk(mem', root, q) {
      assert Hangs(mem, root, {}, q) && LenOk(mem, root, q);
    }
  }

  /** The leaf is full: it was split at `m`, then the pair was inserted on one side. */
  ghost predicate LeafPlan(mem: Mem, p: Ptr, i: nat, m: nat, right: Ptr, target: Ptr, j: nat) {
    && p in mem && mem[p].height == 0 && i <= |mem[p].kvs| == CAPACITY && EdgesOk(mem, p)
    && right !in mem && (forall q :: q in mem ==> right !in mem[q].edges)
    && m == Splitpoint(i).0
    && (match Splitpoint(i).1 case Left(k) => target == p && j == k case Right(k) => target == right && j == k)
  }

  lemma LeafSplitAlone(mem: Mem, own: Spans, all: seq<KV>, root: Ptr, p: Ptr, i: nat, m: nat, right: Ptr, target: Ptr, j: nat)
    requires BTreeOk(mem, own, all, root) && p in own
    requires LeafPlan(mem, p, i, m, right, target, j)
    ensures own[p].lo + i <= own[p].hi <= |all| && own[p].hi == own[p].lo + CAPACITY
    ensures var own' := SplitSpans(own, p, own[p].lo + m, right);
            && own'[target].lo + j == own[p].lo + i
            && Alone(SplitMem(mem, p, m, right), own', target, own[p].lo + i)
  {
    assert NodeOrderOk(mem, own, own, all, p);
    RootedIsOneTree(mem, root);
    AloneAtRank(mem, own, all, root, p, own[p].lo + i);
  }

  /** The memory, the spans and what the parent believes once the leaf is split and the pair in. */
  ghost function LeafSplitMem(mem: Mem, p: Ptr, m: nat, right: Ptr, target: Ptr, j: nat, kv: KV): Mem
    requires CanSplit(mem, p, m, right) && target in SplitMem(mem, p, m, right) && j <= |SplitMem(mem, p, m, right)[target].kvs|
  {
    LeafInsertMem(SplitMem(mem, p, m, right), target, j, kv)
  }

  ghost function LeafSplitOwn(own: Spans, p: Ptr, i: nat, m: nat, right: Ptr): Spans
    requires p in own
  {
    AllUp(SplitSpans(own, p, own[p].lo + m, right), own[p].lo + i)
  }

  ghost function LeafSplitView(own: Spans, p: Ptr, i: nat, m: nat, right: Ptr): Spans
    requires p in own
  {
    AllUp(own[right := Span(own[p].lo + m + 1, own[p].hi)], own[p].lo + i)
  }

  lemma LeafSplitGrowing(mem: Mem, own: Spans, all: seq<KV>, root: Ptr, p: Ptr, i: nat, kv: KV, m: nat, right: Ptr, target: Ptr, j: nat)
    requires BTreeOk(mem, own, all, root) && p in own
    requires LeafPlan(mem, p, i, m, right, target, j)
    ensures own[p].lo + i <= |all|
    ensures var mem', own' := LeafSplitMem(mem, p, m, right, target, j, kv), LeafSplitOwn(own, p, i, m, right);
            && Growing(mem', own', LeafSplitView(own, p, i, m, right), InsertAt(all, own[p].lo + i, kv), root, p, mem[p].kvs[m], right)
            && PairAt(mem', own', target, j, own[p].lo + i)
  {
    assert NodeOrderOk(mem, own, own, all, p);
    LeafSplitOrder(mem, own, all, root, p, i, kv, m, right, target, j);
    SplitPointers(mem, p, m, right);
    LeafInsertPointers(SplitMem(mem, p, m, right), target, j, kv);
    LeafSplitPending(mem, own, all, root, p, i, kv, m, right, target, j);
    var mem2 := LeafSplitMem(mem, p, m, right, target, j, kv);
    forall q | q in mem2 ensures Hangs(mem2, root, {right}, q) && LenOk(mem2, root, q) {
      if q != right { assert Hangs(mem, root, {}, q) && LenOk(mem, root, q); }
    }
  }

  lemma LeafSplitOrder(mem: Mem, own: Spans, all: seq<KV>, root: Ptr, p: Ptr, i: nat, kv: KV, m: nat, right: Ptr, target: Ptr, j: nat)
    requires BTreeOk(mem, own, all, root) && p in own
    requires LeafPlan(mem, p, i, m, right, target, j)
    ensures own[p].lo + i <= own[p].hi <= |all|
    ensures Ordered(LeafSplitMem(mem, p, m, right, target, j, kv), LeafSplitOwn(own, p, i, m, right),
                    LeafSplitView(own, p, i, m, right), InsertAt(all, own[p].lo + i, kv))
  {
    var x, mem1 := own[p].lo + m, SplitMem(mem, p, m, right);
    LeafSplitAlone(mem, own, all, root, p, i, m, right, target, j);
    SplitOrder(mem, own, own, all, p, m, right);
    LeafInsertOrder(mem1, SplitSpans(own, p, x, right), own[right := Span(x + 1, own[p].hi)], all, target, j, kv);
  }

  lemma LeafSplitPending(mem: Mem, own: Spans, all: seq<KV>, root: Ptr, p: Ptr, i: nat, kv: KV, m: nat, right: Ptr, target: Ptr, j: nat)
    requires BTreeOk(mem, own, all, root) && p in own
    requires LeafPlan(mem, p, i, m, right, target, j)
    requires own[p].lo + i <= own[p].hi <= |all|
    ensures var mem', own' := LeafSplitMem(mem, p, m, right, target, j, kv), LeafSplitOwn(own, p, i, m, right);
            && Pending(mem', own', LeafSplitView(own, p, i, m, right), InsertAt(all, own[p].lo + i, kv), p, mem[p].kvs[m], right)
            && PairAt(mem', own', target, j, own[p].lo + i)
  {
    assert NodeOrderOk(mem, own, own, all, p);
    var own', view' := LeafSplitOwn(own, p, i, m, right), LeafSplitView(own, p, i, m, right);
    assert view' == own'[p := Span(own'[p].lo, own'[right].hi)];
  }

  // ----- the levels above -----

  /** The parent has room: the split is closed. */
  lemma CloseSplit(mem: Mem, own: Spans, view: Spans, all: seq<KV>, root: Ptr, left: Ptr, kv: KV, right: Ptr, p: Ptr, i: nat)
    requires Growing(mem, own, view, all, root, left, kv, right)
    requires mem[left].link == Child(p, i) && p in mem && |mem[p].kvs| < CAPACITY
    ensures CanAttach(mem, p, i, right)
    ensures BTreeOk(AttachMem(mem, p, i, kv, right), own, all, root)
  {
    assert LinkOk(mem, left) && EdgesOk(mem, p) && EdgeOk(mem, p, i);
    AttachPointers(mem, p, i, kv, right);
    AttachOrder(mem, own, view, all, p, i, kv, right);
    assert view[left := own[left]][right := own[right]] == own;
    var mem' := AttachMem(mem, p, i, kv, right);
    forall q | q in mem' ensures Hangs(mem', root, {}, q) && LenOk(mem', root, q) {
      assert Hangs(mem, root, {right}, q) && Hangs(mem, root, {right}, p) && LenOk(mem, root, q);
    }
    assert left != root;
  }

  /** The parent is full: it was split at `m`, then the pair and the edge went in on one side. */
  ghost predicate RaisePlan(mem: Mem, left: Ptr, right: Ptr, p: Ptr, i: nat, m: nat, new_: Ptr, target: Ptr, j: nat) {
    && left in mem && mem[left].link == Child(p, i)
    && p in mem && EdgesOk(mem, p) && |mem[p].kvs| == CAPACITY && i < |mem[p].edges| && mem[p].edges[i] == left
    && EdgeOk(mem, p, i)
    && right in mem && right != p && mem[right].height + 1 == mem[p].height && mem[right].link == NoParent
    && new_ !in mem && (forall q :: q in mem ==> new_ !in mem[q].edges)
    && m == Splitpoint(i).0
    && (match Splitpoint(i).1 case Left(k) => target == p && j == k case Right(k) => target == new_ && j == k)
  }

  lemma RaiseAttach(mem: Mem, left: Ptr, right: Ptr, p: Ptr, i: nat, m: nat, new_: Ptr, target: Ptr, j: nat)
    requires PointersOk(mem) && RaisePlan(mem, left, right, p, i, m, new_, target, j)
    ensures CanSplit(mem, p, m, new_)
    ensures PointersOk(SplitMem(mem, p, m, new_))
    ensures CanAttach(SplitMem(mem, p, m, new_), target, j, right)
    ensures SplitMem(mem, p, m, new_)[target].edges[j] == left
    ensures |SplitMem(mem, p, m, new_)[target].kvs| < CAPACITY
  {
    SplitPointers(mem, p, m, new_);
    assert EdgesOk(SplitMem(mem, p, m, new_), target);
  }

  lemma RaiseSplit(mem: Mem, own: Spans, view: Spans, all: seq<KV>, root: Ptr, left: Ptr, kv: KV, right: Ptr,
                   p: Ptr, i: nat, m: nat, new_: Ptr, target: Ptr, j: nat) returns (own': Spans, view': Spans)
    requires Growing(mem, own, view, all, root, left, kv, right)
    requires RaisePlan(mem, left, right, p, i, m, new_, target, j) && CanSplit(mem, p, m, new_)
    requires CanAttach(SplitMem(mem, p, m, new_), target, j, right)
    ensures Growing(AttachMem(SplitMem(mem, p, m, new_), target, j, kv, right), own', view', all, root, p, mem[p].kvs[m], new_)
    ensures mem[p].height > 0 ==> LeavesKept(mem, own, AttachMem(SplitMem(mem, p, m, new_), target, j, kv, right), own')
  {
    var x := PairRank(mem, own, view, p, m);
    assert NodeOrderOk(mem, own, view, all, p);
    own', view' := SplitSpans(own, p, x, new_), SplitSpans(own, p, x, new_)[p := own[p]];
    RaiseOrder(mem, own, view, all, root, left, kv, right, p, i, m, new_, target, j);
    RaiseShape(mem, own, view, all, root, left, kv, right, p, i, m, new_, target, j);
    if mem[p].height > 0 { RaiseKeepsLeaves(mem, own, p, m, x, new_, target, j, kv, right); }
    assert root in view';
  }

  lemma RaiseKeepsLeaves(mem: Mem, own: Spans, p: Ptr, m: nat, x: nat, new_: Ptr, target: Ptr, j: nat, kv: KV, right: Ptr)
    requires CanSplit(mem, p, m, new_) && CanAttach(SplitMem(mem, p, m, new_), target, j, right)
    requires mem[p].height > 0 && p in own && (target == p || target == new_)
    ensures LeavesKept(mem, own, AttachMem(SplitMem(mem, p, m, new_), target, j, kv, right), SplitSpans(own, p, x, new_))
  {
    var mem', own' := AttachMem(SplitMem(mem, p, m, new_), target, j, kv, right), SplitSpans(own, p, x, new_);
    forall q | q in mem && mem[q].height == 0 && q in own ensures LeafKept(mem, own, mem', own', q) {}
  }

  lemma RaiseOrder(mem: Mem, own: Spans, view: Spans, all: seq<KV>, root: Ptr, left: Ptr, kv: KV, right: Ptr,
                   p: Ptr, i: nat, m: nat, new_: Ptr, target: Ptr, j: nat)
    requires Growing(mem, own, view, all, root, left, kv, right)
    requires RaisePlan(mem, left, right, p, i, m, new_, target, j) && CanSplit(mem, p, m, new_)
    requires CanAttach(SplitMem(mem, p, m, new_), target, j, right)
    ensures p in own
    ensures var x := PairRank(mem, own, view, p, m);
            var mem', own' := AttachMem(SplitMem(mem, p, m, new_), target, j, kv, right), SplitSpans(own, p, x, new_);
            && PointersOk(mem')
            && own[p].lo <= x < own[p].hi <= |all| && all[x] == mem[p].kvs[m]
            && Ordered(mem', own', own'[p := own[p]], all)
  {
    RaiseAttach(mem, left, right, p, i, m, new_, target, j);
    SplitOrder(mem, own, view, all, p, m, new_);
    var x, mem1 := PairRank(mem, own, view, p, m), SplitMem(mem, p, m, new_);
    var own', view1 := SplitSpans(own, p, x, new_), view[new_ := Span(x + 1, own[p].hi)];
    AttachPointers(mem1, target, j, kv, right);
    AttachOrder(mem1, own', view1, all, target, j, kv, right);
    assert view1[left := own'[left]][right := own'[right]] == own'[p := own[p]];
  }

  lemma RaiseShape(mem: Mem, own: Spans, view: Spans, all: seq<KV>, root: Ptr, left: Ptr, kv: KV, right: Ptr,
                   p: Ptr, i: nat, m: nat, new_: Ptr, target: Ptr, j: nat)
    requires Growing(mem, own, view, all, root, left, kv, right)
    requires RaisePlan(mem, left, right, p, i, m, new_, target, j) && CanSplit(mem, p, m, new_)
    requires CanAttach(SplitMem(mem, p, m, new_), target, j, right)
    ensures var mem' := AttachMem(SplitMem(mem, p, m, new_), target, j, kv, right);
            && Rooted(mem', root, {new_}) && Lens(mem', root)
            && p in mem' && new_ in mem' && mem'[p].height == mem'[new_].height && mem'[new_].link == NoParent
            && |mem'[p].kvs| >= MIN_LEN
  {
    var mem' := AttachMem(SplitMem(mem, p, m, new_), target, j, kv, right);
    assert Hangs(mem, root, {right}, p);
    forall q | q in mem' ensures Hangs(mem', root, {new_}, q) {
      if q != new_ { assert Hangs(mem, root, {right}, q); }
    }
    forall q | q in mem' ensures LenOk(mem', root, q) {
      if q != new_ { assert LenOk(mem, root, q); }
    }
  }

  /** The root itself was split: a new root takes both halves. */
  lemma CloseAtRoot(mem: Mem, own: Spans, view: Spans, all: seq<KV>, root: Ptr, kv: KV, right: Ptr, new_: Ptr)
    requires Growing(mem, own, view, all, root, root, kv, right)
    requires new_ !in mem && (forall q :: q in mem ==> new_ !in mem[q].edges)
    ensures var mem1 := PushLevelMem(mem, root, new_);
            && PointersOk(mem1) && CanAttach(mem1, new_, 0, right)
            && BTreeOk(AttachMem(mem1, new_, 0, kv, right), own[new_ := view[root]], all, new_)
  {
    var mem1, own1, view1 := PushLevelMem(mem, root, new_), own[new_ := view[root]], view[new_ := view[root]];
    PushLevelPointers(mem, root, new_);
    PushLevelOrder(mem, own, view, all, root, new_);
    assert EdgesOk(mem1, new_);
    AttachPointers(mem1, new_, 0, kv, right);
    AttachOrder(mem1, own1, view1, all, new_, 0, kv, right);
    assert view1[root := own1[root]][right := own1[right]] == own1;
    var mem' := AttachMem(mem1, new_, 0, kv, right);
    forall q | q in mem' ensures Hangs(mem', new_, {}, q) && LenOk(mem', new_, q) {
      if q != new_ { assert Hangs(mem, root, {right}, q) && LenOk(mem, root, q); }
    }
  }
}
