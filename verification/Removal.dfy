/** Removal and the repair it needs: the state between a removal and the end of the repair, where
    one node may be too short, and what a merge or a steal does to it. */
module Removal {
  import opened NodeStore
  import opened Rebalance
  import opened Growth
  import opened Ranks

  /** A B-tree in which only node `cur` may be too short. */
  ghost predicate Fixing(mem: Mem, own: Spans, all: seq<KV>, root: Ptr, cur: Ptr) {
    && Wf(mem, own, all)
    && Rooted(mem, root, {})
    && root in own && own[root] == Span(0, |all|)
    && cur in mem && |mem[cur].kvs| <= CAPACITY
    && forall p {:trigger LenOk(mem, root, p)} :: p in mem && p != cur ==> LenOk(mem, root, p)
  }

  /** The one thing the repair leaves undone: an internal root without pairs. */
  ghost predicate EmptiedRoot(mem: Mem, own: Spans, all: seq<KV>, root: Ptr) {
    Fixing(mem, own, all, root, root) && mem[root].height > 0 && mem[root].kvs == []
  }

  lemma Fixed(mem: Mem, own: Spans, all: seq<KV>, root: Ptr, cur: Ptr)
    requires Fixing(mem, own, all, root, cur) && LenOk(mem, root, cur)
    ensures BTreeOk(mem, own, all, root)
  {}

  // ----- taking a pair out of a leaf -----

  lemma LeafRemoveFixing(mem: Mem, own: Spans, all: seq<KV>, root: Ptr, p: Ptr, i: nat)
    requires BTreeOk(mem, own, all, root)
    requires p in mem && p in own && mem[p].height == 0 && i < |mem[p].kvs|
    ensures var r := own[p].lo + i;
            && r < |all| && all[r] == mem[p].kvs[i]
            && Fixing(LeafRemoveMem(mem, p, i), AllDown(own, r), RemoveAt(all, r), root, p)
            && AllDown(own, r)[p].lo + i == r
  {
    var r := PairInside(mem, own, all, p, i);
    RootedIsOneTree(mem, root);
    LeafRemoveOrder(mem, own, all, root, p, i);
    var mem' := LeafRemoveMem(mem, p, i);
    forall q | q in mem' ensures EdgesOk(mem', q) && LinkOk(mem', q) {
      assert EdgesOk(mem, q) && LinkOk(mem, q);
      forall j | 0 <= j < |mem'[q].edges| ensures EdgeOk(mem', q, j) { assert EdgeOk(mem, q, j); }
    }
    forall q | q in mem' ensures Hangs(mem', root, {}, q) && (q != p ==> LenOk(mem', root, q)) {
      assert Hangs(mem, root, {}, q) && LenOk(mem, root, q);
    }
    assert LenOk(mem, root, p);
  }

  // ----- repair -----

  /** The parent edge of a node below the root, and the pair beside it that the repair works on:
      the one to the left if there is one. */
  lemma ParentPair(mem: Mem, own: Spans, all: seq<KV>, root: Ptr, cur: Ptr) returns (p: Ptr, i: nat, k: nat)
    requires Fixing(mem, own, all, root, cur) && cur != root
    ensures mem[cur].link == Child(p, i) && p in mem && mem[p].height == mem[cur].height + 1 <= mem[root].height
    ensures k == (if i > 0 then i - 1 else 0) && AroundInOrder(mem, own, all, p, k)
    ensures p != cur && |mem[p].edges| == |mem[p].kvs| + 1 && i <= |mem[p].kvs|
    ensures mem[p].edges[if i > 0 then k + 1 else k] == cur
    ensures var other := mem[p].edges[if i > 0 then k else k + 1];
            other != cur && other != root && other in mem && LenOk(mem, root, other)
  {
    assert Hangs(mem, root, {}, cur) && LinkOk(mem, cur);
    p, i := mem[cur].link.parent, mem[cur].link.idx;
    k := if i > 0 then i - 1 else 0;
    assert EdgesOk(mem, p) && EdgeOk(mem, p, i);
    assert LenOk(mem, root, p) && Hangs(mem, root, {}, p);
    AroundPair(mem, own, all, p, k);
    assert LenOk(mem, root, mem[p].edges[if i > 0 then k else k + 1]);
  }

  /** After a merge the parent may be too short. */
  lemma MergeFixing(mem: Mem, own: Spans, all: seq<KV>, root: Ptr, cur: Ptr, p: Ptr, k: nat)
    requires Fixing(mem, own, all, root, cur)
    requires AroundInOrder(mem, own, all, p, k) && cur != root
    requires cur == mem[p].edges[k] || cur == mem[p].edges[k + 1]
    requires |mem[mem[p].edges[k]].kvs| + 1 + |mem[mem[p].edges[k + 1]].kvs| <= CAPACITY
    ensures var l, r := mem[p].edges[k], mem[p].edges[k + 1];
            && Fixing(MergeMem(mem, p, k), MergeSpans(own, l, r), all, root, p)
            && l != r && own[r].lo == own[l].lo + (if mem[l].height == 0 then |mem[l].kvs| + 1 else own[l].hi - own[l].lo + 1)
            && |MergeMem(mem, p, k)[p].kvs| + 1 == |mem[p].kvs|
            && (p != root ==> |MergeMem(mem, p, k)[p].kvs| >= MIN_LEN - 1)
  {
    var l, r, mem' := mem[p].edges[k], mem[p].edges[k + 1], MergeMem(mem, p, k);
    MergeWf(mem, own, all, p, k);
    assert EdgeOk(mem, p, k) && EdgeOk(mem, p, k + 1);
    assert LenOk(mem, root, p);
    MergeShape(mem, root, cur, p, k);
  }

  lemma MergeShape(mem: Mem, root: Ptr, cur: Ptr, p: Ptr, k: nat)
    requires Around(mem, p, k) && Rooted(mem, root, {})
    requires forall q {:trigger LenOk(mem, root, q)} :: q in mem && q != cur ==> LenOk(mem, root, q)
    requires cur == mem[p].edges[k] || cur == mem[p].edges[k + 1]
    requires |mem[mem[p].edges[k]].kvs| + 1 + |mem[mem[p].edges[k + 1]].kvs| <= CAPACITY
    ensures var mem' := MergeMem(mem, p, k);
            && Rooted(mem', root, {})
            && forall q {:trigger LenOk(mem', root, q)} :: q in mem' && q != p ==> LenOk(mem', root, q)
  {
    var l, r, mem' := mem[p].edges[k], mem[p].edges[k + 1], MergeMem(mem, p, k);
    forall q | q in mem' ensures Hangs(mem', root, {}, q) { assert Hangs(mem, root, {}, q); }
    assert LenOk(mem, root, if cur == l then r else l);
    forall q | q in mem' && q != p ensures LenOk(mem', root, q) {
      if q != l { assert LenOk(mem, root, q); }
    }
  }

  /** After a steal nothing is too short. */
  lemma StealFixed(mem: Mem, own: Spans, all: seq<KV>, root: Ptr, cur: Ptr, p: Ptr, k: nat, n: nat)
    requires Fixing(mem, own, all, root, cur)
    requires AroundInOrder(mem, own, all, p, k) && cur != root && CanRebalance(mem, p, k, n)
    requires cur == mem[p].edges[k] || cur == mem[p].edges[k + 1]
    requires MIN_LEN <= n <= CAPACITY && MIN_LEN <= |BothKvs(mem, p, k)| - n - 1 <= CAPACITY
    ensures BTreeOk(RebalanceMem(mem, p, k, n),
                    BorderSpans(own, mem[p].edges[k], mem[p].edges[k + 1], Border(mem, own, p, k, n)), all, root)
  {
    var l, r, mem' := mem[p].edges[k], mem[p].edges[k + 1], RebalanceMem(mem, p, k, n);
    RebalanceWf(mem, own, all, p, k, n);
    StealShape(mem, root, cur, p, k, n);
  }

  lemma StealShape(mem: Mem, root: Ptr, cur: Ptr, p: Ptr, k: nat, n: nat)
    requires Around(mem, p, k) && Rooted(mem, root, {}) && CanRebalance(mem, p, k, n)
    requires forall q {:trigger LenOk(mem, root, q)} :: q in mem && q != cur ==> LenOk(mem, root, q)
    requires cur == mem[p].edges[k] || cur == mem[p].edges[k + 1]
    requires MIN_LEN <= n <= CAPACITY && MIN_LEN <= |BothKvs(mem, p, k)| - n - 1 <= CAPACITY
    ensures Rooted(RebalanceMem(mem, p, k, n), root, {}) && Lens(RebalanceMem(mem, p, k, n), root)
    ensures mem[p].edges[k] != root && mem[p].edges[k + 1] != root
  {
    var l, r, mem' := mem[p].edges[k], mem[p].edges[k + 1], RebalanceMem(mem, p, k, n);
    forall q | q in mem' ensures Hangs(mem', root, {}, q) { assert Hangs(mem, root, {}, q); }
    forall q | q in mem' ensures LenOk(mem', root, q) {
      if q != l && q != r { assert LenOk(mem, root, q); }
    }
  }

  lemma MergeKeepsLeaves(mem: Mem, own: Spans, p: Ptr, k: nat)
    requires Around(mem, p, k) && mem[p].height > 1
    requires mem[p].edges[k] in own && mem[p].edges[k + 1] in own
    ensures LeavesKept(mem, own, MergeMem(mem, p, k), MergeSpans(own, mem[p].edges[k], mem[p].edges[k + 1]))
  {
    var mem', own' := MergeMem(mem, p, k), MergeSpans(own, mem[p].edges[k], mem[p].edges[k + 1]);
    forall q | q in mem && mem[q].height == 0 && q in own ensures LeafKept(mem, own, mem', own', q) {}
  }

  lemma RebalanceKeepsLeaves(mem: Mem, own: Spans, p: Ptr, k: nat, n: nat, x: nat)
    requires CanRebalance(mem, p, k, n) && mem[p].height > 1
    requires mem[p].edges[k] in own && mem[p].edges[k + 1] in own
    ensures LeavesKept(mem, own, RebalanceMem(mem, p, k, n), BorderSpans(own, mem[p].edges[k], mem[p].edges[k + 1], x))
  {
    var mem', own' := RebalanceMem(mem, p, k, n), BorderSpans(own, mem[p].edges[k], mem[p].edges[k + 1], x);
    forall q | q in mem && mem[q].height == 0 && q in own ensures LeafKept(mem, own, mem', own', q) {}
  }

  lemma KeptTwice(mem: Mem, own: Spans, mem1: Mem, own1: Spans, mem2: Mem, own2: Spans)
    requires LeavesKept(mem, own, mem1, own1) && LeavesKept(mem1, own1, mem2, own2)
    ensures LeavesKept(mem, own, mem2, own2)
  {
    forall q | q in mem && mem[q].height == 0 && q in own ensures LeafKept(mem, own, mem2, own2, q) {
      assert LeafKept(mem, own, mem1, own1, q) && LeafKept(mem1, own1, mem2, own2, q);
    }
  }

  lemma ReplaceShape(mem: Mem, own: Spans, all: seq<KV>, root: Ptr, p: Ptr, i: nat, x: nat, kv: KV)
    requires p in mem && i < |mem[p].kvs| && x < |all|
    requires Wf(ReplaceMem(mem, p, i, kv), own, all[x := kv])
    ensures BTreeOk(mem, own, all, root) ==> BTreeOk(ReplaceMem(mem, p, i, kv), own, all[x := kv], root)
    ensures EmptiedRoot(mem, own, all, root) ==> EmptiedRoot(ReplaceMem(mem, p, i, kv), own, all[x := kv], root)
  {
    var mem' := ReplaceMem(mem, p, i, kv);
    if Rooted(mem, root, {}) {
      forall q | q in mem' ensures Hangs(mem', root, {}, q) { assert Hangs(mem, root, {}, q); }
    }
    if BTreeOk(mem, own, all, root) {
      forall q | q in mem' ensures LenOk(mem', root, q) { assert LenOk(mem, root, q); }
    }
    if EmptiedRoot(mem, own, all, root) {
      forall q | q in mem' && q != root ensures LenOk(mem', root, q) { assert LenOk(mem, root, q); }
    }
  }

  /** Popping the emptied root gives a B-tree again. */
  lemma PopFixed(mem: Mem, own: Spans, all: seq<KV>, root: Ptr)
    requires EmptiedRoot(mem, own, all, root)
    ensures EmptyRoot(mem, root)
    ensures BTreeOk(PopLevelMem(mem, root), own - {root}, all, mem[root].edges[0])
  {
    assert EdgesOk(mem, root) && EdgeOk(mem, root, 0);
    PopLevelWf(mem, own, all, root);
    var mem', c := PopLevelMem(mem, root), mem[root].edges[0];
    forall q | q in mem' ensures Hangs(mem', c, {}, q) && LenOk(mem', c, q) {
      assert Hangs(mem, root, {}, q) && LenOk(mem, root, q);
      if q != c {
        assert LinkOk(mem, q) && EdgesOk(mem, mem[q].link.parent) && Hangs(mem, root, {}, mem[q].link.parent);
        assert EdgeOk(mem, mem[q].link.parent, mem[q].link.idx);
      }
    }
  }
}
