/** Merging two siblings and moving pairs between them, as `do_merge`, `bulk_steal_left` and
    `bulk_steal_right` do: what the memory becomes, and that it stays well formed with the
    in-order sequence untouched. */
module Rebalance {
  import opened NodeStore

  /** The pair `k` of internal node `p` and the two children around it. */
  ghost predicate Siblings(mem: Mem, p: Ptr, k: nat) {
    && p in mem && mem[p].height > 0
    && k < |mem[p].kvs| && |mem[p].edges| == |mem[p].kvs| + 1
    && mem[p].edges[k] in mem && mem[p].edges[k + 1] in mem
  }

  ghost predicate Around(mem: Mem, p: Ptr, k: nat) {
    && PointersOk(mem)
    && Siblings(mem, p, k)
    && EdgesOk(mem, p) && EdgeOk(mem, p, k) && EdgeOk(mem, p, k + 1)
  }

  ghost predicate AroundInOrder(mem: Mem, own: Spans, all: seq<KV>, p: Ptr, k: nat) {
    && Around(mem, p, k)
    && Ordered(mem, own, own, all)
    && NodeOrderOk(mem, own, own, all, p)
    && NodeOrderOk(mem, own, own, all, mem[p].edges[k])
    && NodeOrderOk(mem, own, own, all, mem[p].edges[k + 1])
    && PairOk(mem[p].edges, mem[p].kvs, own, all, k)
  }

  lemma AroundPair(mem: Mem, own: Spans, all: seq<KV>, p: Ptr, k: nat)
    requires Wf(mem, own, all)
    requires p in mem && mem[p].height > 0 && k < |mem[p].kvs|
    ensures AroundInOrder(mem, own, all, p, k)
  {
    assert EdgesOk(mem, p);
    assert EdgeOk(mem, p, k) && EdgeOk(mem, p, k + 1);
    assert NodeOrderOk(mem, own, own, all, p);
    assert NodeOrderOk(mem, own, own, all, mem[p].edges[k]);
    assert NodeOrderOk(mem, own, own, all, mem[p].edges[k + 1]);
    assert PairOk(mem[p].edges, mem[p].kvs, own, all, k);
  }

  // ----- merge -----

  function MergeLink(p: Ptr, k: nat, l: Ptr, leftLen: nat, r: Ptr, link: Link): Link {
    if link.NoParent? then link
    else if link.parent == r then Child(l, leftLen + 1 + link.idx)
    else if link.parent == p && link.idx > k + 1 then Child(p, link.idx - 1)
    else link
  }

  /** Pair `k` of `p` and everything in its right child move to the end of its left child. */
  ghost function MergeMem(mem: Mem, p: Ptr, k: nat): Mem
    requires Siblings(mem, p, k)
  {
    var n := mem[p];
    var l, r := n.edges[k], n.edges[k + 1];
    map q | q in mem && q != r ::
      var m := mem[q].(link := MergeLink(p, k, l, |mem[l].kvs|, r, mem[q].link));
      if q == p then m.(kvs := n.kvs[..k] + n.kvs[k + 1..], edges := n.edges[..k + 1] + n.edges[k + 2..])
      else if q == l then m.(kvs := mem[l].kvs + [n.kvs[k]] + mem[r].kvs, edges := mem[l].edges + mem[r].edges)
      else m
  }

  ghost function MergeSpans(own: Spans, l: Ptr, r: Ptr): Spans
    requires l in own && r in own
  {
    (own - {r})[l := Span(own[l].lo, own[r].hi)]
  }

  lemma MergeWf(mem: Mem, own: Spans, all: seq<KV>, p: Ptr, k: nat)
    requires AroundInOrder(mem, own, all, p, k)
    ensures Wf(MergeMem(mem, p, k), MergeSpans(own, mem[p].edges[k], mem[p].edges[k + 1]), all)
  {
    MergePointers(mem, p, k);
    MergeOrder(mem, own, all, p, k);
  }

  lemma MergePointers(mem: Mem, p: Ptr, k: nat)
    requires Around(mem, p, k)
    ensures PointersOk(MergeMem(mem, p, k))
  {
    var mem' := MergeMem(mem, p, k);
    forall q | q in mem' ensures EdgesOk(mem', q) {
      if q == p { MergeParentEdges(mem, p, k); }
      else if q == mem[p].edges[k] { MergeLeftEdges(mem, p, k); }
      else { MergeOtherEdges(mem, p, k, q); }
    }
    forall q | q in mem' ensures LinkOk(mem', q) { MergeLinkOk(mem, p, k, q); }
  }

  lemma MergeParentEdges(mem: Mem, p: Ptr, k: nat)
    requires Around(mem, p, k)
    ensures EdgesOk(MergeMem(mem, p, k), p)
  {
    var mem' := MergeMem(mem, p, k);
    forall i | 0 <= i < |mem'[p].edges| ensures EdgeOk(mem', p, i) {
      assert EdgeOk(mem, p, if i <= k then i else i + 1);
    }
  }

  lemma MergeLeftEdges(mem: Mem, p: Ptr, k: nat)
    requires Around(mem, p, k)
    ensures EdgesOk(MergeMem(mem, p, k), mem[p].edges[k])
  {
    var l, r := mem[p].edges[k], mem[p].edges[k + 1];
    var mem' := MergeMem(mem, p, k);
    assert EdgesOk(mem, l) && EdgesOk(mem, r);
    forall i | 0 <= i < |mem'[l].edges| ensures EdgeOk(mem', l, i) {
      if i <= |mem[l].kvs| { assert EdgeOk(mem, l, i); }
      else { assert EdgeOk(mem, r, i - |mem[l].kvs| - 1); }
    }
  }

  lemma MergeOtherEdges(mem: Mem, p: Ptr, k: nat, q: Ptr)
    requires Around(mem, p, k)
    requires q in mem && q != p && q != mem[p].edges[k] && q != mem[p].edges[k + 1]
    ensures EdgesOk(MergeMem(mem, p, k), q)
  {
    var mem' := MergeMem(mem, p, k);
    assert EdgesOk(mem, q);
    forall i | 0 <= i < |mem'[q].edges| ensures EdgeOk(mem', q, i) {
      assert EdgeOk(mem, q, i);
    }
  }

  lemma MergeLinkOk(mem: Mem, p: Ptr, k: nat, q: Ptr)
    requires Around(mem, p, k)
    requires q in mem && q != mem[p].edges[k + 1]
    ensures LinkOk(MergeMem(mem, p, k), q)
  {
    assert LinkOk(mem, q);
    assert EdgesOk(mem, mem[p].edges[k]) && EdgesOk(mem, mem[p].edges[k + 1]);
  }

  lemma MergeOrder(mem: Mem, own: Spans, all: seq<KV>, p: Ptr, k: nat)
    requires AroundInOrder(mem, own, all, p, k)
    ensures var own' := MergeSpans(own, mem[p].edges[k], mem[p].edges[k + 1]);
            Ordered(MergeMem(mem, p, k), own', own', all)
  {
    var mem', own' := MergeMem(mem, p, k), MergeSpans(own, mem[p].edges[k], mem[p].edges[k + 1]);
    forall q | q in mem' ensures NodeOrderOk(mem', own', own', all, q) {
      if q == p { MergeParentOrder(mem, own, all, p, k); }
      else if q == mem[p].edges[k] { MergeLeftOrder(mem, own, all, p, k); }
      else { MergeOtherOrder(mem, own, all, p, k, q); }
    }
  }

  lemma MergeParentOrder(mem: Mem, own: Spans, all: seq<KV>, p: Ptr, k: nat)
    requires AroundInOrder(mem, own, all, p, k)
    ensures var own' := MergeSpans(own, mem[p].edges[k], mem[p].edges[k + 1]);
            NodeOrderOk(MergeMem(mem, p, k), own', own', all, p)
  {
    var n := mem[p];
    var own' := MergeSpans(own, n.edges[k], n.edges[k + 1]);
    forall i | 0 <= i < |n.edges| && i != k && i != k + 1 ensures n.edges[i] != n.edges[k] && n.edges[i] != n.edges[k + 1] {
      assert EdgeOk(mem, p, i);
    }
    LaidMerge(n.edges, n.kvs, own, own', all, own[p], k);
  }

  lemma MergeLeftOrder(mem: Mem, own: Spans, all: seq<KV>, p: Ptr, k: nat)
    requires AroundInOrder(mem, own, all, p, k)
    ensures var own' := MergeSpans(own, mem[p].edges[k], mem[p].edges[k + 1]);
            NodeOrderOk(MergeMem(mem, p, k), own', own', all, mem[p].edges[k])
  {
    var l, r, x := mem[p].edges[k], mem[p].edges[k + 1], mem[p].kvs[k];
    var own' := MergeSpans(own, l, r);
    if mem[l].height > 0 {
      LaidJoin(mem[l].edges, mem[l].kvs, own[l], x, mem[r].edges, mem[r].kvs, own[r], own, all);
      ChildrenKept(mem, own, own', p, l);
      ChildrenKept(mem, own, own', p, r);
      LaidKept(mem[l].edges + mem[r].edges, mem[l].kvs + [x] + mem[r].kvs, own, own', all, own'[l]);
    }
  }

  lemma MergeOtherOrder(mem: Mem, own: Spans, all: seq<KV>, p: Ptr, k: nat, q: Ptr)
    requires AroundInOrder(mem, own, all, p, k)
    requires q in mem && q != p && q != mem[p].edges[k] && q != mem[p].edges[k + 1]
    ensures var own' := MergeSpans(own, mem[p].edges[k], mem[p].edges[k + 1]);
            NodeOrderOk(MergeMem(mem, p, k), own', own', all, q)
  {
    var own' := MergeSpans(own, mem[p].edges[k], mem[p].edges[k + 1]);
    assert NodeOrderOk(mem, own, own, all, q);
    ChildrenKept(mem, own, own', p, q);
    OrderKept(mem[q], MergeMem(mem, p, k)[q], own[q], own, own', all);
  }

  /** What the steps of `do_merge` need to know about where they lead. */
  lemma MergeFacts(mem: Mem, p: Ptr, k: nat)
    requires Around(mem, p, k)
    ensures var t, l, r := MergeMem(mem, p, k), mem[p].edges[k], mem[p].edges[k + 1];
            && PointersOk(t) && p in t && l in t && p != l && p != r && l != r
            && EdgesOk(t, p) && EdgesOk(t, l)
            && (forall c :: c in t[p].edges || c in t[l].edges ==> c in mem)
            && |t[p].edges| == |mem[p].kvs|
            && (mem[l].height > 0 ==> |t[l].edges| == |mem[l].kvs| + |mem[r].kvs| + 2)
  {
    var t, l, r := MergeMem(mem, p, k), mem[p].edges[k], mem[p].edges[k + 1];
    MergePointers(mem, p, k);
    assert EdgesOk(t, p) && EdgesOk(t, l) && EdgesOk(mem, l) && EdgesOk(mem, r);
    forall c | c in t[p].edges ensures c in mem {
      var i :| 0 <= i < |t[p].edges| && t[p].edges[i] == c;
      assert EdgeOk(t, p, i);
    }
    forall c | c in t[l].edges ensures c in mem {
      var i :| 0 <= i < |t[l].edges| && t[l].edges[i] == c;
      assert EdgeOk(t, l, i);
    }
  }

  /** The first steps of `do_merge`: the pairs move left, the parent closes its gap. */
  ghost function MergeStep(mem: Mem, p: Ptr, k: nat): Mem
    requires Siblings(mem, p, k)
  {
    var n, l, r := mem[p], mem[p].edges[k], mem[p].edges[k + 1];
    mem[l := mem[l].(kvs := mem[l].kvs + [n.kvs[k]] + mem[r].kvs)]
       [p := n.(kvs := n.kvs[..k] + n.kvs[k + 1..], edges := n.edges[..k + 1] + n.edges[k + 2..])]
  }

  /** All steps of `do_merge`: the parent's children linked, the edges of internal children moved
      and linked, the right child freed. */
  ghost function MergeSteps(mem: Mem, p: Ptr, k: nat): Mem
    requires Around(mem, p, k)
  {
    var l, r, t := mem[p].edges[k], mem[p].edges[k + 1], MergeMem(mem, p, k);
    var m := SetLinks(MergeStep(mem, p, k), t, p, k + 1, |mem[p].kvs|);
    (if mem[p].height > 1 then
       SetLinks(m[l := m[l].(edges := mem[l].edges + mem[r].edges)], t, l, |mem[l].kvs| + 1, |mem[l].kvs| + |mem[r].kvs| + 2)
     else m) - {r}
  }

  /** Everything `do_merge` needs to know about where its steps lead. */
  lemma MergePlan(mem: Mem, p: Ptr, k: nat) returns (t: Mem)
    requires Around(mem, p, k)
    ensures t == MergeMem(mem, p, k)
    ensures var n, l, r := mem[p], mem[p].edges[k], mem[p].edges[k + 1];
            var m1 := mem[l := mem[l].(kvs := mem[l].kvs + [n.kvs[k]] + mem[r].kvs)]
                         [p := n.(kvs := n.kvs[..k] + n.kvs[k + 1..], edges := n.edges[..k + 1] + n.edges[k + 2..])];
            var m2 := SetLinks(m1, t, p, k + 1, |n.kvs|);
            && PointersOk(t) && p in t && l in t && p != l && p != r && l != r
            && EdgesOk(t, p) && EdgesOk(t, l) && m1[p].edges == t[p].edges && |t[p].edges| == |n.kvs|
            && m1.Keys == mem.Keys && m2.Keys == mem.Keys && m2[l].edges == mem[l].edges && m2[r].edges == mem[r].edges
            && (forall c :: c in t[p].edges || c in t[l].edges ==> c in mem)
            && (if n.height > 1 then
                  var m3 := m2[l := m2[l].(edges := m2[l].edges + m2[r].edges)];
                  && m3[l].edges == t[l].edges && |mem[l].kvs| + |mem[r].kvs| + 2 == |t[l].edges|
                  && SetLinks(m3, t, l, |mem[l].kvs| + 1, |t[l].edges|) - {r} == t
                else m2 - {r} == t)
  {
    t := MergeMem(mem, p, k);
    MergeFacts(mem, p, k);
    MergeStepsMerge(mem, p, k);
    assert MergeStep(mem, p, k).Keys == mem.Keys;
  }

  lemma MergeStepsMerge(mem: Mem, p: Ptr, k: nat)
    requires Around(mem, p, k)
    ensures MergeSteps(mem, p, k) == MergeMem(mem, p, k)
  {
    var l, r := mem[p].edges[k], mem[p].edges[k + 1];
    assert MergeStep(mem, p, k).Keys == mem.Keys;
    forall q | q in mem && q != r ensures MergeSteps(mem, p, k)[q] == MergeMem(mem, p, k)[q] {
      MergeStepsAt(mem, p, k, q);
    }
  }

  lemma MergeStepsAt(mem: Mem, p: Ptr, k: nat, q: Ptr)
    requires Around(mem, p, k) && q in mem && q != mem[p].edges[k + 1]
    requires MergeStep(mem, p, k).Keys == mem.Keys
    ensures q in MergeSteps(mem, p, k) && MergeSteps(mem, p, k)[q] == MergeMem(mem, p, k)[q]
  {
    var l, r, t := mem[p].edges[k], mem[p].edges[k + 1], MergeMem(mem, p, k);
    var n2 := SetLink(MergeStep(mem, p, k)[q], t[q].link, p, k + 1, |mem[p].kvs|);
    var n3 := if q == l && mem[p].height > 1 then n2.(edges := mem[l].edges + mem[r].edges) else n2;
    var n4 := if mem[p].height > 1 then SetLink(n3, t[q].link, l, |mem[l].kvs| + 1, |mem[l].kvs| + |mem[r].kvs| + 2) else n3;
    assert MergeSteps(mem, p, k)[q] == n4;
    MergeStepsLink(mem, p, k, q, n4);
    MergeStepsData(mem, p, k, q, n4);
  }

  lemma MergeStepsData(mem: Mem, p: Ptr, k: nat, q: Ptr, n4: Node)
    requires Around(mem, p, k) && q in mem && q != mem[p].edges[k + 1]
    requires q in MergeStep(mem, p, k)
    requires var l, r, n := mem[p].edges[k], mem[p].edges[k + 1], MergeStep(mem, p, k)[q];
             n4.(link := n.link) == if q == l && mem[p].height > 1 then n.(edges := mem[l].edges + mem[r].edges) else n
    ensures var t := MergeMem(mem, p, k)[q]; n4.(link := t.link) == t
  {
    assert EdgesOk(mem, mem[p].edges[k]) && EdgesOk(mem, mem[p].edges[k + 1]);
  }

  lemma MergeStepsLink(mem: Mem, p: Ptr, k: nat, q: Ptr, n4: Node)
    requires Around(mem, p, k) && q in mem && q != mem[p].edges[k + 1]
    requires q in MergeStep(mem, p, k)
    requires var l, r, t, n := mem[p].edges[k], mem[p].edges[k + 1], MergeMem(mem, p, k)[q].link, MergeStep(mem, p, k)[q];
             n4.link == if (t.Child? && t.parent == p && k + 1 <= t.idx < |mem[p].kvs|)
                           || (mem[p].height > 1 && t.Child? && t.parent == l && |mem[l].kvs| + 1 <= t.idx < |mem[l].kvs| + |mem[r].kvs| + 2)
                        then t else n.link
    ensures n4.link == MergeMem(mem, p, k)[q].link
  {
    assert LinkOk(mem, q) && EdgesOk(mem, mem[p].edges[k]) && EdgesOk(mem, mem[p].edges[k + 1]);
    assert MergeStep(mem, p, k)[q].link == mem[q].link;
  }

  // ----- moving pairs across -----

  /** The pairs of two siblings with the pair between them, and their edges. */
  ghost function BothKvs(mem: Mem, p: Ptr, k: nat): seq<KV>
    requires Siblings(mem, p, k)
  {
    mem[mem[p].edges[k]].kvs + [mem[p].kvs[k]] + mem[mem[p].edges[k + 1]].kvs
  }

  ghost function BothEdges(mem: Mem, p: Ptr, k: nat): seq<Ptr>
    requires Siblings(mem, p, k)
  {
    mem[mem[p].edges[k]].edges + mem[mem[p].edges[k + 1]].edges
  }

  function RebalanceLink(l: Ptr, leftLen: nat, r: Ptr, n: nat, link: Link): Link {
    if link.Child? && (link.parent == l || link.parent == r) then
      var g := if link.parent == l then link.idx else leftLen + 1 + link.idx;
      if g <= n then Child(l, g) else Child(r, g - n - 1)
    else link
  }

  ghost predicate CanRebalance(mem: Mem, p: Ptr, k: nat, n: nat) {
    && Around(mem, p, k)
    && EdgesOk(mem, mem[p].edges[k]) && EdgesOk(mem, mem[p].edges[k + 1])
    && n < |BothKvs(mem, p, k)|
  }

  /** The left child keeps the first `n` of both children's pairs, the next one goes up to `p`,
      the rest are the right child's. */
  ghost function RebalanceMem(mem: Mem, p: Ptr, k: nat, n: nat): Mem
    requires CanRebalance(mem, p, k, n)
  {
    var l, r := mem[p].edges[k], mem[p].edges[k + 1];
    var kvs, edges := BothKvs(mem, p, k), BothEdges(mem, p, k);
    map q | q in mem ::
      var m := mem[q].(link := RebalanceLink(l, |mem[l].kvs|, r, n, mem[q].link));
      if q == p then m.(kvs := m.kvs[k := kvs[n]])
      else if q == l then m.(kvs := kvs[..n], edges := if m.height == 0 then [] else edges[..n + 1])
      else if q == r then m.(kvs := kvs[n + 1..], edges := if m.height == 0 then [] else edges[n + 1..])
      else m
  }

  ghost function BorderSpans(own: Spans, l: Ptr, r: Ptr, x: nat): Spans
    requires l in own && r in own
  {
    own[l := Span(own[l].lo, x)][r := Span(x + 1, own[r].hi)]
  }

  /** The rank at which the pair that goes up stands. */
  ghost function Border(mem: Mem, own: Spans, p: Ptr, k: nat, n: nat): nat
    requires CanRebalance(mem, p, k, n)
  {
    var l := mem[p].edges[k];
    if mem[l].height == 0 then (if l in own then own[l].lo else 0) + n
    else var c := BothEdges(mem, p, k)[n]; if c in own then own[c].hi else 0
  }

  lemma RebalanceWf(mem: Mem, own: Spans, all: seq<KV>, p: Ptr, k: nat, n: nat)
    requires AroundInOrder(mem, own, all, p, k) && CanRebalance(mem, p, k, n)
    ensures Wf(RebalanceMem(mem, p, k, n),
               BorderSpans(own, mem[p].edges[k], mem[p].edges[k + 1], Border(mem, own, p, k, n)), all)
  {
    RebalancePointers(mem, p, k, n);
    RebalanceOrder(mem, own, all, p, k, n);
  }

  lemma RebalancePointers(mem: Mem, p: Ptr, k: nat, n: nat)
    requires CanRebalance(mem, p, k, n)
    ensures PointersOk(RebalanceMem(mem, p, k, n))
  {
    var mem' := RebalanceMem(mem, p, k, n);
    forall q | q in mem' ensures EdgesOk(mem', q) {
      if q == mem[p].edges[k] { RebalanceLeftEdges(mem, p, k, n); }
      else if q == mem[p].edges[k + 1] { RebalanceRightEdges(mem, p, k, n); }
      else { RebalanceOtherEdges(mem, p, k, n, q); }
    }
    forall q | q in mem' ensures LinkOk(mem', q) { RebalanceLinkOk(mem, p, k, n, q); }
  }

  lemma BothEdge(mem: Mem, p: Ptr, k: nat, n: nat, g: nat)
    requires CanRebalance(mem, p, k, n)
    requires g < |BothEdges(mem, p, k)|
    ensures var c, l, r := BothEdges(mem, p, k)[g], mem[p].edges[k], mem[p].edges[k + 1];
            && c in mem && mem[c].height + 1 == mem[l].height
            && mem[c].link == (if g <= |mem[l].kvs| then Child(l, g) else Child(r, g - |mem[l].kvs| - 1))
  {
    var l, r := mem[p].edges[k], mem[p].edges[k + 1];
    if g <= |mem[l].kvs| { assert EdgeOk(mem, l, g); } else { assert EdgeOk(mem, r, g - |mem[l].kvs| - 1); }
  }

  lemma RebalanceLeftEdges(mem: Mem, p: Ptr, k: nat, n: nat)
    requires CanRebalance(mem, p, k, n)
    ensures EdgesOk(RebalanceMem(mem, p, k, n), mem[p].edges[k])
  {
    var l, mem' := mem[p].edges[k], RebalanceMem(mem, p, k, n);
    forall i | 0 <= i < |mem'[l].edges| ensures EdgeOk(mem', l, i) { BothEdge(mem, p, k, n, i); }
  }

  lemma RebalanceRightEdges(mem: Mem, p: Ptr, k: nat, n: nat)
    requires CanRebalance(mem, p, k, n)
    ensures EdgesOk(RebalanceMem(mem, p, k, n), mem[p].edges[k + 1])
  {
    var r, mem' := mem[p].edges[k + 1], RebalanceMem(mem, p, k, n);
    forall i | 0 <= i < |mem'[r].edges| ensures EdgeOk(mem', r, i) { BothEdge(mem, p, k, n, n + 1 + i); }
  }

  lemma RebalanceOtherEdges(mem: Mem, p: Ptr, k: nat, n: nat, q: Ptr)
    requires CanRebalance(mem, p, k, n)
    requires q in mem && q != mem[p].edges[k] && q != mem[p].edges[k + 1]
    ensures EdgesOk(RebalanceMem(mem, p, k, n), q)
  {
    var mem' := RebalanceMem(mem, p, k, n);
    assert EdgesOk(mem, q);
    forall i | 0 <= i < |mem'[q].edges| ensures EdgeOk(mem', q, i) { assert EdgeOk(mem, q, i); }
  }

  lemma RebalanceLinkOk(mem: Mem, p: Ptr, k: nat, n: nat, q: Ptr)
    requires CanRebalance(mem, p, k, n)
    requires q in mem
    ensures LinkOk(RebalanceMem(mem, p, k, n), q)
  {
    assert LinkOk(mem, q);
    var l, r := mem[p].edges[k], mem[p].edges[k + 1];
    if mem[q].link.Child? && (mem[q].link.parent == l || mem[q].link.parent == r) {
      var g := if mem[q].link.parent == l then mem[q].link.idx else |mem[l].kvs| + 1 + mem[q].link.idx;
      assert BothEdges(mem, p, k)[g] == q;
    }
  }

  lemma RebalanceOrder(mem: Mem, own: Spans, all: seq<KV>, p: Ptr, k: nat, n: nat)
    requires AroundInOrder(mem, own, all, p, k) && CanRebalance(mem, p, k, n)
    ensures var own' := BorderSpans(own, mem[p].edges[k], mem[p].edges[k + 1], Border(mem, own, p, k, n));
            Ordered(RebalanceMem(mem, p, k, n), own', own', all)
  {
    var mem', own' := RebalanceMem(mem, p, k, n), BorderSpans(own, mem[p].edges[k], mem[p].edges[k + 1], Border(mem, own, p, k, n));
    forall q | q in mem' ensures NodeOrderOk(mem', own', own', all, q) {
      if q == p { RebalanceParentOrder(mem, own, all, p, k, n); }
      else if q == mem[p].edges[k] || q == mem[p].edges[k + 1] { RebalanceChildrenOrder(mem, own, all, p, k, n); }
      else { RebalanceOtherOrder(mem, own, all, p, k, n, q); }
    }
  }

  /** Both children's pairs, taken together, cut at the new border. */
  lemma BothCut(mem: Mem, own: Spans, all: seq<KV>, p: Ptr, k: nat, n: nat)
    requires AroundInOrder(mem, own, all, p, k) && CanRebalance(mem, p, k, n)
    ensures var l, r, kvs, e, x := mem[p].edges[k], mem[p].edges[k + 1], BothKvs(mem, p, k), BothEdges(mem, p, k), Border(mem, own, p, k, n);
            && own[l].lo <= x < own[r].hi <= |all| && all[x] == kvs[n]
            && if mem[l].height == 0 then kvs[..n] == all[own[l].lo..x] && kvs[n + 1..] == all[x + 1..own[r].hi]
               else Laid(e[..n + 1], kvs[..n], own, all, Span(own[l].lo, x)) && Laid(e[n + 1..], kvs[n + 1..], own, all, Span(x + 1, own[r].hi))
  {
    var l, r := mem[p].edges[k], mem[p].edges[k + 1];
    var kvs, e, x := BothKvs(mem, p, k), BothEdges(mem, p, k), Border(mem, own, p, k, n);
    if mem[l].height == 0 {
      assert kvs == all[own[l].lo..own[r].hi];
    } else {
      LaidJoin(mem[l].edges, mem[l].kvs, own[l], mem[p].kvs[k], mem[r].edges, mem[r].kvs, own[r], own, all);
      LaidCut(e, kvs, own, all, Span(own[l].lo, own[r].hi), n);
      LaidInside(e, kvs, own, all, Span(own[l].lo, own[r].hi), n);
    }
  }

  lemma RebalanceParentOrder(mem: Mem, own: Spans, all: seq<KV>, p: Ptr, k: nat, n: nat)
    requires AroundInOrder(mem, own, all, p, k) && CanRebalance(mem, p, k, n)
    ensures var own' := BorderSpans(own, mem[p].edges[k], mem[p].edges[k + 1], Border(mem, own, p, k, n));
            NodeOrderOk(RebalanceMem(mem, p, k, n), own', own', all, p)
  {
    var m := mem[p];
    var own' := BorderSpans(own, m.edges[k], m.edges[k + 1], Border(mem, own, p, k, n));
    BothCut(mem, own, all, p, k, n);
    forall i | 0 <= i < |m.edges| && i != k && i != k + 1 ensures m.edges[i] != m.edges[k] && m.edges[i] != m.edges[k + 1] {
      assert EdgeOk(mem, p, i);
    }
    LaidShift(m.edges, m.kvs, own, own', all, own[p], k, BothKvs(mem, p, k)[n]);
  }

  lemma RebalanceChildrenOrder(mem: Mem, own: Spans, all: seq<KV>, p: Ptr, k: nat, n: nat)
    requires AroundInOrder(mem, own, all, p, k) && CanRebalance(mem, p, k, n)
    ensures var mem', own' := RebalanceMem(mem, p, k, n), BorderSpans(own, mem[p].edges[k], mem[p].edges[k + 1], Border(mem, own, p, k, n));
            NodeOrderOk(mem', own', own', all, mem[p].edges[k]) && NodeOrderOk(mem', own', own', all, mem[p].edges[k + 1])
  {
    var l, r, kvs, e := mem[p].edges[k], mem[p].edges[k + 1], BothKvs(mem, p, k), BothEdges(mem, p, k);
    var own' := BorderSpans(own, l, r, Border(mem, own, p, k, n));
    BothCut(mem, own, all, p, k, n);
    if mem[l].height > 0 {
      ChildrenKept(mem, own, own', p, l);
      ChildrenKept(mem, own, own', p, r);
      LaidKept(e[..n + 1], kvs[..n], own, own', all, own'[l]);
      LaidKept(e[n + 1..], kvs[n + 1..], own, own', all, own'[r]);
    }
  }

  lemma RebalanceOtherOrder(mem: Mem, own: Spans, all: seq<KV>, p: Ptr, k: nat, n: nat, q: Ptr)
    requires AroundInOrder(mem, own, all, p, k) && CanRebalance(mem, p, k, n)
    requires q in mem && q != p && q != mem[p].edges[k] && q != mem[p].edges[k + 1]
    ensures var own' := BorderSpans(own, mem[p].edges[k], mem[p].edges[k + 1], Border(mem, own, p, k, n));
            NodeOrderOk(RebalanceMem(mem, p, k, n), own', own', all, q)
  {
    var own' := BorderSpans(own, mem[p].edges[k], mem[p].edges[k + 1], Border(mem, own, p, k, n));
    assert NodeOrderOk(mem, own, own, all, q);
    ChildrenKept(mem, own, own', p, q);
    OrderKept(mem[q], RebalanceMem(mem, p, k, n)[q], own[q], own, own', all);
  }

  // ----- the steps of moving pairs across -----

  /** The first steps: pairs and edges are in place, links are not. */
  ghost function RebalanceStep(mem: Mem, p: Ptr, k: nat, n: nat): Mem
    requires CanRebalance(mem, p, k, n)
  {
    var l, r, t := mem[p].edges[k], mem[p].edges[k + 1], RebalanceMem(mem, p, k, n);
    mem[l := t[l].(link := mem[l].link)][r := t[r].(link := mem[r].link)][p := t[p].(link := mem[p].link)]
  }

  /** Then the left child's edges from `from` on and all of the right child's are linked. */
  ghost function RebalanceSteps(mem: Mem, p: Ptr, k: nat, n: nat, from: nat): Mem
    requires CanRebalance(mem, p, k, n)
  {
    var l, r, t := mem[p].edges[k], mem[p].edges[k + 1], RebalanceMem(mem, p, k, n);
    var m := SetLinks(RebalanceStep(mem, p, k, n), t, l, from, |t[l].edges|);
    SetLinks(m, t, r, 0, |t[r].edges|)
  }

  lemma RebalanceStepsRebalance(mem: Mem, p: Ptr, k: nat, n: nat, from: nat)
    requires CanRebalance(mem, p, k, n) && from <= |mem[mem[p].edges[k]].kvs| + 1
    ensures RebalanceSteps(mem, p, k, n, from) == RebalanceMem(mem, p, k, n)
  {
    assert RebalanceStep(mem, p, k, n).Keys == mem.Keys;
    forall q | q in mem ensures RebalanceSteps(mem, p, k, n, from)[q] == RebalanceMem(mem, p, k, n)[q] {
      RebalanceStepsAt(mem, p, k, n, from, q);
    }
  }

  lemma RebalanceStepsAt(mem: Mem, p: Ptr, k: nat, n: nat, from: nat, q: Ptr)
    requires CanRebalance(mem, p, k, n) && from <= |mem[mem[p].edges[k]].kvs| + 1 && q in mem
    requires RebalanceStep(mem, p, k, n).Keys == mem.Keys
    ensures q in RebalanceSteps(mem, p, k, n, from) && RebalanceSteps(mem, p, k, n, from)[q] == RebalanceMem(mem, p, k, n)[q]
  {
    var l, r, t := mem[p].edges[k], mem[p].edges[k + 1], RebalanceMem(mem, p, k, n);
    var n2 := SetLink(RebalanceStep(mem, p, k, n)[q], t[q].link, l, from, |t[l].edges|);
    var n3 := SetLink(n2, t[q].link, r, 0, |t[r].edges|);
    assert RebalanceSteps(mem, p, k, n, from)[q] == n3;
    assert RebalanceStep(mem, p, k, n)[q].link == mem[q].link;
    assert RebalanceStep(mem, p, k, n)[q].(link := t[q].link) == t[q];
    RebalanceStepsLink(mem, p, k, n, from, q, n3.link);
  }

  lemma RebalanceStepsLink(mem: Mem, p: Ptr, k: nat, n: nat, from: nat, q: Ptr, link: Link)
    requires CanRebalance(mem, p, k, n) && from <= |mem[mem[p].edges[k]].kvs| + 1 && q in mem
    requires var l, r, t, m := mem[p].edges[k], mem[p].edges[k + 1], RebalanceMem(mem, p, k, n)[q].link, RebalanceMem(mem, p, k, n);
             link == if (t.Child? && t.parent == r && t.idx < |m[r].edges|)
                        || (t.Child? && t.parent == l && from <= t.idx < |m[l].edges|)
                     then t else mem[q].link
    ensures link == RebalanceMem(mem, p, k, n)[q].link
  {
    assert LinkOk(mem, q);
  }

  /** What the steps need to know about where they lead. */
  lemma RebalanceFacts(mem: Mem, p: Ptr, k: nat, n: nat) returns (t: Mem)
    requires Around(mem, p, k) && n <= |mem[mem[p].edges[k]].kvs| + |mem[mem[p].edges[k + 1]].kvs|
    ensures CanRebalance(mem, p, k, n) && t == RebalanceMem(mem, p, k, n)
    ensures var l, r := mem[p].edges[k], mem[p].edges[k + 1];
            && PointersOk(t) && p != l && p != r && l != r
            && EdgesOk(t, l) && EdgesOk(t, r)
            && (forall c :: c in t[l].edges || c in t[r].edges ==> c in mem)
  {
    var l, r := mem[p].edges[k], mem[p].edges[k + 1];
    assert EdgesOk(mem, l) && EdgesOk(mem, r);
    t := RebalanceMem(mem, p, k, n);
    RebalancePointers(mem, p, k, n);
    assert EdgesOk(t, l) && EdgesOk(t, r);
    forall c | c in t[l].edges ensures c in mem {
      var i :| 0 <= i < |t[l].edges| && t[l].edges[i] == c;
      assert EdgeOk(t, l, i);
    }
    forall c | c in t[r].edges ensures c in mem {
      var i :| 0 <= i < |t[r].edges| && t[r].edges[i] == c;
      assert EdgeOk(t, r, i);
    }
  }

  /** The same with what is left to do from memory `m`, in which only links are missing. */
  lemma RebalanceTarget(mem: Mem, p: Ptr, k: nat, n: nat, from: nat, m: Mem) returns (t: Mem)
    requires CanRebalance(mem, p, k, n) && from <= |mem[mem[p].edges[k]].kvs| + 1 && from <= n + 1
    requires m == RebalanceStep(mem, p, k, n)
    ensures t == RebalanceMem(mem, p, k, n)
    ensures var l, r := mem[p].edges[k], mem[p].edges[k + 1];
            && PointersOk(t) && l in t && r in t && EdgesOk(t, l) && EdgesOk(t, r)
            && l in m && r in m && m[l].edges == t[l].edges && m[r].edges == t[r].edges
            && (|m[l].edges| > 0 ==> from <= |m[l].edges|)
            && (forall c :: c in t[l].edges || c in t[r].edges ==> c in m)
            && SetLinks(SetLinks(m, t, l, from, |t[l].edges|), t, r, 0, |t[r].edges|) == t
  {
    t := RebalanceFacts(mem, p, k, n);
    RebalanceStepsRebalance(mem, p, k, n, from);
    assert m.Keys == mem.Keys;
  }

  /** Where the pairs and edges of the left and of the right child are among both children's. */
  lemma StealLeftSlices(mem: Mem, p: Ptr, k: nat, n: nat)
    requires Around(mem, p, k) && n < |mem[mem[p].edges[k]].kvs|
    requires EdgesOk(mem, mem[p].edges[k]) && EdgesOk(mem, mem[p].edges[k + 1])
    ensures var l, r, kvs, edges := mem[mem[p].edges[k]], mem[mem[p].edges[k + 1]], BothKvs(mem, p, k), BothEdges(mem, p, k);
            && kvs[..n] == l.kvs[..n] && kvs[n] == l.kvs[n]
            && kvs[n + 1..] == l.kvs[n + 1..] + [mem[p].kvs[k]] + r.kvs
            && (l.height > 0 ==> edges[..n + 1] == l.edges[..n + 1] && edges[n + 1..] == l.edges[n + 1..] + r.edges)
  {}

  lemma StealRightSlices(mem: Mem, p: Ptr, k: nat, c: nat)
    requires Around(mem, p, k) && 0 < c <= |mem[mem[p].edges[k + 1]].kvs|
    requires EdgesOk(mem, mem[p].edges[k]) && EdgesOk(mem, mem[p].edges[k + 1])
    ensures var l, r, kvs, edges := mem[mem[p].edges[k]], mem[mem[p].edges[k + 1]], BothKvs(mem, p, k), BothEdges(mem, p, k);
            var n := |l.kvs| + c;
            && kvs[..n] == l.kvs + [mem[p].kvs[k]] + r.kvs[..c - 1] && kvs[n] == r.kvs[c - 1]
            && kvs[n + 1..] == r.kvs[c..]
            && (l.height > 0 ==> edges[..n + 1] == l.edges + r.edges[..c] && edges[n + 1..] == r.edges[c..])
  {}

  lemma RebalanceStepIs(mem: Mem, p: Ptr, k: nat, n: nat, left: Node, right: Node, x: KV, from: nat)
    requires CanRebalance(mem, p, k, n)
    requires var l, r, kvs, edges := mem[mem[p].edges[k]], mem[mem[p].edges[k + 1]], BothKvs(mem, p, k), BothEdges(mem, p, k);
             && x == kvs[n]
             && left == l.(kvs := kvs[..n], edges := if l.height == 0 then [] else edges[..n + 1])
             && right == r.(kvs := kvs[n + 1..], edges := if l.height == 0 then [] else edges[n + 1..])
    ensures var l, r := mem[p].edges[k], mem[p].edges[k + 1];
            var m := mem[l := left][r := right][p := mem[p].(kvs := mem[p].kvs[k := x])];
            && RebalanceStep(mem, p, k, n) == m
            && (mem[l].height == 0 || from > n ==> SetLinks(m, RebalanceMem(mem, p, k, n), l, from, |left.edges|) == m)
            && RebalanceMem(mem, p, k, n)[l].edges == left.edges && RebalanceMem(mem, p, k, n)[r].edges == right.edges
  {}
}
