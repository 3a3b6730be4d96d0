/** Splitting a node, attaching the split-off part to its parent, and adding or removing a root
    level: what the memory becomes, and that it stays well formed. */
module Growth {
  import opened NodeStore

  // ----- split -----

  function SplitLink(p: Ptr, m: nat, new_: Ptr, link: Link): Link {
    if link.Child? && link.parent == p && link.idx > m then Child(new_, link.idx - m - 1) else link
  }

  ghost predicate CanSplit(mem: Mem, p: Ptr, m: nat, new_: Ptr) {
    p in mem && EdgesOk(mem, p) && m < |mem[p].kvs| && new_ !in mem
  }

  /** Node `p` keeps what is left of pair `m`; what is right of it goes to the new node, which no
      parent owns yet. */
  ghost function SplitMem(mem: Mem, p: Ptr, m: nat, new_: Ptr): Mem
    requires CanSplit(mem, p, m, new_)
  {
    var n := mem[p];
    var left := map q | q in mem ::
      var t := mem[q].(link := SplitLink(p, m, new_, mem[q].link));
      if q == p then t.(kvs := n.kvs[..m], edges := if n.height == 0 then [] else n.edges[..m + 1]) else t;
    left[new_ := Node(n.height, n.kvs[m + 1..], if n.height == 0 then [] else n.edges[m + 1..], NoParent)]
  }

  /** The rank at which pair `m` of `p` stands. */
  ghost function PairRank(mem: Mem, own: Spans, view: Spans, p: Ptr, m: nat): nat
    requires p in mem && EdgesOk(mem, p) && m < |mem[p].kvs|
  {
    if mem[p].height == 0 then (if p in own then own[p].lo else 0) + m
    else if mem[p].edges[m] in view then view[mem[p].edges[m]].hi else 0
  }

  ghost function SplitSpans(own: Spans, p: Ptr, x: nat, new_: Ptr): Spans
    requires p in own
  {
    own[p := Span(own[p].lo, x)][new_ := Span(x + 1, own[p].hi)]
  }

  lemma SplitPointers(mem: Mem, p: Ptr, m: nat, new_: Ptr)
    requires PointersOk(mem) && CanSplit(mem, p, m, new_)
    ensures PointersOk(SplitMem(mem, p, m, new_))
  {
    var mem' := SplitMem(mem, p, m, new_);
    forall q | q in mem' ensures EdgesOk(mem', q) {
      if q == new_ { SplitNewEdges(mem, p, m, new_); } else { SplitOldEdges(mem, p, m, new_, q); }
    }
    forall q | q in mem' ensures LinkOk(mem', q) {
      if q != new_ { SplitLinkOk(mem, p, m, new_, q); }
    }
  }

  lemma SplitNewEdges(mem: Mem, p: Ptr, m: nat, new_: Ptr)
    requires PointersOk(mem) && CanSplit(mem, p, m, new_)
    ensures EdgesOk(SplitMem(mem, p, m, new_), new_)
  {
    var mem' := SplitMem(mem, p, m, new_);
    forall i | 0 <= i < |mem'[new_].edges| ensures EdgeOk(mem', new_, i) { assert EdgeOk(mem, p, m + 1 + i); }
  }

  lemma SplitOldEdges(mem: Mem, p: Ptr, m: nat, new_: Ptr, q: Ptr)
    requires PointersOk(mem) && CanSplit(mem, p, m, new_) && q in mem
    ensures EdgesOk(SplitMem(mem, p, m, new_), q)
  {
    var mem' := SplitMem(mem, p, m, new_);
    assert EdgesOk(mem, q);
    forall i | 0 <= i < |mem'[q].edges| ensures EdgeOk(mem', q, i) { assert EdgeOk(mem, q, i); }
  }

  lemma SplitLinkOk(mem: Mem, p: Ptr, m: nat, new_: Ptr, q: Ptr)
    requires PointersOk(mem) && CanSplit(mem, p, m, new_) && q in mem
    ensures LinkOk(SplitMem(mem, p, m, new_), q)
  {
    assert LinkOk(mem, q);
    if mem[q].link.Child? { assert EdgesOk(mem, mem[q].link.parent); }
  }

  lemma SplitHalves(mem: Mem, own: Spans, view: Spans, all: seq<KV>, p: Ptr, m: nat, new_: Ptr)
    requires Ordered(mem, own, view, all) && CanSplit(mem, p, m, new_)
    requires new_ !in mem[p].edges
    ensures p in own
    ensures var x := PairRank(mem, own, view, p, m);
            && own[p].lo <= x < own[p].hi <= |all| && all[x] == mem[p].kvs[m]
            && OrderOk(SplitMem(mem, p, m, new_)[p], Span(own[p].lo, x), view[new_ := Span(x + 1, own[p].hi)], all)
            && OrderOk(SplitMem(mem, p, m, new_)[new_], Span(x + 1, own[p].hi), view[new_ := Span(x + 1, own[p].hi)], all)
  {
    assert NodeOrderOk(mem, own, view, all, p);
    var n, x := mem[p], PairRank(mem, own, view, p, m);
    if n.height > 0 {
      var view' := view[new_ := Span(x + 1, own[p].hi)];
      LaidCut(n.edges, n.kvs, view, all, own[p], m);
      LaidInside(n.edges, n.kvs, view, all, own[p], m);
      LaidKept(n.edges[..m + 1], n.kvs[..m], view, view', all, Span(own[p].lo, x));
      LaidKept(n.edges[m + 1..], n.kvs[m + 1..], view, view', all, Span(x + 1, own[p].hi));
    }
  }

  /** The parent of `p` still believes `p` to have its whole span. */
  lemma SplitOrder(mem: Mem, own: Spans, view: Spans, all: seq<KV>, p: Ptr, m: nat, new_: Ptr)
    requires Ordered(mem, own, view, all) && CanSplit(mem, p, m, new_)
    requires forall q :: q in mem ==> new_ !in mem[q].edges
    ensures p in own
    ensures var x := PairRank(mem, own, view, p, m);
            && own[p].lo <= x < own[p].hi <= |all| && all[x] == mem[p].kvs[m]
            && Ordered(SplitMem(mem, p, m, new_), SplitSpans(own, p, x, new_), view[new_ := Span(x + 1, own[p].hi)], all)
  {
    SplitHalves(mem, own, view, all, p, m, new_);
    var x := PairRank(mem, own, view, p, m);
    var mem', own', view' := SplitMem(mem, p, m, new_), SplitSpans(own, p, x, new_), view[new_ := Span(x + 1, own[p].hi)];
    forall q | q in mem' ensures NodeOrderOk(mem', own', view', all, q) {
      if q != p && q != new_ {
        assert NodeOrderOk(mem, own, view, all, q);
        OrderKept(mem[q], mem'[q], own[q], view, view', all);
      }
    }
  }

  /** The steps of `split`: the data divided, then the new node's children linked. */
  lemma SplitSteps(mem: Mem, p: Ptr, m: nat, new_: Ptr)
    requires PointersOk(mem) && CanSplit(mem, p, m, new_)
    ensures var t, n := SplitMem(mem, p, m, new_), mem[p];
            && PointersOk(t) && EdgesOk(t, new_)
            && (forall c :: c in t[new_].edges ==> c in mem)
            && SetLinks(mem[p := n.(kvs := n.kvs[..m], edges := if n.height == 0 then [] else n.edges[..m + 1])][new_ := t[new_]],
                        t, new_, 0, |t[new_].edges|) == t
  {
    var t, n := SplitMem(mem, p, m, new_), mem[p];
    SplitPointers(mem, p, m, new_);
    assert EdgesOk(t, new_);
    forall c | c in t[new_].edges ensures c in mem {
      var i :| 0 <= i < |t[new_].edges| && t[new_].edges[i] == c;
      assert EdgeOk(mem, p, m + 1 + i);
    }
    var m1 := mem[p := n.(kvs := n.kvs[..m], edges := if n.height == 0 then [] else n.edges[..m + 1])][new_ := t[new_]];
    forall q | q in mem ensures SetLinks(m1, t, new_, 0, |t[new_].edges|)[q] == t[q] {
      assert LinkOk(mem, q);
    }
    assert m1.Keys == t.Keys;
  }

  // ----- attach -----

  function AttachLink(p: Ptr, i: nat, link: Link): Link {
    if link.Child? && link.parent == p && link.idx > i then Child(p, link.idx + 1) else link
  }

  ghost predicate CanAttach(mem: Mem, p: Ptr, i: nat, r: Ptr) {
    && p in mem && EdgesOk(mem, p) && i < |mem[p].edges|
    && r in mem && r != p && mem[r].height + 1 == mem[p].height && mem[r].link == NoParent
  }

  /** Pair `kv` and the edge to `r` right of it go in after edge `i` of `p`. */
  ghost function AttachMem(mem: Mem, p: Ptr, i: nat, kv: KV, r: Ptr): Mem
    requires CanAttach(mem, p, i, r)
  {
    var n := mem[p];
    map q | q in mem ::
      if q == r then mem[q].(link := Child(p, i + 1))
      else
        var t := mem[q].(link := AttachLink(p, i, mem[q].link));
        if q == p then t.(kvs := n.kvs[..i] + [kv] + n.kvs[i..], edges := n.edges[..i + 1] + [r] + n.edges[i + 1..])
        else t
  }

  lemma AttachPointers(mem: Mem, p: Ptr, i: nat, kv: KV, r: Ptr)
    requires PointersOk(mem) && CanAttach(mem, p, i, r)
    ensures PointersOk(AttachMem(mem, p, i, kv, r))
  {
    var mem' := AttachMem(mem, p, i, kv, r);
    forall q | q in mem' ensures EdgesOk(mem', q) {
      if q == p { AttachParentEdges(mem, p, i, kv, r); } else { AttachOtherEdges(mem, p, i, kv, r, q); }
    }
    forall q | q in mem' ensures LinkOk(mem', q) { AttachLinkOk(mem, p, i, kv, r, q); }
  }

  lemma AttachParentEdges(mem: Mem, p: Ptr, i: nat, kv: KV, r: Ptr)
    requires PointersOk(mem) && CanAttach(mem, p, i, r)
    ensures EdgesOk(AttachMem(mem, p, i, kv, r), p)
  {
    var mem' := AttachMem(mem, p, i, kv, r);
    forall j | 0 <= j < |mem'[p].edges| ensures EdgeOk(mem', p, j) {
      if j != i + 1 { assert EdgeOk(mem, p, if j <= i then j else j - 1); }
    }
  }

  lemma AttachOtherEdges(mem: Mem, p: Ptr, i: nat, kv: KV, r: Ptr, q: Ptr)
    requires PointersOk(mem) && CanAttach(mem, p, i, r) && q in mem && q != p
    ensures EdgesOk(AttachMem(mem, p, i, kv, r), q)
  {
    var mem' := AttachMem(mem, p, i, kv, r);
    assert EdgesOk(mem, q);
    forall j | 0 <= j < |mem'[q].edges| ensures EdgeOk(mem', q, j) { assert EdgeOk(mem, q, j); }
  }

  lemma AttachLinkOk(mem: Mem, p: Ptr, i: nat, kv: KV, r: Ptr, q: Ptr)
    requires PointersOk(mem) && CanAttach(mem, p, i, r) && q in mem
    ensures LinkOk(AttachMem(mem, p, i, kv, r), q)
  {
    assert LinkOk(mem, q);
  }

  /** The steps of `insert_fit`: the data in place, then the children from the new one on linked. */
  lemma AttachSteps(mem: Mem, p: Ptr, i: nat, kv: KV, r: Ptr)
    requires PointersOk(mem) && CanAttach(mem, p, i, r)
    ensures var t, n := AttachMem(mem, p, i, kv, r), mem[p];
            && PointersOk(t) && EdgesOk(t, p)
            && (forall c :: c in t[p].edges ==> c in mem)
            && SetLinks(mem[p := n.(kvs := n.kvs[..i] + [kv] + n.kvs[i..], edges := n.edges[..i + 1] + [r] + n.edges[i + 1..])],
                        t, p, i + 1, |t[p].edges|) == t
  {
    var t, n := AttachMem(mem, p, i, kv, r), mem[p];
    AttachPointers(mem, p, i, kv, r);
    assert EdgesOk(t, p);
    forall c | c in t[p].edges ensures c in mem {
      var j :| 0 <= j < |t[p].edges| && t[p].edges[j] == c;
      assert EdgeOk(t, p, j);
    }
    var m1 := mem[p := n.(kvs := n.kvs[..i] + [kv] + n.kvs[i..], edges := n.edges[..i + 1] + [r] + n.edges[i + 1..])];
    forall q | q in mem ensures SetLinks(m1, t, p, i + 1, |t[p].edges|)[q] == t[q] {
      assert LinkOk(mem, q);
    }
    assert m1.Keys == t.Keys;
  }

  /** Child `i` of `p` is now known to end where `r` begins. */
  lemma AttachOrder(mem: Mem, own: Spans, view: Spans, all: seq<KV>, p: Ptr, i: nat, kv: KV, r: Ptr)
    requires PointersOk(mem) && Ordered(mem, own, view, all) && CanAttach(mem, p, i, r)
    requires var c := mem[p].edges[i];
             && c in own && c in view && r in own
             && view[c] == Span(own[c].lo, own[r].hi)
             && own[c].lo <= own[c].hi < |all| && all[own[c].hi] == kv
             && own[r].lo == own[c].hi + 1 <= own[r].hi
    ensures var c := mem[p].edges[i];
            Ordered(AttachMem(mem, p, i, kv, r), own, view[c := own[c]][r := own[r]], all)
  {
    var n, c := mem[p], mem[p].edges[i];
    var mem', view' := AttachMem(mem, p, i, kv, r), view[c := own[c]][r := own[r]];
    forall q | q in mem' ensures NodeOrderOk(mem', own, view', all, q) {
      assert NodeOrderOk(mem, own, view, all, q) && EdgesOk(mem, q);
      if q == p {
        forall j | 0 <= j < |n.edges| && j != i ensures n.edges[j] != c && n.edges[j] != r {
          assert EdgeOk(mem, p, j) && EdgeOk(mem, p, i);
        }
        LaidSplit(n.edges, n.kvs, view, view', all, own[p], i, kv, r);
      } else {
        forall d | d in mem[q].edges ensures d != c && d != r {
          var j :| 0 <= j < |mem[q].edges| && mem[q].edges[j] == d;
          assert EdgeOk(mem, q, j) && EdgeOk(mem, p, i);
        }
        OrderKept(mem[q], mem'[q], own[q], view, view', all);
      }
    }
  }

  // ----- root levels -----

  /** A new root with the old root as its only child. */
  ghost function PushLevelMem(mem: Mem, root: Ptr, new_: Ptr): Mem
    requires root in mem
  {
    mem[root := mem[root].(link := Child(new_, 0))][new_ := Node(mem[root].height + 1, [], [root], NoParent)]
  }

  lemma PushLevelPointers(mem: Mem, root: Ptr, new_: Ptr)
    requires PointersOk(mem) && root in mem && mem[root].link == NoParent && new_ !in mem
    ensures PointersOk(PushLevelMem(mem, root, new_))
  {
    var mem' := PushLevelMem(mem, root, new_);
    forall q | q in mem' ensures EdgesOk(mem', q) {
      if q == new_ { assert EdgeOk(mem', q, 0); }
      else {
        assert EdgesOk(mem, q);
        forall i | 0 <= i < |mem'[q].edges| ensures EdgeOk(mem', q, i) { assert EdgeOk(mem, q, i); }
      }
    }
    forall q | q in mem' ensures LinkOk(mem', q) {
      if q != new_ { assert LinkOk(mem, q); }
    }
  }

  lemma PushLevelOrder(mem: Mem, own: Spans, view: Spans, all: seq<KV>, root: Ptr, new_: Ptr)
    requires PointersOk(mem) && Ordered(mem, own, view, all) && root in mem && new_ !in mem
    requires root in view && view[root].lo <= view[root].hi <= |all|
    ensures Ordered(PushLevelMem(mem, root, new_), own[new_ := view[root]], view[new_ := view[root]], all)
  {
    var mem', own', view' := PushLevelMem(mem, root, new_), own[new_ := view[root]], view[new_ := view[root]];
    forall q | q in mem' ensures NodeOrderOk(mem', own', view', all, q) {
      if q == new_ {
        assert ProperSpan(view', root);
      } else {
        assert NodeOrderOk(mem, own, view, all, q) && EdgesOk(mem, q);
        forall d | d in mem[q].edges ensures d != new_ {
          var j :| 0 <= j < |mem[q].edges| && mem[q].edges[j] == d;
          assert EdgeOk(mem, q, j);
        }
        OrderKept(mem[q], mem'[q], own[q], view, view', all);
      }
    }
  }

  ghost predicate EmptyRoot(mem: Mem, root: Ptr) {
    && root in mem && mem[root].height > 0 && mem[root].link == NoParent
    && mem[root].kvs == [] && |mem[root].edges| == 1 && mem[root].edges[0] in mem && mem[root].edges[0] != root
  }

  /** The only child of an empty root becomes the root. */
  ghost function PopLevelMem(mem: Mem, root: Ptr): Mem
    requires EmptyRoot(mem, root)
  {
    var c := mem[root].edges[0];
    (mem - {root})[c := mem[c].(link := NoParent)]
  }

  lemma PopLevelWf(mem: Mem, own: Spans, all: seq<KV>, root: Ptr)
    requires Wf(mem, own, all) && EmptyRoot(mem, root)
    ensures root in own && mem[root].edges[0] in own && own[root] == own[mem[root].edges[0]]
    ensures Wf(PopLevelMem(mem, root), own - {root}, all)
  {
    var c, mem', own' := mem[root].edges[0], PopLevelMem(mem, root), own - {root};
    assert NodeOrderOk(mem, own, own, all, root) && EdgesOk(mem, root) && EdgeOk(mem, root, 0);
    forall q | q in mem' ensures EdgesOk(mem', q) && LinkOk(mem', q) && NodeOrderOk(mem', own', own', all, q) {
      assert EdgesOk(mem, q) && LinkOk(mem, q) && NodeOrderOk(mem, own, own, all, q);
      forall i | 0 <= i < |mem'[q].edges| ensures EdgeOk(mem', q, i) { assert EdgeOk(mem, q, i); }
      forall d | d in mem[q].edges ensures d != root {
        var j :| 0 <= j < |mem[q].edges| && mem[q].edges[j] == d;
        assert EdgeOk(mem, q, j);
      }
      OrderKept(mem[q], mem'[q], own[q], own, own', all);
    }
  }
}
