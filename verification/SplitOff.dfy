/** Cutting a tree in two at a rank, level by level, as `split_off` does: between two levels the
    parents already believe their next children to be cut, and the children are not. */
module SplitOff {
  import opened NodeStore
  import opened Growth
  import opened Ranks
  import opened Borders

  // ----- moving a suffix -----

  function SuffixLink(c: Ptr, s: nat, r: Ptr, link: Link): Link {
    if link.Child? && link.parent == c && link.idx > s then Child(r, link.idx - s) else link
  }

  /** `r` is an empty node on the level of `c`; if internal, it has its one edge. */
  ghost predicate CanMoveSuffix(mem: Mem, c: Ptr, s: nat, r: Ptr) {
    && c in mem && r in mem && c != r && EdgesOk(mem, c) && EdgesOk(mem, r)
    && mem[c].height == mem[r].height && mem[r].kvs == [] && s <= |mem[c].kvs|
  }

  /** The pairs from edge `s` of `c` on, and the edges right of it, move to `r`. */
  ghost function SuffixMem(mem: Mem, c: Ptr, s: nat, r: Ptr): Mem
    requires CanMoveSuffix(mem, c, s, r)
  {
    var n := mem[c];
    map q | q in mem ::
      var t := mem[q].(link := SuffixLink(c, s, r, mem[q].link));
      if q == c then t.(kvs := n.kvs[..s], edges := if n.height == 0 then [] else n.edges[..s + 1])
      else if q == r then t.(kvs := n.kvs[s..], edges := if n.height == 0 then [] else mem[r].edges + n.edges[s + 1..])
      else t
  }

  lemma SuffixPointers(mem: Mem, c: Ptr, s: nat, r: Ptr)
    requires PointersOk(mem) && CanMoveSuffix(mem, c, s, r)
    ensures PointersOk(SuffixMem(mem, c, s, r))
  {
    var mem' := SuffixMem(mem, c, s, r);
    forall q | q in mem' ensures EdgesOk(mem', q) {
      assert EdgesOk(mem, q);
      forall i | 0 <= i < |mem'[q].edges| ensures EdgeOk(mem', q, i) {
        if q == r && i > 0 { assert EdgeOk(mem, c, i + s); } else { assert EdgeOk(mem, q, i); }
      }
    }
    forall q | q in mem' ensures LinkOk(mem', q) { SuffixLinkOk(mem, c, s, r, q); }
  }

  lemma SuffixLinkOk(mem: Mem, c: Ptr, s: nat, r: Ptr, q: Ptr)
    requires PointersOk(mem) && CanMoveSuffix(mem, c, s, r) && q in mem
    ensures LinkOk(SuffixMem(mem, c, s, r), q)
  {
    assert LinkOk(mem, q);
  }

  /** All steps of `move_suffix`: from memory `m`, with the data moved, only links are missing. */
  lemma SuffixSteps(mem: Mem, c: Ptr, s: nat, r: Ptr, m: Mem) returns (t: Mem)
    requires PointersOk(mem) && CanMoveSuffix(mem, c, s, r)
    requires var n := mem[c];
             m == mem[c := n.(kvs := n.kvs[..s], edges := if n.height == 0 then [] else n.edges[..s + 1])]
                     [r := mem[r].(kvs := n.kvs[s..], edges := if n.height == 0 then [] else mem[r].edges + n.edges[s + 1..])]
    ensures t == SuffixMem(mem, c, s, r)
    ensures PointersOk(t) && r in t && EdgesOk(t, r) && r in m && t[r].edges == m[r].edges
    ensures forall d :: d in t[r].edges ==> d in m
    ensures SetLinks(m, t, r, 1, |t[r].edges|) == t
  {
    t := SuffixMem(mem, c, s, r);
    SuffixPointers(mem, c, s, r);
    assert EdgesOk(t, r);
    forall d | d in t[r].edges ensures d in mem {
      var i :| 0 <= i < |t[r].edges| && t[r].edges[i] == d;
      assert EdgeOk(t, r, i);
    }
    assert m.Keys == t.Keys == mem.Keys;
    forall q | q in mem ensures SetLinks(m, t, r, 1, |t[r].edges|)[q] == t[q] {
      assert LinkOk(mem, q);
    }
  }

  // ----- one level of the cut -----

  /** `c` holds rank `m`; its parent believes it to end there and `r`, still empty, to hold the rest. */
  ghost predicate Halfway(mem: Mem, own: Spans, view: Spans, c: Ptr, r: Ptr, m: nat) {
    && c in mem && r in mem && c != r && c in own && r in own
    && mem[c].height == mem[r].height && mem[r].kvs == []
    && own[c].lo <= m <= own[c].hi && own[r] == Span(m, m)
    && view == own[c := Span(own[c].lo, m)][r := Span(m, own[c].hi)]
  }

  ghost predicate CutAt(mem: Mem, own: Spans, c: Ptr, s: nat, m: nat) {
    && c in mem && c in own && s <= |mem[c].kvs|
    && if mem[c].height == 0 then own[c].lo + s == m
       else s < |mem[c].edges| && mem[c].edges[s] in own && own[mem[c].edges[s]].lo <= m <= own[mem[c].edges[s]].hi
  }

  ghost function CutOwn(own: Spans, c: Ptr, r: Ptr, m: nat): Spans
    requires c in own
  {
    own[c := Span(own[c].lo, m)][r := Span(m, own[c].hi)]
  }

  /** What the parents believe after the level of `c`: their next children are cut. */
  ghost function CutView(mem: Mem, own: Spans, c: Ptr, s: nat, r: Ptr, m: nat): Spans
    requires c in mem && r in mem && c in own
    requires mem[c].height > 0 ==> s < |mem[c].edges| && mem[c].edges[s] in own && |mem[r].edges| > 0
  {
    var own' := CutOwn(own, c, r, m);
    if mem[c].height == 0 then own'
    else var x, z := mem[c].edges[s], mem[r].edges[0]; own'[x := Span(own[x].lo, m)][z := Span(m, own[x].hi)]
  }

  /** The last child of a node ends earlier. */
  lemma LaidShorten(edges: seq<Ptr>, kvs: seq<KV>, view: Spans, view': Spans, all: seq<KV>, s: Span, m: nat)
    requires Laid(edges, kvs, view, all, s)
    requires var x := edges[|kvs|];
             x in view && x in view' && view'[x] == Span(view[x].lo, m) && view[x].lo <= m
    requires forall i :: 0 <= i < |kvs| && edges[i] in view ==> edges[i] in view' && view'[edges[i]] == view[edges[i]]
    ensures Laid(edges, kvs, view', all, Span(s.lo, m))
  {
    forall i | 0 <= i < |edges| ensures ProperSpan(view', edges[i]) { assert ProperSpan(view, edges[i]); }
    forall i | 0 <= i < |kvs| ensures PairOk(edges, kvs, view', all, i) { assert PairOk(edges, kvs, view, all, i); }
  }

  /** The left part of a cut node. */
  lemma CutLeft(mem: Mem, own: Spans, view: Spans, all: seq<KV>, c: Ptr, s: nat, r: Ptr, m: nat)
    requires PointersOk(mem) && Ordered(mem, own, view, all) && Halfway(mem, own, view, c, r, m)
    requires CanMoveSuffix(mem, c, s, r) && CutAt(mem, own, c, s, m)
    ensures NodeOrderOk(SuffixMem(mem, c, s, r), CutOwn(own, c, r, m), CutView(mem, own, c, s, r, m), all, c)
  {
    assert NodeOrderOk(mem, own, view, all, c);
    var n, view' := mem[c], CutView(mem, own, c, s, r, m);
    if n.height > 0 {
      var e, k, x := n.edges[..s + 1], n.kvs[..s], n.edges[s];
      ChildrenNotHere(mem, own, view, c, s, r, m);
      if s < |n.kvs| { LaidCut(n.edges, n.kvs, view, all, own[c], s); } else { assert e == n.edges && k == n.kvs; }
      LaidShorten(e, k, view, view', all, Span(own[c].lo, view[x].hi), m);
    } else {
      assert n.kvs[..s] == all[own[c].lo..m];
    }
  }

  /** The children of `c` are neither `c` nor `r` nor the child of `r`, and different from each other. */
  lemma ChildrenNotHere(mem: Mem, own: Spans, view: Spans, c: Ptr, s: nat, r: Ptr, m: nat)
    requires PointersOk(mem) && Halfway(mem, own, view, c, r, m)
    requires CanMoveSuffix(mem, c, s, r) && CutAt(mem, own, c, s, m) && mem[c].height > 0
    ensures mem[r].edges[0] in mem && mem[r].edges[0] != c && mem[r].edges[0] != r && mem[r].edges[0] != mem[c].edges[s]
    ensures forall i :: 0 <= i < |mem[c].edges| ==>
              && mem[c].edges[i] != c && mem[c].edges[i] != r && mem[c].edges[i] != mem[r].edges[0]
              && (i != s ==> mem[c].edges[i] != mem[c].edges[s])
  {
    assert EdgeOk(mem, r, 0) && EdgeOk(mem, c, s);
    forall i | 0 <= i < |mem[c].edges|
      ensures mem[c].edges[i] != c && mem[c].edges[i] != r && mem[c].edges[i] != mem[r].edges[0] && (i != s ==> mem[c].edges[i] != mem[c].edges[s])
    {
      assert EdgeOk(mem, c, i);
    }
  }

  /** The right part of a cut node. */
  lemma CutRight(mem: Mem, own: Spans, view: Spans, all: seq<KV>, c: Ptr, s: nat, r: Ptr, m: nat)
    requires PointersOk(mem) && Ordered(mem, own, view, all) && Halfway(mem, own, view, c, r, m)
    requires CanMoveSuffix(mem, c, s, r) && CutAt(mem, own, c, s, m)
    ensures NodeOrderOk(SuffixMem(mem, c, s, r), CutOwn(own, c, r, m), CutView(mem, own, c, s, r, m), all, r)
  {
    assert NodeOrderOk(mem, own, view, all, c);
    var n, view' := mem[c], CutView(mem, own, c, s, r, m);
    if n.height > 0 {
      var x, z := n.edges[s], mem[r].edges[0];
      ChildrenNotHere(mem, own, view, c, s, r, m);
      assert mem[r].edges == [z];
      assert ProperSpan(view', z);
      if s < |n.kvs| {
        LaidCut(n.edges, n.kvs, view, all, own[c], s);
        LaidKept(n.edges[s + 1..], n.kvs[s + 1..], view, view', all, Span(view[x].hi + 1, own[c].hi));
        assert Laid([z], [], view', all, Span(m, view[x].hi));
        LaidJoin([z], [], Span(m, view[x].hi), n.kvs[s], n.edges[s + 1..], n.kvs[s + 1..], Span(view[x].hi + 1, own[c].hi), view', all);
        assert n.kvs[s..] == [] + [n.kvs[s]] + n.kvs[s + 1..];
      } else {
        assert mem[r].edges + n.edges[s + 1..] == [z] && n.kvs[s..] == [];
        assert ProperSpan(view, x);
      }
    } else {
      assert n.kvs[s..] == all[m..own[c].hi];
    }
  }

  lemma CutOrder(mem: Mem, own: Spans, view: Spans, all: seq<KV>, c: Ptr, s: nat, r: Ptr, m: nat)
    requires PointersOk(mem) && Ordered(mem, own, view, all) && Halfway(mem, own, view, c, r, m)
    requires CanMoveSuffix(mem, c, s, r) && CutAt(mem, own, c, s, m)
    ensures Ordered(SuffixMem(mem, c, s, r), CutOwn(own, c, r, m), CutView(mem, own, c, s, r, m), all)
  {
    var mem', own', view' := SuffixMem(mem, c, s, r), CutOwn(own, c, r, m), CutView(mem, own, c, s, r, m);
    forall q | q in mem' ensures NodeOrderOk(mem', own', view', all, q) {
      if q == c { CutLeft(mem, own, view, all, c, s, r, m); }
      else if q == r { CutRight(mem, own, view, all, c, s, r, m); }
      else {
        assert NodeOrderOk(mem, own, view, all, q) && EdgesOk(mem, q);
        forall d | d in mem[q].edges && d in view ensures d in view' && view'[d] == view[d] {
          var j :| 0 <= j < |mem[q].edges| && mem[q].edges[j] == d;
          assert EdgeOk(mem, q, j);
          if mem[c].height > 0 { assert EdgeOk(mem, c, s) && EdgeOk(mem, r, 0); }
        }
        OrderKept(mem[q], mem'[q], own[q], view, view', all);
      }
    }
  }

  // ----- a pillar of empty nodes -----

  ghost predicate PillarNode(mem: Mem, pillar: seq<Ptr>, i: nat)
    requires i < |pillar|
  {
    && pillar[i] in mem
    && mem[pillar[i]] == Node(i, [], if i == 0 then [] else [pillar[i - 1]],
                              if i == |pillar| - 1 then NoParent else Child(pillar[i + 1], 0))
  }

  /** Memory `mem` with a new tree of empty nodes, `pillar[i]` on level `i`. */
  ghost predicate PillarAbove(mem: Mem, mem': Mem, pillar: seq<Ptr>) {
    && |pillar| > 0
    && mem'.Keys == mem.Keys + (set p | p in pillar)
    && (forall p :: p in mem ==> mem'[p] == mem[p])
    && (forall i :: 0 <= i < |pillar| ==> pillar[i] !in mem)
    && (forall i, j :: 0 <= i < j < |pillar| ==> pillar[i] != pillar[j])
    && (forall i {:trigger PillarNode(mem', pillar, i)} :: 0 <= i < |pillar| ==> PillarNode(mem', pillar, i))
  }

  /** The pillar's nodes have no pairs and stand at rank `m`; nothing else is touched. */
  ghost predicate PillarSpans(spans: Spans, spans': Spans, pillar: seq<Ptr>, m: nat) {
    && spans'.Keys == spans.Keys + (set p | p in pillar)
    && (forall p :: p in spans && p !in pillar ==> spans'[p] == spans[p])
    && (forall i :: 0 <= i < |pillar| ==> pillar[i] in spans' && spans'[pillar[i]] == Span(m, m))
  }

  lemma PillarSpansStep(spans: Spans, spans': Spans, pillar: seq<Ptr>, m: nat, new_: Ptr)
    requires PillarSpans(spans, spans', pillar, m)
    ensures PillarSpans(spans, spans'[new_ := Span(m, m)], pillar + [new_], m)
  {
    assert (set p | p in pillar + [new_]) == (set p | p in pillar) + {new_};
  }

  lemma PillarSpansSame(spans: Spans, a: Spans, b: Spans, pillar: seq<Ptr>, m: nat)
    requires PillarSpans(spans, a, pillar, m) && PillarSpans(spans, b, pillar, m)
    ensures a == b
  {
    forall p | p in a ensures a[p] == b[p] {
      if p in pillar { var i :| 0 <= i < |pillar| && pillar[i] == p; }
    }
  }

  /** A new empty leaf. */
  lemma PillarFoot(mem: Mem, own: Spans, view: Spans, all: seq<KV>, p: Ptr, m: nat)
    requires PointersOk(mem) && Ordered(mem, own, view, all) && m <= |all|
    requires p !in mem && forall q :: q in mem ==> p !in mem[q].edges
    ensures var mem' := mem[p := Node(0, [], [], NoParent)];
            && PillarAbove(mem, mem', [p]) && PointersOk(mem')
            && Ordered(mem', own[p := Span(m, m)], view[p := Span(m, m)], all)
  {
    var mem', own', view' := mem[p := Node(0, [], [], NoParent)], own[p := Span(m, m)], view[p := Span(m, m)];
    assert PillarNode(mem', [p], 0);
    forall q | q in mem' ensures EdgesOk(mem', q) && LinkOk(mem', q) && NodeOrderOk(mem', own', view', all, q) {
      if q != p {
        assert EdgesOk(mem, q) && LinkOk(mem, q) && NodeOrderOk(mem, own, view, all, q);
        forall i | 0 <= i < |mem[q].edges| ensures EdgeOk(mem', q, i) { assert EdgeOk(mem, q, i); }
        OrderKept(mem[q], mem'[q], own[q], view, view', all);
      }
    }
  }

  /** One more level on top. */
  lemma PillarStep(mem: Mem, mem1: Mem, pillar: seq<Ptr>, new_: Ptr)
    requires PillarAbove(mem, mem1, pillar) && new_ !in mem1
    ensures pillar[|pillar| - 1] in mem1
    ensures PillarAbove(mem, PushLevelMem(mem1, pillar[|pillar| - 1], new_), pillar + [new_])
  {
    var n := |pillar| - 1;
    assert PillarNode(mem1, pillar, n);
    var mem', pillar' := PushLevelMem(mem1, pillar[n], new_), pillar + [new_];
    forall i | 0 <= i < |pillar'| ensures PillarNode(mem', pillar', i) {
      if i <= n { assert PillarNode(mem1, pillar, i); }
    }
    assert (set p | p in pillar') == (set p | p in pillar) + {new_};
  }

  ghost predicate NewTree(mem: Mem, own: Spans, view: Spans, mem': Mem, own': Spans, view': Spans, pillar: seq<Ptr>, m: nat) {
    PillarAbove(mem, mem', pillar) && PillarSpans(own, own', pillar, m) && PillarSpans(view, view', pillar, m)
  }

  lemma PillarRaise(mem: Mem, own: Spans, view: Spans, mem1: Mem, own1: Spans, view1: Spans, all: seq<KV>, pillar: seq<Ptr>, m: nat, new_: Ptr)
    requires NewTree(mem, own, view, mem1, own1, view1, pillar, m) && m <= |all|
    requires PointersOk(mem1) && Ordered(mem1, own1, view1, all) && new_ !in mem1
    ensures pillar[|pillar| - 1] in mem1
    ensures var mem' := PushLevelMem(mem1, pillar[|pillar| - 1], new_);
            && PointersOk(mem') && Ordered(mem', own1[new_ := Span(m, m)], view1[new_ := Span(m, m)], all)
            && NewTree(mem, own, view, mem', own1[new_ := Span(m, m)], view1[new_ := Span(m, m)], pillar + [new_], m)
  {
    var top := pillar[|pillar| - 1];
    assert PillarNode(mem1, pillar, |pillar| - 1);
    PillarStep(mem, mem1, pillar, new_);
    PushLevelPointers(mem1, top, new_);
    PushLevelOrder(mem1, own1, view1, all, top, new_);
    PillarSpansStep(own, own1, pillar, m, new_);
    PillarSpansStep(view, view1, pillar, m, new_);
  }

  // ----- the two spines -----

  /** What a cut starts from: a B-tree, a rank and an empty pillar, one node for each level. */
  datatype Cut = Cut(mem: Mem, own: Spans, all: seq<KV>, root: Ptr, pillar: seq<Ptr>, m: nat)

  ghost predicate CutBase(k: Cut) {
    && BTreeOk(k.mem, k.own, k.all, k.root)
    && k.mem.Keys <= k.own.Keys
    && k.m <= |k.all|
    && |k.pillar| == k.mem[k.root].height + 1
    && (forall i :: 0 <= i < |k.pillar| ==> k.pillar[i] !in k.mem)
    && (forall i, j :: 0 <= i < j < |k.pillar| ==> k.pillar[i] != k.pillar[j])
  }

  lemma CutBaseOk(k: Cut, mem: Mem)
    requires BTreeOk(k.mem, k.own, k.all, k.root) && k.m <= |k.all|
    requires PillarAbove(k.mem, mem, k.pillar) && |k.pillar| == k.mem[k.root].height + 1
    ensures CutBase(k)
  {
    forall p | p in k.mem ensures p in k.own { assert NodeOrderOk(k.mem, k.own, k.own, k.all, p); }
  }

  ghost predicate Holds(s: Span, m: nat) {
    s.lo <= m <= s.hi
  }

  /** An old node when all levels above `h` are cut: on the left spine it ends at `m`; off the spine
      it is as it was, and above `h` it does not hold `m`. */
  ghost predicate OldOk(k: Cut, mem: Mem, own: Spans, left: set<Ptr>, h: int, p: Ptr)
    requires p in k.mem && p in k.own
  {
    && p in mem && p in own
    && mem[p].height == k.mem[p].height
    && (mem[p].link.NoParent? <==> p == k.root)
    && |mem[p].kvs| <= CAPACITY
    && if p in left then
         && own[p] == Span(k.own[p].lo, k.m) && k.own[p].lo <= k.m && mem[p].height > h
         && (mem[p].link.Child? ==> mem[p].link.parent in left)
       else
         && own[p] == k.own[p] && mem[p].kvs == k.mem[p].kvs
         && (mem[p].height > h ==> !Holds(own[p], k.m))
  }

  /** The pillar's node on level `i`: above `h` it is on the right spine and begins at `m`; from `h`
      down it is still empty. */
  ghost predicate NewOk(k: Cut, mem: Mem, own: Spans, h: int, i: nat)
    requires i < |k.pillar|
  {
    var p := k.pillar[i];
    && p in mem && p in own
    && mem[p].height == i
    && mem[p].link == (if i == |k.pillar| - 1 then NoParent else Child(k.pillar[i + 1], 0))
    && |mem[p].kvs| <= CAPACITY
    && if i > h then own[p].lo == k.m && (i == |k.pillar| - 1 ==> own[p].hi == |k.all|)
       else own[p] == Span(k.m, k.m) && mem[p].kvs == [] && mem[p].edges == if i == 0 then [] else [k.pillar[i - 1]]
  }

  ghost predicate Spines(k: Cut, mem: Mem, own: Spans, left: set<Ptr>, h: int) {
    && CutBase(k)
    && mem.Keys == k.mem.Keys + (set p | p in k.pillar) && left <= k.mem.Keys
    && (forall p {:trigger OldOk(k, mem, own, left, h, p)} :: p in k.mem ==> OldOk(k, mem, own, left, h, p))
    && (forall i {:trigger NewOk(k, mem, own, h, i)} :: 0 <= i < |k.pillar| ==> NewOk(k, mem, own, h, i))
  }

  /** `c` is where the left spine goes on. */
  ghost predicate Tip(k: Cut, mem: Mem, left: set<Ptr>, h: nat, c: Ptr) {
    && c in k.mem && c !in left && c in mem && mem[c].height == h < |k.pillar|
    && (mem[c].link.Child? ==> mem[c].link.parent in left)
  }

  /** One more level is cut. */
  lemma SpinesStep(k: Cut, mem: Mem, own: Spans, left: set<Ptr>, h: nat, c: Ptr, s: nat)
    requires Spines(k, mem, own, left, h) && Tip(k, mem, left, h, c)
    requires CanMoveSuffix(mem, c, s, k.pillar[h]) && c in own && Holds(own[c], k.m)
    ensures Spines(k, SuffixMem(mem, c, s, k.pillar[h]), CutOwn(own, c, k.pillar[h], k.m), left + {c}, h - 1)
  {
    var r := k.pillar[h];
    var mem', own', h' := SuffixMem(mem, c, s, r), CutOwn(own, c, r, k.m), h - 1;
    assert mem'.Keys == mem.Keys;
    forall p | p in k.mem ensures OldOk(k, mem', own', left + {c}, h', p) { OldStep(k, mem, own, left, h, c, s, p); }
    forall i | 0 <= i < |k.pillar| ensures NewOk(k, mem', own', h', i) {
      assert NewOk(k, mem, own, h, i) && OldOk(k, mem, own, left, h, c);
      assert Hangs(k.mem, k.root, {}, c);
    }
  }

  lemma OldStep(k: Cut, mem: Mem, own: Spans, left: set<Ptr>, h: nat, c: Ptr, s: nat, p: Ptr)
    requires Spines(k, mem, own, left, h) && Tip(k, mem, left, h, c) && p in k.mem
    requires CanMoveSuffix(mem, c, s, k.pillar[h]) && c in own && Holds(own[c], k.m)
    ensures OldOk(k, SuffixMem(mem, c, s, k.pillar[h]), CutOwn(own, c, k.pillar[h], k.m), left + {c}, h - 1, p)
  {
    assert OldOk(k, mem, own, left, h, p) && OldOk(k, mem, own, left, h, c);
    if p !in left && p != c && mem[p].height == h && Holds(own[p], k.m) {
      RootedIsOneTree(k.mem, k.root);
      SameRank(k.mem, k.own, k.all, k.mem.Keys, k.root, p, c, k.m);
    }
  }

  /** Where the spines go on after a level above the leaves. */
  lemma TipStep(k: Cut, mem: Mem, own: Spans, left: set<Ptr>, h: nat, c: Ptr, s: nat)
    requires PointersOk(mem) && Spines(k, mem, own, left, h) && Tip(k, mem, left, h, c) && h > 0
    requires CanMoveSuffix(mem, c, s, k.pillar[h])
    ensures s < |mem[c].edges| && Tip(k, SuffixMem(mem, c, s, k.pillar[h]), left + {c}, h - 1, mem[c].edges[s])
    ensures mem[k.pillar[h]].edges == [k.pillar[h - 1]]
  {
    var x := mem[c].edges[s];
    assert EdgeOk(mem, c, s) && NewOk(k, mem, own, h, h);
    forall i | 0 <= i < |k.pillar| ensures k.pillar[i] != x { assert NewOk(k, mem, own, h, i); }
    assert OldOk(k, mem, own, left, h, x);
  }

  /** Nothing is cut yet; the root's imagined parent believes it to be. */
  lemma CutStart(k: Cut, mem: Mem, own: Spans) returns (view: Spans)
    requires CutBase(k) && PillarAbove(k.mem, mem, k.pillar) && PillarSpans(k.own, own, k.pillar, k.m)
    requires PointersOk(mem) && Ordered(mem, own, own, k.all)
    ensures var top := k.pillar[|k.pillar| - 1];
            Halfway(mem, own, view, k.root, top, k.m) && Ordered(mem, own, view, k.all)
    ensures Spines(k, mem, own, {}, k.mem[k.root].height) && Tip(k, mem, {}, k.mem[k.root].height, k.root)
  {
    var top, h := k.pillar[|k.pillar| - 1], k.mem[k.root].height;
    view := CutOwn(own, k.root, top, k.m);
    assert PillarNode(mem, k.pillar, h);
    forall q | q in mem ensures NodeOrderOk(mem, own, view, k.all, q) {
      assert NodeOrderOk(mem, own, own, k.all, q) && EdgesOk(mem, q);
      forall d | d in mem[q].edges && d in own ensures d in view && view[d] == own[d] {
        var j :| 0 <= j < |mem[q].edges| && mem[q].edges[j] == d;
        assert EdgeOk(mem, q, j);
      }
      OrderKept(mem[q], mem[q], own[q], own, view, k.all);
    }
    forall p | p in k.mem ensures OldOk(k, mem, own, {}, h, p) {
      assert Hangs(k.mem, k.root, {}, p) && LenOk(k.mem, k.root, p) && p !in k.pillar;
    }
    forall i | 0 <= i < |k.pillar| ensures NewOk(k, mem, own, h, i) { assert PillarNode(mem, k.pillar, i); }
  }

  /** The next level is half way. */
  lemma CutNext(k: Cut, mem: Mem, own: Spans, left: set<Ptr>, h: nat, c: Ptr, s: nat)
    requires PointersOk(mem) && Spines(k, mem, own, left, h) && Tip(k, mem, left, h, c) && h > 0
    requires CanMoveSuffix(mem, c, s, k.pillar[h]) && CutAt(mem, own, c, s, k.m) && k.pillar[h] in own
    ensures s < |mem[c].edges| && mem[k.pillar[h]].edges == [k.pillar[h - 1]]
    ensures var mem', own' := SuffixMem(mem, c, s, k.pillar[h]), CutOwn(own, c, k.pillar[h], k.m);
            && mem'[c].edges[|mem'[c].kvs|] == mem[c].edges[s] && mem'[k.pillar[h]].edges[0] == k.pillar[h - 1]
            && Halfway(mem', own', CutView(mem, own, c, s, k.pillar[h], k.m), mem[c].edges[s], k.pillar[h - 1], k.m)
  {
    TipStep(k, mem, own, left, h, c, s);
    assert NewOk(k, mem, own, h, h - 1) && EdgeOk(mem, c, s) && NewOk(k, mem, own, h, h);
  }

  /** Level `h` is half way and the levels above it are cut. */
  ghost predicate Cutting(k: Cut, mem: Mem, own: Spans, view: Spans, left: set<Ptr>, h: nat, c: Ptr, r: Ptr) {
    && PointersOk(mem) && Ordered(mem, own, view, k.all)
    && Spines(k, mem, own, left, h) && Tip(k, mem, left, h, c) && r == k.pillar[h]
    && Halfway(mem, own, view, c, r, k.m)
  }

  lemma CutLevel(k: Cut, mem: Mem, own: Spans, view: Spans, left: set<Ptr>, h: nat, c: Ptr, s: nat, r: Ptr)
      returns (own': Spans, view': Spans)
    requires Cutting(k, mem, own, view, left, h, c, r)
    requires CanMoveSuffix(mem, c, s, r) && CutAt(mem, own, c, s, k.m)
    ensures var mem' := SuffixMem(mem, c, s, r);
            if h == 0 then Spines(k, mem', own', left + {c}, -1) && Wf(mem', own', k.all)
            else
              && |mem'[c].edges| == |mem'[c].kvs| + 1 && |mem'[r].edges| > 0
              && Cutting(k, mem', own', view', left + {c}, h - 1, mem'[c].edges[|mem'[c].kvs|], mem'[r].edges[0])
  {
    own' := CutOwn(own, c, r, k.m);
    SuffixPointers(mem, c, s, r);
    SpinesStep(k, mem, own, left, h, c, s);
    if h > 0 {
      CutNext(k, mem, own, left, h, c, s);
      TipStep(k, mem, own, left, h, c, s);
    }
    CutOrder(mem, own, view, k.all, c, s, r, k.m);
    view' := CutView(mem, own, c, s, r, k.m);
  }

  // ----- where the key cuts -----

  /** The number of pairs with keys below `key`. */
  ghost function CountBelow(all: seq<KV>, key: int): nat {
    if all == [] then 0 else if all[|all| - 1].key < key then |all| else CountBelow(all[..|all| - 1], key)
  }

  lemma {:induction false} CountBelowDivides(all: seq<KV>, key: int)
    requires Ascending(all)
    ensures CountBelow(all, key) <= |all|
    ensures forall x :: 0 <= x < CountBelow(all, key) ==> all[x].key < key
    ensures forall x :: CountBelow(all, key) <= x < |all| ==> key <= all[x].key
  {
    if all != [] && all[|all| - 1].key >= key {
      CountBelowDivides(all[..|all| - 1], key);
      forall x | 0 <= x < CountBelow(all, key) ensures all[x].key < key { assert all[..|all| - 1][x] == all[x]; }
      forall x | CountBelow(all, key) <= x < |all| ensures key <= all[x].key {
        if x < |all| - 1 { assert all[..|all| - 1][x] == all[x]; }
      }
    }
  }

  ghost predicate Cuts(n: Node, s: nat, key: int) {
    && s <= |n.kvs|
    && (s > 0 ==> n.kvs[s - 1].key < key)
    && (s < |n.kvs| ==> key <= n.kvs[s].key)
  }

  lemma CutFound(mem: Mem, own: Spans, view: Spans, all: seq<KV>, c: Ptr, s: nat, r: Ptr, key: int)
    requires PointersOk(mem) && Ordered(mem, own, view, all) && Ascending(all)
    requires Halfway(mem, own, view, c, r, CountBelow(all, key)) && Cuts(mem[c], s, key)
    ensures CutAt(mem, own, c, s, CountBelow(all, key)) && CanMoveSuffix(mem, c, s, r)
  {
    var n, m := mem[c], CountBelow(all, key);
    CountBelowDivides(all, key);
    assert NodeOrderOk(mem, own, view, all, c) && EdgesOk(mem, c) && EdgesOk(mem, r);
    if n.height == 0 {
      if s > 0 { assert all[own[c].lo + s - 1] == n.kvs[s - 1]; }
      if s < |n.kvs| { assert all[own[c].lo + s] == n.kvs[s]; }
    } else {
      assert EdgeOk(mem, c, s) && ProperSpan(view, n.edges[s]);
      if s > 0 { assert PairOk(n.edges, n.kvs, view, all, s - 1); }
      if s < |n.kvs| { assert PairOk(n.edges, n.kvs, view, all, s); }
    }
  }

  // ----- two trees -----

  ghost function LeftTree(k: Cut, own: Spans, left: set<Ptr>): set<Ptr> {
    set p | p in k.mem && p in own && (p in left || own[p].hi < k.m)
  }

  ghost function RightTree(k: Cut, own: Spans, left: set<Ptr>): set<Ptr> {
    (set p | p in k.mem && p in own && p !in left && own[p].lo > k.m) + (set p | p in k.pillar)
  }

  /** All levels are cut: every node is in one of the two trees. */
  lemma CutTrees(k: Cut, mem: Mem, own: Spans, left: set<Ptr>)
    requires Spines(k, mem, own, left, -1) && Wf(mem, own, k.all)
    ensures LeftTree(k, own, left) + RightTree(k, own, left) == mem.Keys
    ensures LeftTree(k, own, left) !! RightTree(k, own, left)
    ensures OneTree(mem, LeftTree(k, own, left), k.root)
    ensures OneTree(mem, RightTree(k, own, left), k.pillar[|k.pillar| - 1])
    ensures k.root in own && own[k.root] == Span(0, k.m)
    ensures var top := k.pillar[|k.pillar| - 1]; top in own && own[top] == Span(k.m, |k.all|)
  {
    var top := k.pillar[|k.pillar| - 1];
    var lt, rt := LeftTree(k, own, left), RightTree(k, own, left);
    assert OldOk(k, mem, own, left, -1, k.root) && NewOk(k, mem, own, -1, |k.pillar| - 1);
    forall p | p in mem ensures p in lt <==> p !in rt {
      if p in k.mem {
        assert OldOk(k, mem, own, left, -1, p);
        assert p !in k.pillar;
        assert own[p].lo <= own[p].hi by { assert NodeOrderOk(mem, own, own, k.all, p); }
      }
    }
    forall p | p in mem ensures SameTree(mem, lt, p) && SameTree(mem, rt, p) { CutSameTree(k, mem, own, left, p); }
    forall p | p in lt ensures UnderRoot(mem, lt, k.root, p) {
      assert OldOk(k, mem, own, left, -1, p) && Hangs(k.mem, k.root, {}, p);
    }
    forall p | p in rt ensures UnderRoot(mem, rt, top, p) {
      if p in k.mem {
        assert OldOk(k, mem, own, left, -1, p) && Hangs(k.mem, k.root, {}, p);
      } else {
        var i :| 0 <= i < |k.pillar| && k.pillar[i] == p;
        assert NewOk(k, mem, own, -1, i);
      }
    }
  }

  lemma CutSameTree(k: Cut, mem: Mem, own: Spans, left: set<Ptr>, p: Ptr)
    requires Spines(k, mem, own, left, -1) && Wf(mem, own, k.all) && p in mem
    requires forall q :: q in mem ==> (q in LeftTree(k, own, left) <==> q !in RightTree(k, own, left))
    ensures SameTree(mem, LeftTree(k, own, left), p) && SameTree(mem, RightTree(k, own, left), p)
  {
    if mem[p].link.Child? {
      ParentSpan(mem, own, k.all, p);
      var q := mem[p].link.parent;
      if p in k.mem {
        assert OldOk(k, mem, own, left, -1, p);
      } else {
        var i :| 0 <= i < |k.pillar| && k.pillar[i] == p;
        assert NewOk(k, mem, own, -1, i);
      }
      if q in k.mem {
        assert OldOk(k, mem, own, left, -1, q);
      } else {
        var j :| 0 <= j < |k.pillar| && k.pillar[j] == q;
        assert NewOk(k, mem, own, -1, j);
      }
    }
  }

  /** Only the borders along the cut may have nodes too short. */
  lemma CutBorders(k: Cut, mem: Mem, own: Spans, left: set<Ptr>)
    requires Spines(k, mem, own, left, -1) && Wf(mem, own, k.all)
    ensures k.root in mem && BorderTree(mem, own, k.all, RightSide, LeftTree(k, own, left), k.root, mem[k.root].height)
    ensures var top := k.pillar[|k.pillar| - 1];
            top in mem && BorderTree(mem, own, k.all, LeftSide, RightTree(k, own, left), top, mem[top].height)
            && own[k.root] == Span(0, k.m) && own[top] == Span(k.m, |k.all|)
    ensures LeftTree(k, own, left) !! RightTree(k, own, left) && LeftTree(k, own, left) + RightTree(k, own, left) == mem.Keys
  {
    CutTrees(k, mem, own, left);
    var top, lt, rt := k.pillar[|k.pillar| - 1], LeftTree(k, own, left), RightTree(k, own, left);
    forall p | p in lt ensures BorderLenOk(mem, own, RightSide, k.root, mem[k.root].height, p) {
      assert OldOk(k, mem, own, left, -1, p) && LenOk(k.mem, k.root, p) && UnderRoot(mem, lt, k.root, p);
    }
    forall p | p in rt ensures BorderLenOk(mem, own, LeftSide, top, mem[top].height, p) {
      assert UnderRoot(mem, rt, top, p);
      if p in k.mem {
        assert OldOk(k, mem, own, left, -1, p) && LenOk(k.mem, k.root, p);
      } else {
        var i :| 0 <= i < |k.pillar| && k.pillar[i] == p;
        assert NewOk(k, mem, own, -1, i);
      }
    }
  }
}
