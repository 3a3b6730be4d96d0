/** Ranks in a tree: every leaf-edge rank belongs to one node per level and every pair's rank to
    one pair; what inserting and removing a pair at a rank does to all spans; and the recursive
    in-order walk that the spans stand for. */
module Ranks {
  import opened NodeStore

  /** The nodes `t` form one tree with the given root. */
  ghost predicate OneTree(mem: Mem, t: set<Ptr>, root: Ptr) {
    && root in t && t <= mem.Keys
    && mem[root].link == NoParent
    && (forall p {:trigger UnderRoot(mem, t, root, p)} :: p in t ==> UnderRoot(mem, t, root, p))
    && (forall p {:trigger SameTree(mem, t, p)} :: p in mem ==> SameTree(mem, t, p))
  }

  ghost predicate UnderRoot(mem: Mem, t: set<Ptr>, root: Ptr, p: Ptr)
    requires p in mem && root in mem
  {
    && mem[p].height <= mem[root].height
    && (p != root ==> mem[p].height < mem[root].height && mem[p].link.Child?)
  }

  ghost predicate SameTree(mem: Mem, t: set<Ptr>, p: Ptr)
    requires p in mem
  {
    mem[p].link.Child? ==> (p in t <==> mem[p].link.parent in t)
  }

  // ----- up and down the tree -----

  /** A node's parent, with the node's span inside the parent's. */
  lemma ParentSpan(mem: Mem, own: Spans, all: seq<KV>, p: Ptr)
    requires Wf(mem, own, all) && p in mem && mem[p].link.Child?
    ensures var Child(q, i) := mem[p].link;
            && q in mem && q in own && p in own
            && EdgesOk(mem, q) && i < |mem[q].edges| && mem[q].edges[i] == p
            && mem[q].height == mem[p].height + 1
            && Laid(mem[q].edges, mem[q].kvs, own, all, own[q])
            && own[q].lo <= own[p].lo <= own[p].hi <= own[q].hi <= |all|
  {
    var Child(q, i) := mem[p].link;
    assert LinkOk(mem, p) && EdgesOk(mem, q);
    assert EdgeOk(mem, q, i);
    assert NodeOrderOk(mem, own, own, all, q);
    LaidInside(mem[q].edges, mem[q].kvs, own, all, own[q], i);
  }

  /** On each level at most one node of a tree holds a given rank. */
  lemma {:induction false} SameRank(mem: Mem, own: Spans, all: seq<KV>, t: set<Ptr>, root: Ptr, p: Ptr, q: Ptr, r: nat)
    requires Wf(mem, own, all) && OneTree(mem, t, root)
    requires p in t && q in t && p in own && q in own
    requires mem[p].height == mem[q].height
    requires own[p].lo <= r <= own[p].hi && own[q].lo <= r <= own[q].hi
    ensures p == q
    decreases mem[root].height - mem[p].height
  {
    assert UnderRoot(mem, t, root, p) && UnderRoot(mem, t, root, q);
    if p != root && q != root {
      ParentSpan(mem, own, all, p);
      ParentSpan(mem, own, all, q);
      assert SameTree(mem, t, p) && SameTree(mem, t, q);
      var Child(pp, i) := mem[p].link;
      var Child(qq, j) := mem[q].link;
      assert UnderRoot(mem, t, root, pp);
      SameRank(mem, own, all, t, root, pp, qq, r);
      LaidApart(mem[pp].edges, mem[pp].kvs, own, all, own[pp], if i <= j then i else j, if i <= j then j else i);
    }
  }

  /** The node above `p` on level `h`. */
  lemma {:induction false} Above(mem: Mem, own: Spans, all: seq<KV>, t: set<Ptr>, root: Ptr, p: Ptr, h: nat) returns (a: Ptr)
    requires Wf(mem, own, all) && OneTree(mem, t, root)
    requires p in t && mem[p].height <= h <= mem[root].height
    ensures a in t && a in own && p in own && mem[a].height == h
    ensures own[a].lo <= own[p].lo && own[p].hi <= own[a].hi
    decreases h - mem[p].height
  {
    assert NodeOrderOk(mem, own, own, all, p);
    if mem[p].height == h {
      a := p;
    } else {
      assert UnderRoot(mem, t, root, p) && SameTree(mem, t, p);
      ParentSpan(mem, own, all, p);
      a := Above(mem, own, all, t, root, mem[p].link.parent, h);
    }
  }

  ghost predicate PairAt(mem: Mem, own: Spans, p: Ptr, i: nat, x: nat) {
    && p in mem && i < |mem[p].kvs| && p in own
    && if mem[p].height == 0 then x == own[p].lo + i
       else i < |mem[p].edges| && mem[p].edges[i] in own && x == own[mem[p].edges[i]].hi
  }

  /** Pair `i` of a node lies strictly inside the node's span. */
  lemma PairInside(mem: Mem, own: Spans, all: seq<KV>, p: Ptr, i: nat) returns (x: nat)
    requires Wf(mem, own, all) && p in mem && i < |mem[p].kvs|
    ensures PairAt(mem, own, p, i, x)
    ensures own[p].lo <= x < own[p].hi <= |all| && all[x] == mem[p].kvs[i]
  {
    assert NodeOrderOk(mem, own, own, all, p) && EdgesOk(mem, p);
    if mem[p].height == 0 {
      x := own[p].lo + i;
    } else {
      assert PairOk(mem[p].edges, mem[p].kvs, own, all, i);
      LaidInside(mem[p].edges, mem[p].kvs, own, all, own[p], i);
      x := own[mem[p].edges[i]].hi;
    }
  }

  /** A rank below `|all|` is the rank of one pair only. */
  lemma SamePair(mem: Mem, own: Spans, all: seq<KV>, t: set<Ptr>, root: Ptr, p: Ptr, i: nat, q: Ptr, j: nat, x: nat)
    requires Wf(mem, own, all) && OneTree(mem, t, root)
    requires p in t && q in t
    requires PairAt(mem, own, p, i, x) && PairAt(mem, own, q, j, x)
    requires mem[q].height <= mem[p].height
    ensures p == q && i == j
  {
    var x1 := PairInside(mem, own, all, p, i);
    var x2 := PairInside(mem, own, all, q, j);
    assert EdgesOk(mem, p) && EdgesOk(mem, q);
    if mem[p].height == 0 {
      SameRank(mem, own, all, t, root, p, q, x);
    } else {
      var c := mem[p].edges[i];
      assert EdgeOk(mem, p, i) && SameTree(mem, t, c);
      assert NodeOrderOk(mem, own, own, all, c);
      if mem[q].height == mem[p].height {
        var d := mem[q].edges[j];
        assert EdgeOk(mem, q, j) && SameTree(mem, t, d);
        assert NodeOrderOk(mem, own, own, all, d);
        SameRank(mem, own, all, t, root, c, d, x);
      } else {
        assert UnderRoot(mem, t, root, p);
        var a := Above(mem, own, all, t, root, q, mem[c].height);
        SameRank(mem, own, all, t, root, a, c, x);
      }
    }
  }

  // ----- inserting at a rank -----

  function InsertAt<T>(s: seq<T>, i: nat, x: T): seq<T>
    requires i <= |s|
  {
    s[..i] + [x] + s[i..]
  }

  function RemoveAt<T>(s: seq<T>, i: nat): seq<T>
    requires i < |s|
  {
    s[..i] + s[i + 1..]
  }

  /** One more pair at rank `r`: the edge of rank `r` is now the edges `r` and `r + 1`. */
  function Up(s: Span, r: nat): Span {
    Span(if s.lo > r then s.lo + 1 else s.lo, if s.hi >= r then s.hi + 1 else s.hi)
  }

  ghost function AllUp(spans: Spans, r: nat): Spans {
    map p | p in spans :: Up(spans[p], r)
  }

  /** Leaf `p` is the only leaf with an edge of rank `r`. */
  ghost predicate Alone(mem: Mem, own: Spans, p: Ptr, r: nat) {
    forall q :: q in mem && q in own && mem[q].height == 0 && q != p ==> r < own[q].lo || own[q].hi < r
  }

  lemma AloneAtRank(mem: Mem, own: Spans, all: seq<KV>, root: Ptr, p: Ptr, r: nat)
    requires Wf(mem, own, all) && OneTree(mem, mem.Keys, root)
    requires p in mem && p in own && mem[p].height == 0 && own[p].lo <= r <= own[p].hi
    ensures Alone(mem, own, p, r)
  {
    forall q | q in mem && q in own && mem[q].height == 0 && q != p ensures r < own[q].lo || own[q].hi < r {
      if own[q].lo <= r <= own[q].hi { SameRank(mem, own, all, mem.Keys, root, p, q, r); }
    }
  }

  ghost function LeafInsertMem(mem: Mem, p: Ptr, i: nat, kv: KV): Mem
    requires p in mem && i <= |mem[p].kvs|
  {
    mem[p := mem[p].(kvs := InsertAt(mem[p].kvs, i, kv))]
  }

  lemma LaidUp(edges: seq<Ptr>, kvs: seq<KV>, view: Spans, all: seq<KV>, s: Span, r: nat, kv: KV)
    requires Laid(edges, kvs, view, all, s) && r <= |all|
    ensures Laid(edges, kvs, AllUp(view, r), InsertAt(all, r, kv), Up(s, r))
  {
    var view', all' := AllUp(view, r), InsertAt(all, r, kv);
    forall i | 0 <= i < |edges| ensures ProperSpan(view', edges[i]) {
      assert ProperSpan(view, edges[i]);
    }
    forall i | 0 <= i < |kvs| ensures PairOk(edges, kvs, view', all', i) {
      assert PairOk(edges, kvs, view, all, i);
    }
  }

  lemma InsertWithin<T>(s: seq<T>, lo: nat, hi: nat, r: nat, x: T)
    requires lo <= r <= hi <= |s|
    ensures InsertAt(s, r, x)[lo..hi + 1] == InsertAt(s[lo..hi], r - lo, x)
  {}

  lemma InsertOutside<T>(s: seq<T>, lo: nat, hi: nat, r: nat, x: T)
    requires lo <= hi <= |s| && r <= |s|
    ensures hi < r ==> InsertAt(s, r, x)[lo..hi] == s[lo..hi]
    ensures r < lo ==> InsertAt(s, r, x)[lo + 1..hi + 1] == s[lo..hi]
  {}

  lemma LeafInsertOrder(mem: Mem, own: Spans, view: Spans, all: seq<KV>, p: Ptr, i: nat, kv: KV)
    requires Ordered(mem, own, view, all)
    requires p in mem && mem[p].height == 0 && i <= |mem[p].kvs|
    requires p in own && Alone(mem, own, p, own[p].lo + i)
    ensures own[p].lo + i <= own[p].hi <= |all|
    ensures var r := own[p].lo + i;
            Ordered(LeafInsertMem(mem, p, i, kv), AllUp(own, r), AllUp(view, r), InsertAt(all, r, kv))
  {
    assert NodeOrderOk(mem, own, view, all, p);
    var r := own[p].lo + i;
    var mem', own', view', all' := LeafInsertMem(mem, p, i, kv), AllUp(own, r), AllUp(view, r), InsertAt(all, r, kv);
    forall q | q in mem' ensures NodeOrderOk(mem', own', view', all', q) {
      LeafInsertNode(mem, own, view, all, p, i, kv, q);
    }
  }

  lemma LeafInsertNode(mem: Mem, own: Spans, view: Spans, all: seq<KV>, p: Ptr, i: nat, kv: KV, q: Ptr)
    requires Ordered(mem, own, view, all)
    requires p in mem && mem[p].height == 0 && i <= |mem[p].kvs| && q in mem
    requires p in own && Alone(mem, own, p, own[p].lo + i) && own[p].lo + i <= own[p].hi <= |all|
    ensures var r := own[p].lo + i;
            NodeOrderOk(LeafInsertMem(mem, p, i, kv), AllUp(own, r), AllUp(view, r), InsertAt(all, r, kv), q)
  {
    assert NodeOrderOk(mem, own, view, all, q) && NodeOrderOk(mem, own, view, all, p);
    var r, s := own[p].lo + i, own[q];
    if mem[q].height > 0 {
      LaidUp(mem[q].edges, mem[q].kvs, view, all, s, r, kv);
    } else if q == p {
      InsertWithin(all, s.lo, s.hi, r, kv);
    } else {
      InsertOutside(all, s.lo, s.hi, r, kv);
    }
  }

  // ----- removing at a rank -----

  /** The pair at rank `r` is gone: the edges of rank `r` and `r + 1` are now one. */
  function Down(s: Span, r: nat): Span {
    Span(if s.lo > r then s.lo - 1 else s.lo, if s.hi > r then s.hi - 1 else s.hi)
  }

  ghost function AllDown(spans: Spans, r: nat): Spans {
    map p | p in spans :: Down(spans[p], r)
  }

  ghost function LeafRemoveMem(mem: Mem, p: Ptr, i: nat): Mem
    requires p in mem && i < |mem[p].kvs|
  {
    mem[p := mem[p].(kvs := RemoveAt(mem[p].kvs, i))]
  }

  lemma LaidDown(edges: seq<Ptr>, kvs: seq<KV>, view: Spans, all: seq<KV>, s: Span, r: nat)
    requires Laid(edges, kvs, view, all, s) && r < |all|
    requires forall i :: 0 <= i < |kvs| && edges[i] in view ==> view[edges[i]].hi != r
    ensures Laid(edges, kvs, AllDown(view, r), RemoveAt(all, r), Down(s, r))
  {
    var view', all' := AllDown(view, r), RemoveAt(all, r);
    forall i | 0 <= i < |edges| ensures ProperSpan(view', edges[i]) {
      assert ProperSpan(view, edges[i]);
    }
    forall i | 0 <= i < |kvs| ensures PairOk(edges, kvs, view', all', i) {
      assert PairOk(edges, kvs, view, all, i);
    }
  }

  lemma RemoveWithin<T>(s: seq<T>, lo: nat, hi: nat, r: nat)
    requires lo <= r < hi <= |s|
    ensures RemoveAt(s, r)[lo..hi - 1] == RemoveAt(s[lo..hi], r - lo)
  {}

  lemma RemoveOutside<T>(s: seq<T>, lo: nat, hi: nat, r: nat)
    requires lo <= hi <= |s| && r < |s|
    ensures hi < r ==> RemoveAt(s, r)[lo..hi] == s[lo..hi]
    ensures r < lo ==> RemoveAt(s, r)[lo - 1..hi - 1] == s[lo..hi]
  {}

  lemma LeafRemoveOrder(mem: Mem, own: Spans, all: seq<KV>, root: Ptr, p: Ptr, i: nat)
    requires Wf(mem, own, all) && OneTree(mem, mem.Keys, root)
    requires p in mem && mem[p].height == 0 && i < |mem[p].kvs| && p in own
    ensures own[p].lo + i < own[p].hi <= |all|
    ensures var r := own[p].lo + i;
            Ordered(LeafRemoveMem(mem, p, i), AllDown(own, r), AllDown(own, r), RemoveAt(all, r))
  {
    var r := PairInside(mem, own, all, p, i);
    var mem', own', all' := LeafRemoveMem(mem, p, i), AllDown(own, r), RemoveAt(all, r);
    forall q | q in mem' ensures NodeOrderOk(mem', own', own', all', q) {
      LeafRemoveNode(mem, own, all, root, p, i, r, q);
    }
  }

  lemma LeafRemoveNode(mem: Mem, own: Spans, all: seq<KV>, root: Ptr, p: Ptr, i: nat, r: nat, q: Ptr)
    requires Wf(mem, own, all) && OneTree(mem, mem.Keys, root)
    requires p in mem && mem[p].height == 0 && PairAt(mem, own, p, i, r) && r < own[p].hi <= |all| && q in mem
    ensures NodeOrderOk(LeafRemoveMem(mem, p, i), AllDown(own, r), AllDown(own, r), RemoveAt(all, r), q)
  {
    assert NodeOrderOk(mem, own, own, all, q) && NodeOrderOk(mem, own, own, all, p) && EdgesOk(mem, q);
    var s, all' := own[q], RemoveAt(all, r);
    if mem[q].height > 0 {
      forall j | 0 <= j < |mem[q].kvs| && mem[q].edges[j] in own ensures own[mem[q].edges[j]].hi != r {
        if own[mem[q].edges[j]].hi == r { SamePair(mem, own, all, mem.Keys, root, q, j, p, i, r); }
      }
      LaidDown(mem[q].edges, mem[q].kvs, own, all, s, r);
    } else if q == p {
      RemoveWithin(all, s.lo, s.hi, r);
    } else {
      if s.lo <= r <= s.hi { SameRank(mem, own, all, mem.Keys, root, p, q, r); }
      RemoveOutside(all, s.lo, s.hi, r);
    }
  }

  // ----- replacing the pair at a rank -----

  ghost function ReplaceMem(mem: Mem, p: Ptr, i: nat, kv: KV): Mem
    requires p in mem && i < |mem[p].kvs|
  {
    mem[p := mem[p].(kvs := mem[p].kvs[i := kv])]
  }

  lemma ReplaceWf(mem: Mem, own: Spans, all: seq<KV>, root: Ptr, p: Ptr, i: nat, x: nat, kv: KV)
    requires Wf(mem, own, all) && OneTree(mem, mem.Keys, root)
    requires PairAt(mem, own, p, i, x)
    ensures x < |all| && Wf(ReplaceMem(mem, p, i, kv), own, all[x := kv])
  {
    var x' := PairInside(mem, own, all, p, i);
    var mem', all' := ReplaceMem(mem, p, i, kv), all[x := kv];
    forall q | q in mem' ensures EdgesOk(mem', q) && LinkOk(mem', q) {
      assert EdgesOk(mem, q) && LinkOk(mem, q);
      forall j | 0 <= j < |mem'[q].edges| ensures EdgeOk(mem', q, j) { assert EdgeOk(mem, q, j); }
    }
    forall q | q in mem' ensures NodeOrderOk(mem', own, own, all', q) { ReplaceNode(mem, own, all, root, p, i, x, kv, q); }
  }

  lemma OtherPair(mem: Mem, own: Spans, all: seq<KV>, root: Ptr, p: Ptr, i: nat, q: Ptr, j: nat, x: nat)
    requires Wf(mem, own, all) && OneTree(mem, mem.Keys, root)
    requires PairAt(mem, own, p, i, x) && PairAt(mem, own, q, j, x)
    ensures p == q && i == j
  {
    if mem[q].height <= mem[p].height { SamePair(mem, own, all, mem.Keys, root, p, i, q, j, x); }
    else { SamePair(mem, own, all, mem.Keys, root, q, j, p, i, x); }
  }

  lemma ReplaceNode(mem: Mem, own: Spans, all: seq<KV>, root: Ptr, p: Ptr, i: nat, x: nat, kv: KV, q: Ptr)
    requires Wf(mem, own, all) && OneTree(mem, mem.Keys, root)
    requires PairAt(mem, own, p, i, x) && q in mem && own[p].lo <= x < own[p].hi <= |all|
    ensures NodeOrderOk(ReplaceMem(mem, p, i, kv), own, own, all[x := kv], q)
  {
    assert NodeOrderOk(mem, own, own, all, q) && EdgesOk(mem, q) && NodeOrderOk(mem, own, own, all, p);
    var n', all', s := ReplaceMem(mem, p, i, kv)[q], all[x := kv], own[q];
    if mem[q].height == 0 {
      if s.lo <= x < s.hi { OtherPair(mem, own, all, root, p, i, q, x - s.lo, x); }
      assert n'.kvs == all'[s.lo..s.hi];
    } else {
      forall j | 0 <= j < |n'.edges| ensures ProperSpan(own, n'.edges[j]) { assert ProperSpan(own, mem[q].edges[j]); }
      forall j | 0 <= j < |n'.kvs| ensures PairOk(n'.edges, n'.kvs, own, all', j) {
        assert PairOk(mem[q].edges, mem[q].kvs, own, all, j);
        if own[mem[q].edges[j]].hi == x { OtherPair(mem, own, all, root, p, i, q, j, x); }
      }
    }
  }

  /** Taking out the pair at `x - 1` and putting it in place of the next one takes that one out. */
  lemma ReplaceNext<T>(s: seq<T>, x: nat)
    requires 0 < x < |s|
    ensures RemoveAt(s, x - 1)[x - 1] == s[x]
    ensures RemoveAt(s, x - 1)[x - 1 := s[x - 1]] == RemoveAt(s, x)
  {}

  // ----- the in-order walk -----

  /** The pairs below node `p` on level `h`, child by child. */
  ghost function InOrder(mem: Mem, p: Ptr, h: nat): seq<KV>
    decreases h, if p in mem then |mem[p].edges| + 1 else 0
  {
    if p !in mem then [] else if h == 0 then mem[p].kvs else Walk(mem, p, h, |mem[p].edges|)
  }

  /** The first `i` children of `p`, each with the pair that follows it. */
  ghost function Walk(mem: Mem, p: Ptr, h: nat, i: nat): seq<KV>
    requires p in mem && i <= |mem[p].edges| && h > 0
    decreases h, i
  {
    if i == 0 then []
    else Walk(mem, p, h, i - 1) + InOrder(mem, mem[p].edges[i - 1], h - 1)
         + (if i - 1 < |mem[p].kvs| then [mem[p].kvs[i - 1]] else [])
  }

  /** The spans say what the walk finds. */
  lemma {:induction false} InOrderSpan(mem: Mem, own: Spans, all: seq<KV>, p: Ptr)
    requires Wf(mem, own, all) && p in mem
    ensures p in own && own[p].lo <= own[p].hi <= |all|
    ensures InOrder(mem, p, mem[p].height) == all[own[p].lo..own[p].hi]
    decreases mem[p].height, if p in mem then |mem[p].edges| + 1 else 0
  {
    assert NodeOrderOk(mem, own, own, all, p) && EdgesOk(mem, p);
    if mem[p].height > 0 {
      WalkSpan(mem, own, all, p, |mem[p].edges|);
    }
  }

  lemma {:induction false} WalkSpan(mem: Mem, own: Spans, all: seq<KV>, p: Ptr, i: nat)
    requires Wf(mem, own, all) && p in mem && mem[p].height > 0 && 0 < i <= |mem[p].edges|
    requires NodeOrderOk(mem, own, own, all, p) && EdgesOk(mem, p)
    ensures var c := mem[p].edges[i - 1];
            && c in own && own[p].lo <= own[c].lo <= own[c].hi <= own[p].hi
            && (i - 1 < |mem[p].kvs| ==> own[c].hi < own[p].hi)
            && Walk(mem, p, mem[p].height, i) == all[own[p].lo..if i - 1 < |mem[p].kvs| then own[c].hi + 1 else own[c].hi]
    decreases mem[p].height, i
  {
    var c, h := mem[p].edges[i - 1], mem[p].height;
    assert EdgeOk(mem, p, i - 1);
    LaidInside(mem[p].edges, mem[p].kvs, own, all, own[p], i - 1);
    InOrderSpan(mem, own, all, c);
    if i > 1 {
      WalkSpan(mem, own, all, p, i - 1);
      assert PairOk(mem[p].edges, mem[p].kvs, own, all, i - 2);
    }
    if i - 1 < |mem[p].kvs| { assert PairOk(mem[p].edges, mem[p].kvs, own, all, i - 1); }
    assert Walk(mem, p, h, i - 1) == all[own[p].lo..own[c].lo];
  }

  // ----- whole trees -----

  /** All of memory hangs below `root`, except for the nodes in `loose`. */
  ghost predicate Rooted(mem: Mem, root: Ptr, loose: set<Ptr>) {
    && root in mem && mem[root].link == NoParent && root !in loose
    && forall p {:trigger Hangs(mem, root, loose, p)} :: p in mem ==> Hangs(mem, root, loose, p)
  }

  ghost predicate Hangs(mem: Mem, root: Ptr, loose: set<Ptr>, p: Ptr)
    requires p in mem && root in mem
  {
    && mem[p].height <= mem[root].height
    && (p != root && p !in loose ==> mem[p].link.Child? && mem[p].height < mem[root].height)
  }

  lemma RootedIsOneTree(mem: Mem, root: Ptr)
    requires PointersOk(mem) && Rooted(mem, root, {})
    ensures OneTree(mem, mem.Keys, root)
  {
    forall p | p in mem ensures UnderRoot(mem, mem.Keys, root, p) && SameTree(mem, mem.Keys, p) {
      assert Hangs(mem, root, {}, p) && LinkOk(mem, p);
    }
  }

  /** The length a node must have: a node below the root at least `MIN_LEN` pairs, an internal
      root at least one, none more than fit. */
  ghost predicate LenOk(mem: Mem, root: Ptr, p: Ptr)
    requires p in mem
  {
    && |mem[p].kvs| <= CAPACITY
    && (if p == root then mem[p].height > 0 ==> |mem[p].kvs| > 0 else |mem[p].kvs| >= MIN_LEN)
  }

  ghost predicate Lens(mem: Mem, root: Ptr) {
    forall p {:trigger LenOk(mem, root, p)} :: p in mem ==> LenOk(mem, root, p)
  }

  ghost predicate Ascending(all: seq<KV>) {
    forall x, y :: 0 <= x < y < |all| ==> all[x].key < all[y].key
  }

  /** A B-tree: one well-formed tree over all of memory, with the lengths a B-tree keeps. */
  ghost predicate BTreeOk(mem: Mem, own: Spans, all: seq<KV>, root: Ptr) {
    && Wf(mem, own, all)
    && Rooted(mem, root, {})
    && root in own && own[root] == Span(0, |all|)
    && Lens(mem, root)
  }

  // ----- keys -----

  /** Keys outside the span `s` are on their side of `key`. */
  ghost predicate Between(all: seq<KV>, s: Span, key: int) {
    && (forall x :: 0 <= x < s.lo && x < |all| ==> all[x].key < key)
    && (forall x :: s.hi <= x < |all| ==> key < all[x].key)
  }

  /** `key` belongs at edge `i` of `p`, as far as the pairs of `p` tell. */
  ghost predicate Divides(n: Node, i: nat, key: int) {
    && i <= |n.kvs|
    && (i > 0 ==> n.kvs[i - 1].key < key)
    && (i < |n.kvs| ==> key < n.kvs[i].key)
  }

  lemma BetweenChild(mem: Mem, own: Spans, all: seq<KV>, p: Ptr, i: nat, key: int)
    requires Wf(mem, own, all) && Ascending(all)
    requires p in mem && p in own && mem[p].height > 0 && Divides(mem[p], i, key) && Between(all, own[p], key)
    ensures EdgesOk(mem, p) && i < |mem[p].edges| && EdgeOk(mem, p, i)
    ensures mem[p].edges[i] in own && Between(all, own[mem[p].edges[i]], key)
  {
    assert EdgesOk(mem, p) && EdgeOk(mem, p, i) && NodeOrderOk(mem, own, own, all, p);
    LaidInside(mem[p].edges, mem[p].kvs, own, all, own[p], i);
    if i > 0 { assert PairOk(mem[p].edges, mem[p].kvs, own, all, i - 1); }
    if i < |mem[p].kvs| { assert PairOk(mem[p].edges, mem[p].kvs, own, all, i); }
  }

  lemma BetweenEdge(mem: Mem, own: Spans, all: seq<KV>, p: Ptr, i: nat, key: int)
    requires Wf(mem, own, all) && Ascending(all)
    requires p in mem && p in own && mem[p].height == 0 && Divides(mem[p], i, key) && Between(all, own[p], key)
    ensures own[p].lo + i <= |all| && Between(all, Span(own[p].lo + i, own[p].lo + i), key)
  {
    assert NodeOrderOk(mem, own, own, all, p);
    var r := own[p].lo + i;
    if i > 0 { assert all[r - 1] == mem[p].kvs[i - 1]; }
    if i < |mem[p].kvs| { assert all[r] == mem[p].kvs[i]; }
  }

  // ----- the map -----

  /** The keys with their values. */
  ghost function AsMap(all: seq<KV>): map<int, int> {
    if all == [] then map[]
    else var last := all[|all| - 1]; AsMap(all[..|all| - 1])[last.key := last.val]
  }

  lemma SinglePair(kv: KV)
    ensures AsMap([kv]) == map[kv.key := kv.val]
  {
    assert [kv][..0] == [];
    assert AsMap([kv][..0]) == map[];
  }

  lemma {:induction false} AsMapKey(all: seq<KV>, k: int)
    ensures k in AsMap(all) <==> exists x :: 0 <= x < |all| && all[x].key == k
  {
    if all != [] {
      var n := |all| - 1;
      AsMapKey(all[..n], k);
      if exists x :: 0 <= x < |all| && all[x].key == k {
        var x :| 0 <= x < |all| && all[x].key == k;
        if x < n { assert all[..n][x].key == k; }
      }
    }
  }

  lemma {:induction false} InsertAsMap(all: seq<KV>, r: nat, kv: KV)
    requires r <= |all| && forall x :: 0 <= x < |all| ==> all[x].key != kv.key
    ensures kv.key !in AsMap(all) && AsMap(InsertAt(all, r, kv)) == AsMap(all)[kv.key := kv.val]
  {
    AsMapKey(all, kv.key);
    var all', n := InsertAt(all, r, kv), |all|;
    if r == n {
      assert all'[..n] == all;
    } else {
      InsertAsMap(all[..n - 1], r, kv);
      assert all'[..n] == InsertAt(all[..n - 1], r, kv) && all'[n] == all[n - 1];
    }
  }

  lemma {:induction false} RemoveAsMap(all: seq<KV>, r: nat)
    requires Ascending(all) && r < |all|
    ensures all[r].key in AsMap(all) && AsMap(all)[all[r].key] == all[r].val
    ensures AsMap(RemoveAt(all, r)) == AsMap(all) - {all[r].key}
  {
    var all', n := RemoveAt(all, r), |all| - 1;
    if r == n {
      assert all' == all[..n];
      AsMapKey(all[..n], all[r].key);
    } else {
      RemoveAsMap(all[..n], r);
      assert all'[..n - 1] == RemoveAt(all[..n], r) && all'[n - 1] == all[n];
    }
  }

  lemma {:induction false} ReplaceAsMap(all: seq<KV>, x: nat, val: int)
    requires Ascending(all) && x < |all|
    ensures var key := all[x].key;
            && Ascending(all[x := KV(key, val)])
            && key in AsMap(all) && AsMap(all)[key] == all[x].val
            && AsMap(all[x := KV(key, val)]) == AsMap(all)[key := val]
  {
    var key, n := all[x].key, |all| - 1;
    var all' := all[x := KV(key, val)];
    if x == n {
      assert all'[..n] == all[..n];
    } else {
      ReplaceAsMap(all[..n], x, val);
      assert all'[..n] == all[..n][x := KV(key, val)] && all'[n] == all[n];
    }
  }

  lemma InsertAscending(all: seq<KV>, r: nat, kv: KV)
    requires Ascending(all) && r <= |all| && Between(all, Span(r, r), kv.key)
    ensures Ascending(InsertAt(all, r, kv))
  {}

  lemma RemoveAscending(all: seq<KV>, r: nat)
    requires Ascending(all) && r < |all|
    ensures Ascending(RemoveAt(all, r))
  {}

  // ----- leaves -----

  ghost predicate LeafKept(mem: Mem, own: Spans, mem': Mem, own': Spans, q: Ptr)
    requires q in mem && q in own
  {
    q in mem' && mem'[q].height == 0 && mem'[q].kvs == mem[q].kvs && q in own' && own'[q] == own[q]
  }

  /** Leaves keep their pairs and their spans. */
  ghost predicate LeavesKept(mem: Mem, own: Spans, mem': Mem, own': Spans) {
    forall q {:trigger LeafKept(mem, own, mem', own', q)} :: q in mem && mem[q].height == 0 && q in own ==> LeafKept(mem, own, mem', own', q)
  }

  /** A single leaf with room is a B-tree. */
  lemma SingleLeaf(p: Ptr, kvs: seq<KV>)
    requires |kvs| <= CAPACITY
    ensures BTreeOk(map[p := Node(0, kvs, [], NoParent)], map[p := Span(0, |kvs|)], kvs, p)
  {
    var mem, own := map[p := Node(0, kvs, [], NoParent)], map[p := Span(0, |kvs|)];
    assert EdgesOk(mem, p) && LinkOk(mem, p) && NodeOrderOk(mem, own, own, kvs, p);
    assert Hangs(mem, p, {}, p) && LenOk(mem, p, p);
  }
}
