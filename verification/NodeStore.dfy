/** The memory of the B-tree: a map from addresses to node records, and what it means for that
    memory to hold well-formed trees.

    A record at an address stands for a `LeafNode` (height 0) or an `InternalNode` (height above 0).
    An address outside the map is not allocated, so every dereference proved legal here is also
    a proof that no freed node is read.

    Well-formedness is local to a node. Each node is given the span `[lo, hi]` of leaf-edge ranks
    below it in one global in-order sequence `all`: leaf edge `i` of a leaf has rank `lo + i`, and
    the `i`-th pair of an internal node sits at the upper end of its `i`-th child's span. */
module NodeStore {
  const CAPACITY: nat := 11
  const MIN_LEN: nat := 5

  type Ptr = nat

  datatype KV = KV(key: int, val: int)

  /** A node's link to the parent edge that owns it. */
  datatype Link = NoParent | Child(parent: Ptr, idx: nat)

  datatype Node = Node(height: nat, kvs: seq<KV>, edges: seq<Ptr>, link: Link)

  type Mem = map<Ptr, Node>

  datatype MaybeRoot = NoRoot | Root(ptr: Ptr)

  /** The ranks of the first and the last leaf edge below a node. */
  datatype Span = Span(lo: nat, hi: nat)

  type Spans = map<Ptr, Span>

  // ----- pointers -----

  ghost predicate EdgeOk(mem: Mem, p: Ptr, i: nat)
    requires p in mem && i < |mem[p].edges|
  {
    var c := mem[p].edges[i];
    c in mem && mem[c].height + 1 == mem[p].height && mem[c].link == Child(p, i)
  }

  /** A leaf has no edges. An internal node of `n` pairs has `n + 1`, and every one of them leads
      to an allocated node one level down that links back to it. */
  ghost predicate EdgesOk(mem: Mem, p: Ptr)
    requires p in mem
  {
    && |mem[p].edges| == (if mem[p].height == 0 then 0 else |mem[p].kvs| + 1)
    && forall i {:trigger EdgeOk(mem, p, i)} :: 0 <= i < |mem[p].edges| ==> EdgeOk(mem, p, i)
  }

  /** A node with a parent is what the parent's edge leads to. */
  ghost predicate LinkOk(mem: Mem, p: Ptr)
    requires p in mem
  {
    mem[p].link.Child? ==>
      var Child(q, i) := mem[p].link;
      q in mem && i < |mem[q].edges| && mem[q].edges[i] == p
  }

  // ----- order -----

  /** Pair `i` stands between the spans of the children on either side of it. */
  ghost predicate PairOk(edges: seq<Ptr>, kvs: seq<KV>, view: Spans, all: seq<KV>, i: nat)
    requires i < |kvs| && |edges| == |kvs| + 1
  {
    var l, r := edges[i], edges[i + 1];
    && l in view && r in view
    && view[l].hi < |all|
    && all[view[l].hi] == kvs[i]
    && view[r].lo == view[l].hi + 1
  }

  ghost predicate ProperSpan(view: Spans, p: Ptr) {
    p in view && view[p].lo <= view[p].hi
  }

  /** The children `edges` with the pairs `kvs` between them cover exactly the span `s`. */
  ghost predicate Laid(edges: seq<Ptr>, kvs: seq<KV>, view: Spans, all: seq<KV>, s: Span) {
    && |edges| == |kvs| + 1
    && (forall i {:trigger ProperSpan(view, edges[i])} :: 0 <= i < |edges| ==> ProperSpan(view, edges[i]))
    && (forall i {:trigger PairOk(edges, kvs, view, all, i)} :: 0 <= i < |kvs| ==> PairOk(edges, kvs, view, all, i))
    && ProperSpan(view, edges[0]) && view[edges[0]].lo == s.lo
    && ProperSpan(view, edges[|kvs|]) && view[edges[|kvs|]].hi == s.hi
  }

  /** A leaf holds its slice of `all`; an internal node lays out its children's spans. `view` is
      the span a node believes its children to have; it differs from the children's own spans
      only while an operation is half way. */
  ghost predicate OrderOk(n: Node, s: Span, view: Spans, all: seq<KV>) {
    && s.lo <= s.hi <= |all|
    && if n.height == 0 then n.edges == [] && n.kvs == all[s.lo..s.hi] else Laid(n.edges, n.kvs, view, all, s)
  }

  // ----- whole memory -----

  ghost predicate PointersOk(mem: Mem) {
    && (forall p {:trigger EdgesOk(mem, p)} :: p in mem ==> EdgesOk(mem, p))
    && (forall p {:trigger LinkOk(mem, p)} :: p in mem ==> LinkOk(mem, p))
  }

  ghost predicate NodeOrderOk(mem: Mem, own: Spans, view: Spans, all: seq<KV>, p: Ptr)
    requires p in mem
  {
    p in own && OrderOk(mem[p], own[p], view, all)
  }

  ghost predicate Ordered(mem: Mem, own: Spans, view: Spans, all: seq<KV>) {
    forall p {:trigger NodeOrderOk(mem, own, view, all, p)} :: p in mem ==> NodeOrderOk(mem, own, view, all, p)
  }

  /** No node is half way. */
  ghost predicate Wf(mem: Mem, own: Spans, all: seq<KV>) {
    PointersOk(mem) && Ordered(mem, own, own, all)
  }

  // ----- laying out children: cut, join, split and merge -----

  lemma LaidKept(edges: seq<Ptr>, kvs: seq<KV>, view: Spans, view': Spans, all: seq<KV>, s: Span)
    requires Laid(edges, kvs, view, all, s)
    requires forall c :: c in edges && c in view ==> c in view' && view'[c] == view[c]
    ensures Laid(edges, kvs, view', all, s)
  {
    forall i | 0 <= i < |edges| ensures ProperSpan(view', edges[i]) {
      assert ProperSpan(view, edges[i]);
    }
    forall i | 0 <= i < |kvs| ensures PairOk(edges, kvs, view', all, i) {
      assert PairOk(edges, kvs, view, all, i);
    }
  }

  /** A node none of whose children got another span stays in order. */
  lemma OrderKept(n: Node, n': Node, s: Span, view: Spans, view': Spans, all: seq<KV>)
    requires OrderOk(n, s, view, all)
    requires n'.height == n.height && n'.kvs == n.kvs && n'.edges == n.edges
    requires forall c :: c in n.edges && c in view ==> c in view' && view'[c] == view[c]
    ensures OrderOk(n', s, view', all)
  {
    if n.height > 0 { LaidKept(n.edges, n.kvs, view, view', all, s); }
  }

  lemma LaidCut(edges: seq<Ptr>, kvs: seq<KV>, view: Spans, all: seq<KV>, s: Span, m: nat)
    requires Laid(edges, kvs, view, all, s)
    requires m < |kvs|
    ensures edges[m] in view && view[edges[m]].hi < |all| && all[view[edges[m]].hi] == kvs[m]
    ensures Laid(edges[..m + 1], kvs[..m], view, all, Span(s.lo, view[edges[m]].hi))
    ensures Laid(edges[m + 1..], kvs[m + 1..], view, all, Span(view[edges[m]].hi + 1, s.hi))
  {
    var e1, k1, e2, k2 := edges[..m + 1], kvs[..m], edges[m + 1..], kvs[m + 1..];
    assert PairOk(edges, kvs, view, all, m);
    assert ProperSpan(view, edges[m]) && ProperSpan(view, edges[m + 1]);
    forall i | 0 <= i < |e1| ensures ProperSpan(view, e1[i]) { assert ProperSpan(view, edges[i]); }
    forall i | 0 <= i < |e2| ensures ProperSpan(view, e2[i]) { assert ProperSpan(view, edges[i + m + 1]); }
    forall i | 0 <= i < |k1| ensures PairOk(e1, k1, view, all, i) { assert PairOk(edges, kvs, view, all, i); }
    forall i | 0 <= i < |k2| ensures PairOk(e2, k2, view, all, i) { assert PairOk(edges, kvs, view, all, i + m + 1); }
  }

  lemma LaidJoin(e1: seq<Ptr>, k1: seq<KV>, s1: Span, x: KV, e2: seq<Ptr>, k2: seq<KV>, s2: Span, view: Spans, all: seq<KV>)
    requires Laid(e1, k1, view, all, s1) && Laid(e2, k2, view, all, s2)
    requires s1.hi < |all| && all[s1.hi] == x && s2.lo == s1.hi + 1
    ensures Laid(e1 + e2, k1 + [x] + k2, view, all, Span(s1.lo, s2.hi))
  {
    var e, k := e1 + e2, k1 + [x] + k2;
    var n := |k1|;
    forall i | 0 <= i < |e| ensures ProperSpan(view, e[i]) {
      if i <= n { assert ProperSpan(view, e1[i]); } else { assert ProperSpan(view, e2[i - n - 1]); }
    }
    forall i | 0 <= i < |k| ensures PairOk(e, k, view, all, i) {
      if i < n { assert PairOk(e1, k1, view, all, i); }
      else if i > n { assert PairOk(e2, k2, view, all, i - n - 1); }
    }
  }

  /** Child `m` gave up its upper part to the new child `r`, which now follows it. */
  lemma LaidSplit(edges: seq<Ptr>, kvs: seq<KV>, view: Spans, view': Spans, all: seq<KV>, s: Span, m: nat, x: KV, r: Ptr)
    requires Laid(edges, kvs, view, all, s)
    requires m < |edges|
    requires edges[m] in view && edges[m] in view' && r in view'
    requires forall i :: 0 <= i < |edges| && i != m && edges[i] in view ==> edges[i] in view' && view'[edges[i]] == view[edges[i]]
    requires view'[edges[m]].lo == view[edges[m]].lo <= view'[edges[m]].hi < |all|
    requires all[view'[edges[m]].hi] == x
    requires view'[r].lo == view'[edges[m]].hi + 1 <= view'[r].hi == view[edges[m]].hi
    ensures Laid(edges[..m + 1] + [r] + edges[m + 1..], kvs[..m] + [x] + kvs[m..], view', all, s)
  {
    var e, k := edges[..m + 1] + [r] + edges[m + 1..], kvs[..m] + [x] + kvs[m..];
    forall i | 0 <= i < |e| ensures ProperSpan(view', e[i]) {
      if i != m + 1 { assert ProperSpan(view, edges[if i <= m then i else i - 1]); }
    }
    forall i | 0 <= i < |k| ensures PairOk(e, k, view', all, i) {
      if i != m {
        var j := if i < m then i else i - 1;
        assert PairOk(edges, kvs, view, all, j);
        assert ProperSpan(view, edges[j]) && ProperSpan(view, edges[j + 1]);
      }
    }
    assert ProperSpan(view', e[0]) && ProperSpan(view', e[|k|]);
  }

  /** Child `m` took over everything of child `m + 1`, which is gone. */
  lemma LaidMerge(edges: seq<Ptr>, kvs: seq<KV>, view: Spans, view': Spans, all: seq<KV>, s: Span, m: nat)
    requires Laid(edges, kvs, view, all, s)
    requires m < |kvs|
    requires edges[m] in view && edges[m + 1] in view && edges[m] in view'
    requires forall i :: 0 <= i < |edges| && i != m && i != m + 1 && edges[i] in view ==> edges[i] in view' && view'[edges[i]] == view[edges[i]]
    requires view'[edges[m]] == Span(view[edges[m]].lo, view[edges[m + 1]].hi)
    ensures Laid(edges[..m + 1] + edges[m + 2..], kvs[..m] + kvs[m + 1..], view', all, s)
  {
    var e, k := edges[..m + 1] + edges[m + 2..], kvs[..m] + kvs[m + 1..];
    assert PairOk(edges, kvs, view, all, m) && ProperSpan(view, edges[m]) && ProperSpan(view, edges[m + 1]);
    forall i | 0 <= i < |e| ensures ProperSpan(view', e[i]) {
      if i != m { assert ProperSpan(view, edges[if i < m then i else i + 1]); }
    }
    forall i | 0 <= i < |k| ensures PairOk(e, k, view', all, i) {
      var j := if i < m then i else i + 1;
      assert PairOk(edges, kvs, view, all, j);
      assert ProperSpan(view, edges[j]) && ProperSpan(view, edges[j + 1]);
    }
    assert ProperSpan(view', e[0]) && ProperSpan(view', e[|k|]);
  }

  /** Children `m` and `m + 1` moved the border between them to another pair `x`. */
  lemma LaidShift(edges: seq<Ptr>, kvs: seq<KV>, view: Spans, view': Spans, all: seq<KV>, s: Span, m: nat, x: KV)
    requires Laid(edges, kvs, view, all, s)
    requires m < |kvs|
    requires edges[m] in view && edges[m + 1] in view && edges[m] in view' && edges[m + 1] in view'
    requires forall i :: 0 <= i < |edges| && i != m && i != m + 1 && edges[i] in view ==> edges[i] in view' && view'[edges[i]] == view[edges[i]]
    requires view'[edges[m]].lo == view[edges[m]].lo <= view'[edges[m]].hi < |all|
    requires all[view'[edges[m]].hi] == x
    requires view'[edges[m + 1]].lo == view'[edges[m]].hi + 1 <= view'[edges[m + 1]].hi == view[edges[m + 1]].hi
    ensures Laid(edges, kvs[m := x], view', all, s)
  {
    var k := kvs[m := x];
    forall i | 0 <= i < |edges| ensures ProperSpan(view', edges[i]) {
      assert ProperSpan(view, edges[i]);
    }
    forall i | 0 <= i < |k| ensures PairOk(edges, k, view', all, i) {
      assert PairOk(edges, kvs, view, all, i);
      assert ProperSpan(view, edges[i]) && ProperSpan(view, edges[i + 1]);
    }
  }

  /** Children's spans lie inside their parent's, and in order. */
  lemma {:induction false} LaidInside(edges: seq<Ptr>, kvs: seq<KV>, view: Spans, all: seq<KV>, s: Span, i: nat)
    requires Laid(edges, kvs, view, all, s)
    requires i < |edges|
    ensures edges[i] in view && s.lo <= view[edges[i]].lo <= view[edges[i]].hi <= s.hi
    ensures i < |kvs| ==> view[edges[i]].hi < s.hi
  {
    LaidApart(edges, kvs, view, all, s, 0, i);
    LaidApart(edges, kvs, view, all, s, i, |kvs|);
    assert ProperSpan(view, edges[i]) && ProperSpan(view, edges[0]);
  }

  lemma {:induction false} LaidApart(edges: seq<Ptr>, kvs: seq<KV>, view: Spans, all: seq<KV>, s: Span, i: nat, j: nat)
    requires Laid(edges, kvs, view, all, s)
    requires i <= j < |edges|
    ensures edges[i] in view && edges[j] in view
    ensures i < j ==> view[edges[i]].hi < view[edges[j]].lo
    decreases j
  {
    assert ProperSpan(view, edges[i]) && ProperSpan(view, edges[j]);
    if i < j {
      LaidApart(edges, kvs, view, all, s, i, j - 1);
      assert PairOk(edges, kvs, view, all, j - 1);
      assert ProperSpan(view, edges[j - 1]);
    }
  }

  /** A child of `q` hangs below `p` only if `q` is `p`. */
  lemma ChildrenKept(mem: Mem, own: Spans, own': Spans, p: Ptr, q: Ptr)
    requires PointersOk(mem)
    requires p in mem && q in mem && q != p
    requires forall c :: c in own && c in mem && (mem[c].link.Child? ==> mem[c].link.parent != p) ==> c in own' && own'[c] == own[c]
    ensures forall c :: c in mem[q].edges && c in own ==> c in own' && own'[c] == own[c]
  {
    assert EdgesOk(mem, q);
    forall c | c in mem[q].edges && c in own ensures c in own' && own'[c] == own[c] {
      var i :| 0 <= i < |mem[q].edges| && mem[q].edges[i] == c;
      assert EdgeOk(mem, q, i);
    }
  }

  // ----- correcting parent links -----

  /** Memory `mem` with every child that `t` has on the edges `[from, end)` of `p` linked as in `t`. */
  ghost function SetLinks(mem: Mem, t: Mem, p: Ptr, from: nat, end: nat): Mem {
    map q | q in mem :: if q in t then SetLink(mem[q], t[q].link, p, from, end) else mem[q]
  }

  function SetLink(n: Node, link: Link, p: Ptr, from: nat, end: nat): Node {
    if link.Child? && link.parent == p && from <= link.idx < end then n.(link := link) else n
  }

  lemma SetLinksNext(mem: Mem, t: Mem, p: Ptr, from: nat, i: nat)
    requires PointersOk(t) && p in t && EdgesOk(t, p) && from <= i < |t[p].edges| && t[p].edges[i] in mem
    ensures var c := t[p].edges[i];
            SetLinks(mem, t, p, from, i + 1) ==
            SetLinks(mem, t, p, from, i)[c := SetLinks(mem, t, p, from, i)[c].(link := Child(p, i))]
  {
    assert EdgeOk(t, p, i);
    forall q | q in mem && q in t && t[q].link == Child(p, i) ensures q == t[p].edges[i] {
      assert LinkOk(t, q);
    }
  }

  /** There is always an address left. */
  lemma {:induction false} FreshExists(s: set<Ptr>)
    ensures exists p: Ptr :: p !in s
  {
    var bound := UpperBound(s);
    assert bound !in s;
  }

  lemma {:induction false} UpperBound(s: set<Ptr>) returns (b: Ptr)
    ensures forall p :: p in s ==> p < b
    decreases s
  {
    if s == {} {
      b := 0;
    } else {
      var p :| p in s;
      var c := UpperBound(s - {p});
      b := if p < c then c else p + 1;
      forall q | q in s ensures q < b { assert q == p || q in s - {p}; }
    }
  }
}
