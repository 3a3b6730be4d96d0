/** Repairing the border of a tree: every node that may be too short is on the left or on the right
    border, and the repair goes down that border from the root. */
module Borders {
  import opened NodeStore
  import opened Rebalance
  import opened Growth
  import opened Ranks

  datatype Side = LeftSide | RightSide

  ghost predicate OnBorder(side: Side, own: Spans, top: Ptr, p: Ptr) {
    && p in own && top in own
    && (if side.RightSide? then own[p].hi == own[top].hi else own[p].lo == own[top].lo)
  }

  /** Below level `h`, a node on the border may be too short. */
  ghost predicate BorderLenOk(mem: Mem, own: Spans, side: Side, top: Ptr, h: nat, p: Ptr)
    requires p in mem
  {
    && |mem[p].kvs| <= CAPACITY
    && (p != top && !(OnBorder(side, own, top, p) && mem[p].height < h) ==> |mem[p].kvs| >= MIN_LEN)
  }

  ghost predicate BorderTree(mem: Mem, own: Spans, all: seq<KV>, side: Side, t: set<Ptr>, top: Ptr, h: nat) {
    && Wf(mem, own, all)
    && OneTree(mem, t, top)
    && top in own
    && forall p {:trigger BorderLenOk(mem, own, side, top, h, p)} :: p in t ==> BorderLenOk(mem, own, side, top, h, p)
  }

  /** One tree among others, with the lengths a B-tree keeps. */
  ghost predicate TreeOk(mem: Mem, own: Spans, all: seq<KV>, t: set<Ptr>, top: Ptr) {
    && Wf(mem, own, all)
    && OneTree(mem, t, top)
    && top in own
    && forall p {:trigger LenOk(mem, top, p)} :: p in t ==> LenOk(mem, top, p)
  }

  /** Nodes outside `t` are untouched. */
  ghost predicate OthersKept(mem: Mem, own: Spans, mem': Mem, own': Spans, t: set<Ptr>) {
    forall q {:trigger OtherKept(mem, own, mem', own', q)} :: q in mem && q !in t ==> OtherKept(mem, own, mem', own', q)
  }

  ghost predicate OtherKept(mem: Mem, own: Spans, mem': Mem, own': Spans, q: Ptr) {
    q in mem && q in mem' && mem'[q] == mem[q] && q in own && q in own' && own'[q] == own[q]
  }

  lemma OthersKeptTwice(mem: Mem, own: Spans, mem1: Mem, own1: Spans, mem2: Mem, own2: Spans, t: set<Ptr>, t1: set<Ptr>)
    requires OthersKept(mem, own, mem1, own1, t) && OthersKept(mem1, own1, mem2, own2, t1)
    requires t1 <= t
    ensures OthersKept(mem, own, mem2, own2, t)
  {
    forall q | q in mem && q !in t ensures OtherKept(mem, own, mem2, own2, q) {
      assert OtherKept(mem, own, mem1, own1, q) && OtherKept(mem1, own1, mem2, own2, q);
    }
  }

  // ----- what the node operations do to a tree -----

  lemma MergeOneTree(mem: Mem, t: set<Ptr>, top: Ptr, p: Ptr, k: nat)
    requires Around(mem, p, k) && OneTree(mem, t, top) && p in t
    ensures OneTree(MergeMem(mem, p, k), t - {mem[p].edges[k + 1]}, top)
    ensures mem[p].edges[k] in t && mem[p].edges[k + 1] in t
  {
    var l, r := mem[p].edges[k], mem[p].edges[k + 1];
    var mem', t' := MergeMem(mem, p, k), t - {r};
    assert SameTree(mem, t, l) && SameTree(mem, t, r);
    forall q | q in t' ensures UnderRoot(mem', t', top, q) { assert UnderRoot(mem, t, top, q); }
    forall q | q in mem' ensures SameTree(mem', t', q) {
      assert SameTree(mem, t, q) && LinkOk(mem, q);
      assert EdgesOk(mem, l) && EdgesOk(mem, r);
    }
  }

  lemma MergeOthers(mem: Mem, own: Spans, all: seq<KV>, t: set<Ptr>, top: Ptr, p: Ptr, k: nat)
    requires AroundInOrder(mem, own, all, p, k) && OneTree(mem, t, top) && p in t
    ensures OthersKept(mem, own, MergeMem(mem, p, k), MergeSpans(own, mem[p].edges[k], mem[p].edges[k + 1]), t)
  {
    var l, r := mem[p].edges[k], mem[p].edges[k + 1];
    var mem', own' := MergeMem(mem, p, k), MergeSpans(own, l, r);
    assert SameTree(mem, t, l) && SameTree(mem, t, r);
    forall q | q in mem && q !in t ensures OtherKept(mem, own, mem', own', q) {
      assert SameTree(mem, t, q) && NodeOrderOk(mem, own, own, all, q);
    }
  }

  lemma RebalanceOneTree(mem: Mem, t: set<Ptr>, top: Ptr, p: Ptr, k: nat, n: nat)
    requires CanRebalance(mem, p, k, n) && OneTree(mem, t, top) && p in t
    ensures OneTree(RebalanceMem(mem, p, k, n), t, top)
    ensures mem[p].edges[k] in t && mem[p].edges[k + 1] in t
  {
    var l, r, mem' := mem[p].edges[k], mem[p].edges[k + 1], RebalanceMem(mem, p, k, n);
    assert SameTree(mem, t, l) && SameTree(mem, t, r);
    forall q | q in t ensures UnderRoot(mem', t, top, q) { assert UnderRoot(mem, t, top, q); }
    forall q | q in mem' ensures SameTree(mem', t, q) { assert SameTree(mem, t, q); }
  }

  lemma RebalanceOthers(mem: Mem, own: Spans, all: seq<KV>, t: set<Ptr>, top: Ptr, p: Ptr, k: nat, n: nat, x: nat)
    requires AroundInOrder(mem, own, all, p, k) && CanRebalance(mem, p, k, n) && OneTree(mem, t, top) && p in t
    ensures OthersKept(mem, own, RebalanceMem(mem, p, k, n), BorderSpans(own, mem[p].edges[k], mem[p].edges[k + 1], x), t)
  {
    var l, r := mem[p].edges[k], mem[p].edges[k + 1];
    var mem', own' := RebalanceMem(mem, p, k, n), BorderSpans(own, l, r, x);
    assert SameTree(mem, t, l) && SameTree(mem, t, r);
    forall q | q in mem && q !in t ensures OtherKept(mem, own, mem', own', q) {
      assert SameTree(mem, t, q) && NodeOrderOk(mem, own, own, all, q);
    }
  }

  lemma PopOneTree(mem: Mem, own: Spans, all: seq<KV>, t: set<Ptr>, top: Ptr)
    requires Wf(mem, own, all) && EmptyRoot(mem, top) && OneTree(mem, t, top)
    ensures OneTree(PopLevelMem(mem, top), t - {top}, mem[top].edges[0])
    ensures mem[top].edges[0] in t
    ensures OthersKept(mem, own, PopLevelMem(mem, top), own - {top}, t)
  {
    var mem', t', c := PopLevelMem(mem, top), t - {top}, mem[top].edges[0];
    assert EdgesOk(mem, top) && EdgeOk(mem, top, 0) && SameTree(mem, t, c);
    forall q | q in t' ensures UnderRoot(mem', t', c, q) {
      assert UnderRoot(mem, t, top, q);
      if q != c {
        assert LinkOk(mem, q) && SameTree(mem, t, q) && EdgesOk(mem, mem[q].link.parent);
        assert UnderRoot(mem, t, top, mem[q].link.parent) && EdgeOk(mem, mem[q].link.parent, mem[q].link.idx);
      }
    }
    forall q | q in mem' ensures SameTree(mem', t', q) { assert SameTree(mem, t, q) && LinkOk(mem, q); }
    forall q | q in mem && q !in t ensures OtherKept(mem, own, mem', own - {top}, q) {
      assert NodeOrderOk(mem, own, own, all, q);
    }
  }

  // ----- one step down the border -----

  /** The pair of `p` next to the border, and the children on either side of it: `b` on the border,
      `o` off it. */
  ghost predicate BorderPair(mem: Mem, side: Side, p: Ptr, k: nat, b: Ptr, o: Ptr) {
    && p in mem && mem[p].height > 0 && |mem[p].kvs| > 0 && |mem[p].edges| == |mem[p].kvs| + 1
    && (if side.RightSide? then k == |mem[p].kvs| - 1 && b == mem[p].edges[k + 1] && o == mem[p].edges[k]
        else k == 0 && b == mem[p].edges[0] && o == mem[p].edges[1])
    && b in mem && o in mem
  }

  /** On the level below `p`, only `b` is on the border; its sibling is long enough. */
  lemma BorderLevel(mem: Mem, own: Spans, all: seq<KV>, side: Side, t: set<Ptr>, top: Ptr, p: Ptr, k: nat, b: Ptr, o: Ptr)
    requires BorderPair(mem, side, p, k, b, o)
    requires BorderTree(mem, own, all, side, t, top, mem[p].height)
    requires p in t && OnBorder(side, own, top, p)
    ensures AroundInOrder(mem, own, all, p, k)
    ensures b in t && o in t && b != o && b != top && o != top && OnBorder(side, own, top, b) && !OnBorder(side, own, top, o)
    ensures MIN_LEN <= |mem[o].kvs| <= CAPACITY && |mem[b].kvs| <= CAPACITY
    ensures forall q :: q in t && mem[q].height + 1 == mem[p].height && OnBorder(side, own, top, q) ==> q == b
  {
    AroundPair(mem, own, all, p, k);
    assert SameTree(mem, t, b) && SameTree(mem, t, o);
    assert BorderLenOk(mem, own, side, top, mem[p].height, o) && BorderLenOk(mem, own, side, top, mem[p].height, b);
    assert EdgeOk(mem, p, k) && EdgeOk(mem, p, k + 1);
    assert UnderRoot(mem, t, top, p);
    assert NodeOrderOk(mem, own, own, all, p) && PairOk(mem[p].edges, mem[p].kvs, own, all, k);
    var m := if side.RightSide? then own[top].hi else own[top].lo;
    forall q | q in t && mem[q].height + 1 == mem[p].height && OnBorder(side, own, top, q) ensures q == b {
      assert NodeOrderOk(mem, own, own, all, q) && NodeOrderOk(mem, own, own, all, b);
      SameRank(mem, own, all, t, top, q, b, m);
    }
  }

  lemma BorderAround(mem: Mem, own: Spans, all: seq<KV>, side: Side, t: set<Ptr>, top: Ptr, p: Ptr, k: nat, b: Ptr, o: Ptr)
    requires BorderPair(mem, side, p, k, b, o)
    requires BorderTree(mem, own, all, side, t, top, mem[p].height)
    requires p in t && OnBorder(side, own, top, p)
    ensures AroundInOrder(mem, own, all, p, k)
    ensures MIN_LEN <= |mem[o].kvs| <= CAPACITY && |mem[b].kvs| <= CAPACITY && b != top && mem[b].height + 1 == mem[p].height
  {
    BorderLevel(mem, own, all, side, t, top, p, k, b, o);
    assert EdgeOk(mem, p, k) && EdgeOk(mem, p, k + 1);
  }

  lemma BorderMerge(mem: Mem, own: Spans, all: seq<KV>, side: Side, t: set<Ptr>, top: Ptr, p: Ptr, k: nat, b: Ptr, o: Ptr)
    requires BorderPair(mem, side, p, k, b, o)
    requires BorderTree(mem, own, all, side, t, top, mem[p].height)
    requires p in t && OnBorder(side, own, top, p)
    requires p != top ==> |mem[p].kvs| > MIN_LEN
    requires |mem[b].kvs| + 1 + |mem[o].kvs| <= CAPACITY
    ensures AroundInOrder(mem, own, all, p, k)
    ensures var l, r := mem[p].edges[k], mem[p].edges[k + 1];
            var mem', own' := MergeMem(mem, p, k), MergeSpans(own, l, r);
            && BorderTree(mem', own', all, side, t - {r}, top, mem[p].height - 1)
            && OthersKept(mem, own, mem', own', t)
            && l in t && l in mem' && l != r && OnBorder(side, own', top, l) && |mem'[l].kvs| > MIN_LEN
            && own'[top] == own[top]
  {
    BorderLevel(mem, own, all, side, t, top, p, k, b, o);
    var l, r := mem[p].edges[k], mem[p].edges[k + 1];
    var mem', own', h := MergeMem(mem, p, k), MergeSpans(own, l, r), mem[p].height - 1;
    MergeWf(mem, own, all, p, k);
    MergeOneTree(mem, t, top, p, k);
    MergeOthers(mem, own, all, t, top, p, k);
    assert EdgeOk(mem, p, k) && EdgeOk(mem, p, k + 1);
    forall q | q in t - {r} ensures BorderLenOk(mem', own', side, top, h, q) {
      assert BorderLenOk(mem, own, side, top, mem[p].height, q);
    }
  }

  lemma BorderSteal(mem: Mem, own: Spans, all: seq<KV>, side: Side, t: set<Ptr>, top: Ptr, p: Ptr, k: nat, b: Ptr, o: Ptr, n: nat)
    requires BorderPair(mem, side, p, k, b, o)
    requires BorderTree(mem, own, all, side, t, top, mem[p].height)
    requires p in t && OnBorder(side, own, top, p)
    requires CanRebalance(mem, p, k, n)
    requires MIN_LEN <= n <= CAPACITY && MIN_LEN <= |BothKvs(mem, p, k)| - n - 1 <= CAPACITY
    requires p != top ==> |mem[p].kvs| >= MIN_LEN
    ensures AroundInOrder(mem, own, all, p, k)
    ensures var l, r, x := mem[p].edges[k], mem[p].edges[k + 1], Border(mem, own, p, k, n);
            var mem', own' := RebalanceMem(mem, p, k, n), BorderSpans(own, l, r, x);
            && BorderTree(mem', own', all, side, t, top, mem[p].height - 1)
            && OthersKept(mem, own, mem', own', t)
            && b in t && b in mem' && OnBorder(side, own', top, b) && own'[top] == own[top]
  {
    BorderLevel(mem, own, all, side, t, top, p, k, b, o);
    var l, r, x := mem[p].edges[k], mem[p].edges[k + 1], Border(mem, own, p, k, n);
    var mem', own', h := RebalanceMem(mem, p, k, n), BorderSpans(own, l, r, x), mem[p].height - 1;
    RebalanceWf(mem, own, all, p, k, n);
    RebalanceOneTree(mem, t, top, p, k, n);
    RebalanceOthers(mem, own, all, t, top, p, k, n, x);
    assert EdgeOk(mem, p, k) && EdgeOk(mem, p, k + 1);
    forall q | q in t ensures BorderLenOk(mem', own', side, top, h, q) {
      assert BorderLenOk(mem, own, side, top, mem[p].height, q);
    }
  }

  /** Nothing to do on this level. */
  lemma BorderPass(mem: Mem, own: Spans, all: seq<KV>, side: Side, t: set<Ptr>, top: Ptr, p: Ptr, k: nat, b: Ptr, o: Ptr)
    requires BorderPair(mem, side, p, k, b, o)
    requires BorderTree(mem, own, all, side, t, top, mem[p].height)
    requires p in t && OnBorder(side, own, top, p)
    requires |mem[b].kvs| >= MIN_LEN && (p != top ==> |mem[p].kvs| >= MIN_LEN)
    ensures BorderTree(mem, own, all, side, t, top, mem[p].height - 1)
    ensures b in t && b in mem && OnBorder(side, own, top, b)
  {
    BorderLevel(mem, own, all, side, t, top, p, k, b, o);
    var h := mem[p].height - 1;
    forall q | q in t ensures BorderLenOk(mem, own, side, top, h, q) {
      assert BorderLenOk(mem, own, side, top, mem[p].height, q);
    }
  }

  // ----- the top -----

  lemma PopBorder(mem: Mem, own: Spans, all: seq<KV>, side: Side, t: set<Ptr>, top: Ptr, h: nat)
    requires BorderTree(mem, own, all, side, t, top, h)
    requires mem[top].height > 0 && mem[top].kvs == []
    ensures EmptyRoot(mem, top)
    ensures var mem', own', c := PopLevelMem(mem, top), own - {top}, mem[top].edges[0];
            && BorderTree(mem', own', all, side, t - {top}, c, h)
            && OthersKept(mem, own, mem', own', t)
            && own'[c] == own[top] && mem'[c].height == mem[top].height - 1
  {
    assert EdgesOk(mem, top) && EdgeOk(mem, top, 0);
    PopLevelWf(mem, own, all, top);
    PopOneTree(mem, own, all, t, top);
    var mem', own', c := PopLevelMem(mem, top), own - {top}, mem[top].edges[0];
    forall q | q in t - {top} ensures BorderLenOk(mem', own', side, c, h, q) {
      assert BorderLenOk(mem, own, side, top, h, q);
    }
  }

  /** The root is above everything else, so no level from it up matters. */
  lemma BorderBelowTop(mem: Mem, own: Spans, all: seq<KV>, side: Side, t: set<Ptr>, top: Ptr, h: nat)
    requires BorderTree(mem, own, all, side, t, top, h)
    ensures BorderTree(mem, own, all, side, t, top, mem[top].height)
  {
    var h' := mem[top].height;
    forall q | q in t ensures BorderLenOk(mem, own, side, top, h', q) {
      assert BorderLenOk(mem, own, side, top, h, q) && UnderRoot(mem, t, top, q);
    }
  }

  lemma BorderDone(mem: Mem, own: Spans, all: seq<KV>, side: Side, t: set<Ptr>, top: Ptr)
    requires BorderTree(mem, own, all, side, t, top, 0)
    requires mem[top].height > 0 ==> |mem[top].kvs| > 0
    ensures TreeOk(mem, own, all, t, top)
  {
    forall q | q in t ensures LenOk(mem, top, q) { assert BorderLenOk(mem, own, side, top, 0, q); }
  }

  lemma NoOthers(mem: Mem, own: Spans, all: seq<KV>, t: set<Ptr>)
    requires Wf(mem, own, all)
    ensures OthersKept(mem, own, mem, own, t)
  {
    forall q | q in mem && q !in t ensures OtherKept(mem, own, mem, own, q) {
      assert NodeOrderOk(mem, own, own, all, q);
    }
  }

  // ----- two trees side by side -----

  /** The tree `t` stays a tree while the nodes outside it, `u`, become `u'`. */
  lemma OneTreeBeside(mem: Mem, own: Spans, t: set<Ptr>, top: Ptr, u: set<Ptr>, mem': Mem, own': Spans, u': set<Ptr>, top': Ptr)
    requires OneTree(mem, t, top) && t !! u && t + u == mem.Keys
    requires OthersKept(mem, own, mem', own', u) && OneTree(mem', u', top') && u' <= u && mem'.Keys == t + u'
    ensures OneTree(mem', t, top)
  {
    forall q | q in t ensures mem'[q] == mem[q] && q in mem {
      assert OtherKept(mem, own, mem', own', q);
    }
    forall q | q in t ensures UnderRoot(mem', t, top, q) { assert UnderRoot(mem, t, top, q); }
    forall q | q in mem' ensures SameTree(mem', t, q) { assert SameTree(mem', u', q) && SameTree(mem, t, q); }
  }

  lemma BorderTreeBeside(mem: Mem, own: Spans, all: seq<KV>, side: Side, t: set<Ptr>, top: Ptr, h: nat, u: set<Ptr>,
                         mem': Mem, own': Spans, u': set<Ptr>, top': Ptr)
    requires BorderTree(mem, own, all, side, t, top, h) && t !! u && t + u == mem.Keys
    requires OthersKept(mem, own, mem', own', u) && TreeOk(mem', own', all, u', top') && u' <= u && mem'.Keys == t + u'
    ensures BorderTree(mem', own', all, side, t, top, h) && mem'[top] == mem[top] && own'[top] == own[top]
  {
    OneTreeBeside(mem, own, t, top, u, mem', own', u', top');
    assert OtherKept(mem, own, mem', own', top);
    forall q | q in t ensures BorderLenOk(mem', own', side, top, h, q) {
      assert OtherKept(mem, own, mem', own', q) && BorderLenOk(mem, own, side, top, h, q);
    }
  }

  lemma TreeBeside(mem: Mem, own: Spans, all: seq<KV>, t: set<Ptr>, top: Ptr, u: set<Ptr>,
                   mem': Mem, own': Spans, u': set<Ptr>, top': Ptr)
    requires TreeOk(mem, own, all, t, top) && t !! u && t + u == mem.Keys
    requires OthersKept(mem, own, mem', own', u) && TreeOk(mem', own', all, u', top') && u' <= u && mem'.Keys == t + u'
    ensures TreeOk(mem', own', all, t, top) && mem'[top] == mem[top] && own'[top] == own[top]
  {
    OneTreeBeside(mem, own, t, top, u, mem', own', u', top');
    assert OtherKept(mem, own, mem', own', top);
    forall q | q in t ensures LenOk(mem', top, q) {
      assert OtherKept(mem, own, mem', own', q) && LenOk(mem, top, q);
    }
  }
}
