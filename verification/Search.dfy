/** Looking up a key, and finding the two leaf edges that delimit a range of keys. */
module Search {
  import opened NodeStore
  import opened Ranks

  datatype IndexResult = KVIdx(idx: nat) | EdgeIdx(idx: nat)

  datatype SearchResult = Found(node: Ptr, idx: nat) | GoDown(node: Ptr, idx: nat)

  /** The pair with `key`, or the edge where it belongs, from edge `start` on. */
  method FindKeyIndex(kvs: seq<KV>, key: int, start: nat) returns (r: IndexResult)
    requires start <= |kvs|
    ensures start <= r.idx <= |kvs|
    ensures forall j :: start <= j < r.idx ==> kvs[j].key < key
    ensures match r
            case KVIdx(i) => i < |kvs| && kvs[i].key == key
            case EdgeIdx(i) => i < |kvs| ==> key < kvs[i].key
  {
    for i := start to |kvs|
      invariant forall j :: start <= j < i ==> kvs[j].key < key
    {
      if kvs[i].key == key { return KVIdx(i); }
      if key < kvs[i].key { return EdgeIdx(i); }
    }
    return EdgeIdx(|kvs|);
  }

  /** Finds the pair with `key`, or the leaf edge where it belongs. */
  method SearchTree(mem: Mem, ghost own: Spans, ghost all: seq<KV>, top: Ptr, key: int) returns (res: SearchResult)
    requires Wf(mem, own, all) && Ascending(all)
    requires top in mem && top in own && Between(all, own[top], key)
    ensures res.node in mem && res.node in own
    ensures match res
            case Found(p, i) => i < |mem[p].kvs| && mem[p].kvs[i].key == key
            case GoDown(p, i) =>
              && mem[p].height == 0 && i <= |mem[p].kvs| && own[p].lo + i <= |all|
              && Between(all, Span(own[p].lo + i, own[p].lo + i), key)
  {
    var p := top;
    while true
      invariant p in mem && p in own && Between(all, own[p], key)
      decreases mem[p].height
    {
      var r := FindKeyIndex(mem[p].kvs, key, 0);
      if r.KVIdx? { return Found(p, r.idx); }
      if mem[p].height == 0 {
        BetweenEdge(mem, own, all, p, r.idx, key);
        return GoDown(p, r.idx);
      }
      BetweenChild(mem, own, all, p, r.idx, key);
      p := mem[p].edges[r.idx];
    }
  }

  // ----- bounds -----

  /** A bound of the range that the caller asks for. */
  datatype Bound = BoundIncluded(key: int) | BoundExcluded(key: int) | Unbounded

  /** A bound on the way down: it may have become trivial. */
  datatype SearchBound = Included(key: int) | Excluded(key: int) | AllIncluded | AllExcluded

  function FromRange(b: Bound): SearchBound {
    match b
    case BoundIncluded(k) => Included(k)
    case BoundExcluded(k) => Excluded(k)
    case Unbounded => AllIncluded
  }

  ghost predicate InRange(start: Bound, end: Bound, key: int) {
    && (start.BoundIncluded? ==> start.key <= key) && (start.BoundExcluded? ==> start.key < key)
    && (end.BoundIncluded? ==> key <= end.key) && (end.BoundExcluded? ==> key < end.key)
  }

  /** As a lower bound, `b` shuts `key` out. */
  ghost predicate Before(b: SearchBound, key: int) {
    match b
    case Included(k) => key < k
    case Excluded(k) => key <= k
    case AllIncluded => false
    case AllExcluded => true
  }

  /** As an upper bound, `b` lets `key` in. */
  ghost predicate Within(b: SearchBound, key: int) {
    match b
    case Included(k) => key <= k
    case Excluded(k) => key < k
    case AllIncluded => true
    case AllExcluded => false
  }

  ghost predicate AscendingKeys(kvs: seq<KV>) {
    forall i, j :: 0 <= i < j < |kvs| ==> kvs[i].key < kvs[j].key
  }

  /** Keys that can be below edge `i`. */
  ghost predicate AtEdge(kvs: seq<KV>, i: nat, key: int) {
    && i <= |kvs|
    && (forall j :: 0 <= j < i ==> kvs[j].key < key)
    && (forall j :: i <= j < |kvs| ==> key < kvs[j].key)
  }

  /** The edge delimiting a lower bound, and the bound to go on with below that edge. */
  method FindLowerBoundIndex(kvs: seq<KV>, bound: SearchBound) returns (i: nat, childBound: SearchBound)
    requires AscendingKeys(kvs)
    ensures i <= |kvs|
    ensures forall j :: 0 <= j < |kvs| ==> (Before(bound, kvs[j].key) <==> j < i)
    ensures forall key :: AtEdge(kvs, i, key) ==> (Before(childBound, key) <==> Before(bound, key))
  {
    match bound {
      case Included(key) =>
        var r := FindKeyIndex(kvs, key, 0);
        match r {
          case KVIdx(idx) => return idx, AllExcluded;
          case EdgeIdx(idx) => return idx, bound;
        }
      case Excluded(key) =>
        var r := FindKeyIndex(kvs, key, 0);
        match r {
          case KVIdx(idx) => return idx + 1, AllIncluded;
          case EdgeIdx(idx) => return idx, bound;
        }
      case AllIncluded => return 0, AllIncluded;
      case AllExcluded => return |kvs|, AllExcluded;
    }
  }

  /** The mirror image, from edge `start` on; everything before that is known to be within. */
  method FindUpperBoundIndex(kvs: seq<KV>, bound: SearchBound, start: nat) returns (i: nat, childBound: SearchBound)
    requires AscendingKeys(kvs) && start <= |kvs|
    requires forall j :: 0 <= j < start ==> Within(bound, kvs[j].key)
    ensures start <= i <= |kvs|
    ensures forall j :: 0 <= j < |kvs| ==> (Within(bound, kvs[j].key) <==> j < i)
    ensures forall key :: AtEdge(kvs, i, key) ==> (Within(childBound, key) <==> Within(bound, key))
  {
    match bound {
      case Included(key) =>
        var r := FindKeyIndex(kvs, key, start);
        match r {
          case KVIdx(idx) => return idx + 1, AllExcluded;
          case EdgeIdx(idx) => return idx, bound;
        }
      case Excluded(key) =>
        var r := FindKeyIndex(kvs, key, start);
        match r {
          case KVIdx(idx) => return idx, AllIncluded;
          case EdgeIdx(idx) => return idx, bound;
        }
      case AllIncluded => return |kvs|, AllIncluded;
      case AllExcluded => return start, AllExcluded;
    }
  }

  // ----- ranks of bounds -----

  /** In the span `s`, the lower bound `b` cuts at rank `r`. */
  ghost predicate LowerAt(all: seq<KV>, s: Span, b: SearchBound, r: nat) {
    s.lo <= r <= s.hi <= |all| && forall x :: s.lo <= x < s.hi ==> (Before(b, all[x].key) <==> x < r)
  }

  ghost predicate UpperAt(all: seq<KV>, s: Span, b: SearchBound, r: nat) {
    s.lo <= r <= s.hi <= |all| && forall x :: s.lo <= x < s.hi ==> (Within(b, all[x].key) <==> x < r)
  }

  /** Edge `i` of `p` leads to rank `r`: it is that rank's edge or its child holds that rank. */
  ghost predicate LeadsTo(mem: Mem, own: Spans, p: Ptr, i: nat, r: nat) {
    && p in mem && p in own && i <= |mem[p].kvs|
    && if mem[p].height == 0 then own[p].lo + i == r
       else i < |mem[p].edges| && mem[p].edges[i] in own && own[mem[p].edges[i]].lo <= r <= own[mem[p].edges[i]].hi
  }

  lemma NodeAscending(mem: Mem, own: Spans, all: seq<KV>, p: Ptr)
    requires Wf(mem, own, all) && Ascending(all) && p in mem
    ensures AscendingKeys(mem[p].kvs)
  {
    forall i, j | 0 <= i < j < |mem[p].kvs| ensures mem[p].kvs[i].key < mem[p].kvs[j].key {
      var x := PairInside(mem, own, all, p, i);
      var y := PairInside(mem, own, all, p, j);
      PairsAscend(mem, own, all, p, i, j, x, y);
    }
  }

  lemma PairsAscend(mem: Mem, own: Spans, all: seq<KV>, p: Ptr, i: nat, j: nat, x: nat, y: nat)
    requires Wf(mem, own, all) && PairAt(mem, own, p, i, x) && PairAt(mem, own, p, j, y) && i < j
    ensures x < y
  {
    assert NodeOrderOk(mem, own, own, all, p) && EdgesOk(mem, p);
    if mem[p].height > 0 {
      LaidApart(mem[p].edges, mem[p].kvs, own, all, own[p], i, j);
      assert ProperSpan(own, mem[p].edges[j]) && ProperSpan(own, mem[p].edges[i]);
    }
  }

  /** The ranks below edge `i` are the ranks between the pairs beside it. */
  lemma EdgeRanks(mem: Mem, own: Spans, all: seq<KV>, p: Ptr, i: nat) returns (s: Span)
    requires Wf(mem, own, all) && Ascending(all) && p in mem && i <= |mem[p].kvs|
    ensures p in own && own[p].lo <= s.lo <= s.hi <= own[p].hi <= |all|
    ensures if mem[p].height == 0 then s == Span(own[p].lo + i, own[p].lo + i)
            else i < |mem[p].edges| && mem[p].edges[i] in own && mem[p].edges[i] in mem && s == own[mem[p].edges[i]]
                 && mem[mem[p].edges[i]].height + 1 == mem[p].height
    ensures if i > 0 then s.lo > own[p].lo && all[s.lo - 1] == mem[p].kvs[i - 1] else s.lo == own[p].lo
    ensures if i < |mem[p].kvs| then s.hi < own[p].hi && all[s.hi] == mem[p].kvs[i] else s.hi == own[p].hi
    ensures forall x :: s.lo <= x < s.hi ==> AtEdge(mem[p].kvs, i, all[x].key)
  {
    var n := mem[p];
    assert NodeOrderOk(mem, own, own, all, p) && EdgesOk(mem, p);
    NodeAscending(mem, own, all, p);
    if n.height == 0 {
      s := Span(own[p].lo + i, own[p].lo + i);
    } else {
      assert EdgeOk(mem, p, i);
      LaidInside(n.edges, n.kvs, own, all, own[p], i);
      s := own[n.edges[i]];
      if i > 0 { assert PairOk(n.edges, n.kvs, own, all, i - 1) && ProperSpan(own, n.edges[i - 1]); LaidInside(n.edges, n.kvs, own, all, own[p], i - 1); }
      if i < |n.kvs| { assert PairOk(n.edges, n.kvs, own, all, i); }
    }
  }

  /** One step down with a lower bound. */
  lemma LowerStep(mem: Mem, own: Spans, all: seq<KV>, p: Ptr, b: SearchBound, r: nat, i: nat, b': SearchBound)
    requires Wf(mem, own, all) && Ascending(all) && p in mem && p in own && LowerAt(all, own[p], b, r)
    requires i <= |mem[p].kvs| && forall j :: 0 <= j < |mem[p].kvs| ==> (Before(b, mem[p].kvs[j].key) <==> j < i)
    requires forall key :: AtEdge(mem[p].kvs, i, key) ==> (Before(b', key) <==> Before(b, key))
    ensures LeadsTo(mem, own, p, i, r)
    ensures mem[p].height > 0 ==> mem[p].edges[i] in mem && mem[mem[p].edges[i]].height + 1 == mem[p].height
                                  && LowerAt(all, own[mem[p].edges[i]], b', r)
  {
    var s := EdgeRanks(mem, own, all, p, i);
    if i > 0 { assert Before(b, all[s.lo - 1].key); }
    if i < |mem[p].kvs| { assert !Before(b, all[s.hi].key); }
  }

  lemma UpperStep(mem: Mem, own: Spans, all: seq<KV>, p: Ptr, b: SearchBound, r: nat, i: nat, b': SearchBound)
    requires Wf(mem, own, all) && Ascending(all) && p in mem && p in own && UpperAt(all, own[p], b, r)
    requires i <= |mem[p].kvs| && forall j :: 0 <= j < |mem[p].kvs| ==> (Within(b, mem[p].kvs[j].key) <==> j < i)
    requires forall key :: AtEdge(mem[p].kvs, i, key) ==> (Within(b', key) <==> Within(b, key))
    ensures LeadsTo(mem, own, p, i, r)
    ensures mem[p].height > 0 ==> mem[p].edges[i] in mem && mem[mem[p].edges[i]].height + 1 == mem[p].height
                                  && UpperAt(all, own[mem[p].edges[i]], b', r)
  {
    var s := EdgeRanks(mem, own, all, p, i);
    if i > 0 { assert Within(b, all[s.lo - 1].key); }
    if i < |mem[p].kvs| { assert !Within(b, all[s.hi].key); }
  }

  /** A lower bound's pairs come before an upper bound's end if it is so all over the node. */
  lemma StartWithin(mem: Mem, own: Spans, all: seq<KV>, p: Ptr, lower: SearchBound, upper: SearchBound, lo: nat, hi: nat, i: nat)
    requires Wf(mem, own, all) && Ascending(all) && p in mem && p in own
    requires LowerAt(all, own[p], lower, lo) && UpperAt(all, own[p], upper, hi) && lo <= hi
    requires i <= |mem[p].kvs| && forall j :: 0 <= j < |mem[p].kvs| ==> (Before(lower, mem[p].kvs[j].key) <==> j < i)
    ensures forall j :: 0 <= j < i ==> Within(upper, mem[p].kvs[j].key)
  {
    forall j | 0 <= j < i ensures Within(upper, mem[p].kvs[j].key) {
      var x := PairInside(mem, own, all, p, j);
    }
  }

  /** The number of pairs a lower bound shuts out. */
  lemma {:induction false} LowerRank(all: seq<KV>, b: SearchBound) returns (r: nat)
    requires Ascending(all)
    ensures LowerAt(all, Span(0, |all|), b, r)
  {
    r := 0;
    while r < |all| && Before(b, all[r].key)
      invariant r <= |all| && forall x :: 0 <= x < r ==> Before(b, all[x].key)
    {
      r := r + 1;
    }
  }

  lemma {:induction false} UpperRank(all: seq<KV>, b: SearchBound) returns (r: nat)
    requires Ascending(all)
    ensures UpperAt(all, Span(0, |all|), b, r)
  {
    r := 0;
    while r < |all| && Within(b, all[r].key)
      invariant r <= |all| && forall x :: 0 <= x < r ==> Within(b, all[x].key)
    {
      r := r + 1;
    }
  }

  // ----- the range -----

  datatype RangeResult = Panic | NoEdges | LeafRange(front: Ptr, frontIdx: nat, back: Ptr, backIdx: nat)

  /** Bounds no caller should ask for. */
  predicate Impossible(start: Bound, end: Bound) {
    || (start.BoundExcluded? && end.BoundExcluded? && start.key == end.key)
    || (!start.Unbounded? && !end.Unbounded? && start.key > end.key)
  }

  /** Where the range is: pairs `lo` to `hi` are the ones in it, and the bounds are there. */
  ghost predicate Delimits(all: seq<KV>, start: Bound, end: Bound, lo: nat, hi: nat) {
    && lo <= hi <= |all|
    && forall x :: 0 <= x < |all| ==> (InRange(start, end, all[x].key) <==> lo <= x < hi)
  }

  lemma RangeRanks(all: seq<KV>, start: Bound, end: Bound) returns (lo: nat, hi: nat)
    requires Ascending(all) && !Impossible(start, end)
    ensures LowerAt(all, Span(0, |all|), FromRange(start), lo) && UpperAt(all, Span(0, |all|), FromRange(end), hi)
    ensures Delimits(all, start, end, lo, hi)
  {
    lo := LowerRank(all, FromRange(start));
    hi := UpperRank(all, FromRange(end));
    // The first pair that the upper bound shuts out is not before the lower bound.
    assert hi < |all| ==> !Within(FromRange(end), all[hi].key) && !Before(FromRange(start), all[hi].key);
  }

  datatype Bifurcation = Fork(node: Ptr, lower: nat, upper: nat, lowerBound: SearchBound, upperBound: SearchBound) | NoFork

  /** Both edges in one node; different ones only if a pair in between is in the range. */
  method FindBothIndices(mem: Mem, ghost own: Spans, ghost all: seq<KV>, p: Ptr, lower: SearchBound, upper: SearchBound, ghost lo: nat, ghost hi: nat)
      returns (i: nat, lb: SearchBound, j: nat, ub: SearchBound)
    requires Wf(mem, own, all) && Ascending(all) && p in mem && p in own
    requires LowerAt(all, own[p], lower, lo) && UpperAt(all, own[p], upper, hi) && lo <= hi
    ensures i <= j && LeadsTo(mem, own, p, i, lo) && LeadsTo(mem, own, p, j, hi)
    ensures i < j ==> lo < hi
    ensures mem[p].height > 0 ==>
              && mem[p].edges[i] in mem && mem[p].edges[j] in mem
              && mem[mem[p].edges[i]].height == mem[mem[p].edges[j]].height == mem[p].height - 1
              && LowerAt(all, own[mem[p].edges[i]], lb, lo) && UpperAt(all, own[mem[p].edges[j]], ub, hi)
  {
    NodeAscending(mem, own, all, p);
    i, lb := FindLowerBoundIndex(mem[p].kvs, lower);
    StartWithin(mem, own, all, p, lower, upper, lo, hi, i);
    j, ub := FindUpperBoundIndex(mem[p].kvs, upper, i);
    LowerStep(mem, own, all, p, lower, lo, i, lb);
    UpperStep(mem, own, all, p, upper, hi, j, ub);
    if i < j { ghost var x := PairInside(mem, own, all, p, i); }
  }

  /** Goes down to the first node in which the range spans a pair. */
  method SearchTreeForBifurcation(mem: Mem, ghost own: Spans, ghost all: seq<KV>, top: Ptr, start: SearchBound, end: SearchBound,
                                  ghost lo: nat, ghost hi: nat) returns (res: Bifurcation)
    requires Wf(mem, own, all) && Ascending(all) && top in mem && top in own
    requires LowerAt(all, own[top], start, lo) && UpperAt(all, own[top], end, hi) && lo <= hi
    ensures res.NoFork? <==> lo == hi
    ensures res.Fork? ==>
              var Fork(p, i, j, lb, ub) := res;
              && LeadsTo(mem, own, p, i, lo) && LeadsTo(mem, own, p, j, hi)
              && (mem[p].height > 0 ==>
                    && mem[p].edges[i] in mem && mem[p].edges[j] in mem
                    && mem[mem[p].edges[i]].height == mem[mem[p].edges[j]].height == mem[p].height - 1
                    && LowerAt(all, own[mem[p].edges[i]], lb, lo) && UpperAt(all, own[mem[p].edges[j]], ub, hi))
  {
    var p, lower, upper := top, start, end;
    while true
      invariant p in mem && p in own && LowerAt(all, own[p], lower, lo) && UpperAt(all, own[p], upper, hi)
      decreases mem[p].height
    {
      var i, lb, j, ub := FindBothIndices(mem, own, all, p, lower, upper, lo, hi);
      if i < j { return Fork(p, i, j, lb, ub); }
      if mem[p].height == 0 { return NoFork; }
      p, lower, upper := mem[p].edges[i], lb, ub;
    }
  }

  /** Goes down from a fork on both sides to the leaf edges of ranks `lo` and `hi`. */
  method DescendBoth(mem: Mem, ghost own: Spans, ghost all: seq<KV>, fork: Bifurcation, ghost lo: nat, ghost hi: nat)
      returns (f: Ptr, i: nat, b: Ptr, j: nat)
    requires Wf(mem, own, all) && Ascending(all) && fork.Fork?
    requires LeadsTo(mem, own, fork.node, fork.lower, lo) && LeadsTo(mem, own, fork.node, fork.upper, hi)
    requires var Fork(p, i, j, lb, ub) := fork;
             mem[p].height > 0 ==>
               && mem[p].edges[i] in mem && mem[p].edges[j] in mem
               && mem[mem[p].edges[i]].height == mem[mem[p].edges[j]].height == mem[p].height - 1
               && LowerAt(all, own[mem[p].edges[i]], lb, lo) && UpperAt(all, own[mem[p].edges[j]], ub, hi)
    ensures LeadsTo(mem, own, f, i, lo) && mem[f].height == 0
    ensures LeadsTo(mem, own, b, j, hi) && mem[b].height == 0
  {
    var lower, upper := fork.lowerBound, fork.upperBound;
    f, i, b, j := fork.node, fork.lower, fork.node, fork.upper;
    while mem[f].height > 0
      invariant LeadsTo(mem, own, f, i, lo) && LeadsTo(mem, own, b, j, hi) && mem[f].height == mem[b].height
      invariant mem[f].height > 0 ==>
                  && mem[f].edges[i] in mem && mem[b].edges[j] in mem
                  && mem[mem[f].edges[i]].height == mem[mem[b].edges[j]].height == mem[f].height - 1
                  && LowerAt(all, own[mem[f].edges[i]], lower, lo) && UpperAt(all, own[mem[b].edges[j]], upper, hi)
      decreases mem[f].height
    {
      f, i, lower := LowerBoundEdge(mem, own, all, mem[f].edges[i], lower, lo);
      b, j, upper := UpperBoundEdge(mem, own, all, mem[b].edges[j], upper, hi);
    }
  }

  method LowerBoundEdge(mem: Mem, ghost own: Spans, ghost all: seq<KV>, p: Ptr, bound: SearchBound, ghost r: nat)
      returns (q: Ptr, i: nat, childBound: SearchBound)
    requires Wf(mem, own, all) && Ascending(all) && p in mem && p in own && LowerAt(all, own[p], bound, r)
    ensures q == p && LeadsTo(mem, own, q, i, r)
    ensures mem[q].height > 0 ==> mem[q].edges[i] in mem && mem[mem[q].edges[i]].height + 1 == mem[q].height
                                  && LowerAt(all, own[mem[q].edges[i]], childBound, r)
  {
    NodeAscending(mem, own, all, p);
    q := p;
    i, childBound := FindLowerBoundIndex(mem[p].kvs, bound);
    LowerStep(mem, own, all, p, bound, r, i, childBound);
  }

  method UpperBoundEdge(mem: Mem, ghost own: Spans, ghost all: seq<KV>, p: Ptr, bound: SearchBound, ghost r: nat)
      returns (q: Ptr, i: nat, childBound: SearchBound)
    requires Wf(mem, own, all) && Ascending(all) && p in mem && p in own && UpperAt(all, own[p], bound, r)
    ensures q == p && LeadsTo(mem, own, q, i, r)
    ensures mem[q].height > 0 ==> mem[q].edges[i] in mem && mem[mem[q].edges[i]].height + 1 == mem[q].height
                                  && UpperAt(all, own[mem[q].edges[i]], childBound, r)
  {
    NodeAscending(mem, own, all, p);
    q := p;
    i, childBound := FindUpperBoundIndex(mem[p].kvs, bound, 0);
    UpperStep(mem, own, all, p, bound, r, i, childBound);
  }

  /** The leaf edges that delimit the pairs in a range of keys: none if no pair is in the range, and
      otherwise the edges right before the first of them and right after the last. */
  method FindLeafEdgesSpanningRange(mem: Mem, ghost own: Spans, ghost all: seq<KV>, root: Ptr, start: Bound, end: Bound) returns (res: RangeResult)
    requires BTreeOk(mem, own, all, root) && Ascending(all)
    ensures res.Panic? <==> Impossible(start, end)
    ensures res.NoEdges? <==> !Impossible(start, end) && forall x :: 0 <= x < |all| ==> !InRange(start, end, all[x].key)
    ensures res.LeafRange? ==>
              && res.front in mem && res.back in mem && res.front in own && res.back in own
              && mem[res.front].height == 0 && res.frontIdx <= |mem[res.front].kvs|
              && mem[res.back].height == 0 && res.backIdx <= |mem[res.back].kvs|
              && own[res.front].lo + res.frontIdx < own[res.back].lo + res.backIdx
              && Delimits(all, start, end, own[res.front].lo + res.frontIdx, own[res.back].lo + res.backIdx)
  {
    if Impossible(start, end) { return Panic; }
    ghost var lo, hi := RangeRanks(all, start, end);
    var fork := SearchTreeForBifurcation(mem, own, all, root, FromRange(start), FromRange(end), lo, hi);
    if fork.NoFork? { return NoEdges; }
    assert InRange(start, end, all[lo].key);
    var f, i, b, j := DescendBoth(mem, own, all, fork, lo, hi);
    res := LeafRange(f, i, b, j);
  }
}
