/** The map: search, insertion and removal on the node memory, as `SelfAllocatedBTreeMap` does
    them, each proved against the in-order sequence of pairs. */
module BTreeMap {
  import opened NodeStore
  import opened NodeCounts
  import opened Rebalance
  import opened Growth
  import opened Ranks
  import opened Search
  import opened Insertion
  import opened Removal
  import opened SplitOff
  import opened Borders
  import opened BulkPush
  import opened MergeIter
  import IntoIter

  /** What a node was fixed with: nothing more to do, a shrunk parent, or an empty root. */
  datatype FixResult = Done | Shrunk(parent: Ptr) | EmptyTop

  /** Where a key is in the map or, if it is not, the leaf edge where it belongs. */
  datatype Entry = Occupied(node: Ptr, idx: nat) | VacantEmpty | Vacant(leaf: Ptr, edge: nat)

  datatype MaybeSplit = NoSplit | SplitAt(left: Ptr, kv: KV, right: Ptr)

  class SelfAllocatedBTreeMap {
    var mem: Mem
    var root: MaybeRoot
    var length: nat
    var counts: SelfAllocatedMemory
    /** The span of every node, and the pairs in order. */
    ghost var own: Spans
    ghost var all: seq<KV>

    ghost predicate Valid()
      reads this
    {
      && Ascending(all)
      && length == |all|
      && Counted(mem, counts)
      && (match root
          case NoRoot => mem == map[] && all == []
          case Root(r) => BTreeOk(mem, own, all, r))
    }

    ghost function Contents(): map<int, int>
      reads this
    {
      AsMap(all)
    }

    constructor ()
      ensures Valid() && Contents() == map[] && root == NoRoot
    {
      mem, root, length := map[], NoRoot, 0;
      counts := SelfAllocatedMemory(Slot(0, 0), Slot(0, 0));
      own, all := map[], [];
    }

    // ----- single nodes -----

    method CorrectChildrensParentLinks(p: Ptr, from: nat, end: nat, ghost t: Mem)
      requires PointersOk(t) && p in t && EdgesOk(t, p)
      requires p in mem && mem[p].edges == t[p].edges && from <= end <= |mem[p].edges|
      requires forall i :: from <= i < end ==> mem[p].edges[i] in mem
      modifies this`mem
      ensures mem == SetLinks(old(mem), t, p, from, end)
    {
      ghost var m0 := mem;
      var i := from;
      assert m0 == SetLinks(m0, t, p, from, from);
      while i < end
        invariant from <= i <= end
        invariant mem == SetLinks(m0, t, p, from, i)
        invariant mem.Keys == m0.Keys && mem[p].edges == t[p].edges
      {
        SetLinksNext(m0, t, p, from, i);
        var c := mem[p].edges[i];
        mem := mem[c := mem[c].(link := Child(p, i))];
        i := i + 1;
      }
    }

    method DoMerge(p: Ptr, k: nat)
      requires Around(mem, p, k) && Counted(mem, counts)
      requires |mem[mem[p].edges[k]].kvs| + 1 + |mem[mem[p].edges[k + 1]].kvs| <= CAPACITY
      modifies this`mem, this`counts
      ensures mem == MergeMem(old(mem), p, k) && Counted(mem, counts)
    {
      MergeCounted(mem, p, k, counts);
      counts := counts.Dec(NodeSize(mem[mem[p].edges[k + 1]].height));
      MergeNodes(p, k);
    }

    method MergeNodes(p: Ptr, k: nat)
      requires Around(mem, p, k)
      modifies this`mem
      ensures mem == MergeMem(old(mem), p, k)
    {
      ghost var t := MergePlan(mem, p, k);
      var n := mem[p];
      var l, r := n.edges[k], n.edges[k + 1];
      var leftLen := |mem[l].kvs|;
      mem := mem[l := mem[l].(kvs := mem[l].kvs + [n.kvs[k]] + mem[r].kvs)]
                [p := n.(kvs := n.kvs[..k] + n.kvs[k + 1..], edges := n.edges[..k + 1] + n.edges[k + 2..])];
      CorrectChildrensParentLinks(p, k + 1, |n.kvs|, t);
      if n.height > 1 {
        mem := mem[l := mem[l].(edges := mem[l].edges + mem[r].edges)];
        CorrectChildrensParentLinks(l, leftLen + 1, |mem[l].edges|, t);
      }
      mem := mem - {r};
    }

    method BulkStealLeft(p: Ptr, k: nat, count: nat)
      requires Around(mem, p, k) && count > 0
      requires count <= |mem[mem[p].edges[k]].kvs| && |mem[mem[p].edges[k + 1]].kvs| + count <= CAPACITY
      requires Counted(mem, counts)
      modifies this`mem
      ensures Counted(mem, counts)
      ensures CanRebalance(old(mem), p, k, |old(mem)[old(mem)[p].edges[k]].kvs| - count)
      ensures mem == RebalanceMem(old(mem), p, k, |old(mem)[old(mem)[p].edges[k]].kvs| - count)
    {
      var l, r := mem[p].edges[k], mem[p].edges[k + 1];
      var left, right := mem[l], mem[r];
      var newLeftLen := |left.kvs| - count;
      ghost var t := RebalanceFacts(mem, p, k, newLeftLen);
      StealLeftSlices(mem, p, k, newLeftLen);
      // The right child gets the pairs right of the one that goes up, then the parent's.
      var rightKvs := left.kvs[newLeftLen + 1..] + [mem[p].kvs[k]] + right.kvs;
      mem := mem[l := left.(kvs := left.kvs[..newLeftLen], edges := if left.height == 0 then [] else left.edges[..newLeftLen + 1])]
                [r := right.(kvs := rightKvs, edges := if left.height == 0 then [] else left.edges[newLeftLen + 1..] + right.edges)]
                [p := mem[p].(kvs := mem[p].kvs[k := left.kvs[newLeftLen]])];
      RebalanceStepIs(old(mem), p, k, newLeftLen, mem[l], mem[r], left.kvs[newLeftLen], newLeftLen + 1);
      CorrectChildrensParentLinks(r, 0, |mem[r].edges|, t);
      RebalanceStepsRebalance(old(mem), p, k, newLeftLen, newLeftLen + 1);
      RebalanceCounted(old(mem), p, k, newLeftLen, counts);
    }

    /** Links the left sibling's children from `from` on and all of the right sibling's. */
    method LinkMoved(l: Ptr, r: Ptr, from: nat, ghost t: Mem)
      requires PointersOk(t) && l in t && r in t && EdgesOk(t, l) && EdgesOk(t, r)
      requires l in mem && r in mem && mem[l].edges == t[l].edges && mem[r].edges == t[r].edges
      requires |mem[l].edges| > 0 ==> from <= |mem[l].edges|
      requires forall c :: c in t[l].edges || c in t[r].edges ==> c in mem
      modifies this`mem
      ensures mem == SetLinks(SetLinks(old(mem), t, l, from, |t[l].edges|), t, r, 0, |t[r].edges|)
    {
      if |mem[l].edges| > 0 {
        CorrectChildrensParentLinks(l, from, |mem[l].edges|, t);
      } else {
        assert mem == SetLinks(mem, t, l, from, |t[l].edges|);
      }
      CorrectChildrensParentLinks(r, 0, |mem[r].edges|, t);
    }

    method BulkStealRight(p: Ptr, k: nat, count: nat)
      requires Around(mem, p, k) && count > 0
      requires count <= |mem[mem[p].edges[k + 1]].kvs| && |mem[mem[p].edges[k]].kvs| + count <= CAPACITY
      requires Counted(mem, counts)
      modifies this`mem
      ensures Counted(mem, counts)
      ensures CanRebalance(old(mem), p, k, |old(mem)[old(mem)[p].edges[k]].kvs| + count)
      ensures mem == RebalanceMem(old(mem), p, k, |old(mem)[old(mem)[p].edges[k]].kvs| + count)
    {
      ghost var m0, leftLen := mem, |mem[mem[p].edges[k]].kvs|;
      StealRightNodes(p, k, count);
      RebalanceCounted(m0, p, k, leftLen + count, counts);
    }

    method StealRightNodes(p: Ptr, k: nat, count: nat)
      requires Around(mem, p, k) && 0 < count <= |mem[mem[p].edges[k + 1]].kvs|
      modifies this`mem
      ensures CanRebalance(old(mem), p, k, |old(mem)[old(mem)[p].edges[k]].kvs| + count)
      ensures mem == RebalanceMem(old(mem), p, k, |old(mem)[old(mem)[p].edges[k]].kvs| + count)
    {
      var l, r, leftLen := mem[p].edges[k], mem[p].edges[k + 1], |mem[mem[p].edges[k]].kvs|;
      ghost var m0 := mem;
      StealRightPairs(p, k, count);
      ghost var t := RebalanceTarget(m0, p, k, leftLen + count, leftLen + 1, mem);
      LinkMoved(l, r, leftLen + 1, t);
    }

    /** Moves pairs and edges over from the right child, without correcting any links. */
    method StealRightPairs(p: Ptr, k: nat, count: nat)
      requires Around(mem, p, k) && 0 < count <= |mem[mem[p].edges[k + 1]].kvs|
      modifies this`mem
      ensures CanRebalance(old(mem), p, k, |old(mem)[old(mem)[p].edges[k]].kvs| + count)
      ensures mem == RebalanceStep(old(mem), p, k, |old(mem)[old(mem)[p].edges[k]].kvs| + count)
    {
      var l, r := mem[p].edges[k], mem[p].edges[k + 1];
      var left, right := mem[l], mem[r];
      assert EdgesOk(mem, l) && EdgesOk(mem, r);
      StealRightSlices(mem, p, k, count);
      // The left child gets the parent's pair, then the pairs left of the one that goes up.
      var newLeft := left.(kvs := left.kvs + [mem[p].kvs[k]] + right.kvs[..count - 1],
                           edges := if left.height == 0 then [] else left.edges + right.edges[..count]);
      var newRight := right.(kvs := right.kvs[count..], edges := if left.height == 0 then [] else right.edges[count..]);
      RebalanceStepIs(mem, p, k, |left.kvs| + count, newLeft, newRight, right.kvs[count - 1], |left.kvs| + 1);
      mem := mem[l := newLeft][r := newRight][p := mem[p].(kvs := mem[p].kvs[k := right.kvs[count - 1]])];
    }

    /** Some address at which nothing is allocated. */
    method Fresh() returns (p: Ptr)
      ensures p !in mem && forall q :: q in mem && PointersOk(mem) ==> p !in mem[q].edges
    {
      FreshExists(mem.Keys);
      p :| p !in mem;
      forall q | q in mem && PointersOk(mem) ensures p !in mem[q].edges {
        assert EdgesOk(mem, q);
        forall i | 0 <= i < |mem[q].edges| ensures mem[q].edges[i] != p { assert EdgeOk(mem, q, i); }
      }
    }

    method Split(p: Ptr, m: nat) returns (new_: Ptr, kv: KV)
      requires PointersOk(mem) && p in mem && EdgesOk(mem, p) && m < |mem[p].kvs| && Counted(mem, counts)
      modifies this`mem, this`counts
      ensures CanSplit(old(mem), p, m, new_) && mem == SplitMem(old(mem), p, m, new_) && kv == old(mem)[p].kvs[m]
      ensures Counted(mem, counts)
      ensures forall q :: q in old(mem) ==> new_ !in old(mem)[q].edges
    {
      new_ := Fresh();
      var n := mem[p];
      SplitSteps(mem, p, m, new_);
      ghost var t := SplitMem(mem, p, m, new_);
      kv := n.kvs[m];
      var right := Node(n.height, n.kvs[m + 1..], if n.height == 0 then [] else n.edges[m + 1..], NoParent);
      mem := mem[p := n.(kvs := n.kvs[..m], edges := if n.height == 0 then [] else n.edges[..m + 1])][new_ := right];
      CorrectChildrensParentLinks(new_, 0, |right.edges|, t);
      SplitCounted(old(mem), p, m, new_, counts);
      counts := counts.Inc(NodeSize(n.height));
    }

    method InsertFit(p: Ptr, i: nat, kv: KV, edge: Ptr)
      requires PointersOk(mem) && CanAttach(mem, p, i, edge)
      requires |mem[p].kvs| < CAPACITY
      requires Counted(mem, counts)
      modifies this`mem
      ensures mem == AttachMem(old(mem), p, i, kv, edge) && Counted(mem, counts)
    {
      AttachSteps(mem, p, i, kv, edge);
      AttachCounted(mem, p, i, kv, edge, counts);
      ghost var t := AttachMem(mem, p, i, kv, edge);
      var n := mem[p];
      mem := mem[p := n.(kvs := n.kvs[..i] + [kv] + n.kvs[i..], edges := n.edges[..i + 1] + [edge] + n.edges[i + 1..])];
      CorrectChildrensParentLinks(p, i + 1, |mem[p].edges|, t);
    }

    /** A new root above `top`. */
    method PushInternalLevel(top: Ptr) returns (new_: Ptr)
      requires PointersOk(mem) && top in mem && mem[top].link == NoParent && Counted(mem, counts)
      modifies this`mem, this`counts
      ensures new_ !in old(mem) && mem == PushLevelMem(old(mem), top, new_) && Counted(mem, counts)
      ensures forall q :: q in old(mem) ==> new_ !in old(mem)[q].edges
    {
      new_ := Fresh();
      var height := mem[top].height + 1;
      mem := mem[new_ := Node(height, [], [top], NoParent)];
      mem := mem[top := mem[top].(link := Child(new_, 0))];
      PushLevelCounted(old(mem), top, new_, counts);
      counts := counts.Inc(NodeSize(height));
    }

    /** The root is gone, its only child is the root. */
    method PopInternalLevel(top: Ptr) returns (new_: Ptr)
      requires EmptyRoot(mem, top) && Counted(mem, counts)
      modifies this`mem, this`counts
      ensures new_ == old(mem)[top].edges[0] && mem == PopLevelMem(old(mem), top) && Counted(mem, counts)
    {
      var height := mem[top].height;
      new_ := mem[top].edges[0];
      mem := mem[new_ := mem[new_].(link := NoParent)];
      mem := mem - {top};
      PopLevelCounted(old(mem), top, counts);
      counts := counts.Dec(NodeSize(height));
    }

    // ----- insertion -----

    /** Inserts at edge `i` of leaf `p`, which has room. */
    method InsertFitLeaf(p: Ptr, i: nat, kv: KV)
      requires root.Root? && BTreeOk(mem, own, all, root.ptr) && Counted(mem, counts)
      requires p in mem && p in own && mem[p].height == 0 && i <= |mem[p].kvs| < CAPACITY
      modifies this`mem, this`own, this`all
      ensures old(own)[p].lo + i <= |old(all)| && all == InsertAt(old(all), old(own)[p].lo + i, kv)
      ensures Counted(mem, counts) && BTreeOk(mem, own, all, root.ptr)
      ensures PairAt(mem, own, p, i, old(own)[p].lo + i) && mem[p].height == 0
    {
      LeafInsertBTree(mem, own, all, root.ptr, p, i, kv);
      PairsCounted(mem, p, InsertAt(mem[p].kvs, i, kv), counts);
      mem := mem[p := mem[p].(kvs := InsertAt(mem[p].kvs, i, kv))];
      ghost var r := own[p].lo + i;
      own, all := AllUp(own, r), InsertAt(all, r, kv);
    }

    /** Inserts at edge `i` of leaf `p`, which is full and is split first. The pair ends up at `h`, `j`. */
    method InsertSplitLeaf(p: Ptr, i: nat, kv: KV) returns (up: KV, right: Ptr, h: Ptr, j: nat, ghost view: Spans)
      requires root.Root? && BTreeOk(mem, own, all, root.ptr) && Counted(mem, counts)
      requires p in mem && p in own && mem[p].height == 0 && i <= |mem[p].kvs| == CAPACITY
      modifies this`mem, this`counts, this`own, this`all
      ensures old(own)[p].lo + i <= |old(all)| && all == InsertAt(old(all), old(own)[p].lo + i, kv)
      ensures Counted(mem, counts) && PairAt(mem, own, h, j, old(own)[p].lo + i) && mem[h].height == 0
      ensures Growing(mem, own, view, all, root.ptr, p, up, right)
    {
      ghost var m0, r := mem, own[p].lo + i;
      up, right, h, j := SplitLeafNodes(p, i, kv);
      ghost var m := Splitpoint(i).0;
      LeafSplitGrowing(m0, own, all, root.ptr, p, i, kv, m, right, h, j);
      view := LeafSplitView(own, p, i, m, right);
      own, all := LeafSplitOwn(own, p, i, m, right), InsertAt(all, r, kv);
    }

    method SplitLeafNodes(p: Ptr, i: nat, kv: KV) returns (up: KV, right: Ptr, h: Ptr, j: nat)
      requires PointersOk(mem) && Counted(mem, counts)
      requires p in mem && mem[p].height == 0 && i <= |mem[p].kvs| == CAPACITY
      modifies this`mem, this`counts
      ensures LeafPlan(old(mem), p, i, Splitpoint(i).0, right, h, j) && up == old(mem)[p].kvs[Splitpoint(i).0]
      ensures j <= |SplitMem(old(mem), p, Splitpoint(i).0, right)[h].kvs|
      ensures mem == LeafSplitMem(old(mem), p, Splitpoint(i).0, right, h, j, kv) && Counted(mem, counts)
    {
      assert EdgesOk(mem, p);
      var (m, side) := Splitpoint(i);
      right, up := Split(p, m);
      h, j := (if side.Left? then p else right), side.idx;
      PairsCounted(mem, h, InsertAt(mem[h].kvs, j, kv), counts);
      mem := mem[h := mem[h].(kvs := InsertAt(mem[h].kvs, j, kv))];
    }

    /** Inserts `kv` and `edge` right of edge `i` of `p`, which has room. */
    method InsertFitInternal(p: Ptr, i: nat, kv: KV, edge: Ptr, ghost top: Ptr, ghost left: Ptr, ghost view: Spans)
      requires Growing(mem, own, view, all, top, left, kv, edge) && Counted(mem, counts)
      requires mem[left].link == Child(p, i) && p in mem && |mem[p].kvs| < CAPACITY
      modifies this`mem
      ensures Counted(mem, counts) && BTreeOk(mem, own, all, top) && LeavesKept(old(mem), own, mem, own)
    {
      CloseSplit(mem, own, view, all, top, left, kv, edge, p, i);
      InsertFit(p, i, kv, edge);
    }

    /** Inserts `kv` and `edge` right of edge `i` of `p`, which is full and is split first. */
    method InsertSplitInternal(p: Ptr, i: nat, kv: KV, edge: Ptr, ghost top: Ptr, ghost left: Ptr, ghost view: Spans)
        returns (up: KV, right: Ptr, ghost view': Spans)
      requires Growing(mem, own, view, all, top, left, kv, edge) && Counted(mem, counts)
      requires mem[left].link == Child(p, i) && p in mem && |mem[p].kvs| == CAPACITY
      modifies this`mem, this`counts, this`own
      ensures Counted(mem, counts) && LeavesKept(old(mem), old(own), mem, own)
      ensures Growing(mem, own, view', all, top, p, up, right)
      ensures mem[p].height == old(mem)[left].height + 1 && mem[top].height == old(mem)[top].height
    {
      ghost var m0, own0 := mem, own;
      assert LinkOk(mem, left) && EdgesOk(mem, p) && EdgeOk(mem, p, i);
      ghost var q, k;
      up, right, q, k := SplitInternalNodes(p, i, kv, edge, left);
      own, view' := RaiseSplit(m0, own0, view, all, top, left, kv, edge, p, i, Splitpoint(i).0, right, q, k);
    }

    method SplitInternalNodes(p: Ptr, i: nat, kv: KV, edge: Ptr, ghost left: Ptr) returns (up: KV, right: Ptr, ghost q: Ptr, ghost k: nat)
      requires PointersOk(mem) && Counted(mem, counts)
      requires p in mem && EdgesOk(mem, p) && |mem[p].kvs| == CAPACITY && i < |mem[p].edges|
      requires left in mem && mem[p].edges[i] == left && EdgeOk(mem, p, i)
      requires edge in mem && edge != p && mem[edge].height + 1 == mem[p].height && mem[edge].link == NoParent
      modifies this`mem, this`counts
      ensures RaisePlan(old(mem), left, edge, p, i, Splitpoint(i).0, right, q, k) && up == old(mem)[p].kvs[Splitpoint(i).0]
      ensures CanSplit(old(mem), p, Splitpoint(i).0, right)
      ensures CanAttach(SplitMem(old(mem), p, Splitpoint(i).0, right), q, k, edge)
      ensures mem == AttachMem(SplitMem(old(mem), p, Splitpoint(i).0, right), q, k, kv, edge) && Counted(mem, counts)
    {
      ghost var m0 := mem;
      var (m, side) := Splitpoint(i);
      right, up := Split(p, m);
      var target, j := (if side.Left? then p else right), side.idx;
      RaiseAttach(m0, left, edge, p, i, m, right, target, j);
      InsertFit(target, j, kv, edge);
      q, k := target, j;
    }

    /** Inserts at edge `i` of leaf `p`, splitting upwards as far as needed. The result is where the
        pair is now. */
    method InsertRecursing(p: Ptr, i: nat, kv: KV) returns (h: Ptr, j: nat)
      requires root.Root? && BTreeOk(mem, own, all, root.ptr) && Counted(mem, counts)
      requires p in mem && p in own && mem[p].height == 0 && i <= |mem[p].kvs|
      modifies this`mem, this`counts, this`root, this`own, this`all
      ensures old(own)[p].lo + i <= |old(all)| && all == InsertAt(old(all), old(own)[p].lo + i, kv)
      ensures root.Root? && BTreeOk(mem, own, all, root.ptr) && Counted(mem, counts)
      ensures PairAt(mem, own, h, j, old(own)[p].lo + i)
    {
      assert LenOk(mem, root.ptr, p);
      if |mem[p].kvs| < CAPACITY {
        InsertFitLeaf(p, i, kv);
        return p, i;
      }
      var left, up, right := p, kv, p;
      ghost var view;
      up, right, h, j, view := InsertSplitLeaf(p, i, kv);
      RaiseToRoot(left, up, right, h, j, old(own)[p].lo + i, view);
    }

    /** Carries a split up the tree until a parent has room for it or the root is split. */
    method RaiseToRoot(left0: Ptr, up0: KV, right0: Ptr, ghost h: Ptr, ghost j: nat, ghost r: nat, ghost view0: Spans)
      requires root.Root? && Growing(mem, own, view0, all, root.ptr, left0, up0, right0) && Counted(mem, counts)
      requires PairAt(mem, own, h, j, r) && mem[h].height == 0
      modifies this`mem, this`counts, this`root, this`own
      ensures root.Root? && BTreeOk(mem, own, all, root.ptr) && Counted(mem, counts)
      ensures PairAt(mem, own, h, j, r)
    {
      var left, up, right := left0, up0, right0;
      ghost var view := view0;
      while mem[left].link.Child?
        invariant root == old(root) && Counted(mem, counts)
        invariant Growing(mem, own, view, all, root.ptr, left, up, right)
        invariant PairAt(mem, own, h, j, r) && mem[h].height == 0
        decreases mem[root.ptr].height - mem[left].height
      {
        var p, i := mem[left].link.parent, mem[left].link.idx;
        ghost var m0, own0 := mem, own;
        assert Hangs(mem, root.ptr, {right}, left) && LinkOk(mem, left) && LenOk(mem, root.ptr, p);
        if |mem[p].kvs| < CAPACITY {
          InsertFitInternal(p, i, up, right, root.ptr, left, view);
          assert LeafKept(m0, own0, mem, own, h);
          return;
        }
        up, right, view := InsertSplitInternal(p, i, up, right, root.ptr, left, view);
        left := p;
        assert LeafKept(m0, own0, mem, own, h) && Hangs(mem, root.ptr, {right}, left);
      }
      ghost var m0, own0 := mem, own;
      SplitRoot(left, up, right, view);
      assert LeafKept(m0, own0, mem, own, h);
    }

    /** Both halves of the split root go below a new root. */
    method SplitRoot(left: Ptr, kv: KV, right: Ptr, ghost view: Spans)
      requires root.Root? && Growing(mem, own, view, all, root.ptr, left, kv, right) && mem[left].link.NoParent?
      requires Counted(mem, counts)
      modifies this`mem, this`counts, this`root, this`own
      ensures root.Root? && BTreeOk(mem, own, all, root.ptr) && Counted(mem, counts)
      ensures LeavesKept(old(mem), old(own), mem, own)
    {
      ghost var m0 := mem;
      assert Hangs(mem, root.ptr, {right}, left);
      var top := PushInternalLevel(left);
      CloseAtRoot(m0, own, view, all, left, kv, right, top);
      InsertFit(top, 0, kv, right);
      own := own[top := view[left]];
      root := Root(top);
    }

    // ----- repair -----

    /** Merges the children around pair `k` of `p`, one of them too short. */
    method MergeShort(p: Ptr, k: nat, ghost cur: Ptr)
      requires root.Root? && Fixing(mem, own, all, root.ptr, cur) && Counted(mem, counts) && cur != root.ptr
      requires AroundInOrder(mem, own, all, p, k)
      requires cur == mem[p].edges[k] || cur == mem[p].edges[k + 1]
      requires |mem[mem[p].edges[k]].kvs| + 1 + |mem[mem[p].edges[k + 1]].kvs| <= CAPACITY
      modifies this`mem, this`counts, this`own
      ensures Fixing(mem, own, all, root.ptr, p) && Counted(mem, counts)
      ensures old(mem)[p].edges[k] in old(own) && old(mem)[p].edges[k + 1] in old(own)
      ensures mem == MergeMem(old(mem), p, k) && own == MergeSpans(old(own), old(mem)[p].edges[k], old(mem)[p].edges[k + 1])
    {
      MergeFixing(mem, own, all, root.ptr, cur, p, k);
      ghost var l, r := mem[p].edges[k], mem[p].edges[k + 1];
      DoMerge(p, k);
      own := MergeSpans(own, l, r);
    }

    /** Refills a child too short from its left sibling. */
    method StealLeftShort(p: Ptr, k: nat, count: nat)
      requires root.Root? && Counted(mem, counts) && AroundInOrder(mem, own, all, p, k)
      requires var cur := mem[p].edges[k + 1];
               && Fixing(mem, own, all, root.ptr, cur) && cur != root.ptr
               && 0 < count && |mem[cur].kvs| + count == MIN_LEN
               && |mem[mem[p].edges[k]].kvs| + 1 + |mem[cur].kvs| > CAPACITY >= |mem[mem[p].edges[k]].kvs|
      modifies this`mem, this`own
      ensures BTreeOk(mem, own, all, root.ptr) && Counted(mem, counts)
      ensures var l, r, m := old(mem)[p].edges[k], old(mem)[p].edges[k + 1], old(mem);
              && l in own && r in m && r in own && r in mem
              && own[l].lo == old(own)[l].lo && own[r].hi == old(own)[r].hi
              && (m[p].height == 1 ==> own[r].lo + count == old(own)[r].lo && |mem[r].kvs| == MIN_LEN && mem[r].height == 0)
              && (m[p].height > 1 ==> LeavesKept(m, old(own), mem, own))
    {
      ghost var m0, own0 := mem, own;
      ghost var l, r, n := mem[p].edges[k], mem[p].edges[k + 1], |mem[mem[p].edges[k]].kvs| - count;
      BulkStealLeft(p, k, count);
      StealFixed(m0, own0, all, root.ptr, r, p, k, n);
      own := BorderSpans(own, l, r, Border(m0, own0, p, k, n));
      if m0[p].height > 1 { RebalanceKeepsLeaves(m0, own0, p, k, n, Border(m0, own0, p, k, n)); }
    }

    /** Refills a child too short from its right sibling. */
    method StealRightShort(p: Ptr, k: nat, count: nat)
      requires root.Root? && Counted(mem, counts) && AroundInOrder(mem, own, all, p, k)
      requires var cur := mem[p].edges[k];
               && Fixing(mem, own, all, root.ptr, cur) && cur != root.ptr
               && 0 < count && |mem[cur].kvs| + count == MIN_LEN
               && |mem[mem[p].edges[k + 1]].kvs| + 1 + |mem[cur].kvs| > CAPACITY >= |mem[mem[p].edges[k + 1]].kvs|
      modifies this`mem, this`own
      ensures BTreeOk(mem, own, all, root.ptr) && Counted(mem, counts)
      ensures var l, m := old(mem)[p].edges[k], old(mem);
              && l in own && l in old(own) && l in mem && own[l].lo == old(own)[l].lo
              && (m[p].height == 1 ==> |mem[l].kvs| == MIN_LEN && mem[l].height == 0)
              && (m[p].height > 1 ==> LeavesKept(m, old(own), mem, own))
    {
      ghost var m0, own0 := mem, own;
      ghost var l, r, n := mem[p].edges[k], mem[p].edges[k + 1], |mem[mem[p].edges[k]].kvs| + count;
      BulkStealRight(p, k, count);
      StealFixed(m0, own0, all, root.ptr, l, p, k, n);
      own := BorderSpans(own, l, r, Border(m0, own0, p, k, n));
      if m0[p].height > 1 { RebalanceKeepsLeaves(m0, own0, p, k, n, Border(m0, own0, p, k, n)); }
    }

    /** Stocks up an internal node that may be too short by a merge or a steal. */
    method FixNodeThroughParent(cur: Ptr) returns (res: FixResult)
      requires root.Root? && Fixing(mem, own, all, root.ptr, cur) && Counted(mem, counts)
      requires mem[cur].height > 0
      modifies this`mem, this`counts, this`own
      ensures Counted(mem, counts) && LeavesKept(old(mem), old(own), mem, own)
      ensures match res
              case Done => BTreeOk(mem, own, all, root.ptr)
              case EmptyTop => EmptiedRoot(mem, own, all, root.ptr)
              case Shrunk(p) =>
                && Fixing(mem, own, all, root.ptr, p) && p in old(mem)
                && mem[p].height == old(mem)[p].height == old(mem)[cur].height + 1
                && root.ptr in old(mem) && mem[root.ptr].height == old(mem)[root.ptr].height
    {
      ghost var m0, own0 := mem, own;
      var len := |mem[cur].kvs|;
      assert Hangs(mem, root.ptr, {}, cur);
      forall q | q in mem && mem[q].height == 0 && q in own ensures LeafKept(m0, own0, mem, own, q) {}
      if len >= MIN_LEN { return Done; }
      if mem[cur].link.NoParent? {
        return if len > 0 then Done else EmptyTop;
      }
      ghost var gp, gi, gk := ParentPair(mem, own, all, root.ptr, cur);
      var p, i := mem[cur].link.parent, mem[cur].link.idx;
      if i > 0 {
        var l := mem[p].edges[i - 1];
        assert LenOk(mem, root.ptr, l);
        if |mem[l].kvs| + 1 + len <= CAPACITY {
          MergeKeepsLeaves(mem, own, p, i - 1);
          MergeShort(p, i - 1, cur);
          res := Shrunk(p);
        } else {
          StealLeftShort(p, i - 1, MIN_LEN - len);
          res := Done;
        }
      } else {
        var r := mem[p].edges[1];
        assert LenOk(mem, root.ptr, r);
        if len + 1 + |mem[r].kvs| <= CAPACITY {
          MergeKeepsLeaves(mem, own, p, 0);
          MergeShort(p, 0, cur);
          res := Shrunk(p);
        } else {
          StealRightShort(p, 0, MIN_LEN - len);
          res := Done;
        }
      }
    }

    /** Stocks up a node and, if that shrinks its parent, the parent, and so on. False if that
        leaves the root without pairs. */
    method FixNodeAndAffectedAncestors(start: Ptr) returns (fixed: bool)
      requires root.Root? && Fixing(mem, own, all, root.ptr, start) && Counted(mem, counts)
      requires mem[start].height > 0
      modifies this`mem, this`counts, this`own
      ensures Counted(mem, counts) && LeavesKept(old(mem), old(own), mem, own)
      ensures if fixed then BTreeOk(mem, own, all, root.ptr) else EmptiedRoot(mem, own, all, root.ptr)
    {
      var cur := start;
      forall q | q in mem && mem[q].height == 0 && q in own ensures LeafKept(mem, own, mem, own, q) {}
      while true
        invariant Fixing(mem, own, all, root.ptr, cur) && Counted(mem, counts) && mem[cur].height > 0
        invariant LeavesKept(old(mem), old(own), mem, own)
        decreases mem[root.ptr].height - mem[cur].height
      {
        ghost var m0, own0 := mem, own;
        var res := FixNodeThroughParent(cur);
        KeptTwice(old(mem), old(own), m0, own0, mem, own);
        match res {
          case Done => return true;
          case EmptyTop => return false;
          case Shrunk(p) =>
            assert Hangs(m0, root.ptr, {}, p) && Hangs(mem, root.ptr, {}, p);
            cur := p;
        }
      }
    }

    // ----- navigation -----

    /** The pair right of leaf edge `i`, in the leaf or above it. */
    method NextKv(leaf: Ptr, i: nat) returns (p: Ptr, j: nat)
      requires root.Root? && Wf(mem, own, all) && Rooted(mem, root.ptr, {})
      requires root.ptr in own && own[root.ptr] == Span(0, |all|)
      requires leaf in mem && leaf in own && mem[leaf].height == 0 && i <= |mem[leaf].kvs|
      requires own[leaf].lo + i < |all|
      ensures PairAt(mem, own, p, j, own[leaf].lo + i)
    {
      ghost var r := own[leaf].lo + i;
      p, j := leaf, i;
      assert NodeOrderOk(mem, own, own, all, leaf);
      while j == |mem[p].kvs|
        invariant p in mem && p in own && j <= |mem[p].kvs|
        invariant EdgesOk(mem, p) && NodeOrderOk(mem, own, own, all, p)
        invariant r == if mem[p].height == 0 then own[p].lo + j else if mem[p].edges[j] in own then own[mem[p].edges[j]].hi else 0
        decreases mem[root.ptr].height - mem[p].height
      {
        assert own[p].hi == r;
        assert Hangs(mem, root.ptr, {}, p);
        ParentSpan(mem, own, all, p);
        assert Hangs(mem, root.ptr, {}, mem[p].link.parent) && NodeOrderOk(mem, own, own, all, mem[p].link.parent);
        p, j := mem[p].link.parent, mem[p].link.idx;
      }
      ghost var x := PairInside(mem, own, all, p, j);
    }

    method FirstLeafEdge(p: Ptr) returns (leaf: Ptr)
      requires Wf(mem, own, all) && p in mem && p in own
      ensures leaf in mem && leaf in own && mem[leaf].height == 0 && own[leaf].lo == own[p].lo
    {
      leaf := p;
      while mem[leaf].height > 0
        invariant leaf in mem && leaf in own && own[leaf].lo == own[p].lo
        decreases mem[leaf].height
      {
        assert EdgesOk(mem, leaf) && EdgeOk(mem, leaf, 0) && NodeOrderOk(mem, own, own, all, leaf);
        leaf := mem[leaf].edges[0];
      }
    }

    method LastLeafEdge(p: Ptr) returns (leaf: Ptr)
      requires Wf(mem, own, all) && p in mem && p in own
      ensures leaf in mem && leaf in own && mem[leaf].height == 0
      ensures own[leaf].hi == own[p].hi && own[leaf].lo + |mem[leaf].kvs| == own[leaf].hi
      ensures mem[p].height > 0 ==> mem[leaf].link.Child?
    {
      leaf := p;
      while mem[leaf].height > 0
        invariant leaf in mem && leaf in own && own[leaf].hi == own[p].hi
        invariant leaf != p ==> mem[leaf].link.Child?
        decreases mem[leaf].height
      {
        assert EdgesOk(mem, leaf) && EdgeOk(mem, leaf, |mem[leaf].kvs|) && NodeOrderOk(mem, own, own, all, leaf);
        leaf := mem[leaf].edges[|mem[leaf].kvs|];
      }
      assert NodeOrderOk(mem, own, own, all, leaf);
    }

    /** The leaf edge right of pair `i` of `p`. */
    method NextLeafEdge(p: Ptr, i: nat, ghost x: nat) returns (leaf: Ptr, j: nat)
      requires Wf(mem, own, all) && PairAt(mem, own, p, i, x)
      ensures leaf in mem && leaf in own && mem[leaf].height == 0 && j <= |mem[leaf].kvs|
      ensures own[leaf].lo + j == x + 1
    {
      if mem[p].height == 0 { return p, i + 1; }
      assert EdgesOk(mem, p) && EdgeOk(mem, p, i + 1) && NodeOrderOk(mem, own, own, all, p);
      assert PairOk(mem[p].edges, mem[p].kvs, own, all, i);
      leaf := FirstLeafEdge(mem[p].edges[i + 1]);
      j := 0;
    }

    // ----- removal -----

    /** The hole a removed pair left: edge `j` of leaf `h` has rank `r`. */
    ghost predicate Hole(h: Ptr, j: nat, r: nat)
      reads this
    {
      h in mem && h in own && mem[h].height == 0 && j <= |mem[h].kvs| && own[h].lo + j == r
    }

    /** What the repair goes on with: the parent of the leaf with the hole. */
    ghost predicate Refilled(h: Ptr, j: nat, r: nat)
      reads this
    {
      && root.Root? && Hole(h, j, r)
      && mem[h].link.Child? && mem[h].link.parent in mem && mem[mem[h].link.parent].height > 0
      && Fixing(mem, own, all, root.ptr, mem[h].link.parent)
    }

    lemma RefilledBySteal(h: Ptr, j: nat, r: nat)
      requires root.Root? && BTreeOk(mem, own, all, root.ptr) && Hole(h, j, r) && h != root.ptr
      ensures Refilled(h, j, r)
    {
      assert Hangs(mem, root.ptr, {}, h) && LinkOk(mem, h) && EdgesOk(mem, mem[h].link.parent);
      assert LenOk(mem, root.ptr, mem[h].link.parent);
    }

    /** Refills a leaf one pair too short with the help of its left sibling. The hole moves along. */
    method RefillFromLeft(p: Ptr, i: nat, ghost r: nat) returns (h: Ptr, j: nat)
      requires root.Root? && Fixing(mem, own, all, root.ptr, p) && Counted(mem, counts)
      requires p != root.ptr && |mem[p].kvs| == MIN_LEN - 1 && Hole(p, i, r)
      requires mem[p].link.Child? && mem[p].link.idx > 0
      modifies this`mem, this`counts, this`own
      ensures Counted(mem, counts) && Refilled(h, j, r)
    {
      ghost var gp, gi, gk := ParentPair(mem, own, all, root.ptr, p);
      var q, e := mem[p].link.parent, mem[p].link.idx;
      var l := mem[q].edges[e - 1];
      assert LenOk(mem, root.ptr, l) && EdgeOk(mem, q, e - 1);
      var leftLen := |mem[l].kvs|;
      if leftLen + 1 + |mem[p].kvs| <= CAPACITY {
        MergeFixing(mem, own, all, root.ptr, p, q, e - 1);
        MergeShort(q, e - 1, p);
        h, j := l, leftLen + 1 + i;
      } else {
        StealLeftShort(q, e - 1, 1);
        h, j := p, 1 + i;
        RefilledBySteal(h, j, r);
      }
    }

    /** Refills a leaf one pair too short with the help of its right sibling. The hole stays. */
    method RefillFromRight(p: Ptr, i: nat, ghost r: nat)
      requires root.Root? && Fixing(mem, own, all, root.ptr, p) && Counted(mem, counts)
      requires p != root.ptr && |mem[p].kvs| == MIN_LEN - 1 && Hole(p, i, r)
      requires mem[p].link.Child? && mem[p].link.idx == 0
      modifies this`mem, this`counts, this`own
      ensures Counted(mem, counts) && Refilled(p, i, r)
    {
      ghost var gp, gi, gk := ParentPair(mem, own, all, root.ptr, p);
      var q := mem[p].link.parent;
      var right := mem[q].edges[1];
      assert LenOk(mem, root.ptr, right) && EdgeOk(mem, q, 0);
      if |mem[p].kvs| + 1 + |mem[right].kvs| <= CAPACITY {
        MergeShort(q, 0, p);
      } else {
        StealRightShort(q, 0, 1);
        RefilledBySteal(p, i, r);
      }
    }

    /** Takes pair `i` out of leaf `p`. */
    method TakeFromLeaf(p: Ptr, i: nat) returns (kv: KV)
      requires root.Root? && BTreeOk(mem, own, all, root.ptr) && Counted(mem, counts)
      requires p in mem && p in own && mem[p].height == 0 && i < |mem[p].kvs|
      modifies this`mem, this`own, this`all
      ensures var r := old(own)[p].lo + i;
              && r < |old(all)| && kv == old(all)[r] && all == RemoveAt(old(all), r)
              && Fixing(mem, own, all, root.ptr, p) && Counted(mem, counts) && Hole(p, i, r)
              && |mem[p].kvs| == |old(mem)[p].kvs| - 1
    {
      LeafRemoveFixing(mem, own, all, root.ptr, p, i);
      PairsCounted(mem, p, RemoveAt(mem[p].kvs, i), counts);
      kv := mem[p].kvs[i];
      mem := mem[p := mem[p].(kvs := RemoveAt(mem[p].kvs, i))];
      ghost var r := own[p].lo + i;
      own, all := AllDown(own, r), RemoveAt(all, r);
    }

    /** Removes pair `i` of leaf `p` and repairs the tree. Says if that emptied the root. */
    method RemoveLeafKv(p: Ptr, i: nat) returns (kv: KV, h: Ptr, j: nat, emptied: bool)
      requires root.Root? && BTreeOk(mem, own, all, root.ptr) && Counted(mem, counts)
      requires p in mem && p in own && mem[p].height == 0 && i < |mem[p].kvs|
      modifies this`mem, this`counts, this`own, this`all
      ensures Counted(mem, counts)
      ensures if emptied then EmptiedRoot(mem, own, all, root.ptr) else BTreeOk(mem, own, all, root.ptr)
      ensures var r := old(own)[p].lo + i;
              r < |old(all)| && kv == old(all)[r] && all == RemoveAt(old(all), r) && Hole(h, j, r)
    {
      ghost var r := own[p].lo + i;
      assert LenOk(mem, root.ptr, p);
      kv := TakeFromLeaf(p, i);
      h, j, emptied := p, i, false;
      assert Hangs(mem, root.ptr, {}, p);
      if |mem[p].kvs| < MIN_LEN && mem[p].link.Child? {
        if mem[p].link.idx > 0 {
          h, j := RefillFromLeft(p, i, r);
        } else {
          RefillFromRight(p, i, r);
        }
        ghost var m1, own1 := mem, own;
        var fixed := FixNodeAndAffectedAncestors(mem[h].link.parent);
        assert LeafKept(m1, own1, mem, own, h);
        emptied := !fixed;
      } else {
        Fixed(mem, own, all, root.ptr, p);
      }
    }

    /** Puts `kv` in place of pair `i` of `p`, at rank `x`, and returns the old one. */
    method ReplaceKv(p: Ptr, i: nat, kv: KV, ghost x: nat) returns (oldKv: KV)
      requires root.Root? && Wf(mem, own, all) && Rooted(mem, root.ptr, {}) && Counted(mem, counts)
      requires PairAt(mem, own, p, i, x)
      modifies this`mem, this`all
      ensures x < |old(all)| && oldKv == old(all)[x] && all == old(all)[x := kv]
      ensures mem == ReplaceMem(old(mem), p, i, kv) && Counted(mem, counts)
      ensures Wf(mem, own, all) && PairAt(mem, own, p, i, x)
      ensures old(BTreeOk(mem, own, all, root.ptr)) ==> BTreeOk(mem, own, all, root.ptr)
      ensures old(EmptiedRoot(mem, own, all, root.ptr)) ==> EmptiedRoot(mem, own, all, root.ptr)
    {
      RootedIsOneTree(mem, root.ptr);
      ReplaceWf(mem, own, all, root.ptr, p, i, x, kv);
      ghost var x' := PairInside(mem, own, all, p, i);
      ReplaceShape(mem, own, all, root.ptr, p, i, x, kv);
      PairsCounted(mem, p, mem[p].kvs[i := kv], counts);
      oldKv := mem[p].kvs[i];
      mem := mem[p := mem[p].(kvs := mem[p].kvs[i := kv])];
      all := all[x := kv];
    }

    /** Removes pair `i` of internal node `p`, at rank `x`: the pair before it, from a leaf, takes
        its place, wherever the repair has moved that. */
    method RemoveInternalKv(p: Ptr, i: nat, ghost x: nat) returns (kv: KV, h: Ptr, j: nat, emptied: bool)
      requires root.Root? && BTreeOk(mem, own, all, root.ptr) && Counted(mem, counts)
      requires PairAt(mem, own, p, i, x) && mem[p].height > 0
      modifies this`mem, this`counts, this`own, this`all
      ensures Counted(mem, counts)
      ensures if emptied then EmptiedRoot(mem, own, all, root.ptr) else BTreeOk(mem, own, all, root.ptr)
      ensures x < |old(all)| && kv == old(all)[x] && all == RemoveAt(old(all), x) && Hole(h, j, x)
    {
      ghost var x' := PairInside(mem, own, all, p, i);
      assert EdgesOk(mem, p) && EdgeOk(mem, p, i) && NodeOrderOk(mem, own, own, all, mem[p].edges[i]);
      var leaf := LastLeafEdge(mem[p].edges[i]);
      assert LenOk(mem, root.ptr, leaf) && Hangs(mem, root.ptr, {}, leaf);
      ghost var all0 := all;
      var leftKv, g, e;
      leftKv, g, e, emptied := RemoveLeafKv(leaf, |mem[leaf].kvs| - 1);
      ReplaceNext(all0, x);
      var q, k := NextKv(g, e);
      kv := ReplaceKv(q, k, leftKv, x - 1);
      h, j := NextLeafEdge(q, k, x - 1);
    }

    /** Removes the pair at a handle, whichever kind of node holds it. */
    method RemoveKvTracking(p: Ptr, i: nat, ghost x: nat) returns (kv: KV, h: Ptr, j: nat, emptied: bool)
      requires root.Root? && BTreeOk(mem, own, all, root.ptr) && Counted(mem, counts)
      requires PairAt(mem, own, p, i, x)
      modifies this`mem, this`counts, this`own, this`all
      ensures Counted(mem, counts)
      ensures if emptied then EmptiedRoot(mem, own, all, root.ptr) else BTreeOk(mem, own, all, root.ptr)
      ensures x < |old(all)| && kv == old(all)[x] && all == RemoveAt(old(all), x) && Hole(h, j, x)
    {
      if mem[p].height == 0 {
        kv, h, j, emptied := RemoveLeafKv(p, i);
      } else {
        kv, h, j, emptied := RemoveInternalKv(p, i, x);
      }
    }

    // ----- the map's own operations -----

    /** Where `key` is, or where it belongs. */
    method FindEntry(key: int) returns (e: Entry)
      requires Valid()
      ensures match e
              case Occupied(p, i) =>
                root.Root? && p in mem && p in own && i < |mem[p].kvs| && mem[p].kvs[i].key == key
              case VacantEmpty => root.NoRoot?
              case Vacant(p, i) =>
                && root.Root? && p in mem && p in own && mem[p].height == 0 && i <= |mem[p].kvs|
                && own[p].lo + i <= |all| && Between(all, Span(own[p].lo + i, own[p].lo + i), key)
      ensures e.Occupied? <==> key in Contents()
    {
      match root
      case NoRoot =>
        e := VacantEmpty;
      case Root(top) =>
        var res := SearchTree(mem, own, all, top, key);
        match res {
          case Found(p, i) =>
            e := Occupied(p, i);
            ghost var x := PairInside(mem, own, all, p, i);
            AsMapKey(all, key);
          case GoDown(p, i) =>
            e := Vacant(p, i);
            AsMapKey(all, key);
        }
    }

    /** An entry as `FindEntry` gives it for a key that is not in the map. */
    ghost predicate IsVacant(e: Entry, key: int)
      reads this
    {
      match e
      case Occupied(_, _) => false
      case VacantEmpty => root.NoRoot?
      case Vacant(p, i) =>
        && root.Root? && p in mem && p in own && mem[p].height == 0 && i <= |mem[p].kvs|
        && own[p].lo + i <= |all| && Between(all, Span(own[p].lo + i, own[p].lo + i), key)
    }

    /** Inserts a pair whose key is not in the map; `h`, `j` is where it is. Only the very first leaf
        can be denied without a panic, and then nothing has changed. */
    method VacantInsert(e: Entry, key: int, val: int, leafGranted: bool) returns (ok: bool, h: Ptr, j: nat)
      requires Valid() && IsVacant(e, key)
      modifies this
      ensures Valid() && ok == (e.Vacant? || leafGranted)
      ensures ok ==> Contents() == old(Contents())[key := val] && key !in old(Contents())
      ensures ok ==> h in mem && j < |mem[h].kvs| && mem[h].kvs[j] == KV(key, val)
      ensures !ok ==> mem == old(mem) && root == old(root) && all == old(all)
    {
      var kv := KV(key, val);
      ok, h, j := true, 0, 0;
      match e
      case VacantEmpty =>
        if !leafGranted { return false, 0, 0; }
        h := FirstLeaf(kv);
      case Vacant(p, i) =>
        ghost var r := own[p].lo + i;
        InsertAscending(all, r, kv);
        InsertAsMap(all, r, kv);
        h, j := InsertRecursing(p, i, kv);
        length := length + 1;
        ghost var x := PairInside(mem, own, all, h, j);
    }

    /** The first pair of an empty map gets a leaf of its own. */
    method FirstLeaf(kv: KV) returns (p: Ptr)
      requires Valid() && root.NoRoot?
      modifies this
      ensures Valid() && all == [kv] && Contents() == map[kv.key := kv.val]
      ensures p in mem && mem[p].kvs == [kv]
    {
      p := Fresh();
      ghost var m0 := mem;
      mem := mem[p := Node(0, [kv], [], NoParent)];
      CountedAlloc(m0, mem, counts, p);
      counts := counts.Inc(NodeSize(0));
      root, length := Root(p), 1;
      own, all := map[p := Span(0, 1)], [kv];
      SingleLeaf(p, [kv]);
      SinglePair(kv);
    }

    /** Removes the pair at an occupied entry and returns it. */
    method OccupiedRemoveKv(p: Ptr, i: nat) returns (kv: KV)
      requires Valid() && root.Root? && p in mem && i < |mem[p].kvs|
      modifies this
      ensures Valid() && kv == old(mem)[p].kvs[i]
      ensures kv.key in old(Contents()) && old(Contents())[kv.key] == kv.val
      ensures Contents() == old(Contents()) - {kv.key}
    {
      ghost var x := PairInside(mem, own, all, p, i);
      ghost var all0 := all;
      RemoveAsMap(all, x);
      RemoveAscending(all, x);
      var h, j, emptied;
      kv, h, j, emptied := RemoveKvTracking(p, i, x);
      length := length - 1;
      if emptied {
        PopFixed(mem, own, all, root.ptr);
        ghost var top := root.ptr;
        var newTop := PopInternalLevel(root.ptr);
        root := Root(newTop);
        own := own - {top};
      }
    }

    /** Removes a key; says whether it was there. */
    method RemoveEntry(key: int) returns (found: bool, kv: KV)
      requires Valid()
      modifies this
      ensures Valid() && found == (key in old(Contents()))
      ensures found ==> kv == KV(key, old(Contents())[key])
      ensures Contents() == old(Contents()) - {key}
    {
      var e := FindEntry(key);
      match e
      case Occupied(p, i) =>
        kv := OccupiedRemoveKv(p, i);
        found := true;
      case _ =>
        found, kv := false, KV(key, 0);
    }

    /** Sets the value at an occupied entry and returns the old one. */
    method OccupiedInsert(p: Ptr, i: nat, val: int) returns (oldVal: int)
      requires Valid() && root.Root? && p in mem && i < |mem[p].kvs|
      modifies this
      ensures Valid()
      ensures var key := old(mem)[p].kvs[i].key;
              && key in old(Contents()) && oldVal == old(Contents())[key]
              && Contents() == old(Contents())[key := val]
    {
      ghost var x := PairInside(mem, own, all, p, i);
      ghost var all0, key := all, mem[p].kvs[i].key;
      var oldKv := ReplaceKv(p, i, KV(mem[p].kvs[i].key, val), x);
      oldVal := oldKv.val;
      ReplaceAsMap(all0, x, val);
    }

    /** Empties the map: the taken-out tree is dropped, node by node. */
    method Clear() returns (ghost freed: multiset<Ptr>)
      requires Valid()
      modifies this
      ensures Valid() && Contents() == map[] && root == NoRoot && length == 0
      ensures freed == multiset(old(mem).Keys)
    {
      mem, freed := IntoIter.DropTree(mem, root, length, own, all);
      root, length, counts := NoRoot, 0, SelfAllocatedMemory(Slot(0, 0), Slot(0, 0));
      own, all := map[], [];
    }

    // ----- border repair -----

    /** Removes empty levels at the top. */
    method FixTop(start: Ptr, ghost side: Side, ghost t: set<Ptr>, ghost h: nat) returns (top: Ptr, ghost t': set<Ptr>)
      requires Counted(mem, counts) && BorderTree(mem, own, all, side, t, start, h)
      modifies this`mem, this`counts, this`own
      ensures Counted(mem, counts) && BorderTree(mem, own, all, side, t', top, h)
      ensures t' <= t && own[top] == old(own)[start] && OthersKept(old(mem), old(own), mem, own, t)
      ensures mem.Keys == old(mem).Keys - (t - t')
      ensures mem[top].height > 0 ==> |mem[top].kvs| > 0
    {
      top, t' := start, t;
      NoOthers(mem, own, all, t);
      while mem[top].height > 0 && |mem[top].kvs| == 0
        invariant Counted(mem, counts) && BorderTree(mem, own, all, side, t', top, h)
        invariant t' <= t && own[top] == old(own)[start] && OthersKept(old(mem), old(own), mem, own, t)
        invariant mem.Keys == old(mem).Keys - (t - t')
        decreases mem[top].height
      {
        ghost var m0, own0, gone := mem, own, top;
        PopBorder(mem, own, all, side, t', top, h);
        top := PopInternalLevel(top);
        own := own - {gone};
        OthersKeptTwice(old(mem), old(own), m0, own0, mem, own, t, t');
        t' := t' - {gone};
      }
    }

    /** What going down one level of the border has reached: a child of `p` on the border, with more
        than the minimum, so that its own children can be merged. */
    ghost predicate Reached(side: Side, t: set<Ptr>, top: Ptr, child: Ptr, h: nat)
      reads this
    {
      && BorderTree(mem, own, all, side, t, top, h)
      && child in t && child in mem && child != top && OnBorder(side, own, top, child)
      && mem[child].height == h && |mem[child].kvs| > MIN_LEN
    }

    method MergeBorder(p: Ptr, k: nat, ghost side: Side, ghost t: set<Ptr>, ghost top: Ptr, ghost b: Ptr, ghost o: Ptr) returns (child: Ptr)
      requires Counted(mem, counts) && BorderPair(mem, side, p, k, b, o)
      requires BorderTree(mem, own, all, side, t, top, mem[p].height) && p in t && OnBorder(side, own, top, p)
      requires p != top ==> |mem[p].kvs| > MIN_LEN
      requires |mem[b].kvs| + 1 + |mem[o].kvs| <= CAPACITY
      modifies this`mem, this`counts, this`own
      ensures Counted(mem, counts) && k + 1 < |old(mem)[p].edges|
      ensures Reached(side, t - {old(mem)[p].edges[k + 1]}, top, child, old(mem)[p].height - 1)
      ensures own[top] == old(own)[top] && OthersKept(old(mem), old(own), mem, own, t)
      ensures mem.Keys == old(mem).Keys - {old(mem)[p].edges[k + 1]} && old(mem)[p].edges[k + 1] in t
    {
      ghost var r := mem[p].edges[k + 1];
      child := mem[p].edges[k];
      BorderMerge(mem, own, all, side, t, top, p, k, b, o);
      BorderLevel(mem, own, all, side, t, top, p, k, b, o);
      DoMerge(p, k);
      own := MergeSpans(own, child, r);
    }

    method StealLeftBorder(p: Ptr, k: nat, count: nat, ghost t: set<Ptr>, ghost top: Ptr, ghost b: Ptr, ghost o: Ptr)
      requires Counted(mem, counts) && BorderPair(mem, RightSide, p, k, b, o)
      requires BorderTree(mem, own, all, RightSide, t, top, mem[p].height) && p in t && OnBorder(RightSide, own, top, p)
      requires p != top ==> |mem[p].kvs| > MIN_LEN
      requires |mem[b].kvs| + 1 + |mem[o].kvs| > CAPACITY && 0 < count && |mem[b].kvs| + count == MIN_LEN + 1
      modifies this`mem, this`own
      ensures Counted(mem, counts) && Reached(RightSide, t, top, b, old(mem)[p].height - 1)
      ensures own[top] == old(own)[top] && OthersKept(old(mem), old(own), mem, own, t) && mem.Keys == old(mem).Keys
    {
      ghost var m0, own0 := mem, own;
      BorderAround(mem, own, all, RightSide, t, top, p, k, b, o);
      ghost var n := |mem[o].kvs| - count;
      BulkStealLeft(p, k, count);
      BorderSteal(m0, own0, all, RightSide, t, top, p, k, b, o, n);
      own := BorderSpans(own, o, b, Border(m0, own0, p, k, n));
    }

    method StealRightBorder(p: Ptr, k: nat, count: nat, ghost t: set<Ptr>, ghost top: Ptr, ghost b: Ptr, ghost o: Ptr)
      requires Counted(mem, counts) && BorderPair(mem, LeftSide, p, k, b, o)
      requires BorderTree(mem, own, all, LeftSide, t, top, mem[p].height) && p in t && OnBorder(LeftSide, own, top, p)
      requires p != top ==> |mem[p].kvs| > MIN_LEN
      requires |mem[b].kvs| + 1 + |mem[o].kvs| > CAPACITY && 0 < count && |mem[b].kvs| + count == MIN_LEN + 1
      modifies this`mem, this`own
      ensures Counted(mem, counts) && Reached(LeftSide, t, top, b, old(mem)[p].height - 1)
      ensures own[top] == old(own)[top] && OthersKept(old(mem), old(own), mem, own, t) && mem.Keys == old(mem).Keys
    {
      ghost var m0, own0 := mem, own;
      BorderAround(mem, own, all, LeftSide, t, top, p, k, b, o);
      ghost var n := |mem[b].kvs| + count;
      BulkStealRight(p, k, count);
      BorderSteal(m0, own0, all, LeftSide, t, top, p, k, b, o, n);
      own := BorderSpans(own, b, o, Border(m0, own0, p, k, n));
    }

    /** Stocks up the rightmost child of `p` beyond the minimum. */
    method FixRightChild(p: Ptr, ghost t: set<Ptr>, ghost top: Ptr) returns (child: Ptr, ghost t': set<Ptr>)
      requires Counted(mem, counts) && p in mem && mem[p].height > 0 && |mem[p].kvs| > 0
      requires BorderTree(mem, own, all, RightSide, t, top, mem[p].height)
      requires p in t && OnBorder(RightSide, own, top, p) && (p != top ==> |mem[p].kvs| > MIN_LEN)
      modifies this`mem, this`counts, this`own
      ensures Counted(mem, counts) && t' <= t && Reached(RightSide, t', top, child, old(mem)[p].height - 1)
      ensures own[top] == old(own)[top] && OthersKept(old(mem), old(own), mem, own, t)
      ensures mem.Keys == old(mem).Keys - (t - t')
    {
      assert EdgesOk(mem, p) && EdgeOk(mem, p, |mem[p].kvs| - 1) && EdgeOk(mem, p, |mem[p].kvs|);
      var k := |mem[p].kvs| - 1;
      var l, r := mem[p].edges[k], mem[p].edges[k + 1];
      var leftLen, rightLen := |mem[l].kvs|, |mem[r].kvs|;
      t' := t;
      if leftLen + 1 + rightLen <= CAPACITY {
        t' := t - {r};
        child := MergeBorder(p, k, RightSide, t, top, r, l);
      } else {
        if rightLen < MIN_LEN + 1 {
          StealLeftBorder(p, k, MIN_LEN + 1 - rightLen, t, top, r, l);
        } else {
          BorderPass(mem, own, all, RightSide, t, top, p, k, r, l);
          BorderLevel(mem, own, all, RightSide, t, top, p, k, r, l);
          NoOthers(mem, own, all, t);
        }
        child := r;
      }
    }

    /** The mirror image of `FixRightChild`. */
    method FixLeftChild(p: Ptr, ghost t: set<Ptr>, ghost top: Ptr) returns (child: Ptr, ghost t': set<Ptr>)
      requires Counted(mem, counts) && p in mem && mem[p].height > 0 && |mem[p].kvs| > 0
      requires BorderTree(mem, own, all, LeftSide, t, top, mem[p].height)
      requires p in t && OnBorder(LeftSide, own, top, p) && (p != top ==> |mem[p].kvs| > MIN_LEN)
      modifies this`mem, this`counts, this`own
      ensures Counted(mem, counts) && t' <= t && Reached(LeftSide, t', top, child, old(mem)[p].height - 1)
      ensures own[top] == old(own)[top] && OthersKept(old(mem), old(own), mem, own, t)
      ensures mem.Keys == old(mem).Keys - (t - t')
    {
      assert EdgesOk(mem, p) && EdgeOk(mem, p, 0) && EdgeOk(mem, p, 1);
      var l, r := mem[p].edges[0], mem[p].edges[1];
      var leftLen, rightLen := |mem[l].kvs|, |mem[r].kvs|;
      t' := t;
      if leftLen + 1 + rightLen <= CAPACITY {
        t' := t - {r};
        child := MergeBorder(p, 0, LeftSide, t, top, l, r);
      } else {
        if leftLen < MIN_LEN + 1 {
          StealRightBorder(p, 0, MIN_LEN + 1 - leftLen, t, top, l, r);
        } else {
          BorderPass(mem, own, all, LeftSide, t, top, p, 0, l, r);
          BorderLevel(mem, own, all, LeftSide, t, top, p, 0, l, r);
          NoOthers(mem, own, all, t);
        }
        child := l;
      }
    }

    /** Stocks up or merges away every node on the right border that is too short. */
    method FixRightBorder(start: Ptr, ghost t: set<Ptr>) returns (top: Ptr, ghost t': set<Ptr>)
      requires Counted(mem, counts) && start in mem && BorderTree(mem, own, all, RightSide, t, start, mem[start].height)
      modifies this`mem, this`counts, this`own
      ensures Counted(mem, counts) && TreeOk(mem, own, all, t', top)
      ensures t' <= t && own[top] == old(own)[start] && OthersKept(old(mem), old(own), mem, own, t)
      ensures mem.Keys == old(mem).Keys - (t - t')
    {
      top, t' := FixTop(start, RightSide, t, mem[start].height);
      BorderBelowTop(mem, own, all, RightSide, t', top, old(mem)[start].height);
      if |mem[top].kvs| > 0 {
        var p := top;
        while mem[p].height > 0
          invariant Counted(mem, counts) && p in mem && BorderTree(mem, own, all, RightSide, t', top, mem[p].height)
          invariant t' <= t && own[top] == old(own)[start] && OthersKept(old(mem), old(own), mem, own, t)
          invariant mem.Keys == old(mem).Keys - (t - t')
          invariant p in t' && OnBorder(RightSide, own, top, p)
          invariant |mem[p].kvs| > 0 && (p != top ==> |mem[p].kvs| > MIN_LEN)
          decreases mem[p].height
        {
          ghost var m0, own0, t0 := mem, own, t';
          p, t' := FixRightChild(p, t', top);
          OthersKeptTwice(old(mem), old(own), m0, own0, mem, own, t, t0);
        }
        ghost var m1, own1, t1 := mem, own, t';
        top, t' := FixTop(top, RightSide, t', 0);
        OthersKeptTwice(old(mem), old(own), m1, own1, mem, own, t, t1);
      } else {
        assert forall q :: q in t' && UnderRoot(mem, t', top, q) ==> q == top;
      }
      BorderDone(mem, own, all, RightSide, t', top);
    }

    /** The mirror image of `FixRightBorder`. */
    method FixLeftBorder(start: Ptr, ghost t: set<Ptr>) returns (top: Ptr, ghost t': set<Ptr>)
      requires Counted(mem, counts) && start in mem && BorderTree(mem, own, all, LeftSide, t, start, mem[start].height)
      modifies this`mem, this`counts, this`own
      ensures Counted(mem, counts) && TreeOk(mem, own, all, t', top)
      ensures t' <= t && own[top] == old(own)[start] && OthersKept(old(mem), old(own), mem, own, t)
      ensures mem.Keys == old(mem).Keys - (t - t')
    {
      top, t' := FixTop(start, LeftSide, t, mem[start].height);
      BorderBelowTop(mem, own, all, LeftSide, t', top, old(mem)[start].height);
      if |mem[top].kvs| > 0 {
        var p := top;
        while mem[p].height > 0
          invariant Counted(mem, counts) && p in mem && BorderTree(mem, own, all, LeftSide, t', top, mem[p].height)
          invariant t' <= t && own[top] == old(own)[start] && OthersKept(old(mem), old(own), mem, own, t)
          invariant mem.Keys == old(mem).Keys - (t - t')
          invariant p in t' && OnBorder(LeftSide, own, top, p)
          invariant |mem[p].kvs| > 0 && (p != top ==> |mem[p].kvs| > MIN_LEN)
          decreases mem[p].height
        {
          ghost var m0, own0, t0 := mem, own, t';
          p, t' := FixLeftChild(p, t', top);
          OthersKeptTwice(old(mem), old(own), m0, own0, mem, own, t, t0);
        }
        ghost var m1, own1, t1 := mem, own, t';
        top, t' := FixTop(top, LeftSide, t', 0);
        OthersKeptTwice(old(mem), old(own), m1, own1, mem, own, t, t1);
      } else {
        assert forall q :: q in t' && UnderRoot(mem, t', top, q) ==> q == top;
      }
      BorderDone(mem, own, all, LeftSide, t', top);
    }

    // ----- splitting off -----

    /** A tree of empty nodes, with `height` levels above its leaf, all at rank `m`. */
    method NewPillar(height: nat, ghost view: Spans, ghost m: nat) returns (top: Ptr, ghost pillar: seq<Ptr>, ghost view': Spans)
      requires PointersOk(mem) && Ordered(mem, own, view, all) && m <= |all| && Counted(mem, counts)
      modifies this`mem, this`counts, this`own
      ensures PointersOk(mem) && Ordered(mem, own, view', all) && Counted(mem, counts)
      ensures |pillar| == height + 1 && top == pillar[height]
      ensures NewTree(old(mem), old(own), view, mem, own, view', pillar, m)
    {
      ghost var m0, own0 := mem, own;
      top := NewLeaf(view, m);
      view', pillar := view[top := Span(m, m)], [top];
      for h := 0 to height
        invariant PointersOk(mem) && Ordered(mem, own, view', all) && Counted(mem, counts)
        invariant |pillar| == h + 1 && top == pillar[h]
        invariant NewTree(m0, own0, view, mem, own, view', pillar, m)
      {
        top, pillar, view' := RaisePillar(top, pillar, m0, own0, view, view', m);
      }
    }

    method NewLeaf(ghost view: Spans, ghost m: nat) returns (p: Ptr)
      requires PointersOk(mem) && Ordered(mem, own, view, all) && m <= |all| && Counted(mem, counts)
      modifies this`mem, this`counts, this`own
      ensures PointersOk(mem) && Ordered(mem, own, view[p := Span(m, m)], all) && Counted(mem, counts)
      ensures NewTree(old(mem), old(own), view, mem, own, view[p := Span(m, m)], [p], m)
    {
      p := Fresh();
      PillarFoot(mem, own, view, all, p, m);
      mem := mem[p := Node(0, [], [], NoParent)];
      CountedAlloc(old(mem), mem, counts, p);
      counts := counts.Inc(NodeSize(0));
      own := own[p := Span(m, m)];
    }

    method RaisePillar(top: Ptr, ghost pillar: seq<Ptr>, ghost m0: Mem, ghost own0: Spans, ghost view0: Spans, ghost view: Spans, ghost m: nat)
        returns (new_: Ptr, ghost pillar': seq<Ptr>, ghost view': Spans)
      requires PointersOk(mem) && Ordered(mem, own, view, all) && m <= |all| && Counted(mem, counts)
      requires |pillar| > 0 && top == pillar[|pillar| - 1] && NewTree(m0, own0, view0, mem, own, view, pillar, m)
      modifies this`mem, this`counts, this`own
      ensures PointersOk(mem) && Ordered(mem, own, view', all) && Counted(mem, counts)
      ensures pillar' == pillar + [new_] && NewTree(m0, own0, view0, mem, own, view', pillar', m)
    {
      ghost var m1 := mem;
      assert PillarNode(mem, pillar, |pillar| - 1);
      new_ := PushInternalLevel(top);
      PillarRaise(m0, own0, view0, m1, own, view, all, pillar, m, new_);
      own, view', pillar' := own[new_ := Span(m, m)], view[new_ := Span(m, m)], pillar + [new_];
    }

    /** Moves the pairs and edges right of edge `s` of `c` to the empty node `r`. */
    method MoveSuffix(c: Ptr, s: nat, r: Ptr)
      requires PointersOk(mem) && CanMoveSuffix(mem, c, s, r) && Counted(mem, counts)
      modifies this`mem
      ensures mem == SuffixMem(old(mem), c, s, r) && Counted(mem, counts)
    {
      ghost var m0 := mem;
      var n := mem[c];
      mem := mem[c := n.(kvs := n.kvs[..s], edges := if n.height == 0 then [] else n.edges[..s + 1])]
                [r := mem[r].(kvs := n.kvs[s..], edges := if n.height == 0 then [] else mem[r].edges + n.edges[s + 1..])];
      ghost var t := SuffixSteps(m0, c, s, r, mem);
      if n.height > 0 {
        CorrectChildrensParentLinks(r, 1, |mem[r].edges|, t);
      } else {
        assert mem == SetLinks(mem, t, r, 1, |t[r].edges|);
      }
      CountedSame(m0, mem, counts);
    }

    /** Cuts one level at `key`. */
    method CutOneLevel(c: Ptr, r: Ptr, key: int, ghost k: Cut, ghost view: Spans, ghost left: set<Ptr>, ghost h: nat) returns (ghost view': Spans)
      requires Cutting(k, mem, own, view, left, h, c, r) && Counted(mem, counts)
      requires k.all == all && Ascending(all) && k.m == CountBelow(all, key)
      modifies this`mem, this`own
      ensures Counted(mem, counts) && c in mem && r in mem && mem[c].height == h == mem[r].height
      ensures if h == 0 then Spines(k, mem, own, left + {c}, -1) && Wf(mem, own, all)
              else
                && |mem[c].edges| == |mem[c].kvs| + 1 && |mem[r].edges| > 0
                && Cutting(k, mem, own, view', left + {c}, h - 1, mem[c].edges[|mem[c].kvs|], mem[r].edges[0])
    {
      var res := FindKeyIndex(mem[c].kvs, key, 0);
      var s := res.idx;
      CutFound(mem, own, view, all, c, s, r, key);
      own, view' := CutLevel(k, mem, own, view, left, h, c, s, r);
      MoveSuffix(c, s, r);
    }

    /** Cuts the tree at `key`, level by level, and repairs the borders along the cut. What is below
        `key` stays, the rest goes to a new tree. */
    method SplitOff(key: int) returns (right: Ptr, ghost lt: set<Ptr>, ghost rt: set<Ptr>)
      requires Valid() && root.Root?
      modifies this`mem, this`counts, this`own, this`root
      ensures root.Root? && Counted(mem, counts)
      ensures TreeOk(mem, own, all, lt, root.ptr) && TreeOk(mem, own, all, rt, right)
      ensures lt !! rt && lt + rt == mem.Keys
      ensures CountBelow(all, key) <= |all|
      ensures InOrder(mem, root.ptr, mem[root.ptr].height) == all[..CountBelow(all, key)]
      ensures InOrder(mem, right, mem[right].height) == all[CountBelow(all, key)..]
      ensures forall x :: 0 <= x < |all| ==> (all[x].key < key <==> x < CountBelow(all, key))
    {
      var top := root.ptr;
      ghost var k;
      right, k := StartCut(top, key);
      lt, rt := CutToLeaves(top, right, key, k);
      root, right, lt, rt := FixBothBorders(top, right, lt, rt);
      CountBelowDivides(all, key);
      InOrderSpan(mem, own, all, root.ptr);
      InOrderSpan(mem, own, all, right);
    }

    /** The empty nodes that the right part will go to. */
    method StartCut(top: Ptr, key: int) returns (right: Ptr, ghost k: Cut)
      requires BTreeOk(mem, own, all, top) && Ascending(all) && Counted(mem, counts)
      modifies this`mem, this`counts, this`own
      ensures Counted(mem, counts) && k.all == all && k.m == CountBelow(all, key) && k.root == top
      ensures CutBase(k) && PillarAbove(k.mem, mem, k.pillar) && PillarSpans(k.own, own, k.pillar, k.m)
      ensures PointersOk(mem) && Ordered(mem, own, own, all) && right == k.pillar[|k.pillar| - 1]
    {
      ghost var m, m0, own0 := CountBelow(all, key), mem, own;
      CountBelowDivides(all, key);
      ghost var pillar, view;
      right, pillar, view := NewPillar(mem[top].height, own, m);
      PillarSpansSame(own0, own, view, pillar, m);
      k := Cut(m0, own0, all, top, pillar, m);
      CutBaseOk(k, mem);
    }

    method FixBothBorders(top: Ptr, right: Ptr, ghost lt: set<Ptr>, ghost rt: set<Ptr>)
        returns (newRoot: MaybeRoot, newRight: Ptr, ghost lt': set<Ptr>, ghost rt': set<Ptr>)
      requires Counted(mem, counts)
      requires top in mem && BorderTree(mem, own, all, RightSide, lt, top, mem[top].height)
      requires right in mem && BorderTree(mem, own, all, LeftSide, rt, right, mem[right].height)
      requires lt !! rt && lt + rt == mem.Keys
      modifies this`mem, this`counts, this`own
      ensures newRoot.Root? && Counted(mem, counts)
      ensures TreeOk(mem, own, all, lt', newRoot.ptr) && TreeOk(mem, own, all, rt', newRight)
      ensures lt' !! rt' && lt' + rt' == mem.Keys
      ensures own[newRoot.ptr] == old(own)[top] && own[newRight] == old(own)[right]
    {
      ghost var m1, own1 := mem, own;
      var newTop;
      newTop, lt' := FixRightBorder(top, lt);
      BorderTreeBeside(m1, own1, all, LeftSide, rt, right, m1[right].height, lt, mem, own, lt', newTop);
      ghost var m2, own2 := mem, own;
      newRight, rt' := FixLeftBorder(right, rt);
      TreeBeside(m2, own2, all, lt', newTop, rt, mem, own, rt', newRight);
      newRoot := Root(newTop);
    }

    method CutToLeaves(top: Ptr, right: Ptr, key: int, ghost k: Cut) returns (ghost lt: set<Ptr>, ghost rt: set<Ptr>)
      requires Counted(mem, counts) && k.all == all && Ascending(all) && k.m == CountBelow(all, key) && k.root == top
      requires CutBase(k) && PillarAbove(k.mem, mem, k.pillar) && PillarSpans(k.own, own, k.pillar, k.m)
      requires PointersOk(mem) && Ordered(mem, own, own, all) && right == k.pillar[|k.pillar| - 1]
      modifies this`mem, this`own
      ensures Counted(mem, counts)
      ensures top in mem && BorderTree(mem, own, all, RightSide, lt, top, mem[top].height)
      ensures right in mem && BorderTree(mem, own, all, LeftSide, rt, right, mem[right].height)
      ensures lt !! rt && lt + rt == mem.Keys
      ensures own[top] == Span(0, k.m) && own[right] == Span(k.m, |all|)
    {
      ghost var view := CutStart(k, mem, own);
      ghost var left := CutLevels(top, right, key, k, view, k.mem[top].height);
      CutBorders(k, mem, own, left);
      lt, rt := LeftTree(k, own, left), RightTree(k, own, left);
    }

    method CutLevels(top: Ptr, right: Ptr, key: int, ghost k: Cut, ghost view0: Spans, ghost h0: nat) returns (ghost left: set<Ptr>)
      requires Counted(mem, counts) && k.all == all && Ascending(all) && k.m == CountBelow(all, key)
      requires Cutting(k, mem, own, view0, {}, h0, top, right)
      modifies this`mem, this`own
      ensures Counted(mem, counts)
      ensures Spines(k, mem, own, left, -1) && Wf(mem, own, all)
    {
      ghost var view, h := view0, h0;
      left := {};
      var c, r := top, right;
      while true
        invariant Counted(mem, counts) && Cutting(k, mem, own, view, left, h, c, r)
        decreases h
      {
        view := CutOneLevel(c, r, key, k, view, left, h);
        left := left + {c};
        if mem[c].height == 0 { break; }
        c, r, h := mem[c].edges[|mem[c].kvs|], mem[r].edges[0], h - 1;
      }
    }

    // ----- pushing in bulk -----

    /** Goes up from a full last leaf to a node with room, or to a new root. */
    method FindOpen(leaf: Ptr, ghost base: nat) returns (open: Ptr)
      requires root.Root? && Pushing(mem, own, all, base, root.ptr) && Counted(mem, counts)
      requires LastLeaf(mem, own, all, leaf) && |mem[leaf].kvs| == CAPACITY
      modifies this`mem, this`counts, this`root, this`own
      ensures root.Root? && Open(mem, own, all, base, root.ptr, open) && Counted(mem, counts)
    {
      var test := leaf;
      forall q | q in mem ensures FullBelow(mem, own, |all|, 0, q) { assert LongEnough(mem, own, base, root.ptr, |all|, q); }
      FullOneUp(mem, own, all, base, root.ptr, test);
      while mem[test].link.Child?
        invariant test in mem && test in own && own[test].hi == |all|
        invariant mem == old(mem) && own == old(own) && root == old(root) && counts == old(counts)
        invariant AllFullBelow(mem, own, |all|, mem[test].height + 1)
        decreases mem[root.ptr].height - mem[test].height
      {
        ParentLast(mem, own, all, base, root.ptr, test);
        var parent := mem[test].link.parent;
        if |mem[parent].kvs| < CAPACITY { return parent; }
        FullOneUp(mem, own, all, base, root.ptr, parent);
        test := parent;
      }
      open := NewRootLevel(test, base);
    }

    method NewRootLevel(top: Ptr, ghost base: nat) returns (new_: Ptr)
      requires root.Root? && Plentiful(mem, own, all, base, root.ptr) && Counted(mem, counts)
      requires top in mem && mem[top].link.NoParent? && AllFullBelow(mem, own, |all|, mem[top].height + 1)
      modifies this`mem, this`counts, this`root, this`own
      ensures root == Root(new_) && Open(mem, own, all, base, new_, new_) && Counted(mem, counts)
    {
      ghost var m0 := mem;
      assert Hangs(mem, root.ptr, {}, top);
      new_ := PushInternalLevel(top);
      NewTopOpen(m0, own, all, base, top, new_);
      own := own[new_ := Span(0, |all|)];
      root := Root(new_);
    }

    /** Pushes a pair and, right of it, an empty tree. */
    method PushOpen(open: Ptr, kv: KV, ghost base: nat)
      requires root.Root? && Open(mem, own, all, base, root.ptr, open) && Counted(mem, counts)
      modifies this`mem, this`counts, this`own, this`all
      ensures all == old(all) + [kv] && Pushing(mem, own, all, base, root.ptr) && Counted(mem, counts)
      ensures open in mem && open in own && own[open].hi == |all|
    {
      ghost var m0, own0, all0 := mem, own, all;
      var treeHeight := mem[open].height - 1;
      GrowEnd(mem, own, all, kv, treeHeight + 1);
      ghost var view := GrownTo(mem, own, |all|, treeHeight);
      own, all := GrownTo(mem, own, |all|, treeHeight + 1), all + [kv];
      var rightTree;
      ghost var pillar;
      rightTree, pillar, view := NewPillar(treeHeight, view, |all|);
      ExtendPushing(m0, own0, all0, base, root.ptr, open, kv, mem, own, view, pillar);
      // At the end of the node, so that only the new edge needs its link set.
      InsertFit(open, |mem[open].kvs|, kv, rightTree);
    }

    /** Pushes one pair at the end; `cur` is the last leaf before and `next` after. */
    method BulkPushOne(cur: Ptr, kv: KV, ghost base: nat) returns (next: Ptr)
      requires root.Root? && Pushing(mem, own, all, base, root.ptr) && Counted(mem, counts) && LastLeaf(mem, own, all, cur)
      modifies this`mem, this`counts, this`root, this`own, this`all
      ensures root.Root? && all == old(all) + [kv]
      ensures Pushing(mem, own, all, base, root.ptr) && Counted(mem, counts) && LastLeaf(mem, own, all, next)
    {
      assert LongEnough(mem, own, base, root.ptr, |all|, cur);
      if |mem[cur].kvs| < CAPACITY {
        PushLeaf(mem, own, all, base, root.ptr, cur, kv);
        ghost var kvs := InsertAt(mem[cur].kvs, |mem[cur].kvs|, kv);
        assert kvs == mem[cur].kvs + [kv];
        PairsCounted(mem, cur, mem[cur].kvs + [kv], counts);
        mem := mem[cur := mem[cur].(kvs := mem[cur].kvs + [kv])];
        own, all := AllUp(own, |all|), all + [kv];
        next := cur;
      } else {
        var open := FindOpen(cur, base);
        PushOpen(open, kv, base);
        next := LastLeafEdge(open);
      }
    }

    /** Steals what the right border lacks, level by level, from siblings with plenty. */
    method FixRightBorderOfPlentiful(ghost base: nat)
      requires root.Root? && Pushing(mem, own, all, base, root.ptr) && Counted(mem, counts)
      modifies this`mem, this`own
      ensures BTreeOk(mem, own, all, root.ptr) && Counted(mem, counts)
    {
      var cur := root.ptr;
      StockingStart(mem, own, all, base, cur);
      while mem[cur].height > 0
        invariant cur in mem && Stocking(mem, own, all, base, root.ptr, mem[cur].height) && Counted(mem, counts)
        invariant OnBorder(RightSide, own, root.ptr, cur) && (cur != root.ptr ==> |mem[cur].kvs| >= MIN_LEN)
        decreases mem[cur].height
      {
        cur := StockRightChild(cur, base);
      }
      StockingDone(mem, own, all, base, root.ptr);
    }

    method StealToStock(p: Ptr, k: nat, count: nat, ghost b: Ptr, ghost o: Ptr, ghost base: nat)
      requires root.Root? && p in mem && Counted(mem, counts) && Stocking(mem, own, all, base, root.ptr, mem[p].height)
      requires BorderPair(mem, RightSide, p, k, b, o) && OnBorder(RightSide, own, root.ptr, p)
      requires count > 0 && |mem[b].kvs| + count == MIN_LEN && (p != root.ptr ==> |mem[p].kvs| >= MIN_LEN)
      modifies this`mem, this`own
      ensures Counted(mem, counts) && Stocking(mem, own, all, base, root.ptr, old(mem)[p].height - 1)
      ensures b in mem && OnBorder(RightSide, own, root.ptr, b) && |mem[b].kvs| == MIN_LEN && mem[b].height == old(mem)[p].height - 1
    {
      StockingPair(mem, own, all, base, root.ptr, p, k, b, o);
      ghost var m0, own0, n := mem, own, |mem[o].kvs| - count;
      BulkStealLeft(p, k, count);
      StockingSteal(m0, own0, all, base, root.ptr, p, k, b, o, n);
      own := BorderSpans(own, o, b, Border(m0, own0, p, k, n));
    }

    method StockRightChild(p: Ptr, ghost base: nat) returns (r: Ptr)
      requires root.Root? && p in mem && mem[p].height > 0 && Counted(mem, counts)
      requires Stocking(mem, own, all, base, root.ptr, mem[p].height)
      requires OnBorder(RightSide, own, root.ptr, p) && (p != root.ptr ==> |mem[p].kvs| >= MIN_LEN)
      modifies this`mem, this`own
      ensures Counted(mem, counts) && r in mem && mem[r].height == old(mem)[p].height - 1
      ensures Stocking(mem, own, all, base, root.ptr, mem[r].height)
      ensures OnBorder(RightSide, own, root.ptr, r) && |mem[r].kvs| >= MIN_LEN
    {
      assert EdgesOk(mem, p) && EdgeOk(mem, p, |mem[p].kvs| - 1) && EdgeOk(mem, p, |mem[p].kvs|);
      var k := |mem[p].kvs| - 1;
      var l := mem[p].edges[k];
      r := mem[p].edges[k + 1];
      StockingPair(mem, own, all, base, root.ptr, p, k, r, l);
      var rightLen := |mem[r].kvs|;
      if rightLen < MIN_LEN {
        StealToStock(p, k, MIN_LEN - rightLen, r, l, base);
      } else {
        StockingPass(mem, own, all, base, root.ptr, p, k, r, l);
      }
    }

    /** Pushes all pairs at the end of a tree: of any B-tree, with its number of pairs for `base`, or of an empty
        root. */
    method BulkPush(items: seq<KV>, ghost base: nat)
      requires root.Root? && Pushing(mem, own, all, base, root.ptr) && Counted(mem, counts)
      modifies this
      ensures root.Root? && BTreeOk(mem, own, all, root.ptr) && Counted(mem, counts)
      ensures all == old(all) + items && length == old(length) + |items|
    {
      var cur := LastLeafEdge(root.ptr);
      for i := 0 to |items|
        invariant root.Root? && Pushing(mem, own, all, base, root.ptr) && Counted(mem, counts) && LastLeaf(mem, own, all, cur)
        invariant all == old(all) + items[..i] && length == old(length) + i
      {
        cur := BulkPushOne(cur, items[i], base);
        length := length + 1;
      }
      FixRightBorderOfPlentiful(base);
    }

    /** An empty leaf as the root of an empty map. */
    method NewRoot()
      requires Valid() && root.NoRoot?
      modifies this
      ensures root.Root? && Pushing(mem, own, all, 0, root.ptr) && Counted(mem, counts) && all == [] && length == 0
    {
      var p := Fresh();
      ghost var m0 := mem;
      mem := mem[p := Node(0, [], [], NoParent)];
      CountedAlloc(m0, mem, counts, p);
      counts := counts.Inc(NodeSize(0));
      root := Root(p);
      own := map[p := Span(0, 0)];
      EmptyRootPushing(p);
    }

    /** The union of two ascending sources is pushed at the end of the tree, whose keys are all less; the right
        source wins where both have a key. */
    method AppendFromSortedIters(left: seq<KV>, right: seq<KV>, ghost base: nat)
      requires root.Root? && Pushing(mem, own, all, base, root.ptr) && Counted(mem, counts)
      requires Ascending(all) && length == |all| && Ascending(left) && Ascending(right) && KeysBelow(all, left) && KeysBelow(all, right)
      modifies this
      ensures Valid() && all == old(all) + Union(left, right) && Contents() == old(Contents()) + AsMap(left) + AsMap(right)
    {
      var iter := new MergeIterInner(left, right);
      var merged := iter.Collect();
      AppendedAsMap(all, left, right);
      BulkPush(merged, base);
    }

    /** Into a new root where there is none. */
    method AppendToNewRoot(left: seq<KV>, right: seq<KV>)
      requires Valid() && root.NoRoot? && Ascending(left) && Ascending(right)
      modifies this
      ensures Valid() && all == Union(left, right) && Contents() == AsMap(left) + AsMap(right)
    {
      NewRoot();
      AfterNone(Union(left, right), AsMap(left), AsMap(right));
      assert KeysBelow([], left) && KeysBelow([], right);
      AppendFromSortedIters(left, right, 0);
    }

    /** To a map that has pairs, all of them with lesser keys. */
    method AppendToRoot(left: seq<KV>, right: seq<KV>)
      requires Valid() && root.Root? && Ascending(left) && Ascending(right) && KeysBelow(all, left) && KeysBelow(all, right)
      modifies this
      ensures Valid() && all == old(all) + Union(left, right) && Contents() == old(Contents()) + AsMap(left) + AsMap(right)
    {
      BTreePushing(mem, own, all, root.ptr);
      AppendFromSortedIters(left, right, |all|);
    }
  }
}
