/** That a node's arrays hold what the node memory says. Each operation on arrays, done to records that
    hold the nodes it is about, leaves records that hold the nodes of the memory afterwards. Only the
    parent links are not in the arrays. */
module NodeLayout {
  import opened NodeStore
  import opened Ranks
  import opened Rebalance
  import opened Growth
  import opened SplitOff
  import opened NodeArrays

  ghost predicate Holds(rec: NodeRecord, n: Node)
    reads rec, rec.keys, rec.vals, rec.edges
  {
    && rec.Valid() && rec.height == n.height && Zip(rec.Keys(), rec.Vals()) == n.kvs
    && n.edges == rec.Edges()
  }

  // ----- one node -----

  lemma ZipInsert(keys: seq<int>, vals: seq<int>, i: nat, kv: KV)
    requires |keys| == |vals| && i <= |keys|
    ensures Zip(InsertAt(keys, i, kv.key), InsertAt(vals, i, kv.val)) == InsertAt(Zip(keys, vals), i, kv)
  {
  }

  lemma ZipRemove(keys: seq<int>, vals: seq<int>, i: nat)
    requires |keys| == |vals| && i < |keys|
    ensures Zip(RemoveAt(keys, i), RemoveAt(vals, i)) == RemoveAt(Zip(keys, vals), i)
  {
  }

  method LeafInsert(rec: NodeRecord, i: nat, kv: KV, ghost mem: Mem, ghost p: Ptr)
    requires p in mem && mem[p].height == 0 && Holds(rec, mem[p]) && i <= |mem[p].kvs| < CAPACITY
    modifies rec`len, rec.keys, rec.vals
    ensures Holds(rec, LeafInsertMem(mem, p, i, kv)[p])
  {
    ZipInsert(rec.Keys(), rec.Vals(), i, kv);
    rec.LeafInsertFit(i, kv);
  }

  method LeafRemove(rec: NodeRecord, i: nat, ghost mem: Mem, ghost p: Ptr) returns (kv: KV)
    requires p in mem && mem[p].height == 0 && Holds(rec, mem[p]) && i < |mem[p].kvs|
    modifies rec`len, rec.keys, rec.vals
    ensures kv == mem[p].kvs[i] && Holds(rec, LeafRemoveMem(mem, p, i)[p])
  {
    ZipRemove(rec.Keys(), rec.Vals(), i);
    kv := rec.LeafRemove(i);
  }

  method InternalInsert(rec: NodeRecord, i: nat, kv: KV, edge: Ptr, ghost mem: Mem, ghost p: Ptr)
    requires CanAttach(mem, p, i, edge) && Holds(rec, mem[p]) && |mem[p].kvs| < CAPACITY
    modifies rec`len, rec.keys, rec.vals, rec.edges
    ensures Holds(rec, AttachMem(mem, p, i, kv, edge)[p])
  {
    ZipInsert(rec.Keys(), rec.Vals(), i, kv);
    assert EdgesOk(mem, p);
    rec.InternalInsertFit(i, kv, edge);
  }

  // ----- one node becomes two -----

  method Split(rec: NodeRecord, m: nat, new_: NodeRecord, ghost mem: Mem, ghost p: Ptr, ghost q: Ptr) returns (kv: KV)
    requires CanSplit(mem, p, m, q) && Holds(rec, mem[p])
    requires new_.Valid() && new_.height == rec.height && Apart(rec, new_)
    modifies rec`len, new_`len, new_.keys, new_.vals, new_.edges
    ensures kv == mem[p].kvs[m] && Holds(rec, SplitMem(mem, p, m, q)[p]) && Holds(new_, SplitMem(mem, p, m, q)[q])
  {
    ghost var keys, vals := rec.Keys(), rec.Vals();
    ZipCut(keys, vals, 0, m);
    ZipCut(keys, vals, m + 1, |keys|);
    assert keys[0..m] == keys[..m] && vals[0..m] == vals[..m] && keys[m + 1..|keys|] == keys[m + 1..] && vals[m + 1..|keys|] == vals[m + 1..];
    kv := SplitData(rec, m, new_);
  }

  method MoveSuffix(left: NodeRecord, s: nat, right: NodeRecord, ghost mem: Mem, ghost c: Ptr, ghost r: Ptr)
    requires CanMoveSuffix(mem, c, s, r) && Holds(left, mem[c]) && Holds(right, mem[r]) && Apart(left, right)
    modifies left`len, right`len, right.keys, right.vals, right.edges
    ensures Holds(left, SuffixMem(mem, c, s, r)[c]) && Holds(right, SuffixMem(mem, c, s, r)[r])
  {
    ghost var keys, vals := left.Keys(), left.Vals();
    ZipCut(keys, vals, 0, s);
    ZipCut(keys, vals, s, |keys|);
    assert keys[0..s] == keys[..s] && vals[0..s] == vals[..s] && keys[s..|keys|] == keys[s..] && vals[s..|keys|] == vals[s..];
    MoveSuffixData(left, s, right);
  }

  // ----- two siblings -----

  /** The keys, and the values, of both siblings with the parent's between them. */
  ghost function Both<T>(left: seq<T>, x: T, right: seq<T>): seq<T> {
    left + [x] + right
  }

  lemma ZipBoth(lk: seq<int>, lv: seq<int>, pk: seq<int>, pv: seq<int>, k: nat, rk: seq<int>, rv: seq<int>)
    requires |lk| == |lv| && |pk| == |pv| && |rk| == |rv| && k < |pk|
    ensures Zip(Both(lk, pk[k], rk), Both(lv, pv[k], rv)) == Both(Zip(lk, lv), Zip(pk, pv)[k], Zip(rk, rv))
  {
  }

  /** Both siblings' pairs, and the parent's, cut at `n` one way or the other. */
  lemma ZipShared(keys: seq<int>, vals: seq<int>, pk: seq<int>, pv: seq<int>, k: nat, n: nat)
    requires |keys| == |vals| && |pk| == |pv| && k < |pk| && n < |keys|
    ensures Zip(keys[..n], vals[..n]) == Zip(keys, vals)[..n] && Zip(keys[n + 1..], vals[n + 1..]) == Zip(keys, vals)[n + 1..]
    ensures Zip(pk[k := keys[n]], pv[k := vals[n]]) == Zip(pk, pv)[k := Zip(keys, vals)[n]]
  {
  }

  /** What a steal from the left leaves in each node makes the shared-out pairs. */
  lemma StolenLeft(lk: seq<int>, lv: seq<int>, pk: seq<int>, pv: seq<int>, k: nat, rk: seq<int>, rv: seq<int>, n: nat)
    requires |lk| == |lv| && |pk| == |pv| && |rk| == |rv| && k < |pk| && n < |lk|
    ensures var both := Both(Zip(lk, lv), Zip(pk, pv)[k], Zip(rk, rv));
            && Zip(lk[..n], lv[..n]) == both[..n] && Zip(pk[k := lk[n]], pv[k := lv[n]]) == Zip(pk, pv)[k := both[n]]
            && Zip(lk[n + 1..] + [pk[k]] + rk, lv[n + 1..] + [pv[k]] + rv) == both[n + 1..]
  {
    var keys, vals := Both(lk, pk[k], rk), Both(lv, pv[k], rv);
    ZipBoth(lk, lv, pk, pv, k, rk, rv);
    ZipShared(keys, vals, pk, pv, k, n);
    assert keys[..n] == lk[..n] && vals[..n] == lv[..n] && keys[n] == lk[n] && vals[n] == lv[n];
    assert keys[n + 1..] == lk[n + 1..] + [pk[k]] + rk && vals[n + 1..] == lv[n + 1..] + [pv[k]] + rv;
  }

  lemma StolenRight(lk: seq<int>, lv: seq<int>, pk: seq<int>, pv: seq<int>, k: nat, rk: seq<int>, rv: seq<int>, count: nat)
    requires |lk| == |lv| && |pk| == |pv| && |rk| == |rv| && k < |pk| && 0 < count <= |rk|
    ensures var both, n := Both(Zip(lk, lv), Zip(pk, pv)[k], Zip(rk, rv)), |lk| + count;
            && Zip(lk + [pk[k]] + rk[..count - 1], lv + [pv[k]] + rv[..count - 1]) == both[..n]
            && Zip(pk[k := rk[count - 1]], pv[k := rv[count - 1]]) == Zip(pk, pv)[k := both[n]]
            && Zip(rk[count..], rv[count..]) == both[n + 1..]
  {
    var n := |lk| + count;
    var keys, vals := Both(lk, pk[k], rk), Both(lv, pv[k], rv);
    ZipBoth(lk, lv, pk, pv, k, rk, rv);
    ZipShared(keys, vals, pk, pv, k, n);
    assert keys[..n] == lk + [pk[k]] + rk[..count - 1] && vals[..n] == lv + [pv[k]] + rv[..count - 1];
    assert keys[n] == rk[count - 1] && vals[n] == rv[count - 1] && keys[n + 1..] == rk[count..] && vals[n + 1..] == rv[count..];
  }

  lemma EdgesShared(le: seq<Ptr>, re: seq<Ptr>, n: nat)
    requires n < |le| + |re|
    ensures n < |le| ==> (le + re)[..n + 1] == le[..n + 1] && (le + re)[n + 1..] == le[n + 1..] + re
    ensures n >= |le| ==> (le + re)[..n + 1] == le + re[..n + 1 - |le|] && (le + re)[n + 1..] == re[n + 1 - |le|..]
  {
  }

  /** A parent and two of its children before and after the pairs are shared out at `n`. */
  datatype Trio = Trio(parent: Node, left: Node, right: Node)

  /** The same pairs and edges, in order, with `n` of the pairs on the left. */
  ghost predicate Shared(f: Trio, k: nat, n: nat, t: Trio) {
    && t.parent.height == f.parent.height && t.left.height == f.left.height == t.right.height == f.right.height
    && k < |f.parent.kvs| == |t.parent.kvs| && t.parent.kvs == f.parent.kvs[k := t.parent.kvs[k]]
    && |t.left.kvs| == n && Both(t.left.kvs, t.parent.kvs[k], t.right.kvs) == Both(f.left.kvs, f.parent.kvs[k], f.right.kvs)
    && t.parent.edges == f.parent.edges
    && (if f.left.height == 0 then t.left.edges == [] && t.right.edges == []
        else |t.left.edges| == n + 1 && t.left.edges + t.right.edges == f.left.edges + f.right.edges)
  }

  lemma Cut<T>(a: seq<T>, b: seq<T>, c: seq<T>)
    requires a + b == c
    ensures a == c[..|a|] && b == c[|a|..]
  {
  }

  /** Cutting in the middle is the only way to share out like that. */
  lemma SharedCut(f: Trio, k: nat, n: nat, t: Trio)
    requires Shared(f, k, n, t)
    ensures var both := Both(f.left.kvs, f.parent.kvs[k], f.right.kvs);
            n < |both| && t.left.kvs == both[..n] && t.parent.kvs[k] == both[n] && t.right.kvs == both[n + 1..]
    ensures f.left.height > 0 ==>
              && n < |f.left.edges| + |f.right.edges|
              && t.left.edges == (f.left.edges + f.right.edges)[..n + 1]
              && t.right.edges == (f.left.edges + f.right.edges)[n + 1..]
  {
    var x := t.parent.kvs[k];
    assert Both(t.left.kvs, x, t.right.kvs)[..n] == t.left.kvs && Both(t.left.kvs, x, t.right.kvs)[n + 1..] == t.right.kvs;
    assert Both(t.left.kvs, x, t.right.kvs)[n] == x;
    if f.left.height > 0 { Cut(t.left.edges, t.right.edges, f.left.edges + f.right.edges); }
  }

  ghost function TrioOf(mem: Mem, p: Ptr, l: Ptr, r: Ptr): Trio
    requires p in mem && l in mem && r in mem
  {
    Trio(mem[p], mem[l], mem[r])
  }

  /** This is what the rebalanced memory has. */
  lemma Shares(mem: Mem, p: Ptr, k: nat, n: nat)
    requires CanRebalance(mem, p, k, n)
    ensures var t, l, r := RebalanceMem(mem, p, k, n), mem[p].edges[k], mem[p].edges[k + 1];
            p in t && l in t && r in t && Shared(TrioOf(mem, p, l, r), k, n, TrioOf(t, p, l, r))
  {
    assert EdgeOk(mem, p, k) && EdgeOk(mem, p, k + 1);
    var both, edges := BothKvs(mem, p, k), BothEdges(mem, p, k);
    assert both[..n] + [both[n]] + both[n + 1..] == both;
    if mem[mem[p].edges[k]].height > 0 { assert edges[..n + 1] + edges[n + 1..] == edges; }
  }

  ghost predicate TrioHeld(f: Trio, parent: NodeRecord, left: NodeRecord, right: NodeRecord)
    reads parent, parent.keys, parent.vals, parent.edges, left, left.keys, left.vals, left.edges, right, right.keys, right.vals, right.edges
  {
    && Holds(parent, f.parent) && Holds(left, f.left) && Holds(right, f.right)
    && Apart(parent, left) && Apart(parent, right) && Apart(left, right)
  }

  lemma SharedLeft(f: Trio, k: nat, n: nat, t: Trio, lk: seq<int>, lv: seq<int>, pk: seq<int>, pv: seq<int>, rk: seq<int>, rv: seq<int>)
    requires Shared(f, k, n, t) && n < |lk| == |lv| && k < |pk| == |pv| && |rk| == |rv|
    requires Zip(lk, lv) == f.left.kvs && Zip(pk, pv) == f.parent.kvs && Zip(rk, rv) == f.right.kvs
    requires f.left.height > 0 ==> |f.left.edges| == |lk| + 1 && |f.right.edges| == |rk| + 1
    ensures Zip(lk[..n], lv[..n]) == t.left.kvs && Zip(pk[k := lk[n]], pv[k := lv[n]]) == t.parent.kvs
    ensures Zip(lk[n + 1..] + [pk[k]] + rk, lv[n + 1..] + [pv[k]] + rv) == t.right.kvs
    ensures f.left.height > 0 ==> t.left.edges == f.left.edges[..n + 1] && t.right.edges == f.left.edges[n + 1..] + f.right.edges
  {
    SharedCut(f, k, n, t);
    StolenLeft(lk, lv, pk, pv, k, rk, rv, n);
    if f.left.height > 0 { EdgesShared(f.left.edges, f.right.edges, n); }
  }

  lemma SharedRight(f: Trio, k: nat, count: nat, t: Trio, lk: seq<int>, lv: seq<int>, pk: seq<int>, pv: seq<int>, rk: seq<int>, rv: seq<int>)
    requires Shared(f, k, |lk| + count, t) && |lk| == |lv| && k < |pk| == |pv| && 0 < count <= |rk| == |rv|
    requires Zip(lk, lv) == f.left.kvs && Zip(pk, pv) == f.parent.kvs && Zip(rk, rv) == f.right.kvs
    requires f.left.height > 0 ==> |f.left.edges| == |lk| + 1 && |f.right.edges| == |rk| + 1
    ensures Zip(lk + [pk[k]] + rk[..count - 1], lv + [pv[k]] + rv[..count - 1]) == t.left.kvs
    ensures Zip(pk[k := rk[count - 1]], pv[k := rv[count - 1]]) == t.parent.kvs && Zip(rk[count..], rv[count..]) == t.right.kvs
    ensures f.left.height > 0 ==> count <= |f.right.edges| && t.left.edges == f.left.edges + f.right.edges[..count] && t.right.edges == f.right.edges[count..]
  {
    SharedCut(f, k, |lk| + count, t);
    StolenRight(lk, lv, pk, pv, k, rk, rv, count);
    if f.left.height > 0 { EdgesShared(f.left.edges, f.right.edges, |lk| + count); }
  }

  /** The records held `f`; afterwards they hold any `t` that shares out the same with `count` pairs more
      on the right. By `Shares`, the rebalanced memory is one. */
  method BulkStealLeft(parent: NodeRecord, k: nat, left: NodeRecord, right: NodeRecord, count: nat, ghost f: Trio, ghost t: Trio)
    requires TrioHeld(f, parent, left, right) && 0 < count <= left.len && right.len + count <= CAPACITY && Shared(f, k, left.len - count, t)
    modifies left`len, right`len, right.keys, right.vals, right.edges, parent.keys, parent.vals
    ensures TrioHeld(t, parent, left, right)
  {
    SharedLeft(f, k, left.len - count, t, left.Keys(), left.Vals(), parent.Keys(), parent.Vals(), right.Keys(), right.Vals());
    StealLeftTo(parent, k, left, right, count, t);
  }

  /** With what the three nodes are to have given in terms of what they have. */
  method StealLeftTo(parent: NodeRecord, k: nat, left: NodeRecord, right: NodeRecord, count: nat, ghost t: Trio)
    requires parent.Valid() && left.Valid() && right.Valid() && Apart(parent, left) && Apart(parent, right) && Apart(left, right)
    requires k < parent.len && 0 < count <= left.len && right.len + count <= CAPACITY
    requires t.parent.height == parent.height && t.left.height == left.height == t.right.height == right.height
    requires var n := left.len - count;
             && Zip(left.Keys()[..n], left.Vals()[..n]) == t.left.kvs
             && Zip(parent.Keys()[k := left.Keys()[n]], parent.Vals()[k := left.Vals()[n]]) == t.parent.kvs
             && Zip(left.Keys()[n + 1..] + [parent.Keys()[k]] + right.Keys(), left.Vals()[n + 1..] + [parent.Vals()[k]] + right.Vals()) == t.right.kvs
             && t.parent.edges == parent.Edges()
             && t.left.edges == (if left.height == 0 then [] else left.Edges()[..n + 1])
             && t.right.edges == (if left.height == 0 then [] else left.Edges()[n + 1..] + right.Edges())
    modifies left`len, right`len, right.keys, right.vals, right.edges, parent.keys, parent.vals
    ensures TrioHeld(t, parent, left, right)
  {
    BulkStealLeftData(parent, k, left, right, count);
    assert Holds(parent, t.parent);
    assert Holds(left, t.left);
  }

  /** The mirror image. */
  method BulkStealRight(parent: NodeRecord, k: nat, left: NodeRecord, right: NodeRecord, count: nat, ghost f: Trio, ghost t: Trio)
    requires TrioHeld(f, parent, left, right) && 0 < count <= right.len && left.len + count <= CAPACITY && Shared(f, k, left.len + count, t)
    modifies left`len, left.keys, left.vals, left.edges, right`len, right.keys, right.vals, right.edges, parent.keys, parent.vals
    ensures TrioHeld(t, parent, left, right)
  {
    SharedRight(f, k, count, t, left.Keys(), left.Vals(), parent.Keys(), parent.Vals(), right.Keys(), right.Vals());
    StealRightTo(parent, k, left, right, count, t);
  }

  method StealRightTo(parent: NodeRecord, k: nat, left: NodeRecord, right: NodeRecord, count: nat, ghost t: Trio)
    requires parent.Valid() && left.Valid() && right.Valid() && Apart(parent, left) && Apart(parent, right) && Apart(left, right)
    requires k < parent.len && 0 < count <= right.len && left.len + count <= CAPACITY
    requires t.parent.height == parent.height && t.left.height == left.height == t.right.height == right.height
    requires && Zip(left.Keys() + [parent.Keys()[k]] + right.Keys()[..count - 1], left.Vals() + [parent.Vals()[k]] + right.Vals()[..count - 1]) == t.left.kvs
             && Zip(parent.Keys()[k := right.Keys()[count - 1]], parent.Vals()[k := right.Vals()[count - 1]]) == t.parent.kvs
             && Zip(right.Keys()[count..], right.Vals()[count..]) == t.right.kvs
             && t.parent.edges == parent.Edges()
             && t.left.edges == (if left.height == 0 then [] else left.Edges() + right.Edges()[..count])
             && t.right.edges == (if left.height == 0 then [] else right.Edges()[count..])
    modifies left`len, left.keys, left.vals, left.edges, right`len, right.keys, right.vals, right.edges, parent.keys, parent.vals
    ensures TrioHeld(t, parent, left, right)
  {
    BulkStealRightData(parent, k, left, right, count);
  }

  method Merge(parent: NodeRecord, k: nat, left: NodeRecord, right: NodeRecord, ghost mem: Mem, ghost p: Ptr)
    requires Around(mem, p, k) && left.len + 1 + right.len <= CAPACITY
    requires TrioHeld(TrioOf(mem, p, mem[p].edges[k], mem[p].edges[k + 1]), parent, left, right)
    modifies left`len, left.keys, left.vals, left.edges, parent`len, parent.keys, parent.vals, parent.edges
    ensures Holds(parent, MergeMem(mem, p, k)[p]) && Holds(left, MergeMem(mem, p, k)[mem[p].edges[k]])
  {
    ghost var lk, lv, pk, pv, rk, rv := left.Keys(), left.Vals(), parent.Keys(), parent.Vals(), right.Keys(), right.Vals();
    MergeData(parent, k, left, right);
    ZipBoth(lk, lv, pk, pv, k, rk, rv);
    ZipRemove(pk, pv, k);
  }
}
