/** The arrays inside a node: keys, values and edges are shifted in place, and what is in use of
    them afterwards is the sequence that the operations on whole nodes compute with. Cells beyond
    the length hold anything. */
module NodeArrays {
  import opened NodeStore
  import opened Ranks

  // ----- slices -----

  /** `ptr::copy`: the source and the destination may overlap. */
  method CopyWithin<T>(a: array<T>, src: nat, dst: nat, n: nat)
    requires src + n <= a.Length && dst + n <= a.Length
    modifies a
    ensures a[..dst] == old(a[..dst]) && a[dst..dst + n] == old(a[src..src + n]) && a[dst + n..] == old(a[dst + n..])
  {
    if dst <= src { CopyForward(a, src, dst, n); } else { CopyBackward(a, src, dst, n); }
  }

  method CopyForward<T>(a: array<T>, src: nat, dst: nat, n: nat)
    requires dst <= src && src + n <= a.Length
    modifies a
    ensures forall k :: 0 <= k < a.Length ==> a[k] == if dst <= k < dst + n then old(a[k - dst + src]) else old(a[k])
  {
    for i := 0 to n
      invariant forall k :: 0 <= k < a.Length ==> a[k] == if dst <= k < dst + i then old(a[k - dst + src]) else old(a[k])
    {
      a[dst + i] := a[src + i];
    }
  }

  method CopyBackward<T>(a: array<T>, src: nat, dst: nat, n: nat)
    requires src <= dst && dst + n <= a.Length
    modifies a
    ensures forall k :: 0 <= k < a.Length ==> a[k] == if dst <= k < dst + n then old(a[k - dst + src]) else old(a[k])
  {
    for i := n downto 0
      invariant forall k :: 0 <= k < a.Length ==> a[k] == if dst + i <= k < dst + n then old(a[k - dst + src]) else old(a[k])
    {
      a[dst + i] := a[src + i];
    }
  }

  /** Inserts before cell `idx` of the first `len` cells, the last of which is not in use. */
  method SliceInsert<T>(a: array<T>, len: nat, idx: nat, val: T)
    requires idx < len <= a.Length
    modifies a
    ensures a[..len] == InsertAt(old(a[..len - 1]), idx, val)
    ensures a[len..] == old(a[len..])
  {
    ghost var was := a[..];
    if len > idx + 1 {
      CopyWithin(a, idx, idx + 1, len - idx - 1);
    }
    ghost var moved := a[idx + 1..len];
    assert moved == was[idx..len - 1];
    a[idx] := val;
    assert a[..idx] == was[..idx] && a[idx + 1..len] == moved;
    assert a[..len] == a[..idx] + [val] + a[idx + 1..len];
    assert InsertAt(was[..len - 1], idx, val) == was[..idx] + [val] + was[idx..len - 1];
  }

  /** Takes out cell `idx` of the first `len` cells. */
  method SliceRemove<T>(a: array<T>, len: nat, idx: nat) returns (ret: T)
    requires idx < len <= a.Length
    modifies a
    ensures ret == old(a[idx])
    ensures a[..len - 1] == RemoveAt(old(a[..len]), idx)
    ensures a[len..] == old(a[len..])
  {
    ghost var was := a[..];
    ret := a[idx];
    CopyWithin(a, idx + 1, idx, len - idx - 1);
    assert a[..idx] == was[..idx] && a[idx..len - 1] == was[idx + 1..len];
    assert a[..len - 1] == a[..idx] + a[idx..len - 1];
    assert RemoveAt(was[..len], idx) == was[..idx] + was[idx + 1..len];
    assert a[len..] == a[len - 1..][1..] && was[len..] == was[len - 1..][1..];
  }

  /** The last `len - distance` of the first `len` cells move to the front. */
  method SliceShl<T>(a: array<T>, len: nat, distance: nat)
    requires distance <= len <= a.Length
    modifies a
    ensures a[..len - distance] == old(a[distance..len])
  {
    CopyWithin(a, distance, 0, len - distance);
  }

  /** The first `len - distance` of the first `len` cells move to the end of these. */
  method SliceShr<T>(a: array<T>, len: nat, distance: nat)
    requires distance <= len <= a.Length
    modifies a
    ensures a[distance..len] == old(a[..len - distance])
  {
    CopyWithin(a, 0, distance, len - distance);
  }

  method MoveToSlice<T>(src: array<T>, from: nat, dst: array<T>, at: nat, n: nat)
    requires src != dst && from + n <= src.Length && at + n <= dst.Length
    modifies dst
    ensures dst[..] == old(dst[..at] + src[from..from + n] + dst[at + n..])
  {
    for i := 0 to n
      invariant forall k :: 0 <= k < dst.Length ==> dst[k] == if at <= k < at + i then src[k - at + from] else old(dst[k])
    {
      dst[at + i] := src[from + i];
    }
  }

  // ----- one kind of cell at a time -----

  /** The last `count - 1` cells of the left child and the parent's cell `k` go before the right
      child's; the cell before those goes up to the parent. */
  method StealLeft<T>(parent: array<T>, k: nat, left: array<T>, leftLen: nat, right: array<T>, rightLen: nat, count: nat)
    requires left != right && parent != left && parent != right && k < parent.Length
    requires 0 < count <= leftLen <= left.Length && rightLen + count <= right.Length
    modifies right, parent
    ensures parent[..] == old(parent[..])[k := left[leftLen - count]]
    ensures right[..rightLen + count] == left[leftLen - count + 1..leftLen] + [old(parent[k])] + old(right[..rightLen])
  {
    ghost var mid, tail := parent[k], right[..rightLen];
    SliceShr(right, rightLen + count, count);
    assert right[count..rightLen + count] == tail;
    MoveToSlice(left, leftLen - count + 1, right, 0, count - 1);
    ghost var moved := right[..count - 1];
    assert right[count..rightLen + count] == tail;
    right[count - 1] := parent[k];
    parent[k] := left[leftLen - count];
    assert right[..count - 1] == moved && right[count..rightLen + count] == tail;
    ThreeParts(right[..rightLen + count], moved, mid, tail);
  }

  lemma ThreeParts<T>(s: seq<T>, a: seq<T>, x: T, b: seq<T>)
    requires |s| == |a| + 1 + |b| && s[..|a|] == a && s[|a|] == x && s[|a| + 1..] == b
    ensures s == a + [x] + b
  {}

  /** The edges that go with that. */
  method StealLeftEdges(left: array<Ptr>, leftLen: nat, right: array<Ptr>, rightLen: nat, count: nat)
    requires left != right && 0 < count <= leftLen < left.Length && rightLen + count < right.Length
    modifies right
    ensures right[..rightLen + count + 1] == left[leftLen - count + 1..leftLen + 1] + old(right[..rightLen + 1])
  {
    SliceShr(right, rightLen + count + 1, count);
    ghost var kept := right[count..rightLen + count + 1];
    MoveToSlice(left, leftLen - count + 1, right, 0, count);
    assert right[count..rightLen + count + 1] == kept;
  }

  /** The mirror image: the parent's cell and the first `count - 1` of the right child go to the left. */
  method StealRight<T>(parent: array<T>, k: nat, left: array<T>, leftLen: nat, right: array<T>, rightLen: nat, count: nat)
    requires left != right && parent != left && parent != right && k < parent.Length
    requires 0 < count <= rightLen <= right.Length && leftLen + count <= left.Length
    modifies left, right, parent
    ensures parent[..] == old(parent[..])[k := old(right[count - 1])]
    ensures left[..leftLen + count] == old(left[..leftLen]) + [old(parent[k])] + old(right[..count - 1])
    ensures right[..rightLen - count] == old(right[count..rightLen])
  {
    left[leftLen], parent[k] := parent[k], right[count - 1];
    MoveToSlice(right, 0, left, leftLen + 1, count - 1);
    SliceShl(right, rightLen, count);
  }

  method StealRightEdges(left: array<Ptr>, leftLen: nat, right: array<Ptr>, rightLen: nat, count: nat)
    requires left != right && 0 < count <= rightLen < right.Length && leftLen + count < left.Length
    modifies left, right
    ensures left[..leftLen + count + 1] == old(left[..leftLen + 1]) + old(right[..count])
    ensures right[..rightLen - count + 1] == old(right[count..rightLen + 1])
  {
    MoveToSlice(right, 0, left, leftLen + 1, count);
    SliceShl(right, rightLen + 1, count);
  }

  /** The parent's cell `k` and all of the right child's go to the end of the left child's. */
  method MergeCells<T>(parent: array<T>, parentLen: nat, k: nat, left: array<T>, leftLen: nat, right: array<T>, rightLen: nat)
    requires parent != left && parent != right && left != right
    requires k < parentLen <= parent.Length && leftLen + 1 + rightLen <= left.Length && rightLen <= right.Length
    modifies parent, left
    ensures left[..leftLen + 1 + rightLen] == old(left[..leftLen] + [parent[k]] + right[..rightLen])
    ensures parent[..parentLen - 1] == RemoveAt(old(parent[..parentLen]), k)
  {
    left[leftLen] := SliceRemove(parent, parentLen, k);
    MoveToSlice(right, 0, left, leftLen + 1, rightLen);
  }

  // ----- whole nodes -----

  /** The pairs that keys and values make. */
  ghost function Zip(keys: seq<int>, vals: seq<int>): (r: seq<KV>)
    requires |keys| == |vals|
    ensures |r| == |keys| && forall i :: 0 <= i < |r| ==> r[i] == KV(keys[i], vals[i])
  {
    seq(|keys|, i requires 0 <= i < |keys| && |keys| == |vals| => KV(keys[i], vals[i]))
  }

  /** Cutting and joining keys and values the same way cuts and joins the pairs. */
  lemma ZipJoin(k1: seq<int>, v1: seq<int>, k2: seq<int>, v2: seq<int>)
    requires |k1| == |v1| && |k2| == |v2|
    ensures Zip(k1 + k2, v1 + v2) == Zip(k1, v1) + Zip(k2, v2)
  {}

  lemma ZipCut(keys: seq<int>, vals: seq<int>, i: nat, j: nat)
    requires |keys| == |vals| && i <= j <= |keys|
    ensures Zip(keys[i..j], vals[i..j]) == Zip(keys, vals)[i..j]
  {}

  function EdgeCells(height: nat): nat {
    if height == 0 then 0 else CAPACITY + 1
  }

  /** A node as it lies in memory. A leaf has no room for edges. */
  class NodeRecord {
    const keys: array<int>
    const vals: array<int>
    const edges: array<Ptr>
    const height: nat
    var len: nat

    ghost predicate Valid()
      reads this
    {
      && keys.Length == vals.Length == CAPACITY && edges.Length == EdgeCells(height)
      && keys != vals && len <= CAPACITY
    }

    /** A new node: its cells hold anything, and none is used. */
    constructor (height: nat)
      ensures Valid() && len == 0 && this.height == height && fresh(keys) && fresh(vals) && fresh(edges)
      ensures Keys() == [] && Vals() == []
    {
      keys, vals, edges := new int[CAPACITY], new int[CAPACITY], new Ptr[EdgeCells(height)];
      len, this.height := 0, height;
    }

    /** A new internal node has one edge to begin with. */
    constructor OverChild(height: nat, child: Ptr)
      requires height > 0
      ensures Valid() && len == 0 && this.height == height && fresh(keys) && fresh(vals) && fresh(edges)
      ensures Keys() == [] && Vals() == [] && Edges() == [child]
    {
      keys, vals, edges := new int[CAPACITY], new int[CAPACITY], new Ptr[CAPACITY + 1];
      len, this.height := 0, height;
      new;
      edges[0] := child;
    }

    ghost function Keys(): seq<int>
      requires Valid()
      reads this, keys
    {
      keys[..len]
    }

    ghost function Vals(): seq<int>
      requires Valid()
      reads this, vals
    {
      vals[..len]
    }

    ghost function Edges(): seq<Ptr>
      requires Valid()
      reads this, edges
    {
      if height == 0 then [] else edges[..len + 1]
    }

    method LeafInsertFit(i: nat, kv: KV)
      requires Valid() && i <= len < CAPACITY
      modifies this`len, keys, vals
      ensures Valid() && Keys() == InsertAt(old(Keys()), i, kv.key) && Vals() == InsertAt(old(Vals()), i, kv.val)
    {
      SliceInsert(keys, len + 1, i, kv.key);
      SliceInsert(vals, len + 1, i, kv.val);
      len := len + 1;
    }

    method LeafRemove(i: nat) returns (kv: KV)
      requires Valid() && i < len
      modifies this`len, keys, vals
      ensures Valid() && kv == KV(old(Keys())[i], old(Vals())[i])
      ensures Keys() == RemoveAt(old(Keys()), i) && Vals() == RemoveAt(old(Vals()), i)
    {
      var k := SliceRemove(keys, len, i);
      var v := SliceRemove(vals, len, i);
      len := len - 1;
      kv := KV(k, v);
    }

    method InternalInsertFit(i: nat, kv: KV, edge: Ptr)
      requires Valid() && height > 0 && i <= len < CAPACITY
      modifies this`len, keys, vals, edges
      ensures Valid() && Keys() == InsertAt(old(Keys()), i, kv.key) && Vals() == InsertAt(old(Vals()), i, kv.val)
      ensures Edges() == InsertAt(old(Edges()), i + 1, edge)
    {
      SliceInsert(keys, len + 1, i, kv.key);
      SliceInsert(vals, len + 1, i, kv.val);
      SliceInsert(edges, len + 2, i + 1, edge);
      len := len + 1;
    }
  }

  /** No array belongs to two of the nodes. */
  ghost predicate Apart(a: NodeRecord, b: NodeRecord) {
    a != b && {a.keys, a.vals} !! {b.keys, b.vals} && a.edges != b.edges
  }

  /** Moves the pairs right of pair `m`, and their edges, to an empty node. */
  method SplitData(node: NodeRecord, m: nat, new_: NodeRecord) returns (kv: KV)
    requires node.Valid() && m < node.len && new_.Valid() && new_.height == node.height && Apart(node, new_)
    modifies node`len, new_`len, new_.keys, new_.vals, new_.edges
    ensures node.Valid() && new_.Valid() && kv == KV(old(node.Keys())[m], old(node.Vals())[m])
    ensures node.Keys() == old(node.Keys())[..m] && new_.Keys() == old(node.Keys())[m + 1..]
    ensures node.Vals() == old(node.Vals())[..m] && new_.Vals() == old(node.Vals())[m + 1..]
    ensures node.height > 0 ==> node.Edges() == old(node.Edges())[..m + 1] && new_.Edges() == old(node.Edges())[m + 1..]
  {
    var newLen := node.len - m - 1;
    new_.len := newLen;
    kv := KV(node.keys[m], node.vals[m]);
    MoveToSlice(node.keys, m + 1, new_.keys, 0, newLen);
    MoveToSlice(node.vals, m + 1, new_.vals, 0, newLen);
    if node.height > 0 { MoveToSlice(node.edges, m + 1, new_.edges, 0, newLen + 1); }
    node.len := m;
  }

  /** Moves the pairs from `s` on and the edges right of edge `s` to an empty node, which keeps its
      first edge. */
  method MoveSuffixData(left: NodeRecord, s: nat, right: NodeRecord)
    requires left.Valid() && s <= left.len && right.Valid() && right.len == 0 && right.height == left.height && Apart(left, right)
    modifies left`len, right`len, right.keys, right.vals, right.edges
    ensures left.Valid() && right.Valid()
    ensures left.Keys() == old(left.Keys())[..s] && right.Keys() == old(left.Keys())[s..]
    ensures left.Vals() == old(left.Vals())[..s] && right.Vals() == old(left.Vals())[s..]
    ensures left.height > 0 ==> left.Edges() == old(left.Edges())[..s + 1] && right.Edges() == old(right.Edges()) + old(left.Edges())[s + 1..]
  {
    var newRightLen := left.len - s;
    if newRightLen > 0 {
      left.len, right.len := s, newRightLen;
      MoveToSlice(left.keys, s, right.keys, 0, newRightLen);
      MoveToSlice(left.vals, s, right.vals, 0, newRightLen);
      if left.height > 0 { MoveToSlice(left.edges, s + 1, right.edges, 1, newRightLen); }
    }
  }

  method BulkStealLeftData(parent: NodeRecord, k: nat, left: NodeRecord, right: NodeRecord, count: nat)
    requires parent.Valid() && left.Valid() && right.Valid() && left.height == right.height
    requires Apart(parent, left) && Apart(parent, right) && Apart(left, right)
    requires k < parent.len && 0 < count <= left.len && right.len + count <= CAPACITY
    modifies left`len, right`len, right.keys, right.vals, right.edges, parent.keys, parent.vals
    ensures parent.Valid() && left.Valid() && right.Valid() && left.len == old(left.len) - count
    ensures var n := left.len;
            && left.Keys() == old(left.Keys())[..n] && parent.Keys() == old(parent.Keys())[k := old(left.Keys())[n]]
            && left.Vals() == old(left.Vals())[..n] && parent.Vals() == old(parent.Vals())[k := old(left.Vals())[n]]
            && right.Keys() == old(left.Keys())[n + 1..] + [old(parent.Keys())[k]] + old(right.Keys())
            && right.Vals() == old(left.Vals())[n + 1..] + [old(parent.Vals())[k]] + old(right.Vals())
            && (left.height > 0 ==> left.Edges() == old(left.Edges())[..n + 1] && right.Edges() == old(left.Edges())[n + 1..] + old(right.Edges()))
  {
    var leftLen, rightLen := left.len, right.len;
    left.len, right.len := leftLen - count, rightLen + count;
    StealLeft(parent.keys, k, left.keys, leftLen, right.keys, rightLen, count);
    StealLeft(parent.vals, k, left.vals, leftLen, right.vals, rightLen, count);
    if left.height > 0 { StealLeftEdges(left.edges, leftLen, right.edges, rightLen, count); }
  }

  /** The mirror image. */
  method BulkStealRightData(parent: NodeRecord, k: nat, left: NodeRecord, right: NodeRecord, count: nat)
    requires parent.Valid() && left.Valid() && right.Valid() && left.height == right.height
    requires Apart(parent, left) && Apart(parent, right) && Apart(left, right)
    requires k < parent.len && 0 < count <= right.len && left.len + count <= CAPACITY
    modifies left`len, left.keys, left.vals, left.edges, right`len, right.keys, right.vals, right.edges, parent.keys, parent.vals
    ensures parent.Valid() && left.Valid() && right.Valid()
    ensures && left.Keys() == old(left.Keys()) + [old(parent.Keys())[k]] + old(right.Keys())[..count - 1]
            && left.Vals() == old(left.Vals()) + [old(parent.Vals())[k]] + old(right.Vals())[..count - 1]
            && right.Keys() == old(right.Keys())[count..] && parent.Keys() == old(parent.Keys())[k := old(right.Keys())[count - 1]]
            && right.Vals() == old(right.Vals())[count..] && parent.Vals() == old(parent.Vals())[k := old(right.Vals())[count - 1]]
    ensures left.height > 0 ==> left.Edges() == old(left.Edges()) + old(right.Edges())[..count] && right.Edges() == old(right.Edges())[count..]
  {
    var leftLen, rightLen := left.len, right.len;
    BulkStealRightPairs(parent, k, left, right, count);
    if left.height > 0 { StealRightEdges(left.edges, leftLen, right.edges, rightLen, count); }
  }

  method BulkStealRightPairs(parent: NodeRecord, k: nat, left: NodeRecord, right: NodeRecord, count: nat)
    requires parent.Valid() && left.Valid() && right.Valid()
    requires Apart(parent, left) && Apart(parent, right) && Apart(left, right)
    requires k < parent.len && 0 < count <= right.len && left.len + count <= CAPACITY
    modifies left`len, left.keys, left.vals, right`len, right.keys, right.vals, parent.keys, parent.vals
    ensures parent.Valid() && left.Valid() && right.Valid()
    ensures left.len == old(left.len) + count && right.len == old(right.len) - count
    ensures && left.Keys() == old(left.Keys()) + [old(parent.Keys())[k]] + old(right.Keys())[..count - 1]
            && left.Vals() == old(left.Vals()) + [old(parent.Vals())[k]] + old(right.Vals())[..count - 1]
            && right.Keys() == old(right.Keys())[count..] && parent.Keys() == old(parent.Keys())[k := old(right.Keys())[count - 1]]
            && right.Vals() == old(right.Vals())[count..] && parent.Vals() == old(parent.Vals())[k := old(right.Vals())[count - 1]]
  {
    var leftLen, rightLen := left.len, right.len;
    left.len, right.len := leftLen + count, rightLen - count;
    StealRight(parent.keys, k, left.keys, leftLen, right.keys, rightLen, count);
    StealRight(parent.vals, k, left.vals, leftLen, right.vals, rightLen, count);
  }

  method MergeData(parent: NodeRecord, k: nat, left: NodeRecord, right: NodeRecord)
    requires parent.Valid() && left.Valid() && right.Valid() && left.height == right.height && parent.height > 0
    requires Apart(parent, left) && Apart(parent, right) && Apart(left, right)
    requires k < parent.len && left.len + 1 + right.len <= CAPACITY
    modifies left`len, left.keys, left.vals, left.edges, parent`len, parent.keys, parent.vals, parent.edges
    ensures parent.Valid() && left.Valid()
    ensures && left.Keys() == old(left.Keys()) + [old(parent.Keys())[k]] + old(right.Keys())
            && left.Vals() == old(left.Vals()) + [old(parent.Vals())[k]] + old(right.Vals())
            && parent.Keys() == RemoveAt(old(parent.Keys()), k) && parent.Vals() == RemoveAt(old(parent.Vals()), k)
            && parent.Edges() == RemoveAt(old(parent.Edges()), k + 1)
            && (left.height > 0 ==> left.Edges() == old(left.Edges()) + old(right.Edges()))
  {
    var parentLen, leftLen, rightLen := parent.len, left.len, right.len;
    MergePairs(parent, k, left, right);
    var gone := SliceRemove(parent.edges, parentLen + 1, k + 1);
    if left.height > 0 { MoveToSlice(right.edges, 0, left.edges, leftLen + 1, rightLen + 1); }
  }

  method MergePairs(parent: NodeRecord, k: nat, left: NodeRecord, right: NodeRecord)
    requires parent.Valid() && left.Valid() && right.Valid()
    requires Apart(parent, left) && Apart(parent, right) && Apart(left, right)
    requires k < parent.len && left.len + 1 + right.len <= CAPACITY
    modifies left`len, left.keys, left.vals, parent`len, parent.keys, parent.vals
    ensures parent.Valid() && left.Valid() && left.len == old(left.len) + 1 + right.len && parent.len == old(parent.len) - 1
    ensures && left.Keys() == old(left.Keys()) + [old(parent.Keys())[k]] + old(right.Keys())
            && left.Vals() == old(left.Vals()) + [old(parent.Vals())[k]] + old(right.Vals())
            && parent.Keys() == RemoveAt(old(parent.Keys()), k) && parent.Vals() == RemoveAt(old(parent.Vals()), k)
  {
    var parentLen, leftLen, rightLen := parent.len, left.len, right.len;
    left.len, parent.len := leftLen + 1 + rightLen, parentLen - 1;
    MergeCells(parent.keys, parentLen, k, left.keys, leftLen, right.keys, rightLen);
    MergeCells(parent.vals, parentLen, k, left.vals, leftLen, right.vals, rightLen);
  }
}
