/** What the two tables of large sizes owe to each other, whatever buckets they are for. */
module SizeTables {
  /** For each bucket its end, the size its objects are given and the vector they are kept in. */
  datatype Tables = Tables(ends: seq<nat>, sizes: seq<nat>, vectors: seq<nat>)

  ghost predicate Sized(t: Tables) {
    |t.ends| == |t.sizes| == |t.vectors| > 0
  }

  /** The size is the bucket's end, or it is the same as the next bucket's. */
  ghost predicate EntryOk(t: Tables, i: nat)
    requires Sized(t) && i < |t.sizes|
  {
    t.sizes[i] == t.ends[i] || (i + 1 < |t.sizes| && t.sizes[i] == t.sizes[i + 1])
  }

  /** The vector is the next one exactly where the size changes. */
  ghost predicate VectorOk(t: Tables, i: nat)
    requires Sized(t) && i < |t.sizes|
  {
    i + 1 < |t.sizes| ==> t.vectors[i + 1] == t.vectors[i] + if t.sizes[i + 1] == t.sizes[i] then 0 else 1
  }

  ghost predicate Ok(t: Tables) {
    && Sized(t) && t.ends[0] > 0 && t.vectors[0] == 0
    && (forall i, j :: 0 <= i < j < |t.ends| ==> t.ends[i] < t.ends[j])
    && (forall i {:trigger EntryOk(t, i)} :: 0 <= i < |t.sizes| ==> EntryOk(t, i))
    && (forall i {:trigger VectorOk(t, i)} :: 0 <= i < |t.sizes| ==> VectorOk(t, i))
  }

  /** A bucket's size is the end of a bucket at or after it, and that bucket's size too. */
  lemma {:induction false} Winner(t: Tables, i: nat) returns (last: nat)
    requires Ok(t) && i < |t.sizes|
    ensures i <= last < |t.sizes| && t.sizes[i] == t.sizes[last] == t.ends[last]
    decreases |t.sizes| - i
  {
    assert EntryOk(t, i);
    if t.sizes[i] == t.ends[i] { last := i; } else { last := Winner(t, i + 1); }
  }

  lemma Covers(t: Tables, i: nat)
    requires Ok(t) && i < |t.sizes|
    ensures t.ends[i] <= t.sizes[i] <= t.ends[|t.ends| - 1]
  {
    var last := Winner(t, i);
  }

  /** Along the buckets sizes do not fall, and vectors are shared exactly by buckets of one size. */
  lemma {:induction false} Ascend(t: Tables, i: nat, j: nat)
    requires Ok(t) && i <= j < |t.sizes|
    ensures t.sizes[i] <= t.sizes[j] && t.vectors[i] <= t.vectors[j]
    ensures t.vectors[i] == t.vectors[j] <==> t.sizes[i] == t.sizes[j]
    decreases j - i
  {
    if i < j {
      assert EntryOk(t, i) && VectorOk(t, i);
      Covers(t, i + 1);
      Ascend(t, i + 1, j);
    }
  }

  // ----- the sizes by vector -----

  function Before(table: seq<nat>, n: nat): nat
    requires n <= |table|
  {
    if n == 0 then 0 else table[n - 1]
  }

  /** The sizes that the first `n` entries change to. */
  function RealSizes(table: seq<nat>, n: nat): seq<nat>
    requires n <= |table|
  {
    if n == 0 then []
    else RealSizes(table, n - 1) + if table[n - 1] != Before(table, n - 1) then [table[n - 1]] else []
  }

  method CollectRealSizes(table: seq<nat>) returns (arr: seq<nat>)
    ensures arr == RealSizes(table, |table|)
  {
    arr := [];
    var i, prev := 0, 0;
    while i < |table|
      invariant i <= |table| && arr == RealSizes(table, i) && prev == Before(table, i)
    {
      var curr := table[i];
      if curr != prev {
        arr := arr + [curr];
        prev := curr;
      }
      i := i + 1;
    }
  }

  lemma {:induction false} NoSizesInZeros(table: seq<nat>, n: nat)
    requires n <= |table| && forall k :: 0 <= k < n ==> table[k] == 0
    ensures RealSizes(table, n) == []
  {
    if n > 0 { NoSizesInZeros(table, n - 1); }
  }

  /** The table as it is kept: zeros for the ids that are never used, and then the sizes. */
  ghost predicate Padded(t: Tables, table: seq<nat>, zeros: nat) {
    && |table| == zeros + |t.sizes|
    && (forall k :: 0 <= k < zeros ==> table[k] == 0)
    && (forall k :: 0 <= k < |t.sizes| ==> table[zeros + k] == t.sizes[k])
  }

  /** After a bucket the last size collected is the bucket's, and its place is the bucket's vector. */
  lemma {:induction false} VectorIsLast(t: Tables, table: seq<nat>, zeros: nat, i: nat)
    requires Ok(t) && Padded(t, table, zeros) && i < |t.sizes|
    ensures var sizes := RealSizes(table, zeros + i + 1); |sizes| == t.vectors[i] + 1 && sizes[t.vectors[i]] == t.sizes[i]
    decreases i
  {
    Covers(t, i);
    assert table[zeros + i] == t.sizes[i];
    if i == 0 {
      NoSizesInZeros(table, zeros);
      assert Before(table, zeros) == 0;
    } else {
      VectorIsLast(t, table, zeros, i - 1);
      assert VectorOk(t, i - 1) && Before(table, zeros + i) == t.sizes[i - 1];
    }
  }

  lemma {:induction false} RealSizesExtend(table: seq<nat>, n: nat, m: nat)
    requires n <= m <= |table|
    ensures RealSizes(table, n) <= RealSizes(table, m)
    decreases m
  {
    if n < m { RealSizesExtend(table, n, m - 1); }
  }

  /** A bucket's objects are kept in the vector whose objects have the bucket's size, and there is one
      vector for each size. */
  lemma VectorOfBucket(t: Tables, table: seq<nat>, zeros: nat, i: nat)
    requires Ok(t) && Padded(t, table, zeros) && i < |t.sizes|
    ensures var sizes := RealSizes(table, |table|);
            && |sizes| == t.vectors[|t.vectors| - 1] + 1
            && t.vectors[i] < |sizes| && sizes[t.vectors[i]] == t.sizes[i]
  {
    VectorIsLast(t, table, zeros, i);
    VectorIsLast(t, table, zeros, |t.sizes| - 1);
    RealSizesExtend(table, zeros + i + 1, |table|);
  }
}
