/** The sizes the allocator hands out: how a large size finds its bucket, what the tables make of the
    buckets, and what a request is rounded up to. */
module SizeClasses {
  import S = SizeTables

  const COMMON_SIZE_MAX: nat := 1024
  const LARGE_SIZE_MAX: nat := 102400
  const LARGE_CHUNK_SIZE: nat := 524288

  // ----- buckets -----

  function Pow2(n: nat): (p: nat)
    ensures p >= 1
  {
    if n == 0 then 1 else 2 * Pow2(n - 1)
  }

  /** The place of the highest bit that is set. */
  function HighBit(n: nat): (b: nat)
    requires n > 0
    ensures Pow2(b) <= n < Pow2(b + 1)
  {
    if n == 1 then 0
    else
      assert n / 2 * 2 <= n <= n / 2 * 2 + 1;
      1 + HighBit(n / 2)
  }

  lemma {:induction false} Pow2Ascends(a: nat, b: nat)
    requires a < b
    ensures 2 * Pow2(a) <= Pow2(b)
  {
    if a + 1 < b { Pow2Ascends(a, b - 1); }
  }

  lemma HighBitFour(n: nat)
    requires n >= 16
    ensures HighBit(n) >= 4 && Pow2(HighBit(n)) == 16 * Pow2(HighBit(n) - 4)
  {
    var b := HighBit(n);
    assert Pow2(4) == 16;
    if b < 4 { Pow2Ascends(b, 4); }
    assert Pow2(b) == 2 * Pow2(b - 1) && Pow2(b - 2) == 2 * Pow2(b - 3);
  }

  /** The exponent and the four bits after the highest one. */
  function FindLargeSlotId(size: nat): (id: nat)
    requires size > 16
  {
    HighBitFour(size - 1);
    var b := HighBit(size - 1);
    16 * b + (size - 1) / Pow2(b - 4) % 16
  }

  /** The sizes of bucket `id` are those above `Lower(id)` up to `Upper(id)`. */
  function Width(id: nat): (w: nat)
    requires id >= 64
    ensures w >= 1
  {
    Pow2(id / 16 - 4)
  }

  function Lower(id: nat): nat
    requires id >= 64
  {
    (16 + id % 16) * Width(id)
  }

  function Upper(id: nat): nat
    requires id >= 64
  {
    (17 + id % 16) * Width(id)
  }

  lemma ProductGrows(a: nat, b: nat, c: nat)
    requires a <= b
    ensures a * c <= b * c
  {
    assert b * c == a * c + (b - a) * c;
  }

  /** Buckets follow one another without a gap, each no wider than a sixteenth of where it starts. */
  lemma BucketsMeet(id: nat)
    requires id >= 64
    ensures Lower(id + 1) == Upper(id) && Upper(id) == Lower(id) + Width(id) && Lower(id) >= 16 * Width(id)
  {
    ProductGrows(16, 16 + id % 16, Width(id));
    if id % 16 == 15 {
      assert (id + 1) / 16 == id / 16 + 1 && (id + 1) % 16 == 0;
      assert Width(id + 1) == 2 * Width(id);
    } else {
      assert (id + 1) / 16 == id / 16 && (id + 1) % 16 == id % 16 + 1;
    }
    assert (17 + id % 16) * Width(id) == (16 + id % 16) * Width(id) + Width(id);
  }

  /** Five bits of `n` are left of a width that fits in it sixteen times but not thirty-two times. */
  lemma TopBits(n: nat, w: nat)
    requires w > 0 && 16 * w <= n < 32 * w
    ensures var q := n / w; 16 <= q < 32 && q * w <= n < (q + 1) * w
  {
    var q := n / w;
    assert n == q * w + n % w;
    assert (q + 1) * w == q * w + w;
    if q < 16 { ProductGrows(q + 1, 16, w); }
    if q >= 32 { ProductGrows(32, q, w); }
  }

  /** Every large size is in the bucket its id names, and rounding it up to the bucket's end loses less
      than a sixteenth of it. */
  lemma BucketOfSize(size: nat)
    requires size > 16
    ensures var id := FindLargeSlotId(size); id >= 64 && Lower(id) < size <= Upper(id) && 16 * (Upper(id) - size) < size
  {
    var n := size - 1;
    HighBitFour(n);
    var id, w := FindLargeSlotId(size), Pow2(HighBit(n) - 4);
    TopBits(n, w);
    Parts(HighBit(n), n / w);
    BucketOfParts(size, id, w, n / w);
  }

  lemma BucketOfParts(size: nat, id: nat, w: nat, q: nat)
    requires size > 16 && id >= 64 && Width(id) == w && 16 + id % 16 == q
    requires q * w <= size - 1 < (q + 1) * w
    ensures Lower(id) < size <= Upper(id) && 16 * (Upper(id) - size) < size
  {
    assert Lower(id) == q * w;
    BucketsMeet(id);
  }

  lemma Parts(b: nat, q: nat)
    requires b >= 4 && 16 <= q < 32
    ensures var id := 16 * b + q % 16; id / 16 == b && 16 + id % 16 == q
  {
  }

  lemma {:induction false} UpperAscends(i: nat, j: nat)
    requires 64 <= i < j
    ensures Upper(i) <= Lower(j)
  {
    BucketsMeet(j - 1);
    if i < j - 1 { UpperAscends(i, j - 1); }
  }

  /** A size has the id of the one bucket that it is in. */
  lemma BucketIff(size: nat, id: nat)
    requires size > 16 && id >= 64
    ensures FindLargeSlotId(size) == id <==> Lower(id) < size <= Upper(id)
  {
    BucketOfSize(size);
    var own := FindLargeSlotId(size);
    if id < own { UpperAscends(id, own); }
    if own < id { UpperAscends(own, id); }
  }

  /** A larger size never has a smaller id. */
  lemma IdMonotone(small: nat, large: nat)
    requires 16 < small <= large
    ensures FindLargeSlotId(small) <= FindLargeSlotId(large)
  {
    var i, j := FindLargeSlotId(small), FindLargeSlotId(large);
    BucketOfSize(small);
    BucketOfSize(large);
    if j < i { UpperAscends(j, i); }
  }

  // ----- tables that fit the buckets -----

  const FIRST_ID: nat := 160
  const LAST_REAL_ID: nat := 264

  predicate RealId(id: nat) {
    FIRST_ID <= id <= LAST_REAL_ID
  }

  /** Powers of two have an entry of their own, the last of their row. */
  ghost predicate KeepsPowers(t: S.Tables)
    requires |t.sizes| == 105
  {
    forall b {:trigger Pow2(b)} :: 11 <= b <= 16 ==> t.sizes[16 * b - 1 - FIRST_ID] == Pow2(b)
  }

  /** The tables are for the buckets from `FIRST_ID` on. */
  ghost predicate Fit(t: S.Tables) {
    && S.Ok(t) && |t.sizes| == LAST_REAL_ID + 1 - FIRST_ID
    && (forall id: nat {:trigger Upper(id)} :: RealId(id) ==> t.ends[id - FIRST_ID] == Upper(id))
    && KeepsPowers(t)
  }

  function LargeSizeForId(t: S.Tables, id: nat): nat
    requires RealId(id) && |t.sizes| == 105
  {
    t.sizes[id - FIRST_ID]
  }

  function VectorForId(t: S.Tables, id: nat): nat
    requires RealId(id) && |t.vectors| == 105
  {
    t.vectors[id - FIRST_ID]
  }

  lemma LastUpper()
    ensures Upper(LAST_REAL_ID) == LARGE_SIZE_MAX && Lower(FIRST_ID) == COMMON_SIZE_MAX
  {
    assert Pow2(12) == 4096 && Pow2(6) == 64;
  }

  /** The entry of a bucket holds every size in the bucket. */
  lemma EntryCovers(t: S.Tables, id: nat)
    requires Fit(t) && RealId(id)
    ensures Upper(id) <= LargeSizeForId(t, id) <= LARGE_SIZE_MAX
  {
    S.Covers(t, id - FIRST_ID);
    LastUpper();
  }

  lemma EntriesAscend(t: S.Tables, i: nat, j: nat)
    requires Fit(t) && RealId(i) && RealId(j) && i <= j
    ensures LargeSizeForId(t, i) <= LargeSizeForId(t, j)
    ensures VectorForId(t, i) == VectorForId(t, j) <==> LargeSizeForId(t, i) == LargeSizeForId(t, j)
  {
    S.Ascend(t, i - FIRST_ID, j - FIRST_ID);
  }

  lemma OwnBucket(size: nat, id: nat)
    requires id >= 64 && size == Upper(id)
    ensures size > 16 && FindLargeSlotId(size) == id
  {
    BucketsMeet(id);
    BucketIff(size, id);
  }

  /** The end of some bucket at or after `id` in the table. */
  lemma WinnerInTable(t: S.Tables, id: nat) returns (last: nat, size: nat)
    requires Fit(t) && RealId(id)
    ensures RealId(last) && LargeSizeForId(t, last) == LargeSizeForId(t, id) == size == Upper(last)
  {
    var i := S.Winner(t, id - FIRST_ID);
    last, size := FIRST_ID + i, t.sizes[i];
    assert t.ends[last - FIRST_ID] == Upper(last);
  }

  /** The size of a bucket is in a bucket that has the same. */
  lemma WinnerById(t: S.Tables, id: nat) returns (last: nat)
    requires Fit(t) && RealId(id)
    ensures RealId(last) && LargeSizeForId(t, last) == LargeSizeForId(t, id)
    ensures LargeSizeForId(t, id) > 16 && FindLargeSlotId(LargeSizeForId(t, id)) == last
  {
    var size;
    last, size := WinnerInTable(t, id);
    OwnBucket(size, last);
  }

  // ----- from a size to its class -----

  predicate IsLarge(size: nat) {
    COMMON_SIZE_MAX < size <= LARGE_SIZE_MAX
  }

  lemma LargeHasRealId(size: nat)
    requires IsLarge(size)
    ensures RealId(FindLargeSlotId(size))
  {
    LastUpper();
    BucketOfSize(size);
    var id := FindLargeSlotId(size);
    if id < FIRST_ID { UpperAscends(id, FIRST_ID); }
    if id > LAST_REAL_ID { UpperAscends(LAST_REAL_ID, id); }
  }

  function TrailingZeros(n: nat): (z: nat)
    requires n > 0
  {
    if n % 2 == 1 then 0 else 1 + TrailingZeros(n / 2)
  }

  predicate IsPowerOfTwo(n: nat) {
    n > 0 && Pow2(HighBit(n)) == n
  }

  lemma {:induction false} PowerOfItsZeros(n: nat)
    requires IsPowerOfTwo(n)
    ensures Pow2(TrailingZeros(n)) == n && TrailingZeros(n) == HighBit(n)
  {
    if n > 1 {
      assert n % 2 == 0 && HighBit(n / 2) == HighBit(n) - 1;
      PowerOfItsZeros(n / 2);
    }
  }

  /** The id and the size that is really given: powers of two take a shortcut through a table of ids. */
  function LargeSizeToIdAndRealSize(t: S.Tables, size: nat): (nat, nat)
    requires IsLarge(size) && |t.sizes| == 105
  {
    LargeHasRealId(size);
    if IsPowerOfTwo(size) then
      PowerOfItsZeros(size);
      (FindLargeSlotId(Pow2(TrailingZeros(size))), size)
    else (FindLargeSlotId(size), LargeSizeForId(t, FindLargeSlotId(size)))
  }

  /** The shortcut gives what the tables give. */
  lemma ShortcutAgrees(t: S.Tables, size: nat)
    requires Fit(t) && IsLarge(size)
    ensures RealId(FindLargeSlotId(size)) && (IsPowerOfTwo(size) ==> 11 <= TrailingZeros(size) < 17)
    ensures LargeSizeToIdAndRealSize(t, size) == (FindLargeSlotId(size), LargeSizeForId(t, FindLargeSlotId(size)))
  {
    LargeHasRealId(size);
    if IsPowerOfTwo(size) {
      PowerOfItsZeros(size);
      PowerEndsBucket(t, size, HighBit(size));
      PowerRange(HighBit(size));
    }
  }

  lemma PowerEndsBucket(t: S.Tables, size: nat, b: nat)
    requires |t.sizes| == 105 && KeepsPowers(t) && IsLarge(size) && Pow2(b) == size
    ensures RealId(FindLargeSlotId(size)) && LargeSizeForId(t, FindLargeSlotId(size)) == size
  {
    PowerId(size, b);
    PowerEntry(t, b);
  }

  lemma PowerEntry(t: S.Tables, b: nat)
    requires |t.sizes| == 105 && KeepsPowers(t) && 11 <= b <= 16
    ensures LargeSizeForId(t, 16 * b - 1) == Pow2(b)
  {
  }

  lemma PowerIsUpper(b: nat)
    requires b >= 5 && Pow2(b) == 32 * Pow2(b - 5)
    ensures Lower(16 * b - 1) < Pow2(b) == Upper(16 * b - 1)
  {
    var id := 16 * b - 1;
    assert id / 16 == b - 1 && id % 16 == 15;
    assert Upper(id) == 32 * Pow2(b - 5);
    BucketsMeet(id);
  }

  lemma PowerRange(b: nat)
    requires IsLarge(Pow2(b))
    ensures 11 <= b <= 16 && Pow2(b) == 32 * Pow2(b - 5)
  {
    assert Pow2(10) == 1024 && Pow2(17) == 131072;
    if b < 10 { Pow2Ascends(b, 10); }
    if b > 17 { Pow2Ascends(17, b); }
    assert Pow2(b - 1) == 2 * Pow2(b - 2) && Pow2(b - 3) == 2 * Pow2(b - 4);
  }

  lemma PowersWithin(b: nat)
    ensures Pow2(b) <= LARGE_SIZE_MAX <==> b <= 16
    ensures b >= 11 ==> Pow2(b) > 16
  {
    assert Pow2(10) == 1024 && Pow2(17) == 131072;
    if b < 17 { Pow2Ascends(b, 17); }
    if b > 17 { Pow2Ascends(17, b); }
    if b > 10 { Pow2Ascends(10, b); }
  }

  /** The id of a power of two is the last of a row. */
  lemma PowerId(size: nat, b: nat)
    requires IsLarge(size) && Pow2(b) == size
    ensures 11 <= b <= 16 && FindLargeSlotId(size) == 16 * b - 1
  {
    PowerRange(b);
    PowerIsUpper(b);
    BucketIff(size, 16 * b - 1);
  }

  /** The table behind the shortcut, for the large powers of two. */
  method ShortcutTable() returns (res: seq<nat>)
    ensures |res| == 17 && forall k :: 11 <= k < 17 ==> res[k] == 16 * k - 1
  {
    res := seq(11, _ => 0);
    var num := 2048;
    assert Pow2(11) == 2048;
    while num <= LARGE_SIZE_MAX
      invariant 11 <= |res| <= 17 && num == Pow2(|res|) && num >= 2048
      invariant forall k :: 11 <= k < |res| ==> res[k] == 16 * k - 1
      decreases 17 - |res|
    {
      PowersWithin(|res|);
      PowerId(num, |res|);
      res := res + [FindLargeSlotId(num)];
      num := num * 2;
    }
    PowersWithin(|res|);
  }

  function RecommendedSize(t: S.Tables, size: nat): nat
    requires |t.sizes| == 105
  {
    if size <= COMMON_SIZE_MAX then (size + 7) / 8 * 8
    else if size <= LARGE_SIZE_MAX then LargeSizeToIdAndRealSize(t, size).1
    else size
  }

  lemma LargeRecommended(t: S.Tables, size: nat)
    requires Fit(t) && IsLarge(size)
    ensures RealId(FindLargeSlotId(size)) && RecommendedSize(t, size) == LargeSizeForId(t, FindLargeSlotId(size))
    ensures size <= RecommendedSize(t, size) <= LARGE_SIZE_MAX
  {
    ShortcutAgrees(t, size);
    BucketOfSize(size);
    EntryCovers(t, FindLargeSlotId(size));
  }

  /** No less than asked for, and of the same class: common, large or extra-large. */
  lemma RecommendedCovers(t: S.Tables, size: nat)
    requires Fit(t)
    ensures RecommendedSize(t, size) >= size
    ensures RecommendedSize(t, size) <= COMMON_SIZE_MAX <==> size <= COMMON_SIZE_MAX
    ensures RecommendedSize(t, size) <= LARGE_SIZE_MAX <==> size <= LARGE_SIZE_MAX
  {
    if IsLarge(size) { LargeRecommended(t, size); }
  }

  lemma RecommendedMonotone(t: S.Tables, small: nat, large: nat)
    requires Fit(t) && small <= large
    ensures RecommendedSize(t, small) <= RecommendedSize(t, large)
  {
    RecommendedCovers(t, small);
    RecommendedCovers(t, large);
    if IsLarge(small) && IsLarge(large) {
      LargeRecommended(t, small);
      LargeRecommended(t, large);
      IdMonotone(small, large);
      EntriesAscend(t, FindLargeSlotId(small), FindLargeSlotId(large));
    }
  }

  lemma RecommendedIdempotent(t: S.Tables, size: nat)
    requires Fit(t)
    ensures RecommendedSize(t, RecommendedSize(t, size)) == RecommendedSize(t, size)
  {
    RecommendedCovers(t, size);
    if IsLarge(size) {
      LargeRecommended(t, size);
      var last := WinnerById(t, FindLargeSlotId(size));
      LargeRecommended(t, RecommendedSize(t, size));
    }
  }

  /** The recommended size is the least class size that is no less than the size. */
  lemma RecommendedIsLeast(t: S.Tables, size: nat, class_: nat)
    requires Fit(t) && RecommendedSize(t, class_) == class_ && size <= class_
    ensures size <= RecommendedSize(t, size) <= class_ && RecommendedSize(t, RecommendedSize(t, size)) == RecommendedSize(t, size)
  {
    RecommendedCovers(t, size);
    RecommendedMonotone(t, size, class_);
    RecommendedIdempotent(t, size);
  }

  /** Powers of two from eight on are given as they are: a vector that asks for a power of two gets no more. */
  lemma PowersAreGiven(t: S.Tables, b: nat)
    requires Fit(t) && b >= 3
    ensures RecommendedSize(t, Pow2(b)) == Pow2(b)
  {
    EightDivides(b);
    if IsLarge(Pow2(b)) {
      ShortcutAgrees(t, Pow2(b));
      PowerEndsBucket(t, Pow2(b), b);
    }
  }

  lemma {:induction false} EightDivides(b: nat)
    requires b >= 3
    ensures Pow2(b) % 8 == 0
  {
    if b == 3 { assert Pow2(3) == 8; } else { EightDivides(b - 1); }
  }

  /** Large sizes share a vector of free objects exactly if they are given the same size. */
  lemma LargeVectorIff(t: S.Tables, a: nat, b: nat)
    requires Fit(t) && IsLarge(a) && IsLarge(b)
    ensures RealId(LargeSizeToIdAndRealSize(t, a).0) && RealId(LargeSizeToIdAndRealSize(t, b).0)
    ensures VectorForId(t, LargeSizeToIdAndRealSize(t, a).0) == VectorForId(t, LargeSizeToIdAndRealSize(t, b).0)
            <==> RecommendedSize(t, a) == RecommendedSize(t, b)
  {
    ShortcutAgrees(t, a);
    ShortcutAgrees(t, b);
    var i, j := FindLargeSlotId(a), FindLargeSlotId(b);
    if i <= j { EntriesAscend(t, i, j); } else { EntriesAscend(t, j, i); }
  }

  const COMMON_SIZE_TABLE_LEN: nat := 128

  function CommonSizeToIndex(size: nat): nat
    requires 0 < size <= COMMON_SIZE_MAX
  {
    (size - 1) / 8
  }

  /** Common sizes share a vector exactly if they are given the same size, and there are vectors enough. */
  lemma CommonVectorIff(t: S.Tables, a: nat, b: nat)
    requires |t.sizes| == 105 && 0 < a <= COMMON_SIZE_MAX && 0 < b <= COMMON_SIZE_MAX
    ensures CommonSizeToIndex(a) < COMMON_SIZE_TABLE_LEN && RecommendedSize(t, a) == 8 * (CommonSizeToIndex(a) + 1)
    ensures CommonSizeToIndex(a) == CommonSizeToIndex(b) <==> RecommendedSize(t, a) == RecommendedSize(t, b)
  {
  }
}
