/** Which vector has the free objects of a size, by the tables that are shipped, and which sizes have one for
    themselves. */
module Vectors {
  import opened SizeClasses
  import opened Ownership
  import ShippedTables
  import H = HandleState
  import R = Release
  import S = SizeTables

  predicate Served(size: nat) {
    0 < size <= LARGE_SIZE_MAX
  }

  /** The vectors of common sizes and after them those of large ones. */
  function VectorOf(t: S.Tables, size: nat): nat
    requires |t.sizes| == |t.vectors| == 105
  {
    if !Served(size) then 0
    else if size <= COMMON_SIZE_MAX then CommonSizeToIndex(size)
    else
      LargeHasRealId(size);
      COMMON_SIZE_TABLE_LEN + VectorForId(t, FindLargeSlotId(size))
  }

  /** Two sizes share a vector exactly if they are rounded to the same size. */
  lemma VectorIff(t: S.Tables, a: nat, b: nat)
    requires Fit(t) && Served(a) && Served(b)
    ensures VectorOf(t, a) == VectorOf(t, b) <==> RecommendedSize(t, a) == RecommendedSize(t, b)
  {
    RecommendedCovers(t, a);
    RecommendedCovers(t, b);
    if IsLarge(a) && IsLarge(b) {
      LargeVectorIff(t, a, b);
      ShortcutAgrees(t, a);
      ShortcutAgrees(t, b);
    } else if !IsLarge(a) && !IsLarge(b) {
      CommonVectorIff(t, a, b);
    } else if IsLarge(a) {
      CommonVectorIff(t, b, b);
    } else {
      CommonVectorIff(t, a, a);
    }
  }

  function VectorsOf(t: S.Tables): Numbering
    requires |t.sizes| == |t.vectors| == 105
  {
    size => VectorOf(t, size)
  }

  /** Sizes have vectors of their own exactly if no two of them are rounded to the same size. */
  lemma OwnVectorsIff(t: S.Tables, sizes: set<nat>)
    requires Fit(t) && forall a :: a in sizes ==> Served(a)
    ensures H.OwnVectors(VectorsOf(t), sizes)
            <==> forall a, b :: a in sizes && b in sizes && RecommendedSize(t, a) == RecommendedSize(t, b) ==> a == b
  {
    forall a, b | a in sizes && b in sizes
      ensures VectorsOf(t)(a) == VectorsOf(t)(b) <==> RecommendedSize(t, a) == RecommendedSize(t, b)
    {
      VectorIff(t, a, b);
    }
  }

  predicate IsClass(t: S.Tables, size: nat)
    requires |t.sizes| == 105
  {
    RecommendedSize(t, size) == size
  }

  /** What the allocator asks for itself are class sizes, and besides them the size of a state, which is not
      rounded. They have vectors of their own exactly if the state's size is a class size, too, or the class
      size it would be rounded to is not asked for. */
  lemma ClassesAndState(t: S.Tables, classes: set<nat>, stateSize: nat)
    requires Fit(t) && Served(stateSize) && forall a :: a in classes ==> Served(a) && IsClass(t, a)
    ensures H.OwnVectors(VectorsOf(t), classes + {stateSize})
            <==> IsClass(t, stateSize) || RecommendedSize(t, stateSize) !in classes
  {
    OwnVectorsIff(t, classes + {stateSize});
    var r := RecommendedSize(t, stateSize);
    if r in classes && r != stateSize {
      assert IsClass(t, r) && r in classes + {stateSize} && stateSize in classes + {stateSize};
    }
  }

  lemma StateBucket(size: nat)
    requires 14336 < size <= 14848
    ensures FindLargeSlotId(size) == 220
  {
    assert Pow2(9) == 512;
    BucketIff(size, 220);
  }

  lemma SameBucket(t: S.Tables, a: nat, id: nat)
    requires Fit(t) && IsLarge(a) && FindLargeSlotId(a) == id
    ensures RealId(id) && RecommendedSize(t, a) == LargeSizeForId(t, id) && VectorOf(t, a) == COMMON_SIZE_TABLE_LEN + VectorForId(t, id)
  {
    LargeRecommended(t, a);
  }

  lemma StateEntry()
    ensures LargeSizeForId(ShippedTables.Shipped(), 220) == 14848
  {
    assert ShippedTables.SizeEntry(220) == 14848;
  }

  /** A state is a little larger than 14336 bytes. By the tables shipped its size is no class size, and has the
      vector of 14848. */
  lemma StateIsNoClass(stateSize: nat)
    requires 14336 < stateSize < 14848
    ensures var t := ShippedTables.Shipped();
            Fit(t) && RecommendedSize(t, stateSize) == 14848 && !IsClass(t, stateSize) && VectorOf(t, stateSize) == VectorOf(t, 14848)
  {
    ShippedTables.ShippedFit();
    StateEntry();
    StateBucket(stateSize);
    StateBucket(14848);
    SameBucket(ShippedTables.Shipped(), stateSize, 220);
    SameBucket(ShippedTables.Shipped(), 14848, 220);
  }

  const ALL_VECTORS: nat := COMMON_SIZE_TABLE_LEN + ShippedTables.REAL_NUMBER_OF_LARGE_OBJECT_VECTORS

  lemma VectorInRange(size: nat)
    requires Served(size)
    ensures VectorOf(ShippedTables.Shipped(), size) < ALL_VECTORS
  {
    if size > COMMON_SIZE_MAX {
      LargeHasRealId(size);
      ShippedTables.VectorBelow(FindLargeSlotId(size));
    }
  }

  lemma {:induction false} NoMoreThanVectors(vec: Numbering, sizes: set<nat>, n: nat)
    requires H.OwnVectors(vec, sizes) && forall a :: a in sizes ==> vec(a) < n
    ensures |sizes| <= n
  {
    if n == 0 {
      if a :| a in sizes { assert false; }
    } else if a :| a in sizes && vec(a) == n - 1 {
      NoMoreThanVectors(vec, sizes - {a}, n - 1);
    } else {
      NoMoreThanVectors(vec, sizes, n - 1);
    }
  }

  /** There are no more class sizes than vectors, and so the table that counts the allocator's own objects by
      size has cells enough, though not one for each object. */
  lemma CellsForAllClasses(classes: set<nat>)
    requires forall a :: a in classes ==> Served(a) && IsClass(ShippedTables.Shipped(), a)
    ensures |classes| <= ALL_VECTORS <= R.MAX_NUMBER_OF_SELF_ALLOCATED_OBJECTS
  {
    var t := ShippedTables.Shipped();
    ShippedTables.ShippedFit();
    OwnVectorsIff(t, classes);
    forall a | a in classes ensures VectorsOf(t)(a) < ALL_VECTORS { VectorInRange(a); }
    NoMoreThanVectors(VectorsOf(t), classes, ALL_VECTORS);
  }
}
