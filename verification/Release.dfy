/** When an allocator may give back its regions: the table that counts its own allocations by size,
    and the test that compares it with what looks used. */
module Release {
  datatype Entry = Entry(count: nat, size: nat)

  datatype Found = At(idx: nat) | InsertAt(idx: nat)

  /** How often a size was counted. */
  ghost function CountOf(s: seq<Entry>, size: nat): nat {
    if s == [] then 0 else CountOf(s[..|s| - 1], size) + (if s[|s| - 1].size == size then s[|s| - 1].count else 0)
  }

  lemma {:induction false} CountJoin(a: seq<Entry>, b: seq<Entry>, size: nat)
    ensures CountOf(a + b, size) == CountOf(a, size) + CountOf(b, size)
  {
    if b == [] {
      assert a + b == a;
    } else {
      CountJoin(a, b[..|b| - 1], size);
      assert (a + b)[..|a + b| - 1] == a + b[..|b| - 1];
    }
  }

  lemma CountOne(e: Entry, size: nat)
    ensures CountOf([e], size) == if e.size == size then e.count else 0
  {
    assert [e][..0] == [];
  }

  /** An entry put in between, or counted up in place, counts as one more at the end would. */
  lemma CountInserted(a: seq<Entry>, e: Entry, b: seq<Entry>, size: nat)
    ensures CountOf(a + [e] + b, size) == CountOf(a + b, size) + (if e.size == size then e.count else 0)
  {
    CountJoin(a + [e], b, size);
    CountJoin(a, [e], size);
    CountJoin(a, b, size);
    CountOne(e, size);
  }

  ghost predicate Sorted(s: seq<Entry>) {
    forall i, j :: 0 <= i < j < |s| ==> s[i].size < s[j].size
  }

  /** In a sorted table, the entry of a size holds its whole count. */
  lemma {:induction false} SortedCount(s: seq<Entry>, i: nat)
    requires Sorted(s) && i < |s|
    ensures CountOf(s, s[i].size) == s[i].count
  {
    var size := s[i].size;
    assert s == s[..i] + [s[i]] + s[i + 1..];
    CountInserted(s[..i], s[i], s[i + 1..], size);
    CountJoin(s[..i], s[i + 1..], size);
    CountNone(s[..i], size);
    CountNone(s[i + 1..], size);
  }

  lemma {:induction false} CountNone(s: seq<Entry>, size: nat)
    requires forall i :: 0 <= i < |s| ==> s[i].size != size
    ensures CountOf(s, size) == 0
  {
    if s != [] { CountNone(s[..|s| - 1], size); }
  }

  /** The table: an array, kept sorted by size. */
  class UsedObjects {
    const arr: array<Entry>
    var len: nat

    ghost predicate Valid()
      reads this, arr
    {
      len <= arr.Length && Sorted(arr[..len])
    }

    constructor (n: nat)
      ensures Valid() && len == 0 && arr.Length == n && fresh(arr)
    {
      arr := new Entry[n](_ => Entry(0, 0));
      len := 0;
    }

    method BinarySearch(size: nat) returns (r: Found)
      requires Valid()
      ensures match r
              case At(i) => i < len && arr[i].size == size
              case InsertAt(i) => i <= len && (forall j :: 0 <= j < i ==> arr[j].size < size) && (forall j :: i <= j < len ==> size < arr[j].size)
    {
      var low, high := 0, len;
      while low < high
        invariant low <= high <= len
        invariant forall j :: 0 <= j < low ==> arr[..len][j].size < size
        invariant forall j :: high <= j < len ==> size < arr[..len][j].size
      {
        var mid := (low + high) / 2;
        assert arr[..len][mid] == arr[mid];
        if arr[mid].size < size {
          low := mid + 1;
        } else if arr[mid].size > size {
          high := mid;
        } else {
          return At(mid);
        }
      }
      r := InsertAt(low);
      assert forall j :: 0 <= j < len ==> arr[..len][j] == arr[j];
    }

    /** What the table has counted for a size. */
    method FindSize(size: nat) returns (count: nat)
      requires Valid()
      ensures count == CountOf(arr[..len], size)
    {
      var r := BinarySearch(size);
      match r
      case At(i) =>
        SortedCount(arr[..len], i);
        count := arr[i].count;
      case InsertAt(_) =>
        CountNone(arr[..len], size);
        count := 0;
    }

    /** Counts `n` more objects of this size. Only a size that is not there yet takes up a cell. */
    method WriteUsedNumberAndSize(size: nat, n: nat)
      requires Valid() && (len < arr.Length || size == 0 || n == 0 || exists i :: 0 <= i < len && arr[i].size == size)
      modifies this`len, arr
      ensures Valid() && old(len) <= len <= old(len) + 1 && SizesOf(arr[..len]) <= SizesOf(old(arr[..len])) + {size}
      ensures forall z :: z > 0 ==> CountOf(arr[..len], z) == CountOf(old(arr[..len]), z) + (if z == size then n else 0)
    {
      if size == 0 || n == 0 { return; }
      ghost var s := arr[..len];
      var r := BinarySearch(size);
      match r
      case At(i) =>
        CountedUp(s, i, n);
        arr[i] := Entry(arr[i].count + n, size);
        assert arr[..len] == s[..i] + [Entry(s[i].count + n, size)] + s[i + 1..];
      case InsertAt(i) =>
        Inserted(s, i, Entry(n, size));
        ShiftRight(i);
        arr[i] := Entry(n, size);
        len := len + 1;
        assert arr[..len] == s[..i] + [Entry(n, size)] + s[i..];
    }

    /** Makes room for an entry at `i`. */
    method ShiftRight(i: nat)
      requires i <= len < arr.Length
      modifies arr
      ensures arr[..i] == old(arr[..i]) && arr[i + 1..len + 1] == old(arr[i..len])
    {
      for j := len downto i
        invariant forall k :: 0 <= k <= j && k < arr.Length ==> arr[k] == old(arr[k])
        invariant forall k :: j < k <= len ==> arr[k] == old(arr[k - 1])
      {
        arr[j + 1] := arr[j];
      }
    }

    /** Every size counted is one of these. */
    ghost predicate Within(sizes: set<nat>)
      reads this, arr
    {
      len <= arr.Length && SizesOf(arr[..len]) <= sizes
    }

    /** Counts `n` more objects of one of the sizes that the table has cells for. */
    method WriteWithin(size: nat, n: nat, ghost sizes: set<nat>)
      requires Valid() && Within(sizes) && |sizes| <= arr.Length && (size == 0 || n == 0 || size in sizes)
      modifies this`len, arr
      ensures Valid() && Within(sizes)
      ensures forall z :: z > 0 ==> CountOf(arr[..len], z) == CountOf(old(arr[..len]), z) + (if z == size then n else 0)
    {
      if size == 0 || n == 0 { return; }
      CellsEnough(arr[..len], sizes, size);
      if size !in SizesOf(arr[..len]) {
        assert len < arr.Length;
      } else {
        ghost var i :| 0 <= i < len && arr[..len][i].size == size;
        assert arr[i].size == size;
      }
      WriteUsedNumberAndSize(size, n);
    }

    /** Counts one object for each of the sizes; 0 stands for none. */
    method WriteSizes(list: seq<nat>, ghost sizes: set<nat>)
      requires Valid() && Within(sizes) && |sizes| <= arr.Length && ListWithin(list, sizes)
      modifies this`len, arr
      ensures Valid() && Within(sizes)
      ensures forall z :: z > 0 ==> CountOf(arr[..len], z) == CountOf(old(arr[..len]), z) + multiset(list)[z]
    {
      assert list[..0] == [];
      for i := 0 to |list|
        invariant Valid() && Within(sizes)
        invariant forall z :: z > 0 ==> CountOf(arr[..len], z) == CountOf(old(arr[..len]), z) + multiset(list[..i])[z]
      {
        assert list[..i + 1] == list[..i] + [list[i]];
        WriteWithin(list[i], 1, sizes);
      }
      assert list[..|list|] == list;
    }

    /** Counts a list of sizes with their numbers. */
    method WriteAll(items: seq<Entry>, ghost sizes: set<nat>)
      requires Valid() && Within(sizes) && |sizes| <= arr.Length
      requires forall i :: 0 <= i < |items| ==> items[i].size == 0 || items[i].count == 0 || items[i].size in sizes
      modifies this`len, arr
      ensures Valid() && Within(sizes)
      ensures forall z :: z > 0 ==> CountOf(arr[..len], z) == CountOf(old(arr[..len]), z) + CountOf(items, z)
    {
      assert items[..0] == [];
      for i := 0 to |items|
        invariant Valid() && Within(sizes)
        invariant forall z :: z > 0 ==> CountOf(arr[..len], z) == CountOf(old(arr[..len]), z) + CountOf(items[..i], z)
      {
        assert items[..i + 1][..i] == items[..i];
        WriteWithin(items[i].size, items[i].count, sizes);
      }
      assert items[..|items|] == items;
    }
  }

  ghost function SizesOf(s: seq<Entry>): set<nat> {
    set e | e in s :: e.size
  }

  /** A sorted table has a cell left for every size that is not in it. */
  lemma {:induction false} CellsEnough(s: seq<Entry>, sizes: set<nat>, size: nat)
    requires Sorted(s) && SizesOf(s) <= sizes && size in sizes
    ensures size !in SizesOf(s) ==> |s| < |sizes|
    ensures size in SizesOf(s) ==> exists i :: 0 <= i < |s| && s[i].size == size
  {
    assert forall i :: 0 <= i < |s| ==> s[i] in s && s[i].size in SizesOf(s);
    if size !in SizesOf(s) { Distinct(s, sizes - {size}); }
  }

  lemma {:induction false} Distinct(s: seq<Entry>, sizes: set<nat>)
    requires Sorted(s) && forall i :: 0 <= i < |s| ==> s[i].size in sizes
    ensures |s| <= |sizes|
  {
    if s != [] {
      var last := s[|s| - 1].size;
      Distinct(s[..|s| - 1], sizes - {last});
    }
  }

  lemma Inserted(s: seq<Entry>, i: nat, e: Entry)
    requires i <= |s| && Sorted(s)
    requires (forall j :: 0 <= j < i ==> s[j].size < e.size) && (forall j :: i <= j < |s| ==> e.size < s[j].size)
    ensures Sorted(s[..i] + [e] + s[i..])
    ensures forall z :: CountOf(s[..i] + [e] + s[i..], z) == CountOf(s, z) + (if z == e.size then e.count else 0)
  {
    SortedJoin(s[..i], [e]);
    SortedJoin(s[..i] + [e], s[i..]);
    CountsInserted(s, i, e);
  }

  lemma SortedJoin(a: seq<Entry>, b: seq<Entry>)
    requires Sorted(a) && Sorted(b) && forall i, j :: 0 <= i < |a| && 0 <= j < |b| ==> a[i].size < b[j].size
    ensures Sorted(a + b)
  {}

  lemma CountsInserted(s: seq<Entry>, i: nat, e: Entry)
    requires i <= |s|
    ensures forall z :: CountOf(s[..i] + [e] + s[i..], z) == CountOf(s, z) + (if z == e.size then e.count else 0)
  {
    assert s == s[..i] + s[i..];
    forall z ensures CountOf(s[..i] + [e] + s[i..], z) == CountOf(s, z) + (if z == e.size then e.count else 0) {
      CountInserted(s[..i], e, s[i..], z);
    }
  }

  lemma CountedUp(s: seq<Entry>, i: nat, n: nat)
    requires i < |s|
    ensures Sorted(s) ==> Sorted(s[..i] + [Entry(s[i].count + n, s[i].size)] + s[i + 1..])
    ensures forall z :: CountOf(s[..i] + [Entry(s[i].count + n, s[i].size)] + s[i + 1..], z) == CountOf(s, z) + (if z == s[i].size then n else 0)
  {
    assert s == s[..i] + [s[i]] + s[i + 1..];
    forall z ensures CountOf(s[..i] + [Entry(s[i].count + n, s[i].size)] + s[i + 1..], z) == CountOf(s, z) + (if z == s[i].size then n else 0) {
      CountInserted(s[..i], s[i], s[i + 1..], z);
      CountInserted(s[..i], Entry(s[i].count + n, s[i].size), s[i + 1..], z);
    }
  }

  // ----- the release test -----

  /** What is known of one size: the chunks cut into objects of it, and the objects in its table. */
  datatype SizeInfo = SizeInfo(size: nat, chunkSize: nat, chunks: nat, free: nat)

  /** Where the other objects are. */
  datatype Holders = Holders(own: nat, users: nat, inFlight: nat)

  /** Every slot of the chunks is free, or the allocator's own, or a user's, or on its way back. */
  ghost predicate Accounted(info: SizeInfo, h: Holders) {
    && 0 < info.size <= info.chunkSize
    && info.chunks * (info.chunkSize / info.size) == info.free + h.own + h.users + h.inFlight
  }

  /** The number of objects is taken from the memory as a whole, not chunk by chunk. */
  function ObjectsAllocated(info: SizeInfo): nat
    requires info.size > 0
  {
    (info.chunks * info.chunkSize) / info.size
  }

  /** So it may be more than there are slots: by what the chunks' remainders add up to. */
  lemma Overcount(info: SizeInfo)
    requires info.size > 0
    ensures ObjectsAllocated(info) == info.chunks * (info.chunkSize / info.size) + (info.chunks * (info.chunkSize % info.size)) / info.size
  {
    var n, q, r, s := info.chunks, info.chunkSize / info.size, info.chunkSize % info.size, info.size;
    assert info.chunkSize == q * s + r;
    assert n * info.chunkSize == (n * q) * s + n * r;
    DivideSum(n * q, n * r, s);
  }

  lemma DivideSum(a: nat, b: nat, s: nat)
    requires s > 0
    ensures (a * s + b) / s == a + b / s
  {
    var q, r := b / s, b % s;
    assert a * s + b == (a + q) * s + r;
    Quotient(a + q, r, s);
  }

  lemma Quotient(q: nat, r: nat, s: nat)
    requires r < s
    ensures (q * s + r) / s == q
  {
    var x := q * s + r;
    assert x == (x / s) * s + x % s;
    var d := x / s - q;
    assert d * s == r - x % s;
    assert d >= 1 ==> d * s >= s;
    assert d <= -1 ==> (d + 1) * s <= 0;
  }

  /** The test for one size. */
  predicate MayBeFreed(info: SizeInfo, own: nat) {
    info.size > 0 && ObjectsAllocated(info) - info.free == own
  }

  /** The test never passes while an object is with a user or on its way back; without any, it passes
      as long as the remainders of the chunks do not add up to an object. */
  lemma TestExact(info: SizeInfo, h: Holders)
    requires Accounted(info, h)
    ensures MayBeFreed(info, h.own) <==> h.users == 0 && h.inFlight == 0 && info.chunks * (info.chunkSize % info.size) < info.size
  {
    Overcount(info);
    var extra := info.chunks * (info.chunkSize % info.size);
    if extra < info.size { Quotient(0, extra, info.size); } else { assert extra / info.size >= 1 by { AtLeastOne(extra, info.size); } }
  }

  lemma AtLeastOne(x: nat, s: nat)
    requires 0 < s <= x
    ensures x / s >= 1
  {
    assert x == (x / s) * s + x % s;
  }

  /** Two chunks of 24-byte objects, all of them back: the memory is as large as one object more than
      there are slots, and is not released. */
  lemma IdleButNotReleased()
    ensures var info := SizeInfo(24, 0x1_0000, 2, 5460);
            Accounted(info, Holders(0, 0, 0)) && !MayBeFreed(info, 0)
  {}

  // ----- the allocator's own objects -----

  /** Something in a box of its own, with the sizes of the blocks it holds. */
  datatype Boxed = NoBox | Box(size: nat, blocks: seq<nat>)

  /** What the allocator allocated from itself: for each vector the size of its buffer, or 0 if it has none; and
      the nodes of its map by size. */
  datatype Own = Own(manager: Boxed, chunkManager: seq<nat>, commonObjects: seq<nat>, commonChunks: Boxed,
                     largeObjects: seq<nat>, largeChunks: Boxed, nodes: seq<Entry>)

  ghost function BlocksOf(b: Boxed): multiset<nat> {
    match b
    case NoBox => multiset{}
    case Box(size, blocks) => multiset{size} + multiset(blocks)
  }

  /** Its objects other than nodes, each by its size. */
  ghost function Blocks(own: Own): multiset<nat> {
    BlocksOf(own.manager) + multiset(own.chunkManager) + multiset(own.commonObjects) + BlocksOf(own.commonChunks)
    + multiset(own.largeObjects) + BlocksOf(own.largeChunks)
  }

  /** How many objects of a size are its own. */
  ghost function OwnOfSize(own: Own, size: nat): nat {
    Blocks(own)[size] + CountOf(own.nodes, size)
  }

  ghost predicate ListWithin(list: seq<nat>, sizes: set<nat>) {
    forall i :: 0 <= i < |list| ==> list[i] == 0 || list[i] in sizes
  }

  ghost predicate BoxWithin(b: Boxed, sizes: set<nat>) {
    b.Box? ==> (b.size == 0 || b.size in sizes) && ListWithin(b.blocks, sizes)
  }

  ghost predicate OwnSizes(own: Own, sizes: set<nat>) {
    && BoxWithin(own.manager, sizes) && ListWithin(own.chunkManager, sizes) && ListWithin(own.commonObjects, sizes)
    && BoxWithin(own.commonChunks, sizes) && ListWithin(own.largeObjects, sizes) && BoxWithin(own.largeChunks, sizes)
    && forall i :: 0 <= i < |own.nodes| ==> own.nodes[i].size in sizes
  }

  /** The cells of the table. */
  const MAX_NUMBER_OF_SELF_ALLOCATED_OBJECTS: nat := 1 + 128 + 3 + 1 + 128 + 88 + 1 + 88

  method WriteBoxed(t: UsedObjects, b: Boxed, ghost sizes: set<nat>)
    requires t.Valid() && t.Within(sizes) && |sizes| <= t.arr.Length && BoxWithin(b, sizes)
    modifies t`len, t.arr
    ensures t.Valid() && t.Within(sizes)
    ensures forall z :: z > 0 ==> CountOf(t.arr[..t.len], z) == CountOf(old(t.arr[..t.len]), z) + BlocksOf(b)[z]
  {
    match b
    case NoBox =>
    case Box(size, blocks) =>
      t.WriteWithin(size, 1, sizes);
      t.WriteSizes(blocks, sizes);
  }

  /** Counts all own objects, part by part. */
  method AllocatedForSelf(own: Own, ghost sizes: set<nat>) returns (t: UsedObjects)
    requires OwnSizes(own, sizes) && |sizes| <= MAX_NUMBER_OF_SELF_ALLOCATED_OBJECTS
    ensures fresh(t) && fresh(t.arr) && t.Valid() && forall z :: z > 0 ==> CountOf(t.arr[..t.len], z) == OwnOfSize(own, z)
  {
    t := new UsedObjects(MAX_NUMBER_OF_SELF_ALLOCATED_OBJECTS);
    WriteBoxed(t, own.manager, sizes);
    t.WriteSizes(own.chunkManager, sizes);
    t.WriteSizes(own.commonObjects, sizes);
    WriteBoxed(t, own.commonChunks, sizes);
    t.WriteSizes(own.largeObjects, sizes);
    WriteBoxed(t, own.largeChunks, sizes);
    t.WriteAll(own.nodes, sizes);
  }

  datatype Outcome = Released | KeptForExtraLarge | NotYet

  /** Everything of the size is back, and the remainders of its chunks do not add up to an object. */
  ghost predicate AllBack(info: SizeInfo, h: Holders) {
    info.size > 0 && h.users == 0 && h.inFlight == 0 && info.chunks * (info.chunkSize % info.size) < info.size
  }

  /** Counts the own objects and looks at one size after the other; sizes beyond the classes come last. The own
      objects of a size are those that the allocator's parts hold, and nothing else is said of them. */
  method TryFreeAllMemory(own: Own, infos: seq<SizeInfo>, extraLarge: nat, ghost holders: seq<Holders>, ghost sizes: set<nat>) returns (r: Outcome)
    requires OwnSizes(own, sizes) && |sizes| <= MAX_NUMBER_OF_SELF_ALLOCATED_OBJECTS
    requires |infos| == |holders|
    requires forall i :: 0 <= i < |infos| ==> Accounted(infos[i], holders[i]) && holders[i].own == OwnOfSize(own, infos[i].size)
    ensures r.NotYet? <==> exists i :: 0 <= i < |infos| && !AllBack(infos[i], holders[i])
    ensures r.Released? || r.KeptForExtraLarge? ==> forall i :: 0 <= i < |infos| ==> holders[i].users == 0 && holders[i].inFlight == 0
    ensures r.Released? ==> extraLarge == 0
    ensures r.KeptForExtraLarge? ==> extraLarge > 0
  {
    var t := AllocatedForSelf(own, sizes);
    for i := 0 to |infos|
      invariant t.Valid() && forall z :: z > 0 ==> CountOf(t.arr[..t.len], z) == OwnOfSize(own, z)
      invariant forall j :: 0 <= j < i ==> AllBack(infos[j], holders[j])
    {
      var count := t.FindSize(infos[i].size);
      TestExact(infos[i], holders[i]);
      if !MayBeFreed(infos[i], count) { return NotYet; }
    }
    return if extraLarge > 0 then KeptForExtraLarge else Released;
  }
}
