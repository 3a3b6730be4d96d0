/** The geometry of a region: a chunk of metadata, common chunks, large chunks, and the one metadata
    record that every address of a common chunk's width leads to. */
module Region {
  type Addr = nat

  const COMMON_CHUNK_SIZE: nat := 0x1_0000
  const LARGE_CHUNK_SIZE: nat := 0x8_0000
  const REGION_SIZE: nat := 0x200_0000
  const COMMON_CHUNKS_IN_LARGE_CHUNK: nat := 8
  const LARGE_CHUNKS_IN_REGION: nat := 63
  const REST_COMMON_CHUNKS_IN_REGION: nat := 7
  const MAX_COMMON_CHUNKS_IN_REGION: nat := 511
  /** A pointer, and an offset made of a flag and an index. */
  const CHUNK_METADATA_SIZE: nat := 24

  function CommonChunk(base: Addr, i: nat): Addr {
    base + COMMON_CHUNK_SIZE * (1 + i)
  }

  function LargeChunk(base: Addr, j: nat): Addr {
    base + LARGE_CHUNK_SIZE * (1 + j)
  }

  /** The chunks of a region, found by a cursor that steps over it from the end of the metadata. */
  method ParseRegion(base: Addr) returns (common: seq<Addr>, large: seq<Addr>)
    ensures |common| == REST_COMMON_CHUNKS_IN_REGION && forall i :: 0 <= i < |common| ==> common[i] == CommonChunk(base, i)
    ensures |large| == LARGE_CHUNKS_IN_REGION && forall j :: 0 <= j < |large| ==> large[j] == LargeChunk(base, j)
  {
    var curr := base + COMMON_CHUNK_SIZE;
    common, large := [], [];
    for i := 0 to REST_COMMON_CHUNKS_IN_REGION
      invariant |common| == i && curr == CommonChunk(base, i)
      invariant forall k :: 0 <= k < i ==> common[k] == CommonChunk(base, k)
    {
      common := common + [curr];
      curr := curr + COMMON_CHUNK_SIZE;
    }
    for j := 0 to LARGE_CHUNKS_IN_REGION
      invariant |large| == j && curr == LargeChunk(base, j)
      invariant forall k :: 0 <= k < j ==> large[k] == LargeChunk(base, k)
    {
      large := large + [curr];
      curr := curr + LARGE_CHUNK_SIZE;
    }
  }

  predicate InCommon(base: Addr, i: nat, a: Addr) {
    CommonChunk(base, i) <= a < CommonChunk(base, i) + COMMON_CHUNK_SIZE
  }

  predicate InLarge(base: Addr, j: nat, a: Addr) {
    LargeChunk(base, j) <= a < LargeChunk(base, j) + LARGE_CHUNK_SIZE
  }

  /** The chunks tile the region after its metadata: every address there is in exactly one chunk,
      and no chunk reaches outside. */
  lemma ChunksTile(base: Addr, a: Addr)
    ensures base + COMMON_CHUNK_SIZE <= a < base + LARGE_CHUNK_SIZE <==> exists i: nat :: i < REST_COMMON_CHUNKS_IN_REGION && InCommon(base, i, a)
    ensures base + LARGE_CHUNK_SIZE <= a < base + REGION_SIZE <==> exists j: nat :: j < LARGE_CHUNKS_IN_REGION && InLarge(base, j, a)
    ensures forall i, k: nat :: InCommon(base, i, a) && InCommon(base, k, a) ==> i == k
    ensures forall j, k: nat :: InLarge(base, j, a) && InLarge(base, k, a) ==> j == k
  {
    if base + COMMON_CHUNK_SIZE <= a < base + LARGE_CHUNK_SIZE {
      var i: nat := (a - base) / COMMON_CHUNK_SIZE - 1;
      assert i < REST_COMMON_CHUNKS_IN_REGION && InCommon(base, i, a);
    }
    if base + LARGE_CHUNK_SIZE <= a < base + REGION_SIZE {
      var j: nat := (a - base) / LARGE_CHUNK_SIZE - 1;
      assert j < LARGE_CHUNKS_IN_REGION && InLarge(base, j, a);
    }
  }

  // ----- metadata -----

  /** Clearing the low bits gives the region's start. */
  function RegionOf(a: Addr): Addr {
    a - a % REGION_SIZE
  }

  /** The width of a common chunk that `a` is in, counted from its region's start. */
  function UnitOf(a: Addr): nat {
    (a - RegionOf(a)) / COMMON_CHUNK_SIZE
  }

  function ChunkMetadataPtr(a: Addr): Addr {
    RegionOf(a) + UnitOf(a) * CHUNK_METADATA_SIZE
  }

  lemma RegionAndUnit(base: Addr, u: nat, d: nat)
    requires base % REGION_SIZE == 0 && u <= MAX_COMMON_CHUNKS_IN_REGION && d < COMMON_CHUNK_SIZE
    ensures RegionOf(base + u * COMMON_CHUNK_SIZE + d) == base && UnitOf(base + u * COMMON_CHUNK_SIZE + d) == u
  {
    var a := base + u * COMMON_CHUNK_SIZE + d;
    assert 0 <= a - base < REGION_SIZE;
    assert a % REGION_SIZE == a - base;
  }

  /** Records lie in the metadata chunk; two addresses share theirs exactly if they are in the same
      common chunk's width, and otherwise the records do not overlap. */
  lemma MetadataSlots(a: Addr, b: Addr)
    ensures RegionOf(a) <= ChunkMetadataPtr(a) && ChunkMetadataPtr(a) + CHUNK_METADATA_SIZE <= RegionOf(a) + COMMON_CHUNK_SIZE
    ensures ChunkMetadataPtr(a) == ChunkMetadataPtr(b) <==> a / COMMON_CHUNK_SIZE == b / COMMON_CHUNK_SIZE
    ensures ChunkMetadataPtr(a) != ChunkMetadataPtr(b) ==>
              || ChunkMetadataPtr(a) + CHUNK_METADATA_SIZE <= ChunkMetadataPtr(b)
              || ChunkMetadataPtr(b) + CHUNK_METADATA_SIZE <= ChunkMetadataPtr(a)
  {
    UnitsOf(a);
    UnitsOf(b);
    RecordPlaces(a / REGION_SIZE, UnitOf(a), b / REGION_SIZE, UnitOf(b));
  }

  lemma RecordPlaces(r: nat, u: nat, s: nat, v: nat)
    requires u < 520 && v < 520
    ensures var p, q := r * REGION_SIZE + u * CHUNK_METADATA_SIZE, s * REGION_SIZE + v * CHUNK_METADATA_SIZE;
            && (u < 512 && v < 512 ==> (p == q <==> r * 512 + u == s * 512 + v))
            && (p == q <==> r == s && u == v)
            && (p != q ==> p + CHUNK_METADATA_SIZE <= q || q + CHUNK_METADATA_SIZE <= p)
  {}

  lemma UnitsOf(a: Addr)
    ensures RegionOf(a) == (a / REGION_SIZE) * REGION_SIZE && UnitOf(a) < 512
    ensures a / COMMON_CHUNK_SIZE == (a / REGION_SIZE) * 512 + UnitOf(a)
  {
    var q, r := a / REGION_SIZE, a % REGION_SIZE;
    assert a == q * REGION_SIZE + r;
    assert UnitOf(a) == r / COMMON_CHUNK_SIZE;
    var u := r / COMMON_CHUNK_SIZE;
    assert a == (q * 512 + u) * COMMON_CHUNK_SIZE + r % COMMON_CHUNK_SIZE;
  }

  datatype ChunkMetadata = ChunkMetadata(nonLocalPtrManager: nat, offsetToSlotInTable: int)

  /** What the metadata memory holds. */
  type MetadataMem = map<Addr, ChunkMetadata>

  /** Every address of the chunk leads to the written record. */
  ghost predicate Resolves(mem: MetadataMem, chunk: Addr, size: nat, m: ChunkMetadata) {
    forall a :: chunk <= a < chunk + size ==> ChunkMetadataPtr(a) in mem && mem[ChunkMetadataPtr(a)] == m
  }

  /** The record that `a` leads to is what it was. */
  ghost predicate RecordKept(before: MetadataMem, after: MetadataMem, a: Addr) {
    && (ChunkMetadataPtr(a) in before <==> ChunkMetadataPtr(a) in after)
    && (ChunkMetadataPtr(a) in before ==> after[ChunkMetadataPtr(a)] == before[ChunkMetadataPtr(a)])
  }

  /** Within `n` common widths from the one that `at` is in. */
  predicate Near(at: Addr, n: nat, a: Addr) {
    at / COMMON_CHUNK_SIZE <= a / COMMON_CHUNK_SIZE < at / COMMON_CHUNK_SIZE + n
  }

  class Metadata {
    var mem: MetadataMem

    constructor ()
      ensures mem == map[]
    {
      mem := map[];
    }

    /** Any address of the chunk will do. */
    method InitMetadataForCommonChunk(nlpm: nat, offset: int, at: Addr)
      modifies this
      ensures mem == WrittenFrom(old(mem), ChunkMetadataPtr(at), 1, ChunkMetadata(nlpm, offset))
      ensures Resolves(mem, at - at % COMMON_CHUNK_SIZE, COMMON_CHUNK_SIZE, ChunkMetadata(nlpm, offset))
      ensures forall a: Addr :: !Near(at, 1, a) ==> RecordKept(old(mem), mem, a)
    {
      mem := mem[ChunkMetadataPtr(at) := ChunkMetadata(nlpm, offset)];
      var chunk := at - at % COMMON_CHUNK_SIZE;
      forall a | chunk <= a < chunk + COMMON_CHUNK_SIZE ensures ChunkMetadataPtr(a) == ChunkMetadataPtr(at) {
        MetadataSlots(a, at);
      }
      forall a: Addr | !Near(at, 1, a) ensures RecordKept(old(mem), mem, a) { MetadataSlots(a, at); }
      assert WrittenFrom(old(mem), ChunkMetadataPtr(at), 0, ChunkMetadata(nlpm, offset)) == old(mem);
    }

    /** Writes one record for each of the common chunks that the large one is as wide as, starting
        with the record of `at`. */
    method InitMetadataForLargeChunk(nlpm: nat, offset: int, at: Addr)
      modifies this
      ensures mem == WrittenFrom(old(mem), ChunkMetadataPtr(at), COMMON_CHUNKS_IN_LARGE_CHUNK, ChunkMetadata(nlpm, offset))
      ensures forall a: Addr :: !Near(at, COMMON_CHUNKS_IN_LARGE_CHUNK, a) ==> RecordKept(old(mem), mem, a)
    {
      var metadataPtr := ChunkMetadataPtr(at);
      for i := 0 to COMMON_CHUNKS_IN_LARGE_CHUNK
        invariant metadataPtr == ChunkMetadataPtr(at) + i * CHUNK_METADATA_SIZE
        invariant mem == WrittenFrom(old(mem), ChunkMetadataPtr(at), i, ChunkMetadata(nlpm, offset))
      {
        mem := mem[metadataPtr := ChunkMetadata(nlpm, offset)];
        metadataPtr := metadataPtr + CHUNK_METADATA_SIZE;
      }
      forall a: Addr | !Near(at, COMMON_CHUNKS_IN_LARGE_CHUNK, a) ensures RecordKept(old(mem), mem, a) {
        OthersKept(old(mem), at, COMMON_CHUNKS_IN_LARGE_CHUNK, ChunkMetadata(nlpm, offset), a);
      }
    }
  }

  /** Records of addresses further off are not written. */
  lemma OthersKept(mem: MetadataMem, at: Addr, n: nat, m: ChunkMetadata, a: Addr)
    requires n <= COMMON_CHUNKS_IN_LARGE_CHUNK && !Near(at, n, a)
    ensures RecordKept(mem, WrittenFrom(mem, ChunkMetadataPtr(at), n, m), a)
  {
    var p, q := ChunkMetadataPtr(at), ChunkMetadataPtr(a);
    WrittenAt(mem, p, n, m, q);
    UnitsOf(at);
    UnitsOf(a);
    if i: nat :| i < n && q == p + i * CHUNK_METADATA_SIZE {
      assert q == RegionOf(at) + (UnitOf(at) + i) * CHUNK_METADATA_SIZE;
      RecordPlaces(a / REGION_SIZE, UnitOf(a), at / REGION_SIZE, UnitOf(at) + i);
      assert false;
    }
  }

  /** Records written from its start on serve a chunk that is as wide as `n` common ones. */
  lemma WrittenResolves(mem: MetadataMem, chunk: Addr, n: nat, m: ChunkMetadata)
    requires chunk % COMMON_CHUNK_SIZE == 0 && UnitOf(chunk) + n <= 512
    ensures Resolves(WrittenFrom(mem, ChunkMetadataPtr(chunk), n, m), chunk, n * COMMON_CHUNK_SIZE, m)
  {
    var p := ChunkMetadataPtr(chunk);
    var mem' := WrittenFrom(mem, p, n, m);
    forall a | chunk <= a < chunk + n * COMMON_CHUNK_SIZE ensures ChunkMetadataPtr(a) in mem' && mem'[ChunkMetadataPtr(a)] == m {
      var i: nat := (a - chunk) / COMMON_CHUNK_SIZE;
      RecordOf(chunk, i, a);
      WrittenAt(mem, p, n, m, ChunkMetadataPtr(a));
    }
  }

  lemma RecordOf(chunk: Addr, i: nat, a: Addr)
    requires chunk % COMMON_CHUNK_SIZE == 0 && UnitOf(chunk) + i < 512 && chunk <= a && i == (a - chunk) / COMMON_CHUNK_SIZE
    ensures ChunkMetadataPtr(a) == ChunkMetadataPtr(chunk) + i * CHUNK_METADATA_SIZE
  {
    var base, u, d := RegionOf(chunk), UnitOf(chunk) + i, (a - chunk) % COMMON_CHUNK_SIZE;
    UnitsOf(chunk);
    assert chunk == base + UnitOf(chunk) * COMMON_CHUNK_SIZE;
    assert a == base + u * COMMON_CHUNK_SIZE + d;
    RegionAndUnit(base, u, d);
  }

  ghost function WrittenFrom(mem: MetadataMem, p: Addr, n: nat, m: ChunkMetadata): MetadataMem {
    if n == 0 then mem else WrittenFrom(mem, p, n - 1, m)[p + (n - 1) * CHUNK_METADATA_SIZE := m]
  }

  lemma {:induction false} WrittenAt(mem: MetadataMem, p: Addr, n: nat, m: ChunkMetadata, q: Addr)
    ensures q in WrittenFrom(mem, p, n, m) <==> q in mem || (exists i: nat :: i < n && q == p + i * CHUNK_METADATA_SIZE)
    ensures (exists i: nat :: i < n && q == p + i * CHUNK_METADATA_SIZE) ==> WrittenFrom(mem, p, n, m)[q] == m
    ensures q in mem && !(exists i: nat :: i < n && q == p + i * CHUNK_METADATA_SIZE) ==> WrittenFrom(mem, p, n, m)[q] == mem[q]
  {
    if n > 0 {
      WrittenAt(mem, p, n - 1, m, q);
      if q == p + (n - 1) * CHUNK_METADATA_SIZE { assert n - 1 < n; }
      if i: nat :| i < n && q == p + i * CHUNK_METADATA_SIZE { assert i < n - 1 || i == n - 1; }
    }
  }

  /** Written from an address of a large chunk of fresh records, the records serve the whole chunk
      exactly if that address is in the chunk's first common width, as the chunk's start is. */
  lemma LargeChunkResolves(mem: MetadataMem, base: Addr, j: nat, at: Addr, m: ChunkMetadata)
    requires base % REGION_SIZE == 0 && j < LARGE_CHUNKS_IN_REGION && InLarge(base, j, at)
    requires forall a :: InLarge(base, j, a) ==> ChunkMetadataPtr(a) !in mem
    ensures Resolves(WrittenFrom(mem, ChunkMetadataPtr(at), COMMON_CHUNKS_IN_LARGE_CHUNK, m), LargeChunk(base, j), LARGE_CHUNK_SIZE, m)
            <==> at < LargeChunk(base, j) + COMMON_CHUNK_SIZE
  {
    var chunk, p, v := LargeChunk(base, j), ChunkMetadataPtr(at), (at - LargeChunk(base, j)) / COMMON_CHUNK_SIZE;
    var mem' := WrittenFrom(mem, p, COMMON_CHUNKS_IN_LARGE_CHUNK, m);
    UnitInLarge(base, j, at);
    assert p == base + (8 * (1 + j) + v) * CHUNK_METADATA_SIZE;
    if at < chunk + COMMON_CHUNK_SIZE {
      forall a | chunk <= a < chunk + LARGE_CHUNK_SIZE ensures ChunkMetadataPtr(a) in mem' && mem'[ChunkMetadataPtr(a)] == m {
        var w: nat := (a - chunk) / COMMON_CHUNK_SIZE;
        UnitInLarge(base, j, a);
        assert ChunkMetadataPtr(a) == p + w * CHUNK_METADATA_SIZE;
        WrittenAt(mem, p, COMMON_CHUNKS_IN_LARGE_CHUNK, m, ChunkMetadataPtr(a));
      }
    } else {
      UnitInLarge(base, j, chunk);
      assert InLarge(base, j, chunk);
      WrittenAt(mem, p, COMMON_CHUNKS_IN_LARGE_CHUNK, m, ChunkMetadataPtr(chunk));
      assert ChunkMetadataPtr(chunk) < p;
    }
  }

  lemma UnitInLarge(base: Addr, j: nat, a: Addr)
    requires base % REGION_SIZE == 0 && j < LARGE_CHUNKS_IN_REGION && InLarge(base, j, a)
    ensures RegionOf(a) == base && UnitOf(a) == 8 * (1 + j) + (a - LargeChunk(base, j)) / COMMON_CHUNK_SIZE
  {
    var v, d := (a - LargeChunk(base, j)) / COMMON_CHUNK_SIZE, (a - LargeChunk(base, j)) % COMMON_CHUNK_SIZE;
    assert a == base + (8 * (1 + j) + v) * COMMON_CHUNK_SIZE + d;
    RegionAndUnit(base, 8 * (1 + j) + v, d);
  }

  // ----- dividing a large chunk -----

  function SplitChunk(chunk: Addr, i: nat): Addr {
    chunk + i * COMMON_CHUNK_SIZE
  }

  /** A large chunk as common ones. */
  method SplitLargeChunkToCommon(chunk: Addr) returns (chunks: seq<Addr>)
    ensures |chunks| == COMMON_CHUNKS_IN_LARGE_CHUNK && forall i :: 0 <= i < |chunks| ==> chunks[i] == SplitChunk(chunk, i)
  {
    chunks := [];
    for i := 0 to COMMON_CHUNKS_IN_LARGE_CHUNK
      invariant |chunks| == i && forall k :: 0 <= k < i ==> chunks[k] == SplitChunk(chunk, k)
    {
      chunks := chunks + [chunk + i * COMMON_CHUNK_SIZE];
    }
  }
}
