/** Dividing a chunk into the slots of one size when the tables have run out of them. All slots but the last
    go to the vector of free objects; the last one is what the caller gets, and its address is what the
    metadata is written from. */
module Carving {
  import opened Region
  import opened Chunks

  function LastSlot(chunk: Addr, width: nat, size: nat): Addr
    requires 0 < size <= width
  {
    assert width / size >= 1;
    SlotAddr(Slot(chunk, size, width / size - 1))
  }

  /** The slots before the last one, in order, by stepping through the chunk. */
  method Carve(chunk: Addr, width: nat, size: nat) returns (slots: seq<Addr>, last: Addr)
    requires 0 < size <= width
    ensures |slots| == width / size - 1 && forall i :: 0 <= i < |slots| ==> slots[i] == SlotAddr(Slot(chunk, size, i))
    ensures last == LastSlot(chunk, width, size) && chunk <= last && last + size <= chunk + width
  {
    SlotInside(size, 0, width);
    var additional := width / size - 1;
    slots := [];
    last := chunk;
    for i := 0 to additional
      invariant |slots| == i && last == SlotAddr(Slot(chunk, size, i))
      invariant forall k :: 0 <= k < i ==> slots[k] == SlotAddr(Slot(chunk, size, k))
    {
      slots := slots + [last];
      last := last + size;
    }
    SlotInside(size, additional, width);
  }

  method AllocCommonSlow(chunk: Addr, size: nat, metadata: Metadata, nlpm: nat, offset: int) returns (slots: seq<Addr>, last: Addr)
    requires 0 < size <= COMMON_SIZE_MAX && chunk % COMMON_CHUNK_SIZE == 0
    modifies metadata
    ensures |slots| == COMMON_CHUNK_SIZE / size - 1 && forall i :: 0 <= i < |slots| ==> slots[i] == SlotAddr(Slot(chunk, size, i))
    ensures last == LastSlot(chunk, COMMON_CHUNK_SIZE, size)
    ensures Resolves(metadata.mem, chunk, COMMON_CHUNK_SIZE, ChunkMetadata(nlpm, offset))
    ensures forall a: Addr :: !(chunk <= a < chunk + COMMON_CHUNK_SIZE) ==> RecordKept(old(metadata.mem), metadata.mem, a)
  {
    slots, last := Carve(chunk, COMMON_CHUNK_SIZE, size);
    metadata.InitMetadataForCommonChunk(nlpm, offset, last);
    assert last - last % COMMON_CHUNK_SIZE == chunk;
  }

  method AllocLargeSlow(chunk: Addr, size: nat, metadata: Metadata, nlpm: nat, offset: int) returns (slots: seq<Addr>, last: Addr)
    requires COMMON_SIZE_MAX < size <= LARGE_SIZE_MAX
    modifies metadata
    ensures |slots| == LARGE_CHUNK_SIZE / size - 1 && forall i :: 0 <= i < |slots| ==> slots[i] == SlotAddr(Slot(chunk, size, i))
    ensures last == LastSlot(chunk, LARGE_CHUNK_SIZE, size)
    ensures metadata.mem == WrittenFrom(old(metadata.mem), ChunkMetadataPtr(last), COMMON_CHUNKS_IN_LARGE_CHUNK, ChunkMetadata(nlpm, offset))
  {
    slots, last := Carve(chunk, LARGE_CHUNK_SIZE, size);
    metadata.InitMetadataForLargeChunk(nlpm, offset, last);
  }

  lemma LastSlotFar(chunk: Addr, size: nat)
    requires COMMON_SIZE_MAX < size <= LARGE_SIZE_MAX
    ensures var last := LastSlot(chunk, LARGE_CHUNK_SIZE, size);
            chunk + LARGE_CHUNK_SIZE - 2 * size < last <= chunk + LARGE_CHUNK_SIZE - size && last >= chunk + COMMON_CHUNK_SIZE
  {
    var n := LARGE_CHUNK_SIZE / size;
    assert n * size + LARGE_CHUNK_SIZE % size == LARGE_CHUNK_SIZE;
    assert (n - 1) * size == n * size - size;
  }

  /** For no large size do the records that are written from the last slot serve the whole chunk; and the
      first record of the chunk that follows is overwritten. */
  lemma LastSlotMisses(mem: MetadataMem, base: Addr, j: nat, size: nat, m: ChunkMetadata)
    requires base % REGION_SIZE == 0 && j < LARGE_CHUNKS_IN_REGION && COMMON_SIZE_MAX < size <= LARGE_SIZE_MAX
    requires forall a :: InLarge(base, j, a) ==> ChunkMetadataPtr(a) !in mem
    ensures var last := LastSlot(LargeChunk(base, j), LARGE_CHUNK_SIZE, size);
            var mem' := WrittenFrom(mem, ChunkMetadataPtr(last), COMMON_CHUNKS_IN_LARGE_CHUNK, m);
            && !Resolves(mem', LargeChunk(base, j), LARGE_CHUNK_SIZE, m)
            && ChunkMetadataPtr(LargeChunk(base, j)) !in mem'
            && (j + 1 < LARGE_CHUNKS_IN_REGION ==>
                  ChunkMetadataPtr(LargeChunk(base, j + 1)) in mem' && mem'[ChunkMetadataPtr(LargeChunk(base, j + 1))] == m)
  {
    var chunk, next := LargeChunk(base, j), LargeChunk(base, j + 1);
    var last := LastSlot(chunk, LARGE_CHUNK_SIZE, size);
    LastSlotFar(chunk, size);
    LargeChunkResolves(mem, base, j, last, m);
    OthersKept(mem, last, COMMON_CHUNKS_IN_LARGE_CHUNK, m, chunk);
    assert InLarge(base, j, chunk);
    if j + 1 < LARGE_CHUNKS_IN_REGION {
      var v := (last - chunk) / COMMON_CHUNK_SIZE;
      UnitInLarge(base, j, last);
      UnitInLarge(base, j + 1, next);
      assert ChunkMetadataPtr(next) == ChunkMetadataPtr(last) + (8 - v) * CHUNK_METADATA_SIZE;
      WrittenAt(mem, ChunkMetadataPtr(last), COMMON_CHUNKS_IN_LARGE_CHUNK, m, ChunkMetadataPtr(next));
    }
  }
}
