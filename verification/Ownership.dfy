/** The records that lead from any address of a used chunk to the thread that owns it and to the vector that
    its objects belong to. */
module Ownership {
  import opened Region
  import opened Chunks

  /** Which vector has the objects of a size. */
  type Numbering = nat -> nat

  function RecordFor(vec: Numbering, nlpm: nat, u: Used): ChunkMetadata {
    ChunkMetadata(nlpm, vec(u.size))
  }

  function Widths(large: bool): nat {
    if large then COMMON_CHUNKS_IN_LARGE_CHUNK else 1
  }

  predicate InChunk(u: Used, large: bool, a: Addr) {
    u.ptr <= a < u.ptr + ChunkSize(large)
  }

  /** Every address of the chunk leads to its record. */
  ghost predicate Leads(mem: MetadataMem, vec: Numbering, nlpm: nat, u: Used, large: bool) {
    forall a {:trigger InChunk(u, large, a)} :: InChunk(u, large, a) ==> ChunkMetadataPtr(a) in mem && mem[ChunkMetadataPtr(a)] == RecordFor(vec, nlpm, u)
  }

  ghost predicate AllLead(mem: MetadataMem, vec: Numbering, nlpm: nat, used: seq<Used>, large: bool) {
    forall k :: 0 <= k < |used| ==> Leads(mem, vec, nlpm, used[k], large)
  }

  ghost predicate Outside(used: seq<Used>, large: bool, a: Addr) {
    forall k :: 0 <= k < |used| ==> !InChunk(used[k], large, a)
  }

  /** The records of all other addresses are what they were. */
  ghost predicate OthersAsBefore(before: MetadataMem, after: MetadataMem, used: seq<Used>, large: bool) {
    forall a {:trigger Outside(used, large, a)} :: Outside(used, large, a) ==> RecordKept(before, after, a)
  }

  /** The chunk has its place among the records of its region. */
  predicate Fits(u: Used, large: bool) {
    u.ptr % COMMON_CHUNK_SIZE == 0 && UnitOf(u.ptr) + Widths(large) <= 512
  }

  predicate Clear(u: Used, large: bool, v: Used, alsoLarge: bool) {
    u.ptr + ChunkSize(large) <= v.ptr || v.ptr + ChunkSize(alsoLarge) <= u.ptr
  }

  predicate AllFit(used: seq<Used>, large: bool) {
    && (forall k :: 0 <= k < |used| ==> Fits(used[k], large))
    && forall j, k :: 0 <= j < k < |used| ==> Clear(used[j], large, used[k], large)
  }

  lemma NearIsIn(u: Used, large: bool, a: Addr)
    requires u.ptr % COMMON_CHUNK_SIZE == 0
    ensures Near(u.ptr, Widths(large), a) <==> InChunk(u, large, a)
  {
  }

  /** Writes the records of one chunk. */
  method InitMetadata(metadata: Metadata, vec: Numbering, nlpm: nat, u: Used, large: bool)
    requires Fits(u, large)
    modifies metadata
    ensures Leads(metadata.mem, vec, nlpm, u, large)
    ensures forall a: Addr :: !InChunk(u, large, a) ==> RecordKept(old(metadata.mem), metadata.mem, a)
  {
    if large {
      metadata.InitMetadataForLargeChunk(nlpm, vec(u.size), u.ptr);
    } else {
      metadata.InitMetadataForCommonChunk(nlpm, vec(u.size), u.ptr);
    }
    WrittenResolves(old(metadata.mem), u.ptr, Widths(large), RecordFor(vec, nlpm, u));
    assert Resolves(metadata.mem, u.ptr, ChunkSize(large), RecordFor(vec, nlpm, u));
    forall a: Addr | !InChunk(u, large, a) ensures RecordKept(old(metadata.mem), metadata.mem, a) { NearIsIn(u, large, a); }
  }

  /** Writes the records of all chunks of a list. None of them spoils another's. */
  method InitAllMetadata(metadata: Metadata, vec: Numbering, nlpm: nat, used: seq<Used>, large: bool)
    requires AllFit(used, large)
    modifies metadata
    ensures AllLead(metadata.mem, vec, nlpm, used, large) && OthersAsBefore(old(metadata.mem), metadata.mem, used, large)
  {
    for k := 0 to |used|
      invariant forall j :: 0 <= j < k ==> Leads(metadata.mem, vec, nlpm, used[j], large)
      invariant OthersAsBefore(old(metadata.mem), metadata.mem, used, large)
    {
      ghost var mem := metadata.mem;
      InitMetadata(metadata, vec, nlpm, used[k], large);
      forall j | 0 <= j < k ensures Leads(metadata.mem, vec, nlpm, used[j], large) {
        StillLeads(mem, metadata.mem, vec, nlpm, used[j], large, used[k], large);
      }
    }
  }

  lemma StillLeads(before: MetadataMem, after: MetadataMem, vec: Numbering, nlpm: nat, u: Used, large: bool, v: Used, alsoLarge: bool)
    requires Leads(before, vec, nlpm, u, large) && Clear(u, large, v, alsoLarge)
    requires forall a: Addr :: !InChunk(v, alsoLarge, a) ==> RecordKept(before, after, a)
    ensures Leads(after, vec, nlpm, u, large)
  {
    forall a | InChunk(u, large, a) ensures ChunkMetadataPtr(a) in after && after[ChunkMetadataPtr(a)] == RecordFor(vec, nlpm, u) {
      assert !InChunk(v, alsoLarge, a) && RecordKept(before, after, a);
    }
  }

  /** Records of other chunks stay. */
  lemma AllStillLead(before: MetadataMem, after: MetadataMem, vec: Numbering, nlpm: nat, used: seq<Used>, large: bool, others: seq<Used>, alsoLarge: bool)
    requires AllLead(before, vec, nlpm, used, large) && OthersAsBefore(before, after, others, alsoLarge)
    requires forall j, k :: 0 <= j < |used| && 0 <= k < |others| ==> Clear(used[j], large, others[k], alsoLarge)
    ensures AllLead(after, vec, nlpm, used, large)
  {
    forall j, a | 0 <= j < |used| && InChunk(used[j], large, a)
      ensures ChunkMetadataPtr(a) in after && after[ChunkMetadataPtr(a)] == RecordFor(vec, nlpm, used[j])
    {
      assert Leads(before, vec, nlpm, used[j], large);
      assert Outside(others, alsoLarge, a) && RecordKept(before, after, a);
    }
  }

  // ----- in a chain -----

  lemma ChunkFits(roles: Roles, regions: set<Addr>, u: Used, large: bool)
    requires AllPlaced(roles, regions) && u.ptr in roles && roles[u.ptr].large == large
    ensures Fits(u, large)
  {
    assert OnGrid(u.ptr, roles[u.ptr].large) && Placed(roles, regions, u.ptr);
    if large { OnGridIf(u.ptr, u.ptr / LARGE_CHUNK_SIZE * 8, false); }
    var b :| b in regions && b + COMMON_CHUNK_SIZE <= u.ptr && u.ptr + Width(roles[u.ptr]) <= b + REGION_SIZE;
    UnitsInRegion(b, u.ptr, Widths(large));
  }

  lemma UnitsInRegion(b: Addr, c: Addr, n: nat)
    requires b % REGION_SIZE == 0 && b <= c && c + n * COMMON_CHUNK_SIZE <= b + REGION_SIZE && n > 0
    ensures UnitOf(c) + n <= 512
  {
    var u, d := (c - b) / COMMON_CHUNK_SIZE, (c - b) % COMMON_CHUNK_SIZE;
    assert c == b + u * COMMON_CHUNK_SIZE + d;
    RegionAndUnit(b, u, d);
  }

  /** The used chunks of a state have their places, and no two overlap. */
  lemma UsedChunksFit(states: seq<State>, roles: Roles, regions: set<Addr>, s: nat)
    requires ListsOk(states, roles) && Apart(roles) && AllPlaced(roles, regions) && s < |states|
    ensures AllFit(states[s].usedCommon, false) && AllFit(states[s].usedLarge, true)
    ensures forall j, k :: 0 <= j < |states[s].usedCommon| && 0 <= k < |states[s].usedLarge| ==>
              Clear(states[s].usedCommon[j], false, states[s].usedLarge[k], true)
  {
    forall large, k | 0 <= k < |UsedOf(states[s], large)| ensures Fits(UsedOf(states[s], large)[k], large) {
      assert UsedAt(states, roles, large, s, k);
      ChunkFits(roles, regions, UsedOf(states[s], large)[k], large);
    }
    forall g, h, j, k | 0 <= j < |UsedOf(states[s], g)| && 0 <= k < |UsedOf(states[s], h)| && (g != h || j != k)
      ensures Clear(UsedOf(states[s], g)[j], g, UsedOf(states[s], h)[k], h)
    {
      assert UsedAt(states, roles, g, s, j) && UsedAt(states, roles, h, s, k);
      assert Separate(roles, UsedOf(states[s], g)[j].ptr, UsedOf(states[s], h)[k].ptr);
    }
    var common, large := UsedOf(states[s], false), UsedOf(states[s], true);
    forall k | 0 <= k < |common| ensures Fits(common[k], false) {}
    forall k | 0 <= k < |large| ensures Fits(large[k], true) {}
  }
}
