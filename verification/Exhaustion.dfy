/** What happens to a chain when a region is used up: two runs from a fresh region on. */
module Exhaustion {
  import opened Region
  import opened Chunks
  import opened Bootstrap

  /** One state that has nothing in use and `out` units out of its lists. */
  ghost predicate OnlyChunksTaken(chain: StateChain, out: nat)
    reads chain
  {
    && chain.Valid() && AtMostOne(chain.roles) && (forall size :: NoneFree(chain.roles, size)) && chain.out == [out]
    && |chain.states| == 1 && chain.states[0].usedCommon == [] && chain.states[0].usedLarge == []
  }

  /** Takes all large chunks of a fresh region. */
  method TakeAllLarge(chain: StateChain)
    requires OnlyChunksTaken(chain, 0) && |chain.states[0].freeCommon| == REST_COMMON_CHUNKS_IN_REGION
    modifies chain
    ensures chain.regions == old(chain.regions)
    ensures OnlyChunksTaken(chain, COMMON_CHUNKS_IN_LARGE_CHUNK * LARGE_CHUNKS_IN_REGION)
    ensures chain.states[0].freeLarge == [] && |chain.states[0].freeCommon| == REST_COMMON_CHUNKS_IN_REGION
  {
    for k := 0 to LARGE_CHUNKS_IN_REGION
      invariant chain.regions == old(chain.regions)
      invariant OnlyChunksTaken(chain, COMMON_CHUNKS_IN_LARGE_CHUNK * k)
      invariant |chain.states[0].freeCommon| == REST_COMMON_CHUNKS_IN_REGION
    {
      assert UnitsOk(chain.states[0], chain.out[0]);
      var r;
      ghost var x;
      r, x := chain.GetFreeLargeChunk(0, NoAddr);
    }
    assert UnitsOk(chain.states[0], chain.out[0]);
  }

  /** And then all common ones. */
  method TakeAll(chain: StateChain)
    requires OnlyChunksTaken(chain, 0) && |chain.states[0].freeCommon| == REST_COMMON_CHUNKS_IN_REGION
    modifies chain
    ensures chain.regions == old(chain.regions)
    ensures OnlyChunksTaken(chain, MAX_COMMON_CHUNKS_IN_REGION) && chain.states[0].freeLarge == [] && chain.states[0].freeCommon == []
  {
    TakeAllLarge(chain);
    for k := 0 to REST_COMMON_CHUNKS_IN_REGION
      invariant chain.regions == old(chain.regions)
      invariant OnlyChunksTaken(chain, COMMON_CHUNKS_IN_LARGE_CHUNK * LARGE_CHUNKS_IN_REGION + k)
      invariant chain.states[0].freeLarge == [] && |chain.states[0].freeCommon| == REST_COMMON_CHUNKS_IN_REGION - k
    {
      var r;
      ghost var x;
      r, x := chain.GetFreeCommonChunk(0, NoAddr);
      assert UnitsOk(chain.states[0], chain.out[0]);
    }
  }

  /** From a fresh region the first request of any size is served, and no region is asked for. */
  method FirstRequest(region: Addr, stateSize: nat, size: nat) returns (chain: StateChain, a: Addr)
    requires region % REGION_SIZE == 0 && COMMON_SIZE_MAX < stateSize <= LARGE_SIZE_MAX && 0 < size <= LARGE_SIZE_MAX
    ensures fresh(chain) && chain.Valid() && |chain.states| == 1 && chain.out == [0] && AtMostOne(chain.roles)
    ensures exists y {:trigger y in chain.given} :: chain.given == {y} && y.size == size && SlotAddr(y) == a
    ensures region + COMMON_CHUNK_SIZE <= a && a + size <= region + REGION_SIZE
  {
    chain := new StateChain(region, stateSize, {stateSize, size});
    ghost var before, given := chain.states, chain.given;
    assert UnitsOk(chain.states[0], chain.out[0]) && chain.states[0].freeLarge != [];
    var r;
    ghost var y, x;
    r, y, x := chain.AllocSize(size, NoAddr);
    a := r.addr;
    assert chain.given == {y};
    assert y in chain.given;
    SlotInRegion(chain.states, chain.roles, chain.given, chain.out, chain.regions, y);
    assert chain.states[0].region == before[0].region;
  }

  /** A slot that was given is in the region of its chunk's state. */
  lemma SlotInRegion(states: seq<State>, roles: Roles, given: set<Slot>, out: seq<nat>, regions: set<Addr>, y: Slot)
    requires ChainOk(states, roles, given, out, regions) && y in given
    ensures y.chunk in roles && roles[y.chunk].s < |states|
    ensures var b := states[roles[y.chunk].s].region; b + COMMON_CHUNK_SIZE <= SlotAddr(y) && SlotAddr(y) + y.size <= b + REGION_SIZE
  {
    SlotsApart(states, roles, given, out, regions, y, y);
    assert RoleOk(states, roles, y.chunk);
  }

  /** When all large chunks are taken and an object of a state's size is wanted, and the system gives another
      region, there are two chunks of that size with free slots. */
  method TwoChunksForStates(region: Addr, next: Addr, stateSize: nat) returns (chain: StateChain, ghost before: Roles)
    requires region % REGION_SIZE == 0 && next % REGION_SIZE == 0 && next != region && COMMON_SIZE_MAX < stateSize <= LARGE_SIZE_MAX
    ensures chain.Valid() && AtMostOne(before) && !AtMostOne(chain.roles)
  {
    chain := new StateChain(region, stateSize, {stateSize});
    TakeAllLarge(chain);
    before := chain.roles;
    ghost var y, x;
    var a;
    a, y, x := chain.AllocSize(stateSize, SomeAddr(next));
  }

  /** When all chunks are taken and a common object is wanted, and the system gives another region, nobody takes
      a chunk of it, and still the width of a large chunk is in none of its lists. */
  method LargeChunkLost(region: Addr, next: Addr, stateSize: nat, size: nat) returns (chain: StateChain)
    requires region % REGION_SIZE == 0 && next % REGION_SIZE == 0 && next != region
    requires COMMON_SIZE_MAX < stateSize <= LARGE_SIZE_MAX && 0 < size <= COMMON_SIZE_MAX
    ensures chain.Valid() && chain.out == [MAX_COMMON_CHUNKS_IN_REGION, COMMON_CHUNKS_IN_LARGE_CHUNK]
  {
    chain := new StateChain(region, stateSize, {stateSize, size});
    TakeAll(chain);
    ghost var y, x;
    var a;
    a, y, x := chain.AllocSize(size, SomeAddr(next));
  }
}
