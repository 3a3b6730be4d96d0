/** What a state of the chain hands over to the chunk manager. */
module Handover {
  import opened Region
  import opened Chunks
  import M = ChunkManager

  lemma UnitsAre(c: Addr, large: bool)
    ensures forall u :: u in M.Units(c, large) <==> c / COMMON_CHUNK_SIZE <= u < c / COMMON_CHUNK_SIZE + M.Width(large)
  {
  }

  lemma GridStart(c: Addr, large: bool)
    requires OnGrid(c, large)
    ensures c == c / COMMON_CHUNK_SIZE * COMMON_CHUNK_SIZE
  {
    if large { Multiple(c, c / LARGE_CHUNK_SIZE * 8); }
  }

  lemma Multiple(c: nat, n: nat)
    requires c == n * COMMON_CHUNK_SIZE
    ensures c / COMMON_CHUNK_SIZE == n
  {
  }

  lemma UnitsFrom(c: Addr, large: bool)
    requires OnGrid(c, large)
    ensures M.Aligned(c, large)
    ensures forall u :: u in M.Units(c, large) <==> c <= u * COMMON_CHUNK_SIZE < c + ChunkSize(large)
  {
    UnitsAre(c, large);
    GridStart(c, large);
    forall u: nat ensures u in M.Units(c, large) <==> c <= u * COMMON_CHUNK_SIZE < c + ChunkSize(large) {
      UnitWithin(c / COMMON_CHUNK_SIZE, u, M.Width(large));
    }
  }

  lemma UnitWithin(n: nat, u: nat, w: nat)
    ensures n <= u < n + w <==> n * COMMON_CHUNK_SIZE <= u * COMMON_CHUNK_SIZE < n * COMMON_CHUNK_SIZE + w * COMMON_CHUNK_SIZE
  {
  }

  lemma InRegionUnits(st: State, c: Addr, large: bool)
    requires OnGrid(c, large) && InRegion(st, c, ChunkSize(large)) && st.region % REGION_SIZE == 0
    ensures M.LiveChunk(c, large, M.RegionUnits(st.region))
  {
    UnitsFrom(c, large);
    var n := st.region / REGION_SIZE * 512;
    Multiple(st.region, n);
    forall u | u in M.Units(c, large) ensures u in M.RegionUnits(st.region) { UnitWithin(n + 1, u, 511); }
  }

  lemma SeparateUnits(roles: Roles, c: Addr, d: Addr)
    requires Apart(roles) && AllOnGrid(roles) && c in roles && d in roles && c != d
    ensures M.Units(c, roles[c].large) !! M.Units(d, roles[d].large)
  {
    assert Separate(roles, c, d) && OnGrid(c, roles[c].large) && OnGrid(d, roles[d].large);
    UnitsFrom(c, roles[c].large);
    UnitsFrom(d, roles[d].large);
  }

  /** A chunk of state `s`. */
  ghost predicate ChunkOf(states: seq<State>, roles: Roles, s: nat, large: bool, c: Addr) {
    s < |states| && c in roles && roles[c].large == large && roles[c].s == s
  }

  lemma ChunkOfState(states: seq<State>, roles: Roles, regions: set<Addr>, s: nat, large: bool, c: Addr)
    requires ChunkOf(states, roles, s, large, c) && RolesOk(states, roles) && AllPlaced(roles, regions) && states[s].region in regions
    ensures M.LiveChunk(c, large, M.RegionUnits(states[s].region))
  {
    assert RoleOk(states, roles, c) && OnGrid(c, roles[c].large);
    InRegionUnits(states[s], c, large);
  }

  lemma FreeChunk(states: seq<State>, roles: Roles, s: nat, large: bool, j: nat)
    requires ListsOk(states, roles) && s < |states| && j < |FreeOf(states[s], large)|
    ensures var c := FreeOf(states[s], large)[j]; ChunkOf(states, roles, s, large, c) && roles[c] == Free(large, s, j)
  {
    assert FreeAt(states, roles, large, s, j);
  }

  /** A chunk that is not free shares no unit with a list of free ones; and a free one with none of the others. */
  lemma NotInList(states: seq<State>, roles: Roles, s: nat, large: bool, n: nat, c: Addr)
    requires ListsOk(states, roles) && Apart(roles) && AllOnGrid(roles) && s < |states| && n <= |FreeOf(states[s], large)| && c in roles
    requires roles[c].Free? ==> roles[c].large != large || roles[c].j >= n
    ensures M.NotIn(FreeOf(states[s], large)[..n], large, M.Units(c, roles[c].large))
  {
    var list := FreeOf(states[s], large);
    forall i | 0 <= i < n ensures M.NoneShared(list[..n][i], large, M.Units(c, roles[c].large)) {
      FreeChunk(states, roles, s, large, i);
      SeparateUnits(roles, list[i], c);
    }
  }

  lemma ListFree(states: seq<State>, roles: Roles, regions: set<Addr>, s: nat, large: bool)
    requires ListsOk(states, roles) && RolesOk(states, roles) && Apart(roles) && AllPlaced(roles, regions)
    requires s < |states| && states[s].region in regions
    ensures M.ListOk(FreeOf(states[s], large), large, M.RegionUnits(states[s].region))
  {
    var list := FreeOf(states[s], large);
    forall i | 0 <= i < |list|
      ensures M.LiveChunk(list[i], large, M.RegionUnits(states[s].region)) && M.NotIn(list[..i], large, M.Units(list[i], large))
    {
      FreeChunk(states, roles, s, large, i);
      ChunkOfState(states, roles, regions, s, large, list[i]);
      NotInList(states, roles, s, large, i, list[i]);
    }
  }

  /** What the chunk manager asks of a committed state holds of every state of a chain: its free chunks are of
      its own region and share no units. */
  lemma StateLists(states: seq<State>, roles: Roles, given: set<Slot>, out: seq<nat>, regions: set<Addr>, s: nat)
    requires ChainOk(states, roles, given, out, regions) && s < |states|
    ensures states[s].region % REGION_SIZE == 0
    ensures M.Lists(states[s].freeCommon, states[s].freeLarge, M.RegionUnits(states[s].region))
  {
    var st := states[s];
    assert st.region in regions;
    ListFree(states, roles, regions, s, false);
    ListFree(states, roles, regions, s, true);
    forall i | 0 <= i < |st.freeLarge| ensures M.NotIn(st.freeCommon, false, M.Units(st.freeLarge[i], true)) {
      FreeChunk(states, roles, s, true, i);
      NotInList(states, roles, s, false, |st.freeCommon|, st.freeLarge[i]);
      assert st.freeCommon[..|st.freeCommon|] == st.freeCommon;
    }
  }

  /** And its used chunks are none of them. */
  lemma UsedUnlisted(states: seq<State>, roles: Roles, given: set<Slot>, out: seq<nat>, regions: set<Addr>, s: nat, large: bool, k: nat)
    requires ChainOk(states, roles, given, out, regions) && s < |states| && k < |UsedOf(states[s], large)|
    ensures var c := UsedOf(states[s], large)[k].ptr;
            && M.LiveChunk(c, large, M.RegionUnits(states[s].region))
            && M.Unlisted(states[s].freeCommon, states[s].freeLarge, M.Units(c, large))
  {
    var st, c := states[s], UsedOf(states[s], large)[k].ptr;
    assert UsedAt(states, roles, large, s, k) && st.region in regions;
    ChunkOfState(states, roles, regions, s, large, c);
    NotInList(states, roles, s, false, |st.freeCommon|, c);
    NotInList(states, roles, s, true, |st.freeLarge|, c);
    assert st.freeCommon[..|st.freeCommon|] == st.freeCommon && st.freeLarge[..|st.freeLarge|] == st.freeLarge;
  }

  /** The chunk manager takes over the first state of a chain. From then on the used chunks of the state
      are chunks handed out, and the region counts all its units. */
  method TakeOver(manager: M.Manager, states: seq<State>, ghost roles: Roles, ghost given: set<Slot>, ghost out: seq<nat>, ghost regions: set<Addr>)
    requires manager.Valid() && ChainOk(states, roles, given, out, regions)
    requires forall i :: 0 <= i < |manager.regions| ==> manager.regions[i].ptr != states[0].region
    modifies manager
    ensures manager.Valid() && manager.live == old(manager.live) + M.RegionUnits(states[0].region) && manager.released == old(manager.released)
    ensures manager.regions == old(manager.regions) + [M.RegionView(states[0].region, MAX_COMMON_CHUNKS_IN_REGION)]
    ensures manager.freeCommon == old(manager.freeCommon) + states[0].freeCommon && manager.freeLarge == old(manager.freeLarge) + states[0].freeLarge
    ensures forall large, k: nat :: k < |UsedOf(states[0], large)| ==> manager.Held(UsedOf(states[0], large)[k].ptr, large)
  {
    StateLists(states, roles, given, out, regions, 0);
    ghost var common, large, live := manager.freeCommon, manager.freeLarge, manager.live;
    M.RegionAdded(manager.regions, live, states[0].region);
    manager.HandleState(states[0].region, states[0].freeCommon, states[0].freeLarge);
    forall g, k: nat | k < |UsedOf(states[0], g)| ensures manager.Held(UsedOf(states[0], g)[k].ptr, g) {
      var c := UsedOf(states[0], g)[k].ptr;
      UsedUnlisted(states, roles, given, out, regions, 0, g, k);
      StillUnlisted(common, large, live, states[0].freeCommon, states[0].freeLarge, M.RegionUnits(states[0].region), M.Units(c, g));
    }
  }

  lemma StillUnlisted(common: seq<Addr>, large: seq<Addr>, live: set<nat>, moreCommon: seq<Addr>, moreLarge: seq<Addr>, more: set<nat>, units: set<nat>)
    requires M.Lists(common, large, live) && M.Unlisted(moreCommon, moreLarge, units) && live !! more && units <= more
    ensures M.Unlisted(common + moreCommon, large + moreLarge, units)
  {
    M.Disjoint(common, false, live, units);
    M.Disjoint(large, true, live, units);
    NotInJoined(common, moreCommon, false, units);
    NotInJoined(large, moreLarge, true, units);
  }

  lemma NotInJoined(a: seq<Addr>, b: seq<Addr>, large: bool, units: set<nat>)
    requires M.NotIn(a, large, units) && M.NotIn(b, large, units)
    ensures M.NotIn(a + b, large, units)
  {
    forall i | 0 <= i < |a + b| ensures M.NoneShared((a + b)[i], large, units) {
      if i < |a| { assert M.NoneShared(a[i], large, units); } else { assert M.NoneShared(b[i - |a|], large, units); }
    }
  }
}
