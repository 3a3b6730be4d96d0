/** The bookkeeping behind a chain of bootstrap states: which chunk is where, and which slots of
    the used chunks have been handed out. */
module Chunks {
  import opened Region

  const COMMON_SIZE_MAX: nat := 1024
  const LARGE_SIZE_MAX: nat := 100 * 1024

  datatype Used = Used(size: nat, ptr: Addr, free: nat)

  /** One region that is being carved up. */
  datatype State = State(region: Addr, freeCommon: seq<Addr>, freeLarge: seq<Addr>, usedCommon: seq<Used>, usedLarge: seq<Used>)

  /** Where a chunk of state `s` is: in a list at place `j`, or taken from a list and in no other. */
  datatype Role =
    | Free(large: bool, s: nat, j: nat)
    | InUse(large: bool, size: nat, free: nat, s: nat, j: nat)
    | Loose(large: bool, s: nat)

  datatype Slot = Slot(chunk: Addr, size: nat, index: nat)

  type Roles = map<Addr, Role>

  function ChunkSize(large: bool): nat {
    if large then LARGE_CHUNK_SIZE else COMMON_CHUNK_SIZE
  }

  function Width(r: Role): nat {
    ChunkSize(r.large)
  }

  function SlotAddr(x: Slot): Addr {
    x.chunk + x.index * x.size
  }

  function FreeOf(st: State, large: bool): seq<Addr> {
    if large then st.freeLarge else st.freeCommon
  }

  function UsedOf(st: State, large: bool): seq<Used> {
    if large then st.usedLarge else st.usedCommon
  }

  function WithFree(st: State, large: bool, free: seq<Addr>): State {
    if large then st.(freeLarge := free) else st.(freeCommon := free)
  }

  function WithUsed(st: State, large: bool, used: seq<Used>): State {
    if large then st.(usedLarge := used) else st.(usedCommon := used)
  }

  // ----- lists and roles agree -----

  ghost predicate FreeAt(states: seq<State>, roles: Roles, large: bool, s: nat, j: nat)
    requires s < |states| && j < |FreeOf(states[s], large)|
  {
    var c := FreeOf(states[s], large)[j];
    c in roles && roles[c] == Free(large, s, j)
  }

  ghost predicate UsedAt(states: seq<State>, roles: Roles, large: bool, s: nat, j: nat)
    requires s < |states| && j < |UsedOf(states[s], large)|
  {
    var u := UsedOf(states[s], large)[j];
    u.ptr in roles && roles[u.ptr] == InUse(large, u.size, u.free, s, j)
  }

  /** Every chunk in a list has the role of that place. */
  ghost predicate ListsOk(states: seq<State>, roles: Roles) {
    && (forall large, s, j {:trigger FreeAt(states, roles, large, s, j)} ::
          0 <= s < |states| && 0 <= j < |FreeOf(states[s], large)| ==> FreeAt(states, roles, large, s, j))
    && (forall large, s, j {:trigger UsedAt(states, roles, large, s, j)} ::
          0 <= s < |states| && 0 <= j < |UsedOf(states[s], large)| ==> UsedAt(states, roles, large, s, j))
  }

  /** Within a state's region, after the metadata. */
  predicate InRegion(st: State, c: Addr, width: nat) {
    st.region + COMMON_CHUNK_SIZE <= c && c + width <= st.region + REGION_SIZE
  }

  /** A chunk is in the place that its role says, and of that state's region. */
  ghost predicate RoleOk(states: seq<State>, roles: Roles, c: Addr)
    requires c in roles
  {
    && roles[c].s < |states| && InRegion(states[roles[c].s], c, Width(roles[c]))
    && match roles[c]
    case Free(large, s, j) => j < |FreeOf(states[s], large)| && FreeOf(states[s], large)[j] == c
    case InUse(large, size, free, s, j) =>
      && j < |UsedOf(states[s], large)| && UsedOf(states[s], large)[j] == Used(size, c, free)
      && 0 < size <= ChunkSize(large) && free <= ChunkSize(large) / size && large == (size > COMMON_SIZE_MAX)
    case Loose(_, _) => true
  }

  ghost predicate RolesOk(states: seq<State>, roles: Roles) {
    forall c {:trigger RoleOk(states, roles, c)} :: c in roles ==> RoleOk(states, roles, c)
  }

  // ----- chunks do not overlap -----

  ghost predicate Separate(roles: Roles, c: Addr, d: Addr)
    requires c in roles && d in roles
  {
    c != d ==> c + Width(roles[c]) <= d || d + Width(roles[d]) <= c
  }

  ghost predicate Apart(roles: Roles) {
    forall c, d {:trigger Separate(roles, c, d)} :: c in roles && d in roles ==> Separate(roles, c, d)
  }

  /** A chunk lies in a region of the chain, after the metadata. */
  ghost predicate Placed(roles: Roles, regions: set<Addr>, c: Addr)
    requires c in roles
  {
    exists b :: b in regions && b + COMMON_CHUNK_SIZE <= c && c + Width(roles[c]) <= b + REGION_SIZE
  }

  /** A chunk starts at a multiple of its width. */
  predicate OnGrid(c: Addr, large: bool) {
    if large then c % LARGE_CHUNK_SIZE == 0 else c % COMMON_CHUNK_SIZE == 0
  }

  ghost predicate AllOnGrid(roles: Roles) {
    forall c :: c in roles ==> OnGrid(c, roles[c].large)
  }

  ghost predicate AllPlaced(roles: Roles, regions: set<Addr>) {
    && (forall b :: b in regions ==> b % REGION_SIZE == 0)
    && AllOnGrid(roles)
    && forall c {:trigger Placed(roles, regions, c)} :: c in roles ==> Placed(roles, regions, c)
  }

  // ----- slots handed out -----

  ghost predicate HandedOut(roles: Roles, x: Slot) {
    && x.chunk in roles && roles[x.chunk].InUse? && roles[x.chunk].size == x.size > 0
    && roles[x.chunk].free <= x.index < Width(roles[x.chunk]) / x.size
  }

  /** `given` are exactly the slots that the chunks do not count as free. */
  ghost predicate GivenOk(roles: Roles, given: set<Slot>) {
    forall x {:trigger HandedOut(roles, x)} {:trigger x in given} :: x in given <==> HandedOut(roles, x)
  }

  // ----- at most one chunk of a size has free slots -----

  ghost predicate HasFree(roles: Roles, c: Addr, size: nat) {
    c in roles && roles[c].InUse? && roles[c].size == size && roles[c].free > 0
  }

  ghost predicate OnlyOne(roles: Roles, c: Addr, d: Addr) {
    c in roles && d in roles && c != d && roles[c].InUse? && roles[c].free > 0 ==> !HasFree(roles, d, roles[c].size)
  }

  ghost predicate AtMostOne(roles: Roles) {
    forall c, d {:trigger OnlyOne(roles, c, d)} :: OnlyOne(roles, c, d)
  }

  ghost predicate NoneFree(roles: Roles, size: nat) {
    forall c {:trigger HasFree(roles, c, size)} :: !HasFree(roles, c, size)
  }

  // ----- every unit is accounted for -----

  /** The units of a state's region: in its lists, or out of them. */
  ghost predicate UnitsOk(s: State, out: nat) {
    && |s.freeCommon| <= COMMON_CHUNKS_IN_LARGE_CHUNK
    && |s.usedCommon| + |s.freeCommon| + COMMON_CHUNKS_IN_LARGE_CHUNK * (|s.usedLarge| + |s.freeLarge|) + out == MAX_COMMON_CHUNKS_IN_REGION
  }

  ghost predicate AllUnitsOk(states: seq<State>, out: seq<nat>) {
    |out| == |states| && forall i {:trigger states[i]} :: 0 <= i < |states| ==> UnitsOk(states[i], out[i])
  }

  /** A state has a successor only when its large chunks are exhausted. */
  ghost predicate Exhausted(states: seq<State>) {
    forall i {:trigger states[i]} :: 0 <= i < |states| - 1 ==> states[i].freeLarge == []
  }

  ghost predicate ChainOk(states: seq<State>, roles: Roles, given: set<Slot>, out: seq<nat>, regions: set<Addr>) {
    && ListsOk(states, roles) && RolesOk(states, roles)
    && Apart(roles) && AllPlaced(roles, regions)
    && GivenOk(roles, given)
    && AllUnitsOk(states, out) && Exhausted(states)
    && |states| > 0 && forall i {:trigger states[i]} :: 0 <= i < |states| ==> states[i].region in regions
  }

  // ----- what the invariant is for -----

  /** A slot handed out lies inside its chunk. */
  lemma SlotInChunk(roles: Roles, x: Slot)
    requires HandedOut(roles, x)
    ensures x.chunk <= SlotAddr(x) && SlotAddr(x) + x.size <= x.chunk + Width(roles[x.chunk])
  {
    SlotInside(x.size, x.index, Width(roles[x.chunk]));
  }

  /** Slots handed out lie inside their chunks and do not overlap. */
  lemma SlotsApart(states: seq<State>, roles: Roles, given: set<Slot>, out: seq<nat>, regions: set<Addr>, x: Slot, y: Slot)
    requires ChainOk(states, roles, given, out, regions) && x in given && y in given
    ensures x.chunk in roles && x.chunk <= SlotAddr(x) && SlotAddr(x) + x.size <= x.chunk + Width(roles[x.chunk])
    ensures x != y ==> SlotAddr(x) + x.size <= SlotAddr(y) || SlotAddr(y) + y.size <= SlotAddr(x)
  {
    assert HandedOut(roles, x) && HandedOut(roles, y);
    SlotInChunk(roles, x);
    if x.chunk == y.chunk {
      if x.index != y.index { SlotsInOrder(x.size, x.index, y.index); }
    } else {
      SlotInChunk(roles, y);
      assert Separate(roles, x.chunk, y.chunk);
    }
  }

  lemma SlotInside(size: nat, index: nat, width: nat)
    requires size > 0 && index < width / size
    ensures index * size + size <= width
  {
    assert (index + 1) * size <= (width / size) * size;
  }

  lemma SlotsInOrder(size: nat, i: nat, j: nat)
    requires i != j
    ensures if i < j then i * size + size <= j * size else j * size + size <= i * size
  {
    if i < j { assert (i + 1) * size <= j * size; } else { assert (j + 1) * size <= i * size; }
  }

  /** The lists of a state never outgrow their fixed buffers. */
  lemma ListsFit(states: seq<State>, roles: Roles, given: set<Slot>, out: seq<nat>, regions: set<Addr>, i: nat)
    requires ChainOk(states, roles, given, out, regions) && i < |states|
    ensures |states[i].usedCommon| <= MAX_COMMON_CHUNKS_IN_REGION && |states[i].freeCommon| <= COMMON_CHUNKS_IN_LARGE_CHUNK
    ensures |states[i].usedLarge| + |states[i].freeLarge| <= LARGE_CHUNKS_IN_REGION
    ensures out[i] > 0 ==> |states[i].usedCommon| < MAX_COMMON_CHUNKS_IN_REGION
    ensures out[i] >= COMMON_CHUNKS_IN_LARGE_CHUNK ==> |states[i].usedLarge| < LARGE_CHUNKS_IN_REGION
  {}

  // ----- a new region -----

  ghost function NewState(region: Addr): State {
    State(region, seq(REST_COMMON_CHUNKS_IN_REGION, i requires i >= 0 => CommonChunk(region, i)),
          seq(LARGE_CHUNKS_IN_REGION, j requires j >= 0 => LargeChunk(region, j)), [], [])
  }

  ghost predicate ChunkStart(region: Addr, c: Addr) {
    && region + COMMON_CHUNK_SIZE <= c < region + REGION_SIZE
    && if c < region + LARGE_CHUNK_SIZE then (c - region) % COMMON_CHUNK_SIZE == 0 else (c - region) % LARGE_CHUNK_SIZE == 0
  }

  /** The chunks of a region that becomes state `s`. */
  ghost function NewRoles(region: Addr, s: nat): Roles {
    map c: Addr | region <= c < region + REGION_SIZE && ChunkStart(region, c) ::
      if c < region + LARGE_CHUNK_SIZE then Free(false, s, (c - region) / COMMON_CHUNK_SIZE - 1)
      else Free(true, s, (c - region) / LARGE_CHUNK_SIZE - 1)
  }

  lemma NewChunks(region: Addr, s: nat, states: seq<State>, c: Addr)
    requires s < |states| && states[s] == NewState(region) && c in NewRoles(region, s)
    ensures RoleOk(states, NewRoles(region, s), c)
  {
    if c < region + LARGE_CHUNK_SIZE {
      var i: nat := (c - region) / COMMON_CHUNK_SIZE - 1;
      assert c == CommonChunk(region, i);
    } else {
      var j: nat := (c - region) / LARGE_CHUNK_SIZE - 1;
      assert c == LargeChunk(region, j);
    }
  }

  lemma NewLists(region: Addr, s: nat)
    ensures forall i: nat :: i < REST_COMMON_CHUNKS_IN_REGION ==>
              CommonChunk(region, i) in NewRoles(region, s) && NewRoles(region, s)[CommonChunk(region, i)] == Free(false, s, i)
    ensures forall j: nat :: j < LARGE_CHUNKS_IN_REGION ==>
              LargeChunk(region, j) in NewRoles(region, s) && NewRoles(region, s)[LargeChunk(region, j)] == Free(true, s, j)
  {}

  lemma NewApart(region: Addr, s: nat, c: Addr, d: Addr)
    requires c in NewRoles(region, s) && d in NewRoles(region, s)
    ensures Separate(NewRoles(region, s), c, d)
    ensures region + COMMON_CHUNK_SIZE <= c && c + Width(NewRoles(region, s)[c]) <= region + REGION_SIZE
  {}

  // ----- the steps on lists and roles -----

  /** The part of the invariant that has nothing to do with counting. */
  ghost predicate Core(states: seq<State>, roles: Roles, given: set<Slot>, regions: set<Addr>) {
    ListsOk(states, roles) && RolesOk(states, roles) && Apart(roles) && AllPlaced(roles, regions) && GivenOk(roles, given)
  }

  /** A chunk's role changes, its width does not: nothing moves. */
  lemma SameWidth(roles: Roles, regions: set<Addr>, c: Addr, r: Role)
    requires Apart(roles) && AllPlaced(roles, regions) && c in roles && r.large == roles[c].large
    ensures Apart(roles[c := r]) && AllPlaced(roles[c := r], regions)
  {
    forall d, e | d in roles && e in roles ensures Separate(roles[c := r], d, e) { assert Separate(roles, d, e); }
    forall d | d in roles ensures Placed(roles[c := r], regions, d) { assert Placed(roles, regions, d); }
    forall d | d in roles ensures OnGrid(d, roles[c := r][d].large) { assert OnGrid(d, roles[d].large); }
  }

  ghost function TakeFree(states: seq<State>, s: nat, large: bool): seq<State>
    requires s < |states| && FreeOf(states[s], large) != []
  {
    var l := FreeOf(states[s], large);
    states[s := WithFree(states[s], large, l[..|l| - 1])]
  }

  lemma TakeFreeCore(states: seq<State>, roles: Roles, given: set<Slot>, regions: set<Addr>, s: nat, large: bool)
    requires Core(states, roles, given, regions) && s < |states| && FreeOf(states[s], large) != []
    ensures var l := FreeOf(states[s], large); var c := l[|l| - 1];
            c in roles && roles[c] == Free(large, s, |l| - 1) && Core(TakeFree(states, s, large), roles[c := Loose(large, s)], given, regions)
  {
    var l := FreeOf(states[s], large);
    var c := l[|l| - 1];
    assert FreeAt(states, roles, large, s, |l| - 1);
    var states', roles' := TakeFree(states, s, large), roles[c := Loose(large, s)];
    SameWidth(roles, regions, c, Loose(large, s));
    forall g, t, j | 0 <= t < |states'| && 0 <= j < |FreeOf(states'[t], g)| ensures FreeAt(states', roles', g, t, j) { assert FreeAt(states, roles, g, t, j); }
    forall g, t, j | 0 <= t < |states'| && 0 <= j < |UsedOf(states'[t], g)| ensures UsedAt(states', roles', g, t, j) { assert UsedAt(states, roles, g, t, j); }
    forall d | d in roles' ensures RoleOk(states', roles', d) { assert RoleOk(states, roles, d); }
    forall x ensures HandedOut(roles', x) == HandedOut(roles, x) {}
  }

  /** A loose chunk is used for objects of one size; its last slot is handed out. */
  ghost function PutInUse(states: seq<State>, s: nat, large: bool, c: Addr, size: nat): seq<State>
    requires s < |states| && 0 < size <= ChunkSize(large)
  {
    states[s := WithUsed(states[s], large, UsedOf(states[s], large) + [Used(size, c, ChunkSize(large) / size - 1)])]
  }

  lemma PutInUseCore(states: seq<State>, roles: Roles, given: set<Slot>, regions: set<Addr>, s: nat, large: bool, c: Addr, size: nat)
    requires Core(states, roles, given, regions) && s < |states| && 0 < size <= ChunkSize(large)
    requires c in roles && roles[c] == Loose(large, s) && large == (size > COMMON_SIZE_MAX)
    ensures var n := ChunkSize(large) / size - 1;
            && n >= 0 && Slot(c, size, n) !in given
            && Core(PutInUse(states, s, large, c, size), roles[c := InUse(large, size, n, s, |UsedOf(states[s], large)|)], given + {Slot(c, size, n)}, regions)
  {
    var n := ChunkSize(large) / size - 1;
    var r := InUse(large, size, n, s, |UsedOf(states[s], large)|);
    var states', roles' := PutInUse(states, s, large, c, size), roles[c := r];
    SameWidth(roles, regions, c, r);
    assert !HandedOut(roles, Slot(c, size, n));
    forall g, t, j | 0 <= t < |states'| && 0 <= j < |FreeOf(states'[t], g)| ensures FreeAt(states', roles', g, t, j) { assert FreeAt(states, roles, g, t, j); }
    forall g, t, j | 0 <= t < |states'| && 0 <= j < |UsedOf(states'[t], g)| ensures UsedAt(states', roles', g, t, j) {
      if j < |UsedOf(states[t], g)| { assert UsedAt(states, roles, g, t, j); }
    }
    forall d | d in roles' ensures RoleOk(states', roles', d) { assert RoleOk(states, roles, d); }
    forall x ensures HandedOut(roles', x) <==> HandedOut(roles, x) || x == Slot(c, size, n) {}
  }

  /** One more slot of a chunk in use is handed out. */
  ghost function TakeSlot(states: seq<State>, s: nat, large: bool, j: nat): seq<State>
    requires s < |states| && j < |UsedOf(states[s], large)| && UsedOf(states[s], large)[j].free > 0
  {
    var l := UsedOf(states[s], large);
    states[s := WithUsed(states[s], large, l[j := l[j].(free := l[j].free - 1)])]
  }

  lemma TakeSlotCore(states: seq<State>, roles: Roles, given: set<Slot>, regions: set<Addr>, s: nat, large: bool, j: nat)
    requires Core(states, roles, given, regions)
    requires s < |states| && j < |UsedOf(states[s], large)| && UsedOf(states[s], large)[j].free > 0
    ensures var u := UsedOf(states[s], large)[j];
            && u.ptr in roles && roles[u.ptr] == InUse(large, u.size, u.free, s, j)
            && Slot(u.ptr, u.size, u.free - 1) !in given
            && Core(TakeSlot(states, s, large, j), roles[u.ptr := InUse(large, u.size, u.free - 1, s, j)], given + {Slot(u.ptr, u.size, u.free - 1)}, regions)
  {
    var u := UsedOf(states[s], large)[j];
    assert UsedAt(states, roles, large, s, j) && RoleOk(states, roles, u.ptr);
    var r := InUse(large, u.size, u.free - 1, s, j);
    var states', roles' := TakeSlot(states, s, large, j), roles[u.ptr := r];
    SameWidth(roles, regions, u.ptr, r);
    assert !HandedOut(roles, Slot(u.ptr, u.size, u.free - 1));
    forall g, t, k | 0 <= t < |states'| && 0 <= k < |FreeOf(states'[t], g)| ensures FreeAt(states', roles', g, t, k) { assert FreeAt(states, roles, g, t, k); }
    forall g, t, k | 0 <= t < |states'| && 0 <= k < |UsedOf(states'[t], g)| ensures UsedAt(states', roles', g, t, k) { assert UsedAt(states, roles, g, t, k); }
    forall d | d in roles' ensures RoleOk(states', roles', d) { assert RoleOk(states, roles, d); }
    forall x ensures HandedOut(roles', x) <==> HandedOut(roles, x) || x == Slot(u.ptr, u.size, u.free - 1) {}
  }

  /** The pieces of a large chunk as the free common chunks of state `s`. */
  ghost function PieceRoles(c: Addr, s: nat): Roles {
    map p: Addr | c <= p < c + LARGE_CHUNK_SIZE && PieceStart(c, p) :: Free(false, s, (p - c) / COMMON_CHUNK_SIZE)
  }

  ghost predicate PieceStart(c: Addr, p: Addr) {
    c <= p && (p - c) % COMMON_CHUNK_SIZE == 0
  }

  lemma RefillCore(states: seq<State>, roles: Roles, given: set<Slot>, regions: set<Addr>, s: nat, c: Addr, pieces: seq<Addr>)
    requires Core(states, roles, given, regions) && s < |states| && states[s].freeCommon == []
    requires c in roles && roles[c] == Loose(true, s)
    requires |pieces| == COMMON_CHUNKS_IN_LARGE_CHUNK && forall i :: 0 <= i < |pieces| ==> pieces[i] == SplitChunk(c, i)
    ensures Core(states[s := states[s].(freeCommon := pieces)], roles + PieceRoles(c, s), given, regions)
  {
    var states', roles' := states[s := states[s].(freeCommon := pieces)], roles + PieceRoles(c, s);
    forall d | d in roles && d != c ensures d !in PieceRoles(c, s) {
      assert Separate(roles, c, d);
    }
    forall g, t, j | 0 <= t < |states'| && 0 <= j < |FreeOf(states'[t], g)| ensures FreeAt(states', roles', g, t, j) {
      if t == s && !g {
        assert pieces[j] == SplitChunk(c, j) && PieceStart(c, pieces[j]);
      } else {
        assert FreeAt(states, roles, g, t, j);
      }
    }
    forall g, t, j | 0 <= t < |states'| && 0 <= j < |UsedOf(states'[t], g)| ensures UsedAt(states', roles', g, t, j) { assert UsedAt(states, roles, g, t, j); }
    forall d | d in roles' ensures RoleOk(states', roles', d) { RefillRole(states, roles, s, c, pieces, d); }
    RefillPlaces(roles, regions, s, c);
    forall x ensures HandedOut(roles', x) == HandedOut(roles, x) {}
  }

  lemma RefillRole(states: seq<State>, roles: Roles, s: nat, c: Addr, pieces: seq<Addr>, d: Addr)
    requires RolesOk(states, roles) && s < |states| && states[s].freeCommon == [] && c in roles && roles[c] == Loose(true, s)
    requires |pieces| == COMMON_CHUNKS_IN_LARGE_CHUNK && forall i :: 0 <= i < |pieces| ==> pieces[i] == SplitChunk(c, i)
    requires d in roles + PieceRoles(c, s)
    ensures RoleOk(states[s := states[s].(freeCommon := pieces)], roles + PieceRoles(c, s), d)
  {
    if d in PieceRoles(c, s) {
      var i: nat := (d - c) / COMMON_CHUNK_SIZE;
      assert RoleOk(states, roles, c);
      PieceInside(c, s, d);
      assert pieces[i] == SplitChunk(c, i);
    } else {
      assert RoleOk(states, roles, d);
    }
  }

  lemma RefillGrid(roles: Roles, s: nat, c: Addr)
    requires AllOnGrid(roles) && c in roles && roles[c].large
    ensures AllOnGrid(roles + PieceRoles(c, s))
  {
    assert OnGrid(c, roles[c].large);
    var roles' := roles + PieceRoles(c, s);
    forall d | d in roles' ensures OnGrid(d, roles'[d].large) {
      if d in PieceRoles(c, s) { PieceOnGrid(c, d); } else { assert OnGrid(d, roles[d].large); }
    }
  }

  lemma PieceOnGrid(c: Addr, p: Addr)
    requires OnGrid(c, true) && PieceStart(c, p)
    ensures OnGrid(p, false)
  {
    OnGridIf(p, c / LARGE_CHUNK_SIZE * 8 + (p - c) / COMMON_CHUNK_SIZE, false);
  }

  lemma NewGrid(roles: Roles, region: Addr, n: nat)
    requires AllOnGrid(roles) && region % REGION_SIZE == 0
    ensures AllOnGrid(roles + NewRoles(region, n))
  {
    var roles' := roles + NewRoles(region, n);
    forall c | c in roles' ensures OnGrid(c, roles'[c].large) {
      if c in NewRoles(region, n) { StartOnGrid(region, c); } else { assert OnGrid(c, roles[c].large); }
    }
  }

  lemma StartOnGrid(region: Addr, c: Addr)
    requires region % REGION_SIZE == 0 && ChunkStart(region, c)
    ensures OnGrid(c, c >= region + LARGE_CHUNK_SIZE)
  {
    var k, d := region / REGION_SIZE, c - region;
    if c < region + LARGE_CHUNK_SIZE {
      OnGridIf(c, k * 512 + d / COMMON_CHUNK_SIZE, false);
    } else {
      OnGridIf(c, k * 64 + d / LARGE_CHUNK_SIZE, true);
    }
  }

  lemma OnGridIf(c: Addr, n: int, large: bool)
    requires if large then c == n * LARGE_CHUNK_SIZE else c == n * COMMON_CHUNK_SIZE
    ensures OnGrid(c, large)
  {
  }

  lemma RefillPlaces(roles: Roles, regions: set<Addr>, s: nat, c: Addr)
    requires Apart(roles) && AllPlaced(roles, regions) && c in roles && roles[c] == Loose(true, s)
    ensures Apart(roles + PieceRoles(c, s)) && AllPlaced(roles + PieceRoles(c, s), regions)
  {
    var roles' := roles + PieceRoles(c, s);
    RefillGrid(roles, s, c);
    assert PieceStart(c, c) && c in PieceRoles(c, s);
    forall d, e | d in roles' && e in roles' ensures Separate(roles', d, e) {
      var d0: Addr, e0: Addr := if d in PieceRoles(c, s) then c else d, if e in PieceRoles(c, s) then c else e;
      assert Separate(roles, d0, e0);
    }
    forall d | d in roles' ensures Placed(roles', regions, d) { RefillPlaced(roles, regions, s, c, d); }
  }

  lemma RefillPlaced(roles: Roles, regions: set<Addr>, s: nat, c: Addr, d: Addr)
    requires c in roles && roles[c] == Loose(true, s) && d in roles + PieceRoles(c, s)
    requires forall e :: e in roles ==> Placed(roles, regions, e)
    ensures Placed(roles + PieceRoles(c, s), regions, d)
  {
    var d0: Addr := if d in PieceRoles(c, s) then c else d;
    assert Placed(roles, regions, d0);
    var b :| b in regions && b + COMMON_CHUNK_SIZE <= d0 && d0 + Width(roles[d0]) <= b + REGION_SIZE;
    PieceInside(c, s, d);
    assert b + COMMON_CHUNK_SIZE <= d && d + Width((roles + PieceRoles(c, s))[d]) <= b + REGION_SIZE;
  }

  lemma PieceInside(c: Addr, s: nat, p: Addr)
    ensures p in PieceRoles(c, s) ==> c <= p && p + COMMON_CHUNK_SIZE <= c + LARGE_CHUNK_SIZE
  {}

  lemma AddStateCore(states: seq<State>, roles: Roles, given: set<Slot>, regions: set<Addr>, region: Addr)
    requires Core(states, roles, given, regions) && region !in regions && region % REGION_SIZE == 0
    ensures Core(states + [NewState(region)], roles + NewRoles(region, |states|), given, regions + {region})
    ensures forall c :: c in NewRoles(region, |states|) ==> c !in roles
  {
    var n := |states|;
    var new_ := NewRoles(region, n);
    forall c | c in new_ ensures c !in roles {
      if c in roles { FarApart(roles, regions, region, n, c, c); }
    }
    AddLists(states, roles, region, new_);
    AddRoles(states, roles, region, new_);
    AddPlaces(roles, regions, region, n);
    forall x ensures HandedOut(roles + new_, x) == HandedOut(roles, x) {}
  }

  lemma AddLists(states: seq<State>, roles: Roles, region: Addr, new_: Roles)
    requires ListsOk(states, roles) && RolesOk(states, roles)
    requires new_ == NewRoles(region, |states|) && forall c :: c in new_ ==> c !in roles
    ensures ListsOk(states + [NewState(region)], roles + new_)
  {
    var n := |states|;
    var states', roles' := states + [NewState(region)], roles + new_;
    NewLists(region, n);
    forall g, t, j | 0 <= t < |states'| && 0 <= j < |FreeOf(states'[t], g)| ensures FreeAt(states', roles', g, t, j) {
      if t < n { assert FreeAt(states, roles, g, t, j); }
    }
    forall g, t, j | 0 <= t < |states'| && 0 <= j < |UsedOf(states'[t], g)| ensures UsedAt(states', roles', g, t, j) {
      if t < n { assert UsedAt(states, roles, g, t, j); }
    }
  }

  lemma AddRoles(states: seq<State>, roles: Roles, region: Addr, new_: Roles)
    requires RolesOk(states, roles) && new_ == NewRoles(region, |states|) && forall c :: c in new_ ==> c !in roles
    ensures RolesOk(states + [NewState(region)], roles + new_)
  {
    var n := |states|;
    var states', roles' := states + [NewState(region)], roles + new_;
    forall c | c in roles' ensures RoleOk(states', roles', c) {
      if c in new_ { NewChunks(region, n, states', c); } else { assert RoleOk(states, roles, c); }
    }
  }

  /** Chunks of different regions. */
  lemma FarApart(roles: Roles, regions: set<Addr>, region: Addr, n: nat, c: Addr, d: Addr)
    requires AllPlaced(roles, regions) && region !in regions && region % REGION_SIZE == 0
    requires c in NewRoles(region, n) && d in roles
    ensures c + Width(NewRoles(region, n)[c]) <= d || d + Width(roles[d]) <= c
    ensures c != d
  {
    NewApart(region, n, c, c);
    assert Placed(roles, regions, d);
    var b :| b in regions && b + COMMON_CHUNK_SIZE <= d && d + Width(roles[d]) <= b + REGION_SIZE;
    RegionsApart(b, region);
  }

  lemma RegionsApart(a: Addr, b: Addr)
    requires a % REGION_SIZE == 0 && b % REGION_SIZE == 0 && a != b
    ensures a + REGION_SIZE <= b || b + REGION_SIZE <= a
  {
    var k, l := a / REGION_SIZE, b / REGION_SIZE;
    assert a == k * REGION_SIZE && b == l * REGION_SIZE;
  }

  lemma AddPlaces(roles: Roles, regions: set<Addr>, region: Addr, n: nat)
    requires Apart(roles) && AllPlaced(roles, regions) && region !in regions && region % REGION_SIZE == 0
    ensures Apart(roles + NewRoles(region, n)) && AllPlaced(roles + NewRoles(region, n), regions + {region})
  {
    var roles', new_ := roles + NewRoles(region, n), NewRoles(region, n);
    NewGrid(roles, region, n);
    forall c, d | c in roles' && d in roles' ensures Separate(roles', c, d) {
      if c in new_ && d in new_ { NewApart(region, n, c, d); }
      else if c in new_ { FarApart(roles, regions, region, n, c, d); }
      else if d in new_ { FarApart(roles, regions, region, n, d, c); }
      else { assert Separate(roles, c, d); }
    }
    forall c | c in roles' ensures Placed(roles', regions + {region}, c) {
      if c in new_ {
        NewApart(region, n, c, c);
        assert region in regions + {region};
      } else {
        assert Placed(roles, regions, c);
        var b :| b in regions && b + COMMON_CHUNK_SIZE <= c && c + Width(roles[c]) <= b + REGION_SIZE;
        assert b in regions + {region};
      }
    }
  }

  // ----- the first state leaves the chain -----

  ghost predicate InFirst(r: Role) {
    r.s == 0
  }

  ghost function OnePlaceUp(r: Role): Role
    requires !InFirst(r)
  {
    match r
    case Free(large, s, j) => Free(large, s - 1, j)
    case InUse(large, size, free, s, j) => InUse(large, size, free, s - 1, j)
    case Loose(large, s) => Loose(large, s - 1)
  }

  ghost function RolesAfterFirst(roles: Roles): Roles {
    map c | c in roles && !InFirst(roles[c]) :: OnePlaceUp(roles[c])
  }

  lemma PlacesAfterFirst(roles: Roles, regions: set<Addr>)
    requires Apart(roles) && AllPlaced(roles, regions)
    ensures Apart(RolesAfterFirst(roles)) && AllPlaced(RolesAfterFirst(roles), regions)
  {
    var roles' := RolesAfterFirst(roles);
    forall c, d | c in roles' && d in roles' ensures Separate(roles', c, d) { assert Separate(roles, c, d); }
    forall c | c in roles' ensures Placed(roles', regions, c) { assert Placed(roles, regions, c); }
    forall c | c in roles' ensures OnGrid(c, roles'[c].large) { assert OnGrid(c, roles[c].large); }
  }

  /** What is left when the first state has been committed. */
  lemma DropFirst(states: seq<State>, roles: Roles, given: set<Slot>, out: seq<nat>, regions: set<Addr>)
    requires ChainOk(states, roles, given, out, regions) && |states| > 1
    ensures var roles' := RolesAfterFirst(roles);
            && ChainOk(states[1..], roles', (set x | x in given && x.chunk in roles'), out[1..], regions)
            && (AtMostOne(roles) ==> AtMostOne(roles'))
  {
    var states', roles' := states[1..], RolesAfterFirst(roles);
    forall g, t, j | 0 <= t < |states'| && 0 <= j < |FreeOf(states'[t], g)| ensures FreeAt(states', roles', g, t, j) { assert FreeAt(states, roles, g, t + 1, j); }
    forall g, t, j | 0 <= t < |states'| && 0 <= j < |UsedOf(states'[t], g)| ensures UsedAt(states', roles', g, t, j) { assert UsedAt(states, roles, g, t + 1, j); }
    forall c | c in roles' ensures RoleOk(states', roles', c) { assert RoleOk(states, roles, c); }
    PlacesAfterFirst(roles, regions);
    forall x ensures HandedOut(roles', x) <==> HandedOut(roles, x) && x.chunk in roles' {}
    forall i | 0 <= i < |states'| ensures UnitsOk(states'[i], out[1..][i]) { assert UnitsOk(states[i + 1], out[i + 1]); }
    forall i | 0 <= i < |states'| - 1 ensures states'[i].freeLarge == [] { assert states[i + 1].freeLarge == []; }
    forall i | 0 <= i < |states'| ensures states'[i].region in regions { assert states[i + 1].region in regions; }
    if AtMostOne(roles) {
      forall c, d ensures OnlyOne(roles', c, d) { assert OnlyOne(roles, c, d); }
    }
  }
}
