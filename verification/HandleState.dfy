/** Committing a chain of bootstrap states: reservation passes until one allocates nothing, then
    pushes that must not fail. */
module HandleState {
  import opened Region
  import opened Chunks
  import opened Bootstrap
  import opened Ownership

  /** A vector with its capacity. */
  datatype Vec = Vec(items: seq<Addr>, cap: nat)

  /** A table of vectors, by their numbers. */
  type Table = map<nat, Vec>

  /** A vector of a table; one that was never used is empty. */
  function Get(t: Table, v: nat): Vec {
    if v in t then t[v] else Vec([], 0)
  }

  /** No two of the sizes share a vector. */
  ghost predicate OwnVectors(vec: Numbering, sizes: set<nat>) {
    forall a, b :: a in sizes && b in sizes && vec(a) == vec(b) ==> a == b
  }

  function Extended(v: Vec, more: seq<Addr>): Vec {
    v.(items := v.items + more)
  }

  // ----- the slots nobody got -----

  /** The slots of a used chunk that were never handed out, in order. */
  function SlotsOf(u: Used): (r: seq<Addr>) {
    seq(u.free, i requires 0 <= i => u.ptr + i * u.size)
  }

  /** Those of all chunks whose objects are in vector `v`. */
  ghost function FreeSlots(vec: Numbering, used: seq<Used>, v: nat): seq<Addr> {
    if used == [] then []
    else FreeSlots(vec, used[..|used| - 1], v) + (var u := used[|used| - 1]; if vec(u.size) == v then SlotsOf(u) else [])
  }

  /** The chunks whose objects are in vector `v`, in order. */
  ghost function ChunksIn(vec: Numbering, used: seq<Used>, v: nat): seq<Addr> {
    if used == [] then []
    else ChunksIn(vec, used[..|used| - 1], v) + (var u := used[|used| - 1]; if vec(u.size) == v then [u.ptr] else [])
  }

  /** The chunks used for a size. */
  function ChunksOf(used: seq<Used>, size: nat): seq<Addr> {
    if used == [] then []
    else ChunksOf(used[..|used| - 1], size) + (var u := used[|used| - 1]; if u.size == size then [u.ptr] else [])
  }

  predicate Holds(v: Vec, n: nat) {
    |v.items| + n <= v.cap
  }

  /** For each chunk there is room for its own free slots. This is all that a pass checks. */
  ghost predicate RoomForEach(vec: Numbering, objects: Table, used: seq<Used>) {
    forall k :: 0 <= k < |used| ==> Holds(Get(objects, vec(used[k].size)), used[k].free)
  }

  /** In each vector there is room for the free slots of all its chunks. This is what a commit needs. */
  ghost predicate RoomForAll(vec: Numbering, objects: Table, used: seq<Used>) {
    forall v :: FreeSlots(vec, used, v) != [] ==> Holds(Get(objects, v), |FreeSlots(vec, used, v)|)
  }

  ghost predicate OneFree(vec: Numbering, used: seq<Used>) {
    forall i, j :: 0 <= i < j < |used| && vec(used[i].size) == vec(used[j].size) ==> used[i].free == 0 || used[j].free == 0
  }

  /** Then a vector's free slots are those of one chunk. */
  lemma {:induction false} OneChunkOnly(vec: Numbering, used: seq<Used>, v: nat)
    requires OneFree(vec, used)
    ensures FreeSlots(vec, used, v) == []
            || exists k :: 0 <= k < |used| && vec(used[k].size) == v && FreeSlots(vec, used, v) == SlotsOf(used[k])
  {
    if used != [] {
      var init, last := used[..|used| - 1], |used| - 1;
      OneChunkOnly(vec, init, v);
      if vec(used[last].size) == v {
        if FreeSlots(vec, init, v) != [] {
          var k :| 0 <= k < |init| && vec(init[k].size) == v && FreeSlots(vec, init, v) == SlotsOf(init[k]);
          assert used[k] == init[k] && used[k].free > 0;
          assert SlotsOf(used[last]) == [];
          assert FreeSlots(vec, used, v) == SlotsOf(used[k]);
        } else {
          assert FreeSlots(vec, used, v) == SlotsOf(used[last]);
        }
      } else {
        assert FreeSlots(vec, used, v) == FreeSlots(vec, init, v);
        if FreeSlots(vec, init, v) != [] {
          var k :| 0 <= k < |init| && vec(init[k].size) == v && FreeSlots(vec, init, v) == SlotsOf(init[k]);
          assert used[k] == init[k];
        }
      }
    }
  }

  /** Room for each chunk alone is room for all of them as long as no two chunks of a vector have free
      slots. */
  lemma RoomSuffices(vec: Numbering, objects: Table, used: seq<Used>)
    requires OneFree(vec, used) && RoomForEach(vec, objects, used)
    ensures RoomForAll(vec, objects, used)
  {
    forall v | FreeSlots(vec, used, v) != [] ensures Holds(Get(objects, v), |FreeSlots(vec, used, v)|) {
      OneChunkOnly(vec, used, v);
    }
  }

  /** Without that it is not: two chunks of one vector, be their sizes the same or not, with one free slot
      each, and one free cell. */
  lemma RoomForEachIsNotEnough(vec: Numbering, a: nat, b: nat)
    requires vec(a) == vec(b)
    ensures var used, objects := [Used(a, 0x1_0000, 1), Used(b, 0x2_0000, 1)], map[vec(a) := Vec([], 1)];
            RoomForEach(vec, objects, used) && !RoomForAll(vec, objects, used) && !OneFree(vec, used)
  {
    var used, objects := [Used(a, 0x1_0000, 1), Used(b, 0x2_0000, 1)], map[vec(a) := Vec([], 1)];
    assert used[..1] == [Used(a, 0x1_0000, 1)] && used[..1][..0] == [];
    assert FreeSlots(vec, used[..1], vec(a)) == SlotsOf(used[0]);
    assert FreeSlots(vec, used, vec(a)) == SlotsOf(used[0]) + SlotsOf(used[1]);
    assert vec(used[0].size) == vec(used[1].size) && used[0].free != 0 && used[1].free != 0;
  }

  /** In a chain with at most one chunk of each size that has free slots, the lists have no two of one vector
      either, as long as the sizes do not share vectors. */
  lemma ChainOneFree(vec: Numbering, sizes: set<nat>, states: seq<State>, roles: Roles, s: nat, large: bool)
    requires ListsOk(states, roles) && AtMostOne(roles) && s < |states| && InUseFor(roles, sizes) && OwnVectors(vec, sizes)
    ensures OneFree(vec, UsedOf(states[s], large))
  {
    var used := UsedOf(states[s], large);
    forall i, j | 0 <= i < j < |used| && vec(used[i].size) == vec(used[j].size) ensures used[i].free == 0 || used[j].free == 0 {
      assert UsedAt(states, roles, large, s, i) && UsedAt(states, roles, large, s, j);
      assert used[i].size == used[j].size;
      assert OnlyOne(roles, used[i].ptr, used[j].ptr);
      assert HasFree(roles, used[j].ptr, used[i].size) <==> used[j].free > 0;
    }
  }

  ghost predicate SizesOf(used: seq<Used>, sizes: set<nat>) {
    forall k :: 0 <= k < |used| ==> used[k].size in sizes
  }

  /** Then the chunks of a vector are the chunks of a size. */
  lemma {:induction false} ChunksOfOneSize(vec: Numbering, sizes: set<nat>, used: seq<Used>, size: nat)
    requires OwnVectors(vec, sizes) && SizesOf(used, sizes) && size in sizes
    ensures ChunksIn(vec, used, vec(size)) == ChunksOf(used, size)
  {
    if used != [] { ChunksOfOneSize(vec, sizes, used[..|used| - 1], size); }
  }

  /** A slot that a commit puts into a table was never handed out and overlaps none that was; and with
      the ones handed out they are all slots of the chunk. */
  lemma FreeSlotsUntouched(states: seq<State>, roles: Roles, given: set<Slot>, out: seq<nat>, regions: set<Addr>,
                           s: nat, large: bool, k: nat, i: nat, y: Slot)
    requires ChainOk(states, roles, given, out, regions) && s < |states| && k < |UsedOf(states[s], large)|
    ensures var u := UsedOf(states[s], large)[k];
            && u.size > 0 && u.free <= ChunkSize(large) / u.size
            && (forall n: nat :: n < ChunkSize(large) / u.size ==> (Slot(u.ptr, u.size, n) in given <==> u.free <= n))
            && (i < u.free && y in given ==>
                  u.ptr + i * u.size + u.size <= SlotAddr(y) || SlotAddr(y) + y.size <= u.ptr + i * u.size)
  {
    var u := UsedOf(states[s], large)[k];
    assert UsedAt(states, roles, large, s, k) && RoleOk(states, roles, u.ptr);
    forall n: nat | n < ChunkSize(large) / u.size ensures Slot(u.ptr, u.size, n) in given <==> u.free <= n {
      assert HandedOut(roles, Slot(u.ptr, u.size, n)) <==> u.free <= n;
    }
    if i < u.free && y in given {
      assert HandedOut(roles, y);
      SlotInside(u.size, i, ChunkSize(large));
      if y.chunk == u.ptr {
        SlotsInOrder(u.size, i, y.index);
      } else {
        SlotInChunk(roles, y);
        assert Separate(roles, u.ptr, y.chunk);
      }
    }
  }

  lemma ChainLeftOver(states: seq<State>, roles: Roles, given: set<Slot>, out: seq<nat>, regions: set<Addr>, s: nat, large: bool)
    requires ChainOk(states, roles, given, out, regions) && s < |states|
    ensures LeftOver(states[s], given, large)
  {
    forall k: nat, n: nat | k < |UsedOf(states[s], large)| ensures SlotLeft(states[s], given, large, k, n) {
      FreeSlotsUntouched(states, roles, given, out, regions, s, large, k, 0, Slot(0, 0, 0));
    }
  }

  // ----- the passes and the commit -----

  /** Everything a commit writes to: the object and chunk tables, the chunk manager's vectors and the metadata of
      the chunks. */
  datatype Tables = Tables(objects: Table, commonChunks: Table, largeChunks: Table, freeCommon: Vec, freeLarge: Vec, regions: Vec, metadata: MetadataMem)

  /** One commit: the state, the slots handed out of the chain by then, and the tables. */
  datatype Commit = Commit(st: State, given: set<Slot>, before: Tables, after: Tables)

  /** Slot `n` of used chunk `k` was handed out exactly if it is not below the number of free ones. */
  ghost predicate SlotLeft(st: State, given: set<Slot>, large: bool, k: nat, n: nat)
    requires k < |UsedOf(st, large)|
  {
    var u := UsedOf(st, large)[k];
    u.size > 0 && (n < ChunkSize(large) / u.size ==> (Slot(u.ptr, u.size, n) in given <==> u.free <= n))
  }

  ghost predicate LeftOver(st: State, given: set<Slot>, large: bool) {
    forall k: nat, n: nat {:trigger SlotLeft(st, given, large, k, n)} :: k < |UsedOf(st, large)| ==> SlotLeft(st, given, large, k, n)
  }

  /** The tables got exactly what nobody had got: of each used chunk the slots not handed out, the chunk
      itself, the free chunks and the region. And every address of a used chunk leads to the owner and to the
      chunk's vector; all other records are as they were. */
  ghost predicate CommitOk(vec: Numbering, nlpm: nat, c: Commit) {
    && LeftOver(c.st, c.given, false) && LeftOver(c.st, c.given, true)
    && SlotsAdded(vec, c.before.objects, c.after.objects, c.st.usedCommon + c.st.usedLarge)
    && ChunksAdded(vec, c.before.commonChunks, c.after.commonChunks, c.st.usedCommon)
    && ChunksAdded(vec, c.before.largeChunks, c.after.largeChunks, c.st.usedLarge)
    && c.after.freeCommon == Extended(c.before.freeCommon, c.st.freeCommon)
    && c.after.freeLarge == Extended(c.before.freeLarge, c.st.freeLarge)
    && c.after.regions == Extended(c.before.regions, [c.st.region])
    && AllLead(c.after.metadata, vec, nlpm, c.st.usedCommon, false) && AllLead(c.after.metadata, vec, nlpm, c.st.usedLarge, true)
    && RecordsKept(c.before.metadata, c.after.metadata, c.st)
  }

  ghost predicate RecordsKept(before: MetadataMem, after: MetadataMem, st: State) {
    forall a {:trigger Outside(st.usedCommon, false, a)} :: Outside(st.usedCommon, false, a) && Outside(st.usedLarge, true, a) ==> RecordKept(before, after, a)
  }

  datatype Outcome = Done | TooManyPasses | TooManyStates

  /** The size of the buffer for the slots of the states that were read. */
  const MAX_STATES_READ: nat := 8

  ghost predicate QuietUsed(vec: Numbering, t: Tables, st: State) {
    && RoomForEach(vec, t.objects, st.usedCommon) && RoomForEach(vec, t.objects, st.usedLarge)
    && RoomForChunks(vec, t.commonChunks, st.usedCommon) && RoomForChunks(vec, t.largeChunks, st.usedLarge)
  }

  ghost predicate QuietManager(t: Tables, st: State) {
    Holds(t.freeCommon, |st.freeCommon|) && Holds(t.freeLarge, |st.freeLarge|) && Holds(t.regions, 1)
  }

  /** What a round came to: nothing yet, the next state, or the end. */
  datatype Turn = Wait | Next | Last(outcome: Outcome)

  ghost predicate TurnOk(turn: Turn, states: seq<State>, hosts: seq<Addr>, states': seq<State>, hosts': seq<Addr>, toDealloc: seq<Addr>, toDealloc': seq<Addr>) {
    match turn
    case Wait => NotShorter(states, states') && hosts <= hosts' && toDealloc' == toDealloc
    case Next =>
      && |states| > 1 && |hosts| > 1 && |toDealloc| < MAX_STATES_READ && toDealloc' == toDealloc + [hosts[1]]
      && states' == states[1..] && hosts' == hosts[1..]
    case Last(outcome) =>
      && states' == states && hosts' == hosts && toDealloc' == toDealloc
      && outcome == (if |states| == 1 then Done else TooManyStates) && (|states| > 1 ==> |toDealloc| == MAX_STATES_READ)
  }

  datatype Which = ObjectsOf(i: nat) | CommonChunksOf(i: nat) | LargeChunksOf(i: nat) | FreeCommonList | FreeLargeList | RegionViews

  class Committer {
    var objects: Table
    var commonChunks: Table
    var largeChunks: Table
    /** The chunk manager's three vectors. */
    var freeCommon: Vec
    var freeLarge: Vec
    var regions: Vec
    const chain: StateChain
    const vec: Numbering
    const metadata: Metadata
    /** The owner that the metadata names. */
    const nlpm: nat
    /** The commits so far. */
    ghost var log: seq<Commit>

    constructor (chain: StateChain, vec: Numbering, nlpm: nat)
      ensures this.chain == chain && this.vec == vec && this.nlpm == nlpm && fresh(metadata) && metadata.mem == map[]
      ensures objects == map[] && commonChunks == map[] && largeChunks == map[] && log == []
    {
      this.chain, this.vec, this.nlpm := chain, vec, nlpm;
      metadata := new Metadata();
      objects, commonChunks, largeChunks := map[], map[], map[];
      freeCommon, freeLarge, regions := Vec([], 0), Vec([], 0), Vec([], 0);
      log := [];
    }

    ghost function Now(): Tables
      reads this, metadata
    {
      Tables(objects, commonChunks, largeChunks, freeCommon, freeLarge, regions, metadata.mem)
    }

    ghost predicate Ready()
      reads this, chain
    {
      chain.Valid() && AtMostOne(chain.roles) && OwnVectors(vec, chain.sizes)
    }

    /** One of the vectors that reservations are for. */
    function At(w: Which): Vec
      reads this
    {
      match w
      case ObjectsOf(i) => Get(objects, i)
      case CommonChunksOf(i) => Get(commonChunks, i)
      case LargeChunksOf(i) => Get(largeChunks, i)
      case FreeCommonList => freeCommon
      case FreeLargeList => freeLarge
      case RegionViews => regions
    }

    /** Everything a pass checks, for the first state of the chain. */
    ghost predicate Quiet()
      requires |chain.states| > 0
      reads this, metadata, chain
    {
      QuietUsed(vec, Now(), chain.states[0]) && QuietManager(Now(), chain.states[0])
    }

    /** What a reservation that has to allocate may do to the chain and to the tables: any number of
        allocations from the chain of the sizes it is asked for, though not for states, and any change of
        the vectors. But when it is over, there is the room asked for. */
    method ReserveSlow(w: Which, n: nat)
      requires Ready() && |chain.states| > 0
      modifies this`objects, this`commonChunks, this`largeChunks, this`freeCommon, this`freeLarge, this`regions, metadata, chain
      ensures Ready() && |chain.states| > 0 && NotShorter(old(chain.states), chain.states) && old(chain.hosts) <= chain.hosts
      ensures Holds(At(w), n)
    {
      var times: nat :| times >= 0;
      for k := 0 to times
        invariant Ready() && |chain.states| > 0 && NotShorter(old(chain.states), chain.states) && old(chain.hosts) <= chain.hosts
      {
        var size :| size in chain.sizes;
        if 0 < size <= LARGE_SIZE_MAX && size != chain.stateSize {
          var answer, r;
          ghost var y, x;
          answer := chain.AskSystem();
          r, y, x := chain.AllocSize(size, answer);
        }
      }
      objects, commonChunks, largeChunks := *, *, *;
      freeCommon, freeLarge, regions := *, *, *;
      metadata.mem := *;
      Widen(w, n);
    }

    /** Room for `n` more in one vector. */
    method Widen(w: Which, n: nat)
      modifies this`objects, this`commonChunks, this`largeChunks, this`freeCommon, this`freeLarge, this`regions
      ensures Holds(At(w), n)
    {
      var v := At(w);
      var wide := v.(cap := if Holds(v, n) then v.cap else |v.items| + n);
      match w
      case ObjectsOf(i) => objects := objects[i := wide];
      case CommonChunksOf(i) => commonChunks := commonChunks[i := wide];
      case LargeChunksOf(i) => largeChunks := largeChunks[i := wide];
      case FreeCommonList => freeCommon := wide;
      case FreeLargeList => freeLarge := wide;
      case RegionViews => regions := wide;
    }

    /** One reservation. It allocates exactly if there is no room, and there is room afterwards. */
    method Reserve(w: Which, n: nat) returns (did: bool)
      requires Ready() && |chain.states| > 0
      modifies this`objects, this`commonChunks, this`largeChunks, this`freeCommon, this`freeLarge, this`regions, metadata, chain
      ensures Ready() && |chain.states| > 0 && NotShorter(old(chain.states), chain.states) && old(chain.hosts) <= chain.hosts
      ensures did <==> !old(Holds(At(w), n))
      ensures Holds(At(w), n) && (!did ==> unchanged(this) && unchanged(metadata) && unchanged(chain))
    {
      if At(w).cap >= |At(w).items| + n { return false; }
      ReserveSlow(w, n);
      did := true;
    }

    /** Reserves for each used chunk in turn. */
    method ReserveObjects(large: bool) returns (did: bool)
      requires Ready() && |chain.states| > 0
      modifies this`objects, this`commonChunks, this`largeChunks, this`freeCommon, this`freeLarge, this`regions, metadata, chain
      ensures Ready() && |chain.states| > 0 && NotShorter(old(chain.states), chain.states) && old(chain.hosts) <= chain.hosts
      ensures did <==> !old(RoomForEach(vec, objects, UsedOf(chain.states[0], large)))
      ensures !did ==> unchanged(this) && unchanged(metadata) && unchanged(chain)
    {
      did := false;
      for k := 0 to |UsedOf(chain.states[0], large)|
        invariant Ready() && |chain.states| > 0 && NotShorter(old(chain.states), chain.states) && old(chain.hosts) <= chain.hosts
        invariant if did then !old(RoomForEach(vec, objects, UsedOf(chain.states[0], large)))
          else unchanged(this) && unchanged(metadata) && unchanged(chain) && RoomForEach(vec, objects, UsedOf(chain.states[0], large)[..k])
      {
        var u := UsedOf(chain.states[0], large)[k];
        var didHere := Reserve(ObjectsOf(vec(u.size)), u.free);
        did := did || didHere;
      }
    }

    /** Reserves for the number of used chunks of each size. */
    method ReserveChunks(large: bool) returns (did: bool)
      requires Ready() && |chain.states| > 0
      modifies this`objects, this`commonChunks, this`largeChunks, this`freeCommon, this`freeLarge, this`regions, metadata, chain
      ensures Ready() && |chain.states| > 0 && NotShorter(old(chain.states), chain.states) && old(chain.hosts) <= chain.hosts
      ensures did <==> !old(RoomForChunks(vec, if large then largeChunks else commonChunks, UsedOf(chain.states[0], large)))
      ensures !did ==> unchanged(this) && unchanged(metadata) && unchanged(chain)
    {
      did := false;
      var used := UsedOf(chain.states[0], large);
      for k := 0 to |used|
        invariant Ready() && |chain.states| > 0 && NotShorter(old(chain.states), chain.states) && old(chain.hosts) <= chain.hosts
        invariant if did then !old(RoomForChunks(vec, if large then largeChunks else commonChunks, UsedOf(chain.states[0], large)))
          else unchanged(this) && unchanged(metadata) && unchanged(chain)
               && forall i :: 0 <= i < k ==> RoomFor(vec, if large then largeChunks else commonChunks, used, used[i].size)
      {
        var v := vec(used[k].size);
        SizeFound(used, k);
        var didHere := Reserve(if large then LargeChunksOf(v) else CommonChunksOf(v), |ChunksOf(used, used[k].size)|);
        did := did || didHere;
      }
      if !did {
        forall size | ChunksOf(used, size) != [] ensures RoomFor(vec, if large then largeChunks else commonChunks, used, size) {
          SizeOccurs(used, size);
        }
      }
    }

    /** Reserves for the slots and chunks in use. */
    method ReserveUsed() returns (did: bool)
      requires Ready() && |chain.states| > 0
      modifies this`objects, this`commonChunks, this`largeChunks, this`freeCommon, this`freeLarge, this`regions, metadata, chain
      ensures Ready() && |chain.states| > 0 && NotShorter(old(chain.states), chain.states) && old(chain.hosts) <= chain.hosts
      ensures did <==> !old(QuietUsed(vec, Now(), chain.states[0]))
      ensures !did ==> unchanged(this) && unchanged(metadata) && unchanged(chain)
    {
      did := ReserveObjects(false);
      var d;
      d := ReserveObjects(true);
      did := did || d;
      d := ReserveChunks(true);
      did := did || d;
      d := ReserveChunks(false);
      did := did || d;
    }

    /** The chunk manager's part of a pass. */
    method PrepareToHandleState() returns (did: bool)
      requires Ready() && |chain.states| > 0
      modifies this`objects, this`commonChunks, this`largeChunks, this`freeCommon, this`freeLarge, this`regions, metadata, chain
      ensures Ready() && |chain.states| > 0 && NotShorter(old(chain.states), chain.states) && old(chain.hosts) <= chain.hosts
      ensures did <==> !old(QuietManager(Now(), chain.states[0]))
      ensures !did ==> unchanged(this) && unchanged(metadata) && unchanged(chain)
    {
      did := Reserve(RegionViews, 1);
      var d;
      d := Reserve(FreeLargeList, |chain.states[0].freeLarge|);
      did := did || d;
      d := Reserve(FreeCommonList, |chain.states[0].freeCommon|);
      did := did || d;
    }

    /** One pass over everything a commit will push. It allocates exactly if something has no room. */
    method Pass() returns (did: bool)
      requires Ready() && |chain.states| > 0
      modifies this`objects, this`commonChunks, this`largeChunks, this`freeCommon, this`freeLarge, this`regions, metadata, chain
      ensures Ready() && |chain.states| > 0 && NotShorter(old(chain.states), chain.states) && old(chain.hosts) <= chain.hosts
      ensures did <==> !old(Quiet())
      ensures !did ==> unchanged(this) && unchanged(metadata) && unchanged(chain)
    {
      did := ReserveUsed();
      var d := PrepareToHandleState();
      did := did || d;
    }

    /** One pass, and the commit of the first state if it allocated nothing. */
    method Round() returns (committed: bool)
      requires Ready() && |chain.states| > 0
      modifies this, metadata, chain
      ensures Ready() && |chain.states| > 0 && NotShorter(old(chain.states), chain.states) && old(chain.hosts) <= chain.hosts
      ensures committed <==> old(Quiet())
      ensures !committed ==> log == old(log)
      ensures committed ==> unchanged(chain) && log == old(log) + [Commit(chain.states[0], chain.given, old(Now()), Now())] && CommitOk(vec, nlpm, log[|log| - 1])
    {
      var did := Pass();
      if !did { CommitFirst(); }
      committed := !did;
    }

    /** A round, and after a commit the next state of the chain, if there is one and a cell for its slot. */
    method Turn(toDealloc: seq<Addr>) returns (turn: Turn, toDealloc': seq<Addr>)
      requires Ready() && |chain.states| > 0 && |toDealloc| <= MAX_STATES_READ
      modifies this, metadata, chain
      ensures Ready() && |chain.states| > 0
      ensures turn.Wait? <==> !old(Quiet())
      ensures turn.Wait? ==> log == old(log)
      ensures !turn.Wait? ==> |log| > 0 && log == old(log) + [log[|log| - 1]] && CommitOk(vec, nlpm, log[|log| - 1])
                              && log[|log| - 1].before == old(Now()) && log[|log| - 1].after == Now()
      ensures TurnOk(turn, old(chain.states), old(chain.hosts), chain.states, chain.hosts, toDealloc, toDealloc')
      ensures !turn.Wait? ==> log[|log| - 1].st == old(chain.states)[0]
    {
      var committed := Round();
      if !committed { return Wait, toDealloc; }
      if |chain.states| == 1 { return Last(Done), toDealloc; }
      if |toDealloc| == MAX_STATES_READ { return Last(TooManyStates), toDealloc; }
      toDealloc' := toDealloc + [chain.hosts[1]];
      var st := chain.TakeFirst();
      turn := Next;
    }

    /** A turn in terms of what there was before the first. */
    method TurnSince(toDealloc: seq<Addr>, ghost states0: seq<State>, ghost hosts0: seq<Addr>, ghost log0: seq<Commit>, ghost roomy: bool, ghost passes: nat)
        returns (turn: Turn, toDealloc': seq<Addr>)
      requires Ready() && |chain.states| > 0 && Progress(vec, nlpm, states0, hosts0, log0, chain.states, chain.hosts, log, toDealloc)
      requires roomy ==> Roomy(vec, Now(), states0, log0, chain.states, log, toDealloc, passes)
      modifies this, metadata, chain
      ensures Ready() && |chain.states| > 0 && |log| >= |old(log)| && (old(Quiet()) ==> |log| > |old(log)|)
      ensures if turn.Last? then Ended(vec, nlpm, states0, hosts0, log0, chain.states, chain.hosts, log, toDealloc', turn.outcome)
              else Progress(vec, nlpm, states0, hosts0, log0, chain.states, chain.hosts, log, toDealloc')
      ensures roomy ==> if turn.Last? then EndedRoomy(states0, log0, log, turn.outcome)
                        else Roomy(vec, Now(), states0, log0, chain.states, log, toDealloc', passes + 1) && passes + 1 < |states0|
    {
      if roomy { RoomForFirst(vec, Now(), chain.states); }
      turn, toDealloc' := Turn(toDealloc);
      AfterTurn(vec, nlpm, states0, hosts0, log0, old(chain.states), old(chain.hosts), old(log), chain.states, chain.hosts, log, toDealloc, toDealloc', turn);
      if roomy {
        RoomyTurn(vec, nlpm, old(Now()), Now(), states0, log0, old(chain.states), chain.states, old(chain.hosts), chain.hosts, old(log), log,
                  toDealloc, toDealloc', turn, passes);
      }
    }

    /** Commits the whole chain, state by state, if that takes no more than the given number of passes.
        The regions that were there are committed in order, and before any that is added meanwhile. The
        slots of the states read from the chain are given back at the end; there may be eight of them. A pass
        commits a state whenever there is room for it, so that as many passes as states are enough if there is
        room for all. */
    method HandleState(maxPasses: nat) returns (outcome: Outcome, toDealloc: seq<Addr>)
      requires Ready() && |chain.states| > 0
      modifies this, metadata, chain
      ensures Ready() && |chain.states| > 0 && AllCommitted(vec, nlpm, old(log), log)
      ensures Regions(old(chain.states)) <= Committed(log[|old(log)|..]) + Regions(if outcome.TooManyPasses? then chain.states else chain.states[1..])
      ensures old(chain.hosts)[1..] <= toDealloc + chain.hosts[1..]
      ensures |log| == |old(log)| + |toDealloc| + (if outcome.TooManyPasses? then 0 else 1)
      ensures !outcome.TooManyPasses? ==> log[|log| - 1].st == chain.states[0]
      ensures |toDealloc| <= MAX_STATES_READ
      ensures outcome.Done? ==> |chain.states| == 1
      ensures outcome.TooManyStates? ==> |chain.states| > 1 && |toDealloc| == MAX_STATES_READ
      ensures maxPasses > 0 && old(Quiet()) ==> |log| > |old(log)|
      ensures old(RoomForStates(vec, Now(), chain.states)) && maxPasses >= |old(chain.states)| ==>
                && outcome == (if |old(chain.states)| <= MAX_STATES_READ + 1 then Done else TooManyStates)
                && (outcome.Done? ==> StatesOf(log[|old(log)|..]) == old(chain.states))
    {
      outcome, toDealloc := Turns(maxPasses);
    }

    method Turns(maxPasses: nat) returns (outcome: Outcome, toDealloc: seq<Addr>)
      requires Ready() && |chain.states| > 0
      modifies this, metadata, chain
      ensures Ready() && |chain.states| > 0
      ensures Ended(vec, nlpm, old(chain.states), old(chain.hosts), old(log), chain.states, chain.hosts, log, toDealloc, outcome)
      ensures maxPasses > 0 && old(Quiet()) ==> |log| > |old(log)|
      ensures old(RoomForStates(vec, Now(), chain.states)) && maxPasses >= |old(chain.states)| ==> EndedRoomy(old(chain.states), old(log), log, outcome)
    {
      toDealloc := [];
      ghost var quiet := Quiet();
      ghost var roomy, states0, hosts0, log0 := RoomForStates(vec, Now(), chain.states), chain.states, chain.hosts, log;
      for passes := 0 to maxPasses
        invariant Ready() && |chain.states| > 0 && Progress(vec, nlpm, states0, hosts0, log0, chain.states, chain.hosts, log, toDealloc)
        invariant quiet ==> if passes == 0 then Quiet() else |log| > |log0|
        invariant roomy ==> Roomy(vec, Now(), states0, log0, chain.states, log, toDealloc, passes)
      {
        var turn;
        turn, toDealloc := TurnSince(toDealloc, states0, hosts0, log0, roomy, passes);
        if turn.Last? { return turn.outcome, toDealloc; }
      }
      outcome := TooManyPasses;
    }

    static method TryPush(v: Vec, a: Addr) returns (ok: bool, v': Vec)
      ensures ok == (|v.items| < v.cap)
      ensures v' == if ok then v.(items := v.items + [a]) else v
    {
      if |v.items| >= v.cap { return false, v; }
      return true, v.(items := v.items + [a]);
    }

    static method TryExtendFromSlice(v: Vec, slice: seq<Addr>) returns (ok: bool, v': Vec)
      ensures ok == (|v.items| + |slice| <= v.cap)
      ensures v' == if ok then v.(items := v.items + slice) else v
    {
      if |v.items| + |slice| > v.cap { return false, v; }
      return true, v.(items := v.items + slice);
    }

    /** Pushes the free slots of one used chunk to vector `w`. */
    static method CommitSlots(t: Table, w: nat, u: Used) returns (t': Table)
      requires u.free > 0 ==> Holds(Get(t, w), u.free)
      ensures forall v :: v != w ==> Get(t', v) == Get(t, v)
      ensures Get(t', w) == Vec(Get(t, w).items + SlotsOf(u), Get(t, w).cap)
    {
      t' := t;
      for i := 0 to u.free
        invariant forall v :: v != w ==> Get(t', v) == Get(t, v)
        invariant Get(t', w) == Vec(Get(t, w).items + SlotsOf(u)[..i], Get(t, w).cap)
      {
        var ok, x := TryPush(Get(t', w), u.ptr + i * u.size);
        assert ok;
        t' := t'[w := x];
        assert SlotsOf(u)[..i + 1] == SlotsOf(u)[..i] + [u.ptr + i * u.size];
      }
    }

    /** Pushes all free slots of a list of used chunks to the object tables and the chunks to the
        chunk tables. No push fails. */
    static method CommitUsed(vec: Numbering, objects: Table, chunks: Table, used: seq<Used>) returns (objects': Table, chunks': Table)
      requires RoomForAll(vec, objects, used) && RoomForAllChunks(vec, chunks, used)
      ensures SlotsAdded(vec, objects, objects', used) && ChunksAdded(vec, chunks, chunks', used)
    {
      objects', chunks' := objects, chunks;
      assert used[..0] == [];
      for k := 0 to |used|
        invariant SlotsAdded(vec, objects, objects', used[..k]) && ChunksAdded(vec, chunks, chunks', used[..k])
      {
        ghost var objects1, chunks1 := objects', chunks';
        var w := vec(used[k].size);
        SlotsStep(vec, objects, objects', used, k);
        objects' := CommitSlots(objects', w, used[k]);
        ChunksStep(vec, chunks, chunks', used, k);
        var ok, x := TryPush(Get(chunks', w), used[k].ptr);
        assert ok;
        chunks' := chunks'[w := x];
        SlotsNext(vec, objects, objects1, objects', used, k);
        ChunksNext(vec, chunks, chunks1, chunks', used, k);
      }
      assert used[..|used|] == used;
    }

    /** Commits the first state. */
    method CommitFirst()
      requires Ready() && |chain.states| > 0 && Quiet()
      modifies this, metadata
      ensures log == old(log) + [Commit(chain.states[0], chain.given, old(Now()), Now())] && CommitOk(vec, nlpm, log[|log| - 1])
    {
      var st := chain.states[0];
      RoomAtCommit(vec, chain.sizes, chain.states, chain.roles, 0, objects, commonChunks, largeChunks);
      ghost var objects0 := objects;
      objects, commonChunks := CommitUsed(vec, objects, commonChunks, st.usedCommon);
      ghost var objects1 := objects;
      StillRoom(vec, objects0, objects, st.usedCommon, st.usedLarge);
      RoomSuffices(vec, objects, st.usedLarge);
      objects, largeChunks := CommitUsed(vec, objects, largeChunks, st.usedLarge);
      WriteMetadata();
      SlotsInBoth(vec, objects0, objects1, objects, st.usedCommon, st.usedLarge);
      ManagerHandleState(st);
      ChainLeftOver(chain.states, chain.roles, chain.given, chain.out, chain.regions, 0, false);
      ChainLeftOver(chain.states, chain.roles, chain.given, chain.out, chain.regions, 0, true);
      log := log + [Commit(st, chain.given, old(Now()), Now())];
    }

    /** The records of the first state's used chunks. */
    method WriteMetadata()
      requires chain.Valid()
      modifies metadata
      ensures AllLead(metadata.mem, vec, nlpm, chain.states[0].usedCommon, false)
      ensures AllLead(metadata.mem, vec, nlpm, chain.states[0].usedLarge, true)
      ensures RecordsKept(old(metadata.mem), metadata.mem, chain.states[0])
    {
      var st := chain.states[0];
      UsedChunksFit(chain.states, chain.roles, chain.regions, 0);
      InitAllMetadata(metadata, vec, nlpm, st.usedCommon, false);
      ghost var mem := metadata.mem;
      InitAllMetadata(metadata, vec, nlpm, st.usedLarge, true);
      AllStillLead(mem, metadata.mem, vec, nlpm, st.usedCommon, false, st.usedLarge, true);
    }

    /** `ChunkManager::handle_state`: the region and the free chunks. No push fails. */
    method ManagerHandleState(st: State)
      requires |freeCommon.items| + |st.freeCommon| <= freeCommon.cap
      requires |freeLarge.items| + |st.freeLarge| <= freeLarge.cap
      requires |regions.items| + 1 <= regions.cap
      modifies this`freeCommon, this`freeLarge, this`regions
      ensures freeCommon == Extended(old(freeCommon), st.freeCommon)
      ensures freeLarge == Extended(old(freeLarge), st.freeLarge)
      ensures regions == Extended(old(regions), [st.region])
    {
      var ok;
      ok, regions := TryPush(regions, st.region);
      assert ok;
      ok, freeCommon := TryExtendFromSlice(freeCommon, st.freeCommon);
      assert ok;
      ok, freeLarge := TryExtendFromSlice(freeLarge, st.freeLarge);
      assert ok;
    }
  }

  /** The free slots of the chunks, in order, at the end of each vector. */
  ghost predicate SlotsAdded(vec: Numbering, before: Table, after: Table, used: seq<Used>) {
    forall v {:trigger Get(after, v)} :: Get(after, v) == Vec(Get(before, v).items + FreeSlots(vec, used, v), Get(before, v).cap)
  }

  ghost predicate ChunksAdded(vec: Numbering, before: Table, after: Table, used: seq<Used>) {
    forall v {:trigger Get(after, v)} :: Get(after, v) == Vec(Get(before, v).items + ChunksIn(vec, used, v), Get(before, v).cap)
  }

  ghost predicate RoomFor(vec: Numbering, chunks: Table, used: seq<Used>, size: nat) {
    Holds(Get(chunks, vec(size)), |ChunksOf(used, size)|)
  }

  /** For the chunks of each size there is room. This is what a pass checks. */
  ghost predicate RoomForChunks(vec: Numbering, chunks: Table, used: seq<Used>) {
    forall size :: ChunksOf(used, size) != [] ==> RoomFor(vec, chunks, used, size)
  }

  /** In each vector there is room for all its chunks. This is what a commit needs. */
  ghost predicate RoomForAllChunks(vec: Numbering, chunks: Table, used: seq<Used>) {
    forall v :: ChunksIn(vec, used, v) != [] ==> Holds(Get(chunks, v), |ChunksIn(vec, used, v)|)
  }

  lemma {:induction false} SizeOccurs(used: seq<Used>, size: nat)
    requires ChunksOf(used, size) != []
    ensures exists i :: 0 <= i < |used| && used[i].size == size
  {
    if used[|used| - 1].size != size {
      SizeOccurs(used[..|used| - 1], size);
      var i :| 0 <= i < |used| - 1 && used[..|used| - 1][i].size == size;
      assert used[i].size == size;
    }
  }

  lemma {:induction false} SizeFound(used: seq<Used>, k: nat)
    requires k < |used|
    ensures ChunksOf(used, used[k].size) != []
  {
    if k < |used| - 1 { SizeFound(used[..|used| - 1], k); }
  }

  lemma {:induction false} VectorOccurs(vec: Numbering, used: seq<Used>, v: nat)
    requires ChunksIn(vec, used, v) != []
    ensures exists i :: 0 <= i < |used| && vec(used[i].size) == v
  {
    if vec(used[|used| - 1].size) != v {
      VectorOccurs(vec, used[..|used| - 1], v);
      var i :| 0 <= i < |used| - 1 && vec(used[..|used| - 1][i].size) == v;
      assert vec(used[i].size) == v;
    }
  }

  lemma ChunkRoomSuffices(vec: Numbering, sizes: set<nat>, chunks: Table, used: seq<Used>)
    requires OwnVectors(vec, sizes) && SizesOf(used, sizes) && RoomForChunks(vec, chunks, used)
    ensures RoomForAllChunks(vec, chunks, used)
  {
    forall v | ChunksIn(vec, used, v) != [] ensures Holds(Get(chunks, v), |ChunksIn(vec, used, v)|) {
      VectorOccurs(vec, used, v);
      var i :| 0 <= i < |used| && vec(used[i].size) == v;
      ChunksOfOneSize(vec, sizes, used, used[i].size);
      assert RoomFor(vec, chunks, used, used[i].size);
    }
  }

  lemma SlotsStep(vec: Numbering, before: Table, now: Table, used: seq<Used>, k: nat)
    requires k < |used| && RoomForAll(vec, before, used) && SlotsAdded(vec, before, now, used[..k])
    ensures used[k].free > 0 ==> Holds(Get(now, vec(used[k].size)), used[k].free)
  {
    var v := vec(used[k].size);
    assert Get(now, v) == Vec(Get(before, v).items + FreeSlots(vec, used[..k], v), Get(before, v).cap);
    assert used[..k + 1][..k] == used[..k];
    PrefixShorter(vec, used, k + 1, v);
    assert |FreeSlots(vec, used[..k + 1], v)| == |FreeSlots(vec, used[..k], v)| + used[k].free;
  }

  lemma SlotsNext(vec: Numbering, before: Table, now: Table, next: Table, used: seq<Used>, k: nat)
    requires k < |used| && SlotsAdded(vec, before, now, used[..k])
    requires forall v :: v != vec(used[k].size) ==> Get(next, v) == Get(now, v)
    requires var w := vec(used[k].size); Get(next, w) == Vec(Get(now, w).items + SlotsOf(used[k]), Get(now, w).cap)
    ensures SlotsAdded(vec, before, next, used[..k + 1])
  {
    assert used[..k + 1][..k] == used[..k];
    forall v ensures Get(next, v) == Vec(Get(before, v).items + FreeSlots(vec, used[..k + 1], v), Get(before, v).cap) {
      assert Get(now, v) == Vec(Get(before, v).items + FreeSlots(vec, used[..k], v), Get(before, v).cap);
    }
  }

  lemma ChunksStep(vec: Numbering, before: Table, now: Table, used: seq<Used>, k: nat)
    requires k < |used| && RoomForAllChunks(vec, before, used) && ChunksAdded(vec, before, now, used[..k])
    ensures Holds(Get(now, vec(used[k].size)), 1)
  {
    var v := vec(used[k].size);
    assert Get(now, v) == Vec(Get(before, v).items + ChunksIn(vec, used[..k], v), Get(before, v).cap);
    assert used[..k + 1][..k] == used[..k];
    PrefixShorter(vec, used, k + 1, v);
  }

  lemma ChunksNext(vec: Numbering, before: Table, now: Table, next: Table, used: seq<Used>, k: nat)
    requires k < |used| && ChunksAdded(vec, before, now, used[..k])
    requires forall v :: v != vec(used[k].size) ==> Get(next, v) == Get(now, v)
    requires var w := vec(used[k].size); Get(next, w) == Vec(Get(now, w).items + [used[k].ptr], Get(now, w).cap)
    ensures ChunksAdded(vec, before, next, used[..k + 1])
  {
    assert used[..k + 1][..k] == used[..k];
    forall v ensures Get(next, v) == Vec(Get(before, v).items + ChunksIn(vec, used[..k + 1], v), Get(before, v).cap) {
      assert Get(now, v) == Vec(Get(before, v).items + ChunksIn(vec, used[..k], v), Get(before, v).cap);
    }
  }

  lemma Joined(a: seq<Addr>, b: seq<Addr>, c: seq<Addr>)
    ensures a + b + c == a + (b + c)
  {
  }

  lemma {:induction false} FreeSlotsJoin(vec: Numbering, a: seq<Used>, b: seq<Used>, v: nat)
    ensures FreeSlots(vec, a + b, v) == FreeSlots(vec, a, v) + FreeSlots(vec, b, v)
  {
    if b == [] {
      assert a + b == a;
    } else {
      var init, last := b[..|b| - 1], b[|b| - 1];
      FreeSlotsJoin(vec, a, init, v);
      assert (a + b)[..|a + b| - 1] == a + init && (a + b)[|a + b| - 1] == last;
      Joined(FreeSlots(vec, a, v), FreeSlots(vec, init, v), if vec(last.size) == v then SlotsOf(last) else []);
    }
  }

  lemma SlotsInBoth(vec: Numbering, t0: Table, t1: Table, t2: Table, common: seq<Used>, large: seq<Used>)
    requires SlotsAdded(vec, t0, t1, common) && SlotsAdded(vec, t1, t2, large)
    ensures SlotsAdded(vec, t0, t2, common + large)
  {
    forall v ensures Get(t2, v) == Vec(Get(t0, v).items + FreeSlots(vec, common + large, v), Get(t0, v).cap) {
      FreeSlotsJoin(vec, common, large, v);
      assert Get(t1, v) == Vec(Get(t0, v).items + FreeSlots(vec, common, v), Get(t0, v).cap);
    }
  }

  /** Common and large chunks have different vectors. */
  ghost predicate NoCommonVector(vec: Numbering, common: seq<Used>, large: seq<Used>) {
    forall j, k :: 0 <= j < |common| && 0 <= k < |large| ==> vec(common[j].size) != vec(large[k].size)
  }

  lemma VectorsApart(vec: Numbering, sizes: set<nat>, states: seq<State>, roles: Roles, s: nat)
    requires ListsOk(states, roles) && RolesOk(states, roles) && s < |states| && InUseFor(roles, sizes) && OwnVectors(vec, sizes)
    ensures SizesOf(states[s].usedCommon, sizes) && SizesOf(states[s].usedLarge, sizes)
    ensures NoCommonVector(vec, states[s].usedCommon, states[s].usedLarge)
  {
    var common, large := states[s].usedCommon, states[s].usedLarge;
    forall k | 0 <= k < |common| ensures common[k].size in sizes && common[k].size <= COMMON_SIZE_MAX {
      assert UsedAt(states, roles, false, s, k) && RoleOk(states, roles, UsedOf(states[s], false)[k].ptr);
    }
    forall k | 0 <= k < |large| ensures large[k].size in sizes && large[k].size > COMMON_SIZE_MAX {
      assert UsedAt(states, roles, true, s, k) && RoleOk(states, roles, UsedOf(states[s], true)[k].ptr);
    }
  }

  /** What a pass has checked is what the commit of state `s` needs. */
  lemma RoomAtCommit(vec: Numbering, sizes: set<nat>, states: seq<State>, roles: Roles, s: nat,
                     objects: Table, commonChunks: Table, largeChunks: Table)
    requires ListsOk(states, roles) && RolesOk(states, roles) && s < |states|
    requires AtMostOne(roles) && InUseFor(roles, sizes) && OwnVectors(vec, sizes)
    requires RoomForEach(vec, objects, states[s].usedCommon)
    requires RoomForChunks(vec, commonChunks, states[s].usedCommon) && RoomForChunks(vec, largeChunks, states[s].usedLarge)
    ensures RoomForAll(vec, objects, states[s].usedCommon) && OneFree(vec, states[s].usedLarge)
    ensures NoCommonVector(vec, states[s].usedCommon, states[s].usedLarge)
    ensures RoomForAllChunks(vec, commonChunks, states[s].usedCommon) && RoomForAllChunks(vec, largeChunks, states[s].usedLarge)
  {
    VectorsApart(vec, sizes, states, roles, s);
    ChainOneFree(vec, sizes, states, roles, s, false);
    ChainOneFree(vec, sizes, states, roles, s, true);
    RoomSuffices(vec, objects, states[s].usedCommon);
    ChunkRoomSuffices(vec, sizes, commonChunks, states[s].usedCommon);
    ChunkRoomSuffices(vec, sizes, largeChunks, states[s].usedLarge);
  }

  lemma {:induction false} NoSlotsInVector(vec: Numbering, used: seq<Used>, v: nat)
    requires forall k :: 0 <= k < |used| ==> vec(used[k].size) != v
    ensures FreeSlots(vec, used, v) == []
  {
    if used != [] { NoSlotsInVector(vec, used[..|used| - 1], v); }
  }

  lemma StillRoom(vec: Numbering, before: Table, after: Table, common: seq<Used>, large: seq<Used>)
    requires RoomForEach(vec, before, large) && NoCommonVector(vec, common, large)
    requires SlotsAdded(vec, before, after, common)
    ensures RoomForEach(vec, after, large)
  {
    forall k | 0 <= k < |large| ensures Holds(Get(after, vec(large[k].size)), large[k].free) {
      NoSlotsInVector(vec, common, vec(large[k].size));
    }
  }

  lemma {:induction false} PrefixShorter(vec: Numbering, used: seq<Used>, k: nat, v: nat)
    requires k <= |used|
    ensures |FreeSlots(vec, used[..k], v)| <= |FreeSlots(vec, used, v)| && |ChunksIn(vec, used[..k], v)| <= |ChunksIn(vec, used, v)|
  {
    if k < |used| {
      PrefixShorter(vec, used[..|used| - 1], k, v);
      assert used[..|used| - 1][..k] == used[..k];
    } else {
      assert used[..k] == used;
    }
  }

  // ----- room for a whole chain -----

  /** All used chunks, state by state. */
  ghost function AllUsed(states: seq<State>): seq<Used> {
    if states == [] then [] else states[0].usedCommon + states[0].usedLarge + AllUsed(states[1..])
  }

  ghost function AllUsedOf(states: seq<State>, large: bool): seq<Used> {
    if states == [] then [] else UsedOf(states[0], large) + AllUsedOf(states[1..], large)
  }

  ghost function AllFree(states: seq<State>, large: bool): seq<Addr> {
    if states == [] then [] else FreeOf(states[0], large) + AllFree(states[1..], large)
  }

  ghost predicate SlotsFit(vec: Numbering, t: Table, used: seq<Used>) {
    forall v {:trigger Get(t, v)} :: Holds(Get(t, v), |FreeSlots(vec, used, v)|)
  }

  ghost predicate ChunksFit(vec: Numbering, t: Table, used: seq<Used>) {
    forall v {:trigger Get(t, v)} :: Holds(Get(t, v), |ChunksIn(vec, used, v)|)
  }

  /** Every vector has room for what all states of the chain together will push to it. */
  ghost predicate RoomForStates(vec: Numbering, t: Tables, states: seq<State>) {
    && SlotsFit(vec, t.objects, AllUsed(states))
    && ChunksFit(vec, t.commonChunks, AllUsedOf(states, false)) && ChunksFit(vec, t.largeChunks, AllUsedOf(states, true))
    && Holds(t.freeCommon, |AllFree(states, false)|) && Holds(t.freeLarge, |AllFree(states, true)|) && Holds(t.regions, |states|)
  }

  lemma {:induction false} ChunksInJoin(vec: Numbering, a: seq<Used>, b: seq<Used>, v: nat)
    ensures ChunksIn(vec, a + b, v) == ChunksIn(vec, a, v) + ChunksIn(vec, b, v)
  {
    if b == [] {
      assert a + b == a;
    } else {
      var init, last := b[..|b| - 1], b[|b| - 1];
      ChunksInJoin(vec, a, init, v);
      assert (a + b)[..|a + b| - 1] == a + init && (a + b)[|a + b| - 1] == last;
      Joined(ChunksIn(vec, a, v), ChunksIn(vec, init, v), if vec(last.size) == v then [last.ptr] else []);
    }
  }

  lemma {:induction false} SizeInVector(vec: Numbering, used: seq<Used>, size: nat)
    ensures |ChunksOf(used, size)| <= |ChunksIn(vec, used, vec(size))|
  {
    if used != [] { SizeInVector(vec, used[..|used| - 1], size); }
  }

  lemma SlotOfOne(vec: Numbering, used: seq<Used>, k: nat)
    requires k < |used|
    ensures used[k].free <= |FreeSlots(vec, used, vec(used[k].size))|
  {
    assert used[..k + 1][..k] == used[..k];
    PrefixShorter(vec, used, k + 1, vec(used[k].size));
  }

  lemma RoomForEachOf(vec: Numbering, t: Table, before: seq<Used>, used: seq<Used>, after: seq<Used>)
    requires SlotsFit(vec, t, before + used + after)
    ensures RoomForEach(vec, t, used)
  {
    forall k | 0 <= k < |used| ensures Holds(Get(t, vec(used[k].size)), used[k].free) {
      var v := vec(used[k].size);
      SlotOfOne(vec, used, k);
      FreeSlotsJoin(vec, before, used, v);
      FreeSlotsJoin(vec, before + used, after, v);
    }
  }

  lemma RoomForChunksOf(vec: Numbering, t: Table, used: seq<Used>, after: seq<Used>)
    requires ChunksFit(vec, t, used + after)
    ensures RoomForChunks(vec, t, used)
  {
    forall size | ChunksOf(used, size) != [] ensures RoomFor(vec, t, used, size) {
      SizeInVector(vec, used, size);
      ChunksInJoin(vec, used, after, vec(size));
      assert Holds(Get(t, vec(size)), |ChunksIn(vec, used + after, vec(size))|);
    }
  }

  /** Then there is room for the first state. */
  lemma RoomForFirst(vec: Numbering, t: Tables, states: seq<State>)
    requires states != [] && RoomForStates(vec, t, states)
    ensures QuietUsed(vec, t, states[0]) && QuietManager(t, states[0])
  {
    var common, large, rest := states[0].usedCommon, states[0].usedLarge, AllUsed(states[1..]);
    assert AllUsed(states) == [] + common + (large + rest);
    RoomForEachOf(vec, t.objects, [], common, large + rest);
    RoomForEachOf(vec, t.objects, common, large, rest);
    RoomForChunksOf(vec, t.commonChunks, common, AllUsedOf(states[1..], false));
    RoomForChunksOf(vec, t.largeChunks, large, AllUsedOf(states[1..], true));
  }

  lemma SlotsFitRest(vec: Numbering, before: Table, after: Table, used: seq<Used>, rest: seq<Used>)
    requires SlotsFit(vec, before, used + rest) && SlotsAdded(vec, before, after, used)
    ensures SlotsFit(vec, after, rest)
  {
    forall v ensures Holds(Get(after, v), |FreeSlots(vec, rest, v)|) {
      FreeSlotsJoin(vec, used, rest, v);
      assert Holds(Get(before, v), |FreeSlots(vec, used + rest, v)|);
    }
  }

  lemma ChunksFitRest(vec: Numbering, before: Table, after: Table, used: seq<Used>, rest: seq<Used>)
    requires ChunksFit(vec, before, used + rest) && ChunksAdded(vec, before, after, used)
    ensures ChunksFit(vec, after, rest)
  {
    forall v ensures Holds(Get(after, v), |ChunksIn(vec, rest, v)|) {
      ChunksInJoin(vec, used, rest, v);
      assert Holds(Get(before, v), |ChunksIn(vec, used + rest, v)|);
    }
  }

  /** And after its commit for the rest. */
  lemma RoomForRest(vec: Numbering, nlpm: nat, c: Commit, states: seq<State>)
    requires states != [] && c.st == states[0] && RoomForStates(vec, c.before, states) && CommitOk(vec, nlpm, c)
    ensures RoomForStates(vec, c.after, states[1..])
  {
    SlotsFitRest(vec, c.before.objects, c.after.objects, c.st.usedCommon + c.st.usedLarge, AllUsed(states[1..]));
    ChunksFitRest(vec, c.before.commonChunks, c.after.commonChunks, c.st.usedCommon, AllUsedOf(states[1..], false));
    ChunksFitRest(vec, c.before.largeChunks, c.after.largeChunks, c.st.usedLarge, AllUsedOf(states[1..], true));
  }

  // ----- the regions of a run -----

  ghost function Regions(states: seq<State>): (r: seq<Addr>)
    ensures |r| == |states|
  {
    seq(|states|, i requires 0 <= i < |states| => states[i].region)
  }

  ghost function Committed(log: seq<Commit>): (r: seq<Addr>)
    ensures |r| == |log|
  {
    seq(|log|, i requires 0 <= i < |log| => log[i].st.region)
  }

  ghost function StatesOf(log: seq<Commit>): (r: seq<State>)
    ensures |r| == |log|
  {
    seq(|log|, i requires 0 <= i < |log| => log[i].st)
  }

  lemma RegionsKept(before: seq<State>, after: seq<State>, all: seq<Addr>, done: seq<Addr>)
    requires NotShorter(before, after) && all <= done + Regions(before)
    ensures all <= done + Regions(after)
  {
    forall i | 0 <= i < |all| ensures all[i] == (done + Regions(after))[i] {
      if i >= |done| { assert before[i - |done|].region == after[i - |done|].region; }
    }
  }

  /** What has been done since the chain had states `states0`: every commit is in order, the regions there were
      are committed or still to come, and the slots of the states read are kept. */
  ghost predicate Progress(vec: Numbering, nlpm: nat, states0: seq<State>, hosts0: seq<Addr>, log0: seq<Commit>,
                           states: seq<State>, hosts: seq<Addr>, log: seq<Commit>, toDealloc: seq<Addr>)
  {
    && AllCommitted(vec, nlpm, log0, log) && hosts0 != [] && hosts != []
    && Regions(states0) <= Committed(log[|log0|..]) + Regions(states)
    && hosts0[1..] <= toDealloc + hosts[1..]
    && |log| == |log0| + |toDealloc| && |toDealloc| <= MAX_STATES_READ
  }

  /** What there is in the end. */
  ghost predicate Ended(vec: Numbering, nlpm: nat, states0: seq<State>, hosts0: seq<Addr>, log0: seq<Commit>,
                        states: seq<State>, hosts: seq<Addr>, log: seq<Commit>, toDealloc: seq<Addr>, outcome: Outcome)
  {
    && AllCommitted(vec, nlpm, log0, log) && hosts0 != [] && hosts != [] && states != []
    && Regions(states0) <= Committed(log[|log0|..]) + Regions(if outcome.TooManyPasses? then states else states[1..])
    && hosts0[1..] <= toDealloc + hosts[1..]
    && |log| == |log0| + |toDealloc| + (if outcome.TooManyPasses? then 0 else 1)
    && (!outcome.TooManyPasses? ==> log[|log| - 1].st == states[0])
    && |toDealloc| <= MAX_STATES_READ
    && (outcome.Done? ==> |states| == 1)
    && (outcome.TooManyStates? ==> |states| > 1 && |toDealloc| == MAX_STATES_READ)
  }

  /** And if there was room for all states and a pass for each: every state is committed, in order, unless
      there were more than the buffer has cells for. */
  ghost predicate EndedRoomy(states0: seq<State>, log0: seq<Commit>, log: seq<Commit>, outcome: Outcome) {
    && outcome == (if |states0| <= MAX_STATES_READ + 1 then Done else TooManyStates)
    && |log0| <= |log| && (outcome.Done? ==> StatesOf(log[|log0|..]) == states0)
  }

  /** A round without a commit. */
  lemma Waited(vec: Numbering, nlpm: nat, states0: seq<State>, hosts0: seq<Addr>, log0: seq<Commit>,
               states: seq<State>, hosts: seq<Addr>, states': seq<State>, hosts': seq<Addr>, log: seq<Commit>, toDealloc: seq<Addr>)
    requires Progress(vec, nlpm, states0, hosts0, log0, states, hosts, log, toDealloc)
    requires NotShorter(states, states') && hosts <= hosts'
    ensures Progress(vec, nlpm, states0, hosts0, log0, states', hosts', log, toDealloc)
  {
    RegionsKept(states, states', Regions(states0), Committed(log[|log0|..]));
    HostsKept(hosts, hosts', hosts0[1..], toDealloc);
  }

  /** A commit of the first state. */
  lemma FirstCommitted(vec: Numbering, nlpm: nat, states0: seq<State>, hosts0: seq<Addr>, log0: seq<Commit>,
                       states: seq<State>, hosts: seq<Addr>, log: seq<Commit>, log': seq<Commit>, toDealloc: seq<Addr>)
    requires Progress(vec, nlpm, states0, hosts0, log0, states, hosts, log, toDealloc)
    requires |hosts| == |states| && |log'| > 0 && log' == log + [log'[|log'| - 1]]
    requires log'[|log'| - 1].st == states[0] && CommitOk(vec, nlpm, log'[|log'| - 1])
    ensures AllCommitted(vec, nlpm, log0, log') && Regions(states0) <= Committed(log'[|log0|..]) + Regions(states[1..])
    ensures |states| > 1 && |toDealloc| < MAX_STATES_READ ==>
              Progress(vec, nlpm, states0, hosts0, log0, states[1..], hosts[1..], log', toDealloc + [hosts[1]])
  {
    assert log'[|log0|..] == log[|log0|..] + [log'[|log'| - 1]];
    assert Committed(log[|log0|..]) + Regions(states) == Committed(log'[|log0|..]) + Regions(states[1..]);
    if |states| > 1 { HostRead(hosts, toDealloc); }
  }

  /** What a turn leaves. */
  lemma AfterTurn(vec: Numbering, nlpm: nat, states0: seq<State>, hosts0: seq<Addr>, log0: seq<Commit>,
                  states: seq<State>, hosts: seq<Addr>, log: seq<Commit>, states': seq<State>, hosts': seq<Addr>, log': seq<Commit>,
                  toDealloc: seq<Addr>, toDealloc': seq<Addr>, turn: Turn)
    requires Progress(vec, nlpm, states0, hosts0, log0, states, hosts, log, toDealloc) && |hosts| == |states|
    requires TurnOk(turn, states, hosts, states', hosts', toDealloc, toDealloc')
    requires turn.Wait? ==> log' == log
    requires !turn.Wait? ==> |log'| > 0 && log' == log + [log'[|log'| - 1]] && log'[|log'| - 1].st == states[0] && CommitOk(vec, nlpm, log'[|log'| - 1])
    ensures !turn.Last? ==> Progress(vec, nlpm, states0, hosts0, log0, states', hosts', log', toDealloc')
    ensures turn.Last? ==> Ended(vec, nlpm, states0, hosts0, log0, states', hosts', log', toDealloc', turn.outcome)
  {
    if turn.Wait? {
      Waited(vec, nlpm, states0, hosts0, log0, states, hosts, states', hosts', log, toDealloc);
    } else {
      FirstCommitted(vec, nlpm, states0, hosts0, log0, states, hosts, log, log', toDealloc);
    }
  }

  /** There is room for the whole chain, and so far each pass has committed a state. */
  ghost predicate Roomy(vec: Numbering, t: Tables, states0: seq<State>, log0: seq<Commit>, states: seq<State>, log: seq<Commit>,
                        toDealloc: seq<Addr>, passes: nat)
  {
    |log| == |log0| + passes && |toDealloc| == passes && RoomForStates(vec, t, states) && states0 == StatesOf(log[|log0|..]) + states
  }

  /** Then so does the next one. */
  lemma RoomyTurn(vec: Numbering, nlpm: nat, before: Tables, after: Tables, states0: seq<State>, log0: seq<Commit>,
                  states: seq<State>, states': seq<State>, hosts: seq<Addr>, hosts': seq<Addr>, log: seq<Commit>, log': seq<Commit>,
                  toDealloc: seq<Addr>, toDealloc': seq<Addr>, turn: Turn, passes: nat)
    requires states != [] && |toDealloc| <= MAX_STATES_READ && Roomy(vec, before, states0, log0, states, log, toDealloc, passes)
    requires TurnOk(turn, states, hosts, states', hosts', toDealloc, toDealloc')
    requires !turn.Wait? && |log'| > 0 && log' == log + [log'[|log'| - 1]] && CommitOk(vec, nlpm, log'[|log'| - 1])
    requires log'[|log'| - 1].st == states[0] && log'[|log'| - 1].before == before && log'[|log'| - 1].after == after
    ensures turn.Next? ==> Roomy(vec, after, states0, log0, states', log', toDealloc', passes + 1)
    ensures turn.Last? ==> EndedRoomy(states0, log0, log', turn.outcome)
    ensures turn.Next? ==> passes + 1 < |states0|
  {
    var c := log'[|log'| - 1];
    if turn.Next? { RoomForRest(vec, nlpm, c, states); }
    assert log'[|log0|..] == log[|log0|..] + [c];
    OneMoreState(log[|log0|..], c, states);
  }

  lemma OneMoreState(log: seq<Commit>, c: Commit, states: seq<State>)
    requires states != [] && c.st == states[0]
    ensures StatesOf(log) + states == StatesOf(log + [c]) + states[1..]
    ensures |states| == 1 ==> StatesOf(log) + states == StatesOf(log + [c])
    ensures |StatesOf(log)| == |log|
  {
    assert StatesOf(log + [c]) == StatesOf(log) + [states[0]];
    assert states == [states[0]] + states[1..];
  }

  /** Every commit since then is in order. */
  ghost predicate AllCommitted(vec: Numbering, nlpm: nat, before: seq<Commit>, log: seq<Commit>) {
    before <= log && forall i :: |before| <= i < |log| ==> CommitOk(vec, nlpm, log[i])
  }

  lemma HostsKept(before: seq<Addr>, after: seq<Addr>, all: seq<Addr>, done: seq<Addr>)
    requires before <= after && before != [] && all <= done + before[1..]
    ensures all <= done + after[1..]
  {
    assert done + before[1..] <= done + after[1..];
  }

  lemma HostRead(hosts: seq<Addr>, done: seq<Addr>)
    requires |hosts| > 1
    ensures done + hosts[1..] == done + [hosts[1]] + hosts[1..][1..]
  {
  }
}
