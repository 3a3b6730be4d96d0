/** The allocator that allocates for the allocator: it carves slots out of fresh regions without
    touching any table, and keeps account of them until they are committed. */
module Bootstrap {
  import opened Region
  import opened Chunks

  datatype MaybeAddr = NoAddr | SomeAddr(addr: Addr)

  datatype MaybeChunk = NoChunk | SomeChunk(owner: nat, ptr: Addr)

  // ----- counting -----

  lemma TakeFreeUnits(states: seq<State>, out: seq<nat>, i: nat, large: bool)
    requires AllUnitsOk(states, out) && i < |states| && FreeOf(states[i], large) != []
    ensures AllUnitsOk(TakeFree(states, i, large), out[i := out[i] + if large then COMMON_CHUNKS_IN_LARGE_CHUNK else 1])
  {
    var states', out' := TakeFree(states, i, large), out[i := out[i] + if large then COMMON_CHUNKS_IN_LARGE_CHUNK else 1];
    forall k | 0 <= k < |states'| ensures UnitsOk(states'[k], out'[k]) { assert UnitsOk(states[k], out[k]); }
  }

  lemma PutInUseUnits(states: seq<State>, out: seq<nat>, i: nat, large: bool, c: Addr, size: nat)
    requires AllUnitsOk(states, out) && i < |states| && 0 < size <= ChunkSize(large)
    requires out[i] >= if large then COMMON_CHUNKS_IN_LARGE_CHUNK else 1
    ensures AllUnitsOk(PutInUse(states, i, large, c, size), out[i := out[i] - if large then COMMON_CHUNKS_IN_LARGE_CHUNK else 1])
  {
    var states' := PutInUse(states, i, large, c, size);
    var out' := out[i := out[i] - if large then COMMON_CHUNKS_IN_LARGE_CHUNK else 1];
    forall k | 0 <= k < |states'| ensures UnitsOk(states'[k], out'[k]) { assert UnitsOk(states[k], out[k]); }
  }

  lemma TakeSlotUnits(states: seq<State>, out: seq<nat>, i: nat, large: bool, j: nat)
    requires AllUnitsOk(states, out) && i < |states| && j < |UsedOf(states[i], large)| && UsedOf(states[i], large)[j].free > 0
    ensures AllUnitsOk(TakeSlot(states, i, large, j), out)
  {
    var states' := TakeSlot(states, i, large, j);
    forall k | 0 <= k < |states'| ensures UnitsOk(states'[k], out[k]) { assert UnitsOk(states[k], out[k]); }
  }

  // ----- at most one -----

  /** A chunk that is not in use does not count. */
  lemma AtMostOneKept(roles: Roles, roles': Roles)
    requires AtMostOne(roles)
    requires forall c :: c in roles' && roles'[c].InUse? && roles'[c].free > 0 ==> HasFree(roles, c, roles'[c].size)
    ensures AtMostOne(roles') && forall size :: NoneFree(roles, size) ==> NoneFree(roles', size)
  {
    forall c, d ensures OnlyOne(roles', c, d) { assert OnlyOne(roles, c, d); }
    forall size, c | NoneFree(roles, size) ensures !HasFree(roles', c, size) { assert !HasFree(roles, c, size); }
  }

  /** A new chunk for a size of which no chunk had free slots. */
  lemma AtMostOneAdded(roles: Roles, c: Addr, r: Role)
    requires AtMostOne(roles) && r.InUse? && NoneFree(roles, r.size)
    requires c in roles ==> !roles[c].InUse?
    ensures AtMostOne(roles[c := r])
    ensures forall size :: size != r.size && NoneFree(roles, size) ==> NoneFree(roles[c := r], size)
  {
    var roles' := roles[c := r];
    forall d, e ensures OnlyOne(roles', d, e) {
      assert OnlyOne(roles, d, e) && !HasFree(roles, d, r.size) && !HasFree(roles, e, r.size);
    }
    forall size, d | size != r.size && NoneFree(roles, size) ensures !HasFree(roles', d, size) { assert !HasFree(roles, d, size); }
  }

  /** If one had, there are two now. */
  lemma AddedIff(roles: Roles, c: Addr, r: Role)
    requires r.InUse? && r.free > 0 && (c in roles ==> !roles[c].InUse?)
    ensures HasFree(roles[c := r], c, r.size)
    ensures NoneFree(roles, r.size) && AtMostOne(roles) ==> AtMostOne(roles[c := r])
    ensures !NoneFree(roles, r.size) ==> !AtMostOne(roles[c := r])
    ensures forall z :: z != r.size && NoneFree(roles, z) ==> NoneFree(roles[c := r], z)
  {
    if NoneFree(roles, r.size) && AtMostOne(roles) { AtMostOneAdded(roles, c, r); }
    if !NoneFree(roles, r.size) {
      var d :| HasFree(roles, d, r.size);
      assert HasFree(roles[c := r], d, r.size) && !OnlyOne(roles[c := r], c, d);
    }
    var roles' := roles[c := r];
    forall z, d | z != r.size && NoneFree(roles, z) ensures !HasFree(roles', d, z) { assert !HasFree(roles, d, z); }
  }

  /** The whole invariant when a chunk goes into use. */
  lemma PutInUseChain(states: seq<State>, roles: Roles, given: set<Slot>, out: seq<nat>, regions: set<Addr>, sizes: set<nat>,
                      i: nat, large: bool, c: Addr, size: nat)
    requires ChainOk(states, roles, given, out, regions) && InUseFor(roles, sizes) && size in sizes
    requires i < |states| && 0 < size <= LARGE_SIZE_MAX && large == (size > COMMON_SIZE_MAX)
    requires c in roles && roles[c] == Loose(large, i) && out[i] >= if large then COMMON_CHUNKS_IN_LARGE_CHUNK else 1
    ensures var n := ChunkSize(large) / size - 1;
            var roles' := roles[c := InUse(large, size, n, i, |UsedOf(states[i], large)|)];
            && n > 0 && Slot(c, size, n) !in given && InUseFor(roles', sizes) && NotShorter(states, PutInUse(states, i, large, c, size))
            && ChainOk(PutInUse(states, i, large, c, size), roles', given + {Slot(c, size, n)},
                       out[i := out[i] - if large then COMMON_CHUNKS_IN_LARGE_CHUNK else 1], regions)
  {
    PutInUseCore(states, roles, given, regions, i, large, c, size);
    PutInUseUnits(states, out, i, large, c, size);
    assert ChunkSize(large) / size - 1 > 0;
  }

  /** The pieces of a chunk that is in no list are free, and other chunks stay what they are. */
  lemma RefillSameFree(roles: Roles, c: Addr, i: nat)
    requires Apart(roles) && c in roles && roles[c] == Loose(true, i)
    ensures forall z, d :: HasFree(roles + PieceRoles(c, i), d, z) == HasFree(roles, d, z)
    ensures forall d :: d in roles && d != c ==> d !in PieceRoles(c, i)
  {
    forall d | d in roles && d != c ensures d !in PieceRoles(c, i) {
      assert Separate(roles, c, d);
      PieceInside(c, i, d);
    }
  }

  class StateChain {
    var states: seq<State>
    /** The slots that the states are in; the first one is not in a slot. */
    var hosts: seq<Addr>
    /** The size of a state itself. */
    const stateSize: nat
    /** The sizes that the chain is asked for, its own among them. */
    const sizes: set<nat>
    ghost var roles: Roles
    ghost var given: set<Slot>
    ghost var out: seq<nat>
    /** The blocks that the system has mapped. */
    var regions: set<Addr>

    ghost predicate Valid()
      reads this
    {
      && ChainOk(states, roles, given, out, regions) && COMMON_SIZE_MAX < stateSize <= LARGE_SIZE_MAX
      && stateSize in sizes && InUseFor(roles, sizes) && |hosts| == |states|
    }

    /** A state for a fresh region. */
    constructor (region: Addr, stateSize: nat, sizes: set<nat>)
      requires region % REGION_SIZE == 0 && COMMON_SIZE_MAX < stateSize <= LARGE_SIZE_MAX && stateSize in sizes
      ensures Valid() && AtMostOne(roles) && given == {} && states == [NewState(region)] && out == [0] && regions == {region}
      ensures this.stateSize == stateSize && this.sizes == sizes && forall size :: NoneFree(roles, size)
    {
      var st := FromRegion(region);
      states, hosts, this.stateSize, this.sizes := [st], [0], stateSize, sizes;
      roles, given, out, regions := NewRoles(region, 0), {}, [0], {region};
      AddStateCore([], map[], {}, {}, region);
      assert [] + [NewState(region)] == [st] && map[] + NewRoles(region, 0) == NewRoles(region, 0) && {} + {region} == {region};
      forall c, d ensures OnlyOne(NewRoles(region, 0), c, d) {}
      forall c, size ensures !HasFree(NewRoles(region, 0), c, size) {}
    }

    static method FromRegion(region: Addr) returns (st: State)
      ensures st == NewState(region)
    {
      var common, large := ParseRegion(region);
      st := State(region, common, large, [], []);
    }

    /** What the system may answer when it is asked for a region: a fresh aligned block, or a refusal. */
    predicate Answer(r: MaybeAddr)
      reads this
    {
      r.SomeAddr? ==> r.addr % REGION_SIZE == 0 && r.addr !in regions
    }

    /** One of the answers. */
    method AskSystem() returns (r: MaybeAddr)
      ensures Answer(r)
    {
      if * {
        r := NoAddr;
      } else {
        FreshRegion(regions);
        var a: Addr :| a % REGION_SIZE == 0 && a !in regions;
        r := SomeAddr(a);
      }
    }

    /** Takes the first state off the chain; its slots and chunks are no longer the chain's. */
    method TakeFirst() returns (st: State)
      requires Valid() && |states| > 1
      modifies this`states, this`hosts, this`roles, this`given, this`out
      ensures Valid() && st == old(states)[0] && states == old(states)[1..] && hosts == old(hosts)[1..] && (AtMostOne(old(roles)) ==> AtMostOne(roles))
    {
      DropFirst(states, roles, given, out, regions);
      st := states[0];
      states, hosts, out := states[1..], hosts[1..], out[1..];
      roles := RolesAfterFirst(roles);
      given := set x | x in given && x.chunk in roles;
    }

    // ----- slots of chunks in use -----

    /** A free slot of a chunk that is in use for objects of this size, anywhere in the chain. */
    method TryAllocSize(size: nat) returns (r: MaybeAddr, ghost x: Slot)
      requires Valid() && 0 < size <= LARGE_SIZE_MAX
      modifies this`states, this`roles, this`given
      ensures NotShorter(old(states), states)
      ensures Valid() && |states| == |old(states)| && out == old(out) && (AtMostOne(old(roles)) ==> AtMostOne(roles))
      ensures forall i :: 0 <= i < |states| ==> SameFree(states[i], old(states)[i])
      ensures match r
              case NoAddr => states == old(states) && roles == old(roles) && given == old(given) && NoneFree(roles, size)
              case SomeAddr(a) =>
                && x !in old(given) && given == old(given) + {x} && x.size == size && SlotAddr(x) == a
                && !NoneFree(old(roles), size) && forall z :: NoneFree(old(roles), z) ==> NoneFree(roles, z)
    {
      var large := size > COMMON_SIZE_MAX;
      for t := 0 to |states|
        invariant Valid() && states == old(states) && roles == old(roles) && given == old(given)
        invariant forall k, j :: 0 <= k < t && 0 <= j < |UsedOf(states[k], large)| ==> !Matches(UsedOf(states[k], large)[j], size)
      {
        var used := UsedOf(states[t], large);
        for j := 0 to |used|
          invariant Valid() && states == old(states) && roles == old(roles) && given == old(given)
          invariant forall i :: 0 <= i < j ==> !Matches(used[i], size)
        {
          if used[j].size == size && used[j].free != 0 {
            r, x := TakeSlotAt(t, large, j);
            return;
          }
        }
      }
      r, x := NoAddr, Slot(0, size, 0);
      forall c ensures !HasFree(roles, c, size) {
        if c in roles { assert RoleOk(states, roles, c); }
      }
    }

    method TakeSlotAt(t: nat, large: bool, j: nat) returns (r: MaybeAddr, ghost x: Slot)
      requires Valid() && t < |states| && j < |UsedOf(states[t], large)| && UsedOf(states[t], large)[j].free > 0
      modifies this`states, this`roles, this`given
      ensures NotShorter(old(states), states)
      ensures Valid() && |states| == |old(states)| && (AtMostOne(old(roles)) ==> AtMostOne(roles))
      ensures forall i :: 0 <= i < |states| ==> SameFree(states[i], old(states)[i])
      ensures x !in old(given) && given == old(given) + {x} && x.size == UsedOf(old(states)[t], large)[j].size && r == SomeAddr(SlotAddr(x))
      ensures !NoneFree(old(roles), x.size) && forall z :: NoneFree(old(roles), z) ==> NoneFree(roles, z)
    {
      ghost var states0, roles0 := states, roles;
      var used := UsedOf(states[t], large);
      var u := used[j];
      TakeSlotCore(states, roles, given, regions, t, large, j);
      TakeSlotUnits(states, out, t, large, j);
      x := Slot(u.ptr, u.size, u.free - 1);
      states := states[t := WithUsed(states[t], large, used[j := u.(free := u.free - 1)])];
      roles, given := roles[u.ptr := InUse(large, u.size, u.free - 1, t, j)], given + {x};
      r := SomeAddr(u.ptr + (u.free - 1) * u.size);
      assert HasFree(roles0, u.ptr, u.size);
      forall i | 0 <= i < |states| ensures SameFree(states[i], states0[i]) && states[i].region == states0[i].region {}
      if AtMostOne(roles0) { AtMostOneKept(roles0, roles); }
      forall z, c | NoneFree(roles0, z) ensures !HasFree(roles, c, z) { assert !HasFree(roles0, c, z); }
    }

    // ----- chunks -----

    /** A new state at the end of the chain, for the region that the system gives. It lives in a slot of
        the chain if there is one, and in its own region otherwise. */
    method AllocNewState(answer: MaybeAddr) returns (ok: bool, ghost x: Slot)
      requires Valid() && Answer(answer) && states[|states| - 1].freeLarge == []
      modifies this
      ensures NotShorter(old(states), states)
      ensures Valid() && (AtMostOne(old(roles)) ==> AtMostOne(roles))
      ensures ok == answer.SomeAddr?
      ensures !ok ==> unchanged(this)
      ensures ok ==>
        && states[|states| - 1].region == answer.addr && regions == old(regions) + {answer.addr} && |states| == |old(states)| + 1 && out == old(out) + [0] && hosts == old(hosts) + [SlotAddr(x)]
        && (forall i :: 0 <= i < |states| - 1 ==> SameFree(states[i], old(states)[i]))
        && states[|states| - 1].freeLarge != [] && |states[|states| - 1].freeCommon| == REST_COMMON_CHUNKS_IN_REGION
        && x !in old(given) && given == old(given) + {x} && x.size == stateSize
        && (forall z :: z != stateSize && NoneFree(old(roles), z) ==> NoneFree(roles, z))
        && (NoneFree(old(roles), stateSize) ==> !NoneFree(roles, stateSize))
    {
      if answer.NoAddr? { return false, Slot(0, 0, 0); }
      var st := FromRegion(answer.addr);
      var r;
      r, x := TryAllocSize(stateSize);
      AddState(st);
      if r.NoAddr? { r, x := HostItself(); }
      hosts := hosts[|states| - 1 := r.addr];
      ok := true;
    }

    method AddState(st: State)
      requires Valid() && st == NewState(st.region) && st.region % REGION_SIZE == 0 && st.region !in regions
      requires states[|states| - 1].freeLarge == []
      modifies this`states, this`hosts, this`roles, this`out, this`regions
      ensures NotShorter(old(states), states)
      ensures Valid() && states == old(states) + [st] && out == old(out) + [0] && hosts == old(hosts) + [0]
      ensures regions == old(regions) + {st.region}
      ensures forall z :: NoneFree(old(roles), z) <==> NoneFree(roles, z)
      ensures AtMostOne(old(roles)) ==> AtMostOne(roles)
    {
      ghost var roles0 := roles;
      AddStateCore(states, roles, given, regions, st.region);
      roles := roles + NewRoles(st.region, |states|);
      forall k | 0 <= k < |states + [st]| ensures UnitsOk((states + [st])[k], (out + [0])[k]) {
        if k < |states| { assert UnitsOk(states[k], out[k]); }
      }
      states, hosts, out, regions := states + [st], hosts + [0], out + [0], regions + {st.region};
      forall z, c ensures HasFree(roles, c, z) == HasFree(roles0, c, z) {}
      if AtMostOne(roles0) { AtMostOneKept(roles0, roles); }
    }

    /** The last state, new, finds room for itself in its own region. */
    method HostItself() returns (r: MaybeAddr, ghost x: Slot)
      requires Valid() && states[|states| - 1].freeLarge != [] && NoneFree(roles, stateSize)
      modifies this`states, this`roles, this`given, this`out
      ensures NotShorter(old(states), states)
      ensures Valid() && |states| == |old(states)| && out == old(out) && (AtMostOne(old(roles)) ==> AtMostOne(roles))
      ensures forall i :: 0 <= i < |states| - 1 ==> states[i] == old(states)[i]
      ensures |states[|states| - 1].freeLarge| == |old(states)[|states| - 1].freeLarge| - 1
      ensures states[|states| - 1].freeCommon == old(states)[|states| - 1].freeCommon
      ensures x !in old(given) && given == old(given) + {x} && x.size == stateSize && r == SomeAddr(SlotAddr(x))
      ensures forall z :: z != stateSize && NoneFree(old(roles), z) ==> NoneFree(roles, z)
      ensures !NoneFree(roles, stateSize)
    {
      var last := |states| - 1;
      var c := PopFree(last, true);
      var a;
      a, x := PushUsed(last, true, c, stateSize);
      r := SomeAddr(a);
      assert HasFree(roles, c, stateSize);
    }

    method PopFree(i: nat, large: bool) returns (c: Addr)
      requires Valid() && i < |states| && FreeOf(states[i], large) != []
      modifies this`states, this`roles, this`out
      ensures NotShorter(old(states), states)
      ensures Valid() && (AtMostOne(old(roles)) ==> AtMostOne(roles))
      ensures c in old(roles) && old(roles)[c].Free? && roles == old(roles)[c := Loose(large, i)]
      ensures states == TakeFree(old(states), i, large)
      ensures out == old(out)[i := old(out)[i] + if large then COMMON_CHUNKS_IN_LARGE_CHUNK else 1]
      ensures forall z :: NoneFree(old(roles), z) <==> NoneFree(roles, z)
    {
      ghost var roles0 := roles;
      TakeFreeCore(states, roles, given, regions, i, large);
      TakeFreeUnits(states, out, i, large);
      var free := FreeOf(states[i], large);
      c := free[|free| - 1];
      states := states[i := WithFree(states[i], large, free[..|free| - 1])];
      roles, out := roles[c := Loose(large, i)], out[i := out[i] + if large then COMMON_CHUNKS_IN_LARGE_CHUNK else 1];
      forall z, d ensures HasFree(roles, d, z) == HasFree(roles0, d, z) {}
      if AtMostOne(roles0) { AtMostOneKept(roles0, roles); }
    }

    /** A loose chunk goes into use for one size, and its last slot is handed out. */
    method PushUsed(i: nat, large: bool, c: Addr, size: nat) returns (a: Addr, ghost x: Slot)
      requires Valid() && i < |states| && 0 < size <= LARGE_SIZE_MAX && size in sizes && large == (size > COMMON_SIZE_MAX)
      requires c in roles && roles[c] == Loose(large, i) && out[i] >= if large then COMMON_CHUNKS_IN_LARGE_CHUNK else 1
      modifies this`states, this`roles, this`given, this`out
      ensures NotShorter(old(states), states)
      ensures Valid() && states == PutInUse(old(states), i, large, c, size)
      ensures out == old(out)[i := old(out)[i] - if large then COMMON_CHUNKS_IN_LARGE_CHUNK else 1]
      ensures x !in old(given) && given == old(given) + {x} && x.size == size && x.chunk == c && a == SlotAddr(x)
      ensures HasFree(roles, c, size)
      ensures forall d :: d != c ==> (d in roles <==> d in old(roles)) && (d in roles ==> roles[d] == old(roles)[d])
      ensures NoneFree(old(roles), size) && AtMostOne(old(roles)) ==> AtMostOne(roles)
      ensures !NoneFree(old(roles), size) ==> !AtMostOne(roles)
      ensures forall z :: z != size && NoneFree(old(roles), z) ==> NoneFree(roles, z)
    {
      var n := ChunkSize(large) / size - 1;
      ghost var role := InUse(large, size, n, i, |UsedOf(states[i], large)|);
      PutInUseChain(states, roles, given, out, regions, sizes, i, large, c, size);
      AddedIff(roles, c, role);
      x, a := Slot(c, size, n), c + n * size;
      states := states[i := WithUsed(states[i], large, UsedOf(states[i], large) + [Used(size, c, n)])];
      roles, given, out := roles[c := role], given + {x}, out[i := out[i] - if large then COMMON_CHUNKS_IN_LARGE_CHUNK else 1];
    }

    /** The chain takes what the system gives if it grows, and maps nothing otherwise. */
    twostate predicate Asked(answer: MaybeAddr)
      reads this
    {
      if GrewFrom(old(states)) then
        answer.SomeAddr? && |states| > 0 && states[|states| - 1].region == answer.addr && regions == old(regions) + {answer.addr}
      else regions == old(regions)
    }

    /** What taking a chunk may do besides: at most one region is added, and only if the chain has no
        large chunk left; then the new state takes one slot for itself. */
    twostate predicate TookChunk(x: Slot, answer: MaybeAddr)
      reads this
    {
      && |old(states)| > 0 && |old(out)| == |old(states)|
      && |states| == |old(states)| + (if GrewFrom(old(states)) then 1 else 0) && |out| == |states|
      && Asked(answer)
      && SameUsed(old(states), states) && hosts == old(hosts) + (if GrewFrom(old(states)) then [SlotAddr(x)] else [])
      && (AtMostOne(old(roles)) ==> AtMostOne(roles))
      && (forall z :: (z != stateSize || !GrewFrom(old(states))) && NoneFree(old(roles), z) ==> NoneFree(roles, z))
      && (if GrewFrom(old(states)) then
            && x !in old(given) && given == old(given) + {x} && x.size == stateSize
            && (NoneFree(old(roles), stateSize) ==> !NoneFree(roles, stateSize))
          else given == old(given) && forall z :: NoneFree(roles, z) ==> NoneFree(old(roles), z))
    }

    ghost predicate GrewFrom(before: seq<State>)
      reads this
    {
      |states| > |before|
    }

    /** A large chunk, from state `i` on. */
    method GetFreeLargeChunk(i: nat, answer: MaybeAddr) returns (r: MaybeChunk, ghost x: Slot)
      requires Valid() && i < |states| && Answer(answer)
      modifies this
      ensures NotShorter(old(states), states)
      ensures Valid()
      ensures r.NoChunk? <==> answer.NoAddr? && old(states)[|old(states)| - 1].freeLarge == []
      ensures r.NoChunk? ==> unchanged(this)
      ensures r.SomeChunk? ==>
        && TookChunk(x, answer) && r.owner == |states| - 1 && r.ptr in roles && roles[r.ptr] == Loose(true, r.owner)
        && (GrewFrom(old(states)) <==> old(states)[|old(states)| - 1].freeLarge == [])
        && (if GrewFrom(old(states)) then out == old(out) + [COMMON_CHUNKS_IN_LARGE_CHUNK] && |states[r.owner].freeCommon| == REST_COMMON_CHUNKS_IN_REGION
            else out == old(out)[r.owner := old(out)[r.owner] + COMMON_CHUNKS_IN_LARGE_CHUNK] && states[r.owner].freeCommon == old(states)[r.owner].freeCommon)
      decreases if states[i].freeLarge != [] then 0 else |states| - i + 1
    {
      assert forall k {:trigger states[k]} :: 0 <= k < |states| - 1 ==> states[k].freeLarge == [];
      if states[i].freeLarge != [] {
        var c := PopFree(i, true);
        return SomeChunk(i, c), Slot(0, 0, 0);
      }
      if i + 1 < |states| {
        r, x := GetFreeLargeChunk(i + 1, answer);
        return;
      }
      r, x := FromNewState(answer);
    }

    /** The last state has no large chunk, so one is taken from a new state. */
    method FromNewState(answer: MaybeAddr) returns (r: MaybeChunk, ghost x: Slot)
      requires Valid() && Answer(answer) && states[|states| - 1].freeLarge == []
      modifies this
      ensures NotShorter(old(states), states)
      ensures Valid()
      ensures r.NoChunk? <==> answer.NoAddr?
      ensures r.NoChunk? ==> unchanged(this)
      ensures r.SomeChunk? ==>
        && TookChunk(x, answer) && GrewFrom(old(states)) && r.owner == |states| - 1 && r.ptr in roles && roles[r.ptr] == Loose(true, r.owner)
        && out == old(out) + [COMMON_CHUNKS_IN_LARGE_CHUNK] && |states[r.owner].freeCommon| == REST_COMMON_CHUNKS_IN_REGION
    {
      var ok;
      ok, x := AllocNewState(answer);
      if !ok { return NoChunk, x; }
      var c := PopFree(|states| - 1, true);
      r := SomeChunk(|states| - 1, c);
    }

    /** Divides a loose large chunk into the free common chunks of the state that has none. */
    method Refill(i: nat, c: Addr)
      requires Valid() && i < |states| && states[i].freeCommon == [] && c in roles && roles[c] == Loose(true, i)
      requires out[i] >= COMMON_CHUNKS_IN_LARGE_CHUNK
      modifies this`states, this`roles, this`out
      ensures NotShorter(old(states), states) && SameUsed(old(states), states)
      ensures Valid() && |states| == |old(states)| && |states[i].freeCommon| == COMMON_CHUNKS_IN_LARGE_CHUNK
      ensures out == old(out)[i := old(out)[i] - COMMON_CHUNKS_IN_LARGE_CHUNK]
      ensures AtMostOne(old(roles)) ==> AtMostOne(roles)
      ensures forall z :: NoneFree(old(roles), z) <==> NoneFree(roles, z)
    {
      ghost var roles0, states0, out0 := roles, states, out;
      var pieces := SplitLargeChunkToCommon(c);
      RefillCore(states, roles, given, regions, i, c, pieces);
      states := states[i := states[i].(freeCommon := pieces)];
      roles, out := roles + PieceRoles(c, i), out[i := out[i] - COMMON_CHUNKS_IN_LARGE_CHUNK];
      forall k | 0 <= k < |states| ensures UnitsOk(states[k], out[k]) { assert UnitsOk(states0[k], out0[k]); }
      RefillSameFree(roles0, c, i);
      if AtMostOne(roles0) { AtMostOneKept(roles0, roles); }
    }

    /** A common chunk, from state `i` on. When that needs a new region, the large chunk taken for
        dividing is not needed after all, and is in no list any more. */
    method GetFreeCommonChunk(i: nat, answer: MaybeAddr) returns (r: MaybeChunk, ghost x: Slot)
      requires Valid() && i < |states| && Answer(answer)
      modifies this
      ensures NotShorter(old(states), states)
      ensures Valid()
      ensures r.NoChunk? <==> answer.NoAddr? && NoCommonFrom(old(states), i)
      ensures r.NoChunk? ==> unchanged(this)
      ensures r.SomeChunk? ==>
        && TookChunk(x, answer) && r.owner < |states| && r.ptr in roles && roles[r.ptr] == Loose(false, r.owner)
        && (GrewFrom(old(states)) <==> NoCommonFrom(old(states), i))
        && (if GrewFrom(old(states)) then r.owner == |states| - 1 && out == old(out) + [COMMON_CHUNKS_IN_LARGE_CHUNK + 1]
            else out == old(out)[r.owner := old(out)[r.owner] + 1])
      decreases if states[i].freeCommon != [] then 0 else |states| - i + 1
    {
      if states[i].freeCommon != [] {
        r := TakeCommon(i, answer);
        return r, Slot(0, 0, 0);
      }
      if i + 1 < |states| {
        r, x := GetFreeCommonChunk(i + 1, answer);
        return;
      }
      r, x := DivideLargeChunk(i, answer);
    }

    method TakeCommon(i: nat, ghost answer: MaybeAddr) returns (r: MaybeChunk)
      requires Valid() && i < |states| && states[i].freeCommon != []
      modifies this`states, this`roles, this`out
      ensures NotShorter(old(states), states)
      ensures Valid() && r.SomeChunk? && r.owner == i && r.ptr in roles && roles[r.ptr] == Loose(false, i)
      ensures TookChunk(Slot(0, 0, 0), answer) && !GrewFrom(old(states)) && out == old(out)[i := old(out)[i] + 1]
    {
      var c := PopFree(i, false);
      r := SomeChunk(i, c);
    }

    /** The last state has no common chunk. A large one is taken for dividing: from that state, or
        from a new one, which has common chunks to begin with. */
    method DivideLargeChunk(i: nat, answer: MaybeAddr) returns (r: MaybeChunk, ghost x: Slot)
      requires Valid() && Answer(answer) && i == |states| - 1 && states[i].freeCommon == []
      modifies this
      ensures NotShorter(old(states), states)
      ensures Valid()
      ensures r.NoChunk? <==> answer.NoAddr? && old(states)[i].freeLarge == []
      ensures r.NoChunk? ==> unchanged(this)
      ensures r.SomeChunk? ==>
        && TookChunk(x, answer) && r.owner == |states| - 1 && r.ptr in roles && roles[r.ptr] == Loose(false, r.owner)
        && (GrewFrom(old(states)) <==> old(states)[i].freeLarge == [])
        && (if GrewFrom(old(states)) then out == old(out) + [COMMON_CHUNKS_IN_LARGE_CHUNK + 1]
            else out == old(out)[r.owner := old(out)[r.owner] + 1])
    {
      var l;
      l, x := GetFreeLargeChunk(i, answer);
      if l.NoChunk? { return NoChunk, x; }
      if states[l.owner].freeCommon == [] {
        Refill(l.owner, l.ptr);
      }
      var c := PopFree(l.owner, false);
      r := SomeChunk(l.owner, c);
    }

    /** Slot `y` was handed out to the caller and, if a region was added, `x` to the new state, which is in it. Units
        that left the lists are back in them, except that a common chunk from a new region costs a
        large one. */
    twostate predicate GaveSlot(y: Slot, x: Slot, size: nat, a: Addr)
      reads this
    {
      && |old(states)| > 0 && |old(out)| == |old(states)|
      && |states| == |old(states)| + (if GrewFrom(old(states)) then 1 else 0)
      && hosts == old(hosts) + (if GrewFrom(old(states)) then [SlotAddr(x)] else [])
      && y !in old(given) && y.size == size && SlotAddr(y) == a
      && given == old(given) + {y} + (if GrewFrom(old(states)) then {x} else {})
      && (GrewFrom(old(states)) ==> x !in old(given) && x != y && x.size == stateSize)
      && out == if GrewFrom(old(states)) then old(out) + [if size <= COMMON_SIZE_MAX then COMMON_CHUNKS_IN_LARGE_CHUNK else 0] else old(out)
    }

    /** The chain has nothing left for an object of this size: no slot, no chunk, and no large chunk
        to take or to divide. */
    ghost predicate MustGrow(size: nat)
      requires |states| > 0
      reads this
    {
      NoneFree(roles, size) && if size <= COMMON_SIZE_MAX then NoCommonFrom(states, 0) else states[|states| - 1].freeLarge == []
    }

    /** A slot of a new chunk for this size. */
    method AllocSizeSlow(size: nat, answer: MaybeAddr) returns (r: MaybeAddr, ghost y: Slot, ghost x: Slot)
      requires Valid() && Answer(answer) && 0 < size <= LARGE_SIZE_MAX && size in sizes && NoneFree(roles, size)
      modifies this
      ensures NotShorter(old(states), states)
      ensures Valid()
      ensures r.NoAddr? <==> answer.NoAddr? && old(MustGrow(size))
      ensures match r
              case NoAddr => unchanged(this)
              case SomeAddr(a) =>
                && Asked(answer) && GaveSlot(y, x, size, a) && (GrewFrom(old(states)) <==> old(MustGrow(size)))
                && (AtMostOne(old(roles)) ==> (AtMostOne(roles) <==> !(old(MustGrow(size)) && size == stateSize)))
    {
      if size <= COMMON_SIZE_MAX { r, y, x := AllocCommonSlow(size, answer); } else { r, y, x := AllocLargeSlow(size, answer); }
    }

    method AllocCommonSlow(size: nat, answer: MaybeAddr) returns (r: MaybeAddr, ghost y: Slot, ghost x: Slot)
      requires Valid() && Answer(answer) && 0 < size <= LARGE_SIZE_MAX && size in sizes && NoneFree(roles, size) && size <= COMMON_SIZE_MAX
      modifies this
      ensures NotShorter(old(states), states)
      ensures Valid()
      ensures r.NoAddr? <==> answer.NoAddr? && old(MustGrow(size))
      ensures match r
              case NoAddr => unchanged(this)
              case SomeAddr(a) =>
                && Asked(answer) && GaveSlot(y, x, size, a) && (GrewFrom(old(states)) <==> old(MustGrow(size)))
                && (AtMostOne(old(roles)) ==> (AtMostOne(roles) <==> !(old(MustGrow(size)) && size == stateSize)))
    {
      var chunk;
      chunk, x := GetFreeCommonChunk(0, answer);
      if chunk.NoChunk? { return NoAddr, x, x; }
      ghost var out1 := out;
      var a;
      a, y := PushUsed(chunk.owner, false, chunk.ptr, size);
      r := SomeAddr(a);
      assert out == if GrewFrom(old(states)) then old(out) + [COMMON_CHUNKS_IN_LARGE_CHUNK] else old(out) by {
        assert out == out1[chunk.owner := out1[chunk.owner] - 1];
      }
    }

    method AllocLargeSlow(size: nat, answer: MaybeAddr) returns (r: MaybeAddr, ghost y: Slot, ghost x: Slot)
      requires Valid() && Answer(answer) && 0 < size <= LARGE_SIZE_MAX && size in sizes && NoneFree(roles, size) && size > COMMON_SIZE_MAX
      modifies this
      ensures NotShorter(old(states), states)
      ensures Valid()
      ensures r.NoAddr? <==> answer.NoAddr? && old(MustGrow(size))
      ensures match r
              case NoAddr => unchanged(this)
              case SomeAddr(a) =>
                && Asked(answer) && GaveSlot(y, x, size, a) && (GrewFrom(old(states)) <==> old(MustGrow(size)))
                && (AtMostOne(old(roles)) ==> (AtMostOne(roles) <==> !(old(MustGrow(size)) && size == stateSize)))
    {
      var chunk;
      chunk, x := GetFreeLargeChunk(0, answer);
      if chunk.NoChunk? { return NoAddr, x, x; }
      var a;
      a, y := PushUsed(chunk.owner, true, chunk.ptr, size);
      r := SomeAddr(a);
    }

    /** Allocates from the chain: a free slot of a chunk in use for this size, or a new chunk's. It fails exactly
        if the chain has neither and the system refuses a region. Each call adds one region at most. At most one chunk of each size has free slots afterwards if
        that was so before, unless the chain had to grow for an object of a state's own size. */
    method AllocSize(size: nat, answer: MaybeAddr) returns (r: MaybeAddr, ghost y: Slot, ghost x: Slot)
      requires Valid() && Answer(answer) && 0 < size <= LARGE_SIZE_MAX && size in sizes
      modifies this
      ensures NotShorter(old(states), states)
      ensures Valid()
      ensures r.NoAddr? <==> answer.NoAddr? && old(MustGrow(size))
      ensures match r
              case NoAddr => unchanged(this)
              case SomeAddr(a) =>
                && Asked(answer) && GaveSlot(y, x, size, a) && (GrewFrom(old(states)) <==> old(MustGrow(size)))
                && (AtMostOne(old(roles)) ==> (AtMostOne(roles) <==> !(old(MustGrow(size)) && size == stateSize)))
    {
      r, y := TryAllocSize(size);
      x := y;
      if r.SomeAddr? { return; }
      r, y, x := AllocSizeSlow(size, answer);
    }
  }

  /** Chunks are in use for these sizes only. */
  ghost predicate InUseFor(roles: Roles, sizes: set<nat>) {
    forall c :: c in roles && roles[c].InUse? ==> roles[c].size in sizes
  }

  /** The states are still there, each with its region, and no list of used chunks got shorter. */
  ghost predicate NotShorter(before: seq<State>, after: seq<State>) {
    && |before| <= |after|
    && forall i {:trigger before[i]} {:trigger after[i]} :: 0 <= i < |before| ==>
         && before[i].region == after[i].region
         && |before[i].usedCommon| <= |after[i].usedCommon| && |before[i].usedLarge| <= |after[i].usedLarge|
  }

  /** From state `i` on there is no common chunk, and no large one to divide. */
  ghost predicate NoCommonFrom(states: seq<State>, i: nat)
    requires i < |states|
  {
    states[|states| - 1].freeLarge == [] && forall k :: i <= k < |states| ==> states[k].freeCommon == []
  }

  /** No list of used chunks got longer. */
  ghost predicate SameUsed(before: seq<State>, after: seq<State>) {
    && |before| <= |after|
    && forall i {:trigger before[i]} {:trigger after[i]} :: 0 <= i < |before| ==>
         |before[i].usedCommon| == |after[i].usedCommon| && |before[i].usedLarge| == |after[i].usedLarge|
  }

  ghost predicate SameFree(a: State, b: State) {
    a.freeCommon == b.freeCommon && a.freeLarge == b.freeLarge && a.region == b.region
  }

  predicate Matches(u: Used, size: nat) {
    u.size == size && u.free != 0
  }

  lemma {:induction false} FreshRegion(regions: set<Addr>)
    ensures exists a: Addr :: a % REGION_SIZE == 0 && a !in regions
  {
    var n := RegionBound(regions);
    assert (n * REGION_SIZE) % REGION_SIZE == 0 && n * REGION_SIZE !in regions;
  }

  lemma {:induction false} RegionBound(regions: set<Addr>) returns (n: nat)
    ensures forall a :: a in regions ==> a < n * REGION_SIZE
    decreases regions
  {
    if regions == {} {
      n := 0;
    } else {
      var a :| a in regions;
      var m := RegionBound(regions - {a});
      n := if a < m * REGION_SIZE then m else a + 1;
      assert m * REGION_SIZE <= n * REGION_SIZE;
      forall b | b in regions ensures b < n * REGION_SIZE { assert b == a || b in regions - {a}; }
    }
  }
}
