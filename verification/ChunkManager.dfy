/** Which regions are still occupied: each view counts the units of its region that were not freed,
    and a region is released with its last one. */
module ChunkManager {
  import opened Region

  datatype RegionView = RegionView(ptr: Addr, occupied: nat)

  datatype MaybeChunk = NoChunk | SomeChunk(ptr: Addr)

  const UNITS_IN_REGION: nat := 512

  ghost function Range(lo: nat, hi: nat): (r: set<nat>)
    requires lo <= hi
    ensures |r| == hi - lo && forall u :: u in r <==> lo <= u < hi
    decreases hi
  {
    if lo == hi then {} else Range(lo, hi - 1) + {hi - 1}
  }

  /** The units that a chunk is made of, counted from address 0. */
  ghost function Units(c: Addr, large: bool): set<nat> {
    var u := c / COMMON_CHUNK_SIZE;
    if large then Range(u, u + COMMON_CHUNKS_IN_LARGE_CHUNK) else {u}
  }

  function Width(large: bool): nat {
    if large then COMMON_CHUNKS_IN_LARGE_CHUNK else 1
  }

  ghost predicate Aligned(c: Addr, large: bool) {
    c % (if large then LARGE_CHUNK_SIZE else COMMON_CHUNK_SIZE) == 0
  }

  ghost function UnitsIn(live: set<nat>, region: Addr): set<nat> {
    set u | u in live && u / UNITS_IN_REGION == region / REGION_SIZE
  }

  /** All units of a region but the metadata's. */
  ghost function RegionUnits(region: Addr): set<nat> {
    Range(region / COMMON_CHUNK_SIZE + 1, region / COMMON_CHUNK_SIZE + UNITS_IN_REGION)
  }

  /** A chunk's units and where they are. */
  lemma ChunkUnits(c: Addr, large: bool)
    requires Aligned(c, large)
    ensures |Units(c, large)| == Width(large)
    ensures forall u :: u in Units(c, large) ==> u / UNITS_IN_REGION == c / REGION_SIZE
    ensures RegionOf(c) / REGION_SIZE == c / REGION_SIZE
  {
    var u := c / COMMON_CHUNK_SIZE;
    if large {
      LargeInRegion(c / LARGE_CHUNK_SIZE);
    }
    UnitsOf(c);
  }

  lemma LargeInRegion(k: nat)
    ensures (k * LARGE_CHUNK_SIZE) / COMMON_CHUNK_SIZE == 8 * k
    ensures forall v :: 8 * k <= v < 8 * k + 8 ==> v / UNITS_IN_REGION == (k * LARGE_CHUNK_SIZE) / REGION_SIZE
  {
    var q, r := k / 64, k % 64;
    assert k * LARGE_CHUNK_SIZE == q * REGION_SIZE + r * LARGE_CHUNK_SIZE;
    forall v | 8 * k <= v < 8 * k + 8 ensures v / UNITS_IN_REGION == q {
      assert v == q * UNITS_IN_REGION + (8 * r + (v - 8 * k));
    }
  }

  lemma FirstUnit(c: Addr, large: bool)
    requires Aligned(c, large)
    ensures c / COMMON_CHUNK_SIZE in Units(c, large) && (c / COMMON_CHUNK_SIZE) / UNITS_IN_REGION == RegionOf(c) / REGION_SIZE
    ensures RegionOf(c) % REGION_SIZE == 0
  {
    ChunkUnits(c, large);
    UnitsOf(c);
  }

  // ----- the views -----

  ghost predicate CountOk(regions: seq<RegionView>, live: set<nat>, i: nat)
    requires i < |regions|
  {
    regions[i].ptr % REGION_SIZE == 0 && regions[i].occupied == |UnitsIn(live, regions[i].ptr)|
  }

  ghost predicate Viewed(regions: seq<RegionView>, u: nat) {
    exists i :: 0 <= i < |regions| && u / UNITS_IN_REGION == regions[i].ptr / REGION_SIZE
  }

  /** The counts are right, the views different, and every live unit's region has one. */
  ghost predicate Counted(regions: seq<RegionView>, live: set<nat>) {
    && (forall i {:trigger CountOk(regions, live, i)} :: 0 <= i < |regions| ==> CountOk(regions, live, i))
    && (forall i, j :: 0 <= i < j < |regions| ==> regions[i].ptr != regions[j].ptr)
    && (forall u {:trigger Viewed(regions, u)} :: u in live ==> Viewed(regions, u))
  }

  /** And no view is of an empty region. */
  ghost predicate ViewsOk(regions: seq<RegionView>, live: set<nat>) {
    Counted(regions, live) && forall i :: 0 <= i < |regions| ==> regions[i].occupied > 0
  }

  lemma SameRegion(a: Addr, b: Addr)
    requires a % REGION_SIZE == 0 && b % REGION_SIZE == 0 && a / REGION_SIZE == b / REGION_SIZE
    ensures a == b
  {}

  lemma FewerUnits(live: set<nat>, c: Addr, large: bool)
    requires Aligned(c, large) && Units(c, large) <= live
    ensures |UnitsIn(live, RegionOf(c))| == |UnitsIn(live - Units(c, large), RegionOf(c))| + Width(large)
  {
    ChunkUnits(c, large);
    assert UnitsIn(live, RegionOf(c)) == UnitsIn(live - Units(c, large), RegionOf(c)) + Units(c, large);
  }

  /** Freeing a chunk takes its width off its region's count and leaves the others right. */
  lemma FreedCounted(regions: seq<RegionView>, live: set<nat>, c: Addr, large: bool, i: nat)
    requires Counted(regions, live) && Aligned(c, large) && Units(c, large) <= live
    requires i < |regions| && regions[i].ptr == RegionOf(c)
    ensures regions[i].occupied >= Width(large)
    ensures Counted(regions[i := regions[i].(occupied := regions[i].occupied - Width(large))], live - Units(c, large))
  {
    assert CountOk(regions, live, i);
    FewerUnits(live, c, large);
    ChunkUnits(c, large);
    var regions', live' := regions[i := regions[i].(occupied := regions[i].occupied - Width(large))], live - Units(c, large);
    forall k | 0 <= k < |regions'| ensures CountOk(regions', live', k) {
      assert CountOk(regions, live, k);
      if k != i {
        if regions[k].ptr / REGION_SIZE == c / REGION_SIZE { SameRegion(regions[k].ptr, regions[i].ptr); }
        assert UnitsIn(live', regions[k].ptr) == UnitsIn(live, regions[k].ptr);
      }
    }
    forall u | u in live' ensures Viewed(regions', u) {
      assert Viewed(regions, u);
      var k :| 0 <= k < |regions| && u / UNITS_IN_REGION == regions[k].ptr / REGION_SIZE;
      assert regions'[k].ptr == regions[k].ptr;
    }
  }

  ghost function SwapRemoved(regions: seq<RegionView>, i: nat): seq<RegionView>
    requires i < |regions|
  {
    regions[i := regions[|regions| - 1]][..|regions| - 1]
  }

  /** A view of an empty region can go. */
  lemma EmptyGone(regions: seq<RegionView>, live: set<nat>, i: nat)
    requires Counted(regions, live) && i < |regions| && regions[i].occupied == 0
    ensures Counted(SwapRemoved(regions, i), live) && UnitsIn(live, regions[i].ptr) == {}
    ensures forall v :: v in SwapRemoved(regions, i) <==> v in regions && v.ptr != regions[i].ptr
  {
    var regions', last := SwapRemoved(regions, i), |regions| - 1;
    assert CountOk(regions, live, i);
    forall k | 0 <= k < |regions'| ensures CountOk(regions', live, k) { assert CountOk(regions, live, if k == i then last else k); }
    forall u | u in live ensures Viewed(regions', u) {
      assert Viewed(regions, u);
      var k :| 0 <= k < |regions| && u / UNITS_IN_REGION == regions[k].ptr / REGION_SIZE;
      assert u in UnitsIn(live, regions[k].ptr);
      assert regions'[if k == last then i else k] == regions[k];
    }
    forall v | v in regions && v.ptr != regions[i].ptr ensures v in regions' {
      var k :| 0 <= k < |regions| && regions[k] == v;
      assert regions'[if k == last then i else k] == v;
    }
  }

  lemma RegionAdded(regions: seq<RegionView>, live: set<nat>, region: Addr)
    requires Counted(regions, live) && region % REGION_SIZE == 0 && forall i :: 0 <= i < |regions| ==> regions[i].ptr != region
    ensures live !! RegionUnits(region)
    ensures Counted(regions + [RegionView(region, MAX_COMMON_CHUNKS_IN_REGION)], live + RegionUnits(region))
  {
    var regions', live' := regions + [RegionView(region, MAX_COMMON_CHUNKS_IN_REGION)], live + RegionUnits(region);
    RegionUnitsPlace(region);
    forall u | u in live ensures u !in RegionUnits(region) {
      assert Viewed(regions, u);
      var k :| 0 <= k < |regions| && u / UNITS_IN_REGION == regions[k].ptr / REGION_SIZE;
      assert CountOk(regions, live, k);
      if regions[k].ptr / REGION_SIZE == region / REGION_SIZE { SameRegion(regions[k].ptr, region); }
    }
    forall k | 0 <= k < |regions'| ensures CountOk(regions', live', k) {
      if k < |regions| {
        assert CountOk(regions, live, k);
        if regions[k].ptr / REGION_SIZE == region / REGION_SIZE { SameRegion(regions[k].ptr, region); }
        assert UnitsIn(live', regions[k].ptr) == UnitsIn(live, regions[k].ptr);
      } else {
        assert UnitsIn(live, region) == {} by { NoneIn(regions, live, region); }
        assert UnitsIn(live', region) == RegionUnits(region);
      }
    }
    forall u | u in live' ensures Viewed(regions', u) {
      if u in live {
        assert Viewed(regions, u);
        var k :| 0 <= k < |regions| && u / UNITS_IN_REGION == regions[k].ptr / REGION_SIZE;
        assert regions'[k] == regions[k];
      } else {
        assert regions'[|regions|].ptr == region;
      }
    }
  }

  lemma RegionUnitsPlace(region: Addr)
    requires region % REGION_SIZE == 0
    ensures forall u :: u in RegionUnits(region) ==> u / UNITS_IN_REGION == region / REGION_SIZE
  {
    var q := region / REGION_SIZE;
    assert region == q * REGION_SIZE && region / COMMON_CHUNK_SIZE == q * UNITS_IN_REGION;
    forall u | u in RegionUnits(region) ensures u / UNITS_IN_REGION == q {
      assert u == q * UNITS_IN_REGION + (u - q * UNITS_IN_REGION);
    }
  }

  lemma NoneIn(regions: seq<RegionView>, live: set<nat>, region: Addr)
    requires Counted(regions, live) && region % REGION_SIZE == 0 && forall i :: 0 <= i < |regions| ==> regions[i].ptr != region
    ensures UnitsIn(live, region) == {}
  {
    forall u | u in live ensures u / UNITS_IN_REGION != region / REGION_SIZE {
      assert Viewed(regions, u);
      var k :| 0 <= k < |regions| && u / UNITS_IN_REGION == regions[k].ptr / REGION_SIZE;
      assert CountOk(regions, live, k);
      if regions[k].ptr / REGION_SIZE == region / REGION_SIZE { SameRegion(regions[k].ptr, region); }
    }
  }

  // ----- the lists -----

  ghost predicate LiveChunk(c: Addr, large: bool, live: set<nat>) {
    Aligned(c, large) && Units(c, large) <= live
  }

  ghost predicate NoneShared(c: Addr, large: bool, units: set<nat>) {
    Units(c, large) !! units
  }

  /** No chunk in the list has one of these units. */
  ghost predicate NotIn(list: seq<Addr>, large: bool, units: set<nat>) {
    forall i {:trigger list[i]} :: 0 <= i < |list| ==> NoneShared(list[i], large, units)
  }

  ghost predicate ListOk(list: seq<Addr>, large: bool, live: set<nat>) {
    && (forall i {:trigger list[i]} :: 0 <= i < |list| ==> LiveChunk(list[i], large, live))
    && forall i {:trigger list[i]} :: 0 <= i < |list| ==> NotIn(list[..i], large, Units(list[i], large))
  }

  /** The chunks in both lists are live and share no units. */
  ghost predicate Lists(freeCommon: seq<Addr>, freeLarge: seq<Addr>, live: set<nat>) {
    && ListOk(freeCommon, false, live) && ListOk(freeLarge, true, live)
    && forall i {:trigger freeLarge[i]} :: 0 <= i < |freeLarge| ==> NotIn(freeCommon, false, Units(freeLarge[i], true))
  }

  ghost predicate Unlisted(freeCommon: seq<Addr>, freeLarge: seq<Addr>, units: set<nat>) {
    NotIn(freeCommon, false, units) && NotIn(freeLarge, true, units)
  }

  lemma PopCommon(freeCommon: seq<Addr>, freeLarge: seq<Addr>, live: set<nat>)
    requires Lists(freeCommon, freeLarge, live) && freeCommon != []
    ensures var n := |freeCommon| - 1;
            && Lists(freeCommon[..n], freeLarge, live) && LiveChunk(freeCommon[n], false, live)
            && Unlisted(freeCommon[..n], freeLarge, Units(freeCommon[n], false))
  {
    var n := |freeCommon| - 1;
    ListPop(freeCommon, false, live);
    forall i | 0 <= i < |freeLarge| ensures NotIn(freeCommon[..n], false, Units(freeLarge[i], true)) && NoneShared(freeLarge[i], true, Units(freeCommon[n], false)) {
      assert NotIn(freeCommon, false, Units(freeLarge[i], true));
      assert NoneShared(freeCommon[n], false, Units(freeLarge[i], true));
    }
  }

  lemma PopLarge(freeCommon: seq<Addr>, freeLarge: seq<Addr>, live: set<nat>)
    requires Lists(freeCommon, freeLarge, live) && freeLarge != []
    ensures var n := |freeLarge| - 1;
            && Lists(freeCommon, freeLarge[..n], live) && LiveChunk(freeLarge[n], true, live)
            && Unlisted(freeCommon, freeLarge[..n], Units(freeLarge[n], true))
  {
    ListPop(freeLarge, true, live);
    assert NotIn(freeCommon, false, Units(freeLarge[|freeLarge| - 1], true));
  }

  lemma ListPop(list: seq<Addr>, large: bool, live: set<nat>)
    requires ListOk(list, large, live) && list != []
    ensures var n := |list| - 1;
            ListOk(list[..n], large, live) && LiveChunk(list[n], large, live) && NotIn(list[..n], large, Units(list[n], large))
  {
    var n := |list| - 1;
    assert LiveChunk(list[n], large, live) && NotIn(list[..n], large, Units(list[n], large));
    forall i | 0 <= i < n ensures LiveChunk(list[..n][i], large, live) && NotIn(list[..n][..i], large, Units(list[..n][i], large)) {
      assert list[..n][i] == list[i] && list[..n][..i] == list[..i];
    }
  }

  lemma PushLarge(freeCommon: seq<Addr>, freeLarge: seq<Addr>, live: set<nat>, l: Addr)
    requires Lists(freeCommon, freeLarge, live) && LiveChunk(l, true, live) && Unlisted(freeCommon, freeLarge, Units(l, true))
    ensures Lists(freeCommon, freeLarge + [l], live)
  {
    var list := freeLarge + [l];
    forall i | 0 <= i < |list| ensures LiveChunk(list[i], true, live) && NotIn(list[..i], true, Units(list[i], true)) && NotIn(freeCommon, false, Units(list[i], true)) {
      if i < |freeLarge| {
        assert list[i] == freeLarge[i] && list[..i] == freeLarge[..i];
        assert LiveChunk(freeLarge[i], true, live);
      } else {
        assert list[..i] == freeLarge;
      }
    }
  }

  /** Lists of chunks with different units, joined. */
  lemma JoinLists(a: seq<Addr>, b: seq<Addr>, large: bool, live: set<nat>, units: set<nat>)
    requires ListOk(a, large, live) && ListOk(b, large, units) && live !! units
    ensures ListOk(a + b, large, live + units)
  {
    var list := a + b;
    forall i | 0 <= i < |list| ensures LiveChunk(list[i], large, live + units) && NotIn(list[..i], large, Units(list[i], large)) {
      if i < |a| {
        assert list[i] == a[i] && list[..i] == a[..i] && LiveChunk(a[i], large, live);
      } else {
        var j := i - |a|;
        assert list[i] == b[j] && list[..i] == a + b[..j] && LiveChunk(b[j], large, units);
        Disjoint(a, large, live, Units(b[j], large));
        assert NotIn(b[..j], large, Units(b[j], large));
        forall k | 0 <= k < |a + b[..j]| ensures NoneShared((a + b[..j])[k], large, Units(b[j], large)) {
          if k < |a| { assert NoneShared(a[k], large, Units(b[j], large)); } else { assert NoneShared(b[..j][k - |a|], large, Units(b[j], large)); }
        }
      }
    }
  }

  lemma Disjoint(list: seq<Addr>, large: bool, live: set<nat>, units: set<nat>)
    requires ListOk(list, large, live) && live !! units
    ensures NotIn(list, large, units)
  {
    forall i | 0 <= i < |list| ensures NoneShared(list[i], large, units) { assert LiveChunk(list[i], large, live); }
  }

  lemma JoinBoth(c1: seq<Addr>, l1: seq<Addr>, live: set<nat>, c2: seq<Addr>, l2: seq<Addr>, units: set<nat>)
    requires Lists(c1, l1, live) && Lists(c2, l2, units) && live !! units
    ensures Lists(c1 + c2, l1 + l2, live + units)
  {
    JoinLists(c1, c2, false, live, units);
    JoinLists(l1, l2, true, live, units);
    var c, l := c1 + c2, l1 + l2;
    forall i | 0 <= i < |l| ensures NotIn(c, false, Units(l[i], true)) {
      forall k | 0 <= k < |c| ensures NoneShared(c[k], false, Units(l[i], true)) {
        if i < |l1| {
          assert l[i] == l1[i] && LiveChunk(l1[i], true, live) && NotIn(c1, false, Units(l1[i], true));
          if k < |c1| { assert NoneShared(c1[k], false, Units(l1[i], true)); } else { assert LiveChunk(c2[k - |c1|], false, units); }
        } else {
          assert l[i] == l2[i - |l1|] && LiveChunk(l2[i - |l1|], true, units) && NotIn(c2, false, Units(l2[i - |l1|], true));
          if k < |c1| { assert LiveChunk(c1[k], false, live); } else { assert NoneShared(c2[k - |c1|], false, Units(l[i], true)); }
        }
      }
    }
  }

  /** A chunk with none of the listed units is freed. */
  lemma ListsStay(freeCommon: seq<Addr>, freeLarge: seq<Addr>, live: set<nat>, units: set<nat>)
    requires Lists(freeCommon, freeLarge, live) && Unlisted(freeCommon, freeLarge, units)
    ensures Lists(freeCommon, freeLarge, live - units)
  {
    forall i | 0 <= i < |freeCommon| ensures LiveChunk(freeCommon[i], false, live - units) { assert LiveChunk(freeCommon[i], false, live) && NoneShared(freeCommon[i], false, units); }
    forall i | 0 <= i < |freeLarge| ensures LiveChunk(freeLarge[i], true, live - units) { assert LiveChunk(freeLarge[i], true, live) && NoneShared(freeLarge[i], true, units); }
    forall i | 0 <= i < |freeCommon| ensures NotIn(freeCommon[..i], false, Units(freeCommon[i], false)) { assert LiveChunk(freeCommon[i], false, live); }
    forall i | 0 <= i < |freeLarge| ensures NotIn(freeLarge[..i], true, Units(freeLarge[i], true)) { assert LiveChunk(freeLarge[i], true, live); }
  }

  lemma SomeUnlisted(freeCommon: seq<Addr>, freeLarge: seq<Addr>, units: set<nat>, fewer: set<nat>)
    requires Unlisted(freeCommon, freeLarge, units) && fewer <= units
    ensures Unlisted(freeCommon, freeLarge, fewer)
  {
    forall i | 0 <= i < |freeCommon| ensures NoneShared(freeCommon[i], false, fewer) { assert NoneShared(freeCommon[i], false, units); }
    forall i | 0 <= i < |freeLarge| ensures NoneShared(freeLarge[i], true, fewer) { assert NoneShared(freeLarge[i], true, units); }
  }

  /** All pieces of a large chunk but the last. */
  lemma PiecesList(l: Addr, chunks: seq<Addr>)
    requires Aligned(l, true) && |chunks| == COMMON_CHUNKS_IN_LARGE_CHUNK && forall i :: 0 <= i < |chunks| ==> chunks[i] == SplitChunk(l, i)
    ensures var c := chunks[7];
            && Lists(chunks[..7], [], Units(l, true)) && LiveChunk(c, false, Units(l, true)) && NotIn(chunks[..7], false, Units(c, false))
  {
    PieceUnits(l, chunks);
    var list, c := chunks[..7], chunks[7];
    forall i | 0 <= i < 7
      ensures LiveChunk(list[i], false, Units(l, true)) && NotIn(list[..i], false, Units(list[i], false)) && NoneShared(list[i], false, Units(c, false))
    {
      forall k | 0 <= k < i ensures NoneShared(list[..i][k], false, Units(list[i], false)) { assert list[..i][k] == chunks[k] && list[i] == chunks[i]; }
    }
  }

  /** The pieces of a large chunk that is in no list, but for the last, join the lists. */
  lemma PiecesListed(freeCommon: seq<Addr>, freeLarge: seq<Addr>, live: set<nat>, l: Addr, chunks: seq<Addr>)
    requires Lists(freeCommon, freeLarge, live) && LiveChunk(l, true, live) && Unlisted(freeCommon, freeLarge, Units(l, true))
    requires |chunks| == COMMON_CHUNKS_IN_LARGE_CHUNK && forall i :: 0 <= i < |chunks| ==> chunks[i] == SplitChunk(l, i)
    ensures var c := chunks[7];
            && Lists(freeCommon + chunks[..7], freeLarge, live) && LiveChunk(c, false, live)
            && Unlisted(freeCommon + chunks[..7], freeLarge, Units(c, false)) && Units(c, false) <= Units(l, true)
  {
    var units, c := Units(l, true), chunks[7];
    PiecesList(l, chunks);
    ListsStay(freeCommon, freeLarge, live, units);
    JoinBoth(freeCommon, freeLarge, live - units, chunks[..7], [], units);
    assert freeLarge + [] == freeLarge && live - units + units == live;
    SomeUnlisted(freeCommon, freeLarge, units, Units(c, false));
    forall i | 0 <= i < |freeCommon + chunks[..7]| ensures NoneShared((freeCommon + chunks[..7])[i], false, Units(c, false)) {
      if i < |freeCommon| { assert NoneShared(freeCommon[i], false, Units(c, false)); } else { assert NoneShared(chunks[..7][i - |freeCommon|], false, Units(c, false)); }
    }
  }

  // ----- what goes on while a list grows -----

  /** Growing a list is an allocation, and in it states may be committed, chunks taken and chunks freed. */
  datatype Event = Commit(region: Addr, commons: seq<Addr>, larges: seq<Addr>) | TakeCommon | TakeLarge | Free(c: Addr, large: bool)

  datatype Stock = Stock(freeCommon: seq<Addr>, freeLarge: seq<Addr>, live: set<nat>, released: seq<Addr>)

  ghost function After(s: Stock, e: Event): Stock {
    match e
    case Commit(region, common, large) => s.(freeCommon := s.freeCommon + common, freeLarge := s.freeLarge + large, live := s.live + RegionUnits(region))
    case TakeCommon => if s.freeCommon == [] then s else s.(freeCommon := s.freeCommon[..|s.freeCommon| - 1])
    case TakeLarge => if s.freeLarge == [] then s else s.(freeLarge := s.freeLarge[..|s.freeLarge| - 1])
    case Free(c, large) =>
      var live := s.live - Units(c, large);
      s.(live := live, released := s.released + if UnitsIn(live, RegionOf(c)) == {} then [RegionOf(c)] else [])
  }

  /** It may happen while chunks with these units are in hand. */
  ghost predicate May(s: Stock, e: Event, inHand: set<nat>) {
    match e
    case Commit(region, common, large) => region % REGION_SIZE == 0 && UnitsIn(s.live, region) == {} && Lists(common, large, RegionUnits(region))
    case Free(c, large) => LiveChunk(c, large, s.live) && Unlisted(s.freeCommon, s.freeLarge, Units(c, large)) && Units(c, large) !! inHand
    case _ => true
  }

  /** After the first `n` events. */
  ghost function AfterAll(s: Stock, events: seq<Event>, n: nat): Stock
    requires n <= |events|
  {
    if n == 0 then s else After(AfterAll(s, events, n - 1), events[n - 1])
  }

  ghost predicate AllMay(s: Stock, events: seq<Event>, inHand: set<nat>) {
    forall i: nat {:trigger events[i]} :: i < |events| ==> May(AfterAll(s, events, i), events[i], inHand)
  }

  /** Chunks in hand stay out of the lists when a region is committed. */
  lemma StillOut(s: Stock, region: Addr, common: seq<Addr>, large: seq<Addr>, units: set<nat>)
    requires Lists(common, large, RegionUnits(region)) && Unlisted(s.freeCommon, s.freeLarge, units)
    requires units <= s.live && s.live !! RegionUnits(region)
    ensures Unlisted(s.freeCommon + common, s.freeLarge + large, units)
  {
    Disjoint(common, false, RegionUnits(region), units);
    Disjoint(large, true, RegionUnits(region), units);
    forall i | 0 <= i < |s.freeCommon + common| ensures NoneShared((s.freeCommon + common)[i], false, units) {
      if i < |s.freeCommon| { assert NoneShared(s.freeCommon[i], false, units); } else { assert NoneShared(common[i - |s.freeCommon|], false, units); }
    }
    forall i | 0 <= i < |s.freeLarge + large| ensures NoneShared((s.freeLarge + large)[i], true, units) {
      if i < |s.freeLarge| { assert NoneShared(s.freeLarge[i], true, units); } else { assert NoneShared(large[i - |s.freeLarge|], true, units); }
    }
  }

  class Manager {
    var freeLarge: seq<Addr>
    var freeCommon: seq<Addr>
    var regions: seq<RegionView>
    /** The units of chunks that were not freed, in the lists or not. */
    ghost var live: set<nat>
    /** The regions given back to the system, in order. */
    var released: seq<Addr>

    ghost predicate Valid()
      reads this
    {
      ViewsOk(regions, live) && Lists(freeCommon, freeLarge, live)
    }

    /** A chunk that was handed out and not freed. */
    ghost predicate Held(c: Addr, large: bool)
      reads this
    {
      LiveChunk(c, large, live) && Unlisted(freeCommon, freeLarge, Units(c, large))
    }

    ghost function Now(): Stock
      reads this
    {
      Stock(freeCommon, freeLarge, live, released)
    }

    /** Chunks with these units were handed out and not freed. */
    ghost predicate InHand(units: set<nat>)
      reads this
    {
      units <= live && Unlisted(freeCommon, freeLarge, units)
    }

    constructor ()
      ensures Valid() && live == {} && regions == [] && released == []
    {
      freeLarge, freeCommon, regions := [], [], [];
      live, released := {}, [];
    }

    /** One chunk fewer in its region. With the last one the region is released and its view goes; the
        other views stay as they are. */
    method FreeChunk(c: Addr, large: bool)
      requires ViewsOk(regions, live) && Aligned(c, large) && Units(c, large) <= live
      modifies this`regions, this`live, this`released
      ensures ViewsOk(regions, live) && live == old(live) - Units(c, large)
      ensures released == old(released) + (if UnitsIn(live, RegionOf(c)) == {} then [RegionOf(c)] else [])
      ensures forall v: RegionView :: v.ptr != RegionOf(c) ==> (v in regions <==> v in old(regions))
    {
      FirstUnit(c, large);
      var i := Position(RegionOf(c), c / COMMON_CHUNK_SIZE);
      FreedCounted(regions, live, c, large, i);
      live := live - Units(c, large);
      TakeOff(i, Width(large));
    }

    /** Takes `n` off a view's count, which is right afterwards. */
    method TakeOff(i: nat, n: nat)
      requires i < |regions| && n <= regions[i].occupied && (forall k :: 0 <= k < |regions| ==> regions[k].occupied > 0)
      requires Counted(regions[i := regions[i].(occupied := regions[i].occupied - n)], live)
      modifies this`regions, this`released
      ensures ViewsOk(regions, live)
      ensures released == old(released) + (if UnitsIn(live, old(regions)[i].ptr) == {} then [old(regions)[i].ptr] else [])
      ensures forall v: RegionView :: v.ptr != old(regions)[i].ptr ==> (v in regions <==> v in old(regions))
    {
      ghost var regions0 := regions;
      regions := regions[i := regions[i].(occupied := regions[i].occupied - n)];
      OthersSame(regions0, regions, i);
      assert CountOk(regions, live, i);
      if regions[i].occupied == 0 {
        EmptyGone(regions, live, i);
        released := released + [regions[i].ptr];
        regions := regions[i := regions[|regions| - 1]][..|regions| - 1];
      }
    }

    /** The view of a region that has live units. */
    method Position(region: Addr, ghost u: nat) returns (i: nat)
      requires Counted(regions, live) && region % REGION_SIZE == 0 && u in live && u / UNITS_IN_REGION == region / REGION_SIZE
      ensures i < |regions| && regions[i].ptr == region
    {
      ghost var k := WhereViewed(regions, live, u, region);
      i := 0;
      while regions[i].ptr != region
        invariant i <= k && forall j :: 0 <= j < i ==> regions[j].ptr != region
        decreases k - i
      {
        i := i + 1;
      }
    }

    /** A chunk that was handed out is done with. */
    method FreeHeld(c: Addr, large: bool)
      requires Valid() && Held(c, large)
      modifies this`regions, this`live, this`released
      ensures Valid() && live == old(live) - Units(c, large)
      ensures released == old(released) + (if UnitsIn(live, RegionOf(c)) == {} then [RegionOf(c)] else [])
    {
      ListsStay(freeCommon, freeLarge, live, Units(c, large));
      FreeChunk(c, large);
    }

    method TryGetCommonChunk() returns (r: MaybeChunk)
      requires Valid()
      modifies this`freeCommon
      ensures Valid()
      ensures match r case NoChunk => old(freeCommon) == [] && freeCommon == [] case SomeChunk(c) => Held(c, false) && freeCommon + [c] == old(freeCommon)
    {
      if freeCommon == [] { return NoChunk; }
      PopCommon(freeCommon, freeLarge, live);
      r := SomeChunk(freeCommon[|freeCommon| - 1]);
      freeCommon := freeCommon[..|freeCommon| - 1];
    }

    method TryGetLargeChunk() returns (r: MaybeChunk)
      requires Valid()
      modifies this`freeLarge
      ensures Valid()
      ensures match r case NoChunk => old(freeLarge) == [] && freeLarge == [] case SomeChunk(c) => Held(c, true) && freeLarge + [c] == old(freeLarge)
    {
      if freeLarge == [] { return NoChunk; }
      PopLarge(freeCommon, freeLarge, live);
      r := SomeChunk(freeLarge[|freeLarge| - 1]);
      freeLarge := freeLarge[..|freeLarge| - 1];
    }

    /** One thing that goes on while chunks with units `inHand` are in hand. */
    method Happen(e: Event, ghost inHand: set<nat>)
      requires Valid() && InHand(inHand) && May(Now(), e, inHand)
      modifies this
      ensures Valid() && InHand(inHand) && Now() == After(old(Now()), e)
    {
      match e
      case Commit(region, common, large) =>
        ViewIffLive(regions, live, region);
        assert forall i :: 0 <= i < |regions| ==> regions[i] in regions;
        RegionAdded(regions, live, region);
        StillOut(Now(), region, common, large, inHand);
        HandleState(region, common, large);
      case TakeCommon =>
        ghost var before := freeCommon;
        var c := TryGetCommonChunk();
        forall i | 0 <= i < |freeCommon| ensures NoneShared(freeCommon[i], false, inHand) { assert NoneShared(before[i], false, inHand); }
      case TakeLarge =>
        ghost var before := freeLarge;
        var c := TryGetLargeChunk();
        forall i | 0 <= i < |freeLarge| ensures NoneShared(freeLarge[i], true, inHand) { assert NoneShared(before[i], true, inHand); }
      case Free(c, large) => FreeHeld(c, large);
    }

    /** Everything that goes on while a list grows. */
    method Meanwhile(events: seq<Event>, ghost inHand: set<nat>)
      requires Valid() && InHand(inHand) && AllMay(Now(), events, inHand)
      modifies this
      ensures Valid() && InHand(inHand) && Now() == AfterAll(old(Now()), events, |events|)
    {
      for i := 0 to |events|
        invariant Valid() && InHand(inHand) && Now() == AfterAll(old(Now()), events, i)
      {
        Happen(events[i], inHand);
      }
    }

    /** With a large chunk in hand for dividing, there may be common chunks by now; then it is not
        divided but goes back to the list. Else seven of its pieces go to the list of common chunks, after
        whatever comes there while that list grows. If a list has no room and is not granted any, the large chunk is in no
        list any more, though still live. */
    method GetCommonFromLarge(l: Addr, granted: bool, events: seq<Event>) returns (r: MaybeChunk)
      requires Valid() && Held(l, true)
      requires AllMay(After(Now(), TakeCommon), events, Units(l, true) + if freeCommon == [] then {} else Units(freeCommon[|freeCommon| - 1], false))
      modifies this
      ensures Valid() && (r.NoChunk? <==> old(freeCommon) == [] && !granted) && (r.SomeChunk? ==> Held(r.ptr, false))
      ensures var s := AfterAll(After(old(Now()), TakeCommon), events, |events|);
        && live == s.live && released == s.released
        && (if old(freeCommon) != [] then
              && r == SomeChunk(old(freeCommon)[|old(freeCommon)| - 1])
              && freeCommon == s.freeCommon && freeLarge == s.freeLarge + (if granted then [l] else []) && (!granted ==> Held(l, true))
            else if granted then
              && r == SomeChunk(SplitChunk(l, 7)) && Units(r.ptr, false) <= Units(l, true)
              && freeCommon == s.freeCommon + seq(7, i requires 0 <= i => SplitChunk(l, i)) && freeLarge == s.freeLarge
            else freeCommon == s.freeCommon && freeLarge == s.freeLarge && Held(l, true))
    {
      ghost var before, larges := freeCommon, freeLarge;
      r := TryGetCommonChunk();
      match r {
        case SomeChunk(common) =>
          BothInHand(l, common, before);
          Meanwhile(events, Units(l, true) + Units(common, false));
          SomeUnlisted(freeCommon, freeLarge, Units(l, true) + Units(common, false), Units(l, true));
          SomeUnlisted(freeCommon, freeLarge, Units(l, true) + Units(common, false), Units(common, false));
          if granted {
            GoesBack(l, common);
            freeLarge := freeLarge + [l];
          }
        case NoChunk =>
          assert Units(l, true) + {} == Units(l, true);
          var chunks := SplitLargeChunkToCommon(l);
          Meanwhile(events, Units(l, true));
          if granted {
            PiecesListed(freeCommon, freeLarge, live, l, chunks);
            assert chunks[..7] == seq(7, i requires 0 <= i => SplitChunk(l, i));
            freeCommon := freeCommon + chunks[..7];
            r := SomeChunk(chunks[7]);
          }
      }
    }

    lemma BothInHand(l: Addr, c: Addr, before: seq<Addr>)
      requires Held(c, false) && LiveChunk(l, true, live) && Unlisted(before, freeLarge, Units(l, true)) && before == freeCommon + [c]
      ensures InHand(Units(l, true) + Units(c, false)) && Units(l, true) !! Units(c, false)
    {
      forall i | 0 <= i < |freeCommon| ensures NoneShared(freeCommon[i], false, Units(l, true) + Units(c, false)) {
        assert before[i] == freeCommon[i] && NoneShared(before[i], false, Units(l, true)) && NoneShared(freeCommon[i], false, Units(c, false));
      }
      forall i | 0 <= i < |freeLarge| ensures NoneShared(freeLarge[i], true, Units(l, true) + Units(c, false)) {
        assert NoneShared(freeLarge[i], true, Units(l, true)) && NoneShared(freeLarge[i], true, Units(c, false));
      }
      assert NoneShared(before[|freeCommon|], false, Units(l, true));
    }

    lemma GoesBack(l: Addr, c: Addr)
      requires Valid() && Held(c, false) && Held(l, true) && Units(l, true) !! Units(c, false)
      ensures Lists(freeCommon, freeLarge + [l], live) && Unlisted(freeCommon, freeLarge + [l], Units(c, false))
    {
      PushLarge(freeCommon, freeLarge, live, l);
      forall i | 0 <= i < |freeLarge + [l]| ensures NoneShared((freeLarge + [l])[i], true, Units(c, false)) {
        if i < |freeLarge| { assert NoneShared(freeLarge[i], true, Units(c, false)); }
      }
    }

    /** A committed state: its region, and what is left of it in the lists; the rest was handed out. */
    method HandleState(region: Addr, common: seq<Addr>, large: seq<Addr>)
      requires Valid() && region % REGION_SIZE == 0 && forall i :: 0 <= i < |regions| ==> regions[i].ptr != region
      requires Lists(common, large, RegionUnits(region))
      modifies this
      ensures Valid() && live == old(live) + RegionUnits(region) && released == old(released)
      ensures regions == old(regions) + [RegionView(region, MAX_COMMON_CHUNKS_IN_REGION)]
      ensures freeCommon == old(freeCommon) + common && freeLarge == old(freeLarge) + large
    {
      RegionAdded(regions, live, region);
      JoinBoth(freeCommon, freeLarge, live, common, large, RegionUnits(region));
      regions := regions + [RegionView(region, MAX_COMMON_CHUNKS_IN_REGION)];
      live := live + RegionUnits(region);
      freeCommon := freeCommon + common;
      freeLarge := freeLarge + large;
    }

    /** Frees everything in the lists, and nothing else. The regions given back are those that had live units
        before and have none left, each once. */
    method FreeUnusedMemory()
      requires Valid()
      modifies this
      ensures Valid() && freeCommon == [] && freeLarge == []
      ensures live == old(live) - ListUnits(old(freeCommon), false) - ListUnits(old(freeLarge), true)
      ensures ReleasedExactly(old(released), released, old(live), live)
    {
      FreeCommonList();
      ghost var released1, live1 := released, live;
      FreeLargeList();
      ReleasedTwice(old(released), released1, released, old(live), live1, live);
    }

    method FreeCommonList()
      requires Valid()
      modifies this
      ensures Valid() && freeCommon == [] && freeLarge == old(freeLarge)
      ensures live == old(live) - ListUnits(old(freeCommon), false)
      ensures ReleasedExactly(old(released), released, old(live), live)
    {
      while freeCommon != []
        invariant Valid() && freeLarge == old(freeLarge) && live <= old(live)
        invariant live - ListUnits(freeCommon, false) == old(live) - ListUnits(old(freeCommon), false)
        invariant ReleasedExactly(old(released), released, old(live), live)
        decreases |freeCommon|
      {
        ghost var list, live0, released0 := freeCommon, live, released;
        var r := TryGetCommonChunk();
        ReleasedOne(released0, live0, r.ptr, false);
        FreeHeld(r.ptr, false);
        ReleasedTwice(old(released), released0, released, old(live), live0, live);
        TakenOff(list, freeCommon, r.ptr, false, live0);
      }
    }

    method FreeLargeList()
      requires Valid()
      modifies this
      ensures Valid() && freeLarge == [] && freeCommon == old(freeCommon)
      ensures live == old(live) - ListUnits(old(freeLarge), true)
      ensures ReleasedExactly(old(released), released, old(live), live)
    {
      while freeLarge != []
        invariant Valid() && freeCommon == old(freeCommon) && live <= old(live)
        invariant live - ListUnits(freeLarge, true) == old(live) - ListUnits(old(freeLarge), true)
        invariant ReleasedExactly(old(released), released, old(live), live)
        decreases |freeLarge|
      {
        ghost var list, live0, released0 := freeLarge, live, released;
        var r := TryGetLargeChunk();
        ReleasedOne(released0, live0, r.ptr, true);
        FreeHeld(r.ptr, true);
        ReleasedTwice(old(released), released0, released, old(live), live0, live);
        TakenOff(list, freeLarge, r.ptr, true, live0);
      }
    }

    /** Forgets all chunks and gives back every region, once. */
    method FreeAllMemory()
      requires Valid()
      modifies this
      ensures Valid() && freeCommon == [] && freeLarge == [] && regions == [] && live == {}
      ensures ReleasedExactly(old(released), released, old(live), {}) && |released| == |old(released)| + |old(regions)|
    {
      freeCommon, freeLarge := [], [];
      var list := [];
      for i := 0 to |regions|
        invariant regions == old(regions) && live == old(live) && released == old(released)
        invariant freeCommon == [] && freeLarge == []
        invariant |list| == i && forall k :: 0 <= k < i ==> list[k] == regions[k].ptr
      {
        list := list + [regions[i].ptr];
      }
      for i := 0 to |list|
        invariant regions == old(regions) && live == old(live) && released == old(released) + list[..i]
        invariant freeCommon == [] && freeLarge == []
      {
        released := released + [list[i]];
      }
      assert list[..|list|] == list;
      AllReleased(regions, live, list, old(released));
      live := {};
      regions := [];
    }
  }

  /** The region had live units and has none left. */
  ghost predicate Emptied(before: set<nat>, after: set<nat>, region: Addr) {
    region % REGION_SIZE == 0 && UnitsIn(before, region) != {} && UnitsIn(after, region) == {}
  }

  /** What was released since then are the regions that were emptied, each once. */
  ghost predicate ReleasedExactly(before: seq<Addr>, after: seq<Addr>, live: set<nat>, live': set<nat>) {
    && before <= after && (forall i, j :: |before| <= i < j < |after| ==> after[i] != after[j])
    && forall a {:trigger Emptied(live, live', a)} :: a in after[|before|..] <==> Emptied(live, live', a)
  }

  lemma ReleasedOne(released: seq<Addr>, live: set<nat>, c: Addr, large: bool)
    requires LiveChunk(c, large, live)
    ensures var live' := live - Units(c, large);
            ReleasedExactly(released, released + (if UnitsIn(live', RegionOf(c)) == {} then [RegionOf(c)] else []), live, live')
  {
    var live' := live - Units(c, large);
    var more := if UnitsIn(live', RegionOf(c)) == {} then [RegionOf(c)] else [];
    assert (released + more)[|released|..] == more;
    ChunkUnits(c, large);
    FirstUnit(c, large);
    assert c / COMMON_CHUNK_SIZE in UnitsIn(live, RegionOf(c));
    forall a: Addr ensures a in more <==> Emptied(live, live', a) {
      if a % REGION_SIZE == 0 && a != RegionOf(c) {
        if a / REGION_SIZE == RegionOf(c) / REGION_SIZE { SameRegion(a, RegionOf(c)); }
        assert UnitsIn(live', a) == UnitsIn(live, a);
      }
    }
  }

  lemma ReleasedTwice(r0: seq<Addr>, r1: seq<Addr>, r2: seq<Addr>, live0: set<nat>, live1: set<nat>, live2: set<nat>)
    requires ReleasedExactly(r0, r1, live0, live1) && ReleasedExactly(r1, r2, live1, live2) && live2 <= live1 <= live0
    ensures ReleasedExactly(r0, r2, live0, live2)
  {
    assert r2[|r0|..] == r1[|r0|..] + r2[|r1|..];
    forall a ensures a in r2[|r0|..] <==> Emptied(live0, live2, a) {
      FewerLeft(live0, live1, live2, a);
      assert a in r1[|r0|..] <==> Emptied(live0, live1, a);
      assert a in r2[|r1|..] <==> Emptied(live1, live2, a);
    }
    forall i, j | |r0| <= i < j < |r2| ensures r2[i] != r2[j] {
      if i < |r1| <= j {
        assert r2[i] == r1[|r0|..][i - |r0|] && r2[j] == r2[|r1|..][j - |r1|];
        assert Emptied(live0, live1, r2[i]) && Emptied(live1, live2, r2[j]);
      }
    }
  }

  lemma FewerLeft(live0: set<nat>, live1: set<nat>, live2: set<nat>, a: Addr)
    requires live2 <= live1 <= live0
    ensures UnitsIn(live2, a) <= UnitsIn(live1, a) <= UnitsIn(live0, a)
  {
  }

  lemma AllReleased(regions: seq<RegionView>, live: set<nat>, list: seq<Addr>, released: seq<Addr>)
    requires ViewsOk(regions, live) && |list| == |regions| && forall k :: 0 <= k < |list| ==> list[k] == regions[k].ptr
    ensures ReleasedExactly(released, released + list, live, {})
  {
    assert (released + list)[|released|..] == list;
    forall a: Addr ensures a in list <==> Emptied(live, {}, a) {
      assert UnitsIn({}, a) == {};
      if a in list {
        var k :| 0 <= k < |list| && list[k] == a;
        assert CountOk(regions, live, k) && regions[k] in regions;
      }
      if a % REGION_SIZE == 0 {
        ViewIffLive(regions, live, a);
        if v :| v in regions && v.ptr == a {
          var k :| 0 <= k < |regions| && regions[k] == v;
          assert list[k] == a;
        }
      }
    }
  }

  lemma TakenOff(list: seq<Addr>, rest: seq<Addr>, c: Addr, large: bool, live: set<nat>)
    requires rest + [c] == list
    ensures (live - Units(c, large)) - ListUnits(rest, large) == live - ListUnits(list, large)
  {
    assert list[..|list| - 1] == rest;
  }

  /** The units of all the chunks in a list. */
  ghost function ListUnits(list: seq<Addr>, large: bool): set<nat> {
    if list == [] then {} else ListUnits(list[..|list| - 1], large) + Units(list[|list| - 1], large)
  }

  lemma WhereViewed(regions: seq<RegionView>, live: set<nat>, u: nat, region: Addr) returns (k: nat)
    requires Counted(regions, live) && region % REGION_SIZE == 0 && u in live && u / UNITS_IN_REGION == region / REGION_SIZE
    ensures k < |regions| && regions[k].ptr == region
  {
    assert Viewed(regions, u);
    k :| 0 <= k < |regions| && u / UNITS_IN_REGION == regions[k].ptr / REGION_SIZE;
    assert CountOk(regions, live, k);
    SameRegion(regions[k].ptr, region);
  }

  /** A region has a view exactly as long as it has live units. */
  lemma ViewIffLive(regions: seq<RegionView>, live: set<nat>, region: Addr)
    requires ViewsOk(regions, live) && region % REGION_SIZE == 0
    ensures (exists v :: v in regions && v.ptr == region) <==> UnitsIn(live, region) != {}
  {
    if u :| u in UnitsIn(live, region) {
      var k := WhereViewed(regions, live, u, region);
      assert regions[k] in regions;
    }
    if v :| v in regions && v.ptr == region {
      var k :| 0 <= k < |regions| && regions[k] == v;
      assert CountOk(regions, live, k);
    }
  }

  lemma OthersSame(before: seq<RegionView>, after: seq<RegionView>, i: nat)
    requires i < |before| && |after| == |before| && (forall k :: 0 <= k < |before| && k != i ==> after[k] == before[k])
    requires after[i].ptr == before[i].ptr
    ensures forall v: RegionView :: v.ptr != before[i].ptr ==> (v in after <==> v in before)
  {
    forall v: RegionView | v.ptr != before[i].ptr ensures v in after <==> v in before {
      if v in after {
        var k :| 0 <= k < |after| && after[k] == v;
        assert before[k] == v;
      }
      if v in before {
        var k :| 0 <= k < |before| && before[k] == v;
        assert after[k] == v;
      }
    }
  }

  /** The pieces of a large chunk share out its units. */
  lemma PieceUnits(l: Addr, chunks: seq<Addr>)
    requires Aligned(l, true) && |chunks| == COMMON_CHUNKS_IN_LARGE_CHUNK && forall i :: 0 <= i < |chunks| ==> chunks[i] == SplitChunk(l, i)
    ensures forall i :: 0 <= i < |chunks| ==> Aligned(chunks[i], false) && Units(chunks[i], false) == {l / COMMON_CHUNK_SIZE + i} && Units(chunks[i], false) <= Units(l, true)
  {
    forall i | 0 <= i < |chunks|
      ensures Aligned(chunks[i], false) && Units(chunks[i], false) == {l / COMMON_CHUNK_SIZE + i} && Units(chunks[i], false) <= Units(l, true)
    {
      PieceUnit(l / LARGE_CHUNK_SIZE, i);
    }
  }

  lemma PieceUnit(k: nat, i: nat)
    requires i < COMMON_CHUNKS_IN_LARGE_CHUNK
    ensures (k * LARGE_CHUNK_SIZE + i * COMMON_CHUNK_SIZE) % COMMON_CHUNK_SIZE == 0
    ensures (k * LARGE_CHUNK_SIZE + i * COMMON_CHUNK_SIZE) / COMMON_CHUNK_SIZE == (k * LARGE_CHUNK_SIZE) / COMMON_CHUNK_SIZE + i
  {
    assert k * LARGE_CHUNK_SIZE + i * COMMON_CHUNK_SIZE == (8 * k + i) * COMMON_CHUNK_SIZE;
  }
}
