/** The allocator's own vector. Growing it allocates and frees, and both may push to and pop from
    the very vector that is growing. */
module SelfVec {
  import opened Buffers

  /** What happens to the vector while something else goes on. Pushing may have to grow it, too, and
      then the same goes on inside. */
  datatype Edit = PushEdit(x: int, rounds: seq<Round>) | PopEdit

  /** One attempt at growing: the edits during the allocation, whether it is granted, and the edits
      while the buffer not needed any more is freed. */
  datatype Round = Round(during: seq<Edit>, granted: bool, after: seq<Edit>)

  /** What a completed operation did. */
  datatype Act = Pushed(x: int) | Popped | SwapRemoved(i: nat)

  ghost function Weight(edits: seq<Edit>): nat {
    if edits == [] then 0 else 1 + (match edits[0] case PushEdit(_, rounds) => RoundsWeight(rounds) case PopEdit => 0) + Weight(edits[1..])
  }

  ghost function RoundsWeight(rounds: seq<Round>): nat {
    if rounds == [] then 1 else 1 + Weight(rounds[0].during) + Weight(rounds[0].after) + RoundsWeight(rounds[1..])
  }

  lemma {:induction false} RoundLighter(rounds: seq<Round>, i: nat)
    requires i < |rounds|
    ensures Weight(rounds[i].during) < RoundsWeight(rounds) && Weight(rounds[i].after) < RoundsWeight(rounds)
  {
    if i > 0 { RoundLighter(rounds[1..], i - 1); }
  }

  lemma {:induction false} EditLighter(edits: seq<Edit>, i: nat)
    requires i < |edits| && edits[i].PushEdit?
    ensures RoundsWeight(edits[i].rounds) < Weight(edits)
  {
    if i > 0 { EditLighter(edits[1..], i - 1); }
  }

  /** The contents that a history of edits leaves. */
  ghost function Replay(acts: seq<Act>): seq<int> {
    if acts == [] then []
    else
      ActOn(Replay(acts[..|acts| - 1]), acts[|acts| - 1])
  }

  ghost function ActOn(before: seq<int>, act: Act): seq<int> {
    match act
    case Pushed(x) => before + [x]
    case Popped => if before == [] then [] else before[..|before| - 1]
    case SwapRemoved(i) => if i >= |before| then before else before[i := before[|before| - 1]][..|before| - 1]
  }

  lemma ReplayOne(acts: seq<Act>, act: Act)
    ensures Replay(acts + [act]) == ActOn(Replay(acts), act)
  {
    assert (acts + [act])[..|acts|] == acts;
  }

  // ----- what edits come to -----

  /** A vector: what it holds, for how many it has room, and what was done to it so far. */
  datatype Vec = Vec(items: seq<int>, cap: nat, acts: seq<Act>)

  datatype Reply = Reply(vec: Vec, ok: bool)

  /** What one attempt at growing leads to, and the capacity to ask for next. */
  datatype Try = Try(vec: Vec, result: Result, minCap: nat)

  datatype Result = Grown | Failed | Retry

  ghost function Done(v: Vec, act: Act): Vec {
    v.(items := ActOn(v.items, act), acts := v.acts + [act])
  }

  /** The vector after the first `n` edits, each in its turn. */
  ghost function Edited(v: Vec, edits: seq<Edit>, n: nat): Vec
    requires n <= |edits|
    decreases edits, n
  {
    if n == 0 then v else EditedBy(Edited(v, edits, n - 1), edits[n - 1])
  }

  /** A push comes after what went on while it was growing, and only if it got its room; a pop of nothing
      is no act. */
  ghost function EditedBy(v: Vec, edit: Edit): Vec
    decreases edit
  {
    match edit
    case PopEdit => if v.items == [] then v else Done(v, Popped)
    case PushEdit(x, rounds) => PushedOn(v, x, rounds)
  }

  ghost function PushedOn(v: Vec, x: int, rounds: seq<Round>): Vec
    decreases rounds, |rounds| + 6
  {
    var r := Reserved(v, 1, rounds);
    if r.ok then Done(r.vec, Pushed(x)) else r.vec
  }

  ghost function Reserved(v: Vec, additional: nat, rounds: seq<Round>): Reply
    decreases rounds, |rounds| + 5
  {
    if v.cap >= |v.items| + additional then Reply(v, true) else Grow(v, additional, |v.items| + additional, rounds, 0)
  }

  /** The attempts from the `i`-th on. After those that have edits nothing goes on. */
  ghost function Grow(v: Vec, additional: nat, minCap: nat, rounds: seq<Round>, i: nat): Reply
    requires i <= |rounds| + 1 && (i == |rounds| + 1 ==> minCap >= |v.items| + additional)
    decreases rounds, |rounds| + 4 - i
  {
    var t := Attempted(v, additional, minCap, rounds, i);
    if t.result.Retry? then Grow(t.vec, additional, t.minCap, rounds, i + 1) else Reply(t.vec, t.result.Grown?)
  }

  /** One attempt. What was allocated is freed if elements were added meanwhile, and the old buffer if
      there is one; in both cases after the vector was brought up to date. */
  ghost function Attempted(v: Vec, additional: nat, minCap: nat, rounds: seq<Round>, i: nat): (t: Try)
    ensures t.result.Retry? && i >= |rounds| ==> minCap < t.minCap == |t.vec.items| + additional == |v.items| + additional
    decreases rounds, 1
  {
    var newCap := NextPowerOfTwo(minCap);
    var w := During(v, rounds, i);
    var needed := |w.items| + additional;
    if needed > newCap then
      Try(if Granted(rounds, i) then After(w, rounds, i) else w, Retry, needed)
    else if !Granted(rounds, i) then
      Try(w, Failed, needed)
    else
      var u := if w.cap != 0 then After(w.(cap := newCap), rounds, i) else w.(cap := newCap);
      Try(u, if |u.items| + additional > newCap then Retry else Grown, |u.items| + additional)
  }

  ghost function During(v: Vec, rounds: seq<Round>, i: nat): (w: Vec)
    ensures i >= |rounds| ==> w == v
    decreases rounds, 0
  {
    if i < |rounds| then Edited(v, rounds[i].during, |rounds[i].during|) else v
  }

  ghost function After(v: Vec, rounds: seq<Round>, i: nat): (w: Vec)
    ensures i >= |rounds| ==> w == v
    decreases rounds, 0
  {
    if i < |rounds| then Edited(v, rounds[i].after, |rounds[i].after|) else v
  }

  predicate Granted(rounds: seq<Round>, i: nat) {
    i < |rounds| ==> rounds[i].granted
  }

  // ----- what they keep -----

  /** The contents are what the history leaves, and there is room for them. A buffer has a power of two of cells. */
  ghost predicate Sound(v: Vec) {
    |v.items| <= v.cap && v.items == Replay(v.acts) && (v.cap == 0 || IsPower(v.cap))
  }

  /** Nothing that was done is undone or moved. */
  ghost predicate Continues(v: Vec, w: Vec) {
    v.acts <= w.acts
  }

  lemma {:induction false} EditedSound(v: Vec, edits: seq<Edit>, n: nat)
    requires Sound(v) && n <= |edits|
    ensures Sound(Edited(v, edits, n)) && Continues(v, Edited(v, edits, n)) && Edited(v, edits, n).cap >= v.cap
    decreases edits, n
  {
    if n > 0 {
      EditedSound(v, edits, n - 1);
      EditSound(Edited(v, edits, n - 1), edits[n - 1]);
    }
  }

  lemma {:induction false} EditSound(v: Vec, edit: Edit)
    requires Sound(v)
    ensures Sound(EditedBy(v, edit)) && Continues(v, EditedBy(v, edit)) && EditedBy(v, edit).cap >= v.cap
    decreases edit
  {
    match edit
    case PopEdit => ReplayOne(v.acts, Popped);
    case PushEdit(x, rounds) =>
      ReservedSound(v, 1, rounds);
      var r := Reserved(v, 1, rounds);
      ReplayOne(r.vec.acts, Pushed(x));
  }

  /** A reservation keeps contents and history together and never takes room away, and the room asked for is
      there if it succeeds. */
  lemma {:induction false} ReservedSound(v: Vec, additional: nat, rounds: seq<Round>)
    requires Sound(v)
    ensures Sound(Reserved(v, additional, rounds).vec) && Continues(v, Reserved(v, additional, rounds).vec)
    ensures Reserved(v, additional, rounds).vec.cap >= v.cap
    ensures Reserved(v, additional, rounds).ok ==> HasRoom(Reserved(v, additional, rounds).vec, additional)
    decreases rounds, |rounds| + 5
  {
    if v.cap < |v.items| + additional { GrowSound(v, v.cap, additional, |v.items| + additional, rounds, 0); }
  }

  predicate HasRoom(v: Vec, additional: nat) {
    v.cap >= |v.items| + additional
  }

  lemma {:induction false} GrowSound(v: Vec, least: nat, additional: nat, minCap: nat, rounds: seq<Round>, i: nat)
    requires Sound(v) && v.cap >= least && minCap > least
    requires i <= |rounds| + 1 && (i == |rounds| + 1 ==> minCap >= |v.items| + additional)
    ensures var r := Grow(v, additional, minCap, rounds, i);
      Sound(r.vec) && Continues(v, r.vec) && r.vec.cap >= least && (r.ok ==> HasRoom(r.vec, additional))
    decreases rounds, |rounds| + 4 - i
  {
    AttemptSound(v, additional, minCap, rounds, i);
    var t := Attempted(v, additional, minCap, rounds, i);
    if t.result.Retry? { GrowSound(t.vec, least, additional, t.minCap, rounds, i + 1); }
  }

  lemma {:induction false} AttemptSound(v: Vec, additional: nat, minCap: nat, rounds: seq<Round>, i: nat)
    requires Sound(v)
    ensures var t := Attempted(v, additional, minCap, rounds, i);
      && Sound(t.vec) && Continues(v, t.vec) && (t.vec.cap >= v.cap || t.vec.cap >= minCap)
      && (t.result.Retry? ==> t.minCap > minCap) && (t.result.Grown? ==> HasRoom(t.vec, additional))
    decreases rounds, 1
  {
    var newCap := NextPowerOfTwo(minCap);
    if i < |rounds| { EditedSound(v, rounds[i].during, |rounds[i].during|); }
    var w := During(v, rounds, i);
    if i < |rounds| && |w.items| + additional > newCap {
      EditedSound(w, rounds[i].after, |rounds[i].after|);
    } else if i < |rounds| {
      EditedSound(w.(cap := newCap), rounds[i].after, |rounds[i].after|);
    }
  }

  /** A reservation fails only if there was no room and an allocation was refused. */
  lemma {:induction false} FailsOnlyIfRefused(v: Vec, additional: nat, rounds: seq<Round>)
    requires !Reserved(v, additional, rounds).ok
    ensures !HasRoom(v, additional) && exists i :: 0 <= i < |rounds| && !rounds[i].granted
  {
    GrowRefused(v, additional, |v.items| + additional, rounds, 0);
  }

  lemma {:induction false} GrowRefused(v: Vec, additional: nat, minCap: nat, rounds: seq<Round>, i: nat)
    requires i <= |rounds| + 1 && (i == |rounds| + 1 ==> minCap >= |v.items| + additional)
    requires !Grow(v, additional, minCap, rounds, i).ok
    ensures exists k :: i <= k < |rounds| && !rounds[k].granted
    decreases |rounds| + 2 - i
  {
    var t := Attempted(v, additional, minCap, rounds, i);
    if t.result.Retry? { GrowRefused(t.vec, additional, t.minCap, rounds, i + 1); }
  }

  /** With nothing going on meanwhile, the room is there, in a buffer of the least power of two of cells that is
      enough and so less than twice what is needed, and nothing else changes. */
  lemma PlainReserve(v: Vec, additional: nat)
    ensures Reserved(v, additional, []) == Reply(if HasRoom(v, additional) then v else v.(cap := NextPowerOfTwo(|v.items| + additional)), true)
  {
    var minCap := |v.items| + additional;
    assert During(v, [], 0) == v;
    assert Attempted(v, additional, minCap, [], 0) == Try(v.(cap := NextPowerOfTwo(minCap)), Grown, minCap);
  }

  /** A refusal fails the reservation even if edits have made the room meanwhile. */
  lemma RefusedDespiteRoom()
    ensures var r := Reserved(Vec([], 0, []), 1, [Round([PushEdit(7, []), PopEdit], false, [])]);
      !r.ok && HasRoom(r.vec, 1) && r.vec.acts == [Pushed(7), Popped]
  {
    var v := Vec([], 0, []);
    var w := Vec([7], 1, [Pushed(7)]);
    assert EditedBy(v, PushEdit(7, [])) == w by {
      assert Attempted(v, 1, 1, [], 0) == Try(v.(cap := 1), Grown, 1);
      assert Grow(v, 1, 1, [], 0) == Reply(v.(cap := 1), true);
    }
    var edits := [PushEdit(7, []), PopEdit];
    assert Edited(v, edits, 1) == w by { assert Edited(v, edits, 0) == v; }
    assert Edited(v, edits, 2) == Vec([], 1, [Pushed(7), Popped]);
    var rounds := [Round(edits, false, [])];
    assert During(v, rounds, 0) == Vec([], 1, [Pushed(7), Popped]);
    assert Attempted(v, 1, 1, rounds, 0).result == Failed;
  }

  // ----- no push is lost -----

  /** What the edits themselves push, apart from what goes on while they do. */
  function Pushes(edits: seq<Edit>, n: nat): seq<int>
    requires n <= |edits|
  {
    if n == 0 then [] else Pushes(edits, n - 1) + match edits[n - 1] case PushEdit(x, _) => [x] case PopEdit => []
  }

  /** These were pushed in this order, whatever was done in between. */
  predicate InOrder(pushes: seq<int>, acts: seq<Act>)
    decreases |acts|
  {
    || pushes == []
    || (acts != [] && InOrder(pushes, acts[..|acts| - 1]))
    || (acts != [] && acts[|acts| - 1] == Pushed(pushes[|pushes| - 1]) && InOrder(pushes[..|pushes| - 1], acts[..|acts| - 1]))
  }

  lemma {:induction false} InOrderLater(pushes: seq<int>, acts: seq<Act>, later: seq<Act>)
    requires InOrder(pushes, acts) && acts <= later
    ensures InOrder(pushes, later)
    decreases |later|
  {
    if acts != later { InOrderLater(pushes, acts, later[..|later| - 1]); }
  }

  /** If none of the pushes' own attempts is refused, all of them come to be, in their order. */
  lemma {:induction false} NoPushLost(v: Vec, edits: seq<Edit>, n: nat)
    requires Sound(v) && n <= |edits|
    requires forall k {:trigger edits[k]} :: 0 <= k < n && edits[k].PushEdit? ==> NoneRefused(edits[k].rounds)
    ensures InOrder(Pushes(edits, n), Since(v, Edited(v, edits, n)))
  {
    if n > 0 {
      NoPushLost(v, edits, n - 1);
      EditedSound(v, edits, n - 1);
      var before := Edited(v, edits, n - 1);
      match edits[n - 1]
      case PopEdit => PopInOrder(v, before, Pushes(edits, n - 1));
      case PushEdit(x, rounds) => PushInOrder(v, before, Pushes(edits, n - 1), x, rounds);
    }
  }

  /** What was done after `v`. */
  ghost function Since(v: Vec, w: Vec): seq<Act> {
    if v.acts <= w.acts then w.acts[|v.acts|..] else []
  }

  lemma PopInOrder(v: Vec, before: Vec, pushes: seq<int>)
    requires Sound(before) && Continues(v, before) && InOrder(pushes, Since(v, before))
    ensures InOrder(pushes + [], Since(v, EditedBy(before, PopEdit)))
  {
    EditSound(before, PopEdit);
    assert pushes + [] == pushes;
    InOrderLater(pushes, Since(v, before), Since(v, EditedBy(before, PopEdit)));
  }

  lemma PushedLater(v: Vec, before: Vec, w: Vec, pushes: seq<int>, x: int)
    requires Continues(v, before) && Continues(before, w) && InOrder(pushes, Since(v, before))
    ensures InOrder(pushes + [x], Since(v, Done(w, Pushed(x))))
  {
    InOrderLater(pushes, Since(v, before), Since(v, w));
    InOrderPush(pushes, x, Since(v, w));
    assert Since(v, Done(w, Pushed(x))) == Since(v, w) + [Pushed(x)];
  }

  lemma InOrderPush(pushes: seq<int>, x: int, acts: seq<Act>)
    requires InOrder(pushes, acts)
    ensures InOrder(pushes + [x], acts + [Pushed(x)])
  {
    assert (acts + [Pushed(x)])[..|acts|] == acts && (pushes + [x])[..|pushes|] == pushes;
  }

  lemma PushInOrder(v: Vec, before: Vec, pushes: seq<int>, x: int, rounds: seq<Round>)
    requires Sound(before) && Continues(v, before) && InOrder(pushes, Since(v, before)) && NoneRefused(rounds)
    ensures InOrder(pushes + [x], Since(v, PushedOn(before, x, rounds)))
  {
    if !Reserved(before, 1, rounds).ok { FailsOnlyIfRefused(before, 1, rounds); }
    ReservedSound(before, 1, rounds);
    PushedLater(v, before, Reserved(before, 1, rounds).vec, pushes, x);
  }

  predicate NoneRefused(rounds: seq<Round>) {
    forall i :: 0 <= i < |rounds| ==> rounds[i].granted
  }

  ghost predicate OwnNotRefused(edits: seq<Edit>) {
    forall k {:trigger edits[k]} :: 0 <= k < |edits| && edits[k].PushEdit? ==> NoneRefused(edits[k].rounds)
  }

  /** Whether an attempt frees a buffer: the one it got in vain, or the old one. */
  ghost predicate Frees(v: Vec, additional: nat, minCap: nat, rounds: seq<Round>, i: nat) {
    var w := During(v, rounds, i);
    Granted(rounds, i) && (|w.items| + additional > NextPowerOfTwo(minCap) || w.cap != 0)
  }

  /** What is pushed while an attempt goes on, and while it frees a buffer. */
  ghost function PushesOf(v: Vec, additional: nat, minCap: nat, rounds: seq<Round>, i: nat): seq<int>
    requires i < |rounds|
  {
    Pushes(rounds[i].during, |rounds[i].during|)
    + if Frees(v, additional, minCap, rounds, i) then Pushes(rounds[i].after, |rounds[i].after|) else []
  }

  lemma {:induction false} InOrderJoin(p: seq<int>, a: seq<Act>, q: seq<int>, b: seq<Act>)
    requires InOrder(p, a) && InOrder(q, b)
    ensures InOrder(p + q, a + b)
    decreases |b|
  {
    if q == [] {
      assert p + q == p;
      InOrderLater(p, a, a + b);
    } else {
      var b', all := b[..|b| - 1], a + b;
      assert all[..|all| - 1] == a + b';
      if InOrder(q, b') {
        InOrderJoin(p, a, q, b');
      } else {
        InOrderJoin(p, a, q[..|q| - 1], b');
        assert (p + q)[..|p + q| - 1] == p + q[..|q| - 1];
      }
    }
  }

  /** First some edits and then some more. */
  lemma TwiceEdited(v: Vec, w: Vec, p: seq<int>, edits: seq<Edit>)
    requires Sound(w) && Continues(v, w) && InOrder(p, Since(v, w)) && OwnNotRefused(edits)
    ensures InOrder(p + Pushes(edits, |edits|), Since(v, Edited(w, edits, |edits|))) && Continues(v, Edited(w, edits, |edits|))
  {
    var u := Edited(w, edits, |edits|);
    NoPushLost(w, edits, |edits|);
    EditedSound(w, edits, |edits|);
    InOrderJoin(p, Since(v, w), Pushes(edits, |edits|), Since(w, u));
    assert Since(v, u) == Since(v, w) + Since(w, u);
  }

  /** Whatever is pushed while an attempt goes on or frees a buffer is in the history after it. */
  lemma PushedInAttempt(v: Vec, additional: nat, minCap: nat, rounds: seq<Round>, i: nat)
    requires Sound(v) && i < |rounds| && OwnNotRefused(rounds[i].during) && OwnNotRefused(rounds[i].after)
    ensures InOrder(PushesOf(v, additional, minCap, rounds, i), Since(v, Attempted(v, additional, minCap, rounds, i).vec))
  {
    var during, after, newCap := rounds[i].during, rounds[i].after, NextPowerOfTwo(minCap);
    var p, w := Pushes(during, |during|), During(v, rounds, i);
    NoPushLost(v, during, |during|);
    EditedSound(v, during, |during|);
    assert p + [] == p && Since(v, w.(cap := newCap)) == Since(v, w);
    if |w.items| + additional > newCap {
      if Granted(rounds, i) { TwiceEdited(v, w, p, after); }
    } else if Granted(rounds, i) && w.cap != 0 {
      TwiceEdited(v, w.(cap := newCap), p, after);
    }
  }

  /** And in that of the grown vector, of whichever attempt it was: nothing that was pushed while a vector grew is
      lost, in the allocation or in the freeing. */
  lemma {:induction false} PushedWhileGrowing(v: Vec, additional: nat, minCap: nat, rounds: seq<Round>, i: nat)
    requires Sound(v) && minCap > 0 && i < |rounds| && OwnNotRefused(rounds[i].during) && OwnNotRefused(rounds[i].after)
    ensures InOrder(PushesOf(v, additional, minCap, rounds, i), Since(v, Grow(v, additional, minCap, rounds, i).vec))
    ensures var t := Attempted(v, additional, minCap, rounds, i);
            t.result.Retry? && i + 1 < |rounds| && OwnNotRefused(rounds[i + 1].during) && OwnNotRefused(rounds[i + 1].after) ==>
              InOrder(PushesOf(t.vec, additional, t.minCap, rounds, i + 1), Since(v, Grow(v, additional, minCap, rounds, i).vec))
    decreases |rounds| - i
  {
    var t, r := Attempted(v, additional, minCap, rounds, i), Grow(v, additional, minCap, rounds, i).vec;
    PushedInAttempt(v, additional, minCap, rounds, i);
    AttemptSound(v, additional, minCap, rounds, i);
    if t.result.Retry? {
      GrowSound(t.vec, 0, additional, t.minCap, rounds, i + 1);
      PushedBefore(v, t.vec, r, PushesOf(v, additional, minCap, rounds, i));
      if i + 1 < |rounds| && OwnNotRefused(rounds[i + 1].during) && OwnNotRefused(rounds[i + 1].after) {
        PushedWhileGrowing(t.vec, additional, t.minCap, rounds, i + 1);
        PushedAfter(v, t.vec, r, PushesOf(t.vec, additional, t.minCap, rounds, i + 1));
      }
    }
  }

  /** What was pushed first stays in the history, and what was pushed later is in the longer one. */
  lemma PushedBefore(v: Vec, w: Vec, u: Vec, p: seq<int>)
    requires Continues(v, w) && Continues(w, u) && InOrder(p, Since(v, w))
    ensures InOrder(p, Since(v, u))
  {
    InOrderLater(p, Since(v, w), Since(v, u));
  }

  lemma PushedAfter(v: Vec, w: Vec, u: Vec, p: seq<int>)
    requires Continues(v, w) && Continues(w, u) && InOrder(p, Since(w, u))
    ensures InOrder(p, Since(v, u))
  {
    InOrderJoin([], Since(v, w), p, Since(w, u));
    assert Since(v, u) == Since(v, w) + Since(w, u) && [] + p == p;
  }

  /** What edits come to when nothing goes on in them: as for a list that always has room. */
  function Plain(items: seq<int>, edits: seq<Edit>, n: nat): seq<int>
    requires n <= |edits|
  {
    if n == 0 then items
    else
      var before := Plain(items, edits, n - 1);
      match edits[n - 1]
      case PushEdit(x, _) => before + [x]
      case PopEdit => if before == [] then [] else before[..|before| - 1]
  }

  lemma {:induction false} PlainEdits(v: Vec, edits: seq<Edit>, n: nat)
    requires n <= |edits| && forall k {:trigger edits[k]} :: 0 <= k < n && edits[k].PushEdit? ==> edits[k].rounds == []
    ensures Edited(v, edits, n).items == Plain(v.items, edits, n)
  {
    if n > 0 {
      PlainEdits(v, edits, n - 1);
      var before := Edited(v, edits, n - 1);
      if edits[n - 1].PushEdit? {
        PlainReserve(before, 1);
        assert Edited(v, edits, n) == PushedOn(before, edits[n - 1].x, []);
      }
    }
  }

  class SelfAllocatedVec {
    var ptr: array?<int>
    var len: nat
    var cap: nat
    /** Every push and pop that was completed. */
    ghost var history: seq<Act>

    ghost predicate Valid()
      reads this, Cells()
    {
      len <= cap && (cap > 0 ==> ptr != null && ptr.Length == cap) && Sound(State())
    }

    ghost function Cells(): set<object>
      reads this
    {
      if ptr == null then {} else {ptr}
    }

    ghost function Contents(): seq<int>
      reads this, Cells()
    {
      if ptr == null || len > ptr.Length then [] else ptr[..len]
    }

    ghost function State(): Vec
      reads this, Cells()
    {
      Vec(Contents(), cap, history)
    }

    constructor ()
      ensures Valid() && Contents() == [] && history == [] && ptr == null
    {
      ptr, len, cap := null, 0, 0;
      history := [];
    }

    /** Room for `additional` more. Exactly the edits on the way happened to the contents. */
    method Reserve(additional: nat, rounds: seq<Round>) returns (ok: bool)
      requires Valid()
      modifies this, Cells()
      ensures Valid() && (ptr == old(ptr) || (ptr != null && fresh(ptr)))
      ensures Reply(State(), ok) == Reserved(old(State()), additional, rounds)
      ensures cap >= old(cap) && (ok ==> cap >= len + additional) && (cap == 0 || IsPower(cap))
      ensures rounds == [] ==> ok && Contents() == old(Contents())
                               && (cap == old(cap) || (old(cap) < len + additional <= cap && cap < 2 * (len + additional)))
      decreases RoundsWeight(rounds), 4
    {
      ReservedSound(State(), additional, rounds);
      PlainReserve(State(), additional);
      if cap >= len + additional { return true; }
      ok := ReserveSlow(additional, rounds);
    }

    method ReserveSlow(additional: nat, rounds: seq<Round>) returns (ok: bool)
      requires Valid() && len + additional > cap
      modifies this, Cells()
      ensures Valid() && (ptr == old(ptr) || (ptr != null && fresh(ptr)))
      ensures Reply(State(), ok) == Grow(old(State()), additional, old(len) + additional, rounds, 0)
      ensures cap >= old(cap) && (ok ==> cap >= len + additional)
      decreases RoundsWeight(rounds), 3
    {
      GrowSound(State(), cap, additional, len + additional, rounds, 0);
      ok := GrowFrom(additional, rounds);
    }

    method GrowFrom(additional: nat, rounds: seq<Round>) returns (ok: bool)
      requires Valid()
      modifies this, Cells()
      ensures Valid() && (ptr == old(ptr) || (ptr != null && fresh(ptr)))
      ensures Reply(State(), ok) == Grow(old(State()), additional, old(len) + additional, rounds, 0)
      decreases RoundsWeight(rounds), 2
    {
      var minCap: nat := len + additional;
      var i := 0;
      while true
        invariant Valid() && (ptr == old(ptr) || (ptr != null && fresh(ptr)))
        invariant i <= |rounds| + 1 && (i == |rounds| + 1 ==> minCap >= len + additional)
        invariant Grow(State(), additional, minCap, rounds, i) == Grow(old(State()), additional, old(len) + additional, rounds, 0)
        decreases |rounds| + 2 - i
      {
        var result;
        result, minCap := Attempt(additional, minCap, rounds, i);
        i := i + 1;
        if !result.Retry? { return result.Grown?; }
      }
    }

    /** One attempt at growing to `minCap`, or to as much as is needed then. It is made again if
        elements were added meanwhile. The new attempt asks for what was needed before the last edits,
        so that even one without edits may have to be followed by another. */
    method Attempt(additional: nat, minCap: nat, rounds: seq<Round>, i: nat) returns (result: Result, minCap': nat)
      requires Valid()
      modifies this, Cells()
      ensures Valid() && (ptr == old(ptr) || (ptr != null && fresh(ptr)))
      ensures Try(State(), result, minCap') == Attempted(old(State()), additional, minCap, rounds, i)
      decreases RoundsWeight(rounds), 1
    {
      var newCap := NextPowerOfTwo(minCap);
      RunDuring(rounds, i);
      minCap' := len + additional;
      if minCap' > newCap {
        // Elements were added during the allocation.
        if Granted(rounds, i) { RunAfter(rounds, i); }
        return Retry, minCap';
      }
      if !Granted(rounds, i) { return Failed, minCap'; }
      // First the vector is updated and only then the old buffer is freed.
      var oldCap := cap;
      Move(newCap);
      if oldCap != 0 { RunAfter(rounds, i); }
      minCap' := len + additional;
      if minCap' > newCap { return Retry, minCap'; }
      return Grown, minCap';
    }

    method RunDuring(rounds: seq<Round>, i: nat)
      requires Valid()
      modifies this, Cells()
      ensures Valid() && (ptr == old(ptr) || (ptr != null && fresh(ptr)))
      ensures State() == During(old(State()), rounds, i)
      decreases RoundsWeight(rounds), 0
    {
      if i < |rounds| {
        RoundLighter(rounds, i);
        Run(rounds[i].during);
      }
    }

    method RunAfter(rounds: seq<Round>, i: nat)
      requires Valid()
      modifies this, Cells()
      ensures Valid() && (ptr == old(ptr) || (ptr != null && fresh(ptr)))
      ensures State() == After(old(State()), rounds, i)
      decreases RoundsWeight(rounds), 0
    {
      if i < |rounds| {
        RoundLighter(rounds, i);
        Run(rounds[i].after);
      }
    }

    /** Everything goes to a new buffer. */
    method Move(newCap: nat)
      requires Valid() && len <= newCap && newCap > 0 && IsPower(newCap)
      modifies this`ptr, this`cap
      ensures Valid() && ptr != null && fresh(ptr) && State() == old(State()).(cap := newCap)
    {
      var newPtr := new int[newCap];
      for k := 0 to len
        invariant ptr == old(ptr) && cap == old(cap) && len == old(len)
        invariant forall j :: 0 <= j < k ==> newPtr[j] == ptr[j]
      {
        newPtr[k] := ptr[k];
      }
      ghost var before := Contents();
      cap, ptr := newCap, newPtr;
      assert Contents() == before;
    }

    /** The edits that go on meanwhile. */
    method Run(edits: seq<Edit>)
      requires Valid()
      modifies this, Cells()
      ensures Valid() && (ptr == old(ptr) || (ptr != null && fresh(ptr)))
      ensures State() == Edited(old(State()), edits, |edits|)
      decreases Weight(edits), 7
    {
      for i := 0 to |edits|
        invariant Valid() && (ptr == old(ptr) || (ptr != null && fresh(ptr)))
        invariant State() == Edited(old(State()), edits, i)
      {
        if edits[i].PushEdit? { EditLighter(edits, i); }
        Apply(edits[i], Weight(edits));
      }
    }

    method Apply(edit: Edit, ghost weight: nat)
      requires Valid() && (edit.PushEdit? ==> RoundsWeight(edit.rounds) < weight)
      modifies this, Cells()
      ensures Valid() && (ptr == old(ptr) || (ptr != null && fresh(ptr)))
      ensures State() == EditedBy(old(State()), edit)
      decreases weight, 6
    {
      match edit
      case PushEdit(x, rounds) => var ok := Push(x, rounds);
      case PopEdit => var x := Pop();
    }

    /** The element comes after whatever was edited while there was no room for it, and comes at all exactly
        if its room was granted. */
    method Push(x: int, rounds: seq<Round>) returns (ok: bool)
      requires Valid()
      modifies this, Cells()
      ensures Valid() && (ptr == old(ptr) || (ptr != null && fresh(ptr)))
      ensures State() == PushedOn(old(State()), x, rounds) && ok == Reserved(old(State()), 1, rounds).ok
      ensures ok ==> len > 0 && Contents()[len - 1] == x
      decreases RoundsWeight(rounds), 5
    {
      ok := Reserve(1, rounds);
      if ok { Write(x); }
    }

    method Write(x: int)
      requires Valid() && len < cap
      modifies this`len, this`history, Cells()
      ensures Valid() && State() == Done(old(State()), Pushed(x)) && len == old(len) + 1
    {
      ReplayOne(history, Pushed(x));
      ptr[len] := x;
      len := len + 1;
      history := history + [Pushed(x)];
    }

    method TryPush(x: int) returns (ok: bool)
      requires Valid()
      modifies this`len, this`history, Cells()
      ensures Valid() && ok == (old(len) < cap)
      ensures Contents() == old(Contents()) + if ok then [x] else []
    {
      ok := len < cap;
      if ok { Write(x); }
    }

    method Pop() returns (x: int)
      requires Valid()
      modifies this`len, this`history
      ensures Valid() && State() == EditedBy(old(State()), PopEdit)
      ensures old(len) > 0 ==> x == old(Contents())[old(len) - 1] && Contents() == old(Contents())[..old(len) - 1]
      ensures old(len) == 0 ==> unchanged(this)
    {
      if len == 0 { return 0; }
      x := ptr[len - 1];
      ReplayOne(history, Popped);
      len := len - 1;
      history := history + [Popped];
    }

    /** The last element takes the place of the removed one. */
    method SwapRemove(i: nat) returns (x: int)
      requires Valid() && i < len
      modifies this`len, this`history, Cells()
      ensures Valid() && x == old(Contents())[i]
      ensures Contents() == old(Contents())[i := old(Contents())[old(len) - 1]][..old(len) - 1]
    {
      ghost var before := Contents();
      ReplayOne(history, SwapRemoved(i));
      x := ptr[i];
      len := len - 1;
      ptr[i] := ptr[len];
      history := history + [SwapRemoved(i)];
      assert Contents() == before[i := before[|before| - 1]][..len];
    }
  }
}
