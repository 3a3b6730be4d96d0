/** How pointers freed on a foreign thread come home: the freeing thread pushes a message to the
    owner's list by compare-and-swap, the owner takes its whole list by swap, and the node that
    carried a message is sent home by the same way. Threads take steps in any order.

    To hand a pointer it got to its table, a thread may have to allocate, and that may make it take its
    list again while it is still draining the last one. So what takes the steps are activations: each
    call that drains or frees is one, and a thread can have any number of them under way. Nothing here
    demands that the innermost goes first; the order in which a thread runs them is one of those covered. */
module ReturnProtocol {
  type Ptr = nat

  /** No node. */
  const NULL: Ptr := 0

  /** Which thread's chunk a pointer is in, as the chunk's metadata say. */
  type Owner = Ptr -> nat

  /** What an activation is in the middle of: draining at a node; holding a node it has read, with the
      value and the link that it saw, while the value is put where it belongs; or pushing a node onto a
      thread's list, with the head it saw last. After that it goes on with the rest of its list. */
  datatype Pc =
    | Idle
    | Draining(cur: Ptr)
    | Holding(node: Ptr, read: Ptr, rest: Ptr)
    | Pushing(node: Ptr, target: nat, seen: Ptr, rest: Ptr)

  /** Where a node is: the `i`-th from the end of a thread's list, or of what an activation still has to
      drain, or in an activation's hand. */
  datatype Place = InList(t: nat, i: nat) | InSeg(a: nat, i: nat) | InHand(a: nat)

  /** Heads, node fields, free tables and what users hold; the activations, with the thread of each. The
      rest is bookkeeping: the lists and the segments being drained as sequences, last node first, and where
      each node is. */
  datatype Sys = Sys(
    heads: seq<Ptr>, next: map<Ptr, Ptr>, value: map<Ptr, Ptr>, tables: seq<set<Ptr>>, users: set<Ptr>,
    pcs: seq<Pc>, who: seq<nat>,
    lists: seq<seq<Ptr>>, segs: seq<seq<Ptr>>, places: map<Ptr, Place>)

  /** The node a sequence starts with, as the links go. */
  function Top(s: seq<Ptr>): Ptr {
    if s == [] then NULL else s[|s| - 1]
  }

  predicate InTheHand(pc: Pc, q: Ptr) {
    (pc.Holding? || pc.Pushing?) && pc.node == q
  }

  // ----- steps -----

  ghost predicate Sizes(s: Sys) {
    && |s.heads| == |s.tables| == |s.lists| && |s.pcs| == |s.who| == |s.segs|
    && forall a :: 0 <= a < |s.who| ==> s.who[a] < |s.heads|
  }

  /** Activation `a` frees `p`, which is another thread's: it takes a node of its own thread's for the
      message and sees the owner's list. */
  ghost predicate CanFree(owner: Owner, s: Sys, a: nat, p: Ptr, node: Ptr) {
    && Sizes(s) && a < |s.pcs| && s.pcs[a] == Idle
    && p in s.users && owner(p) != s.who[a] && owner(p) < |s.heads|
    && node in s.tables[s.who[a]]
  }

  ghost function FreeForeign(owner: Owner, s: Sys, a: nat, p: Ptr, node: Ptr): Sys
    requires Sizes(s) && a < |s.pcs| && owner(p) < |s.heads|
  {
    var t := s.who[a];
    s.(users := s.users - {p}, tables := s.tables[t := s.tables[t] - {node}],
       next := s.next[node := NULL], value := s.value[node := p],
       pcs := s.pcs[a := Pushing(node, owner(p), s.heads[owner(p)], NULL)],
       places := s.places[node := InHand(a)])
  }

  /** What an activation does after its push: it goes on draining, or is done. */
  function Resume(rest: Ptr): Pc {
    if rest == NULL then Idle else Draining(rest)
  }

  ghost predicate CanPush(s: Sys, a: nat) {
    Sizes(s) && a < |s.pcs| && s.pcs[a].Pushing? && s.pcs[a].target < |s.heads|
  }

  /** The node takes the place of the head that it was linked to. */
  ghost function CasDone(s: Sys, a: nat): Sys
    requires CanPush(s, a)
  {
    var Pushing(node, target, seen, rest) := s.pcs[a];
    s.(next := s.next[node := seen], heads := s.heads[target := node], pcs := s.pcs[a := Resume(rest)],
       lists := s.lists[target := s.lists[target] + [node]], places := s.places[node := InList(target, |s.lists[target]|)])
  }

  ghost function CasAgain(s: Sys, a: nat): Sys
    requires CanPush(s, a)
  {
    var Pushing(node, target, seen, rest) := s.pcs[a];
    s.(next := s.next[node := seen], pcs := s.pcs[a := Pushing(node, target, s.heads[target], rest)])
  }

  /** One round of the compare-and-swap loop: the node is linked to the head seen last; if that still
      is the head, the node takes its place, otherwise the head is seen again. It may also fail
      without reason. */
  ghost function CasRound(s: Sys, a: nat, spurious: bool): Sys
    requires CanPush(s, a)
  {
    if s.heads[s.pcs[a].target] == s.pcs[a].seen && !spurious then CasDone(s, a) else CasAgain(s, a)
  }

  /** Activation `a` takes its thread's whole list, whatever else its thread is draining. */
  ghost function TakeList(s: Sys, a: nat): Sys
    requires Sizes(s) && a < |s.pcs|
  {
    var t := s.who[a];
    s.(heads := s.heads[t := NULL], pcs := s.pcs[a := Resume(s.heads[t])],
       lists := s.lists[t := []], segs := s.segs[a := s.lists[t]],
       places := map q | q in s.places :: if s.places[q].InList? && s.places[q].t == t then InSeg(a, s.places[q].i) else s.places[q])
  }

  ghost predicate CanRead(s: Sys, a: nat) {
    && Sizes(s) && a < |s.pcs| && s.pcs[a].Draining? && s.segs[a] != []
    && s.pcs[a].cur in s.value && s.pcs[a].cur in s.next
  }

  /** The activation reads the next message of the list it took. */
  ghost function Read(s: Sys, a: nat): Sys
    requires CanRead(s, a)
  {
    var cur := s.pcs[a].cur;
    s.(pcs := s.pcs[a := Holding(cur, s.value[cur], s.next[cur])],
       segs := s.segs[a := s.segs[a][..|s.segs[a]| - 1]], places := s.places[cur := InHand(a)])
  }

  ghost predicate CanDeliver(owner: Owner, s: Sys, a: nat) {
    Sizes(s) && a < |s.pcs| && s.pcs[a].Holding? && owner(s.pcs[a].node) < |s.heads|
  }

  /** A node that named itself has come home. */
  ghost function CameHome(owner: Owner, s: Sys, a: nat): Sys
    requires CanDeliver(owner, s, a)
  {
    var Holding(node, read, rest) := s.pcs[a];
    s.(tables := s.tables[s.who[a] := s.tables[s.who[a]] + {node}], pcs := s.pcs[a := Resume(rest)],
       places := s.places - {node})
  }

  /** Any other carried a pointer of this thread's; now it is itself sent home. */
  ghost function TurnedRound(owner: Owner, s: Sys, a: nat): Sys
    requires CanDeliver(owner, s, a)
  {
    var Holding(node, read, rest) := s.pcs[a];
    s.(tables := s.tables[s.who[a] := s.tables[s.who[a]] + {read}], value := s.value[node := node],
       pcs := s.pcs[a := Pushing(node, owner(node), s.heads[owner(node)], rest)])
  }

  /** What was read is put into the table, and from here on the activation has no more use for what it
      read. Between reading and this anything may happen, and the thread may take its list again. */
  ghost function Deliver(owner: Owner, s: Sys, a: nat): Sys
    requires CanDeliver(owner, s, a)
  {
    if s.pcs[a].read == s.pcs[a].node then CameHome(owner, s, a) else TurnedRound(owner, s, a)
  }

  /** A thread's own user takes a pointer from its table, or hands one that it holds back. */
  function Alloc(s: Sys, t: nat, p: Ptr): Sys
    requires t < |s.tables|
  {
    s.(tables := s.tables[t := s.tables[t] - {p}], users := s.users + {p})
  }

  function FreeLocal(s: Sys, t: nat, p: Ptr): Sys
    requires t < |s.tables|
  {
    s.(tables := s.tables[t := s.tables[t] + {p}], users := s.users - {p})
  }

  /** Thread `t` commits new slots of its own to its table. */
  function AddSlots(s: Sys, t: nat, slots: set<Ptr>): Sys
    requires t < |s.tables|
  {
    s.(tables := s.tables[t := s.tables[t] + slots])
  }

  datatype Step =
    | FreeForeignStep(a: nat, p: Ptr, node: Ptr)
    | CasStep(a: nat, spurious: bool)
    | TakeListStep(a: nat)
    | ReadStep(a: nat)
    | DeliverStep(a: nat)
    | AllocStep(t: nat, p: Ptr)
    | FreeLocalStep(t: nat, p: Ptr)
    | AddSlotsStep(t: nat, slots: set<Ptr>)

  /** No user, table, message or node has the pointer. */
  ghost predicate Unknown(s: Sys, p: Ptr) {
    && p != NULL && p !in s.users && p !in s.places
    && (forall t :: 0 <= t < |s.tables| ==> p !in s.tables[t])
    && (forall q :: q in s.places && q in s.value ==> s.value[q] != p)
  }

  ghost predicate Next(owner: Owner, s: Sys, s': Sys, step: Step) {
    match step
    case FreeForeignStep(a, p, node) => CanFree(owner, s, a, p, node) && s' == FreeForeign(owner, s, a, p, node)
    case CasStep(a, spurious) => CanPush(s, a) && s' == CasRound(s, a, spurious)
    case TakeListStep(a) => Sizes(s) && a < |s.pcs| && s.pcs[a] == Idle && s' == TakeList(s, a)
    case ReadStep(a) => CanRead(s, a) && s' == Read(s, a)
    case DeliverStep(a) => CanDeliver(owner, s, a) && s' == Deliver(owner, s, a)
    case AllocStep(t, p) => t < |s.tables| && p in s.tables[t] && s' == Alloc(s, t, p)
    case FreeLocalStep(t, p) => t < |s.tables| && p in s.users && owner(p) == t && s' == FreeLocal(s, t, p)
    case AddSlotsStep(t, slots) => t < |s.tables| && (forall p :: p in slots ==> owner(p) == t && Unknown(s, p)) && s' == AddSlots(s, t, slots)
  }

  // ----- what always holds -----

  /** Node `i` of a sequence is where `place` says and links to the one before it. */
  ghost predicate Linked(s: Sys, nodes: seq<Ptr>, i: nat, place: Place)
    requires i < |nodes|
  {
    && nodes[i] != NULL && nodes[i] in s.places && s.places[nodes[i]] == place
    && nodes[i] in s.next && s.next[nodes[i]] == Top(nodes[..i]) && nodes[i] in s.value
  }

  ghost predicate ListLinked(s: Sys, t: nat)
    requires t < |s.lists|
  {
    forall i {:trigger s.lists[t][i]} :: 0 <= i < |s.lists[t]| ==> Linked(s, s.lists[t], i, InList(t, i))
  }

  ghost predicate SegLinked(s: Sys, a: nat)
    requires a < |s.segs|
  {
    forall i {:trigger s.segs[a][i]} :: 0 <= i < |s.segs[a]| ==> Linked(s, s.segs[a], i, InSeg(a, i))
  }

  ghost predicate ListOk(s: Sys, t: nat)
    requires Sizes(s) && t < |s.heads|
  {
    ListLinked(s, t) && s.heads[t] == Top(s.lists[t])
  }

  ghost predicate HandOk(s: Sys, a: nat, node: Ptr) {
    node != NULL && node in s.places && s.places[node] == InHand(a) && node in s.next && node in s.value
  }

  /** What an activation does fits with what it still has to drain; what it has read still stands. */
  ghost predicate PcOk(s: Sys, a: nat)
    requires a < |s.pcs| && a < |s.segs|
  {
    match s.pcs[a]
    case Idle => s.segs[a] == []
    case Draining(cur) => cur != NULL && cur == Top(s.segs[a])
    case Holding(node, read, rest) => rest == Top(s.segs[a]) && HandOk(s, a, node) && s.value[node] == read
    case Pushing(node, target, _, rest) => rest == Top(s.segs[a]) && target < |s.heads| && HandOk(s, a, node)
  }

  ghost predicate ActivationOk(s: Sys, a: nat)
    requires Sizes(s) && a < |s.pcs|
  {
    SegLinked(s, a) && PcOk(s, a)
  }

  ghost predicate PlaceOk(s: Sys, q: Ptr)
    requires q in s.places && Sizes(s)
  {
    match s.places[q]
    case InList(t, i) => t < |s.lists| && i < |s.lists[t]| && s.lists[t][i] == q
    case InSeg(a, i) => a < |s.segs| && i < |s.segs[a]| && s.segs[a][i] == q
    case InHand(a) => a < |s.pcs| && InTheHand(s.pcs[a], q)
  }

  /** The thread a node in transit is for. */
  ghost function Target(s: Sys, q: Ptr): nat
    requires q in s.places && Sizes(s) && PlaceOk(s, q)
  {
    match s.places[q]
    case InList(t, _) => t
    case InSeg(a, _) => s.who[a]
    case InHand(a) => if s.pcs[a].Pushing? then s.pcs[a].target else s.who[a]
  }

  /** A message names its own node exactly if it is for the node's owner; any other pointer it names
      belongs to the thread it is for. */
  ghost predicate MessageOk(owner: Owner, s: Sys, q: Ptr)
    requires q in s.places && Sizes(s) && PlaceOk(s, q)
  {
    && q in s.value && s.value[q] != NULL && owner(q) < |s.heads|
    && (s.value[q] == q <==> owner(q) == Target(s, q))
    && (s.value[q] != q ==> owner(s.value[q]) == Target(s, q))
  }

  ghost predicate NodeOk(owner: Owner, s: Sys, q: Ptr)
    requires q in s.places && Sizes(s)
  {
    PlaceOk(s, q) && MessageOk(owner, s, q)
  }

  /** Pointers on their way in messages. */
  ghost function InFlight(s: Sys): set<Ptr> {
    set q | q in s.places && q in s.value && s.value[q] != q :: s.value[q]
  }

  ghost predicate TwoMessages(s: Sys, q: Ptr, r: Ptr) {
    q in s.places && r in s.places && q in s.value && r in s.value && q != r && s.value[q] != q && s.value[r] != r ==> s.value[q] != s.value[r]
  }

  ghost predicate TableEntryOk(owner: Owner, s: Sys, t: nat, p: Ptr) {
    owner(p) == t && p !in s.users && p !in s.places && p != NULL
  }

  ghost predicate TablesOk(owner: Owner, s: Sys) {
    forall t, p {:trigger p in s.tables[t]} :: 0 <= t < |s.tables| && p in s.tables[t] ==> TableEntryOk(owner, s, t, p)
  }

  /** Each pointer is in one place: with a user, in its owner's table, in one message, or a message's node. */
  ghost predicate PointersOk(owner: Owner, s: Sys) {
    && TablesOk(owner, s)
    && (forall p :: p in s.users ==> p !in s.places && p != NULL)
    && (forall q {:trigger s.value[q]} :: q in s.places && q in s.value && s.value[q] != q ==>
          s.value[q] !in s.users && s.value[q] !in s.places && forall t :: 0 <= t < |s.tables| ==> s.value[q] !in s.tables[t])
    && (forall q, r {:trigger TwoMessages(s, q, r)} :: TwoMessages(s, q, r))
  }

  ghost predicate Inv(owner: Owner, s: Sys) {
    && Sizes(s)
    && (forall t {:trigger ListOk(s, t)} :: 0 <= t < |s.heads| ==> ListOk(s, t))
    && (forall a {:trigger ActivationOk(s, a)} :: 0 <= a < |s.pcs| ==> ActivationOk(s, a))
    && (forall q {:trigger NodeOk(owner, s, q)} :: q in s.places ==> NodeOk(owner, s, q))
    && PointersOk(owner, s)
  }

  ghost predicate Init(s: Sys) {
    && Sizes(s) && s.users == {} && s.places == map[] && s.value == map[] && s.next == map[]
    && (forall t :: 0 <= t < |s.heads| ==> s.heads[t] == NULL && s.tables[t] == {} && s.lists[t] == [])
    && (forall a :: 0 <= a < |s.pcs| ==> s.pcs[a] == Idle && s.segs[a] == [])
  }

  lemma InitInv(owner: Owner, s: Sys)
    requires Init(s)
    ensures Inv(owner, s)
  {
    forall t | 0 <= t < |s.heads| ensures ListOk(s, t) {}
    forall a | 0 <= a < |s.pcs| ensures ActivationOk(s, a) {}
  }

  // ----- every step keeps it -----

  /** Steps that leave the lists, the messages and the activations alone. */
  ghost predicate SameTransit(s: Sys, s': Sys) {
    && s'.heads == s.heads && s'.next == s.next && s'.value == s.value && s'.pcs == s.pcs && s'.who == s.who
    && s'.lists == s.lists && s'.segs == s.segs && s'.places == s.places
    && |s'.tables| == |s.tables|
  }

  lemma TransitKept(owner: Owner, s: Sys, s': Sys)
    requires Inv(owner, s) && SameTransit(s, s') && PointersOk(owner, s')
    ensures Inv(owner, s')
  {
    forall t | 0 <= t < |s'.heads| ensures ListOk(s', t) {
      assert ListOk(s, t);
      forall i | 0 <= i < |s'.lists[t]| ensures Linked(s', s'.lists[t], i, InList(t, i)) { assert Linked(s, s.lists[t], i, InList(t, i)); }
    }
    forall a | 0 <= a < |s'.pcs| ensures ActivationOk(s', a) {
      assert ActivationOk(s, a);
      forall i | 0 <= i < |s'.segs[a]| ensures Linked(s', s'.segs[a], i, InSeg(a, i)) { assert Linked(s, s.segs[a], i, InSeg(a, i)); }
    }
    forall q | q in s'.places ensures NodeOk(owner, s', q) { assert NodeOk(owner, s, q); }
  }

  lemma AllocInv(owner: Owner, s: Sys, t: nat, p: Ptr)
    requires Inv(owner, s) && t < |s.tables| && p in s.tables[t]
    ensures Inv(owner, Alloc(s, t, p))
  {
    var s' := Alloc(s, t, p);
    forall q, r ensures TwoMessages(s', q, r) { assert TwoMessages(s, q, r); }
    forall u | 0 <= u < |s'.tables| ensures p !in s'.tables[u] {}
    forall q | q in s'.places && q in s'.value && s'.value[q] != q ensures s'.value[q] != p { assert s.value[q] == s'.value[q]; }
    TransitKept(owner, s, s');
  }

  lemma FreeLocalInv(owner: Owner, s: Sys, t: nat, p: Ptr)
    requires Inv(owner, s) && t < |s.tables| && p in s.users && owner(p) == t
    ensures Inv(owner, FreeLocal(s, t, p))
  {
    var s' := FreeLocal(s, t, p);
    forall q, r ensures TwoMessages(s', q, r) { assert TwoMessages(s, q, r); }
    forall u, q | 0 <= u < |s'.tables| && q in s'.tables[u] ensures TableEntryOk(owner, s', u, q) {
      if q != p { assert q in s.tables[u]; }
    }
    forall q | q in s'.places && q in s'.value && s'.value[q] != q ensures s'.value[q] != p { assert s.value[q] == s'.value[q]; }
    TransitKept(owner, s, s');
  }

  lemma AddSlotsInv(owner: Owner, s: Sys, t: nat, slots: set<Ptr>)
    requires Inv(owner, s) && t < |s.tables| && forall p :: p in slots ==> owner(p) == t && Unknown(s, p)
    ensures Inv(owner, AddSlots(s, t, slots))
  {
    var s' := AddSlots(s, t, slots);
    forall q, r ensures TwoMessages(s', q, r) { assert TwoMessages(s, q, r); }
    forall u, q | 0 <= u < |s'.tables| && q in s'.tables[u] ensures TableEntryOk(owner, s', u, q) {
      if q in slots { assert Unknown(s, q); } else { assert q in s.tables[u]; }
    }
    forall p, q | p in slots && q in s.places && q in s.value ensures s.value[q] != p { assert Unknown(s, p); }
    forall q, u | q in s'.places && q in s'.value && s'.value[q] != q && 0 <= u < |s'.tables| ensures s'.value[q] !in s'.tables[u] {
      assert s.value[q] == s'.value[q];
    }
    TransitKept(owner, s, s');
  }

  /** No node but `x` changed its place, its link or its value. */
  ghost predicate SameNodesBut(s: Sys, s': Sys, x: Ptr) {
    forall q {:trigger s.places[q]} {:trigger q in s.places} :: q in s.places && q != x && q in s.next && q in s.value ==>
      q in s'.places && s'.places[q] == s.places[q] && q in s'.next && s'.next[q] == s.next[q] && q in s'.value && s'.value[q] == s.value[q]
  }

  lemma ListKept(s: Sys, s': Sys, x: Ptr, u: nat)
    requires u < |s.lists| && u < |s'.lists| && ListLinked(s, u) && SameNodesBut(s, s', x)
    requires s.lists[u] <= s'.lists[u] && (x in s.places && s.places[x].InList? ==> s.places[x].t != u)
    ensures forall i :: 0 <= i < |s.lists[u]| ==> Linked(s', s'.lists[u], i, InList(u, i))
  {
    forall i | 0 <= i < |s.lists[u]| ensures Linked(s', s'.lists[u], i, InList(u, i)) {
      assert Linked(s, s.lists[u], i, InList(u, i)) && s'.lists[u][..i] == s.lists[u][..i];
    }
  }

  lemma SegKept(s: Sys, s': Sys, x: Ptr, b: nat)
    requires b < |s.segs| && b < |s'.segs| && SegLinked(s, b) && SameNodesBut(s, s', x)
    requires s'.segs[b] <= s.segs[b] && (x in s.places && s.places[x].InSeg? && s.places[x].a == b ==> s.places[x].i >= |s'.segs[b]|)
    ensures SegLinked(s', b)
  {
    forall i | 0 <= i < |s'.segs[b]| ensures Linked(s', s'.segs[b], i, InSeg(b, i)) {
      assert s'.segs[b][i] == s.segs[b][i];
      assert Linked(s, s.segs[b], i, InSeg(b, i)) && s'.segs[b][..i] == s.segs[b][..i];
    }
  }

  lemma OtherPcKept(s: Sys, s': Sys, x: Ptr, b: nat)
    requires b < |s.pcs| && b < |s.segs| && |s'.heads| == |s.heads| && b < |s'.pcs| && b < |s'.segs| && PcOk(s, b) && SameNodesBut(s, s', x)
    requires s'.pcs[b] == s.pcs[b] && s'.segs[b] == s.segs[b] && (x in s.places ==> s.places[x] != InHand(b))
    ensures PcOk(s', b)
  {}

  /** A list that did not change, and an activation that did not, while one node `x` elsewhere may have. */
  lemma OtherListKept(s: Sys, s': Sys, x: Ptr, u: nat)
    requires Sizes(s) && Sizes(s') && u < |s.heads| == |s'.heads| && ListOk(s, u) && SameNodesBut(s, s', x)
    requires s'.lists[u] == s.lists[u] && s'.heads[u] == s.heads[u] && (x in s.places && s.places[x].InList? ==> s.places[x].t != u)
    ensures ListOk(s', u)
  {
    ListKept(s, s', x, u);
  }

  lemma OtherActivationKept(s: Sys, s': Sys, x: Ptr, b: nat)
    requires Sizes(s) && Sizes(s') && b < |s.pcs| == |s'.pcs| && |s'.heads| == |s.heads| && ActivationOk(s, b) && SameNodesBut(s, s', x)
    requires s'.pcs[b] == s.pcs[b] && s'.segs[b] == s.segs[b]
    requires x in s.places ==> s.places[x] != InHand(b) && !(s.places[x].InSeg? && s.places[x].a == b)
    ensures ActivationOk(s', b)
  {
    SegKept(s, s', x, b);
    OtherPcKept(s, s', x, b);
  }

  // ----- freeing a foreign pointer -----

  lemma FreeForeignInv(owner: Owner, s: Sys, a: nat, p: Ptr, node: Ptr)
    requires Inv(owner, s) && CanFree(owner, s, a, p, node)
    ensures Inv(owner, FreeForeign(owner, s, a, p, node))
  {
    var s' := FreeForeign(owner, s, a, p, node);
    assert TableEntryOk(owner, s, s.who[a], node);
    forall u | 0 <= u < |s'.heads| ensures ListOk(s', u) {
      assert ListOk(s, u);
      OtherListKept(s, s', node, u);
    }
    forall b | 0 <= b < |s'.pcs| ensures ActivationOk(s', b) {
      assert ActivationOk(s, b);
      if b == a { SegKept(s, s', node, b); } else { OtherActivationKept(s, s', node, b); }
    }
    FreeForeignNodes(owner, s, a, p, node);
    FreeForeignPointers(owner, s, a, p, node);
  }

  lemma FreeForeignNodes(owner: Owner, s: Sys, a: nat, p: Ptr, node: Ptr)
    requires Inv(owner, s) && CanFree(owner, s, a, p, node)
    ensures var s' := FreeForeign(owner, s, a, p, node);
            Sizes(s') && forall q {:trigger NodeOk(owner, s', q)} :: q in s'.places ==> NodeOk(owner, s', q)
  {
    var s' := FreeForeign(owner, s, a, p, node);
    assert TableEntryOk(owner, s, s.who[a], node);
    forall q | q in s'.places ensures NodeOk(owner, s', q) {
      if q != node { assert NodeOk(owner, s, q); }
    }
  }

  lemma FreeForeignPointers(owner: Owner, s: Sys, a: nat, p: Ptr, node: Ptr)
    requires PointersOk(owner, s) && CanFree(owner, s, a, p, node)
    ensures PointersOk(owner, FreeForeign(owner, s, a, p, node))
  {
    var s' := FreeForeign(owner, s, a, p, node);
    forall q, r ensures TwoMessages(s', q, r) { assert TwoMessages(s, q, r); }
  }

  lemma FreeForeignFlight(owner: Owner, s: Sys, a: nat, p: Ptr, node: Ptr)
    requires PointersOk(owner, s) && CanFree(owner, s, a, p, node)
    ensures InFlight(FreeForeign(owner, s, a, p, node)) == InFlight(s) + {p} && p !in InFlight(s)
  {
    var s' := FreeForeign(owner, s, a, p, node);
    forall x ensures x in InFlight(s') <==> x in InFlight(s) || x == p {
      if x in InFlight(s) {
        var q :| q in s.places && q in s.value && s.value[q] != q && s.value[q] == x;
        assert q in s'.places && s'.value[q] == x;
      }
      if x == p { assert node in s'.places && s'.value[node] == p; }
    }
  }

  // ----- the compare-and-swap -----

  lemma CasInv(owner: Owner, s: Sys, a: nat, spurious: bool)
    requires Inv(owner, s) && CanPush(s, a)
    ensures Inv(owner, CasRound(s, a, spurious))
  {
    if s.heads[s.pcs[a].target] == s.pcs[a].seen && !spurious { CasDoneInv(owner, s, a); } else { CasAgainInv(owner, s, a); }
  }

  lemma CasAgainInv(owner: Owner, s: Sys, a: nat)
    requires Inv(owner, s) && CanPush(s, a)
    ensures Inv(owner, CasAgain(s, a))
  {
    var s', node := CasAgain(s, a), s.pcs[a].node;
    assert ActivationOk(s, a);
    forall u | 0 <= u < |s'.heads| ensures ListOk(s', u) {
      assert ListOk(s, u);
      OtherListKept(s, s', node, u);
    }
    forall b | 0 <= b < |s'.pcs| ensures ActivationOk(s', b) {
      assert ActivationOk(s, b);
      if b == a { SegKept(s, s', node, b); } else { OtherActivationKept(s, s', node, b); }
    }
    forall q | q in s'.places ensures NodeOk(owner, s', q) { assert NodeOk(owner, s, q); }
    SameMessages(owner, s, s');
  }

  /** The messages and where the pointers are stay as they are. */
  lemma SameMessages(owner: Owner, s: Sys, s': Sys)
    requires PointersOk(owner, s)
    requires s'.value == s.value && s'.places.Keys == s.places.Keys && s'.tables == s.tables && s'.users == s.users
    ensures PointersOk(owner, s')
  {
    forall q, r ensures TwoMessages(s', q, r) { assert TwoMessages(s, q, r); }
  }

  lemma CasDoneInv(owner: Owner, s: Sys, a: nat)
    requires Inv(owner, s) && CanPush(s, a) && s.heads[s.pcs[a].target] == s.pcs[a].seen
    ensures Inv(owner, CasDone(s, a))
  {
    var s', node, target := CasDone(s, a), s.pcs[a].node, s.pcs[a].target;
    assert ActivationOk(s, a) && ListOk(s, target);
    forall u | 0 <= u < |s'.heads| ensures ListOk(s', u) {
      assert ListOk(s, u);
      if u == target { CasDoneList(s, a); } else { OtherListKept(s, s', node, u); }
    }
    forall b | 0 <= b < |s'.pcs| ensures ActivationOk(s', b) {
      assert ActivationOk(s, b);
      if b == a { CasDonePc(s, a); } else { OtherActivationKept(s, s', node, b); }
    }
    forall q | q in s'.places ensures NodeOk(owner, s', q) { CasDoneNode(owner, s, a, q); }
    SameMessages(owner, s, s');
  }

  lemma CasDoneNode(owner: Owner, s: Sys, a: nat, q: Ptr)
    requires Inv(owner, s) && CanPush(s, a) && q in CasDone(s, a).places
    ensures NodeOk(owner, CasDone(s, a), q)
  {
    assert ActivationOk(s, a) && NodeOk(owner, s, q);
  }

  lemma CasDonePc(s: Sys, a: nat)
    requires CanPush(s, a) && ActivationOk(s, a)
    ensures ActivationOk(CasDone(s, a), a)
  {
    SegKept(s, CasDone(s, a), s.pcs[a].node, a);
    TopNotNull(s, a);
  }

  /** A segment that is not empty starts with a node. */
  lemma TopNotNull(s: Sys, a: nat)
    requires a < |s.segs| && SegLinked(s, a)
    ensures Top(s.segs[a]) == NULL <==> s.segs[a] == []
  {
    if s.segs[a] != [] { assert Linked(s, s.segs[a], |s.segs[a]| - 1, InSeg(a, |s.segs[a]| - 1)); }
  }

  /** The node is now the top of its target's list. */
  lemma CasDoneList(s: Sys, a: nat)
    requires CanPush(s, a) && ActivationOk(s, a) && ListOk(s, s.pcs[a].target) && s.heads[s.pcs[a].target] == s.pcs[a].seen
    ensures ListOk(CasDone(s, a), s.pcs[a].target)
  {
    var s', target, node := CasDone(s, a), s.pcs[a].target, s.pcs[a].node;
    ListKept(s, s', node, target);
    assert s'.lists[target][..|s.lists[target]|] == s.lists[target];
    forall i | 0 <= i < |s'.lists[target]| ensures Linked(s', s'.lists[target], i, InList(target, i)) {
      if i < |s.lists[target]| { assert Linked(s', s'.lists[target], i, InList(target, i)); }
    }
  }

  // ----- taking the list -----

  lemma TakeListInv(owner: Owner, s: Sys, a: nat)
    requires Inv(owner, s) && a < |s.pcs| && s.pcs[a] == Idle
    ensures Inv(owner, TakeList(s, a))
  {
    var s', t := TakeList(s, a), s.who[a];
    assert ActivationOk(s, a) && ListOk(s, t);
    forall u | 0 <= u < |s'.heads| ensures ListOk(s', u) {
      assert ListOk(s, u);
      forall i | 0 <= i < |s'.lists[u]| ensures Linked(s', s'.lists[u], i, InList(u, i)) { assert Linked(s, s.lists[u], i, InList(u, i)); }
    }
    forall b | 0 <= b < |s'.pcs| ensures ActivationOk(s', b) { TakeListActivation(owner, s, a, b); }
    forall q | q in s'.places ensures NodeOk(owner, s', q) { assert NodeOk(owner, s, q); }
    SameMessages(owner, s, s');
  }

  lemma TakeListActivation(owner: Owner, s: Sys, a: nat, b: nat)
    requires Inv(owner, s) && a < |s.pcs| && s.pcs[a] == Idle && b < |s.pcs|
    ensures Sizes(TakeList(s, a)) && ActivationOk(TakeList(s, a), b)
  {
    var s', t := TakeList(s, a), s.who[a];
    assert ActivationOk(s, b) && ListOk(s, t);
    forall i | 0 <= i < |s'.segs[b]| ensures Linked(s', s'.segs[b], i, InSeg(b, i)) {
      if b == a { assert Linked(s, s.lists[t], i, InList(t, i)); } else { assert Linked(s, s.segs[b], i, InSeg(b, i)); }
    }
    if b == a && s.lists[t] != [] { assert Linked(s, s.lists[t], |s.lists[t]| - 1, InList(t, |s.lists[t]| - 1)); }
  }

  // ----- reading a message -----

  /** The node at hand is the next of the segment, and what follows is the rest. */
  lemma AtHand(owner: Owner, s: Sys, a: nat)
    requires Inv(owner, s) && a < |s.pcs| && s.pcs[a].Draining?
    ensures var cur, seg := s.pcs[a].cur, s.segs[a];
            && CanRead(s, a) && cur == seg[|seg| - 1] && cur in s.places && s.places[cur] == InSeg(a, |seg| - 1)
            && s.next[cur] == Top(seg[..|seg| - 1]) && cur != NULL && NodeOk(owner, s, cur)
  {
    assert ActivationOk(s, a);
    assert Linked(s, s.segs[a], |s.segs[a]| - 1, InSeg(a, |s.segs[a]| - 1));
    assert NodeOk(owner, s, s.pcs[a].cur);
  }

  lemma ReadInv(owner: Owner, s: Sys, a: nat)
    requires Inv(owner, s) && CanRead(s, a)
    ensures Inv(owner, Read(s, a))
  {
    AtHand(owner, s, a);
    var s', cur := Read(s, a), s.pcs[a].cur;
    forall u | 0 <= u < |s'.heads| ensures ListOk(s', u) {
      assert ListOk(s, u);
      OtherListKept(s, s', cur, u);
    }
    forall b | 0 <= b < |s'.pcs| ensures ActivationOk(s', b) {
      assert ActivationOk(s, b);
      if b == a { SegKept(s, s', cur, b); } else { OtherActivationKept(s, s', cur, b); }
    }
    forall q | q in s'.places ensures NodeOk(owner, s', q) {
      assert NodeOk(owner, s, q);
      ReadNode(owner, s, a, q);
    }
    SameMessages(owner, s, s');
  }

  lemma ReadNode(owner: Owner, s: Sys, a: nat, q: Ptr)
    requires CanRead(s, a) && q in s.places && NodeOk(owner, s, q)
    requires s.pcs[a].cur in s.places && s.places[s.pcs[a].cur] == InSeg(a, |s.segs[a]| - 1) && s.segs[a][|s.segs[a]| - 1] == s.pcs[a].cur
    ensures Sizes(Read(s, a)) && q in Read(s, a).places && NodeOk(owner, Read(s, a), q)
  {
    var s' := Read(s, a);
    assert PlaceOk(s', q) && Target(s', q) == Target(s, q);
  }

  // ----- delivering it -----

  lemma Held(owner: Owner, s: Sys, a: nat)
    requires Inv(owner, s) && a < |s.pcs| && s.pcs[a].Holding?
    ensures var node := s.pcs[a].node;
            && CanDeliver(owner, s, a) && HandOk(s, a, node) && s.value[node] == s.pcs[a].read && s.pcs[a].rest == Top(s.segs[a])
            && NodeOk(owner, s, node)
  {
    assert ActivationOk(s, a) && NodeOk(owner, s, s.pcs[a].node);
  }

  lemma DeliverInv(owner: Owner, s: Sys, a: nat)
    requires Inv(owner, s) && CanDeliver(owner, s, a)
    ensures Inv(owner, Deliver(owner, s, a))
  {
    Held(owner, s, a);
    var s' := Deliver(owner, s, a);
    forall u | 0 <= u < |s'.heads| ensures ListOk(s', u) { DeliverList(owner, s, a, u); }
    forall b | 0 <= b < |s'.pcs| ensures ActivationOk(s', b) { DeliverActivation(owner, s, a, b); }
    DeliverNodes(owner, s, a);
    DeliverPointers(owner, s, a);
  }

  lemma DeliverFrame(owner: Owner, s: Sys, a: nat)
    requires CanDeliver(owner, s, a)
    ensures Sizes(Deliver(owner, s, a)) && SameNodesBut(s, Deliver(owner, s, a), s.pcs[a].node)
  {
    assert SameNodesBut(s, CameHome(owner, s, a), s.pcs[a].node) && SameNodesBut(s, TurnedRound(owner, s, a), s.pcs[a].node);
  }

  lemma DeliverList(owner: Owner, s: Sys, a: nat, u: nat)
    requires Inv(owner, s) && CanDeliver(owner, s, a) && u < |s.heads|
    ensures Sizes(Deliver(owner, s, a)) && ListOk(Deliver(owner, s, a), u)
  {
    Held(owner, s, a);
    DeliverFrame(owner, s, a);
    assert ListOk(s, u);
    OtherListKept(s, Deliver(owner, s, a), s.pcs[a].node, u);
  }

  lemma DeliverActivation(owner: Owner, s: Sys, a: nat, b: nat)
    requires Inv(owner, s) && CanDeliver(owner, s, a) && b < |s.pcs|
    ensures Sizes(Deliver(owner, s, a)) && ActivationOk(Deliver(owner, s, a), b)
  {
    Held(owner, s, a);
    DeliverFrame(owner, s, a);
    assert ActivationOk(s, b);
    if b == a { DeliverPc(owner, s, a); } else { OtherActivationKept(s, Deliver(owner, s, a), s.pcs[a].node, b); }
  }

  lemma DeliverPc(owner: Owner, s: Sys, a: nat)
    requires CanDeliver(owner, s, a) && ActivationOk(s, a)
    ensures Sizes(Deliver(owner, s, a)) && ActivationOk(Deliver(owner, s, a), a)
  {
    DeliverFrame(owner, s, a);
    SegKept(s, Deliver(owner, s, a), s.pcs[a].node, a);
    TopNotNull(s, a);
    if s.pcs[a].read != s.pcs[a].node { assert HandOk(TurnedRound(owner, s, a), a, s.pcs[a].node); }
  }

  lemma DeliverNodes(owner: Owner, s: Sys, a: nat)
    requires Inv(owner, s) && CanDeliver(owner, s, a)
    ensures var s' := Deliver(owner, s, a);
            Sizes(s') && forall q {:trigger NodeOk(owner, s', q)} :: q in s'.places ==> NodeOk(owner, s', q)
  {
    Held(owner, s, a);
    var s', node := Deliver(owner, s, a), s.pcs[a].node;
    forall q | q in s'.places ensures NodeOk(owner, s', q) {
      assert NodeOk(owner, s, q);
      if q == node { DeliverNode(owner, s, a); } else { DeliverOtherNode(owner, s, a, q); }
    }
  }

  lemma DeliverNode(owner: Owner, s: Sys, a: nat)
    requires CanDeliver(owner, s, a) && HandOk(s, a, s.pcs[a].node) && NodeOk(owner, s, s.pcs[a].node)
    requires s.pcs[a].node in Deliver(owner, s, a).places
    ensures Sizes(Deliver(owner, s, a)) && NodeOk(owner, Deliver(owner, s, a), s.pcs[a].node)
  {
    assert Deliver(owner, s, a) == TurnedRound(owner, s, a);
  }

  lemma DeliverOtherNode(owner: Owner, s: Sys, a: nat, q: Ptr)
    requires CanDeliver(owner, s, a) && q in s.places && NodeOk(owner, s, q) && q != s.pcs[a].node
    ensures Sizes(Deliver(owner, s, a)) && q in Deliver(owner, s, a).places && NodeOk(owner, Deliver(owner, s, a), q)
  {
    if s.pcs[a].read == s.pcs[a].node { OtherStaysHome(owner, s, a, q); } else { OtherStaysTurned(owner, s, a, q); }
    MessageStays(owner, s, Deliver(owner, s, a), q);
  }

  lemma OtherStaysHome(owner: Owner, s: Sys, a: nat, q: Ptr)
    requires CanDeliver(owner, s, a) && q in s.places && PlaceOk(s, q) && q in s.value && q != s.pcs[a].node
    ensures var s' := CameHome(owner, s, a);
            && Sizes(s') && |s'.heads| == |s.heads| && q in s'.places && q in s'.value && s'.value[q] == s.value[q]
            && PlaceOk(s', q) && Target(s', q) == Target(s, q)
  {
  }

  lemma OtherStaysTurned(owner: Owner, s: Sys, a: nat, q: Ptr)
    requires CanDeliver(owner, s, a) && q in s.places && PlaceOk(s, q) && q in s.value && q != s.pcs[a].node
    ensures var s' := TurnedRound(owner, s, a);
            && Sizes(s') && |s'.heads| == |s.heads| && q in s'.places && q in s'.value && s'.value[q] == s.value[q]
            && PlaceOk(s', q) && Target(s', q) == Target(s, q)
  {
  }

  lemma MessageStays(owner: Owner, s: Sys, s': Sys, q: Ptr)
    requires Sizes(s) && q in s.places && NodeOk(owner, s, q)
    requires Sizes(s') && |s'.heads| == |s.heads| && q in s'.places && q in s'.value && s'.value[q] == s.value[q]
    requires PlaceOk(s', q) && Target(s', q) == Target(s, q)
    ensures NodeOk(owner, s', q)
  {
  }

  lemma DeliverPointers(owner: Owner, s: Sys, a: nat)
    requires Inv(owner, s) && CanDeliver(owner, s, a)
    ensures PointersOk(owner, Deliver(owner, s, a))
  {
    Held(owner, s, a);
    var s', node, value := Deliver(owner, s, a), s.pcs[a].node, s.pcs[a].read;
    forall q, r ensures TwoMessages(s', q, r) { assert TwoMessages(s, q, r); }
    forall q | q in s'.places && q in s'.value && s'.value[q] != q
      ensures s'.value[q] !in s'.users && s'.value[q] !in s'.places && forall u :: 0 <= u < |s'.tables| ==> s'.value[q] !in s'.tables[u]
    {
      assert s.value[q] == s'.value[q] && TwoMessages(s, q, node);
    }
  }

  lemma DeliverFlight(owner: Owner, s: Sys, a: nat)
    requires CanDeliver(owner, s, a) && PointersOk(owner, s) && HandOk(s, a, s.pcs[a].node) && s.value[s.pcs[a].node] == s.pcs[a].read
    ensures var value, node := s.pcs[a].read, s.pcs[a].node;
            && InFlight(Deliver(owner, s, a)) == (if value == node then InFlight(s) else InFlight(s) - {value})
            && (value != node ==> value in InFlight(s))
  {
    var s', node, value := Deliver(owner, s, a), s.pcs[a].node, s.pcs[a].read;
    forall x ensures x in InFlight(s') <==> x in InFlight(s) && (value == node || x != value) {
      if x in InFlight(s') {
        var q :| q in s'.places && q in s'.value && s'.value[q] != q && s'.value[q] == x;
        assert s.value[q] == x && TwoMessages(s, q, node);
      }
      if x in InFlight(s) && (value == node || x != value) {
        var q :| q in s.places && q in s.value && s.value[q] != q && s.value[q] == x;
        assert q != node && s'.value[q] == x && q in s'.places;
      }
    }
    if value != node { assert value in InFlight(s); }
  }

  lemma NextInv(owner: Owner, s: Sys, s': Sys, step: Step)
    requires Inv(owner, s) && Next(owner, s, s', step)
    ensures Inv(owner, s')
  {
    match step
    case FreeForeignStep(a, p, node) => FreeForeignInv(owner, s, a, p, node);
    case CasStep(a, spurious) => CasInv(owner, s, a, spurious);
    case TakeListStep(a) => TakeListInv(owner, s, a);
    case ReadStep(a) => ReadInv(owner, s, a);
    case DeliverStep(a) => DeliverInv(owner, s, a);
    case AllocStep(t, p) => AllocInv(owner, s, t, p);
    case FreeLocalStep(t, p) => FreeLocalInv(owner, s, t, p);
    case AddSlotsStep(t, slots) => AddSlotsInv(owner, s, t, slots);
  }

  // ----- runs -----

  ghost predicate Run(owner: Owner, states: seq<Sys>, steps: seq<Step>) {
    && |states| == |steps| + 1 && Init(states[0])
    && forall i {:trigger steps[i]} :: 0 <= i < |steps| ==> Next(owner, states[i], states[i + 1], steps[i])
  }

  lemma {:induction false} RunInv(owner: Owner, states: seq<Sys>, steps: seq<Step>, i: nat)
    requires Run(owner, states, steps) && i < |states|
    ensures Inv(owner, states[i])
  {
    if i == 0 {
      InitInv(owner, states[0]);
    } else {
      RunInv(owner, states, steps, i - 1);
      NextInv(owner, states[i - 1], states[i], steps[i - 1]);
    }
  }

  // ----- what the runs have in common -----

  // ----- nothing is lost -----

  /** The slots that were ever committed, as the steps tell. */
  ghost function Committed(steps: seq<Step>, n: nat): set<Ptr>
    requires n <= |steps|
  {
    if n == 0 then {} else Committed(steps, n - 1) + CommittedBy(steps[n - 1])
  }

  ghost function CommittedBy(step: Step): set<Ptr> {
    if step.AddSlotsStep? then step.slots else {}
  }

  ghost predicate InATable(s: Sys, p: Ptr) {
    exists t :: 0 <= t < |s.tables| && p in s.tables[t]
  }

  /** A user has the pointer, or a table, or a message, or it is a message's node. */
  ghost predicate Somewhere(s: Sys, p: Ptr) {
    p in s.users || InATable(s, p) || p in InFlight(s) || p in s.places
  }

  /** A step neither makes a pointer nor loses one, but for the slots that it commits. */
  lemma NextSomewhere(owner: Owner, s: Sys, s': Sys, step: Step, p: Ptr)
    requires Inv(owner, s) && Next(owner, s, s', step)
    ensures Somewhere(s', p) <==> Somewhere(s, p) || p in CommittedBy(step)
  {
    match step
    case FreeForeignStep(a, q, node) => FreeForeignSomewhere(owner, s, a, q, node, p);
    case CasStep(a, spurious) =>
      assert ActivationOk(s, a);
      SameSomewhere(s, s', p);
    case TakeListStep(a) => SameSomewhere(s, s', p);
    case ReadStep(a) =>
      AtHand(owner, s, a);
      SameSomewhere(s, s', p);
    case DeliverStep(a) => DeliverSomewhere(owner, s, a, p);
    case AllocStep(t, q) => AllocSomewhere(s, t, q, p);
    case FreeLocalStep(t, q) => FreeLocalSomewhere(s, t, q, p);
    case AddSlotsStep(t, slots) => AddSlotsSomewhere(s, t, slots, p);
  }

  lemma SameSomewhere(s: Sys, s': Sys, p: Ptr)
    requires s'.users == s.users && s'.tables == s.tables && s'.value == s.value && s'.places.Keys == s.places.Keys
    ensures Somewhere(s', p) <==> Somewhere(s, p)
  {
    assert InFlight(s') == InFlight(s);
  }

  /** Only table `t` changed: who else has it. */
  lemma InTableBut(s: Sys, s': Sys, t: nat, p: Ptr)
    requires t < |s.tables| == |s'.tables| && s'.tables == s.tables[t := s'.tables[t]]
    ensures p in s.tables[t] || p in s'.tables[t] || (InATable(s, p) <==> InATable(s', p))
    ensures p in s.tables[t] ==> InATable(s, p)
    ensures p in s'.tables[t] ==> InATable(s', p)
    ensures p in s.tables[t] && p in s'.tables[t] ==> (InATable(s, p) <==> InATable(s', p))
  {
    if InATable(s, p) && p !in s.tables[t] {
      var u :| 0 <= u < |s.tables| && p in s.tables[u];
      assert p in s'.tables[u];
    }
    if InATable(s', p) && p !in s'.tables[t] {
      var u :| 0 <= u < |s'.tables| && p in s'.tables[u];
      assert p in s.tables[u];
    }
  }

  lemma FreeForeignSomewhere(owner: Owner, s: Sys, a: nat, q: Ptr, node: Ptr, p: Ptr)
    requires Inv(owner, s) && CanFree(owner, s, a, q, node)
    ensures Somewhere(FreeForeign(owner, s, a, q, node), p) <==> Somewhere(s, p)
  {
    var s' := FreeForeign(owner, s, a, q, node);
    FreeForeignFlight(owner, s, a, q, node);
    InTableBut(s, s', s.who[a], p);
    assert s'.places.Keys == s.places.Keys + {node};
  }

  lemma DeliverSomewhere(owner: Owner, s: Sys, a: nat, p: Ptr)
    requires Inv(owner, s) && CanDeliver(owner, s, a)
    ensures Somewhere(Deliver(owner, s, a), p) <==> Somewhere(s, p)
  {
    Held(owner, s, a);
    var s', node, read := Deliver(owner, s, a), s.pcs[a].node, s.pcs[a].read;
    DeliverFlight(owner, s, a);
    InTableBut(s, s', s.who[a], p);
    if read == node { assert s'.places.Keys == s.places.Keys - {node}; }
  }

  lemma AllocSomewhere(s: Sys, t: nat, q: Ptr, p: Ptr)
    requires t < |s.tables| && q in s.tables[t]
    ensures Somewhere(Alloc(s, t, q), p) <==> Somewhere(s, p)
  {
    assert InFlight(Alloc(s, t, q)) == InFlight(s);
    InTableBut(s, Alloc(s, t, q), t, p);
  }

  lemma FreeLocalSomewhere(s: Sys, t: nat, q: Ptr, p: Ptr)
    requires t < |s.tables| && q in s.users
    ensures Somewhere(FreeLocal(s, t, q), p) <==> Somewhere(s, p)
  {
    assert InFlight(FreeLocal(s, t, q)) == InFlight(s);
    InTableBut(s, FreeLocal(s, t, q), t, p);
  }

  lemma AddSlotsSomewhere(s: Sys, t: nat, slots: set<Ptr>, p: Ptr)
    requires t < |s.tables|
    ensures Somewhere(AddSlots(s, t, slots), p) <==> Somewhere(s, p) || p in slots
  {
    assert InFlight(AddSlots(s, t, slots)) == InFlight(s);
    InTableBut(s, AddSlots(s, t, slots), t, p);
  }

  /** In every state of every run, the slots there are, with users, in tables, in messages and as nodes, are
      exactly those that were committed. */
  lemma {:induction false} NothingLost(owner: Owner, states: seq<Sys>, steps: seq<Step>, i: nat, p: Ptr)
    requires Run(owner, states, steps) && i < |states|
    ensures Somewhere(states[i], p) <==> p in Committed(steps, i)
  {
    if i == 0 {
      assert InFlight(states[0]) == {};
    } else {
      NothingLost(owner, states, steps, i - 1, p);
      RunInv(owner, states, steps, i - 1);
      NextSomewhere(owner, states[i - 1], states[i], steps[i - 1], p);
    }
  }

  /** What a message named is in its owner's table when it has been delivered, and was in none before; so is a
      node that has come home. */
  lemma DeliveredToOwner(owner: Owner, s: Sys, s': Sys, a: nat)
    requires Inv(owner, s) && Next(owner, s, s', DeliverStep(a))
    ensures a < |s.pcs| && s.pcs[a].Holding?
    ensures var p := s.pcs[a].read;
            && owner(p) < |s'.tables| == |s.tables| && p in s'.tables[owner(p)] && !InATable(s, p)
            && p !in s'.users && p !in s'.places && p !in InFlight(s')
  {
    Held(owner, s, a);
    DeliverInv(owner, s, a);
    DeliverFlight(owner, s, a);
    var p := s.pcs[a].read;
    assert owner(p) == s.who[a] && p in s'.tables[s.who[a]] && TableEntryOk(owner, s', s.who[a], p);
    if p != s.pcs[a].node { assert s.value[s.pcs[a].node] == p; }
    assert p == s.pcs[a].node ==> p !in InFlight(s');
  }

  /** An activation that is in the middle of something can always go on with it. */
  lemma NeverStuck(owner: Owner, states: seq<Sys>, steps: seq<Step>, i: nat, a: nat)
    requires Run(owner, states, steps) && i < |states| && a < |states[i].pcs| && states[i].pcs[a] != Idle
    ensures var s := states[i];
            && (s.pcs[a].Draining? ==> CanRead(s, a)) && (s.pcs[a].Holding? ==> CanDeliver(owner, s, a))
            && (s.pcs[a].Pushing? ==> CanPush(s, a))
  {
    RunInv(owner, states, steps, i);
    var s := states[i];
    assert ActivationOk(s, a);
    if s.pcs[a].Draining? { AtHand(owner, s, a); }
    if s.pcs[a].Holding? { Held(owner, s, a); }
  }

  // ----- how often -----

  /** How often `p` was freed on a foreign thread, as the steps tell. */
  ghost function FreedTimes(steps: seq<Step>, n: nat, p: Ptr): nat
    requires n <= |steps|
  {
    if n == 0 then 0 else FreedTimes(steps, n - 1, p) + if steps[n - 1].FreeForeignStep? && steps[n - 1].p == p then 1 else 0
  }

  /** How often `q` was sent out as a node. */
  ghost function SentTimes(steps: seq<Step>, n: nat, q: Ptr): nat
    requires n <= |steps|
  {
    if n == 0 then 0 else SentTimes(steps, n - 1, q) + if steps[n - 1].FreeForeignStep? && steps[n - 1].node == q then 1 else 0
  }

  /** From one state to the next the pointer gets from a message to its owner's table. */
  ghost predicate Arrives(owner: Owner, s: Sys, s': Sys, p: Ptr) {
    p in InFlight(s) && owner(p) < |s'.tables| && p in s'.tables[owner(p)]
  }

  ghost predicate ComesHome(owner: Owner, s: Sys, s': Sys, q: Ptr) {
    q in s.places && owner(q) < |s'.tables| && q in s'.tables[owner(q)]
  }

  ghost function ArrivedTimes(owner: Owner, states: seq<Sys>, n: nat, p: Ptr): nat
    requires n < |states|
  {
    if n == 0 then 0 else ArrivedTimes(owner, states, n - 1, p) + if Arrives(owner, states[n - 1], states[n], p) then 1 else 0
  }

  ghost function HomeTimes(owner: Owner, states: seq<Sys>, n: nat, q: Ptr): nat
    requires n < |states|
  {
    if n == 0 then 0 else HomeTimes(owner, states, n - 1, q) + if ComesHome(owner, states[n - 1], states[n], q) then 1 else 0
  }

  /** Freeing sends a pointer on its way in a node, and delivering takes it or the node off. */
  lemma OnTheWay(owner: Owner, s: Sys, s': Sys, step: Step, p: Ptr)
    requires Inv(owner, s) && Next(owner, s, s', step)
    ensures var read, home := step.DeliverStep? && s.pcs[step.a].read == p && s.pcs[step.a].node != p,
                              step.DeliverStep? && s.pcs[step.a].read == p && s.pcs[step.a].node == p;
            && (p in InFlight(s') <==> (p in InFlight(s) && !read) || (step.FreeForeignStep? && step.p == p))
            && (p in s'.places <==> (p in s.places && !home) || (step.FreeForeignStep? && step.node == p))
            && (read ==> p in InFlight(s)) && (home ==> p in s.places)
    ensures step.FreeForeignStep? ==> (step.p == p ==> p !in InFlight(s)) && (step.node == p ==> p !in s.places)
  {
    match step
    case FreeForeignStep(a, q, node) =>
      FreeForeignFlight(owner, s, a, q, node);
      assert TableEntryOk(owner, s, s.who[a], node);
    case CasStep(a, spurious) =>
      assert ActivationOk(s, a);
      assert InFlight(CasDone(s, a)) == InFlight(s) && InFlight(CasAgain(s, a)) == InFlight(s);
    case TakeListStep(a) => assert InFlight(s') == InFlight(s);
    case ReadStep(a) =>
      AtHand(owner, s, a);
      assert InFlight(s') == InFlight(s);
    case DeliverStep(a) =>
      Held(owner, s, a);
      DeliverFlight(owner, s, a);
    case _ => assert InFlight(s') == InFlight(s);
  }

  /** Only a delivery gets a pointer from a message to a table, and a node home. */
  lemma ArrivesIff(owner: Owner, s: Sys, s': Sys, step: Step, p: Ptr)
    requires Inv(owner, s) && Next(owner, s, s', step)
    ensures Arrives(owner, s, s', p) <==> step.DeliverStep? && s.pcs[step.a].read == p && s.pcs[step.a].node != p
    ensures ComesHome(owner, s, s', p) <==> step.DeliverStep? && s.pcs[step.a].read == p && s.pcs[step.a].node == p
  {
    NotNamedNode(owner, s, p);
    if step.DeliverStep? {
      Held(owner, s, step.a);
      DeliverFlight(owner, s, step.a);
      DeliveredToOwner(owner, s, s', step.a);
    }
    if (p in InFlight(s) || p in s.places) && !(step.DeliverStep? && s.pcs[step.a].read == p) {
      NoTableHas(owner, s, s', step, p);
    }
  }

  lemma NotNamedNode(owner: Owner, s: Sys, p: Ptr)
    requires Inv(owner, s)
    ensures p in InFlight(s) ==> p !in s.places
  {
    if p in InFlight(s) {
      var q :| q in s.places && q in s.value && s.value[q] != q && s.value[q] == p;
      assert s.value[q] !in s.places;
    }
  }

  /** What is in a message or is a node gets to a table by a delivery only. */
  lemma NoTableHas(owner: Owner, s: Sys, s': Sys, step: Step, p: Ptr)
    requires Inv(owner, s) && Next(owner, s, s', step) && (p in InFlight(s) || p in s.places)
    requires !(step.DeliverStep? && s.pcs[step.a].read == p)
    ensures owner(p) < |s'.tables| ==> p !in s'.tables[owner(p)]
  {
  }

  /** At any time in any run, a pointer freed on a foreign thread has got to its owner's table as often as it
      was freed, or once less while it is on its way; and a node came home as often as it was sent out, or
      once less while it is in transit. */
  lemma {:induction false} DeliveredOnce(owner: Owner, states: seq<Sys>, steps: seq<Step>, i: nat, p: Ptr)
    requires Run(owner, states, steps) && i < |states|
    ensures var s := states[i];
            && FreedTimes(steps, i, p) == ArrivedTimes(owner, states, i, p) + (if p in InFlight(s) then 1 else 0)
            && SentTimes(steps, i, p) == HomeTimes(owner, states, i, p) + (if p in s.places then 1 else 0)
  {
    if i == 0 {
      assert InFlight(states[0]) == {};
    } else {
      DeliveredOnce(owner, states, steps, i - 1, p);
      RunInv(owner, states, steps, i - 1);
      OnTheWay(owner, states[i - 1], states[i], steps[i - 1], p);
      ArrivesIff(owner, states[i - 1], states[i], steps[i - 1], p);
    }
  }

  /** No pointer is in two hands: with a user, in a table, in a message, or the node of one; and in a
      table only of its owner's. */
  lemma OnePlaceOnly(owner: Owner, states: seq<Sys>, steps: seq<Step>, i: nat, p: Ptr)
    requires Run(owner, states, steps) && i < |states|
    ensures var s := states[i];
            && (p in s.users ==> p !in InFlight(s) && p !in s.places && forall t :: 0 <= t < |s.tables| ==> p !in s.tables[t])
            && (p in InFlight(s) ==> p !in s.places && forall t :: 0 <= t < |s.tables| ==> p !in s.tables[t])
            && (forall t :: 0 <= t < |s.tables| && p in s.tables[t] ==> owner(p) == t && p !in s.places)
  {
    RunInv(owner, states, steps, i);
    var s := states[i];
    if p in InFlight(s) {
      var q :| q in s.places && q in s.value && s.value[q] != q && s.value[q] == p;
      assert s.value[q] !in s.users;
    }
  }

  /** A message in a list names its own node exactly if the list is its owner's, and otherwise names a
      pointer of the list's owner's. */
  lemma SelfAddressedIff(owner: Owner, states: seq<Sys>, steps: seq<Step>, i: nat, t: nat, k: nat)
    requires Run(owner, states, steps) && i < |states| && t < |states[i].lists| && k < |states[i].lists[t]|
    ensures var s := states[i]; var q := s.lists[t][k];
            && q in s.value && (s.value[q] == q <==> owner(q) == t) && (s.value[q] != q ==> owner(s.value[q]) == t)
  {
    RunInv(owner, states, steps, i);
    var s := states[i];
    var q := s.lists[t][k];
    assert ListOk(s, t) && Linked(s, s.lists[t], k, InList(t, k));
    assert NodeOk(owner, s, q);
  }

  /** The node that an activation reads next is in its own segment: in no list, in nobody's hand, and in
      no table; also not another activation's of the same thread. */
  lemma ReadOwnNodes(owner: Owner, states: seq<Sys>, steps: seq<Step>, i: nat, a: nat)
    requires Run(owner, states, steps) && i < |states| && a < |states[i].pcs| && states[i].pcs[a].Draining?
    ensures var s := states[i]; var q := s.pcs[a].cur;
            && q in s.places && s.places[q].InSeg? && s.places[q].a == a && q in s.value && q in s.next
            && (forall u, k :: 0 <= u < |s.lists| && 0 <= k < |s.lists[u]| ==> s.lists[u][k] != q)
            && (forall b :: 0 <= b < |s.pcs| ==> !InTheHand(s.pcs[b], q))
            && (forall u :: 0 <= u < |s.tables| ==> q !in s.tables[u])
  {
    RunInv(owner, states, steps, i);
    var s := states[i];
    var q := s.pcs[a].cur;
    AtHand(owner, s, a);
    NotInLists(owner, s, q);
    forall b | 0 <= b < |s.pcs| ensures !InTheHand(s.pcs[b], q) { assert ActivationOk(s, b); }
  }

  lemma NotInLists(owner: Owner, s: Sys, q: Ptr)
    requires Inv(owner, s) && q in s.places && !s.places[q].InList?
    ensures forall u, k :: 0 <= u < |s.lists| && 0 <= k < |s.lists[u]| ==> s.lists[u][k] != q
  {
    forall u, k | 0 <= u < |s.lists| && 0 <= k < |s.lists[u]| ensures s.lists[u][k] != q {
      assert ListOk(s, u) && Linked(s, s.lists[u], k, InList(u, k));
    }
  }

  /** While an activation holds a node that it has read, nobody else has the node, and what was read is
      still in it, whatever went on in between, further drains of the same thread included. */
  lemma ReadStillStands(owner: Owner, states: seq<Sys>, steps: seq<Step>, i: nat, a: nat)
    requires Run(owner, states, steps) && i < |states| && a < |states[i].pcs| && states[i].pcs[a].Holding?
    ensures var s := states[i]; var Holding(q, read, rest) := s.pcs[a];
            && q in s.value && s.value[q] == read && a < |s.segs| && rest == Top(s.segs[a])
            && (forall u, k :: 0 <= u < |s.lists| && 0 <= k < |s.lists[u]| ==> s.lists[u][k] != q)
            && (forall b :: 0 <= b < |s.pcs| && b != a ==> !InTheHand(s.pcs[b], q))
            && (forall u :: 0 <= u < |s.tables| ==> q !in s.tables[u])
            && (read != q ==> read in InFlight(s))
  {
    RunInv(owner, states, steps, i);
    var s := states[i];
    var q := s.pcs[a].node;
    Held(owner, s, a);
    NotInLists(owner, s, q);
    forall b | 0 <= b < |s.pcs| && b != a ensures !InTheHand(s.pcs[b], q) { assert ActivationOk(s, b); }
  }

  /** Nodes whose message is on its way out, and nodes on their way home. */
  ghost function Forward(nodes: set<Ptr>, value: map<Ptr, Ptr>): set<Ptr> {
    set q | q in nodes && q in value && value[q] != q
  }

  ghost function Returning(nodes: set<Ptr>, value: map<Ptr, Ptr>): set<Ptr> {
    set q | q in nodes && q in value && value[q] == q
  }

  /** What is left to do: two steps for a message on its way out, one for a node on its way home. */
  ghost function ToDo(nodes: set<Ptr>, value: map<Ptr, Ptr>): nat {
    2 * |Forward(nodes, value)| + |Returning(nodes, value)|
  }

  lemma ToDoHome(nodes: set<Ptr>, value: map<Ptr, Ptr>, q: Ptr)
    requires q in nodes && q in value && value[q] == q
    ensures ToDo(nodes - {q}, value) == ToDo(nodes, value) - 1
  {
    assert Returning(nodes - {q}, value) == Returning(nodes, value) - {q};
    assert Forward(nodes - {q}, value) == Forward(nodes, value);
  }

  lemma ToDoTurned(nodes: set<Ptr>, value: map<Ptr, Ptr>, q: Ptr)
    requires q in nodes && q in value && value[q] != q
    ensures ToDo(nodes, value[q := q]) == ToDo(nodes, value) - 1
  {
    assert Returning(nodes, value[q := q]) == Returning(nodes, value) + {q};
    assert Forward(nodes, value[q := q]) == Forward(nodes, value) - {q};
  }

  lemma ToDoFreed(nodes: set<Ptr>, value: map<Ptr, Ptr>, q: Ptr, p: Ptr)
    requires q !in nodes && p != q
    ensures ToDo(nodes + {q}, value[q := p]) == ToDo(nodes, value) + 2
  {
    assert Returning(nodes + {q}, value[q := p]) == Returning(nodes, value) by { ReturningFreed(nodes, value, q, p); }
    assert Forward(nodes + {q}, value[q := p]) == Forward(nodes, value) + {q} by { ForwardFreed(nodes, value, q, p); }
  }

  lemma ReturningFreed(nodes: set<Ptr>, value: map<Ptr, Ptr>, q: Ptr, p: Ptr)
    requires q !in nodes && p != q
    ensures Returning(nodes + {q}, value[q := p]) == Returning(nodes, value)
  {
    forall r ensures r in Returning(nodes + {q}, value[q := p]) <==> r in Returning(nodes, value) {}
  }

  lemma ForwardFreed(nodes: set<Ptr>, value: map<Ptr, Ptr>, q: Ptr, p: Ptr)
    requires q !in nodes && p != q
    ensures Forward(nodes + {q}, value[q := p]) == Forward(nodes, value) + {q}
  {
    forall r ensures r in Forward(nodes + {q}, value[q := p]) <==> r in Forward(nodes, value) + {q} {}
  }

  /** Every message delivered leaves less to do; reading, pushing and taking a list leave as much: nothing
      is sent back and forth. Only freeing adds to it. */
  lemma NoPingPong(owner: Owner, s: Sys, s': Sys, step: Step)
    requires Inv(owner, s) && Next(owner, s, s', step)
    ensures ToDo(s'.places.Keys, s'.value) == ToDo(s.places.Keys, s.value) + (if step.DeliverStep? then -1 else if step.FreeForeignStep? then 2 else 0)
  {
    match step
    case DeliverStep(a) => DeliverToDo(owner, s, a);
    case FreeForeignStep(a, p, node) => FreeForeignToDo(owner, s, a, p, node);
    case CasStep(a, spurious) =>
      assert ActivationOk(s, a);
      CasToDo(s, a, spurious);
    case TakeListStep(a) => TakeListToDo(s, a);
    case ReadStep(a) =>
      AtHand(owner, s, a);
      ReadToDo(s, a);
    case _ =>
  }

  lemma FreeForeignToDo(owner: Owner, s: Sys, a: nat, p: Ptr, node: Ptr)
    requires TablesOk(owner, s) && CanFree(owner, s, a, p, node)
    ensures var s' := FreeForeign(owner, s, a, p, node); ToDo(s'.places.Keys, s'.value) == ToDo(s.places.Keys, s.value) + 2
  {
    assert TableEntryOk(owner, s, s.who[a], node);
    ToDoFreed(s.places.Keys, s.value, node, p);
    assert s.places[node := InHand(a)].Keys == s.places.Keys + {node};
  }

  lemma CasToDo(s: Sys, a: nat, spurious: bool)
    requires CanPush(s, a) && s.pcs[a].node in s.places
    ensures var s' := CasRound(s, a, spurious); ToDo(s'.places.Keys, s'.value) == ToDo(s.places.Keys, s.value)
  {
    assert CasDone(s, a).places.Keys == s.places.Keys;
  }

  lemma TakeListToDo(s: Sys, a: nat)
    requires Sizes(s) && a < |s.pcs|
    ensures ToDo(TakeList(s, a).places.Keys, TakeList(s, a).value) == ToDo(s.places.Keys, s.value)
  {
    assert TakeList(s, a).places.Keys == s.places.Keys;
  }

  lemma ReadToDo(s: Sys, a: nat)
    requires CanRead(s, a) && s.pcs[a].cur in s.places
    ensures ToDo(Read(s, a).places.Keys, Read(s, a).value) == ToDo(s.places.Keys, s.value)
  {
    assert Read(s, a).places.Keys == s.places.Keys;
  }

  lemma DeliverToDo(owner: Owner, s: Sys, a: nat)
    requires Inv(owner, s) && CanDeliver(owner, s, a)
    ensures var s' := Deliver(owner, s, a); ToDo(s'.places.Keys, s'.value) == ToDo(s.places.Keys, s.value) - 1
  {
    Held(owner, s, a);
    var s', node := Deliver(owner, s, a), s.pcs[a].node;
    if s.value[node] == node {
      assert s'.places.Keys == s.places.Keys - {node} && s'.value == s.value;
      ToDoHome(s.places.Keys, s.value, node);
    } else {
      assert s'.places.Keys == s.places.Keys && s'.value == s.value[node := node];
      ToDoTurned(s.places.Keys, s.value, node);
    }
  }

  /** When every activation is idle and every list empty, nothing is on its way: every slot ever committed is
      with a user or in its owner's table, and whatever was freed on a foreign thread has got there. */
  lemma QuietMeansDelivered(owner: Owner, states: seq<Sys>, steps: seq<Step>, i: nat, p: Ptr)
    requires Run(owner, states, steps) && i < |states|
    requires AllQuiet(states[i])
    ensures p in Committed(steps, i) <==> Settled(owner, states[i], p)
    ensures FreedTimes(steps, i, p) == ArrivedTimes(owner, states, i, p) && SentTimes(steps, i, p) == HomeTimes(owner, states, i, p)
  {
    RunInv(owner, states, steps, i);
    NothingLost(owner, states, steps, i, p);
    DeliveredOnce(owner, states, steps, i, p);
    var s := states[i];
    forall q ensures q !in s.places {
      if q in s.places { QuietPlace(owner, s, q); }
    }
    assert s.places == map[] && InFlight(s) == {};
    if t :| 0 <= t < |s.tables| && p in s.tables[t] { assert TableEntryOk(owner, s, t, p); }
  }

  lemma QuietPlace(owner: Owner, s: Sys, q: Ptr)
    requires Inv(owner, s) && q in s.places
    ensures (exists a :: 0 <= a < |s.pcs| && s.pcs[a] != Idle) || (exists t :: 0 <= t < |s.heads| && s.heads[t] != NULL)
  {
    assert NodeOk(owner, s, q);
    match s.places[q]
    case InList(t, k) =>
      assert ListOk(s, t) && Linked(s, s.lists[t], |s.lists[t]| - 1, InList(t, |s.lists[t]| - 1));
      assert s.heads[t] != NULL;
    case InSeg(a, k) =>
      assert ActivationOk(s, a);
      assert s.pcs[a] != Idle;
    case InHand(a) =>
      assert s.pcs[a] != Idle;
  }

  // ----- it can always be finished -----

  /** How far a node has got: pushed, taken with its list, and read. */
  ghost function Phase(s: Sys, q: Ptr): nat
    requires q in s.places
  {
    match s.places[q]
    case InList(_, _) => 1
    case InSeg(_, _) => 2
    case InHand(a) => if a < |s.pcs| && s.pcs[a].Holding? then 3 else 0
  }

  ghost function AtLeast(s: Sys, n: nat): set<Ptr> {
    set q | q in s.places && Phase(s, q) >= n
  }

  /** The nodes in thread `t`'s list. */
  ghost function Listed(s: Sys, t: nat): set<Ptr> {
    set q | q in s.places && s.places[q].InList? && s.places[q].t == t
  }

  /** How far all have got together. */
  ghost function Phases(s: Sys): nat {
    |AtLeast(s, 1)| + |AtLeast(s, 2)| + |AtLeast(s, 3)|
  }

  /** How much is left: a message has to be pushed, taken, read and delivered, and then its node the same. */
  ghost function StepsLeft(s: Sys): int {
    4 * ToDo(s.places.Keys, s.value) - Phases(s)
  }

  /** What a step takes off: nothing if it is a failed compare-and-swap; all there is in the list if it takes
      one; a pointer freed on a foreign thread is eight steps more. */
  ghost function StepsDone(s: Sys, step: Step): int {
    match step
    case FreeForeignStep(_, _, _) => -8
    case CasStep(a, spurious) => if CanPush(s, a) && s.heads[s.pcs[a].target] == s.pcs[a].seen && !spurious then 1 else 0
    case TakeListStep(a) => if a < |s.who| then |Listed(s, s.who[a])| else 0
    case ReadStep(_) | DeliverStep(_) => 1
    case _ => 0
  }

  lemma StepsLeftNat(owner: Owner, s: Sys)
    requires Inv(owner, s)
    ensures StepsLeft(s) >= 0
    ensures s.places != map[] ==> StepsLeft(s) > 0
  {
    var keys := s.places.Keys;
    forall q | q in keys ensures q in s.value { assert NodeOk(owner, s, q); }
    assert Forward(keys, s.value) + Returning(keys, s.value) == keys && Forward(keys, s.value) !! Returning(keys, s.value);
    Fewer(AtLeast(s, 1), keys);
    Fewer(AtLeast(s, 2), keys);
    Fewer(AtLeast(s, 3), keys);
    if q :| q in keys { assert keys != {}; }
  }

  lemma {:induction false} Fewer(a: set<Ptr>, b: set<Ptr>)
    requires a <= b
    ensures |a| <= |b|
  {
    assert b == a + (b - a);
  }

  /** Every step but a failed compare-and-swap gets further, by exactly this much, and only freeing makes more to do. */
  lemma StepsCount(owner: Owner, s: Sys, s': Sys, step: Step)
    requires Inv(owner, s) && Next(owner, s, s', step)
    ensures StepsLeft(s') == StepsLeft(s) - StepsDone(s, step)
  {
    NoPingPong(owner, s, s', step);
    match step
    case FreeForeignStep(a, p, node) => FreeForeignPhases(owner, s, a, p, node);
    case CasStep(a, spurious) => CasPhases(owner, s, a, spurious);
    case TakeListStep(a) => TakeListPhases(owner, s, a);
    case ReadStep(a) => ReadPhases(owner, s, a);
    case DeliverStep(a) => DeliverPhases(owner, s, a);
    case _ => SamePhases(s, s');
  }

  lemma SamePhases(s: Sys, s': Sys)
    requires s.places.Keys <= s'.places.Keys && forall q :: q in s.places ==> Phase(s', q) == Phase(s, q)
    requires forall q :: q in s'.places && q !in s.places ==> Phase(s', q) == 0
    ensures Phases(s') == Phases(s)
  {
    assert AtLeast(s', 1) == AtLeast(s, 1);
    assert AtLeast(s', 2) == AtLeast(s, 2);
    assert AtLeast(s', 3) == AtLeast(s, 3);
  }

  lemma OneFurther(s: Sys, s': Sys, x: Ptr)
    requires x in s.places && s'.places.Keys == s.places.Keys && Phase(s', x) == Phase(s, x) + 1 <= 3
    requires forall q :: q in s.places && q != x ==> Phase(s', q) == Phase(s, q)
    ensures Phases(s') == Phases(s) + 1
  {
    var n := Phase(s', x);
    assert AtLeast(s', n) == AtLeast(s, n) + {x};
    assert n != 1 ==> AtLeast(s', 1) == AtLeast(s, 1);
    assert n != 2 ==> AtLeast(s', 2) == AtLeast(s, 2);
    assert n != 3 ==> AtLeast(s', 3) == AtLeast(s, 3);
  }

  lemma AllFurther(s: Sys, s': Sys, list: set<Ptr>)
    requires s'.places.Keys == s.places.Keys && list <= s.places.Keys
    requires forall q :: q in s.places ==> Phase(s', q) == (if q in list then 2 else Phase(s, q)) && (q in list ==> Phase(s, q) == 1)
    ensures Phases(s') == Phases(s) + |list|
  {
    assert AtLeast(s', 1) == AtLeast(s, 1);
    assert AtLeast(s', 2) == AtLeast(s, 2) + list && AtLeast(s, 2) !! list;
    assert AtLeast(s', 3) == AtLeast(s, 3);
  }

  /** A node that had been read is gone, or starts anew. */
  lemma OneBack(s: Sys, s': Sys, x: Ptr)
    requires x in s.places && Phase(s, x) == 3 && s.places.Keys - {x} <= s'.places.Keys <= s.places.Keys && (x in s'.places ==> Phase(s', x) == 0)
    requires forall q :: q in s.places && q != x ==> Phase(s', q) == Phase(s, q)
    ensures Phases(s') == Phases(s) - 3
  {
    assert AtLeast(s', 1) == AtLeast(s, 1) - {x};
    assert AtLeast(s', 2) == AtLeast(s, 2) - {x};
    assert AtLeast(s', 3) == AtLeast(s, 3) - {x};
  }

  /** Whose hand a node is in. */
  lemma OneHand(owner: Owner, s: Sys, a: nat, q: Ptr)
    requires Inv(owner, s) && a < |s.pcs| && q in s.places && s.places[q] == InHand(a)
    ensures InTheHand(s.pcs[a], q)
  {
    assert NodeOk(owner, s, q);
  }

  lemma FreeForeignPhases(owner: Owner, s: Sys, a: nat, p: Ptr, node: Ptr)
    requires Inv(owner, s) && CanFree(owner, s, a, p, node)
    ensures Phases(FreeForeign(owner, s, a, p, node)) == Phases(s)
  {
    var s' := FreeForeign(owner, s, a, p, node);
    assert TableEntryOk(owner, s, s.who[a], node);
    forall q | q in s.places ensures Phase(s', q) == Phase(s, q) {
      if s.places[q] == InHand(a) { OneHand(owner, s, a, q); }
    }
    SamePhases(s, s');
  }

  lemma CasPhases(owner: Owner, s: Sys, a: nat, spurious: bool)
    requires Inv(owner, s) && CanPush(s, a)
    ensures Phases(CasRound(s, a, spurious)) == Phases(s) + StepsDone(s, CasStep(a, spurious))
  {
    var s', node := CasRound(s, a, spurious), s.pcs[a].node;
    assert ActivationOk(s, a);
    forall q | q in s.places && q != node ensures Phase(s', q) == Phase(s, q) {
      if s.places[q] == InHand(a) { OneHand(owner, s, a, q); }
    }
    if StepsDone(s, CasStep(a, spurious)) == 1 { OneFurther(s, s', node); } else { SamePhases(s, s'); }
  }

  lemma TakeListPhases(owner: Owner, s: Sys, a: nat)
    requires Inv(owner, s) && a < |s.pcs| && s.pcs[a] == Idle
    ensures Phases(TakeList(s, a)) == Phases(s) + |Listed(s, s.who[a])|
  {
    var s', list := TakeList(s, a), Listed(s, s.who[a]);
    forall q | q in s.places ensures Phase(s', q) == (if q in list then 2 else Phase(s, q)) {
      if s.places[q] == InHand(a) { OneHand(owner, s, a, q); }
    }
    AllFurther(s, s', list);
  }

  lemma ReadPhases(owner: Owner, s: Sys, a: nat)
    requires Inv(owner, s) && CanRead(s, a)
    ensures Phases(Read(s, a)) == Phases(s) + 1
  {
    AtHand(owner, s, a);
    var s', cur := Read(s, a), s.pcs[a].cur;
    forall q | q in s.places && q != cur ensures Phase(s', q) == Phase(s, q) {
      if s.places[q] == InHand(a) { OneHand(owner, s, a, q); }
    }
    OneFurther(s, s', cur);
  }

  lemma DeliverPhases(owner: Owner, s: Sys, a: nat)
    requires Inv(owner, s) && CanDeliver(owner, s, a)
    ensures Phases(Deliver(owner, s, a)) == Phases(s) - 3
  {
    Held(owner, s, a);
    var s', node := Deliver(owner, s, a), s.pcs[a].node;
    forall q | q in s.places && q != node ensures q in s'.places && Phase(s', q) == Phase(s, q) {
      if s.places[q] == InHand(a) { OneHand(owner, s, a, q); }
    }
    OneBack(s, s', node);
  }

  /** How many pointers were freed on a foreign thread so far, and how much was done about them. */
  ghost function Frees(steps: seq<Step>, n: nat): nat
    requires n <= |steps|
  {
    if n == 0 then 0 else Frees(steps, n - 1) + if steps[n - 1].FreeForeignStep? then 1 else 0
  }

  ghost function Done(states: seq<Sys>, steps: seq<Step>, n: nat): nat
    requires n <= |steps| < |states|
  {
    if n == 0 then 0 else Done(states, steps, n - 1) + if steps[n - 1].FreeForeignStep? then 0 else StepsDone(states[n - 1], steps[n - 1])
  }

  /** At any time in any run: what has been done and what is left make eight for each pointer freed on a
      foreign thread. So no run does more than that, however the threads take turns. */
  lemma {:induction false} EightEach(owner: Owner, states: seq<Sys>, steps: seq<Step>, i: nat)
    requires Run(owner, states, steps) && i < |states|
    ensures Done(states, steps, i) + StepsLeft(states[i]) == 8 * Frees(steps, i) && 0 <= StepsLeft(states[i])
  {
    RunInv(owner, states, steps, i);
    StepsLeftNat(owner, states[i]);
    if i > 0 {
      EightEach(owner, states, steps, i - 1);
      RunInv(owner, states, steps, i - 1);
      StepsCount(owner, states[i - 1], states[i], steps[i - 1]);
    } else {
      NothingAtFirst(states[0]);
    }
  }

  lemma NothingAtFirst(s: Sys)
    requires Init(s)
    ensures StepsLeft(s) == 0
  {
    assert AtLeast(s, 1) == {} && AtLeast(s, 2) == {} && AtLeast(s, 3) == {};
    assert Forward(s.places.Keys, s.value) == {} && Returning(s.places.Keys, s.value) == {};
  }

  /** Activations that saw a head which is not the head any more. */
  ghost function Stale(s: Sys): set<nat> {
    set a: nat | a < |s.pcs| && CanPush(s, a) && s.heads[s.pcs[a].target] != s.pcs[a].seen
  }

  ghost predicate AllQuiet(s: Sys) {
    && (forall a :: 0 <= a < |s.pcs| ==> s.pcs[a] == Idle)
    && (forall t :: 0 <= t < |s.heads| ==> s.heads[t] == NULL)
  }

  /** Each thread can do something. */
  ghost predicate Staffed(s: Sys) {
    forall t :: 0 <= t < |s.heads| ==> t in s.who
  }

  /** Steps of the draining, without any failure that has no reason. */
  predicate Drains(step: Step) {
    (step.CasStep? && !step.spurious) || step.TakeListStep? || step.ReadStep? || step.DeliverStep?
  }

  /** Unless all is quiet, somebody can get further; a compare-and-swap that fails has a reason, and not the
      second time in a row. */
  lemma Ahead(owner: Owner, s: Sys) returns (step: Step, s': Sys)
    requires Inv(owner, s) && Staffed(s) && !AllQuiet(s)
    ensures Drains(step) && Next(owner, s, s', step) && Inv(owner, s') && Staffed(s') && s'.users == s.users
    ensures 0 <= StepsLeft(s') < StepsLeft(s) || (StepsLeft(s') == StepsLeft(s) && |Stale(s')| < |Stale(s)|)
  {
    if a :| 0 <= a < |s.pcs| && s.pcs[a] != Idle {
      step, s' := AheadAt(owner, s, a);
    } else {
      step, s' := AheadTaking(owner, s);
    }
    StepsCount(owner, s, s', step);
    NextInv(owner, s, s', step);
    StepsLeftNat(owner, s');
  }

  /** With nobody in the middle of anything, a list that is not empty can be taken. */
  lemma AheadTaking(owner: Owner, s: Sys) returns (step: Step, s': Sys)
    requires Inv(owner, s) && Staffed(s) && !AllQuiet(s) && forall a :: 0 <= a < |s.pcs| ==> s.pcs[a] == Idle
    ensures Drains(step) && Next(owner, s, s', step) && s'.users == s.users && s'.who == s.who && |s'.heads| == |s.heads|
    ensures StepsDone(s, step) > 0
  {
    var t :| 0 <= t < |s.heads| && s.heads[t] != NULL;
    assert t in s.who;
    var a :| 0 <= a < |s.who| && s.who[a] == t;
    step, s' := TakeListStep(a), TakeList(s, a);
    assert ListOk(s, t) && Linked(s, s.lists[t], |s.lists[t]| - 1, InList(t, |s.lists[t]| - 1));
    assert s.heads[t] in Listed(s, t);
  }

  /** What an activation in the middle of something does next. */
  lemma AheadAt(owner: Owner, s: Sys, a: nat) returns (step: Step, s': Sys)
    requires Inv(owner, s) && a < |s.pcs| && s.pcs[a] != Idle
    ensures Drains(step) && Next(owner, s, s', step) && s'.users == s.users && s'.who == s.who && |s'.heads| == |s.heads|
    ensures StepsDone(s, step) > 0 || (StepsDone(s, step) == 0 && |Stale(s')| < |Stale(s)|)
  {
    assert ActivationOk(s, a);
    match s.pcs[a]
    case Draining(_) =>
      AtHand(owner, s, a);
      step, s' := ReadStep(a), Read(s, a);
    case Holding(_, _, _) =>
      Held(owner, s, a);
      step, s' := DeliverStep(a), Deliver(owner, s, a);
    case Pushing(_, _, _, _) =>
      step, s' := CasStep(a, false), CasRound(s, a, false);
      if a in Stale(s) { assert Stale(s') == Stale(s) - {a}; }
  }

  /** What goes on from `s`. */
  ghost predicate Goes(owner: Owner, s: Sys, states: seq<Sys>, steps: seq<Step>) {
    && |states| == |steps| + 1 && states[0] == s
    && forall i {:trigger steps[i]} :: 0 <= i < |steps| ==> Next(owner, states[i], states[i + 1], steps[i]) && Drains(steps[i])
  }

  /** Wherever things stand, draining can be brought to its end. */
  lemma {:induction false} Finish(owner: Owner, s: Sys) returns (states: seq<Sys>, steps: seq<Step>)
    requires Inv(owner, s) && Staffed(s)
    ensures Goes(owner, s, states, steps) && AllQuiet(states[|steps|]) && states[|steps|].users == s.users
    decreases StepsLeft(s), |Stale(s)|
  {
    if AllQuiet(s) { return [s], []; }
    var step, s' := Ahead(owner, s);
    states, steps := Finish(owner, s');
    GoesFirst(owner, s, step, s', states, steps);
    states, steps := [s] + states, [step] + steps;
  }

  lemma GoesFirst(owner: Owner, s: Sys, step: Step, s': Sys, states: seq<Sys>, steps: seq<Step>)
    requires Next(owner, s, s', step) && Drains(step) && Goes(owner, s', states, steps)
    ensures Goes(owner, s, [s] + states, [step] + steps)
  {
    forall i | 0 <= i < |steps| + 1 ensures Next(owner, ([s] + states)[i], ([s] + states)[i + 1], ([step] + steps)[i]) && Drains(([step] + steps)[i]) {
      if i > 0 { assert ([step] + steps)[i] == steps[i - 1]; }
    }
  }

  lemma {:induction false} NoneCommitted(steps: seq<Step>, more: seq<Step>, n: nat)
    requires n <= |more| && forall k :: 0 <= k < |more| ==> Drains(more[k])
    ensures Committed(steps + more, |steps| + n) == Committed(steps, |steps|)
  {
    if n == 0 {
      CommittedBefore(steps, more, |steps|);
    } else {
      NoneCommitted(steps, more, n - 1);
      assert (steps + more)[|steps| + n - 1] == more[n - 1];
    }
  }

  lemma {:induction false} CommittedBefore(steps: seq<Step>, more: seq<Step>, n: nat)
    requires n <= |steps|
    ensures Committed(steps + more, n) == Committed(steps, n)
  {
    if n > 0 { CommittedBefore(steps, more, n - 1); }
  }

  /** A run, and what goes on from its last state. */
  lemma Joined(owner: Owner, states: seq<Sys>, steps: seq<Step>, more: seq<Sys>, moreSteps: seq<Step>) returns (states': seq<Sys>, steps': seq<Step>)
    requires Run(owner, states, steps) && Goes(owner, states[|steps|], more, moreSteps)
    ensures Run(owner, states', steps') && states <= states' && steps <= steps' && states'[|steps'|] == more[|moreSteps|]
    ensures forall k :: |steps| <= k < |steps'| ==> Drains(steps'[k])
    ensures Committed(steps', |steps'|) == Committed(steps, |steps|)
  {
    states', steps' := states + more[1..], steps + moreSteps;
    RunJoined(owner, states, steps, more, moreSteps);
    DrainsJoined(owner, states[|steps|], steps, more, moreSteps);
  }

  lemma RunJoined(owner: Owner, states: seq<Sys>, steps: seq<Step>, more: seq<Sys>, moreSteps: seq<Step>)
    requires Run(owner, states, steps) && Goes(owner, states[|steps|], more, moreSteps)
    ensures Run(owner, states + more[1..], steps + moreSteps)
  {
    forall i | 0 <= i < |steps + moreSteps| ensures Next(owner, (states + more[1..])[i], (states + more[1..])[i + 1], (steps + moreSteps)[i]) {
      NextJoined(owner, states, steps, more, moreSteps, i);
    }
  }

  lemma DrainsJoined(owner: Owner, s: Sys, steps: seq<Step>, more: seq<Sys>, moreSteps: seq<Step>)
    requires Goes(owner, s, more, moreSteps)
    ensures var steps' := steps + moreSteps;
            && Committed(steps', |steps'|) == Committed(steps, |steps|)
            && forall k :: |steps| <= k < |steps'| ==> Drains(steps'[k])
  {
    var steps' := steps + moreSteps;
    forall k | |steps| <= k < |steps'| ensures Drains(steps'[k]) { assert moreSteps[k - |steps|] == steps'[k]; }
    NoneCommitted(steps, moreSteps, |moreSteps|);
  }

  lemma NextJoined(owner: Owner, states: seq<Sys>, steps: seq<Step>, more: seq<Sys>, moreSteps: seq<Step>, i: nat)
    requires Run(owner, states, steps) && Goes(owner, states[|steps|], more, moreSteps) && i < |steps| + |moreSteps|
    ensures var all, allSteps := states + more[1..], steps + moreSteps; Next(owner, all[i], all[i + 1], allSteps[i])
  {
    var n, all, allSteps := |steps|, states + more[1..], steps + moreSteps;
    if i < n {
      assert allSteps[i] == steps[i] && all[i] == states[i] && all[i + 1] == states[i + 1];
    } else {
      assert allSteps[i] == moreSteps[i - n] && all[i] == more[i - n] && all[i + 1] == more[i - n + 1];
    }
  }

  /** With a user, or in the owner's table. */
  ghost predicate Settled(owner: Owner, s: Sys, p: Ptr) {
    p in s.users || (owner(p) < |s.tables| && p in s.tables[owner(p)])
  }

  /** Every run can go on, by steps of the draining alone, to a state in which all is quiet; then every slot
      committed is with a user, of those who have one now, or in its owner's table. */
  lemma AllCanComeHome(owner: Owner, states: seq<Sys>, steps: seq<Step>) returns (states': seq<Sys>, steps': seq<Step>)
    requires Run(owner, states, steps) && Staffed(states[|steps|])
    ensures Run(owner, states', steps') && states <= states' && steps <= steps'
    ensures forall k :: |steps| <= k < |steps'| ==> Drains(steps'[k])
    ensures AllQuiet(states'[|steps'|]) && states'[|steps'|].users == states[|steps|].users
    ensures forall p :: p in Committed(steps, |steps|) <==> Settled(owner, states'[|steps'|], p)
  {
    RunInv(owner, states, steps, |steps|);
    var more, moreSteps := Finish(owner, states[|steps|]);
    states', steps' := Joined(owner, states, steps, more, moreSteps);
    AllSettled(owner, states', steps', Committed(steps, |steps|));
  }

  lemma AllSettled(owner: Owner, states: seq<Sys>, steps: seq<Step>, slots: set<Ptr>)
    requires Run(owner, states, steps) && AllQuiet(states[|steps|]) && slots == Committed(steps, |steps|)
    ensures forall p :: p in slots <==> Settled(owner, states[|steps|], p)
  {
    forall p ensures p in slots <==> Settled(owner, states[|steps|], p) {
      QuietMeansDelivered(owner, states, steps, |steps|, p);
    }
  }
}
