/** Merging two ascending sources: `MergeIterInner`, and the union it yields. */
module MergeIter {
  import opened NodeStore
  import opened Ranks

  datatype MaybeKV = NoKV | SomeKV(kv: KV)

  datatype Peeked = NotPeeked | PeekedA(item: KV) | PeekedB(item: KV)

  /** The union of two ascending sequences by key; where both have a key, the pair of `b`. */
  ghost function Union(a: seq<KV>, b: seq<KV>): seq<KV>
    decreases |a| + |b|
  {
    if a == [] then b
    else if b == [] then a
    else if a[0].key < b[0].key then [a[0]] + Union(a[1..], b)
    else if a[0].key > b[0].key then [b[0]] + Union(a, b[1..])
    else [b[0]] + Union(a[1..], b[1..])
  }

  class MergeIterInner {
    /** What the sources have not yet given out. */
    var a: seq<KV>
    var b: seq<KV>
    var peeked: Peeked

    constructor (a: seq<KV>, b: seq<KV>)
      ensures RestA() == a && RestB() == b
    {
      this.a, this.b, peeked := a, b, NotPeeked;
    }

    ghost function RestA(): seq<KV>
      reads this
    {
      if peeked.PeekedA? then [peeked.item] + a else a
    }

    ghost function RestB(): seq<KV>
      reads this
    {
      if peeked.PeekedB? then [peeked.item] + b else b
    }

    method NextA() returns (r: MaybeKV)
      modifies this`a
      ensures if old(a) == [] then r == NoKV && a == [] else r == SomeKV(old(a)[0]) && a == old(a)[1..]
    {
      if a == [] { return NoKV; }
      r := SomeKV(a[0]);
      a := a[1..];
    }

    method NextB() returns (r: MaybeKV)
      modifies this`b
      ensures if old(b) == [] then r == NoKV && b == [] else r == SomeKV(old(b)[0]) && b == old(b)[1..]
    {
      if b == [] { return NoKV; }
      r := SomeKV(b[0]);
      b := b[1..];
    }

    /** The least pair left in either source; from both if they have the same key. */
    method Nexts() returns (aNext: MaybeKV, bNext: MaybeKV)
      modifies this
      ensures var ra, rb := old(RestA()), old(RestB());
              && aNext.SomeKV? == (ra != [] && (rb == [] || ra[0].key <= rb[0].key))
              && bNext.SomeKV? == (rb != [] && (ra == [] || rb[0].key <= ra[0].key))
              && (if aNext.SomeKV? then aNext.kv == ra[0] && RestA() == ra[1..] else RestA() == ra)
              && (if bNext.SomeKV? then bNext.kv == rb[0] && RestB() == rb[1..] else RestB() == rb)
    {
      match peeked {
        case PeekedA(next) =>
          aNext := SomeKV(next);
          bNext := NextB();
        case PeekedB(next) =>
          bNext := SomeKV(next);
          aNext := NextA();
        case NotPeeked =>
          aNext := NextA();
          bNext := NextB();
      }
      peeked := NotPeeked;
      if aNext.SomeKV? && bNext.SomeKV? {
        if aNext.kv.key < bNext.kv.key {
          peeked, bNext := PeekedB(bNext.kv), NoKV;
        } else if aNext.kv.key > bNext.kv.key {
          peeked, aNext := PeekedA(aNext.kv), NoKV;
        }
      }
    }

    /** The next pair of the union; if both sources have its key, the right one's. */
    method Next() returns (r: MaybeKV)
      modifies this
      ensures var rest := old(Union(RestA(), RestB()));
              if rest == [] then r == NoKV && Union(RestA(), RestB()) == []
              else r == SomeKV(rest[0]) && Union(RestA(), RestB()) == rest[1..]
    {
      var aNext, bNext := Nexts();
      r := if bNext.SomeKV? then bNext else aNext;
    }

    /** Everything left, in order. */
    method Collect() returns (items: seq<KV>)
      modifies this
      ensures items == old(Union(RestA(), RestB()))
    {
      items := [];
      ghost var total := Union(RestA(), RestB());
      while true
        invariant items + Union(RestA(), RestB()) == total
        decreases |total| - |items|
      {
        ghost var rest := Union(RestA(), RestB());
        var r := Next();
        if r.NoKV? { break; }
        TakenOver(items, rest);
        items := items + [r.kv];
      }
    }
  }

  lemma TakenOver(items: seq<KV>, rest: seq<KV>)
    requires rest != []
    ensures items + rest == items + [rest[0]] + rest[1..] && |items| < |items + rest|
  {
  }

  // ----- what the union is -----

  lemma {:induction false} UnionAscending(a: seq<KV>, b: seq<KV>)
    requires Ascending(a) && Ascending(b)
    ensures Ascending(Union(a, b))
    ensures forall x :: 0 <= x < |Union(a, b)| ==> (a != [] && a[0].key <= Union(a, b)[x].key) || (b != [] && b[0].key <= Union(a, b)[x].key)
    decreases |a| + |b|
  {
    if a != [] && b != [] {
      if a[0].key < b[0].key { UnionAscending(a[1..], b); }
      else if a[0].key > b[0].key { UnionAscending(a, b[1..]); }
      else { UnionAscending(a[1..], b[1..]); }
    }
  }

  ghost predicate HasKey(s: seq<KV>, k: int) {
    exists v :: KV(k, v) in s
  }

  /** The pairs of the union: all of `b`'s, and `a`'s with keys that `b` does not have. */
  lemma {:induction false} UnionPairs(a: seq<KV>, b: seq<KV>, k: int, v: int)
    requires Ascending(a) && Ascending(b)
    ensures KV(k, v) in Union(a, b) <==> KV(k, v) in b || (KV(k, v) in a && !HasKey(b, k))
    decreases |a| + |b|
  {
    if a != [] && b != [] {
      var a', b' := a[1..], b[1..];
      assert a == [a[0]] + a' && b == [b[0]] + b';
      if a[0].key < b[0].key {
        UnionPairs(a', b, k, v);
        NotBelow(b, a[0].key);
      } else if a[0].key > b[0].key {
        UnionPairs(a, b', k, v);
        NotBelow(a, b[0].key);
        assert HasKey(b, k) <==> k == b[0].key || HasKey(b', k) by { HasKeySplit(b[0], b', k); }
      } else {
        UnionPairs(a', b', k, v);
        NotBelow(a', a[0].key);
        assert HasKey(b, k) <==> k == b[0].key || HasKey(b', k) by { HasKeySplit(b[0], b', k); }
      }
    }
  }

  /** A key before the first one is not there. */
  lemma NotBelow(s: seq<KV>, k: int)
    requires Ascending(s) && (s != [] ==> k < s[0].key)
    ensures !HasKey(s, k)
  {
    forall v ensures KV(k, v) !in s {
      forall x | 0 <= x < |s| ensures s[x] != KV(k, v) { assert x > 0 ==> s[0].key < s[x].key; }
    }
  }

  lemma HasKeySplit(kv: KV, s: seq<KV>, k: int)
    ensures HasKey([kv] + s, k) <==> k == kv.key || HasKey(s, k)
  {
    var t := [kv] + s;
    if k == kv.key { assert t[0] == KV(k, kv.val); }
    if HasKey(s, k) {
      var v :| KV(k, v) in s;
      assert KV(k, v) in t;
    }
  }

  lemma {:induction false} AsMapPair(s: seq<KV>, k: int, v: int)
    requires Ascending(s)
    ensures (k in AsMap(s) && AsMap(s)[k] == v) <==> KV(k, v) in s
  {
    if s != [] {
      var n := |s| - 1;
      AsMapPair(s[..n], k, v);
      assert s == s[..n] + [s[n]];
      forall x | 0 <= x < n ensures s[..n][x].key != s[n].key { assert s[x].key < s[n].key; }
    }
  }

  /** As maps: `a` updated by `b`. */
  lemma UnionAsMap(a: seq<KV>, b: seq<KV>)
    requires Ascending(a) && Ascending(b)
    ensures AsMap(Union(a, b)) == AsMap(a) + AsMap(b)
  {
    var m, n := AsMap(Union(a, b)), AsMap(a) + AsMap(b);
    forall k ensures (k in m <==> k in n) && (k in n ==> k in m && m[k] == n[k]) { UnionAt(a, b, k); }
    assert m.Keys == n.Keys;
  }

  lemma UnionAt(a: seq<KV>, b: seq<KV>, k: int)
    requires Ascending(a) && Ascending(b)
    ensures k in AsMap(Union(a, b)) <==> k in AsMap(a) || k in AsMap(b)
    ensures k in AsMap(b) ==> k in AsMap(Union(a, b)) && AsMap(Union(a, b))[k] == AsMap(b)[k]
    ensures k in AsMap(a) && k !in AsMap(b) ==> k in AsMap(Union(a, b)) && AsMap(Union(a, b))[k] == AsMap(a)[k]
  {
    UnionAscending(a, b);
    var u := Union(a, b);
    HasKeyAsMap(b, k);
    if k in AsMap(u) {
      var v := AsMap(u)[k];
      UnionPairs(a, b, k, v);
      AsMapPair(u, k, v);
      AsMapPair(a, k, v);
      AsMapPair(b, k, v);
    }
    if k in AsMap(b) {
      var v := AsMap(b)[k];
      UnionPairs(a, b, k, v);
      AsMapPair(u, k, v);
      AsMapPair(b, k, v);
    } else if k in AsMap(a) {
      var v := AsMap(a)[k];
      UnionPairs(a, b, k, v);
      AsMapPair(u, k, v);
      AsMapPair(a, k, v);
    }
  }

  lemma HasKeyAsMap(s: seq<KV>, k: int)
    requires Ascending(s)
    ensures HasKey(s, k) <==> k in AsMap(s)
  {
    if HasKey(s, k) {
      var v :| KV(k, v) in s;
      AsMapPair(s, k, v);
    }
    if k in AsMap(s) { AsMapPair(s, k, AsMap(s)[k]); }
  }

  /** All keys of the one are less than all keys of the other. */
  ghost predicate KeysBelow(a: seq<KV>, b: seq<KV>) {
    forall i, j :: 0 <= i < |a| && 0 <= j < |b| ==> a[i].key < b[j].key
  }

  lemma {:induction false} AsMapJoined(a: seq<KV>, b: seq<KV>)
    ensures AsMap(a + b) == AsMap(a) + AsMap(b)
  {
    if b == [] {
      assert a + b == a;
    } else {
      AsMapJoined(a, b[..|b| - 1]);
      assert (a + b)[..|a + b| - 1] == a + b[..|b| - 1];
    }
  }

  lemma Overridden(m: map<int, int>, n: map<int, int>, o: map<int, int>)
    ensures m + (n + o) == m + n + o
  {
  }

  lemma AfterNone(u: seq<KV>, n: map<int, int>, o: map<int, int>)
    ensures [] + u == u && AsMap([]) + n + o == n + o
  {
    assert AsMap([]) + n == n;
  }

  lemma AscendingJoin(a: seq<KV>, b: seq<KV>)
    requires Ascending(a) && Ascending(b) && KeysBelow(a, b)
    ensures Ascending(a + b)
  {
  }

  lemma BelowUnion(all: seq<KV>, left: seq<KV>, right: seq<KV>)
    requires Ascending(left) && Ascending(right) && KeysBelow(all, left) && KeysBelow(all, right)
    ensures KeysBelow(all, Union(left, right))
  {
    var u := Union(left, right);
    UnionAscending(left, right);
    forall i, j | 0 <= i < |all| && 0 <= j < |u| ensures all[i].key < u[j].key {
      assert left != [] ==> all[i].key < left[0].key;
      assert right != [] ==> all[i].key < right[0].key;
    }
  }

  /** The union of two sources after pairs with lesser keys. */
  lemma AppendedAsMap(all: seq<KV>, left: seq<KV>, right: seq<KV>)
    requires Ascending(all) && Ascending(left) && Ascending(right) && KeysBelow(all, left) && KeysBelow(all, right)
    ensures Ascending(all + Union(left, right)) && AsMap(all + Union(left, right)) == AsMap(all) + AsMap(left) + AsMap(right)
  {
    UnionAscending(left, right);
    BelowUnion(all, left, right);
    AscendingJoin(all, Union(left, right));
    UnionAsMap(left, right);
    AsMapJoined(all, Union(left, right));
    Overridden(AsMap(all), AsMap(left), AsMap(right));
  }
}
