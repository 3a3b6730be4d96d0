/** How large a buffer is made for the cells asked for. */
module Buffers {
  import opened SizeClasses
  import S = SizeTables

  ghost predicate IsPower(r: nat) {
    exists b: nat {:trigger Pow2(b)} :: r == Pow2(b)
  }

  lemma Doubled(r: nat)
    requires IsPower(r)
    ensures IsPower(2 * r) && r > 0
  {
    var b: nat :| r == Pow2(b);
    assert 2 * r == Pow2(b + 1);
  }

  /** A power of two that is not below `n`, and less than twice as large. */
  function NextPowerOfTwo(n: nat): (r: nat)
    ensures IsPower(r) && r >= n && r > 0 && (n > 0 ==> r < 2 * n)
  {
    assert Pow2(0) == 1;
    PowerFrom(1, n)
  }

  function PowerFrom(p: nat, n: nat): (r: nat)
    requires IsPower(p) && p > 0
    ensures IsPower(r) && r >= n && r >= p && (r == p || r < 2 * n)
    decreases n - p
  {
    if p >= n then p
    else
      Doubled(p);
      PowerFrom(2 * p, n)
  }

  /** It is the least one. */
  lemma LeastPower(n: nat, b: nat)
    requires Pow2(b) >= n
    ensures NextPowerOfTwo(n) <= Pow2(b)
  {
    var r := NextPowerOfTwo(n);
    var c: nat :| r == Pow2(c);
    if n == 0 { assert NextPowerOfTwo(0) == 1; }
    if c > b { Pow2Ascends(b, c); }
    if c < b { Pow2Ascends(c, b); }
  }

  lemma {:induction false} PowersMultiply(a: nat, b: nat)
    ensures Pow2(a + b) == Pow2(a) * Pow2(b)
  {
    if b > 0 {
      PowersMultiply(a, b - 1);
      assert Pow2(a) * (2 * Pow2(b - 1)) == 2 * (Pow2(a) * Pow2(b - 1));
    } else {
      assert Pow2(0) == 1;
    }
  }

  lemma Product(a: nat, b: nat, c: nat)
    requires c > 0
    ensures a <= b <==> a * c <= b * c
  {
    if a <= b { ProductGrows(a, b, c); } else { ProductGrows(b + 1, a, c); }
  }

  lemma BytesEnough(n: nat, k: nat, c: nat)
    requires NextPowerOfTwo(n) == Pow2(c)
    ensures Pow2(c + k) == Pow2(c) * Pow2(k) && NextPowerOfTwo(n * Pow2(k)) <= Pow2(c + k)
  {
    PowersMultiply(c, k);
    Product(n, Pow2(c), Pow2(k));
    LeastPower(n * Pow2(k), c + k);
  }

  lemma PowerAtLeast(d: nat, k: nat)
    requires Pow2(d) >= Pow2(k)
    ensures d >= k
  {
    if d < k { Pow2Ascends(d, k); }
  }

  lemma AtLeastOnce(n: nat, w: nat)
    requires n > 0
    ensures n * w >= w
  {
    ProductGrows(1, n, w);
  }

  lemma TakenOut(n: nat, k: nat, d: nat)
    requires n > 0 && n * Pow2(k) <= Pow2(d)
    ensures d >= k && Pow2(d) == Pow2(d - k) * Pow2(k)
  {
    AtLeastOnce(n, Pow2(k));
    PowerAtLeast(d, k);
    PowersMultiply(d - k, k);
  }

  lemma Scaled(n: nat, r: nat, e: nat, w: nat)
    requires w > 0 && n * w <= e * w && (n <= e ==> r <= e)
    ensures r * w <= e * w
  {
    if n > e { ProductGrows(e + 1, n, w); }
    ProductGrows(r, e, w);
  }

  lemma ScaledTo(n: nat, r: nat, e: nat, w: nat, x: nat)
    requires w > 0 && n * w <= x == e * w && (n <= e ==> r <= e)
    ensures r * w <= x
  {
    Scaled(n, r, e, w);
  }

  lemma LeastIf(n: nat, b: nat)
    ensures n <= Pow2(b) ==> NextPowerOfTwo(n) <= Pow2(b)
  {
    if n <= Pow2(b) { LeastPower(n, b); }
  }

  lemma BytesNoLess(n: nat, k: nat, d: nat)
    requires n > 0 && n * Pow2(k) <= Pow2(d)
    ensures NextPowerOfTwo(n) * Pow2(k) <= Pow2(d)
  {
    TakenOut(n, k, d);
    LeastIf(n, d - k);
    ScaledTo(n, NextPowerOfTwo(n), Pow2(d - k), Pow2(k), Pow2(d));
  }

  /** For cells of a power of two of bytes, rounding the bytes up comes to rounding the cells up. */
  lemma RoundedBytes(n: nat, k: nat) returns (c: nat)
    requires n > 0
    ensures NextPowerOfTwo(n) == Pow2(c) && NextPowerOfTwo(n * Pow2(k)) == NextPowerOfTwo(n) * Pow2(k) == Pow2(c + k)
  {
    c :| NextPowerOfTwo(n) == Pow2(c);
    var d: nat :| NextPowerOfTwo(n * Pow2(k)) == Pow2(d);
    BytesEnough(n, k, c);
    BytesNoLess(n, k, d);
  }

  lemma PowerGiven(t: S.Tables, size: nat, b: nat)
    requires Fit(t) && b >= 3 && size == Pow2(b)
    ensures RecommendedSize(t, size) == size
  {
    PowersAreGiven(t, b);
  }

  /** The bytes a vector asks for when it needs `n` cells of that size, rounded to a power of two and then to a
      size class, are the bytes of as many cells as the least power of two that is enough. */
  lemma BufferCells(t: S.Tables, n: nat, k: nat)
    requires Fit(t) && n > 0 && k >= 3
    ensures RecommendedSize(t, NextPowerOfTwo(n * Pow2(k))) == NextPowerOfTwo(n) * Pow2(k)
  {
    var c := RoundedBytes(n, k);
    PowerGiven(t, NextPowerOfTwo(n * Pow2(k)), c + k);
  }
}
