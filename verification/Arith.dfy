/** Integer and finite-set facts the solver does not find alone. */
module Arith {

  function Max(a: nat, b: nat): nat {
    if a < b then b else a
  }

  function Min(a: nat, b: nat): nat {
    if a < b then a else b
  }

  function CeilDiv(a: nat, b: nat): nat
    requires b > 0
  {
    (a + b - 1) / b
  }

  lemma MulOrder(a: int, b: int, c: nat)
    requires a <= b
    ensures a * c <= b * c
  {
    assert b * c - a * c == (b - a) * c >= 0;
  }

  lemma MultipleBelow(d: nat, gap: nat, width: nat)
    requires gap > 0 && d * gap < width
    ensures d < CeilDiv(width, gap)
  {
    CeilDivCovers(width, gap);
    MulOrder(if d < CeilDiv(width, gap) then d else CeilDiv(width, gap), d, gap);
  }

  lemma CeilDivCovers(width: nat, gap: nat)
    requires gap > 0
    ensures CeilDiv(width, gap) * gap >= width
    ensures (CeilDiv(width, gap) - 1) * gap < width
  {
    var t := width + gap - 1;
    assert t == (t / gap) * gap + t % gap;
    assert (CeilDiv(width, gap) - 1) * gap == (t / gap) * gap - gap;
  }

  /** The quotient is the only number of intervals that just covers the width. */
  lemma CeilDivUnique(width: nat, gap: nat, c: nat)
    requires gap > 0 && (c - 1) * gap < width <= c * gap
    ensures CeilDiv(width, gap) == c
  {
    var d := CeilDiv(width, gap);
    CeilDivCovers(width, gap);
    MulOrder(if d < c then d else c - 1, c - 1, gap);
    MulOrder(if c < d then c else d - 1, d - 1, gap);
  }

  lemma CeilDivPeel(x: nat, gap: nat)
    requires gap > 0 && x > 0
    ensures CeilDiv(x, gap) == CeilDiv(x - Min(gap, x), gap) + 1
  {
    var c := CeilDiv(x, gap);
    CeilDivCovers(x, gap);
    assert (c - 1) * gap == c * gap - gap;
    if x <= gap {
      CeilDivUnique(x, gap, 1);
      CeilDivUnique(0, gap, 0);
    } else {
      MulOrder(if c <= 0 then c else 0, 0, gap);
      assert (c - 2) * gap == (c - 1) * gap - gap;
      CeilDivUnique(x - gap, gap, c - 1);
    }
  }

  /** The only multiple of `size` strictly between -size and size is 0. */
  lemma OnlyMultiple(d: int, size: nat)
    requires -(size as int) < d * size < size
    ensures d == 0
  {
    MulOrder(1, if d >= 1 then d else 1, size);
    MulOrder(if d <= -1 then d else -1, -1, size);
  }

  lemma ModUnique(x: nat, q: nat, r: nat, size: nat)
    requires r < size && x == q * size + r
    ensures x % size == r
  {
    assert x == (x / size) * size + x % size;
    assert (x / size - q) * size == (x / size) * size - q * size;
    OnlyMultiple(x / size - q, size);
  }

  /** Two counters less than one lap apart share an index only if they are equal. */
  lemma ModDistinct(a: nat, b: nat, size: nat)
    requires a <= b < a + size
    ensures a % size == b % size <==> a == b
  {
    if a % size == b % size {
      assert a == (a / size) * size + a % size && b == (b / size) * size + b % size;
      assert (b / size - a / size) * size == (b / size) * size - (a / size) * size;
      OnlyMultiple(b / size - a / size, size);
    }
  }

  lemma ModSucc(a: nat, size: nat)
    requires size > 0
    ensures (a % size + 1) % size == (a + 1) % size
  {
    ModSuccParts(a, a / size, a % size, size);
  }

  lemma ModSuccParts(a: nat, q: nat, r: nat, size: nat)
    requires r < size && a == q * size + r
    ensures (r + 1) % size == (a + 1) % size
  {
    if r + 1 < size {
      ModUnique(a + 1, q, r + 1, size);
      ModUnique(r + 1, 0, r + 1, size);
    } else {
      assert (q + 1) * size == q * size + size;
      ModUnique(a + 1, q + 1, 0, size);
      ModUnique(r + 1, 1, 0, size);
    }
  }

  lemma ModPeriod(a: nat, size: nat)
    requires size > 0
    ensures (a + size) % size == a % size
  {
    assert a == (a / size) * size + a % size;
    assert (a / size + 1) * size == (a / size) * size + size;
    ModUnique(a + size, a / size + 1, a % size, size);
  }

  lemma LeastElement(s: set<nat>) returns (m: nat)
    requires s != {}
    ensures m in s && forall k | k in s :: m <= k
  {
    m :| m in s;
    var below := set k | k in s && k < m;
    assert forall k | k in s :: k in below <==> k < m;
    if below != {} {
      assert m !in below;
      m := LeastElement(below);
    }
  }

  lemma {:induction false} CardinalityOfRange(s: set<nat>, lo: nat, hi: nat)
    requires lo <= hi && forall k | k in s :: lo <= k < hi
    ensures |s| <= hi - lo
    decreases hi
  {
    if lo == hi {
      assert s == {};
    } else {
      CardinalityOfRange(s - {hi - 1}, lo, hi - 1);
    }
  }
}
