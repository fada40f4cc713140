/** `PurgedKFold.split`. */
module PurgedCv {
  import opened Arith

  datatype Fold = Fold(train: seq<nat>, test: seq<nat>)

  datatype Result<T> = Ok(value: T) | ZeroStep

  /** The indices a, a+1, ..., b-1. */
  function Range(a: nat, b: nat): seq<nat>
    requires a <= b
  {
    seq(b - a, i requires 0 <= i => a + i)
  }

  /** The fold that starts at `start`. */
  function MakeFold(n: nat, size: nat, purge: nat, start: nat): Fold
    requires start < n
  {
    var indices := Range(0, n);
    var end := Min(start + size, n);
    var left := if start < purge then 0 else start - purge;
    Fold(indices[..left] + indices[Min(end + purge, n)..], indices[start..end])
  }

  function FoldsFrom(n: nat, size: nat, purge: nat, start: nat): seq<Fold>
    requires size > 0
    decreases n - start
  {
    if start >= n then [] else [MakeFold(n, size, purge, start)] + FoldsFrom(n, size, purge, start + size)
  }

  /** `range` refuses the step 0 that arises for fewer samples than splits. */
  function Split(n: nat, nSplits: nat, purge: nat): Result<seq<Fold>>
    requires nSplits >= 1
  {
    if n / nSplits == 0 then ZeroStep else Ok(FoldsFrom(n, n / nSplits, purge, 0))
  }

  // ---- Which folds there are ----

  lemma {:induction false} FoldAt(n: nat, size: nat, purge: nat, start: nat, j: nat) returns (at: nat)
    requires size > 0 && j < |FoldsFrom(n, size, purge, start)|
    ensures at < n && FoldsFrom(n, size, purge, start)[j] == MakeFold(n, size, purge, at)
    decreases j
  {
    hide MakeFold, FoldsFrom;
    FoldsUnfold(n, size, purge, start);
    if j == 0 {
      at := start;
    } else {
      at := FoldAt(n, size, purge, start + size, j - 1);
    }
  }

  lemma FoldsUnfold(n: nat, size: nat, purge: nat, start: nat)
    requires size > 0
    ensures FoldsFrom(n, size, purge, start)
         == if start >= n then [] else [MakeFold(n, size, purge, start)] + FoldsFrom(n, size, purge, start + size)
  {}

  lemma {:induction false} FoldCountFrom(n: nat, size: nat, purge: nat, start: nat)
    requires size > 0 && start <= n
    ensures |FoldsFrom(n, size, purge, start)| == CeilDiv(n - start, size)
    decreases n - start
  {
    if start < n {
      CeilDivPeel(n - start, size);
      if start + size <= n {
        FoldCountFrom(n, size, purge, start + size);
      } else {
        CeilDivUnique(0, size, 0);
      }
    } else {
      CeilDivUnique(0, size, 0);
    }
  }

  function Tests(folds: seq<Fold>): seq<nat> {
    if folds == [] then [] else folds[0].test + Tests(folds[1..])
  }

  lemma RangeSlice(n: nat, a: nat, b: nat)
    requires a <= b <= n
    ensures Range(0, n)[a..b] == Range(a, b)
  {}

  lemma RangeJoin(a: nat, b: nat, c: nat)
    requires a <= b <= c
    ensures Range(a, b) + Range(b, c) == Range(a, c) && Range(c, c) == []
  {}

  lemma InRange(i: nat, a: nat, b: nat)
    requires a <= b
    ensures i in Range(a, b) <==> a <= i < b
  {
    if a <= i < b { assert Range(a, b)[i - a] == i; }
  }

  lemma {:induction false} TestsCover(n: nat, size: nat, purge: nat, start: nat)
    requires size > 0 && start <= n
    ensures Tests(FoldsFrom(n, size, purge, start)) == Range(start, n)
    decreases n - start
  {
    if start < n {
      hide Range;
      var end := Min(start + size, n);
      RangeSlice(n, start, end);
      RangeJoin(start, end, n);
      if start + size <= n {
        TestsCover(n, size, purge, start + size);
      }
    }
  }

  /** The number of folds lies between n_splits and 2*n_splits - 1, and is
      n_splits exactly when n_splits divides the number of samples. */
  lemma CountRange(n: nat, k: nat)
    requires n >= k >= 1
    ensures n / k >= 1
    ensures k <= CeilDiv(n, n / k) <= 2 * k - 1
    ensures CeilDiv(n, n / k) == k <==> n % k == 0
  {
    var q, r := n / k, n % k;
    assert n == q * k + r;
    MulOrder(if q < 1 then q else 0, 0, k);
    CeilDivCovers(n, q);
    CountPieces(n, k, q, r, CeilDiv(n, q));
  }

  lemma CountPieces(n: nat, k: nat, q: nat, r: nat, c: int)
    requires n == q * k + r && r < k && q >= 1 && (c - 1) * q < n <= c * q
    ensures k <= c <= 2 * k - 1 && (c == k <==> r == 0)
  {
    assert k * q == q * k && (k + 1) * q == q * k + q && (k - 1) * q == q * k - q;
    assert (2 * k - 1) * q == q * k + (k - 1) * q;
    MulOrder(1, q, k - 1);
    MulOrder(if c < k then c else k - 1, k - 1, q);
    MulOrder(2 * k - 1, if c >= 2 * k then c - 1 else 2 * k - 1, q);
    MulOrder(k, if c >= k + 1 then c - 1 else k, q);
  }

  /** The split succeeds exactly when there are at least as many samples as
      splits; then the test folds, in order, are the samples 0..n-1, cut into
      between n_splits and 2*n_splits - 1 pieces. */
  lemma FoldsPartition(n: nat, nSplits: nat, purge: nat)
    requires nSplits >= 1
    ensures Split(n, nSplits, purge).Ok? <==> n >= nSplits
    ensures n >= nSplits ==>
      var folds := Split(n, nSplits, purge).value;
      && Tests(folds) == Range(0, n)
      && nSplits <= |folds| <= 2 * nSplits - 1
      && (|folds| == nSplits <==> n % nSplits == 0)
  {
    if n >= nSplits {
      CountRange(n, nSplits);
      FoldCountFrom(n, n / nSplits, purge, 0);
      TestsCover(n, n / nSplits, purge, 0);
    } else {
      ModUnique(n, 0, n, nSplits);
      assert n == (n / nSplits) * nSplits + n % nSplits;
      MulOrder(1, if n / nSplits >= 1 then n / nSplits else 1, nSplits);
    }
  }

  lemma OneEach(n: nat, k: nat)
    requires k >= 1 && n == 2 * k - 1 && n % k == k - 1
    ensures n / k == 1
  {
    assert n == (n / k) * k + n % k;
    OnlyMultiple(n / k - 1, k);
  }

  /** The upper bound occurs: 2k - 1 samples split k ways give as many folds of one sample. */
  lemma BoundAttained(k: nat, purge: nat)
    requires k >= 1
    ensures var r := Split(2 * k - 1, k, purge);
      r.Ok? && |r.value| == 2 * k - 1
  {
    var n := 2 * k - 1;
    hide FoldsFrom;
    ModUnique(n, 1, k - 1, k);
    OneEach(n, k);
    FoldCountFrom(n, 1, purge, 0);
    CeilDivUnique(n, 1, n);
  }

  // ---- Purging ----

  function Distance(i: int, j: int): nat { if i < j then j - i else i - j }

  ghost predicate Ascending(s: seq<nat>) {
    forall i, j | 0 <= i < j < |s| :: s[i] < s[j]
  }

  /** Further than the window from every test sample. */
  ghost predicate Far(i: nat, test: seq<nat>, purge: nat) {
    forall t | t in test :: Distance(i, t) > purge
  }

  lemma FarFromRange(i: nat, a: nat, b: nat, purge: nat)
    requires a < b
    ensures Far(i, Range(a, b), purge) <==> i + purge < a || i >= b + purge
  {
    InRange(a, a, b);
    InRange(b - 1, a, b);
    InRange(i, a, b);
    assert Distance(i, i) == 0;
    assert Far(i, Range(a, b), purge) ==> Distance(i, a) > purge && Distance(i, b - 1) > purge;
    forall t | t in Range(a, b) ensures a <= t < b { InRange(t, a, b); }
  }

  lemma FoldPurged(n: nat, size: nat, purge: nat, start: nat)
    requires size > 0 && start < n
    ensures var f := MakeFold(n, size, purge, start);
      && f.test != []
      && Ascending(f.train)
      && (forall i: nat :: i in f.train <==> i < n && Far(i, f.test, purge))
  {
    var f := MakeFold(n, size, purge, start);
    var end := Min(start + size, n);
    var left, right := if start < purge then 0 else start - purge, Min(end + purge, n);
    RangeSlice(n, start, end);
    RangeSlice(n, 0, left);
    RangeSlice(n, right, n);
    hide Range;
    assert Range(0, n)[..left] == Range(0, n)[0..left] && Range(0, n)[right..] == Range(0, n)[right..n];
    assert f.train == Range(0, left) + Range(right, n);
    forall i: nat ensures i in f.train <==> i < n && Far(i, f.test, purge) {
      InRange(i, 0, left);
      InRange(i, right, n);
      FarFromRange(i, start, end, purge);
    }
  }

  /** Every fold trains on exactly the samples further than the purge window
      from each of its test samples, in ascending order without repetition. */
  lemma TrainingPurged(n: nat, nSplits: nat, purge: nat, j: nat)
    requires nSplits >= 1 && Split(n, nSplits, purge).Ok? && j < |Split(n, nSplits, purge).value|
    ensures var f := Split(n, nSplits, purge).value[j];
      && f.test != []
      && Ascending(f.train)
      && (forall i: nat :: i in f.train <==> i < n && Far(i, f.test, purge))
  {
    var size := n / nSplits;
    var at := FoldAt(n, size, purge, 0, j);
    FoldPurged(n, size, purge, at);
  }
}
