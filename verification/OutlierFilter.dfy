/** The final time of a measurement: mean, deviation, outliers dropped, then the median or the mean of the rest. */
module OutlierFilter {
  import opened Selection

  function Sum(xs: seq<real>): real {
    if xs == [] then 0.0 else Sum(xs[..|xs| - 1]) + xs[|xs| - 1]
  }

  function Mean(xs: seq<real>): real
    requires xs != []
  {
    Sum(xs) / |xs| as real
  }

  function Product(a: real, b: real): real {
    a * b
  }

  ghost predicate IsSquaring(f: real -> real) {
    forall x: real {:trigger Product(x, x)} :: f(x) == Product(x, x)
  }

  ghost function Squaring(): (f: real -> real)
    ensures IsSquaring(f)
  {
    var g := (x: real) => Product(x, x);
    assert IsSquaring(g);
    var f: real -> real :| IsSquaring(f);
    f
  }

  /** Product(x, x) as a value, so that proofs about sums do not look inside it. */
  ghost function Square(x: real): real {
    Squaring()(x)
  }

  lemma SquareIs(x: real)
    ensures Square(x) == Product(x, x) == x * x
  {
  }

  ghost function SquaredDeviation(xs: seq<real>, m: real): real {
    if xs == [] then 0.0 else SquaredDeviation(xs[..|xs| - 1], m) + Square(xs[|xs| - 1] - m)
  }

  function Abs(x: real): real {
    if x < 0.0 then -x else x
  }

  /** `dev` is the standard deviation: the non-negative root of the mean squared deviation. */
  ghost predicate IsDeviation(xs: seq<real>, dev: real)
    requires xs != []
  {
    dev >= 0.0 && Square(dev) * |xs| as real == SquaredDeviation(xs, Mean(xs))
  }

  predicate Close(x: real, m: real, bound: real) {
    Abs(x - m) <= bound
  }

  /** The samples no farther from m than the bound, in order. */
  function Kept(xs: seq<real>, m: real, bound: real): (r: seq<real>)
    ensures |r| <= |xs|
  {
    if xs == [] then []
    else
      var most := Kept(xs[..|xs| - 1], m, bound);
      if Close(xs[|xs| - 1], m, bound) then most + [xs[|xs| - 1]] else most
  }

  lemma {:induction false} KeptAre(xs: seq<real>, m: real, bound: real, x: real)
    ensures x in Kept(xs, m, bound) <==> x in xs && Close(x, m, bound)
    decreases |xs|
  {
    if xs != [] {
      KeptAre(xs[..|xs| - 1], m, bound, x);
      assert x in xs <==> x in xs[..|xs| - 1] || x == xs[|xs| - 1];
    }
  }

  /** The samples that are kept are those at these places, in order. */
  lemma {:induction false} KeptSelects(xs: seq<real>, m: real, bound: real) returns (idx: seq<nat>)
    ensures Enumerates(idx, set k: nat | k < |xs| && Close(xs[k], m, bound)) && |Kept(xs, m, bound)| == |idx|
    ensures forall i :: 0 <= i < |idx| ==> idx[i] < |xs| && Kept(xs, m, bound)[i] == xs[idx[i]]
    decreases |xs|
  {
    if xs == [] {
      idx := [];
    } else {
      var k := |xs| - 1;
      var most := xs[..k];
      idx := KeptSelects(most, m, bound);
      var before := set j: nat | j < |most| && Close(most[j], m, bound);
      var after := set j: nat | j < |xs| && Close(xs[j], m, bound);
      assert forall j: nat :: j < k ==> most[j] == xs[j];
      if Close(xs[k], m, bound) {
        assert after == before + {k};
        EnumeratesMore(idx, before, k);
        idx := idx + [k];
      } else {
        assert after == before;
      }
    }
  }

  /** Sums and squared deviations add up, whatever way the samples are split. */
  lemma {:induction false} SumsAdd(xs: seq<real>, ys: seq<real>, m: real)
    ensures Sum(xs + ys) == Sum(xs) + Sum(ys)
    ensures SquaredDeviation(xs + ys, m) == SquaredDeviation(xs, m) + SquaredDeviation(ys, m)
    decreases |ys|
  {
    if ys == [] {
      assert xs + ys == xs;
    } else {
      var k := |ys| - 1;
      assert (xs + ys)[..|xs + ys| - 1] == xs + ys[..k];
      SumsAdd(xs, ys[..k], m);
    }
  }

  lemma OneSample(x: real, m: real)
    ensures Sum([x]) == x && SquaredDeviation([x], m) == (x - m) * (x - m) && Mean([x]) == x
  {
    assert [x][..0] == [];
    SquareIs(x - m);
  }

  // ----- how many samples can be dropped -----

  lemma Times(a: real, b: real, c: real)
    requires a <= b && c >= 0.0
    ensures Product(a, c) <= Product(b, c) && (a < b && c > 0.0 ==> Product(a, c) < Product(b, c))
  {
  }

  lemma Cancel(a: real, b: real, c: real)
    requires c > 0.0 && a * c > b * c
    ensures a > b
  {
    if a <= b {
      Times(a, b, c);
    }
  }

  lemma NotLess(a: real, b: real, c: real)
    requires c > 0.0 && a * c >= b * c
    ensures a >= b
  {
    if a < b {
      Times(a, b, c);
    }
  }

  lemma Positive(a: real, b: real)
    requires a > 0.0 && b > 0.0
    ensures Product(a, b) > 0.0
  {
  }

  lemma SquareNegative(x: real)
    ensures Square(-x) == Square(x)
  {
    SquareIs(x);
    SquareIs(-x);
  }

  lemma SquareSign(x: real)
    ensures Square(x) >= 0.0
    ensures Square(x) == 0.0 <==> x == 0.0
    ensures Square(Abs(x)) == Square(x)
  {
    SquareIs(x);
    SquareIs(-x);
    if x > 0.0 {
      Positive(x, x);
    } else if x < 0.0 {
      Positive(-x, -x);
      SquareNegative(x);
      assert Abs(x) == -x;
    }
  }

  lemma Larger(x: real, m: real, bound: real)
    requires bound >= 0.0 && !Close(x, m, bound)
    ensures Square(x - m) > Square(bound)
  {
    var d := Abs(x - m);
    Times(bound, d, d);
    Times(bound, d, bound);
    assert Product(bound, d) == Product(d, bound);
    SquareIs(d);
    SquareIs(bound);
    SquareSign(x - m);
  }

  lemma Scaled(n: int, b: real)
    ensures (n + 1) as real * b == n as real * b + b
  {
  }

  /** Each dropped sample adds more than the squared bound to the squared deviation. */
  lemma {:induction false} DroppedWeigh(xs: seq<real>, m: real, bound: real)
    requires bound >= 0.0
    ensures var r := |xs| - |Kept(xs, m, bound)|;
            && SquaredDeviation(xs, m) >= r as real * Square(bound)
            && (r > 0 ==> SquaredDeviation(xs, m) > r as real * Square(bound))
    decreases |xs|
  {
    if xs != [] {
      var most, x := xs[..|xs| - 1], xs[|xs| - 1];
      DroppedWeigh(most, m, bound);
      SquareSign(x - m);
      if !Close(x, m, bound) {
        Larger(x, m, bound);
        Scaled(|most| - |Kept(most, m, bound)|, Square(bound));
      }
    }
  }

  lemma {:induction false} NothingDeviates(xs: seq<real>, m: real)
    ensures SquaredDeviation(xs, m) >= 0.0
    ensures SquaredDeviation(xs, m) == 0.0 ==> |Kept(xs, m, 0.0)| == |xs|
    decreases |xs|
  {
    if xs != [] {
      NothingDeviates(xs[..|xs| - 1], m);
      SquareSign(xs[|xs| - 1] - m);
    }
  }

  lemma Regroup(r: real, k: real, d: real)
    ensures r * Square(k * d) == (r * Square(k)) * Square(d)
  {
    SquareIs(k * d);
    SquareIs(k);
    SquareIs(d);
  }

  lemma Chebyshev(n: real, r: real, k: real, dev: real, sum: real)
    requires dev > 0.0 && Square(dev) * n == sum && sum > r * Square(k * dev)
    ensures r * Square(k) < n
  {
    Regroup(r, k, dev);
    SquareSign(dev);
    assert Square(dev) * n == n * Square(dev);
    Cancel(n, r * Square(k), Square(dev));
  }

  lemma BoundSign(k: real, dev: real)
    requires k >= 0.0 && dev >= 0.0
    ensures k * dev >= 0.0 && (dev == 0.0 ==> k * dev == 0.0)
  {
    if k > 0.0 && dev > 0.0 {
      Positive(k, dev);
    }
  }

  lemma NoneDropped(xs: seq<real>, k: real, dev: real)
    requires xs != [] && dev == 0.0 && IsDeviation(xs, dev)
    ensures |Kept(xs, Mean(xs), k * dev)| == |xs|
  {
    NothingDeviates(xs, Mean(xs));
    SquareIs(dev);
    assert k * dev == 0.0 && Square(dev) == 0.0;
    assert Square(dev) * |xs| as real == 0.0;
  }

  lemma SomeDropped(xs: seq<real>, k: real, dev: real, m: real, bound: real, r: int)
    requires xs != [] && k >= 0.0 && dev > 0.0 && m == Mean(xs) && bound == k * dev && r == |xs| - |Kept(xs, m, bound)| > 0
    requires Square(dev) * |xs| as real == SquaredDeviation(xs, m)
    ensures r as real * Square(k) < |xs| as real
  {
    BoundSign(k, dev);
    DroppedWeigh(xs, m, bound);
    Chebyshev(|xs| as real, r as real, k, dev, SquaredDeviation(xs, m));
  }

  /** A Chebyshev bound: of n samples fewer than n / k^2 lie more than k deviations from the mean. */
  lemma FewAreDropped(xs: seq<real>, k: real, dev: real)
    requires xs != [] && k >= 0.0 && IsDeviation(xs, dev)
    ensures var r := |xs| - |Kept(xs, Mean(xs), k * dev)|; r == 0 || r as real * Square(k) < |xs| as real
  {
    var r := |xs| - |Kept(xs, Mean(xs), k * dev)|;
    if dev == 0.0 {
      NoneDropped(xs, k, dev);
    } else if r > 0 {
      SomeDropped(xs, k, dev, Mean(xs), k * dev, r);
    }
  }

  /** With a threshold of at least one deviation some sample always stays: the fallback is never taken. */
  lemma SomethingStays(xs: seq<real>, k: real, dev: real)
    requires xs != [] && k >= 1.0 && IsDeviation(xs, dev)
    ensures Kept(xs, Mean(xs), k * dev) != []
  {
    FewAreDropped(xs, k, dev);
    Times(1.0, k, k);
    SquareIs(k);
    var n := |xs| as real;
    Times(1.0, Square(k), n);
    assert Product(1.0, k) == k && Product(1.0, n) == n && Product(Square(k), n) == n * Square(k);
  }

  lemma OneMore(xs: seq<real>, x: real, m: real, bound: real)
    ensures Sum(xs + [x]) == Sum(xs) + x
    ensures SquaredDeviation(xs + [x], m) == SquaredDeviation(xs, m) + Square(x - m)
    ensures Kept(xs + [x], m, bound) == if Close(x, m, bound) then Kept(xs, m, bound) + [x] else Kept(xs, m, bound)
  {
    assert (xs + [x])[..|xs|] == xs;
  }

  const EVEN_SPREAD: seq<real> := [] + [1.0] + [-1.0] + [1.0] + [-1.0]

  /** Samples at exactly one deviation from their mean: every smaller threshold drops them all. */
  lemma EvenSpread(k: real)
    requires k < 1.0
    ensures |EVEN_SPREAD| == 4 && IsDeviation(EVEN_SPREAD, 1.0) && Kept(EVEN_SPREAD, Mean(EVEN_SPREAD), k * 1.0) == []
  {
    SquareIs(1.0);
    SquareIs(-1.0);
    OneMore([], 1.0, 0.0, k);
    OneMore([] + [1.0], -1.0, 0.0, k);
    OneMore([] + [1.0] + [-1.0], 1.0, 0.0, k);
    OneMore([] + [1.0] + [-1.0] + [1.0], -1.0, 0.0, k);
    assert Sum(EVEN_SPREAD) == 0.0 && Mean(EVEN_SPREAD) == 0.0;
    assert k * 1.0 == k;
  }

  /** One deviation is the least threshold for which the fallback is never taken. */
  lemma ThresholdExact(k: real)
    ensures k >= 1.0 <==> forall xs: seq<real>, dev: real | |xs| > 2 && IsDeviation(xs, dev) :: Kept(xs, Mean(xs), k * dev) != []
  {
    if k >= 1.0 {
      forall xs: seq<real>, dev: real | |xs| > 2 && IsDeviation(xs, dev) ensures Kept(xs, Mean(xs), k * dev) != [] {
        SomethingStays(xs, k, dev);
      }
    } else {
      EvenSpread(k);
    }
  }

  // ----- the result -----

  lemma {:induction false} SumWithin(xs: seq<real>, lo: real, hi: real)
    requires forall x :: x in xs ==> lo <= x <= hi
    ensures |xs| as real * lo <= Sum(xs) <= |xs| as real * hi
    decreases |xs|
  {
    if xs != [] {
      var most := xs[..|xs| - 1];
      forall x | x in most ensures lo <= x <= hi {
        assert x in xs;
      }
      SumWithin(most, lo, hi);
      assert xs[|xs| - 1] in xs && |xs| == |most| + 1;
      Scaled(|most|, lo);
      Scaled(|most|, hi);
    }
  }

  lemma Quotient(s: real, n: real, lo: real, hi: real)
    requires n > 0.0 && n * lo <= s <= n * hi
    ensures lo <= s / n <= hi
  {
    var q := s / n;
    assert q * n == s && lo * n == n * lo && hi * n == n * hi;
    NotLess(q, lo, n);
    NotLess(hi, q, n);
  }

  lemma MeanWithin(xs: seq<real>, lo: real, hi: real)
    requires xs != [] && forall x :: x in xs ==> lo <= x <= hi
    ensures lo <= Mean(xs) <= hi
  {
    SumWithin(xs, lo, hi);
    Quotient(Sum(xs), |xs| as real, lo, hi);
  }

  predicate Sorted(xs: seq<real>) {
    forall i, j :: 0 <= i < j < |xs| ==> xs[i] <= xs[j]
  }

  /** The middle of a sorted sequence. */
  function Median(xs: seq<real>): real
    requires xs != []
  {
    var mid := |xs| / 2;
    if |xs| % 2 == 0 then (xs[mid - 1] + xs[mid]) / 2.0 else xs[mid]
  }

  /** Half of the samples lie on either side of the median; it is halfway between the two middle ones, within any bounds. */
  lemma MedianHalves(xs: seq<real>, lo: real, hi: real)
    requires xs != [] && Sorted(xs) && forall x :: x in xs ==> lo <= x <= hi
    ensures lo <= Median(xs) <= hi && Median(xs) + Median(xs) == xs[(|xs| - 1) / 2] + xs[|xs| / 2]
    ensures forall i :: 0 <= i < |xs| ==> (2 * i < |xs| ==> xs[i] <= Median(xs)) && (2 * i + 1 >= |xs| ==> Median(xs) <= xs[i])
  {
    var mid := |xs| / 2;
    assert xs[mid] in xs;
    if |xs| % 2 == 0 {
      assert xs[mid - 1] in xs;
    }
  }

  method InsertTime(r: seq<real>, x: real) returns (q: seq<real>)
    requires Sorted(r)
    ensures Sorted(q) && multiset(q) == multiset(r) + multiset{x}
  {
    var j := |r|;
    while j > 0 && x < r[j - 1]
      invariant 0 <= j <= |r| && forall k :: j <= k < |r| ==> x < r[k]
    {
      j := j - 1;
    }
    assert forall k :: 0 <= k < j ==> r[k] <= x;
    q := r[..j] + [x] + r[j..];
    Inserted(r, x, j);
  }

  lemma Inserted(r: seq<real>, x: real, j: nat)
    requires j <= |r|
    ensures multiset(r[..j] + [x] + r[j..]) == multiset(r) + multiset{x}
  {
    assert r == r[..j] + r[j..];
  }

  method SortTimes(xs: seq<real>) returns (r: seq<real>)
    ensures Sorted(r) && multiset(r) == multiset(xs)
  {
    r := [];
    var i := 0;
    while i < |xs|
      invariant 0 <= i <= |xs| && Sorted(r) && multiset(r) == multiset(xs[..i])
    {
      assert xs[..i + 1] == xs[..i] + [xs[i]];
      r := InsertTime(r, xs[i]);
      i := i + 1;
    }
    assert xs[..i] == xs;
  }

  /** The final time as a function of the samples and their deviation; None is the source's -1. */
  ghost predicate IsFinalTime(xs: seq<real>, threshold: real, useMedian: bool, dev: real, r: real) {
    if xs == [] then r == -1.0
    else if |xs| <= 2 then r == Mean(xs)
    else IsCentre(xs, Mean(xs), Product(threshold, dev), useMedian, r)
  }

  /** The median or the mean of the samples near m; of all of them, if none is near. */
  ghost predicate IsCentre(xs: seq<real>, m: real, bound: real, useMedian: bool, r: real)
    requires xs != []
  {
    var kept := Kept(xs, m, bound);
    var used := if kept == [] then xs else kept;
    if useMedian then exists s :: Sorted(s) && multiset(s) == multiset(used) && s != [] && r == Median(s)
    else r == Mean(used)
  }

  ghost function Variance(xs: seq<real>): real
    requires xs != []
  {
    SquaredDeviation(xs, Mean(xs)) / |xs| as real
  }

  ghost function Deviation(xs: seq<real>, sqrt: real -> real): real
    requires xs != []
  {
    sqrt(Variance(xs))
  }

  /** The library's square root, over the reals, at the one place where it is taken. */
  ghost predicate RootTaken(xs: seq<real>, sqrt: real -> real)
    requires xs != []
  {
    Deviation(xs, sqrt) >= 0.0 && Square(Deviation(xs, sqrt)) == Variance(xs)
  }

  lemma DeviationIs(xs: seq<real>, sqrt: real -> real)
    requires xs != [] && RootTaken(xs, sqrt)
    ensures IsDeviation(xs, Deviation(xs, sqrt))
  {
    var sum, n := SquaredDeviation(xs, Mean(xs)), |xs| as real;
    NothingDeviates(xs, Mean(xs));
    Quotient(sum, n, 0.0, sum / n);
    assert sum / n * n == sum;
  }

  method Accumulate(xs: seq<real>) returns (sum: real)
    ensures sum == Sum(xs)
  {
    sum := 0.0;
    var i := 0;
    while i < |xs|
      invariant 0 <= i <= |xs| && sum == Sum(xs[..i])
    {
      assert xs[..i + 1][..i] == xs[..i];
      sum := sum + xs[i];
      i := i + 1;
    }
    assert xs[..i] == xs;
  }

  method AccumulateSquares(xs: seq<real>, mean: real) returns (sum: real)
    ensures sum == SquaredDeviation(xs, mean)
  {
    sum := 0.0;
    var i := 0;
    while i < |xs|
      invariant 0 <= i <= |xs| && sum == SquaredDeviation(xs[..i], mean)
    {
      assert xs[..i + 1][..i] == xs[..i];
      SquareIs(xs[i] - mean);
      sum := sum + Product(xs[i] - mean, xs[i] - mean);
      i := i + 1;
    }
    assert xs[..i] == xs;
  }

  method ComputeFinalTime(times: seq<real>, threshold: real, useMedian: bool, sqrt: real -> real) returns (r: real)
    requires times != [] ==> RootTaken(times, sqrt)
    ensures IsFinalTime(times, threshold, useMedian, if times == [] then 0.0 else Deviation(times, sqrt), r)
    ensures times != [] ==> Within(times, r)
    ensures |times| > 2 && threshold >= 1.0 ==> Close(r, Mean(times), Product(threshold, Deviation(times, sqrt)))
  {
    if times == [] {
      return -1.0;
    }
    r := CentralTime(times, threshold, useMedian, sqrt);
    DeviationIs(times, sqrt);
    forall lo, hi | AllWithin(times, lo, hi) ensures lo <= r <= hi {
      FinalTimeWithin(times, threshold, useMedian, Deviation(times, sqrt), r, lo, hi);
    }
    if |times| > 2 && threshold >= 1.0 {
      FinalTimeClose(times, threshold, useMedian, Deviation(times, sqrt), r);
    }
  }

  method CentralTime(times: seq<real>, threshold: real, useMedian: bool, sqrt: real -> real) returns (r: real)
    requires times != []
    ensures IsFinalTime(times, threshold, useMedian, Deviation(times, sqrt), r)
  {
    if |times| == 1 {
      assert times[..0] == [] && Sum(times) == times[0];
      return times[0];
    }
    var sum := Accumulate(times);
    var mean := sum / |times| as real;
    if |times| <= 2 {
      return mean;
    }
    var squares := AccumulateSquares(times, mean);
    var stddev := sqrt(squares / |times| as real);
    r := FilteredTime(times, mean, Product(threshold, stddev), useMedian);
  }

  /** The samples near the mean, or all if none is, and then their median or mean. */
  method FilteredTime(times: seq<real>, mean: real, bound: real, useMedian: bool) returns (r: real)
    requires times != []
    ensures IsCentre(times, mean, bound, useMedian, r)
  {
    var filtered: seq<real> := [];
    var i := 0;
    while i < |times|
      invariant 0 <= i <= |times| && filtered == Kept(times[..i], mean, bound)
    {
      assert times[..i + 1][..i] == times[..i];
      if Abs(times[i] - mean) <= bound {
        filtered := filtered + [times[i]];
      }
      i := i + 1;
    }
    assert times[..i] == times;
    if filtered == [] {
      filtered := times;
    }
    if useMedian {
      var sorted := SortTimes(filtered);
      assert |sorted| == |multiset(sorted)| == |multiset(filtered)| == |filtered|;
      r := Median(sorted);
    } else {
      var sum := Accumulate(filtered);
      r := sum / |filtered| as real;
    }
  }

  predicate AllWithin(xs: seq<real>, lo: real, hi: real) {
    forall x :: x in xs ==> lo <= x <= hi
  }

  /** r lies within all bounds of the samples. */
  ghost predicate Within(xs: seq<real>, r: real) {
    forall lo, hi {:trigger AllWithin(xs, lo, hi)} :: AllWithin(xs, lo, hi) ==> lo <= r <= hi
  }

  lemma KeptUsed(xs: seq<real>, m: real, bound: real, x: real)
    requires var kept := Kept(xs, m, bound); x in if kept == [] then xs else kept
    ensures x in xs && (Kept(xs, m, bound) != [] ==> m - bound <= x <= m + bound)
  {
    KeptAre(xs, m, bound, x);
  }

  /** The final time lies among the samples. */
  lemma FinalTimeWithin(xs: seq<real>, threshold: real, useMedian: bool, dev: real, r: real, lo: real, hi: real)
    requires xs != [] && IsFinalTime(xs, threshold, useMedian, dev, r) && AllWithin(xs, lo, hi)
    ensures lo <= r <= hi
  {
    var m, bound := Mean(xs), Product(threshold, dev);
    if |xs| <= 2 {
      MeanWithin(xs, lo, hi);
    } else {
      var kept := Kept(xs, m, bound);
      var used := if kept == [] then xs else kept;
      forall x | x in used ensures lo <= x <= hi {
        KeptUsed(xs, m, bound, x);
      }
      UsedWithin(used, useMedian, r, lo, hi);
    }
  }

  /** With a threshold of at least 1 only the samples that near to the mean count: it lies within any bounds of those. */
  lemma FinalTimeOfNear(xs: seq<real>, threshold: real, useMedian: bool, dev: real, r: real, lo: real, hi: real)
    requires |xs| > 2 && IsFinalTime(xs, threshold, useMedian, dev, r) && IsDeviation(xs, dev) && threshold >= 1.0
    requires forall x :: x in xs && Close(x, Mean(xs), Product(threshold, dev)) ==> lo <= x <= hi
    ensures lo <= r <= hi
  {
    var m, bound := Mean(xs), Product(threshold, dev);
    SomethingStays(xs, threshold, dev);
    var kept := Kept(xs, m, bound);
    assert kept != [];
    forall x | x in kept ensures lo <= x <= hi {
      KeptAre(xs, m, bound, x);
    }
    UsedWithin(kept, useMedian, r, lo, hi);
  }

  /** And so it lies within that many deviations of the mean. */
  lemma FinalTimeClose(xs: seq<real>, threshold: real, useMedian: bool, dev: real, r: real)
    requires |xs| > 2 && IsFinalTime(xs, threshold, useMedian, dev, r) && IsDeviation(xs, dev) && threshold >= 1.0
    ensures Close(r, Mean(xs), Product(threshold, dev))
  {
    var bound := Product(threshold, dev);
    FinalTimeOfNear(xs, threshold, useMedian, dev, r, Mean(xs) - bound, Mean(xs) + bound);
  }

  /** When no sample is dropped it is the mean, or the middle of the samples in order. */
  lemma FinalTimeOfAll(xs: seq<real>, threshold: real, useMedian: bool, dev: real, r: real)
    requires |xs| > 2 && IsFinalTime(xs, threshold, useMedian, dev, r)
    requires forall x :: x in xs ==> Close(x, Mean(xs), Product(threshold, dev))
    ensures !useMedian ==> r * |xs| as real == Sum(xs)
    ensures useMedian && Sorted(xs) ==> r + r == xs[(|xs| - 1) / 2] + xs[|xs| / 2]
  {
    if useMedian {
      MiddleOfAll(xs, Mean(xs), Product(threshold, dev), r);
    } else {
      MeanOfAll(xs, Mean(xs), Product(threshold, dev), r);
    }
  }

  lemma MeanOfAll(xs: seq<real>, m: real, bound: real, r: real)
    requires xs != [] && IsCentre(xs, m, bound, false, r) && forall x :: x in xs ==> Close(x, m, bound)
    ensures r * |xs| as real == Sum(xs)
  {
    CentreIsMean(xs, m, bound, r);
    MeanTimes(xs, r);
  }

  lemma CentreIsMean(xs: seq<real>, m: real, bound: real, r: real)
    requires xs != [] && IsCentre(xs, m, bound, false, r) && forall x :: x in xs ==> Close(x, m, bound)
    ensures r == Mean(xs)
  {
    AllKept(xs, m, bound);
  }

  lemma MiddleOfAll(xs: seq<real>, m: real, bound: real, r: real)
    requires xs != [] && IsCentre(xs, m, bound, true, r) && forall x :: x in xs ==> Close(x, m, bound)
    ensures Sorted(xs) ==> r + r == xs[(|xs| - 1) / 2] + xs[|xs| / 2]
  {
    AllKept(xs, m, bound);
    if Sorted(xs) {
      MiddleOf(xs, r);
    }
  }

  lemma MiddleOf(xs: seq<real>, r: real)
    requires xs != [] && Sorted(xs) && exists s :: Sorted(s) && multiset(s) == multiset(xs) && s != [] && r == Median(s)
    ensures r + r == xs[(|xs| - 1) / 2] + xs[|xs| / 2]
  {
    var s :| Sorted(s) && multiset(s) == multiset(xs) && s != [] && r == Median(s);
    SortedUnique(s, xs);
  }

  lemma MeanTimes(xs: seq<real>, r: real)
    requires xs != [] && r == Mean(xs)
    ensures r * |xs| as real == Sum(xs)
  {
  }

  lemma {:induction false} AllKept(xs: seq<real>, m: real, bound: real)
    requires forall x :: x in xs ==> Close(x, m, bound)
    ensures Kept(xs, m, bound) == xs
    decreases |xs|
  {
    if xs != [] {
      forall x | x in xs[..|xs| - 1] ensures Close(x, m, bound) {
        assert x in xs;
      }
      assert xs[|xs| - 1] in xs;
      AllKept(xs[..|xs| - 1], m, bound);
    }
  }

  /** Samples can be sorted in one way only. */
  lemma {:induction false} SortedUnique(a: seq<real>, b: seq<real>)
    requires Sorted(a) && Sorted(b) && multiset(a) == multiset(b)
    ensures a == b
    decreases |a|
  {
    SameSize(a, b);
    if a != [] {
      var k := |a| - 1;
      LastAtMost(a, b);
      LastAtMost(b, a);
      WithoutLast(a);
      WithoutLast(b);
      SortedUnique(a[..k], b[..k]);
      assert a == a[..k] + [a[k]] && b == b[..k] + [b[k]];
    }
  }

  lemma SameSize(a: seq<real>, b: seq<real>)
    requires multiset(a) == multiset(b)
    ensures |a| == |b|
  {
    assert |a| == |multiset(a)| == |multiset(b)| == |b|;
  }

  lemma LastAtMost(a: seq<real>, b: seq<real>)
    requires a != [] && b != [] && Sorted(b) && multiset(a) == multiset(b)
    ensures a[|a| - 1] <= b[|b| - 1]
  {
    assert a[|a| - 1] in multiset(b);
    var i :| 0 <= i < |b| && b[i] == a[|a| - 1];
  }

  lemma WithoutLast(a: seq<real>)
    requires a != []
    ensures multiset(a[..|a| - 1]) == multiset(a) - multiset{a[|a| - 1]}
  {
    assert a == a[..|a| - 1] + [a[|a| - 1]];
  }

  lemma UsedWithin(used: seq<real>, useMedian: bool, r: real, lo: real, hi: real)
    requires used != [] && forall x :: x in used ==> lo <= x <= hi
    requires if useMedian then exists s :: Sorted(s) && multiset(s) == multiset(used) && s != [] && r == Median(s) else r == Mean(used)
    ensures lo <= r <= hi
  {
    if useMedian {
      var s :| Sorted(s) && multiset(s) == multiset(used) && s != [] && r == Median(s);
      forall x | x in s ensures lo <= x <= hi {
        assert x in multiset(s);
        assert x in used;
      }
      MedianHalves(s, lo, hi);
    } else {
      MeanWithin(used, lo, hi);
    }
  }
}
