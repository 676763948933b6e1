/** The runtime's range builder: how many values, and which. */
module ArrayRange {
  import opened Values

  /** The values start, start + step, ... strictly before end, found by stepping. */
  function Stepped(start: int, end: int, step: int): seq<int>
    requires step != 0
    decreases if step > 0 then end - start else start - end
  {
    if (if step > 0 then start < end else start > end) then [start] + Stepped(start + step, end, step) else []
  }

  /** The count the source computes; all its dividends are positive. */
  function Count(start: int, end: int, step: int): int
    requires step != 0
  {
    if step > 0 then if end > start then TruncDiv(end - start + step - 1, step) else 0
    else if end < start then TruncDiv(start - end + (-step) - 1, -step) else 0
  }

  lemma CeilingStep(d: int, s: int)
    requires s > 0 && d > 0
    ensures (d + s - 1) / s == (if d - s > 0 then (d - s + s - 1) / s else 0) + 1
  {
    if d - s > 0 {
      assert d + s - 1 == (d - 1) + s;
      DivPlus(d - 1, s);
    } else {
      assert s <= d + s - 1 < 2 * s;
      DivOne(d + s - 1, s);
    }
  }

  lemma DivPlus(a: int, s: int)
    requires s > 0 && a >= 0
    ensures (a + s) / s == a / s + 1
  {
    var q, r := a / s, a % s;
    Division(a, s);
    ProductFacts(q + 1, q, s);
    assert Product(q + 1 - q, s) == s;
    DivUnique(a + s, s, q + 1, r);
  }

  lemma DivOne(a: int, s: int)
    requires s > 0 && s <= a < 2 * s
    ensures a / s == 1
  {
    assert Product(1, s) == s;
    DivUnique(a, s, 1, a - s);
  }

  function Product(a: int, b: int): int {
    a * b
  }

  lemma ProductFacts(a: int, b: int, s: int)
    requires s > 0
    ensures Product(a - b, s) == Product(a, s) - Product(b, s)
    ensures a > b ==> Product(a, s) >= Product(b, s) + s
  {
    if a > b {
      AtLeastOnce(a - b, s);
    }
  }

  lemma {:induction false} AtLeastOnce(k: int, s: int)
    requires k >= 1 && s > 0
    ensures Product(k, s) >= s
    decreases k
  {
    if k > 1 {
      AtLeastOnce(k - 1, s);
    }
  }

  lemma Division(a: int, s: int)
    requires s > 0
    ensures a == Product(a / s, s) + a % s && 0 <= a % s < s
  {
  }

  lemma DivUnique(a: int, s: int, q: int, r: int)
    requires s > 0 && a == Product(q, s) + r && 0 <= r < s
    ensures a / s == q
  {
    Division(a, s);
    ProductFacts(a / s, q, s);
    ProductFacts(q, a / s, s);
  }

  /** The ceiling division counts what stepping finds, in both directions. */
  lemma {:induction false} CountIsLength(start: int, end: int, step: int)
    requires step != 0
    ensures Count(start, end, step) == |Stepped(start, end, step)|
    decreases if step > 0 then end - start else start - end
  {
    if step > 0 && start < end {
      CountIsLength(start + step, end, step);
      CeilingStep(end - start, step);
    } else if step < 0 && start > end {
      CountIsLength(start + step, end, step);
      CeilingStep(start - end, -step);
    }
  }

  lemma {:induction false} SteppedNext(start: int, end: int, step: int, i: nat)
    requires step != 0 && i < |Stepped(start, end, step)|
    ensures Stepped(start, end, step)[0] == start
    ensures i + 1 < |Stepped(start, end, step)| ==> Stepped(start, end, step)[i + 1] == Stepped(start, end, step)[i] + step
    decreases i
  {
    if i > 0 {
      SteppedNext(start + step, end, step, i - 1);
    } else if |Stepped(start, end, step)| > 1 {
      assert Stepped(start + step, end, step)[0] == start + step;
    }
  }

  /** The i-th value, by multiplication. */
  lemma {:induction false} SteppedAt(start: int, end: int, step: int, i: nat)
    requires step != 0 && i < |Stepped(start, end, step)|
    ensures Stepped(start, end, step)[i] == start + Product(i, step)
    decreases i
  {
    if i > 0 {
      SteppedAt(start + step, end, step, i - 1);
      assert Product(i, step) == Product(i - 1, step) + step;
    }
  }

  // ----- 64 bits -----

  predicate Fits(n: int) {
    -TWO_63 <= n < TWO_63
  }

  function Distance(a: int, b: int): nat {
    if a < b then b - a else a - b
  }

  /** Every number computed for the count, and every value reached by the steps, the last one included, is an int64. */
  ghost predicate StaysIn64(start: int, end: int, step: int)
    requires step != 0
  {
    && (step > 0 && end > start ==> Fits(end - start) && Fits(end - start + step) && Fits(end - start + step - 1))
    && (step < 0 && end < start ==>
          Fits(start - end) && Fits(-step) && Fits(start - end + (-step)) && Fits(start - end + (-step) - 1))
    && forall i: nat :: i <= Count(start, end, step) ==> Fits(start + Product(i, step))
  }

  /** Exactly when nothing overflows: the distance and one step together fit, and so does the value past the last one. */
  lemma StaysIn64Exactly(start: int, end: int, step: int)
    requires Fits(start) && Fits(end) && Fits(step) && step != 0
    ensures var n := Count(start, end, step);
            StaysIn64(start, end, step)
            <==> n == 0 || (Distance(start, end) + Distance(0, step) < TWO_63 && Fits(start + Product(n, step)))
  {
    var n := Count(start, end, step);
    CountIsLength(start, end, step);
    assert n > 0 <==> if step > 0 then start < end else start > end;
    forall i: nat | i <= n && Fits(start + Product(n, step)) ensures Fits(start + Product(i, step)) {
      Between(i, n, step);
    }
  }

  /** Multiples of the step lie between none and all of them. */
  lemma Between(i: nat, n: nat, step: int)
    requires i <= n && step != 0
    ensures step > 0 ==> 0 <= Product(i, step) <= Product(n, step)
    ensures step < 0 ==> Product(n, step) <= Product(i, step) <= 0
  {
    var s := if step > 0 then step else -step;
    Negated(i, s);
    Negated(n, s);
    ProductFacts(i, 0, s);
    ProductFacts(n, i, s);
  }

  lemma Negated(i: nat, s: int)
    ensures Product(i, -s) == -Product(i, s)
  {
  }

  /** Exactly the values before the end: the i-th is start + i * step, and the next one would not be before the end. */
  predicate IsRange(v: seq<int>, start: int, end: int, step: int) {
    && (forall i :: 0 <= i < |v| ==> v[i] == start + Product(i, step) && Before(v[i], end, step))
    && !Before(start + Product(|v|, step), end, step)
  }

  predicate Before(n: int, end: int, step: int) {
    (step > 0 && n < end) || (step < 0 && n > end)
  }

  lemma {:induction false} SteppedIsRange(start: int, end: int, step: int)
    requires step != 0
    ensures IsRange(Stepped(start, end, step), start, end, step)
    decreases if step > 0 then end - start else start - end
  {
    var v := Stepped(start, end, step);
    if Before(start, end, step) {
      var rest := Stepped(start + step, end, step);
      SteppedIsRange(start + step, end, step);
      assert Product(|v|, step) == Product(|rest|, step) + step;
      forall i | 0 <= i < |v| ensures v[i] == start + Product(i, step) && Before(v[i], end, step) {
        SteppedAt(start, end, step, i);
        assert i == 0 || v[i] == rest[i - 1];
      }
    }
  }

  /** A step of 0 counts as 1. */
  method Range(start: int, end: int, step0: int) returns (v: seq<int>)
    ensures IsRange(v, start, end, if step0 == 0 then 1 else step0)
  {
    var step := if step0 == 0 then 1 else step0;
    var count := Count(start, end, step);
    CountIsLength(start, end, step);
    SteppedIsRange(start, end, step);
    ghost var all := Stepped(start, end, step);
    v := [];
    var val := start;
    var i := 0;
    while i < count
      invariant 0 <= i <= count == |all| && v == all[..i]
      invariant i < count ==> val == all[i]
    {
      SteppedNext(start, end, step, i);
      v := v + [val];
      val := val + step;
      i := i + 1;
    }
    assert v == all;
  }
}
