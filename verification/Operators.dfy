/** The laws of the operators: what the machine computes, said of the results and not through the table of operators. */
module Operators {
  import opened Values
  import opened Ast
  import opened Machine
  import opened Semantics

  function Sum(a: Value, b: Value): Option<Value> {
    BinaryMeaning(Add, a, b)
  }

  function Difference(a: Value, b: Value): Option<Value> {
    BinaryMeaning(Sub, a, b)
  }

  predicate IsInt(v: Value) {
    v.Int? && IsInt64(v.n)
  }

  /** Integers and booleans count as numbers, everything else as 0; the true values are the numbers other than 0. */
  lemma ValueLaws(v: Value)
    ensures (v.Nil? || v.Str? || v.Arr?) ==> AsInt(v) == 0
    ensures v.Bool? ==> AsInt(v) == 1 || AsInt(v) == 0
    ensures v.Bool? ==> (AsInt(v) == 1 <==> v.b)
    ensures v.Int? ==> Int(AsInt(v)) == v
    ensures Truthy(v) <==> AsInt(v) != 0
  {
  }

  /** Sums, differences and products are right modulo 2^64; adding back undoes a difference; -a is 0 - a. */
  lemma RingLaws(a: int, b: int)
    requires IsInt64(a) && IsInt64(b)
    ensures Sum(Int(a), Int(b)).Some? && IsInt(Sum(Int(a), Int(b)).value)
    ensures Same(AsInt(Sum(Int(a), Int(b)).value), a + b, TWO_64)
    ensures Difference(Int(a), Int(b)).Some? && Sum(Difference(Int(a), Int(b)).value, Int(b)) == Some(Int(a))
    ensures var p := BinaryMeaning(Mul, Int(a), Int(b)); p.Some? && IsInt(p.value) && Same(AsInt(p.value), a * b, TWO_64)
    ensures Sum(UnaryMeaning(Neg, Int(a)), Int(a)) == Some(Int(0))
  {
    WrapIsModulo(a + b);
    WrapIsModulo(a * b);
    WrapBack(a - b, b, a);
    WrapBack(-a, a, 0);
  }

  lemma WrapBack(d: int, b: int, a: int)
    requires IsInt64(a) && d + b == a
    ensures Wrap64(Wrap64(d) + b) == a
  {
    var w := Wrap64(d);
    WrapIsModulo(d);
    WrapIsModulo(w + b);
    var k: int :| w == d + k * TWO_64;
    var l: int :| Wrap64(w + b) == w + b + l * TWO_64;
    assert Wrap64(w + b) == a + (k + l) * TWO_64;
    assert a == a + 0 * TWO_64;
    SameIsUnique(Wrap64(w + b), a, a, TWO_63);
  }

  /** Division fails on 0 alone; otherwise quotient and remainder make up the dividend, and the remainder has its sign. */
  lemma QuotientLaws(a: int, b: int)
    requires IsInt64(b)
    ensures var q, r := BinaryMeaning(Div, Int(a), Int(b)), BinaryMeaning(Mod, Int(a), Int(b));
            && (q.None? <==> b == 0) && (r.None? <==> b == 0)
            && (b != 0 ==> AsInt(r.value) == 0 || (AsInt(r.value) < 0 <==> a < 0))
            && (b != 0 ==> Magnitude(AsInt(r.value)) < Magnitude(b))
            && (b != 0 ==> Same(AsInt(q.value) * b + AsInt(r.value), a, TWO_64))
  {
    if b != 0 {
      TruncatedDivision(a, b);
      var q, r := TruncDiv(a, b), TruncMod(a, b);
      assert Wrap64(r) == r;
      WrapIsModulo(q);
      var k: int :| Wrap64(q) == q + k * TWO_64;
      Distribute(Wrap64(q), q, k, b);
      assert Wrap64(q) * b + TruncMod(a, b) == a + (k * b) * TWO_64;
    }
  }

  lemma Distribute(w: int, q: int, k: int, b: int)
    requires w == q + k * TWO_64
    ensures w * b == q * b + (k * b) * TWO_64
  {
  }

  /** A comparison of numbers: exactly one of <, ==, > is true, and the others follow from these. */
  lemma OrderLaws(a: Value, b: Value)
    ensures var m, n := AsInt(a), AsInt(b);
            && (BinaryMeaning(Lt, a, b) == Some(Bool(true)) <==> n - m > 0)
            && (BinaryMeaning(Eq, a, b) == Some(Bool(true)) <==> n - m == 0)
            && BinaryMeaning(Gt, a, b) == BinaryMeaning(Lt, b, a)
            && BinaryMeaning(Le, a, b) == Some(UnaryMeaning(Not, BinaryMeaning(Gt, a, b).value))
            && BinaryMeaning(Ge, a, b) == Some(UnaryMeaning(Not, BinaryMeaning(Lt, a, b).value))
            && BinaryMeaning(Ne, a, b) == Some(UnaryMeaning(Not, BinaryMeaning(Eq, a, b).value))
  {
  }

  /** `!`, `&&` and `||` (which evaluate both operands) obey De Morgan, and give booleans. */
  lemma LogicLaws(a: Value, b: Value)
    ensures UnaryMeaning(Not, a).Bool? && (Truthy(UnaryMeaning(Not, a)) <==> !Truthy(a))
    ensures BinaryMeaning(And, a, b).Some? && (Truthy(BinaryMeaning(And, a, b).value) <==> Truthy(a) && Truthy(b))
    ensures BinaryMeaning(Or, a, b) == Some(UnaryMeaning(Not, BinaryMeaning(And, UnaryMeaning(Not, a), UnaryMeaning(Not, b)).value))
  {
  }

  /** Indexing gives element i from the front and element -i from the back, of arrays and of strings, and fails elsewhere. */
  lemma ElementLaws(vs: seq<Value>, s: string, i: int)
    ensures Element(Arr(vs), i).Some? <==> -|vs| <= i < |vs|
    ensures 0 <= i < |vs| ==> Element(Arr(vs), i) == Some(vs[i]) && Element(Arr(vs), i - |vs|) == Some(vs[i])
    ensures Element(Str(s), i).Some? <==> -|s| <= i < |s|
    ensures 0 <= i < |s| ==> Element(Str(s), i) == Some(Str([s[i]])) && Element(Str(s), i - |s|) == Some(Str([s[i]]))
    ensures forall v: Value :: !v.Arr? && !v.Str? ==> Element(v, i) == None
  {
  }
}
