/** Run-time values of the Claw virtual machine and the integer widths it uses. */
module Values {

  datatype Option<+T> = None | Some(value: T)

  /** The value kinds the modelled fragment can produce (floats, tuples and closures are not among them). */
  datatype Value =
    | Nil
    | Bool(b: bool)
    | Int(n: int)
    | Str(s: string)
    | Arr(elems: seq<Value>)

  const TWO_31: int := 0x8000_0000
  const TWO_32: int := 0x1_0000_0000
  const TWO_63: int := 0x8000_0000_0000_0000
  const TWO_64: int := 0x1_0000_0000_0000_0000

  // The three conversions below reduce modulo 2^64 or 2^32, written as repeated subtraction or addition.

  /** Two's-complement wrap-around of an int64_t result. */
  function Wrap64(n: int): (r: int)
    ensures -TWO_63 <= n < TWO_63 ==> r == n
    decreases if -TWO_63 <= n < TWO_63 then 0 else if n < 0 then -n else n
  {
    if n >= TWO_63 then Wrap64(n - TWO_64) else if n < -TWO_63 then Wrap64(n + TWO_64) else n
  }

  predicate IsInt64(n: int) {
    -TWO_63 <= n < TWO_63
  }

  /** The int64_t that equals n modulo 2^64. */
  lemma {:induction false} WrapIsModulo(n: int)
    ensures IsInt64(Wrap64(n)) && Same(Wrap64(n), n, TWO_64)
    decreases if -TWO_63 <= n < TWO_63 then 0 else if n < 0 then -n else n
  {
    if n >= TWO_63 {
      WrapIsModulo(n - TWO_64);
      var k: int :| Wrap64(n) == n - TWO_64 + k * TWO_64;
      assert Wrap64(n) == n + (k - 1) * TWO_64;
    } else if n < -TWO_63 {
      WrapIsModulo(n + TWO_64);
      var k: int :| Wrap64(n) == n + TWO_64 + k * TWO_64;
      assert Wrap64(n) == n + (k + 1) * TWO_64;
    } else {
      assert Wrap64(n) == n + 0 * TWO_64;
    }
  }

  /** Equal modulo m. */
  ghost predicate Same(a: int, b: int, m: int) {
    exists k: int :: a == b + k * m
  }

  lemma SameAdds(a: int, b: int, c: int, d: int, m: int)
    requires Same(a, b, m) && Same(c, d, m)
    ensures Same(a + c, b + d, m) && Same(a - c, b - d, m)
  {
    var k: int :| a == b + k * m;
    var l: int :| c == d + l * m;
    assert a + c == b + d + (k + l) * m;
    assert a - c == b - d + (k - l) * m;
  }

  /** One number of [-half, half) at most equals n modulo 2 * half. */
  lemma SameIsUnique(a: int, b: int, n: int, half: int)
    requires -half <= a < half && -half <= b < half && Same(a, n, 2 * half) && Same(b, n, 2 * half)
    ensures a == b
  {
    var m := 2 * half;
    SameAdds(a, n, b, n, m);
    var k: int :| a - b == n - n + k * m;
    if k != 0 {
      MultipleIsFar(k, m);
    }
  }

  lemma MultipleIsFar(k: int, m: int)
    requires m > 0 && k != 0
    ensures k * m >= m || k * m <= -m
  {
    if k > 0 {
      assert (k - 1) * m >= 0;
    } else {
      assert (-1 - k) * m >= 0;
    }
  }

  /** The `(int)` cast the compiler applies to an integer literal. */
  function Cut32(n: int): (r: int)
    ensures -TWO_31 <= n < TWO_31 ==> r == n
    decreases if -TWO_31 <= n < TWO_31 then 0 else if n < 0 then -n else n
  {
    if n >= TWO_31 then Cut32(n - TWO_32) else if n < -TWO_31 then Cut32(n + TWO_32) else n
  }

  /** The int that equals n modulo 2^32. */
  lemma {:induction false} CutIsModulo(n: int)
    ensures -TWO_31 <= Cut32(n) < TWO_31 && Same(Cut32(n), n, TWO_32)
    decreases if -TWO_31 <= n < TWO_31 then 0 else if n < 0 then -n else n
  {
    if n >= TWO_31 {
      CutIsModulo(n - TWO_32);
      var k: int :| Cut32(n) == n - TWO_32 + k * TWO_32;
      assert Cut32(n) == n + (k - 1) * TWO_32;
    } else if n < -TWO_31 {
      CutIsModulo(n + TWO_32);
      var k: int :| Cut32(n) == n + TWO_32 + k * TWO_32;
      assert Cut32(n) == n + (k + 1) * TWO_32;
    } else {
      assert Cut32(n) == n + 0 * TWO_32;
    }
  }

  type uint32 = n: int | 0 <= n < TWO_32

  /** `static_cast<uint32_t>`: how a signed operand is stored in an instruction (reduction modulo 2^32). */
  function U32(n: int): uint32
    decreases n < 0, if n < 0 then -n else n
  {
    if n < 0 then U32(n + TWO_32) else if n >= TWO_32 then U32(n - TWO_32) else n
  }

  /** `static_cast<int32_t>`: how the machine reads an operand back. */
  function I32(u: uint32): int {
    if u < TWO_31 then u else u - TWO_32
  }

  lemma {:induction false} U32IsModulo(n: int)
    ensures U32(n) == n % TWO_32
    decreases n < 0, if n < 0 then -n else n
  {
    if n < 0 {
      U32IsModulo(n + TWO_32);
    } else if n >= TWO_32 {
      U32IsModulo(n - TWO_32);
    }
  }

  /** An operand survives storing and reading back exactly when it is an int32_t. */
  lemma OperandRoundTrip(n: int)
    ensures I32(U32(n)) == n <==> -TWO_31 <= n < TWO_31
  {
  }

  /** C++ integer division and remainder truncate toward zero. */
  function TruncDiv(a: int, b: int): int
    requires b != 0
  {
    if a >= 0 then a / b else -((-a) / b)
  }

  function TruncMod(a: int, b: int): int
    requires b != 0
  {
    a - TruncDiv(a, b) * b
  }

  function Magnitude(n: int): nat {
    if n < 0 then -n else n
  }

  /** Quotient and remainder give the dividend back; the remainder is smaller than the divisor, with the dividend's sign. */
  lemma TruncatedDivision(a: int, b: int)
    requires b != 0
    ensures TruncDiv(a, b) * b + TruncMod(a, b) == a
    ensures Magnitude(TruncMod(a, b)) < Magnitude(b)
    ensures TruncMod(a, b) == 0 || (TruncMod(a, b) < 0 <==> a < 0)
  {
    var n := Magnitude(a);
    assert n == n / b * b + n % b;
    assert a < 0 ==> -(n / b) * b == -(n / b * b);
  }

  function AsInt(v: Value): int {
    match v
    case Int(n) => n
    case Bool(b) => if b then 1 else 0
    case _ => 0
  }

  function Truthy(v: Value): bool {
    match v
    case Bool(b) => b
    case Int(n) => n != 0
    case _ => false
  }
}
