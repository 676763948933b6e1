/** The constant folder: what it returns, what that means, and on which trees it can be used at all. */
module ConstantFolder {
  import opened Values

  datatype Op = Plus | Minus | Star | Slash | Percent | OtherOp(k: nat)

  /** `Nothing` is the null pointer; `Opaque` is every kind of expression the folder does not know (calls, unary, ...). */
  datatype Expr =
    | IntLit(n: int)
    | OtherLit(lit: nat)
    | Identifier(name: string)
    | Binary(op: Op, l: Expr, r: Expr)
    | Opaque(id: nat)
    | Nothing

  /** What int64_t arithmetic gives; None when the folder must leave the expression alone. */
  function Compute(op: Op, a: int, b: int): Option<int> {
    match op
    case Plus => Some(Wrap64(a + b))
    case Minus => Some(Wrap64(a - b))
    case Star => Some(Wrap64(a * b))
    case Slash => if b == 0 then None else Some(Wrap64(TruncDiv(a, b)))
    case Percent => if b == 0 then None else Some(Wrap64(TruncMod(a, b)))
    case OtherOp(_) => None
  }

  /** Left alone: operators other than the five, and division by zero. */
  lemma ComputesWhen(op: Op, a: int, b: int)
    ensures Compute(op, a, b).None? <==> op.OtherOp? || ((op.Slash? || op.Percent?) && b == 0)
    ensures Compute(op, a, b).Some? ==> IsInt64(Compute(op, a, b).value)
  {
    if op != Star {
      WrapIsModulo(a + b);
      WrapIsModulo(a - b);
    }
    WrapIsModulo(a * b);
    if b != 0 {
      WrapIsModulo(TruncDiv(a, b));
      WrapIsModulo(TruncMod(a, b));
    }
  }

  /** Sum, difference and product are right modulo 2^64, and subtracting is undone by adding. */
  lemma ComputesModulo(a: int, b: int)
    requires IsInt64(a)
    ensures Compute(Plus, a, b).Some? && Same(Compute(Plus, a, b).value, a + b, TWO_64)
    ensures Compute(Star, a, b).Some? && Same(Compute(Star, a, b).value, a * b, TWO_64)
    ensures Compute(Minus, a, b).Some? && Compute(Plus, Compute(Minus, a, b).value, b) == Some(a)
  {
    WrapIsModulo(a + b);
    WrapIsModulo(a * b);
    WrapIsModulo(a - b);
    var d := Wrap64(a - b);
    WrapIsModulo(d + b);
    var k: int :| d == a - b + k * TWO_64;
    var l: int :| Wrap64(d + b) == d + b + l * TWO_64;
    assert Wrap64(d + b) == a + (k + l) * TWO_64;
    assert a == a + 0 * TWO_64;
    SameIsUnique(Wrap64(d + b), a, a, TWO_63);
  }

  /** Quotient and remainder give the dividend back; the remainder is smaller than the divisor, with the dividend's sign. */
  lemma ComputesQuotient(a: int, b: int)
    requires IsInt64(a) && IsInt64(b) && b != 0 && !(a == -TWO_63 && b == -1)
    ensures Compute(Slash, a, b).Some? && Compute(Percent, a, b).Some?
    ensures var q, r := Compute(Slash, a, b).value, Compute(Percent, a, b).value;
            && q * b + r == a && Magnitude(r) < Magnitude(b) && (r == 0 || (r < 0 <==> a < 0))
  {
    TruncatedDivision(a, b);
    QuotientFits(a, b);
  }

  lemma QuotientFits(a: int, b: int)
    requires IsInt64(a) && b != 0 && !(a == -TWO_63 && b == -1)
    ensures IsInt64(TruncDiv(a, b))
  {
    TruncatedDivision(a, b);
    var q, r := TruncDiv(a, b), TruncMod(a, b);
    if b == 1 {
      assert q == a;
    } else if b == -1 {
      assert q == -a;
    } else {
      Halves(q, b, r, a);
    }
  }

  /** A divisor of at least 2 at least halves. */
  lemma Halves(q: int, b: int, r: int, a: int)
    requires Magnitude(b) >= 2 && q * b + r == a && Magnitude(r) < Magnitude(b)
    requires r == 0 || (r < 0 <==> a < 0)
    ensures q == 0 || 2 * Magnitude(q) <= Magnitude(a) + Magnitude(r)
    ensures q == 0 || Magnitude(r) <= Magnitude(a)
  {
    ProductMagnitude(q, b);
    if q != 0 {
      AtLeast(Magnitude(q), Magnitude(b));
    }
  }

  lemma ProductMagnitude(q: int, b: int)
    ensures Magnitude(q * b) == Magnitude(q) * Magnitude(b)
  {
    if q < 0 {
      assert q * b == -((-q) * b);
    }
    if b < 0 {
      assert Magnitude(q) * b == -(Magnitude(q) * -b);
    }
    SignOf(Magnitude(q), Magnitude(b));
  }

  lemma SignOf(q: nat, b: nat)
    ensures q * b >= 0
  {
  }

  lemma AtLeast(q: nat, b: nat)
    requires q >= 1 && b >= 2
    ensures q * b >= b && q * b >= 2 * q
  {
    SignOf(q - 1, b);
    SignOf(q, b - 2);
    assert (q - 1) * b == q * b - b;
    assert q * (b - 2) == q * b - 2 * q;
  }

  /** None: a null pointer is dereferenced. A right operand is only looked at when the left one is a literal. */
  function Fold(e: Expr): Option<Expr> {
    match e
    case Binary(op, l, r) =>
      var fl, fr := Fold(l), Fold(r);
      if fl.None? || fr.None? || fl.value.Nothing? then None
      else Combine(op, fl.value, fr.value)
    case Opaque(_) => Some(Nothing)
    case _ => Some(e)
  }

  predicate IsLiteral(e: Expr) {
    e.IntLit? || e.OtherLit?
  }

  function Combine(op: Op, l: Expr, r: Expr): Option<Expr> {
    if IsLiteral(l) && r.Nothing? then None
    else if l.IntLit? && r.IntLit? && Compute(op, l.n, r.n).Some? then Some(IntLit(Compute(op, l.n, r.n).value))
    else Some(Binary(op, l, r))
  }

  // ----- meaning -----

  datatype Val = IntVal(i: int) | OtherVal(v: nat)

  /** Everything the folder knows nothing about: variables, other literals, other operators and operands. */
  datatype World = World(variable: string -> Option<Val>, literal: nat -> Val, apply: (Op, Val, Val) -> Option<Val>, opaque_: nat -> Option<Val>)

  /** None is a run-time error. */
  function Eval(e: Expr, w: World): Option<Val> {
    match e
    case IntLit(n) => Some(IntVal(n))
    case OtherLit(k) => Some(w.literal(k))
    case Identifier(x) => w.variable(x)
    case Opaque(k) => w.opaque_(k)
    case Nothing => None
    case Binary(op, l, r) =>
      var a, b := Eval(l, w), Eval(r, w);
      if a.None? || b.None? then None else Operate(op, a.value, b.value, w)
  }

  predicate IsArithmetic(op: Op) {
    !op.OtherOp?
  }

  /** Integer arithmetic fails on a zero divisor only. */
  function Operate(op: Op, a: Val, b: Val, w: World): Option<Val> {
    if a.IntVal? && b.IntVal? && IsArithmetic(op) then
      match Compute(op, a.i, b.i)
      case Some(n) => Some(IntVal(n))
      case None => None
    else w.apply(op, a, b)
  }

  /** Literals, identifiers and binary expressions only. */
  predicate Plain(e: Expr) {
    match e
    case Binary(_, l, r) => Plain(l) && Plain(r)
    case Opaque(_) => false
    case Nothing => false
    case _ => true
  }

  /** The folder returns a tree without holes exactly for the plain trees; on the others it loses a part or crashes. */
  lemma {:induction false} FoldsExactly(e: Expr)
    ensures Fold(e).Some? && Plain(Fold(e).value) <==> Plain(e)
    decreases e
  {
    if e.Binary? {
      FoldsExactly(e.l);
      FoldsExactly(e.r);
    }
  }

  /** Folding changes neither the value nor the errors, in any world. */
  lemma {:induction false} FoldPreserves(e: Expr, w: World)
    requires Plain(e)
    ensures Fold(e).Some? && Eval(Fold(e).value, w) == Eval(e, w)
    decreases e
  {
    FoldsExactly(e);
    if e.Binary? {
      FoldsExactly(e.l);
      FoldsExactly(e.r);
      FoldPreserves(e.l, w);
      FoldPreserves(e.r, w);
      CombinePreserves(e.op, Fold(e.l).value, Fold(e.r).value, w);
    }
  }

  lemma CombinePreserves(op: Op, l: Expr, r: Expr, w: World)
    requires Combine(op, l, r).Some?
    ensures Eval(Combine(op, l, r).value, w) == Eval(Binary(op, l, r), w)
  {
  }

  /** Nothing is left that could be folded. */
  predicate Folded(e: Expr) {
    match e
    case Binary(op, l, r) => Folded(l) && Folded(r) && !(l.IntLit? && r.IntLit? && Compute(op, l.n, r.n).Some?)
    case _ => true
  }

  lemma {:induction false} FoldsCompletely(e: Expr)
    requires Plain(e)
    ensures Fold(e).Some? && Folded(Fold(e).value)
    decreases e
  {
    FoldsExactly(e);
    if e.Binary? {
      FoldsExactly(e.l);
      FoldsExactly(e.r);
      FoldsCompletely(e.l);
      FoldsCompletely(e.r);
    }
  }

  lemma {:induction false} FoldedStays(e: Expr)
    requires Plain(e)
    ensures Folded(e) <==> Fold(e) == Some(e)
    decreases e
  {
    if e.Binary? {
      FoldsExactly(e.l);
      FoldsExactly(e.r);
      FoldedStays(e.l);
      FoldedStays(e.r);
      FoldsCompletely(e);
    }
  }

  lemma FoldTwice(e: Expr)
    requires Plain(e)
    ensures Fold(e).Some? && Fold(Fold(e).value) == Fold(e)
  {
    FoldsExactly(e);
    FoldsCompletely(e);
    FoldedStays(Fold(e).value);
  }

  /** Integer literals and arithmetic only. */
  predicate Closed(e: Expr) {
    match e
    case IntLit(_) => true
    case Binary(op, l, r) => IsArithmetic(op) && Closed(l) && Closed(r)
    case _ => false
  }

  function Parts(e: Expr): set<Expr> {
    {e} + if e.Binary? then Parts(e.l) + Parts(e.r) else {}
  }

  predicate Foldable(e: Expr) {
    e.Binary? && e.l.IntLit? && e.r.IntLit? && !e.op.OtherOp? && !(e.r.n == 0 && (e.op.Slash? || e.op.Percent?))
  }

  /** Which trees are meant: plain, closed and folded are properties of the parts alone. */
  lemma {:induction false} PartsDecide(e: Expr)
    ensures Plain(e) <==> forall p <- Parts(e) :: !p.Opaque? && !p.Nothing?
    ensures Closed(e) <==> forall p <- Parts(e) :: p.IntLit? || (p.Binary? && !p.op.OtherOp?)
    ensures Folded(e) <==> forall p <- Parts(e) :: !Foldable(p)
    decreases e
  {
    if e.Binary? {
      PartsDecide(e.l);
      PartsDecide(e.r);
      assert Parts(e) == {e} + (Parts(e.l) + Parts(e.r));
      if e.l.IntLit? && e.r.IntLit? {
        ComputesWhen(e.op, e.l.n, e.r.n);
      }
    } else {
      assert Parts(e) == {e};
    }
  }

  /** A closed integer tree folds to one literal exactly when it evaluates without error, and then to its value. */
  lemma {:induction false} ClosedFolds(e: Expr, w: World)
    requires Closed(e)
    ensures Plain(e) && Fold(e).Some?
    ensures Eval(e, w).Some? ==> Eval(e, w).value.IntVal? && Fold(e) == Some(IntLit(Eval(e, w).value.i))
    ensures Eval(e, w).None? ==> Fold(e).value.Binary?
    decreases e
  {
    if e.Binary? {
      ClosedFolds(e.l, w);
      ClosedFolds(e.r, w);
      FoldsExactly(e.l);
      FoldsExactly(e.r);
    }
  }

  /** Negating a variable under an addition: the operand is lost. Under a literal it is worse. */
  lemma OpaqueOperand(k: nat, n: int, x: string)
    ensures Fold(Binary(Plus, Identifier(x), Opaque(k))) == Some(Binary(Plus, Identifier(x), Nothing))
    ensures Fold(Binary(Plus, IntLit(n), Opaque(k))) == None
    ensures Fold(Binary(Plus, Opaque(k), IntLit(n))) == None
  {
  }
}
