/** Running the code of an expression pushes exactly its value. */
module ExprProof {
  import opened Values
  import opened Ast
  import opened Machine
  import opened Lowering
  import opened LoweringFacts
  import opened Semantics
  import opened Agreement
  import Runs

  /** The program has code[i] at index at + i. */
  predicate Fetches(p: Program, at: int, code: seq<Instr>, i: int) {
    0 <= i < |code| && 0 <= at + i < |p.code| && p.code[at + i] == code[i]
  }

  /** A place in a program and the code that may be there. */
  datatype Spot = Spot(p: Program, at: int, code: seq<Instr>)

  ghost predicate Fetched(s: Spot) {
    forall i {:trigger Fetches(s.p, s.at, s.code, i)} :: 0 <= i < |s.code| ==> Fetches(s.p, s.at, s.code, i)
  }

  ghost predicate AreSpots(spots: iset<Spot>) {
    forall s {:trigger Fetched(s)} :: s in spots <==> Fetched(s)
  }

  lemma SpotsExist()
    ensures exists spots :: AreSpots(spots)
  {
    var spots := iset s | Fetched(s);
    assert AreSpots(spots);
  }

  /** The places where the code is there; proofs about pieces of code compose them without looking at instructions. */
  ghost function Spots(): iset<Spot> {
    SpotsExist();
    var spots :| AreSpots(spots);
    spots
  }

  /** `code` sits at index `at`. */
  ghost predicate CodeAt(p: Program, at: int, code: seq<Instr>) {
    0 <= at && at + |code| <= |p.code| && Spot(p, at, code) in Spots()
  }

  lemma CodeAtIs(p: Program, at: int, code: seq<Instr>)
    ensures Spot(p, at, code) in Spots() <==>
              forall i {:trigger Fetches(p, at, code, i)} :: 0 <= i < |code| ==> Fetches(p, at, code, i)
  {
    SpotsExist();
    var s := Spot(p, at, code);
    assert s in Spots() <==> Fetched(s);
  }

  /** Everything an operand can hold fits an int32_t. */
  predicate Fits(p: Program, locals: nat) {
    |p.code| < TWO_31 && |p.pool| < TWO_31 && locals < TWO_31
  }

  lemma CodeSplit(p: Program, at: int, a: seq<Instr>, b: seq<Instr>)
    requires CodeAt(p, at, a + b)
    ensures CodeAt(p, at, a) && CodeAt(p, at + |a|, b)
  {
    CodeAtIs(p, at, a + b);
    CodeAtIs(p, at, a);
    CodeAtIs(p, at + |a|, b);
    forall i | 0 <= i < |a| ensures Fetches(p, at, a, i) {
      assert Fetches(p, at, a + b, i);
    }
    var mid := at + |a|;
    forall i | 0 <= i < |b| ensures Fetches(p, mid, b, i) {
      assert Fetches(p, at, a + b, |a| + i);
    }
  }

  lemma CodeHead(p: Program, at: int, i: Instr)
    requires CodeAt(p, at, [i])
    ensures at < |p.code| && p.code[at] == i
  {
    CodeAtIs(p, at, [i]);
    assert Fetches(p, at, [i], 0);
  }

  // ----- single steps -----

  lemma BinaryStep(p: Program, c: Config, op: OpCode, below: seq<Value>, a: Value, b: Value)
    requires 0 <= c.pc < |p.code| && p.code[c.pc].op == op && IsBinary(op)
    requires c.stack == below + [a] + [b]
    ensures Step(p, c) == match BinaryOp(op, a, b)
                          case Some(v) => Runs.Next(c.(pc := c.pc + 1, stack := below + [v]))
                          case None => Runs.Final(Error)
  {
    assert c.stack[..|c.stack| - 1] == below + [a];
    assert (below + [a])[..|below|] == below;
  }

  lemma UnaryStep(p: Program, c: Config, op: OpCode, below: seq<Value>, a: Value)
    requires 0 <= c.pc < |p.code| && p.code[c.pc].op == op && IsUnary(op)
    requires c.stack == below + [a]
    ensures Step(p, c) == match UnaryOp(op, a)
                          case Some(v) => Runs.Next(c.(pc := c.pc + 1, stack := below + [v]))
                          case None => Runs.Final(Error)
  {
    assert c.stack[..|c.stack| - 1] == below;
  }

  lemma PushStep(p: Program, c: Config, k: int)
    requires 0 <= c.pc < |p.code| && p.code[c.pc] == Op1(PUSH, k)
    requires 0 <= k < |p.pool| < TWO_31
    ensures Step(p, c) == Runs.Next(c.(pc := c.pc + 1, stack := c.stack + [p.pool[k]]))
  {
    OperandRoundTrip(k);
  }

  /** LOAD_LOCAL in its general or its short form. */
  lemma LoadStep(p: Program, c: Config, slot: nat)
    requires 0 <= c.pc < |p.code| && (p.code[c.pc] == Op1(LOAD_LOCAL, slot) || p.code[c.pc] == LoadLocal(slot))
    requires slot < |c.locals| < TWO_31
    ensures Step(p, c) == Runs.Next(c.(pc := c.pc + 1, stack := c.stack + [c.locals[slot]]))
  {
    OperandRoundTrip(slot);
  }

  lemma StoreStep(p: Program, c: Config, slot: nat, below: seq<Value>, v: Value)
    requires 0 <= c.pc < |p.code| && p.code[c.pc] == Op1(STORE_LOCAL, slot)
    requires slot < |c.locals| < TWO_31 && c.stack == below + [v]
    ensures Step(p, c) == Runs.Next(c.(pc := c.pc + 1, stack := below, locals := c.locals[slot := v]))
  {
    OperandRoundTrip(slot);
    assert c.stack[..|c.stack| - 1] == below;
  }

  // ----- the string pool -----

  lemma {:induction false} FindStringFinds(pool: Pool, s: string, from: nat)
    requires from <= |pool|
    ensures var k := FindString(pool, s, from);
            from <= k <= |pool| && (k < |pool| ==> pool[k] == Str(s)) && forall j :: from <= j < k ==> pool[j] != Str(s)
    decreases |pool| - from
  {
    if from < |pool| && pool[from] != Str(s) {
      FindStringFinds(pool, s, from + 1);
    }
  }

  /** The index handed out for a string keeps naming it, however much the pool grows later. */
  lemma StringStays(pool: Pool, s: string, later: Pool)
    requires WithString(pool, s) <= later
    ensures StringIndex(pool, s) < |later| && later[StringIndex(pool, s)] == Str(s)
  {
    FindStringFinds(pool, s, 0);
    var k := StringIndex(pool, s);
    assert later[k] == WithString(pool, s)[k];
  }

  /** A string is pooled at most once: pooling it again changes nothing and finds the same index. */
  lemma StringPooledOnce(pool: Pool, s: string, later: Pool)
    requires WithString(pool, s) <= later
    ensures WithString(later, s) == later && StringIndex(later, s) == StringIndex(pool, s)
  {
    StringStays(pool, s, later);
    FindStringFinds(pool, s, 0);
    FindStringFinds(later, s, 0);
    var k := StringIndex(pool, s);
    assert forall j :: 0 <= j < k ==> later[j] == WithString(pool, s)[j] == pool[j];
  }

  // ----- expressions -----

  /** c after `len` instructions that push v. */
  function After(c: Config, len: nat, v: Value): Config {
    c.(pc := c.pc + len, stack := c.stack + [v])
  }

  /** What running `len` instructions from c must do, given the value of the expression. */
  ghost predicate Computes(p: Program, c: Config, len: nat, a: Answer) {
    match a
    case V(v) => Goes(p, c, After(c, len, v))
    case Failed => Stops(p, c, Error)
    case Unknown => true
  }

  /** c is about to run code compiled under `scopes`, in a state that agrees with st. */
  ghost predicate Ready(p: Program, scopes: Scopes, st: State, c: Config) {
    Fits(p, |c.locals|) && Agree(scopes, st.env, c.locals) && c.globals == st.globals && SlotsBelow(scopes, |c.locals|)
  }

  ghost predicate SlotsBelow(scopes: Scopes, n: nat) {
    forall i, x, s :: BoundAt(scopes, i, x, s) ==> s < n
  }

  lemma LocalRuns(p: Program, x: string, scopes: Scopes, st: State, c: Config)
    requires Resolve(scopes, x).Some? && CodeAt(p, c.pc, [LoadLocal(Resolve(scopes, x).value)])
    requires Ready(p, scopes, st, c) && !Reserved(x)
    ensures Computes(p, c, 1, ReadVar(st, x))
  {
    ResolveAgrees(scopes, st.env, c.locals, x);
    var slot := Resolve(scopes, x).value;
    var i := ResolveBound(scopes, x);
    CodeHead(p, c.pc, LoadLocal(slot));
    LoadStep(p, c, slot);
    Start(p, c);
    GoesStep(p, c, c, After(c, 1, c.locals[slot]));
  }

  lemma GlobalRuns(p: Program, x: string, pool: Pool, st: State, c: Config)
    requires CodeAt(p, c.pc, [Op1(LOAD_GLOBAL, StringIndex(pool, x))]) && WithString(pool, x) <= p.pool
    requires |p.pool| < TWO_31 && c.globals == st.globals && Lookup(st.env, x).None?
    ensures Computes(p, c, 1, ReadVar(st, x))
  {
    var k := StringIndex(pool, x);
    CodeHead(p, c.pc, Op1(LOAD_GLOBAL, k));
    StringStays(pool, x, p.pool);
    OperandRoundTrip(k);
    Start(p, c);
    GoesStep(p, c, c, After(c, 1, if x in c.globals then c.globals[x] else Nil));
  }

  lemma VarRuns(p: Program, x: string, scopes: Scopes, pool: Pool, st: State, c: Config)
    requires var r := CompExpr(Var(x), scopes, pool); CodeAt(p, c.pc, r.code) && r.pool <= p.pool
    requires Ready(p, scopes, st, c) && !Reserved(x)
    ensures Computes(p, c, 1, ReadVar(st, x))
  {
    ResolveAgrees(scopes, st.env, c.locals, x);
    if Resolve(scopes, x).Some? {
      LocalRuns(p, x, scopes, st, c);
    } else {
      GlobalRuns(p, x, pool, st, c);
    }
  }

  lemma OperatorMeaning(op: BinOp, a: Value, b: Value)
    ensures IsBinary(BinaryCode(op)) && BinaryOp(BinaryCode(op), a, b) == BinaryMeaning(op, a, b)
  {
  }

  /** Two operands, then a binary instruction. */
  lemma TwoThenOp(p: Program, c: Config, x: seq<Instr>, y: seq<Instr>, op: OpCode, a: Answer, b: Answer)
    requires CodeAt(p, c.pc, x + y + [Op(op)]) && IsBinary(op)
    requires Computes(p, c, |x|, a)
    requires a.V? ==> Computes(p, After(c, |x|, a.v), |y|, b)
    ensures Computes(p, c, |x + y + [Op(op)]|,
                     if !a.V? then a else if !b.V? then b else ToAnswer(BinaryOp(op, a.v, b.v)))
  {
    CodeSplit(p, c.pc, x + y, [Op(op)]);
    if a.V? {
      var d := After(c, |x|, a.v);
      if b.V? {
        var e := After(d, |y|, b.v);
        GoesGoes(p, c, d, e);
        CodeHead(p, e.pc, Op(op));
        BinaryStep(p, e, op, c.stack, a.v, b.v);
        match BinaryOp(op, a.v, b.v)
        case Some(v) => GoesStep(p, c, e, After(c, |x + y + [Op(op)]|, v));
        case None => GoesStop(p, c, e, Error);
      } else if b.Failed? {
        GoesStops(p, c, d, Error);
      }
    }
  }

  /** One operand, then a unary instruction. */
  lemma OneThenOp(p: Program, c: Config, x: seq<Instr>, op: UnOp, a: Answer)
    requires CodeAt(p, c.pc, x + [Op(UnaryCode(op))])
    requires Computes(p, c, |x|, a)
    ensures Computes(p, c, |x| + 1, if !a.V? then a else V(UnaryMeaning(op, a.v)))
  {
    CodeSplit(p, c.pc, x, [Op(UnaryCode(op))]);
    if a.V? {
      var d := After(c, |x|, a.v);
      CodeHead(p, d.pc, Op(UnaryCode(op)));
      UnaryStep(p, d, UnaryCode(op), c.stack, a.v);
      GoesStep(p, c, d, After(c, |x| + 1, UnaryMeaning(op, a.v)));
    }
  }

  lemma ConstRuns(p: Program, pool: Pool, v: Value, c: Config)
    requires var r := ConstCode(pool, v); CodeAt(p, c.pc, r.code) && r.pool <= p.pool
    requires |p.pool| < TWO_31
    ensures Goes(p, c, After(c, 1, v))
  {
    CodeHead(p, c.pc, Op1(PUSH, |pool|));
    PushStep(p, c, |pool|);
    Start(p, c);
    GoesStep(p, c, c, After(c, 1, v));
  }

  lemma StringRuns(p: Program, pool: Pool, s: string, c: Config)
    requires CodeAt(p, c.pc, [Op1(PUSH, StringIndex(pool, s))]) && WithString(pool, s) <= p.pool
    requires |p.pool| < TWO_31
    ensures Goes(p, c, After(c, 1, Str(s)))
  {
    var k := StringIndex(pool, s);
    CodeHead(p, c.pc, Op1(PUSH, k));
    StringStays(pool, s, p.pool);
    PushStep(p, c, k);
    Start(p, c);
    GoesStep(p, c, c, After(c, 1, Str(s)));
  }

  /** ALLOC_ARRAY pushes the empty array the elements are pushed into. */
  lemma AllocRuns(p: Program, n: nat, elems: seq<Instr>, c: Config)
    requires CodeAt(p, c.pc, [Op1(ALLOC_ARRAY, n)] + elems)
    ensures Goes(p, c, After(c, 1, Arr([]))) && CodeAt(p, c.pc + 1, elems)
  {
    CodeSplit(p, c.pc, [Op1(ALLOC_ARRAY, n)], elems);
    CodeHead(p, c.pc, Op1(ALLOC_ARRAY, n));
    Start(p, c);
    GoesStep(p, c, c, After(c, 1, Arr([])));
  }

  /** What running an element list must do, given the array built so far on top of `below`. */
  ghost predicate Fills(p: Program, c: Config, len: nat, below: seq<Value>, a: Answer) {
    match a
    case V(v) => Goes(p, c, c.(pc := c.pc + len, stack := below + [v]))
    case Failed => Stops(p, c, Error)
    case Unknown => true
  }

  /** An element's value is appended, then the remaining elements follow. */
  lemma ElemThenRest(p: Program, c: Config, x: seq<Instr>, rest: seq<Instr>, below: seq<Value>, sofar: seq<Value>,
                     a: Answer, w: Answer)
    requires CodeAt(p, c.pc, x + [Op(ARRAY_PUSH)] + rest) && c.stack == below + [Arr(sofar)]
    requires Computes(p, c, |x|, a)
    requires a.V? ==> Fills(p, c.(pc := c.pc + |x| + 1, stack := below + [Arr(sofar + [a.v])]), |rest|, below, w)
    ensures Fills(p, c, |x + [Op(ARRAY_PUSH)] + rest|, below, if !a.V? then a else w)
  {
    CodeSplit(p, c.pc, x + [Op(ARRAY_PUSH)], rest);
    CodeSplit(p, c.pc, x, [Op(ARRAY_PUSH)]);
    if a.V? {
      var d := After(c, |x|, a.v);
      var f := c.(pc := c.pc + |x| + 1, stack := below + [Arr(sofar + [a.v])]);
      CodeHead(p, d.pc, Op(ARRAY_PUSH));
      BinaryStep(p, d, ARRAY_PUSH, below, Arr(sofar), a.v);
      GoesStep(p, c, d, f);
      if w.V? {
        GoesGoes(p, c, f, c.(pc := c.pc + |x + [Op(ARRAY_PUSH)] + rest|, stack := below + [w.v]));
      } else if w.Failed? {
        GoesStops(p, c, f, Error);
      }
    }
  }

  /**
   * The code of e pushes the value of e and changes nothing else; an error of e stops the machine with an
   * error. It is so for every pool that extends the one e was compiled against.
   */
  lemma {:induction false} ExprRuns(p: Program, e: Expr, scopes: Scopes, pool: Pool, st: State, c: Config)
    requires var r := CompExpr(e, scopes, pool); CodeAt(p, c.pc, r.code) && r.pool <= p.pool
    requires Ready(p, scopes, st, c) && UserExpr(e)
    ensures Computes(p, c, |CompExpr(e, scopes, pool).code|, Eval(e, st))
    decreases e, 1
  {
    match e
    case IntLit(n) => ConstRuns(p, pool, Int(Cut32(n)), c);
    case BoolLit(b) => ConstRuns(p, pool, Int(if b then 1 else 0), c);
    case StrLit(s) => StringRuns(p, pool, s, c);
    case Var(x) => VarRuns(p, x, scopes, pool, st, c);
    case Binary(op, x, y) =>
      PairRuns(p, e, x, y, BinaryCode(op), scopes, pool, st, c);
      if Eval(x, st).V? && Eval(y, st).V? {
        OperatorMeaning(op, Eval(x, st).v, Eval(y, st).v);
      }
    case Unary(op, x) =>
      var a := CompExpr(x, scopes, pool);
      CodeSplit(p, c.pc, a.code, [Op(UnaryCode(op))]);
      ExprRuns(p, x, scopes, pool, st, c);
      OneThenOp(p, c, a.code, op, Eval(x, st));
    case Index(x, y) => PairRuns(p, e, x, y, LOAD_INDEX, scopes, pool, st, c);
    case ArrayLit(es) =>
      var a := CompElems(es, scopes, pool);
      AllocRuns(p, Count(es), a.code, c);
      var d := After(c, 1, Arr([]));
      ElemsRun(p, es, scopes, pool, st, d, c.stack, []);
      FillsFrom(p, c, d, |a.code|, EvalElems(es, [], st));
  }

  lemma {:induction false} PairRuns(p: Program, e: Expr, x: Expr, y: Expr, op: OpCode, scopes: Scopes, pool: Pool,
                                    st: State, c: Config)
    requires e.Binary? || e.Index?
    requires e.Binary? ==> x == e.left && y == e.right && op == BinaryCode(e.op)
    requires e.Index? ==> x == e.base && y == e.index && op == LOAD_INDEX
    requires var r := CompExpr(e, scopes, pool); CodeAt(p, c.pc, r.code) && r.pool <= p.pool
    requires Ready(p, scopes, st, c) && UserExpr(e)
    ensures var v, w := Eval(x, st), Eval(y, st);
            Computes(p, c, |CompExpr(e, scopes, pool).code|,
                     if !v.V? then v else if !w.V? then w else ToAnswer(BinaryOp(op, v.v, w.v)))
    decreases e, 0
  {
    var a := CompExpr(x, scopes, pool);
    var b := CompExpr(y, scopes, a.pool);
    CodeSplit(p, c.pc, a.code + b.code, [Op(op)]);
    CodeSplit(p, c.pc, a.code, b.code);
    ExprRuns(p, x, scopes, pool, st, c);
    var v := Eval(x, st);
    if v.V? {
      ExprRuns(p, y, scopes, a.pool, st, After(c, |a.code|, v.v));
    }
    TwoThenOp(p, c, a.code, b.code, op, v, Eval(y, st));
  }

  lemma FillsFrom(p: Program, c: Config, d: Config, len: nat, a: Answer)
    requires Goes(p, c, d) && Fills(p, d, len, c.stack, a) && d == After(c, 1, Arr([]))
    ensures Computes(p, c, len + 1, a)
  {
    if a.V? {
      GoesGoes(p, c, d, After(c, len + 1, a.v));
    } else if a.Failed? {
      GoesStops(p, c, d, Error);
    }
  }

  lemma {:induction false} ElemsRun(p: Program, es: Exprs, scopes: Scopes, pool: Pool, st: State, c: Config,
                                    below: seq<Value>, sofar: seq<Value>)
    requires var r := CompElems(es, scopes, pool); CodeAt(p, c.pc, r.code) && r.pool <= p.pool
    requires Ready(p, scopes, st, c) && UserExprs(es) && c.stack == below + [Arr(sofar)]
    ensures Fills(p, c, |CompElems(es, scopes, pool).code|, below, EvalElems(es, sofar, st))
    decreases es, 1
  {
    match es
    case NoExprs => Start(p, c);
    case MoreExprs(e, rest) =>
      var a := CompExpr(e, scopes, pool);
      var b := CompElems(rest, scopes, a.pool);
      CodeSplit(p, c.pc, a.code + [Op(ARRAY_PUSH)], b.code);
      CodeSplit(p, c.pc, a.code, [Op(ARRAY_PUSH)]);
      ExprRuns(p, e, scopes, pool, st, c);
      var v := Eval(e, st);
      var w := if v.V? then EvalElems(rest, sofar + [v.v], st) else v;
      if v.V? {
        var f := c.(pc := c.pc + |a.code| + 1, stack := below + [Arr(sofar + [v.v])]);
        ElemsRun(p, rest, scopes, a.pool, st, f, below, sofar + [v.v]);
      }
      ElemThenRest(p, c, a.code, b.code, below, sofar, v, w);
  }

  /** The same, as statements use it. */
  lemma ValueRuns(p: Program, e: Expr, cx: Ctx, st: State, c: Config)
    requires var r := CodeOf(e, cx.scopes, cx.pool); CodeAt(p, c.pc, r.code) && r.pool <= p.pool
    requires GoodCtx(cx) && Fits(p, |c.locals|) && cx.next <= |c.locals|
    requires Agree(cx.scopes, st.env, c.locals) && c.globals == st.globals && UserExpr(e)
    ensures Computes(p, c, |CodeOf(e, cx.scopes, cx.pool).code|, ValueOf(e, st))
  {
    GoodIs(cx);
    CodeOfIs(e, cx.scopes, cx.pool);
    ValueOfIs(e, st);
    ExprRuns(p, e, cx.scopes, cx.pool, st, c);
  }
}
