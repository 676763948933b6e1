/** Simulation: the code of a statement does what the statement means, whatever surrounds it. */
module StmtProof {
  import opened Values
  import opened Ast
  import opened Machine
  import opened Lowering
  import opened LoweringFacts
  import opened Semantics
  import opened Layers
  import opened Agreement
  import opened ExprProof
  import opened Placement
  import opened StmtSteps
  import opened LoopSteps
  import Runs

  // ----- leaves -----

  lemma LetRuns(p: Program, x: string, e: Expr, cx: Ctx, st: State, c: Config, xs: Exits, m: Mode, fuel: nat)
    requires var r := CompLet(x, e, cx); Begin(p, cx, r.cx, st, c) && CodeAt(p, c.pc, r.frag.code)
    requires !Reserved(x) && UserExpr(e)
    ensures var r := CompLet(x, e, cx);
            Ran(p, cx, c, xs, |cx.scopes| - 1, r.cx.scopes, c.pc + |r.frag.code|, LetReading(x, ValueOf(e, st), st), fuel)
  {
    var a := CodeOf(e, cx.scopes, cx.pool);
    CodeSplit(p, c.pc, a.code, [Op1(STORE_LOCAL, cx.next)]);
    ValueRuns(p, e, cx, st, c);
    var v := ValueOf(e, st);
    StoreRuns(p, c, a.code, cx.next, v);
    if v.V? {
      var l := c.locals[cx.next := v.v];
      NextStoreAgrees(cx, st.env, c.locals, cx.next, v.v);
      PoolGood(cx, a.pool);
      DeclareAgrees(cx.(pool := a.pool), st.env, l, x, Set(v.v));
      FrameStore(cx, c.locals, cx.next, v.v);
      assert Goes(p, c, Config(c.pc + (|a.code| + 1), [], l, st.globals));
    }
  }

  lemma AssignRuns(p: Program, x: string, e: Expr, cx: Ctx, st: State, c: Config, xs: Exits, m: Mode, fuel: nat)
    requires var r := CompAssign(x, e, cx); Begin(p, cx, r.cx, st, c) && CodeAt(p, c.pc, r.frag.code)
    requires !Reserved(x) && UserExpr(e)
    ensures var r := CompAssign(x, e, cx);
            Ran(p, cx, c, xs, |cx.scopes| - 1, r.cx.scopes, c.pc + |r.frag.code|,
                AssignReading(x, ValueOf(e, st), st), fuel)
  {
    ResolveAgrees(cx.scopes, st.env, c.locals, x);
    if Resolve(cx.scopes, x).Some? {
      AssignLocalRuns(p, x, e, cx, st, c);
    } else {
      AssignGlobalRuns(p, x, e, cx, st, c);
    }
  }

  /** What an assignment must do. */
  ghost predicate Assigned(p: Program, x: string, e: Expr, cx: Ctx, st: State, c: Config) {
    match ValueOf(e, st)
    case V(v) => Arrives(p, c, c.pc + |CompAssign(x, e, cx).frag.code|, cx, cx.scopes, Update(st, x, v).env,
                         Update(st, x, v).globals)
    case Failed => Stops(p, c, Error)
    case Unknown => true
  }

  lemma AssignLocalRuns(p: Program, x: string, e: Expr, cx: Ctx, st: State, c: Config)
    requires var r := CompAssign(x, e, cx); Begin(p, cx, r.cx, st, c) && CodeAt(p, c.pc, r.frag.code)
    requires !Reserved(x) && UserExpr(e) && Resolve(cx.scopes, x).Some?
    ensures Assigned(p, x, e, cx, st, c)
  {
    var a := CodeOf(e, cx.scopes, cx.pool);
    var slot := Resolve(cx.scopes, x).value;
    CodeSplit(p, c.pc, a.code, [Op1(STORE_LOCAL, slot)]);
    ValueRuns(p, e, cx, st, c);
    ResolveAgrees(cx.scopes, st.env, c.locals, x);
    var i := ResolveBound(cx.scopes, x);
    GoodIs(cx);
    var v := ValueOf(e, st);
    StoreRuns(p, c, a.code, slot, v);
    if v.V? {
      StoreAgrees(cx.scopes, st.env, c.locals, x, v.v);
      FrameStore(cx, c.locals, slot, v.v);
      assert Goes(p, c, Config(c.pc + (|a.code| + 1), [], c.locals[slot := v.v], st.globals));
    }
  }

  lemma AssignGlobalRuns(p: Program, x: string, e: Expr, cx: Ctx, st: State, c: Config)
    requires var r := CompAssign(x, e, cx); Begin(p, cx, r.cx, st, c) && CodeAt(p, c.pc, r.frag.code)
    requires !Reserved(x) && UserExpr(e) && Resolve(cx.scopes, x).None?
    ensures Assigned(p, x, e, cx, st, c)
  {
    var a := CodeOf(e, cx.scopes, cx.pool);
    var k := StringIndex(a.pool, x);
    CodeSplit(p, c.pc, a.code, [Op1(STORE_GLOBAL, k)]);
    ValueRuns(p, e, cx, st, c);
    ResolveAgrees(cx.scopes, st.env, c.locals, x);
    StringStays(a.pool, x, p.pool);
    var v := ValueOf(e, st);
    if v.V? {
      var d := After(c, |a.code|, v.v);
      assert d.stack == [v.v];
      StoreGlobalRuns(p, c, d, k, x, v.v);
      FrameSelf(cx, c.locals);
      assert d.pc + 1 == c.pc + (|a.code| + 1);
    }
  }

  lemma ExprStmtRuns(p: Program, e: Expr, cx: Ctx, st: State, c: Config, xs: Exits, result: bool, fuel: nat)
    requires var r := CompExprStmt(e, cx, result); Begin(p, cx, r.cx, st, c) && CodeAt(p, c.pc, r.frag.code)
    requires UserExpr(e)
    ensures var r := CompExprStmt(e, cx, result);
            Ran(p, cx, c, xs, |cx.scopes| - 1, r.cx.scopes, c.pc + |r.frag.code|, ExprReading(ValueOf(e, st), st, result), fuel)
  {
    var a := CodeOf(e, cx.scopes, cx.pool);
    var last := Op(if result then RET else POP);
    CodeSplit(p, c.pc, a.code, [last]);
    ValueRuns(p, e, cx, st, c);
    var v := ValueOf(e, st);
    if v.V? {
      var d := After(c, |a.code|, v.v);
      assert d.stack == [v.v];
      if result {
        RetStops(p, c, d, v.v);
      } else {
        PopRuns(p, c, d, v.v);
        FrameSelf(cx, c.locals);
      }
    }
  }

  lemma ReturnRuns(p: Program, v: Option<Expr>, cx: Ctx, st: State, c: Config, x: Exits, m: Mode, fuel: nat, r: Lowered)
    requires r == StmtLayer(Return(v), cx, m.tail, m.last)
    requires Begin(p, cx, r.cx, st, c) && CodeAt(p, c.pc, r.frag.code) && (v.Some? ==> UserExpr(v.value))
    ensures Ran(p, cx, c, x, |cx.scopes| - 1, r.cx.scopes, c.pc + |r.frag.code|, StmtReading(Return(v), st, fuel, m, true), fuel)
  {
    if v.Some? {
      ExprStmtRuns(p, v.value, cx, st, c, x, true, fuel);
    } else {
      CodeHead(p, c.pc, Op(RET_NULL));
      Start(p, c);
      GoesStop(p, c, c, Done(Nil, st.globals));
    }
  }

  /** A patched jump leaves for its target; an unpatched one falls through. */
  lemma HoleRuns(p: Program, cx: Ctx, st: State, c: Config, target: Option<int>)
    requires CodeAt(p, c.pc, [Hole(target, c.pc)]) && Fits(p, |c.locals|)
    requires target.Some? ==> 0 <= target.value <= |p.code|
    requires c.stack == [] && c.globals == st.globals && Agree(cx.scopes, st.env, c.locals) && |cx.scopes| >= 1
    ensures target.None? ==> Arrives(p, c, c.pc + 1, cx, cx.scopes, st.env, st.globals)
    ensures target.Some? ==>
              var k := |cx.scopes| - 1; Jumps(p, c, target.value, cx, cx.scopes[..k], st.env[..k], st.globals)
  {
    var to := if target.Some? then target.value else c.pc + 1;
    assert Hole(target, c.pc) == Op1(JMP, to - (c.pc + 1));
    JumpStep(p, c, to - (c.pc + 1));
    Start(p, c);
    GoesMove(p, c, c, Config(to, [], c.locals, st.globals));
    MovesGoes(p, c, Config(to, [], c.locals, st.globals));
    AgreeOuter(cx.scopes, st.env, c.locals);
    FrameSelf(cx, c.locals);
  }

  lemma LeaveRuns(p: Program, s: Stmt, cx: Ctx, m: Mode, x: Exits, st: State, c: Config, fuel: nat, r: Lowered, o: Outcome)
    requires s.Break? || s.Continue?
    requires r == StmtLayer(s, cx, m.tail, m.last) && o == StmtReading(s, st, fuel, m, true)
    requires Begin(p, cx, r.cx, st, c) && Placed(p, c.pc, r.frag, x) && ModeFits(m, x, r.frag) && ExitsInCode(p, x)
    ensures Ran(p, cx, c, x, |cx.scopes| - 1, r.cx.scopes, c.pc + |r.frag.code|, o, fuel)
  {
    var target := if s.Break? then x.brk else x.cont;
    assert Fill(r.frag, x, c.pc) == [Hole(target, c.pc)];
    HoleRuns(p, cx, st, c, target);
  }

  // ----- the simulation -----
  //
  // Every lemma below takes the lowering r of its construct and the outcome o of its execution as parameters.

  lemma {:induction false} StmtRuns(p: Program, s: Stmt, cx: Ctx, m: Mode, x: Exits, st: State, c: Config, fuel: nat,
                                    r: Lowered, o: Outcome)
    requires r == Code(One(s), cx, m.tail, m.last) && o == Reading(Do(One(s), m), st, fuel, true)
    requires Begin(p, cx, r.cx, st, c) && Placed(p, c.pc, r.frag, x) && ModeFits(m, x, r.frag)
    requires Own(One(s)) && ExitsInCode(p, x)
    ensures Ran(p, cx, c, x, |cx.scopes| - 1, r.cx.scopes, c.pc + |r.frag.code|, o, fuel)
    decreases fuel, s, 5
  {
    CodeUnfolds(One(s), cx, m.tail, m.last);
    ReadingUnfolds(Do(One(s), m), st, fuel, true);
    OwnUnfolds(One(s));
    match s
    case Block(b) => AllRuns(p, b, cx, m, x, st, c, fuel, r, o);
    case If(arms) => ArmsRun(p, arms, cx, m, x, st, c, fuel, r, o);
    case While(e, b) =>
      var a := CodeOf(e, cx.scopes, cx.pool);
      WhileRuns(p, e, b, cx, m, x, st, c, fuel, a, ScopedCode(b, cx.(pool := a.pool), false, false), r, o);
    case Loop(b) => LoopRuns(p, b, cx, m, x, st, c, fuel, r, o);
    case ForRange(_, _, _, _) => ForRuns(p, s, cx, m, x, st, c, fuel, r, o);
    case ForCount(_, _, _) => ForRuns(p, s, cx, m, x, st, c, fuel, r, o);
    case ForEach(y, e, b) => EachStmtRuns(p, y, e, b, cx, m, x, st, c, fuel, r, o);
    case _ => SimpleRuns(p, s, cx, m, x, st, c, fuel, r, o);
  }

  lemma {:induction false} ForRuns(p: Program, s: Stmt, cx: Ctx, m: Mode, x: Exits, st: State, c: Config, fuel: nat,
                                   r: Lowered, o: Outcome)
    requires s.ForRange? || s.ForCount?
    requires r == StmtLayer(s, cx, m.tail, m.last) && o == StmtReading(s, st, fuel, m, true)
    requires Begin(p, cx, r.cx, st, c) && Placed(p, c.pc, r.frag, x) && StmtPartsOwn(s)
    ensures Ran(p, cx, c, x, |cx.scopes| - 1, r.cx.scopes, c.pc + |r.frag.code|, o, fuel)
    decreases fuel, s, 4
  {
    match s
    case ForRange(y, lo, hi, b) => ForRangeRuns(p, y, lo, hi, b, cx, x, st, c, fuel, r, o);
    case ForCount(y, n, b) => ForCountRuns(p, y, n, b, cx, x, st, c, fuel, r, o);
  }

  lemma {:induction false} EachStmtRuns(p: Program, y: string, e: Iterable, b: Stmts, cx: Ctx, m: Mode, x: Exits, st: State,
                                        c: Config, fuel: nat, r: Lowered, o: Outcome)
    requires var s := ForEach(y, e, b);
             r == StmtLayer(s, cx, m.tail, m.last) && o == StmtReading(s, st, fuel, m, true) && StmtPartsOwn(s)
    requires Begin(p, cx, r.cx, st, c) && Placed(p, c.pc, r.frag, x)
    ensures Ran(p, cx, c, x, |cx.scopes| - 1, r.cx.scopes, c.pc + |r.frag.code|, o, fuel)
    decreases fuel, ForEach(y, e, b), 4
  {
    var a := CodeOf(e, cx.scopes, cx.pool);
    ForEachRuns(p, y, e, b, cx, x, st, c, fuel, a, ScopedCode(b, EachCtx(y, cx.(pool := a.pool)), false, false), r, o);
  }

  lemma SimpleRuns(p: Program, s: Stmt, cx: Ctx, m: Mode, x: Exits, st: State, c: Config, fuel: nat, r: Lowered, o: Outcome)
    requires s.Let? || s.Assign? || s.ExprStmt? || s.Return? || s.Break? || s.Continue?
    requires r == StmtLayer(s, cx, m.tail, m.last) && o == StmtReading(s, st, fuel, m, true)
    requires Begin(p, cx, r.cx, st, c) && Placed(p, c.pc, r.frag, x) && ModeFits(m, x, r.frag)
    requires StmtPartsOwn(s) && ExitsInCode(p, x)
    ensures Ran(p, cx, c, x, |cx.scopes| - 1, r.cx.scopes, c.pc + |r.frag.code|, o, fuel)
  {
    match s
    case Let(y, e) => LetRuns(p, y, e, cx, st, c, x, m, fuel);
    case Assign(y, e) => AssignRuns(p, y, e, cx, st, c, x, m, fuel);
    case ExprStmt(e) => ExprStmtRuns(p, e, cx, st, c, x, m.tail || m.last, fuel);
    case Return(v) => ReturnRuns(p, v, cx, st, c, x, m, fuel, r);
    case _ => LeaveRuns(p, s, cx, m, x, st, c, fuel, r, o);
  }

  // ----- statement lists -----

  /** No code ends where it begins. */
  lemma NothingRuns(p: Program, cx: Ctx, st: State, c: Config)
    requires c.stack == [] && c.globals == st.globals && Agree(cx.scopes, st.env, c.locals)
    ensures Arrives(p, c, c.pc, cx, cx.scopes, st.env, st.globals)
  {
    Start(p, c);
    FrameSelf(cx, c.locals);
    ArrivesAt(p, cx, c, c, cx.scopes, st);
  }

  lemma {:induction false} AllRuns(p: Program, ss: Stmts, cx: Ctx, m: Mode, x: Exits, st: State, c: Config, fuel: nat,
                                   r: Lowered, o: Outcome)
    requires r == Code(All(ss), cx, m.tail, m.last) && o == Reading(Do(All(ss), m), st, fuel, true)
    requires Begin(p, cx, r.cx, st, c) && Placed(p, c.pc, r.frag, x) && ModeFits(m, x, r.frag)
    requires Own(All(ss)) && ExitsInCode(p, x)
    ensures Ran(p, cx, c, x, |cx.scopes| - 1, r.cx.scopes, c.pc + |r.frag.code|, o, fuel)
    decreases fuel, ss, 1
  {
    CodeUnfolds(All(ss), cx, m.tail, m.last);
    ReadingUnfolds(Do(All(ss), m), st, fuel, true);
    OwnUnfolds(All(ss));
    match ss
    case Empty => NothingRuns(p, cx, st, c);
    case Then(s, rest) =>
      var m1 := FirstMode(m, rest);
      var a := Code(One(s), cx, m1.tail, m1.last);
      var b := Code(All(rest), a.cx, m.tail, m.last);
      ThenRuns(p, s, rest, cx, m, m1, x, st, c, fuel, a, b, Reading(Do(One(s), m1), st, fuel, true), o);
  }

  lemma {:induction false} ThenRuns(p: Program, s: Stmt, rest: Stmts, cx: Ctx, m: Mode, m1: Mode, x: Exits, st: State,
                                    c: Config, fuel: nat, a: Lowered, b: Lowered, o1: Outcome, o2: Outcome)
    requires m1 == FirstMode(m, rest)
    requires a == Code(One(s), cx, m1.tail, m1.last) && b == Code(All(rest), a.cx, m.tail, m.last)
    requires o1 == Reading(Do(One(s), m1), st, fuel, true) && o2 == ThenReading(rest, o1, fuel, m, true)
    requires var f := Append(a.frag, b.frag); Placed(p, c.pc, f, x) && ModeFits(m, x, f)
    requires Begin(p, cx, b.cx, st, c) && Own(One(s)) && Own(All(rest)) && ExitsInCode(p, x)
    ensures Ran(p, cx, c, x, |cx.scopes| - 1, b.cx.scopes, c.pc + |Append(a.frag, b.frag).code|, o2, fuel)
    decreases fuel, Then(s, rest), 0
  {
    CodeGood(One(s), cx, m1.tail, m1.last);
    CodeGood(All(rest), a.cx, m.tail, m.last);
    ThenPlaced(p, s, rest, cx, m, m1, x, c.pc, a, b);
    BeginPart(p, cx, a.cx, b.cx, st, c);
    StmtRuns(p, s, cx, m1, ExitsBefore(b.frag, x), st, c, fuel, a, o1);
    RestRuns(p, rest, cx, m, x, st, c, fuel, a, b, o1, o2);
  }

  lemma ThenPlaced(p: Program, s: Stmt, rest: Stmts, cx: Ctx, m: Mode, m1: Mode, x: Exits, at: int, a: Lowered,
                   b: Lowered)
    requires m1 == FirstMode(m, rest)
    requires a == Code(One(s), cx, m1.tail, m1.last) && b == Code(All(rest), a.cx, m.tail, m.last)
    requires var f := Append(a.frag, b.frag); Placed(p, at, f, x) && ModeFits(m, x, f)
    ensures Placed(p, at, a.frag, ExitsBefore(b.frag, x)) && Placed(p, at + |a.frag.code|, b.frag, x)
    ensures ModeFits(m1, ExitsBefore(b.frag, x), a.frag) && ModeFits(m, x, b.frag)
  {
    CodeHoled(One(s), cx, m1.tail, m1.last);
    AllCodeHoles(rest, a.cx, m.tail, m.last);
    PlacedAppend(p, at, a.frag, b.frag, x);
    FirstModeFits(m, rest, x, a.frag, b.frag);
  }

  lemma FirstModeFits(m: Mode, rest: Stmts, x: Exits, a: Frag, b: Frag)
    requires WellHoled(a) && Holes(b, BreakAhead(rest), ContinueAhead(rest)) && ModeFits(m, x, Append(a, b))
    ensures ModeFits(FirstMode(m, rest), ExitsBefore(b, x), a) && ModeFits(m, x, b)
  {
  }

  /** The rest of a statement list, after its first statement had outcome o1. */
  lemma {:induction false} RestRuns(p: Program, rest: Stmts, cx: Ctx, m: Mode, x: Exits, st: State, c: Config,
                                    fuel: nat, a: Lowered, b: Lowered, o1: Outcome, o2: Outcome)
    requires b == Code(All(rest), a.cx, m.tail, m.last) && o2 == ThenReading(rest, o1, fuel, m, true)
    requires Begin(p, cx, b.cx, st, c) && GoodCtx(a.cx) && Grows(cx, a.cx) && Grows(a.cx, b.cx)
    requires Placed(p, c.pc + |a.frag.code|, b.frag, x) && ModeFits(m, x, b.frag)
    requires Own(All(rest)) && ExitsInCode(p, x)
    requires Ran(p, cx, c, ExitsBefore(b.frag, x), |cx.scopes| - 1, a.cx.scopes, c.pc + |a.frag.code|, o1, fuel)
    ensures Ran(p, cx, c, x, |cx.scopes| - 1, b.cx.scopes, c.pc + |a.frag.code + b.frag.code|, o2, fuel)
    decreases fuel, rest, 2
  {
    var end := c.pc + |a.frag.code + b.frag.code|;
    if o1.Normal? {
      var d := Resume(p, cx, c, c.pc + |a.frag.code|, a.cx.scopes, o1.st);
      BeginNext(p, cx, a.cx, b.cx, st, c, o1.st, d);
      AllRuns(p, rest, a.cx, m, x, o1.st, d, fuel, b, o2);
      assert d.pc + |b.frag.code| == end;
      RanOuter(p, cx, a.cx, c, d, x, b.cx.scopes, end, o2, fuel);
    } else {
      ExitsAfter(p, cx, c, b.frag, x, |cx.scopes| - 1, a.cx.scopes, b.cx.scopes, c.pc + |a.frag.code|, end, o1, fuel);
    }
  }

  /** Leaving from the first of two fragments is leaving from both. */
  lemma ExitsAfter(p: Program, cx: Ctx, c: Config, later: Frag, x: Exits, k: nat, mid: Scopes, after: Scopes,
                   middle: int, end: int, o: Outcome, fuel: nat)
    requires k <= |cx.scopes| && Ran(p, cx, c, ExitsBefore(later, x), k, mid, middle, o, fuel) && !o.Normal?
    ensures Ran(p, cx, c, x, k, after, end, o, fuel)
  {
  }

  lemma {:induction false} ScopedRuns(p: Program, b: Stmts, cx: Ctx, m: Mode, x: Exits, st: State, c: Config, fuel: nat,
                                      r: Lowered, o: Outcome)
    requires r == ScopedCode(b, cx, m.tail, m.last) && o == ScopedReading(b, st, fuel, m, true)
    requires Begin(p, cx, r.cx, st, c) && Placed(p, c.pc, r.frag, x) && ModeFits(m, x, r.frag)
    requires Own(All(b)) && ExitsInCode(p, x)
    ensures Ran(p, cx, c, x, |cx.scopes|, cx.scopes, c.pc + |r.frag.code|, o, fuel)
    decreases fuel, b, 2
  {
    var inner := EnterScope(cx);
    var ri := Code(All(b), inner, m.tail, m.last);
    var oi := Reading(Do(All(b), m), Enter(st), fuel, true);
    EnterGood(cx);
    CodeGood(All(b), inner, m.tail, m.last);
    BeginScope(p, cx, ri.cx, st, c);
    AllRuns(p, b, inner, m, x, Enter(st), c, fuel, ri, oi);
    GrowsOuter(inner, ri.cx);
    assert inner.scopes[..|cx.scopes|] == cx.scopes;
    LeaveRan(p, cx, c, x, ri.cx.scopes, c.pc + |r.frag.code|, oi, fuel);
  }

  lemma BeginScope(p: Program, cx: Ctx, after: Ctx, st: State, c: Config)
    requires Begin(p, cx, ExitScope(after), st, c)
    ensures Begin(p, EnterScope(cx), after, Enter(st), c)
  {
    EnterGood(cx);
    EnterAgrees(cx.scopes, st.env, c.locals);
  }

  // ----- if -----

  lemma {:induction false} ArmsRun(p: Program, arms: Arms, cx: Ctx, m: Mode, x: Exits, st: State, c: Config, fuel: nat,
                                   r: Lowered, o: Outcome)
    requires r == Code(Cases(arms), cx, m.tail, m.last) && o == Reading(Do(Cases(arms), m), st, fuel, true)
    requires Begin(p, cx, r.cx, st, c) && Placed(p, c.pc, r.frag, x) && ModeFits(m, x, r.frag)
    requires Own(Cases(arms)) && ExitsInCode(p, x)
    ensures Ran(p, cx, c, x, |cx.scopes| - 1, cx.scopes, c.pc + |r.frag.code|, o, fuel)
    ensures r.cx.scopes == cx.scopes
    decreases fuel, arms, 3
  {
    CodeGood(Cases(arms), cx, m.tail, m.last);
    ReadingUnfolds(Do(Cases(arms), m), st, fuel, true);
    OwnUnfolds(Cases(arms));
    if arms.Arm? {
      ArmRuns(p, arms.guard, arms.abody, arms.more, cx, m, x, st, c, fuel, r, o);
    } else {
      LastArmsRun(p, arms, cx, m, x, st, c, fuel, r, o);
    }
  }

  lemma {:induction false} LastArmsRun(p: Program, arms: Arms, cx: Ctx, m: Mode, x: Exits, st: State, c: Config, fuel: nat,
                                       r: Lowered, o: Outcome)
    requires !arms.Arm? && r == Code(Cases(arms), cx, m.tail, m.last)
    requires o == if arms.Else? then ScopedReading(arms.orelse, st, fuel, m, true) else Normal(st)
    requires Begin(p, cx, r.cx, st, c) && Placed(p, c.pc, r.frag, x) && ModeFits(m, x, r.frag)
    requires (arms.Else? ==> Own(All(arms.orelse))) && ExitsInCode(p, x)
    ensures Ran(p, cx, c, x, |cx.scopes| - 1, cx.scopes, c.pc + |r.frag.code|, o, fuel)
    decreases fuel, arms, 2
  {
    CodeUnfolds(Cases(arms), cx, m.tail, m.last);
    if arms.Else? {
      ElseRuns(p, arms.orelse, cx, m, x, st, c, fuel, r, o);
    } else {
      NothingRuns(p, cx, st, c);
    }
  }

  lemma {:induction false} ElseRuns(p: Program, b: Stmts, cx: Ctx, m: Mode, x: Exits, st: State, c: Config, fuel: nat,
                                    r: Lowered, o: Outcome)
    requires r == ScopedCode(b, cx, m.tail, m.last) && o == ScopedReading(b, st, fuel, m, true)
    requires Begin(p, cx, r.cx, st, c) && Placed(p, c.pc, r.frag, x) && ModeFits(m, x, r.frag)
    requires Own(All(b)) && ExitsInCode(p, x)
    ensures Ran(p, cx, c, x, |cx.scopes| - 1, cx.scopes, c.pc + |r.frag.code|, o, fuel)
    decreases fuel, b, 3
  {
    ScopedRuns(p, b, cx, m, x, st, c, fuel, r, o);
    RanWeaken(p, cx, c, x, |cx.scopes| - 1, cx.scopes, c.pc + |r.frag.code|, o, fuel);
  }

  /** The pieces of an arm: code of the guard, of the body, and of the remaining arms, `skip` behind the body's start. */
  datatype ArmCode = ArmCode(guard: ExprCode, body: Lowered, more: Lowered, skip: nat)

  ghost function ArmOf(e: Expr, b: Stmts, rest: Arms, cx: Ctx, m: Mode): ArmCode {
    var a := CodeOf(e, cx.scopes, cx.pool);
    var body := ScopedCode(b, cx.(pool := a.pool), m.tail, false);
    var more := Code(Cases(rest), body.cx, m.tail, m.last);
    ArmCode(a, body, more, |body.frag.code| + |ArmExit(body.frag.code, |more.frag.code|)|)
  }

  /** The contexts of the pieces grow from one to the next. */
  ghost predicate ArmGood(a: ArmCode, cx: Ctx) {
    && Grows(cx, cx.(pool := a.guard.pool))
    && GoodCtx(a.body.cx) && a.body.cx.scopes == cx.scopes && Grows(cx, a.body.cx)
    && Grows(a.body.cx, a.more.cx) && a.guard.pool <= a.body.cx.pool
  }

  /** The body and the remaining arms are lowered in these contexts. */
  ghost predicate ArmParts(a: ArmCode, b: Stmts, rest: Arms, cx: Ctx, m: Mode) {
    && a.body == ScopedCode(b, cx.(pool := a.guard.pool), m.tail, false)
    && a.more == Code(Cases(rest), a.body.cx, m.tail, m.last)
    && ArmGood(a, cx)
  }

  lemma ArmOfGood(e: Expr, b: Stmts, rest: Arms, cx: Ctx, m: Mode, a: ArmCode)
    requires GoodCtx(cx) && a == ArmOf(e, b, rest, cx, m)
    ensures ArmParts(a, b, rest, cx, m)
  {
    PoolGood(cx, a.guard.pool);
    ScopedCodeGood(b, cx.(pool := a.guard.pool), m.tail, false);
    GrowsTrans(cx, cx.(pool := a.guard.pool), a.body.cx);
    CodeGood(Cases(rest), a.body.cx, m.tail, m.last);
  }

  /** The body lies at `at`. */
  ghost predicate BodyLies(p: Program, a: ArmCode, rest: Arms, m: Mode, x: Exits, at: int) {
    && Placed(p, at, a.body.frag, ExitsBefore(a.more.frag, x))
    && ModeFits(ArmMode(m, rest), ExitsBefore(a.more.frag, x), a.body.frag)
  }

  /** Behind the body there is its exit jump, or, if its code ends in RET, at once the next arm. */
  ghost predicate MoreLies(p: Program, a: ArmCode, b: Stmts, m: Mode, x: Exits, at: int) {
    MorePlaced(p, a, b, m, x, at) && ModeFits(m, x, a.more.frag)
  }

  ghost predicate MorePlaced(p: Program, a: ArmCode, b: Stmts, m: Mode, x: Exits, at: int) {
    && Placed(p, at + a.skip, a.more.frag, x)
    && if ArmEndsInRet(b, m.tail) then a.skip == |a.body.frag.code|
       else a.skip == |a.body.frag.code| + 1 && CodeAt(p, at + |a.body.frag.code|, [Op1(JMP, |a.more.frag.code|)])
  }

  /** From the body's start to the arm's end. */
  function BodyLen(a: ArmCode): nat {
    a.skip + |a.more.frag.code|
  }

  /** Behind the body there is the exit jump, or at once the next arm. */
  lemma ExitPlaced(p: Program, b: Stmts, m: Mode, x: Exits, at: int, a: ArmCode, exit: seq<Instr>)
    requires EndsRet(a.body.frag.code) <==> ArmEndsInRet(b, m.tail)
    requires exit == ArmExit(a.body.frag.code, |a.more.frag.code|) && a.skip == |a.body.frag.code| + |exit|
    requires CodeAt(p, at + |a.body.frag.code|, exit) && Placed(p, at + a.skip, a.more.frag, x)
    ensures MorePlaced(p, a, b, m, x, at)
  {
  }

  /** The holes of the pieces, and how the body's code ends. */
  lemma ArmHoled(b: Stmts, rest: Arms, cx: Ctx, m: Mode, a: ArmCode)
    requires a.body == ScopedCode(b, cx.(pool := a.guard.pool), m.tail, false)
    requires a.more == Code(Cases(rest), a.body.cx, m.tail, m.last)
    ensures WellHoled(a.body.frag) && Holes(a.more.frag, BreakInArms(rest), ContinueInArms(rest))
    ensures EndsRet(a.body.frag.code) <==> ArmEndsInRet(b, m.tail)
  {
    CodeHoled(All(b), EnterScope(cx.(pool := a.guard.pool)), m.tail, false);
    BodyShape(b, EnterScope(cx.(pool := a.guard.pool)), m.tail);
    CasesHoles(rest, a.body.cx, m.tail, m.last);
  }

  lemma ArmModeFits(m: Mode, rest: Arms, x: Exits, test: seq<Instr>, body: Frag, more: Frag)
    requires WellHoled(body) && Holes(more, BreakInArms(rest), ContinueInArms(rest))
    requires ModeFits(m, x, JoinArm(test, body, more))
    ensures ModeFits(ArmMode(m, rest), ExitsBefore(more, x), body) && ModeFits(m, x, more)
  {
  }

  lemma {:induction false} ArmRuns(p: Program, e: Expr, b: Stmts, rest: Arms, cx: Ctx, m: Mode, x: Exits, st: State,
                                   c: Config, fuel: nat, r: Lowered, o: Outcome)
    requires r == Code(Cases(Arm(e, b, rest)), cx, m.tail, m.last) && UserExpr(e)
    requires o == GuardReading(ValueOf(e, st), b, rest, st, fuel, m, true)
    requires Begin(p, cx, r.cx, st, c) && Placed(p, c.pc, r.frag, x) && ModeFits(m, x, r.frag)
    requires Own(All(b)) && Own(Cases(rest)) && ExitsInCode(p, x)
    ensures Ran(p, cx, c, x, |cx.scopes| - 1, cx.scopes, c.pc + |r.frag.code|, o, fuel)
    decreases fuel, Arm(e, b, rest), 2
  {
    var a := ArmOf(e, b, rest, cx, m);
    ArmReady(p, e, b, rest, cx, m, x, c.pc, a, r);
    GuardRuns(p, e, cx, st, c, a);
    ArmGoesOn(p, e, b, rest, cx, m, x, st, c, fuel, a, o);
  }

  lemma ArmPlaced(p: Program, x: Exits, at: int, f: Frag, a: ArmCode, exit: seq<Instr>)
    requires WellHoled(a.body.frag) && WellHoled(a.more.frag) && a.skip == |a.body.frag.code| + |exit|
    requires f == Append(Append(Plain(a.guard.code + [Op1(JMP_IF_NOT, a.skip)]), a.body.frag), Append(Plain(exit), a.more.frag))
    requires Placed(p, at, f, x)
    ensures CodeAt(p, at, a.guard.code) && CodeAt(p, at + |a.guard.code|, [Op1(JMP_IF_NOT, a.skip)])
    ensures var start := at + |a.guard.code| + 1;
            && Placed(p, start, a.body.frag, ExitsBefore(a.more.frag, x))
            && CodeAt(p, start + |a.body.frag.code|, exit)
            && Placed(p, start + a.skip, a.more.frag, x)
  {
    PlacePieces(p, at, f, a.guard.code, Op1(JMP_IF_NOT, a.skip), a.body.frag, exit, a.more.frag, x);
  }

  /** The pieces of an arm lie behind one another. */
  lemma ArmLies(p: Program, b: Stmts, rest: Arms, m: Mode, x: Exits, at: int, a: ArmCode)
    requires WellHoled(a.body.frag) && Holes(a.more.frag, BreakInArms(rest), ContinueInArms(rest))
    requires EndsRet(a.body.frag.code) <==> ArmEndsInRet(b, m.tail)
    requires a.skip == |a.body.frag.code| + |ArmExit(a.body.frag.code, |a.more.frag.code|)|
    requires var f := JoinArm(a.guard.code, a.body.frag, a.more.frag); Placed(p, at, f, x) && ModeFits(m, x, f)
    ensures CodeAt(p, at, a.guard.code) && CodeAt(p, at + |a.guard.code|, [Op1(JMP_IF_NOT, a.skip)])
    ensures BodyLies(p, a, rest, m, x, at + |a.guard.code| + 1) && MoreLies(p, a, b, m, x, at + |a.guard.code| + 1)
  {
    var start := at + |a.guard.code| + 1;
    var exit := ArmExit(a.body.frag.code, |a.more.frag.code|);
    JoinArmPieces(a.guard.code, a.body.frag, a.more.frag, exit);
    ArmPlaced(p, x, at, JoinArm(a.guard.code, a.body.frag, a.more.frag), a, exit);
    ExitPlaced(p, b, m, x, start, a, exit);
    ArmModeFits(m, rest, x, a.guard.code, a.body.frag, a.more.frag);
  }

  lemma ArmReady(p: Program, e: Expr, b: Stmts, rest: Arms, cx: Ctx, m: Mode, x: Exits, at: int, a: ArmCode, r: Lowered)
    requires a == ArmOf(e, b, rest, cx, m) && r == Code(Cases(Arm(e, b, rest)), cx, m.tail, m.last)
    requires GoodCtx(cx) && Placed(p, at, r.frag, x) && ModeFits(m, x, r.frag)
    ensures a.guard == CodeOf(e, cx.scopes, cx.pool) && ArmParts(a, b, rest, cx, m) && r.cx == a.more.cx
    ensures CodeAt(p, at, a.guard.code) && CodeAt(p, at + |a.guard.code|, [Op1(JMP_IF_NOT, a.skip)])
    ensures BodyLies(p, a, rest, m, x, at + |a.guard.code| + 1) && MoreLies(p, a, b, m, x, at + |a.guard.code| + 1)
    ensures |r.frag.code| == |a.guard.code| + 1 + BodyLen(a)
  {
    CodeUnfolds(Cases(Arm(e, b, rest)), cx, m.tail, m.last);
    JoinArmLength(a.guard.code, a.body.frag, a.more.frag);
    ArmOfGood(e, b, rest, cx, m, a);
    ArmHoled(b, rest, cx, m, a);
    ArmLies(p, b, rest, m, x, at, a);
  }

  /** The guard has been computed. */
  lemma {:induction false} ArmGoesOn(p: Program, e: Expr, b: Stmts, rest: Arms, cx: Ctx, m: Mode, x: Exits, st: State,
                                     c: Config, fuel: nat, a: ArmCode, o: Outcome)
    requires ArmParts(a, b, rest, cx, m) && o == GuardReading(ValueOf(e, st), b, rest, st, fuel, m, true)
    requires Begin(p, cx, a.more.cx, st, c) && GuardRan(p, c, a, ValueOf(e, st))
    requires BodyLies(p, a, rest, m, x, c.pc + |a.guard.code| + 1) && MoreLies(p, a, b, m, x, c.pc + |a.guard.code| + 1)
    requires Own(All(b)) && Own(Cases(rest)) && ExitsInCode(p, x)
    ensures Ran(p, cx, c, x, |cx.scopes| - 1, cx.scopes, c.pc + |a.guard.code| + 1 + BodyLen(a), o, fuel)
    decreases fuel, Arm(e, b, rest), 1
  {
    var v := ValueOf(e, st);
    if v.V? {
      if Truthy(v.v) {
        ArmTaken(p, e, b, rest, cx, m, x, st, c, fuel, a, o);
      } else {
        ArmSkipped(p, b, rest, cx, m, x, st, c, fuel, a, o);
      }
    }
  }

  /** The guard's value decides where the arm goes on. */
  ghost predicate GuardRan(p: Program, c: Config, a: ArmCode, v: Answer) {
    match v
    case V(w) => Moves(p, c, c.(pc := c.pc + |a.guard.code| + 1 + if Truthy(w) then 0 else a.skip))
    case Failed => Stops(p, c, Error)
    case Unknown => true
  }

  /** The guard is computed; its jump skips the body unless it is true. */
  lemma GuardRuns(p: Program, e: Expr, cx: Ctx, st: State, c: Config, a: ArmCode)
    requires a.guard == CodeOf(e, cx.scopes, cx.pool) && a.guard.pool <= p.pool && UserExpr(e)
    requires Begin(p, cx, a.more.cx, st, c)
    requires 0 <= c.pc + |a.guard.code| + 1 + a.skip <= |p.code|
    requires CodeAt(p, c.pc, a.guard.code) && CodeAt(p, c.pc + |a.guard.code|, [Op1(JMP_IF_NOT, a.skip)])
    ensures GuardRan(p, c, a, ValueOf(e, st))
  {
    ValueRuns(p, e, cx, st, c);
    var v := ValueOf(e, st);
    if v.V? {
      BranchRuns(p, c, |a.guard.code|, JMP_IF_NOT, a.skip, v.v);
    }
  }

  lemma {:induction false} ArmTaken(p: Program, e: Expr, b: Stmts, rest: Arms, cx: Ctx, m: Mode, x: Exits, st: State,
                                    c: Config, fuel: nat, a: ArmCode, o: Outcome)
    requires ArmParts(a, b, rest, cx, m) && Begin(p, cx, a.more.cx, st, c)
    requires Own(All(b)) && Own(Cases(rest)) && ExitsInCode(p, x)
    requires o == ArmReading(true, b, rest, st, fuel, m, true)
    requires BodyLies(p, a, rest, m, x, c.pc + |a.guard.code| + 1)
    requires MoreLies(p, a, b, m, x, c.pc + |a.guard.code| + 1)
    requires Moves(p, c, c.(pc := c.pc + |a.guard.code| + 1))
    ensures Ran(p, cx, c, x, |cx.scopes| - 1, cx.scopes, c.pc + |a.guard.code| + 1 + BodyLen(a), o, fuel)
    decreases fuel, Arm(e, b, rest), 0
  {
    var d := c.(pc := c.pc + |a.guard.code| + 1);
    var ob := ScopedReading(b, st, fuel, ArmMode(m, rest), true);
    TakenBodyRuns(p, b, rest, cx, m, x, st, d, fuel, a, ob);
    AfterBody(p, b, rest, cx, m, x, st, d, fuel, a, ob, o);
    RanMoved(p, cx, c, d, x, cx.scopes, d.pc + BodyLen(a), o, fuel);
  }

  lemma {:induction false} ArmSkipped(p: Program, b: Stmts, rest: Arms, cx: Ctx, m: Mode, x: Exits, st: State,
                                      c: Config, fuel: nat, a: ArmCode, o: Outcome)
    requires ArmParts(a, b, rest, cx, m) && Begin(p, cx, a.more.cx, st, c)
    requires Own(Cases(rest)) && ExitsInCode(p, x)
    requires o == ArmReading(false, b, rest, st, fuel, m, true)
    requires MoreLies(p, a, b, m, x, c.pc + |a.guard.code| + 1)
    requires Moves(p, c, c.(pc := c.pc + |a.guard.code| + 1 + a.skip))
    ensures Ran(p, cx, c, x, |cx.scopes| - 1, cx.scopes, c.pc + |a.guard.code| + 1 + BodyLen(a), o, fuel)
    decreases fuel, rest, 5
  {
    var d := c.(pc := c.pc + |a.guard.code| + 1 + a.skip);
    NextArmRuns(p, b, rest, cx, m, x, st, st, c, d, fuel, a, o);
    RanMoved(p, cx, c, d, x, cx.scopes, d.pc + |a.more.frag.code|, o, fuel);
  }

  /** A jump to d that changes nothing else, then what happens from d. */
  lemma RanMoved(p: Program, cx: Ctx, c: Config, d: Config, x: Exits, after: Scopes, end: int, o: Outcome, fuel: nat)
    requires Moves(p, c, d) && d.locals == c.locals && |cx.scopes| >= 1
    requires Ran(p, cx, d, x, |cx.scopes| - 1, after, end, o, fuel)
    ensures Ran(p, cx, c, x, |cx.scopes| - 1, after, end, o, fuel)
  {
    MovesGoes(p, c, d);
    FrameSelf(cx, c.locals);
    RanResumed(p, cx, c, d, x, after, end, o, fuel);
  }

  /** A run to d in the same context, then what happens from d. */
  lemma RanResumed(p: Program, cx: Ctx, c: Config, d: Config, x: Exits, after: Scopes, end: int, o: Outcome, fuel: nat)
    requires Goes(p, c, d) && Frame(cx, c.locals, d.locals) && |cx.scopes| >= 1
    requires Ran(p, cx, d, x, |cx.scopes| - 1, after, end, o, fuel)
    ensures Ran(p, cx, c, x, |cx.scopes| - 1, after, end, o, fuel)
  {
    GrowsSelf(cx);
    RanBefore(p, cx, cx, c, d, x, |cx.scopes| - 1, after, end, o, fuel);
  }

  /** The remaining arms, from a state st1 in which the machine is at their start. */
  lemma {:induction false} NextArmRuns(p: Program, b: Stmts, rest: Arms, cx: Ctx, m: Mode, x: Exits, st: State, st1: State,
                                       c: Config, d: Config, fuel: nat, a: ArmCode, o: Outcome)
    requires ArmParts(a, b, rest, cx, m) && Begin(p, cx, a.more.cx, st, c) && d.stack == [] && d.globals == st1.globals
    requires |d.locals| == |c.locals| && Agree(cx.scopes, st1.env, d.locals)
    requires Placed(p, d.pc, a.more.frag, x) && ModeFits(m, x, a.more.frag) && Own(Cases(rest)) && ExitsInCode(p, x)
    requires o == Reading(Do(Cases(rest), m), st1, fuel, true)
    ensures Ran(p, cx, d, x, |cx.scopes| - 1, cx.scopes, d.pc + |a.more.frag.code|, o, fuel)
    decreases fuel, rest, 4
  {
    var k := |cx.scopes| - 1;
    BeginNext(p, cx, a.body.cx, a.more.cx, st, c, st1, d);
    ArmsRun(p, rest, a.body.cx, m, x, st1, d, fuel, a.more, o);
    Start(p, d);
    FrameSelf(cx, d.locals);
    RanBefore(p, cx, a.body.cx, d, d, x, k, cx.scopes, d.pc + |a.more.frag.code|, o, fuel);
  }

  lemma {:induction false} TakenBodyRuns(p: Program, b: Stmts, rest: Arms, cx: Ctx, m: Mode, x: Exits, st: State,
                                         c: Config, fuel: nat, a: ArmCode, o: Outcome)
    requires ArmParts(a, b, rest, cx, m) && Begin(p, cx, a.more.cx, st, c)
    requires o == ScopedReading(b, st, fuel, ArmMode(m, rest), true)
    requires Own(All(b)) && ExitsInCode(p, x) && BodyLies(p, a, rest, m, x, c.pc)
    ensures Ran(p, cx, c, ExitsBefore(a.more.frag, x), |cx.scopes| - 1, cx.scopes, c.pc + |a.body.frag.code|, o, fuel)
    decreases fuel, b, 3
  {
    var cx1 := cx.(pool := a.guard.pool);
    var x1 := ExitsBefore(a.more.frag, x);
    BodyBegins(p, cx, a, st, c);
    ScopedRuns(p, b, cx1, ArmMode(m, rest), x1, st, c, fuel, a.body, o);
    RanPool(p, cx, a.guard.pool, c, x1, cx.scopes, c.pc + |a.body.frag.code|, o, fuel);
  }

  lemma BodyBegins(p: Program, cx: Ctx, a: ArmCode, st: State, c: Config)
    requires ArmGood(a, cx) && Begin(p, cx, a.more.cx, st, c)
    ensures Begin(p, cx.(pool := a.guard.pool), a.body.cx, st, c)
  {
    BeginPart(p, cx, a.body.cx, a.more.cx, st, c);
    BeginPool(p, cx, a.guard.pool, a.body.cx, st, c);
  }

  /** The pool plays no part in what was run, and a statement promises one scope less than a body. */
  lemma RanPool(p: Program, cx: Ctx, pool: Pool, c: Config, x: Exits, after: Scopes, end: int, o: Outcome, fuel: nat)
    requires |cx.scopes| >= 1 && Ran(p, cx.(pool := pool), c, x, |cx.scopes|, after, end, o, fuel)
    requires Grows(cx, cx.(pool := pool))
    ensures Ran(p, cx, c, x, |cx.scopes| - 1, after, end, o, fuel)
  {
    var k := |cx.scopes| - 1;
    RanWeaken(p, cx.(pool := pool), c, x, k, after, end, o, fuel);
    Start(p, c);
    FrameSelf(cx, c.locals);
    RanBefore(p, cx, cx.(pool := pool), c, c, x, k, after, end, o, fuel);
  }

  /** After the body: the exit jump, or, if the body's code ends in RET, the next arm. */
  lemma {:induction false} AfterBody(p: Program, b: Stmts, rest: Arms, cx: Ctx, m: Mode, x: Exits, st: State,
                                     c: Config, fuel: nat, a: ArmCode, ob: Outcome, o: Outcome)
    requires ArmParts(a, b, rest, cx, m) && Begin(p, cx, a.more.cx, st, c)
    requires o == AfterArm(b, rest, ob, fuel, m, true)
    requires Own(Cases(rest)) && ExitsInCode(p, x) && MoreLies(p, a, b, m, x, c.pc)
    requires Ran(p, cx, c, ExitsBefore(a.more.frag, x), |cx.scopes| - 1, cx.scopes, c.pc + |a.body.frag.code|, ob, fuel)
    ensures Ran(p, cx, c, x, |cx.scopes| - 1, cx.scopes, c.pc + BodyLen(a), o, fuel)
    decreases fuel, rest, 6
  {
    if ob.Normal? {
      AfterNormal(p, b, rest, cx, m, x, st, c, fuel, a, ob.st, o);
    } else {
      ExitsAfter(p, cx, c, a.more.frag, x, |cx.scopes| - 1, cx.scopes, cx.scopes, c.pc + |a.body.frag.code|,
                 c.pc + BodyLen(a), ob, fuel);
    }
  }

  lemma {:induction false} AfterNormal(p: Program, b: Stmts, rest: Arms, cx: Ctx, m: Mode, x: Exits, st: State,
                                       c: Config, fuel: nat, a: ArmCode, st1: State, o: Outcome)
    requires ArmParts(a, b, rest, cx, m) && Begin(p, cx, a.more.cx, st, c)
    requires o == if ArmEndsInRet(b, m.tail) then Reading(Do(Cases(rest), m), st1, fuel, true) else Normal(st1)
    requires Own(Cases(rest)) && ExitsInCode(p, x) && MoreLies(p, a, b, m, x, c.pc)
    requires Arrives(p, c, c.pc + |a.body.frag.code|, cx, cx.scopes, st1.env, st1.globals)
    ensures Ran(p, cx, c, x, |cx.scopes| - 1, cx.scopes, c.pc + BodyLen(a), o, fuel)
    decreases fuel, rest, 5
  {
    var d := Resume(p, cx, c, c.pc + |a.body.frag.code|, cx.scopes, st1);
    if ArmEndsInRet(b, m.tail) {
      NextArmRuns(p, b, rest, cx, m, x, st, st1, c, d, fuel, a, o);
      RanResumed(p, cx, c, d, x, cx.scopes, c.pc + BodyLen(a), o, fuel);
    } else {
      ExitJumpRuns(p, cx, c, d, |a.more.frag.code|, st1);
    }
  }

  lemma ExitJumpRuns(p: Program, cx: Ctx, c: Config, d: Config, over: nat, st: State)
    requires Goes(p, c, d) && CodeAt(p, d.pc, [Op1(JMP, over)]) && over < TWO_31
    requires d.stack == [] && d.globals == st.globals && Frame(cx, c.locals, d.locals) && Agree(cx.scopes, st.env, d.locals)
    ensures Arrives(p, c, d.pc + 1 + over, cx, cx.scopes, st.env, st.globals)
  {
    var e := d.(pc := d.pc + 1 + over);
    JumpStep(p, d, over);
    GoesStep(p, c, d, e);
    ArrivesAt(p, cx, c, e, cx.scopes, st);
  }

  // ----- while and loop -----

  /** A loop without init and step: what an iteration that ran its body does next. s is the loop statement. */
  lemma {:induction false} LoopAgain(p: Program, s: Stmt, b: Stmts, cx: Ctx, m: Mode, x: Exits, st: State, c: Config,
                                     fuel: nat, r: Lowered, l: LoopParts, ob: Outcome, o: Outcome)
    requires s == Loop(b) || (s.While? && s.wbody == b)
    requires r == Code(One(s), cx, m.tail, m.last) && fuel > 0 && o == LoopAfter(s, ob, fuel, m, true)
    requires Begin(p, cx, r.cx, st, c) && Placed(p, c.pc, r.frag, x) && ModeFits(m, x, r.frag) && r.cx.scopes == cx.scopes
    requires l.init == [] && l.step == [] && LoopReady(p, c.pc, l, cx) && |r.frag.code| == LoopEnd(l)
    requires Own(One(s)) && ExitsInCode(p, x)
    requires Ran(p, cx, c, BodyExits(l, c.pc), |cx.scopes|, cx.scopes, c.pc + StepAt(l), ob, fuel)
    ensures Ran(p, cx, c, x, |cx.scopes| - 1, cx.scopes, c.pc + |r.frag.code|, o, fuel)
    decreases fuel, b, 1
  {
    if ob.Normal? || ob.Continued? {
      HeadReached(p, cx, c, BodyExits(l, c.pc), c.pc + StepAt(l), c.pc, ob, fuel);
      LoopReentered(p, s, b, cx, m, x, st, c, fuel, r, ob.st, o);
    } else {
      LoopExitRan(p, cx, c, BodyExits(l, c.pc), c.pc + StepAt(l), c.pc + LoopEnd(l), ob, fuel, x, |cx.scopes| - 1);
    }
  }

  lemma {:induction false} LoopReentered(p: Program, s: Stmt, b: Stmts, cx: Ctx, m: Mode, x: Exits, st: State, c: Config,
                                         fuel: nat, r: Lowered, st1: State, o: Outcome)
    requires s == Loop(b) || (s.While? && s.wbody == b)
    requires r == Code(One(s), cx, m.tail, m.last) && fuel > 0 && o == Reading(Do(One(s), m), st1, fuel - 1, true)
    requires Begin(p, cx, r.cx, st, c) && Placed(p, c.pc, r.frag, x) && ModeFits(m, x, r.frag) && r.cx.scopes == cx.scopes
    requires Own(One(s)) && ExitsInCode(p, x) && Jumps(p, c, c.pc, cx, cx.scopes, st1.env, st1.globals)
    ensures Ran(p, cx, c, x, |cx.scopes| - 1, cx.scopes, c.pc + |r.frag.code|, o, fuel)
    decreases fuel, b, 0
  {
    var again := Reenter(p, cx, c, c.pc, cx.scopes, st1);
    StmtRuns(p, s, cx, m, x, st1, again, fuel - 1, r, o);
    RanAgain(p, cx, c, again, x, |cx.scopes| - 1, cx.scopes, c.pc + |r.frag.code|, o, fuel);
  }

  lemma {:induction false} WhileRuns(p: Program, e: Expr, b: Stmts, cx: Ctx, m: Mode, x: Exits, st: State, c: Config,
                                     fuel: nat, a: ExprCode, body: Lowered, r: Lowered, o: Outcome)
    requires WhilePieces(e, b, cx, a, body) && r == Code(One(While(e, b)), cx, m.tail, m.last) == WhileLowered(a, body)
    requires o == if fuel == 0 then Timeout else WhileReading(e, b, st, fuel, m, true)
    requires Begin(p, cx, r.cx, st, c) && Placed(p, c.pc, r.frag, x) && ModeFits(m, x, r.frag) && ExitsInCode(p, x)
    requires UserExpr(e) && Own(All(b)) && Own(One(While(e, b)))
    ensures Ran(p, cx, c, x, |cx.scopes| - 1, r.cx.scopes, c.pc + |r.frag.code|, o, fuel)
    decreases fuel, While(e, b), 4
  {
    if fuel == 0 {
      RunsZero(p, c);
    } else {
      var l := WhileParts(a.code, body.frag);
      WhileReady(p, e, b, cx, c.pc, a, body, l);
      WhileTested(p, e, cx, st, c, a, body, l);
      var v := ValueOf(e, st);
      if v.V? {
        if Truthy(v.v) {
          WhileGoesOn(p, e, b, cx, m, x, st, c, fuel, a, body, r, l, o);
        } else {
          EndLoop(p, cx, c, c.pc + LoopEnd(l), st);
        }
      }
    }
  }

  ghost predicate WhilePieces(e: Expr, b: Stmts, cx: Ctx, a: ExprCode, body: Lowered) {
    a == CodeOf(e, cx.scopes, cx.pool) && body == ScopedCode(b, cx.(pool := a.pool), false, false)
  }

  /** The loop lies in the code; the contexts of its test and body grow out of its own. */
  lemma WhileReady(p: Program, e: Expr, b: Stmts, cx: Ctx, at: int, a: ExprCode, body: Lowered, l: LoopParts)
    requires WhilePieces(e, b, cx, a, body) && l == WhileParts(a.code, body.frag)
    requires GoodCtx(cx) && CodeAt(p, at, LoopCode(l)) && |p.code| < TWO_31
    ensures LoopReady(p, at, l, cx) && |LoopCode(l)| == LoopEnd(l)
    ensures Grows(cx, cx.(pool := a.pool)) && body.cx.scopes == cx.scopes && cx.pool <= a.pool <= body.cx.pool
  {
    PoolGood(cx, a.pool);
    ScopedCodeGood(b, cx.(pool := a.pool), false, false);
    CodeHoled(All(b), EnterScope(cx.(pool := a.pool)), false, false);
    LoopIsReady(p, at, l, cx);
  }

  /** The test's value decides between the body and the end of the loop. */
  lemma WhileTested(p: Program, e: Expr, cx: Ctx, st: State, c: Config, a: ExprCode, body: Lowered, l: LoopParts)
    requires a == CodeOf(e, cx.scopes, cx.pool) && a.pool <= p.pool && UserExpr(e)
    requires l.init == [] && l.test == a.code && l.exit == Some(JMP_IF_NOT) && l.pre == []
    requires LoopReady(p, c.pc, l, cx) && Begin(p, cx, body.cx, st, c)
    ensures var v := ValueOf(e, st);
            && (v.Failed? ==> Stops(p, c, Error))
            && (v.V? ==> Moves(p, c, c.(pc := c.pc + if Truthy(v.v) then BodyAt(l) else LoopEnd(l))))
  {
    ValueRuns(p, e, cx, st, c);
    var v := ValueOf(e, st);
    if v.V? {
      BranchRuns(p, c, |a.code|, JMP_IF_NOT, LoopEnd(l) - (|a.code| + 1), v.v);
    }
  }

  /** The test was true: the body runs, and then perhaps the loop again. */
  lemma {:induction false} WhileGoesOn(p: Program, e: Expr, b: Stmts, cx: Ctx, m: Mode, x: Exits, st: State, c: Config,
                                       fuel: nat, a: ExprCode, body: Lowered, r: Lowered, l: LoopParts, o: Outcome)
    requires body == ScopedCode(b, cx.(pool := a.pool), false, false) && l == WhileParts(a.code, body.frag)
    requires r == Code(One(While(e, b)), cx, m.tail, m.last) && |r.frag.code| == LoopEnd(l) && LoopReady(p, c.pc, l, cx)
    requires fuel > 0
    requires o == LoopAfter(While(e, b), ScopedReading(b, st, fuel, LOOP_BODY, true), fuel, m, true)
    requires Begin(p, cx, r.cx, st, c) && Placed(p, c.pc, r.frag, x) && ModeFits(m, x, r.frag) && ExitsInCode(p, x)
    requires r.cx == body.cx && body.cx.scopes == cx.scopes && Grows(cx, cx.(pool := a.pool)) && a.pool <= body.cx.pool
    requires Own(All(b)) && Own(One(While(e, b))) && Moves(p, c, c.(pc := c.pc + BodyAt(l)))
    ensures Ran(p, cx, c, x, |cx.scopes| - 1, cx.scopes, c.pc + |r.frag.code|, o, fuel)
    decreases fuel, While(e, b), 3
  {
    var ob := ScopedReading(b, st, fuel, LOOP_BODY, true);
    BeginPool(p, cx, a.pool, body.cx, st, c);
    WhileBody(p, b, cx, st, c, fuel, a, body, l, ob);
    LoopAgain(p, While(e, b), b, cx, m, x, st, c, fuel, r, l, ob, o);
  }

  lemma {:induction false} WhileBody(p: Program, b: Stmts, cx: Ctx, st: State, c: Config, fuel: nat, a: ExprCode,
                                     body: Lowered, l: LoopParts, ob: Outcome)
    requires body == ScopedCode(b, cx.(pool := a.pool), false, false) && ob == ScopedReading(b, st, fuel, LOOP_BODY, true)
    requires l == WhileParts(a.code, body.frag) && LoopReady(p, c.pc, l, cx)
    requires Begin(p, cx.(pool := a.pool), body.cx, st, c) && Grows(cx, cx.(pool := a.pool)) && Own(All(b))
    requires Moves(p, c, c.(pc := c.pc + BodyAt(l)))
    ensures Ran(p, cx, c, BodyExits(l, c.pc), |cx.scopes|, cx.scopes, c.pc + StepAt(l), ob, fuel)
    decreases fuel, b, 3
  {
    var d := c.(pc := c.pc + BodyAt(l));
    MovesGoes(p, c, d);
    FrameSelf(cx, c.locals);
    ScopedRuns(p, b, cx.(pool := a.pool), LOOP_BODY, BodyExits(l, c.pc), st, d, fuel, body, ob);
    RanBefore(p, cx, cx.(pool := a.pool), c, d, BodyExits(l, c.pc), |cx.scopes|, cx.scopes, c.pc + StepAt(l), ob, fuel);
  }

  lemma {:induction false} LoopRuns(p: Program, b: Stmts, cx: Ctx, m: Mode, x: Exits, st: State, c: Config, fuel: nat,
                                    r: Lowered, o: Outcome)
    requires r == Code(One(Loop(b)), cx, m.tail, m.last) == StmtLayer(Loop(b), cx, m.tail, m.last)
    requires o == StmtReading(Loop(b), st, fuel, m, true)
    requires Begin(p, cx, r.cx, st, c) && Placed(p, c.pc, r.frag, x) && ModeFits(m, x, r.frag) && ExitsInCode(p, x)
    requires Own(All(b)) && Own(One(Loop(b)))
    ensures Ran(p, cx, c, x, |cx.scopes| - 1, r.cx.scopes, c.pc + |r.frag.code|, o, fuel)
    decreases fuel, Loop(b), 4
  {
    var body := ScopedCode(b, cx, false, false);
    var l := EndlessParts(body.frag);
    ScopedCodeGood(b, cx, false, false);
    CodeHoled(All(b), EnterScope(cx), false, false);
    LoopIsReady(p, c.pc, l, cx);
    if fuel == 0 {
      RunsZero(p, c);
    } else {
      var ob := ScopedReading(b, st, fuel, LOOP_BODY, true);
      ScopedRuns(p, b, cx, LOOP_BODY, BodyExits(l, c.pc), st, c, fuel, body, ob);
      LoopAgain(p, Loop(b), b, cx, m, x, st, c, fuel, r, l, ob, o);
    }
  }


  // ----- for over a range -----

  lemma {:induction false} ForRangeRuns(p: Program, y: string, lo: Expr, hi: Expr, b: Stmts, cx: Ctx, x: Exits, st: State,
                                        c: Config, fuel: nat, r: Lowered, o: Outcome)
    requires r == RangeLayer(cx.next, RangeBounds(y, lo, hi, cx), b) && o == BoundsReading(y, lo, hi, b, st, fuel, true)
    requires Begin(p, cx, r.cx, st, c) && CodeAt(p, c.pc, r.frag.code)
    requires !Reserved(y) && UserExpr(lo) && UserExpr(hi) && Own(All(b))
    ensures Ran(p, cx, c, x, |cx.scopes| - 1, r.cx.scopes, c.pc + |r.frag.code|, o, fuel)
    decreases fuel, b, 9
  {
    var bounds := RangeBounds(y, lo, hi, cx);
    var cx2 := Allocate(bounds.cx, "__end");
    var body := ScopedCode(b, cx2, false, false);
    var l := RangeParts(cx.next, bounds, body);
    RangeReady(p, y, bounds, b, cx, cx2, body, l, c.pc);
    RangeBoundsRun(p, y, lo, hi, cx, bounds, st, c);
    var a := ValueOf(lo, SetTop(st, y, Unset));
    if a.V? {
      SetTopTwice(st, y, Unset, Set(a.v));
      var z := ValueOf(hi, SetTop(st, y, Set(a.v)));
      if z.V? {
        RangeEntered(p, y, bounds, b, cx, cx2, body, l, a.v, z.v, st, c, x, fuel, o);
      }
    }
  }

  lemma {:induction false} ForCountRuns(p: Program, y: string, n: int, b: Stmts, cx: Ctx, x: Exits, st: State,
                                        c: Config, fuel: nat, r: Lowered, o: Outcome)
    requires r == RangeLayer(cx.next, CountBounds(y, n, cx), b)
    requires o == Reading(Ranging(y, Int(Cut32(n)), b), SetTop(st, y, Set(Int(1))), fuel, true)
    requires Begin(p, cx, r.cx, st, c) && CodeAt(p, c.pc, r.frag.code)
    requires !Reserved(y) && Own(All(b))
    ensures Ran(p, cx, c, x, |cx.scopes| - 1, r.cx.scopes, c.pc + |r.frag.code|, o, fuel)
    decreases fuel, b, 9
  {
    var bounds := CountBounds(y, n, cx);
    var cx2 := Allocate(bounds.cx, "__end");
    var body := ScopedCode(b, cx2, false, false);
    var l := RangeParts(cx.next, bounds, body);
    RangeReady(p, y, bounds, b, cx, cx2, body, l, c.pc);
    CountBoundsRun(p, y, n, cx, bounds, c);
    RangeEntered(p, y, bounds, b, cx, cx2, body, l, Int(1), Int(Cut32(n)), st, c, x, fuel, o);
  }

  /** The bounds have been computed and stored: the loop runs. */
  lemma {:induction false} RangeEntered(p: Program, y: string, bounds: Bounds, b: Stmts, cx: Ctx, cx2: Ctx, body: Lowered,
                                        l: LoopParts, v: Value, w: Value, st: State, c: Config, x: Exits, fuel: nat,
                                        o: Outcome)
    requires RangePieces(y, bounds, b, cx, cx2, body, l) && LoopReady(p, c.pc, l, cx2) && Own(All(b))
    requires Begin(p, cx, WithConst(body.cx, Int(1)), st, c) && cx.next + 1 < |c.locals|
    requires Goes(p, c, c.(pc := c.pc + |bounds.lo| + |bounds.hi| + 2,
                           locals := c.locals[cx.next := v][cx.next + 1 := w]))
    requires o == Reading(Ranging(y, w, b), SetTop(st, y, Set(v)), fuel, true)
    ensures Ran(p, cx, c, x, |cx.scopes| - 1, cx2.scopes, c.pc + LoopEnd(l), o, fuel)
    decreases fuel, b, 8
  {
    var d := c.(pc := c.pc + |bounds.lo| + |bounds.hi| + 2, locals := c.locals[cx.next := v][cx.next + 1 := w]);
    RangeEnters(p, y, bounds, b, cx, cx2, body, l, v, w, st, c, d);
    RangeLoopRuns(p, c.pc, y, cx.next, cx.next + 1, b, body, l, cx2, w, SetTop(st, y, Set(v)), d, x, fuel, o);
    RanOuter(p, cx, cx2, c, d, x, cx2.scopes, c.pc + LoopEnd(l), o, fuel);
  }

  lemma {:induction false} RangeLoopRuns(p: Program, at: int, x: string, slot: nat, hid: nat, b: Stmts, body: Lowered,
                                         l: LoopParts, cx: Ctx, bound: Value, st: State, c: Config, xs: Exits, fuel: nat,
                                         o: Outcome)
    requires RangeShape(p, at, x, slot, hid, b, body, l, cx) && AtRangeHead(p, at, hid, bound, body, l, cx, st, c)
    requires o == Reading(Ranging(x, bound, b), st, fuel, true)
    ensures Ran(p, cx, c, xs, |cx.scopes| - 1, cx.scopes, at + LoopEnd(l), o, fuel)
    decreases fuel, b, 6
  {
    ReadingUnfolds(Ranging(x, bound, b), st, fuel, true);
    if fuel == 0 {
      RunsZero(p, c);
    } else {
      RangeTestRuns(p, at, x, slot, hid, b, body, l, cx, bound, st, c);
      var v := ReadVar(st, x);
      if v.V? {
        if AsInt(v.v) > AsInt(bound) {
          EndLoop(p, cx, c, at + LoopEnd(l), st);
        } else {
          var ob := ScopedReading(b, st, fuel, LOOP_BODY, true);
          var d := c.(pc := at + BodyAt(l));
          MovesGoes(p, c, d);
          FrameSelf(cx, c.locals);
          GrowsSelf(cx);
          LoopBodyRuns(p, at, b, cx, cx, st, c, d, fuel, body, l, ob);
          RangeAgain(p, at, x, slot, hid, b, body, l, cx, bound, st, c, xs, fuel, ob, o);
        }
      }
    }
  }

  /** The body of a loop, reached from c at d; cx0 is the context the loop answers to. */
  lemma {:induction false} LoopBodyRuns(p: Program, at: int, b: Stmts, cx0: Ctx, cx: Ctx, st: State, c: Config, d: Config,
                                        fuel: nat, body: Lowered, l: LoopParts, ob: Outcome)
    requires body == ScopedCode(b, cx, false, false) && l.body == body.frag && LoopReady(p, at, l, cx) && Own(All(b))
    requires ob == ScopedReading(b, st, fuel, LOOP_BODY, true)
    requires Begin(p, cx, body.cx, st, d) && d.pc == at + BodyAt(l)
    requires Goes(p, c, d) && Grows(cx0, cx) && Frame(cx0, c.locals, d.locals) && cx0.scopes == cx.scopes
    ensures Ran(p, cx0, c, BodyExits(l, at), |cx.scopes|, cx.scopes, at + StepAt(l), ob, fuel)
    decreases fuel, b, 3
  {
    ScopedRuns(p, b, cx, LOOP_BODY, BodyExits(l, at), st, d, fuel, body, ob);
    RanBefore(p, cx0, cx, c, d, BodyExits(l, at), |cx.scopes|, cx.scopes, at + StepAt(l), ob, fuel);
  }

  /** The body has run: increment and go on, or leave the loop. */
  lemma {:induction false} RangeAgain(p: Program, at: int, x: string, slot: nat, hid: nat, b: Stmts, body: Lowered,
                                      l: LoopParts, cx: Ctx, bound: Value, st: State, c: Config, xs: Exits, fuel: nat,
                                      ob: Outcome, o: Outcome)
    requires RangeShape(p, at, x, slot, hid, b, body, l, cx) && AtRangeHead(p, at, hid, bound, body, l, cx, st, c)
    requires fuel > 0 && o == RangeAfter(x, bound, b, ob, fuel, true)
    requires Ran(p, cx, c, BodyExits(l, at), |cx.scopes|, cx.scopes, at + StepAt(l), ob, fuel)
    ensures Ran(p, cx, c, xs, |cx.scopes| - 1, cx.scopes, at + LoopEnd(l), o, fuel)
    decreases fuel, b, 5
  {
    if ob.Normal? || ob.Continued? {
      StepReached(p, cx, c, BodyExits(l, at), at + StepAt(l), ob, fuel);
      RangeNextRuns(p, at, x, slot, hid, b, body, l, cx, bound, st, c, xs, fuel, ob.st, o);
    } else {
      LoopExitRan(p, cx, c, BodyExits(l, at), at + StepAt(l), at + LoopEnd(l), ob, fuel, xs, |cx.scopes| - 1);
    }
  }

  lemma {:induction false} RangeNextRuns(p: Program, at: int, x: string, slot: nat, hid: nat, b: Stmts, body: Lowered,
                                         l: LoopParts, cx: Ctx, bound: Value, st: State, c: Config, xs: Exits, fuel: nat,
                                         st1: State, o: Outcome)
    requires RangeShape(p, at, x, slot, hid, b, body, l, cx) && AtRangeHead(p, at, hid, bound, body, l, cx, st, c)
    requires fuel > 0 && o == RangeNext(x, bound, b, st1, fuel, true)
    requires Arrives(p, c, at + StepAt(l), cx, cx.scopes, st1.env, st1.globals)
    ensures Ran(p, cx, c, xs, |cx.scopes| - 1, cx.scopes, at + LoopEnd(l), o, fuel)
    decreases fuel, b, 4
  {
    var again := RangeStepRuns(p, at, x, slot, hid, b, body, l, cx, bound, st, c, st1);
    var z := ReadVar(st1, x);
    if z.V? {
      var st2 := SetTop(st1, x, Set(Int(Wrap64(AsInt(z.v) + 1))));
      RangeReentered(p, at, x, slot, hid, b, body, l, cx, bound, st2, c, again, xs, fuel, o);
    }
  }

  lemma {:induction false} RangeReentered(p: Program, at: int, x: string, slot: nat, hid: nat, b: Stmts, body: Lowered,
                                          l: LoopParts, cx: Ctx, bound: Value, st: State, c: Config, again: Config,
                                          xs: Exits, fuel: nat, o: Outcome)
    requires RangeShape(p, at, x, slot, hid, b, body, l, cx) && AtRangeHead(p, at, hid, bound, body, l, cx, st, again)
    requires Moves(p, c, again) && Frame(cx, c.locals, again.locals)
    requires fuel > 0 && o == Reading(Ranging(x, bound, b), st, fuel - 1, true)
    ensures Ran(p, cx, c, xs, |cx.scopes| - 1, cx.scopes, at + LoopEnd(l), o, fuel)
    decreases fuel, b, 3
  {
    RangeLoopRuns(p, at, x, slot, hid, b, body, l, cx, bound, st, again, xs, fuel - 1, o);
    RanAgain(p, cx, c, again, xs, |cx.scopes| - 1, cx.scopes, at + LoopEnd(l), o, fuel);
  }

  // ----- for over an array -----

  lemma {:induction false} ForEachRuns(p: Program, y: string, e: Expr, b: Stmts, cx: Ctx, x: Exits, st: State,
                                        c: Config, fuel: nat, a: ExprCode, body: Lowered, r: Lowered, o: Outcome)
    requires a == CodeOf(e, cx.scopes, cx.pool) && body == ScopedCode(b, EachCtx(y, cx.(pool := a.pool)), false, false)
    requires r == EachLowered(a, cx.next, body)
    requires o == (match ValueOf(e, st) case V(v) => EachStart(y, v, b, st, fuel, true) case other => Abort(other))
    requires Begin(p, cx, r.cx, st, c) && CodeAt(p, c.pc, r.frag.code)
    requires !Reserved(y) && UserExpr(e) && Own(All(b))
    ensures Ran(p, cx, c, x, |cx.scopes| - 1, r.cx.scopes, c.pc + |r.frag.code|, o, fuel)
    decreases fuel, b, 9
  {
    var cx4 := EachCtx(y, cx.(pool := a.pool));
    var l := EachParts(a, cx.next, body);
    EachReady(p, y, a, b, cx, cx4, body, l, c.pc);
    ValueRuns(p, e, cx, st, c);
    var v := ValueOf(e, st);
    if v.V? {
      EachBegins(p, y, a, b, cx, cx4, body, l, v.v, st, c, x, fuel, o);
    }
  }

  /** The array has been computed: it is stored with its length and the index 0, and the loop runs. */
  lemma {:induction false} EachBegins(p: Program, y: string, e: ExprCode, b: Stmts, cx: Ctx, cx4: Ctx, body: Lowered,
                                      l: LoopParts, a: Value, st: State, c: Config, x: Exits, fuel: nat, o: Outcome)
    requires EachPieces(y, e, b, cx, cx4, body, l) && LoopReady(p, c.pc, l, cx4) && Own(All(b))
    requires CodeAt(p, c.pc, l.init) && e.pool + [Int(0)] <= p.pool && Goes(p, c, After(c, |e.code|, a))
    requires Begin(p, cx, WithConst(body.cx, Int(1)), st, c) && cx.next + 4 <= |c.locals|
    requires o == EachStart(y, a, b, st, fuel, true)
    ensures Ran(p, cx, c, x, |cx.scopes| - 1, cx4.scopes, c.pc + LoopEnd(l), o, fuel)
    decreases fuel, b, 8
  {
    var d := EachInitRuns(p, c, e.code, cx.next, e.pool, a);
    var len := UnaryOp(ARRAY_LEN, a);
    if len.Some? {
      LengthFits(a);
      EachEnters(p, y, e, b, cx, cx4, body, l, a, AsInt(len.value), st, c, d);
      EachEntered(p, y, b, cx, cx4.(next := cx.next), cx4, body, l, a, AsInt(len.value), st, c, d, x, fuel, o);
    }
  }

  lemma LengthFits(v: Value)
    ensures var len := UnaryOp(ARRAY_LEN, v); len.Some? ==> len.value == Int(AsInt(len.value)) && AsInt(len.value) < TWO_63
  {
    WrapIsModulo(if v.Arr? then |v.elems| else if v.Str? then |v.s| else 0);
  }

  lemma {:induction false} EachEntered(p: Program, y: string, b: Stmts, cx: Ctx, cx0: Ctx, cx4: Ctx, body: Lowered,
                                       l: LoopParts, a: Value, len: int, st: State, c: Config, d: Config, x: Exits,
                                       fuel: nat, o: Outcome)
    requires EachShape(p, c.pc, y, cx.next, b, body, l, cx4)
    requires AtEachHead(p, c.pc, cx.next, a, len, 0, body, l, cx4, SetTop(st, y, Unset), d)
    requires cx0 == cx4.(next := cx.next) && Grows(cx, cx0) && Grows(cx0, cx4) && Frame(cx, c.locals, d.locals)
    requires Goes(p, c, d) && o == Reading(Visiting(y, a, len, 0, b), SetTop(st, y, Unset), fuel, true)
    ensures Ran(p, cx, c, x, |cx.scopes| - 1, cx4.scopes, c.pc + LoopEnd(l), o, fuel)
    decreases fuel, b, 7
  {
    EachLoopRuns(p, c.pc, y, cx.next, b, body, l, cx0, cx4, a, len, 0, SetTop(st, y, Unset), d, x, fuel, o);
    RanOuter(p, cx, cx0, c, d, x, cx4.scopes, c.pc + LoopEnd(l), o, fuel);
  }

  /** cx0 is cx without the hidden slots: their contents are the loop's own business. */
  lemma {:induction false} EachLoopRuns(p: Program, at: int, x: string, arr: nat, b: Stmts, body: Lowered, l: LoopParts,
                                        cx0: Ctx, cx: Ctx, a: Value, len: int, i: int, st: State, c: Config, xs: Exits,
                                        fuel: nat, o: Outcome)
    requires EachShape(p, at, x, arr, b, body, l, cx) && AtEachHead(p, at, arr, a, len, i, body, l, cx, st, c)
    requires cx0 == cx.(next := arr) && Grows(cx0, cx)
    requires o == Reading(Visiting(x, a, len, i, b), st, fuel, true)
    ensures Ran(p, cx0, c, xs, |cx.scopes| - 1, cx.scopes, at + LoopEnd(l), o, fuel)
    decreases fuel, b, 6
  {
    ReadingUnfolds(Visiting(x, a, len, i, b), st, fuel, true);
    if fuel == 0 {
      RunsZero(p, c);
    } else if i >= len {
      EachEnds(p, at, x, arr, b, body, l, cx0, cx, a, len, i, st, c);
    } else {
      var d := ElementRuns(p, at, x, arr, b, body, l, cx, a, len, i, st, c);
      var v := Element(a, i);
      if v.Some? {
        EachVisits(p, at, x, arr, b, body, l, cx0, cx, a, len, i, st, c, d, xs, fuel, v.value, o);
      }
    }
  }

  /** All indices have been visited. */
  lemma EachEnds(p: Program, at: int, x: string, arr: nat, b: Stmts, body: Lowered, l: LoopParts, cx0: Ctx, cx: Ctx,
                 a: Value, len: int, i: int, st: State, c: Config)
    requires EachShape(p, at, x, arr, b, body, l, cx) && AtEachHead(p, at, arr, a, len, i, body, l, cx, st, c)
    requires cx0.scopes == cx.scopes && i >= len
    ensures Arrives(p, c, at + LoopEnd(l), cx0, cx.scopes, st.env, st.globals)
  {
    TestRuns(p, at, l, cx, c, arr + 2, arr + 1, IGE, true);
    EndLoop(p, cx0, c, at + LoopEnd(l), st);
  }

  /** One element: the body runs with the loop variable equal to it. */
  lemma {:induction false} EachVisits(p: Program, at: int, x: string, arr: nat, b: Stmts, body: Lowered, l: LoopParts,
                                      cx0: Ctx, cx: Ctx, a: Value, len: int, i: int, st: State, c: Config, d: Config,
                                      xs: Exits, fuel: nat, v: Value, o: Outcome)
    requires EachShape(p, at, x, arr, b, body, l, cx) && AtEachHead(p, at, arr, a, len, i, body, l, cx, st, c) && i < len
    requires cx0 == cx.(next := arr) && Grows(cx0, cx) && fuel > 0
    requires Goes(p, c, d) && d == Config(at + BodyAt(l), [], c.locals[arr + 3 := v], c.globals)
    requires o == EachAfter(x, a, len, i, b, ScopedReading(b, SetTop(st, x, Set(v)), fuel, LOOP_BODY, true), fuel, true)
    ensures Ran(p, cx0, c, xs, |cx.scopes| - 1, cx.scopes, at + LoopEnd(l), o, fuel)
    decreases fuel, b, 5
  {
    var st1 := SetTop(st, x, Set(v));
    var ob := ScopedReading(b, st1, fuel, LOOP_BODY, true);
    TopSet(cx, st, c.locals, x, arr + 3, v);
    GrowsSelf(cx);
    LoopBodyRuns(p, at, b, cx, cx, st1, c, d, fuel, body, l, ob);
    EachAgain(p, at, x, arr, b, body, l, cx0, cx, a, len, i, st, c, xs, fuel, ob, o);
  }

  lemma {:induction false} EachAgain(p: Program, at: int, x: string, arr: nat, b: Stmts, body: Lowered, l: LoopParts,
                                     cx0: Ctx, cx: Ctx, a: Value, len: int, i: int, st: State, c: Config, xs: Exits,
                                     fuel: nat, ob: Outcome, o: Outcome)
    requires EachShape(p, at, x, arr, b, body, l, cx) && AtEachHead(p, at, arr, a, len, i, body, l, cx, st, c) && i < len
    requires cx0 == cx.(next := arr) && Grows(cx0, cx)
    requires fuel > 0 && o == EachAfter(x, a, len, i, b, ob, fuel, true)
    requires Ran(p, cx, c, BodyExits(l, at), |cx.scopes|, cx.scopes, at + StepAt(l), ob, fuel)
    ensures Ran(p, cx0, c, xs, |cx.scopes| - 1, cx.scopes, at + LoopEnd(l), o, fuel)
    decreases fuel, b, 4
  {
    if ob.Normal? || ob.Continued? {
      StepReached(p, cx, c, BodyExits(l, at), at + StepAt(l), ob, fuel);
      EachNext(p, at, x, arr, b, body, l, cx0, cx, a, len, i, st, c, xs, fuel, ob.st, o);
    } else {
      LoopExitRan(p, cx, c, BodyExits(l, at), at + StepAt(l), at + LoopEnd(l), ob, fuel, xs, |cx.scopes| - 1);
      Start(p, c);
      RanOuter(p, cx0, cx, c, c, xs, cx.scopes, at + LoopEnd(l), o, fuel);
    }
  }

  lemma {:induction false} EachNext(p: Program, at: int, x: string, arr: nat, b: Stmts, body: Lowered, l: LoopParts,
                                    cx0: Ctx, cx: Ctx, a: Value, len: int, i: int, st: State, c: Config, xs: Exits,
                                    fuel: nat, st1: State, o: Outcome)
    requires EachShape(p, at, x, arr, b, body, l, cx) && AtEachHead(p, at, arr, a, len, i, body, l, cx, st, c) && i < len
    requires cx0 == cx.(next := arr) && Grows(cx0, cx)
    requires fuel > 0 && o == Reading(Visiting(x, a, len, i + 1, b), st1, fuel - 1, true)
    requires Arrives(p, c, at + StepAt(l), cx, cx.scopes, st1.env, st1.globals)
    ensures Ran(p, cx0, c, xs, |cx.scopes| - 1, cx.scopes, at + LoopEnd(l), o, fuel)
    decreases fuel, b, 3
  {
    var again := EachStepRuns(p, cx0, at, x, arr, b, body, l, cx, a, len, i, st, c, st1);
    EachLoopRuns(p, at, x, arr, b, body, l, cx0, cx, a, len, i + 1, st1, again, xs, fuel - 1, o);
    RanAgain(p, cx0, c, again, xs, |cx.scopes| - 1, cx.scopes, at + LoopEnd(l), o, fuel);
  }
}
