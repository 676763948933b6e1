/**
 * Lowering and meaning, one construct at a time: the recursion below a construct is kept folded, so that
 * proofs by induction on the text see only the layer they are about.
 */
module Layers {
  import opened Values
  import opened Ast
  import opened Lowering
  import opened LoweringFacts
  import opened Semantics
  import Machine

  datatype Text = One(s: Stmt) | All(ss: Stmts) | Cases(arms: Arms)

  // ----- text without reserved names -----

  ghost predicate UserText(t: Text) {
    match t
    case One(s) => UserStmt(s)
    case All(ss) => UserStmts(ss)
    case Cases(arms) => UserArms(arms)
  }

  ghost predicate AreOwn(s: iset<Text>) {
    forall t {:trigger UserText(t)} :: t in s <==> UserText(t)
  }

  lemma OwnExist()
    ensures exists s :: AreOwn(s)
  {
    var s := iset t | UserText(t);
    assert AreOwn(s);
  }

  ghost function OwnTexts(): iset<Text> {
    OwnExist();
    var s :| AreOwn(s);
    s
  }

  ghost predicate Own(t: Text) {
    t in OwnTexts()
  }

  lemma OwnIs(t: Text)
    ensures Own(t) <==> UserText(t)
  {
    OwnExist();
  }

  /** The direct parts of own text are own text. */
  ghost predicate PartsOwn(t: Text) {
    match t
    case One(s) => StmtPartsOwn(s)
    case All(Empty) => true
    case All(Then(s, rest)) => Own(One(s)) && Own(All(rest))
    case Cases(NoElse) => true
    case Cases(Else(b)) => Own(All(b))
    case Cases(Arm(e, b, rest)) => UserExpr(e) && Own(All(b)) && Own(Cases(rest))
  }

  ghost predicate StmtPartsOwn(s: Stmt) {
    match s
    case Let(x, e) => !Reserved(x) && UserExpr(e)
    case Assign(x, e) => !Reserved(x) && UserExpr(e)
    case ExprStmt(e) => UserExpr(e)
    case Return(v) => v.Some? ==> UserExpr(v.value)
    case Break => true
    case Continue => true
    case Block(b) => Own(All(b))
    case If(arms) => Own(Cases(arms))
    case While(e, b) => UserExpr(e) && Own(All(b))
    case Loop(b) => Own(All(b))
    case ForRange(x, lo, hi, b) => !Reserved(x) && UserExpr(lo) && UserExpr(hi) && Own(All(b))
    case ForCount(x, _, b) => !Reserved(x) && Own(All(b))
    case ForEach(x, e, b) => !Reserved(x) && UserExpr(e) && Own(All(b))
  }

  lemma OwnUnfolds(t: Text)
    requires Own(t)
    ensures PartsOwn(t)
  {
    OwnExist();
    assert UserText(t);
    match t
    case One(s) => StmtOwnUnfolds(s);
    case All(ss) =>
      if ss.Then? {
        assert UserText(One(ss.first)) && UserText(All(ss.rest));
      }
    case Cases(arms) =>
      if arms.Else? {
        assert UserText(All(arms.orelse));
      } else if arms.Arm? {
        assert UserText(All(arms.abody)) && UserText(Cases(arms.more));
      }
  }

  lemma StmtOwnUnfolds(s: Stmt)
    requires UserStmt(s)
    ensures StmtPartsOwn(s)
  {
    OwnExist();
    match s
    case Block(b) => assert UserText(All(b));
    case If(arms) => assert UserText(Cases(arms));
    case While(e, b) => assert UserText(All(b));
    case Loop(b) => assert UserText(All(b));
    case ForRange(x, lo, hi, b) => assert UserText(All(b));
    case ForCount(x, _, b) => assert UserText(All(b));
    case ForEach(x, e, b) => assert UserText(All(b));
    case _ =>
  }

  // ----- lowering -----

  ghost function LowerText(t: Text, cx: Ctx, tail: bool, last: bool): Lowered {
    match t
    case One(s) => CompStmt(s, cx, tail, last)
    case All(ss) => CompAll(ss, cx, tail, last)
    case Cases(arms) => CompArms(arms, cx, tail, last)
  }

  type Lowerer = (Text, Ctx, bool, bool) -> Lowered

  ghost predicate IsLowerer(f: Lowerer) {
    forall t, cx, tail, last {:trigger LowerText(t, cx, tail, last)} :: f(t, cx, tail, last) == LowerText(t, cx, tail, last)
  }

  ghost function TheLowerer(): (f: Lowerer)
    ensures IsLowerer(f)
  {
    var g := (t: Text, cx: Ctx, tail: bool, last: bool) => LowerText(t, cx, tail, last);
    assert IsLowerer(g);
    var f: Lowerer :| IsLowerer(f);
    f
  }

  /** What the text is lowered to. */
  ghost function Code(t: Text, cx: Ctx, tail: bool, last: bool): Lowered {
    TheLowerer()(t, cx, tail, last)
  }

  ghost function ScopedCode(b: Stmts, cx: Ctx, tail: bool, last: bool): Lowered {
    LeaveScope(Code(All(b), EnterScope(cx), tail, last))
  }

  lemma CodeIs(t: Text, cx: Ctx, tail: bool, last: bool)
    ensures Code(t, cx, tail, last) == LowerText(t, cx, tail, last)
  {
  }

  lemma ScopedCodeIs(b: Stmts, cx: Ctx, tail: bool, last: bool)
    ensures ScopedCode(b, cx, tail, last) == CompScoped(b, cx, tail, last)
  {
    CodeIs(All(b), EnterScope(cx), tail, last);
  }

  /** One layer of lowering. */
  ghost function CodeLayer(t: Text, cx: Ctx, tail: bool, last: bool): Lowered {
    match t
    case One(s) => StmtLayer(s, cx, tail, last)
    case All(Empty) => Lowered(Plain([]), cx)
    case All(Then(s, rest)) =>
      var a := Code(One(s), cx, tail && rest.Empty?, last && !EmitsAhead(rest));
      var b := Code(All(rest), a.cx, tail, last);
      Lowered(Append(a.frag, b.frag), b.cx)
    case Cases(NoElse) => Lowered(Plain([]), cx)
    case Cases(Else(b)) => ScopedCode(b, cx, tail, last)
    case Cases(Arm(e, b, rest)) =>
      var a := CodeOf(e, cx.scopes, cx.pool);
      var body := ScopedCode(b, cx.(pool := a.pool), tail, false);
      var more := Code(Cases(rest), body.cx, tail, last);
      Lowered(JoinArm(a.code, body.frag, more.frag), more.cx)
  }

  ghost function StmtLayer(s: Stmt, cx: Ctx, tail: bool, last: bool): Lowered {
    match s
    case Let(x, e) => CompLet(x, e, cx)
    case Assign(x, e) => CompAssign(x, e, cx)
    case ExprStmt(e) => CompExprStmt(e, cx, tail || last)
    case Return(v) => if v.None? then Lowered(Plain([Op(Machine.RET_NULL)]), cx) else CompExprStmt(v.value, cx, true)
    case Break => Lowered(Frag([Op(Machine.JMP)], 0, -1), cx)
    case Continue => Lowered(Frag([Op(Machine.JMP)], -1, 0), cx)
    case Block(b) => Code(All(b), cx, tail, last)
    case If(arms) => Code(Cases(arms), cx, tail, last)
    case While(e, b) =>
      var a := CodeOf(e, cx.scopes, cx.pool);
      WhileLowered(a, ScopedCode(b, cx.(pool := a.pool), false, false))
    case Loop(b) => LoopLowered(ScopedCode(b, cx, false, false))
    case ForRange(x, lo, hi, b) => RangeLayer(cx.next, RangeBounds(x, lo, hi, cx), b)
    case ForCount(x, n, b) => RangeLayer(cx.next, CountBounds(x, n, cx), b)
    case ForEach(x, e, b) =>
      var a := CodeOf(e, cx.scopes, cx.pool);
      EachLowered(a, cx.next, ScopedCode(b, EachCtx(x, cx.(pool := a.pool)), false, false))
  }

  ghost function RangeLayer(slot: nat, bounds: Bounds, b: Stmts): Lowered {
    RangeLowered(slot, bounds, ScopedCode(b, Allocate(bounds.cx, "__end"), false, false))
  }

  lemma CodeUnfolds(t: Text, cx: Ctx, tail: bool, last: bool)
    ensures Code(t, cx, tail, last) == CodeLayer(t, cx, tail, last)
  {
    CodeIs(t, cx, tail, last);
    match t
    case One(s) => StmtUnfolds(s, cx, tail, last);
    case All(ss) =>
      if ss.Then? {
        var t1, l1 := tail && ss.rest.Empty?, last && !EmitsAhead(ss.rest);
        CodeIs(One(ss.first), cx, t1, l1);
        CodeIs(All(ss.rest), Code(One(ss.first), cx, t1, l1).cx, tail, last);
      }
    case Cases(arms) =>
      if arms.Else? {
        ScopedCodeIs(arms.orelse, cx, tail, last);
      } else if arms.Arm? {
        var cx1 := cx.(pool := CodeOf(arms.guard, cx.scopes, cx.pool).pool);
        ScopedCodeIs(arms.abody, cx1, tail, false);
        CodeIs(Cases(arms.more), ScopedCode(arms.abody, cx1, tail, false).cx, tail, last);
      }
  }

  lemma StmtUnfolds(s: Stmt, cx: Ctx, tail: bool, last: bool)
    ensures CompStmt(s, cx, tail, last) == StmtLayer(s, cx, tail, last)
  {
    match s
    case Block(b) => CodeIs(All(b), cx, tail, last);
    case If(arms) => CodeIs(Cases(arms), cx, tail, last);
    case While(e, b) => ScopedCodeIs(b, cx.(pool := CodeOf(e, cx.scopes, cx.pool).pool), false, false);
    case Loop(b) => ScopedCodeIs(b, cx, false, false);
    case ForRange(x, lo, hi, b) => ScopedCodeIs(b, Allocate(RangeBounds(x, lo, hi, cx).cx, "__end"), false, false);
    case ForCount(x, n, b) => ScopedCodeIs(b, Allocate(CountBounds(x, n, cx).cx, "__end"), false, false);
    case ForEach(x, e, b) =>
      ScopedCodeIs(b, EachCtx(x, cx.(pool := CodeOf(e, cx.scopes, cx.pool).pool)), false, false);
    case _ =>
  }

  // ----- static facts, as the proofs below use them -----

  lemma CodeGood(t: Text, cx: Ctx, tail: bool, last: bool)
    requires GoodCtx(cx)
    ensures var r := Code(t, cx, tail, last).cx;
            GoodCtx(r) && Grows(cx, r) && (t.Cases? ==> r.scopes == cx.scopes)
  {
    CodeIs(t, cx, tail, last);
    match t
    case One(s) => StmtGood(s, cx, tail, last);
    case All(ss) => AllGood(ss, cx, tail, last);
    case Cases(arms) => ArmsGood(arms, cx, tail, last);
  }

  lemma ScopedCodeGood(b: Stmts, cx: Ctx, tail: bool, last: bool)
    requires GoodCtx(cx)
    ensures var r := ScopedCode(b, cx, tail, last).cx; GoodCtx(r) && Grows(cx, r) && r.scopes == cx.scopes
  {
    ScopedCodeIs(b, cx, tail, last);
    ScopedBodyGood(b, cx, tail, last);
  }

  lemma CodeHoled(t: Text, cx: Ctx, tail: bool, last: bool)
    ensures WellHoled(Code(t, cx, tail, last).frag)
  {
    CodeIs(t, cx, tail, last);
    match t
    case One(s) => StmtHoles(s, cx, tail, last);
    case All(ss) => AllHoles(ss, cx, tail, last);
    case Cases(arms) => ArmsHoles(arms, cx, tail, last);
  }

  lemma AllCodeHoles(ss: Stmts, cx: Ctx, tail: bool, last: bool)
    ensures Holes(Code(All(ss), cx, tail, last).frag, BreakAhead(ss), ContinueAhead(ss))
  {
    CodeIs(All(ss), cx, tail, last);
    AllHoles(ss, cx, tail, last);
    StmtsText(ss, tail);
  }

  lemma CasesHoles(arms: Arms, cx: Ctx, tail: bool, last: bool)
    ensures Holes(Code(Cases(arms), cx, tail, last).frag, BreakInArms(arms), ContinueInArms(arms))
  {
    CodeIs(Cases(arms), cx, tail, last);
    ArmsHoles(arms, cx, tail, last);
    ArmsText(arms);
  }

  lemma BodyShape(b: Stmts, cx: Ctx, tail: bool)
    ensures EndsRet(Code(All(b), cx, tail, false).frag.code) <==> ArmEndsInRet(b, tail)
  {
    CodeIs(All(b), cx, tail, false);
    AllShape(b, cx, tail, false);
    StmtsText(b, tail);
  }

  // ----- meaning -----

  /** Everything that is run: a text in a mode, or the rest of a for loop. */
  datatype Task =
    | Do(t: Text, m: Mode)
    | Ranging(x: string, bound: Value, b: Stmts)
    | Visiting(w: string, a: Value, len: int, i: int, eb: Stmts)

  ghost function ExecTask(k: Task, st: State, fuel: nat, asBuilt: bool): Outcome {
    match k
    case Do(One(s), m) => Exec(s, st, fuel, m, asBuilt)
    case Do(All(ss), m) => ExecAll(ss, st, fuel, m, asBuilt)
    case Do(Cases(arms), m) => ExecArms(arms, st, fuel, m, asBuilt)
    case Ranging(x, bound, b) => RangeLoop(x, bound, b, st, fuel, asBuilt)
    case Visiting(x, a, len, i, b) => EachLoop(x, a, len, i, b, st, fuel, asBuilt)
  }

  type Runner = (Task, State, nat, bool) -> Outcome

  ghost predicate IsRunner(f: Runner) {
    forall k, st, fuel, asBuilt {:trigger ExecTask(k, st, fuel, asBuilt)} ::
      f(k, st, fuel, asBuilt) == ExecTask(k, st, fuel, asBuilt)
  }

  ghost function TheRunner(): (f: Runner)
    ensures IsRunner(f)
  {
    var g := (k: Task, st: State, fuel: nat, asBuilt: bool) => ExecTask(k, st, fuel, asBuilt);
    assert IsRunner(g);
    var f: Runner :| IsRunner(f);
    f
  }

  /** What running k does, in the built or in the documented reading. */
  ghost function Reading(k: Task, st: State, fuel: nat, asBuilt: bool): Outcome {
    TheRunner()(k, st, fuel, asBuilt)
  }

  ghost function ScopedReading(b: Stmts, st: State, fuel: nat, m: Mode, asBuilt: bool): Outcome {
    Leave(Reading(Do(All(b), m), Enter(st), fuel, asBuilt))
  }

  lemma ReadingIs(k: Task, st: State, fuel: nat, asBuilt: bool)
    ensures Reading(k, st, fuel, asBuilt) == ExecTask(k, st, fuel, asBuilt)
  {
  }

  lemma ScopedReadingIs(b: Stmts, st: State, fuel: nat, m: Mode, asBuilt: bool)
    ensures ScopedReading(b, st, fuel, m, asBuilt) == Scoped(b, st, fuel, m, asBuilt)
  {
    ReadingIs(Do(All(b), m), Enter(st), fuel, asBuilt);
  }

  /** One layer of meaning. */
  ghost function ReadingLayer(k: Task, st: State, fuel: nat, asBuilt: bool): Outcome {
    match k
    case Do(One(s), m) => StmtReading(s, st, fuel, m, asBuilt)
    case Do(All(Empty), m) => Normal(st)
    case Do(All(Then(s, rest)), m) =>
      ThenReading(rest, Reading(Do(One(s), FirstMode(m, rest)), st, fuel, asBuilt), fuel, m, asBuilt)
    case Do(Cases(NoElse), m) => Normal(st)
    case Do(Cases(Else(b)), m) => ScopedReading(b, st, fuel, m, asBuilt)
    case Do(Cases(Arm(e, b, rest)), m) =>
      GuardReading(ValueOf(e, st), b, rest, st, fuel, m, asBuilt)
    case Ranging(x, bound, b) => if fuel == 0 then Timeout else RangeReading(x, bound, b, st, fuel, asBuilt)
    case Visiting(x, a, len, i, b) => if fuel == 0 then Timeout else EachReading(x, a, len, i, b, st, fuel, asBuilt)
  }

  /** The statements after one that had outcome o. */
  ghost function ThenReading(rest: Stmts, o: Outcome, fuel: nat, m: Mode, asBuilt: bool): Outcome {
    if o.Normal? then Reading(Do(All(rest), m), o.st, fuel, asBuilt) else o
  }

  /** An arm whose guard has the answer a. */
  ghost function GuardReading(a: Answer, b: Stmts, rest: Arms, st: State, fuel: nat, m: Mode, asBuilt: bool): Outcome {
    if !a.V? then Abort(a) else ArmReading(Truthy(a.v), b, rest, st, fuel, m, asBuilt)
  }

  ghost function ArmReading(taken: bool, b: Stmts, rest: Arms, st: State, fuel: nat, m: Mode, asBuilt: bool): Outcome {
    if taken then AfterArm(b, rest, ScopedReading(b, st, fuel, ArmMode(m, rest), asBuilt), fuel, m, asBuilt)
    else Reading(Do(Cases(rest), m), st, fuel, asBuilt)
  }

  ghost function AfterArm(b: Stmts, rest: Arms, o: Outcome, fuel: nat, m: Mode, asBuilt: bool): Outcome {
    if o.Normal? && asBuilt && ArmEndsInRet(b, m.tail) then Reading(Do(Cases(rest), m), o.st, fuel, asBuilt) else o
  }

  ghost function StmtReading(s: Stmt, st: State, fuel: nat, m: Mode, asBuilt: bool): Outcome {
    match s
    case Let(x, e) => LetReading(x, ValueOf(e, st), st)
    case Assign(x, e) => AssignReading(x, ValueOf(e, st), st)
    case ExprStmt(e) => ExprReading(ValueOf(e, st), st, m.tail || (asBuilt && m.last))
    case Return(v) => if v.None? then Returned(Nil, st.globals) else ExprReading(ValueOf(v.value, st), st, true)
    case Break => if asBuilt && m.brk then Normal(st) else Broke(st)
    case Continue => if asBuilt && m.cont then Normal(st) else Continued(st)
    case Block(b) => Reading(Do(All(b), m), st, fuel, asBuilt)
    case If(arms) => Reading(Do(Cases(arms), m), st, fuel, asBuilt)
    case While(e, b) => if fuel == 0 then Timeout else WhileReading(e, b, st, fuel, m, asBuilt)
    case Loop(b) =>
      if fuel == 0 then Timeout
      else LoopAfter(s, ScopedReading(b, st, fuel, LOOP_BODY, asBuilt), fuel, m, asBuilt)
    case ForRange(x, lo, hi, b) => BoundsReading(x, lo, hi, b, st, fuel, asBuilt)
    case ForCount(x, n, b) => Reading(Ranging(x, Int(Cut32(n)), b), SetTop(st, x, Set(Int(1))), fuel, asBuilt)
    case ForEach(x, e, b) =>
      var a := ValueOf(e, st);
      if !a.V? then Abort(a) else EachStart(x, a.v, b, st, fuel, asBuilt)
  }

  function LetReading(x: string, a: Answer, st: State): Outcome {
    if a.V? then Normal(SetTop(st, x, Set(a.v))) else Abort(a)
  }

  function AssignReading(x: string, a: Answer, st: State): Outcome {
    if a.V? then Normal(Update(st, x, a.v)) else Abort(a)
  }

  function ExprReading(a: Answer, st: State, result: bool): Outcome {
    if !a.V? then Abort(a) else if result then Returned(a.v, st.globals) else Normal(st)
  }

  ghost function WhileReading(e: Expr, b: Stmts, st: State, fuel: nat, m: Mode, asBuilt: bool): Outcome
    requires fuel > 0
  {
    var a := ValueOf(e, st);
    if !a.V? then Abort(a)
    else if !Truthy(a.v) then Normal(st)
    else LoopAfter(While(e, b), ScopedReading(b, st, fuel, LOOP_BODY, asBuilt), fuel, m, asBuilt)
  }

  /** The loop s after an iteration with outcome o. */
  ghost function LoopAfter(s: Stmt, o: Outcome, fuel: nat, m: Mode, asBuilt: bool): Outcome
    requires fuel > 0
  {
    if o.Normal? || o.Continued? then Reading(Do(One(s), m), o.st, fuel - 1, asBuilt) else LoopExit(o)
  }

  ghost function BoundsReading(x: string, lo: Expr, hi: Expr, b: Stmts, st: State, fuel: nat, asBuilt: bool): Outcome {
    var st0 := SetTop(st, x, Unset);
    var a := ValueOf(lo, st0);
    if !a.V? then Abort(a)
    else
      var st1 := SetTop(st0, x, Set(a.v));
      var z := ValueOf(hi, st1);
      if !z.V? then Abort(z) else Reading(Ranging(x, z.v, b), st1, fuel, asBuilt)
  }

  ghost function RangeReading(x: string, bound: Value, b: Stmts, st: State, fuel: nat, asBuilt: bool): Outcome
    requires fuel > 0
  {
    var a := ReadVar(st, x);
    if !a.V? then Abort(a)
    else if AsInt(a.v) > AsInt(bound) then Normal(st)
    else RangeAfter(x, bound, b, ScopedReading(b, st, fuel, LOOP_BODY, asBuilt), fuel, asBuilt)
  }

  ghost function RangeAfter(x: string, bound: Value, b: Stmts, o: Outcome, fuel: nat, asBuilt: bool): Outcome
    requires fuel > 0
  {
    if o.Normal? || o.Continued? then RangeNext(x, bound, b, o.st, fuel, asBuilt) else LoopExit(o)
  }

  /** The loop variable is incremented, and the loop goes on. */
  ghost function RangeNext(x: string, bound: Value, b: Stmts, st: State, fuel: nat, asBuilt: bool): Outcome
    requires fuel > 0
  {
    var z := ReadVar(st, x);
    if !z.V? then Abort(z)
    else Reading(Ranging(x, bound, b), SetTop(st, x, Set(Int(Wrap64(AsInt(z.v) + 1)))), fuel - 1, asBuilt)
  }

  ghost function EachStart(x: string, a: Value, b: Stmts, st: State, fuel: nat, asBuilt: bool): Outcome {
    match Machine.UnaryOp(Machine.ARRAY_LEN, a)
    case None => Crashed
    case Some(len) => Reading(Visiting(x, a, AsInt(len), 0, b), SetTop(st, x, Unset), fuel, asBuilt)
  }

  ghost function EachReading(x: string, a: Value, len: int, i: int, b: Stmts, st: State, fuel: nat, asBuilt: bool): Outcome
    requires fuel > 0
  {
    if i >= len then Normal(st)
    else
      match Machine.Element(a, i)
      case None => Crashed
      case Some(v) =>
        EachAfter(x, a, len, i, b, ScopedReading(b, SetTop(st, x, Set(v)), fuel, LOOP_BODY, asBuilt), fuel, asBuilt)
  }

  ghost function EachAfter(x: string, a: Value, len: int, i: int, b: Stmts, o: Outcome, fuel: nat, asBuilt: bool): Outcome
    requires fuel > 0
  {
    if o.Normal? || o.Continued? then Reading(Visiting(x, a, len, i + 1, b), o.st, fuel - 1, asBuilt) else LoopExit(o)
  }

  lemma ReadingUnfolds(k: Task, st: State, fuel: nat, asBuilt: bool)
    ensures Reading(k, st, fuel, asBuilt) == ReadingLayer(k, st, fuel, asBuilt)
  {
    ReadingIs(k, st, fuel, asBuilt);
    if k.Ranging? {
      RangingUnfolds(k.x, k.bound, k.b, st, fuel, asBuilt);
    } else if k.Visiting? {
      VisitingUnfolds(k.w, k.a, k.len, k.i, k.eb, st, fuel, asBuilt);
    } else if k.t.One? {
      StmtReadingUnfolds(k.t.s, st, fuel, k.m, asBuilt);
    } else if k.t.All? {
      AllUnfolds(k.t.ss, st, fuel, k.m, asBuilt);
    } else {
      CasesUnfold(k.t.arms, st, fuel, k.m, asBuilt);
    }
  }

  lemma AllUnfolds(ss: Stmts, st: State, fuel: nat, m: Mode, asBuilt: bool)
    ensures ExecAll(ss, st, fuel, m, asBuilt) == ReadingLayer(Do(All(ss), m), st, fuel, asBuilt)
  {
    if ss.Then? {
      var o := Exec(ss.first, st, fuel, FirstMode(m, ss.rest), asBuilt);
      ReadingIs(Do(One(ss.first), FirstMode(m, ss.rest)), st, fuel, asBuilt);
      if o.Normal? {
        ReadingIs(Do(All(ss.rest), m), o.st, fuel, asBuilt);
      }
    }
  }

  lemma CasesUnfold(arms: Arms, st: State, fuel: nat, m: Mode, asBuilt: bool)
    ensures ExecArms(arms, st, fuel, m, asBuilt) == ReadingLayer(Do(Cases(arms), m), st, fuel, asBuilt)
  {
    match arms
    case NoElse =>
    case Else(b) => ScopedReadingIs(b, st, fuel, m, asBuilt);
    case Arm(e, b, rest) =>
      ScopedReadingIs(b, st, fuel, ArmMode(m, rest), asBuilt);
      ReadingIs(Do(Cases(rest), m), st, fuel, asBuilt);
      var o := Scoped(b, st, fuel, ArmMode(m, rest), asBuilt);
      if o.Normal? {
        ReadingIs(Do(Cases(rest), m), o.st, fuel, asBuilt);
      }
  }

  lemma StmtReadingUnfolds(s: Stmt, st: State, fuel: nat, m: Mode, asBuilt: bool)
    ensures Exec(s, st, fuel, m, asBuilt) == StmtReading(s, st, fuel, m, asBuilt)
  {
    match s
    case Block(b) => ReadingIs(Do(All(b), m), st, fuel, asBuilt);
    case If(arms) => ReadingIs(Do(Cases(arms), m), st, fuel, asBuilt);
    case While(e, b) => LoopUnfolds(s, b, st, fuel, m, asBuilt);
    case Loop(b) => LoopUnfolds(s, b, st, fuel, m, asBuilt);
    case ForRange(x, lo, hi, b) =>
      var st0 := SetTop(st, x, Unset);
      var a := ValueOf(lo, st0);
      if a.V? {
        var st1 := SetTop(st0, x, Set(a.v));
        var z := ValueOf(hi, st1);
        if z.V? {
          ReadingIs(Ranging(x, z.v, b), st1, fuel, asBuilt);
        }
      }
    case ForCount(x, n, b) => ReadingIs(Ranging(x, Int(Cut32(n)), b), SetTop(st, x, Set(Int(1))), fuel, asBuilt);
    case ForEach(x, e, b) =>
      var a := ValueOf(e, st);
      if a.V? {
        EachStartIs(x, a.v, b, st, fuel, asBuilt);
      }
    case _ =>
  }

  lemma EachStartIs(x: string, a: Value, b: Stmts, st: State, fuel: nat, asBuilt: bool)
    ensures EachStart(x, a, b, st, fuel, asBuilt)
         == match Machine.UnaryOp(Machine.ARRAY_LEN, a)
            case None => Crashed
            case Some(len) => EachLoop(x, a, AsInt(len), 0, b, SetTop(st, x, Unset), fuel, asBuilt)
  {
    var r := Machine.UnaryOp(Machine.ARRAY_LEN, a);
    if r.Some? {
      ReadingIs(Visiting(x, a, AsInt(r.value), 0, b), SetTop(st, x, Unset), fuel, asBuilt);
    }
  }

  lemma LoopUnfolds(s: Stmt, b: Stmts, st: State, fuel: nat, m: Mode, asBuilt: bool)
    requires s == Loop(b) || (s.While? && s.wbody == b)
    ensures Exec(s, st, fuel, m, asBuilt) == StmtReading(s, st, fuel, m, asBuilt)
  {
    if fuel > 0 {
      ScopedReadingIs(b, st, fuel, LOOP_BODY, asBuilt);
      var o := Scoped(b, st, fuel, LOOP_BODY, asBuilt);
      if o.Normal? || o.Continued? {
        ReadingIs(Do(One(s), m), o.st, fuel - 1, asBuilt);
      }
    }
  }

  lemma RangingUnfolds(x: string, bound: Value, b: Stmts, st: State, fuel: nat, asBuilt: bool)
    ensures RangeLoop(x, bound, b, st, fuel, asBuilt)
         == if fuel == 0 then Timeout else RangeReading(x, bound, b, st, fuel, asBuilt)
  {
    if fuel > 0 {
      ScopedReadingIs(b, st, fuel, LOOP_BODY, asBuilt);
      RangeAfterIs(x, bound, b, Scoped(b, st, fuel, LOOP_BODY, asBuilt), fuel, asBuilt);
    }
  }

  lemma RangeAfterIs(x: string, bound: Value, b: Stmts, o: Outcome, fuel: nat, asBuilt: bool)
    requires fuel > 0
    ensures RangeAfter(x, bound, b, o, fuel, asBuilt)
         == if o.Normal? || o.Continued? then
              var z := ReadVar(o.st, x);
              if !z.V? then Abort(z)
              else RangeLoop(x, bound, b, SetTop(o.st, x, Set(Int(Wrap64(AsInt(z.v) + 1)))), fuel - 1, asBuilt)
            else LoopExit(o)
  {
    if o.Normal? || o.Continued? {
      var z := ReadVar(o.st, x);
      if z.V? {
        ReadingIs(Ranging(x, bound, b), SetTop(o.st, x, Set(Int(Wrap64(AsInt(z.v) + 1)))), fuel - 1, asBuilt);
      }
    }
  }

  lemma VisitingUnfolds(x: string, a: Value, len: int, i: int, b: Stmts, st: State, fuel: nat, asBuilt: bool)
    ensures EachLoop(x, a, len, i, b, st, fuel, asBuilt) == ReadingLayer(Visiting(x, a, len, i, b), st, fuel, asBuilt)
  {
    if fuel > 0 && i < len {
      var r := Machine.Element(a, i);
      if r.Some? {
        var st1 := SetTop(st, x, Set(r.value));
        ScopedReadingIs(b, st1, fuel, LOOP_BODY, asBuilt);
        var o := Scoped(b, st1, fuel, LOOP_BODY, asBuilt);
        if o.Normal? || o.Continued? {
          ReadingIs(Visiting(x, a, len, i + 1, b), o.st, fuel - 1, asBuilt);
        }
      }
    }
  }
}
