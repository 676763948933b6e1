/** Static facts about emitted code: shape, jump holes, slots and scopes. */
module LoweringFacts {
  import opened Values
  import opened Ast
  import opened Machine
  import opened Lowering

  // ----- unpatched jumps -----

  /** The recorded indices, if any, are those of distinct JMP instructions. */
  predicate WellHoled(f: Frag) {
    && -1 <= f.brk < |f.code| && -1 <= f.cont < |f.code|
    && (f.brk >= 0 ==> f.code[f.brk] == Op(JMP)) && (f.cont >= 0 ==> f.code[f.cont] == Op(JMP))
    && (f.brk >= 0 && f.cont >= 0 ==> f.brk != f.cont)
  }

  /** They exist exactly when the text has the jump. */
  predicate Holes(f: Frag, brk: bool, cont: bool) {
    WellHoled(f) && (f.brk >= 0 <==> brk) && (f.cont >= 0 <==> cont)
  }

  lemma AppendWell(a: Frag, b: Frag)
    requires WellHoled(a) && WellHoled(b)
    ensures WellHoled(Append(a, b))
  {
  }

  lemma AppendHoles(a: Frag, b: Frag, brk1: bool, cont1: bool, brk2: bool, cont2: bool)
    requires Holes(a, brk1, cont1) && Holes(b, brk2, cont2)
    ensures Holes(Append(a, b), brk1 || brk2, cont1 || cont2)
  {
    AppendWell(a, b);
  }

  lemma {:induction false} StmtHoles(s: Stmt, cx: Ctx, tail: bool, last: bool)
    ensures Holes(CompStmt(s, cx, tail, last).frag, HasBreak(s), HasContinue(s))
    decreases s, 0
  {
    match s
    case Block(b) => AllHoles(b, cx, tail, last);
    case If(arms) => ArmsHoles(arms, cx, tail, last);
    case _ =>
  }

  lemma {:induction false} AllHoles(ss: Stmts, cx: Ctx, tail: bool, last: bool)
    ensures Holes(CompAll(ss, cx, tail, last).frag, HasBreaks(ss), HasContinues(ss))
    decreases ss, 0
  {
    match ss
    case Empty =>
    case Then(s, rest) =>
      var t, l := tail && rest.Empty?, last && !EmitsAhead(rest);
      var a := CompStmt(s, cx, t, l);
      StmtHoles(s, cx, t, l);
      AllHoles(rest, a.cx, tail, last);
      AppendHoles(a.frag, CompAll(rest, a.cx, tail, last).frag,
                  HasBreak(s), HasContinue(s), HasBreaks(rest), HasContinues(rest));
  }

  lemma {:induction false} ArmsHoles(arms: Arms, cx: Ctx, tail: bool, last: bool)
    ensures Holes(CompArms(arms, cx, tail, last).frag, ArmsBreak(arms), ArmsContinue(arms))
    decreases arms, 0
  {
    match arms
    case NoElse =>
    case Else(b) => AllHoles(b, EnterScope(cx), tail, last);
    case Arm(c, b, rest) =>
      var a := CodeOf(c, cx.scopes, cx.pool);
      var body := CompScoped(b, cx.(pool := a.pool), tail, false);
      AllHoles(b, EnterScope(cx.(pool := a.pool)), tail, false);
      ArmsHoles(rest, body.cx, tail, last);
      JoinArmHoles(a.code, body.frag, CompArms(rest, body.cx, tail, last).frag,
                   HasBreaks(b), HasContinues(b), ArmsBreak(rest), ArmsContinue(rest));
  }

  lemma JoinArmHoles(test: seq<Instr>, body: Frag, more: Frag, brk1: bool, cont1: bool, brk2: bool, cont2: bool)
    requires Holes(body, brk1, cont1) && Holes(more, brk2, cont2)
    ensures Holes(JoinArm(test, body, more), brk1 || brk2, cont1 || cont2)
  {
    var exit := Plain(ArmExit(body.code, |more.code|));
    var guard := Plain(test + [Op1(JMP_IF_NOT, |body.code| + |exit.code|)]);
    AppendHoles(guard, body, false, false, brk1, cont1);
    AppendHoles(exit, more, false, false, brk2, cont2);
    AppendHoles(Append(guard, body), Append(exit, more), brk1, cont1, brk2, cont2);
  }

  // ----- the last instruction -----

  lemma {:induction false} LoopCodeLength(l: LoopParts)
    ensures |LoopCode(l)| == LoopEnd(l)
  {
  }

  /** The last instruction of a loop is its back jump; a patched jump keeps its opcode. */
  lemma {:induction false} LoopNeverEndsRet(l: LoopParts)
    ensures |LoopCode(l)| > 0 && !EndsRet(LoopCode(l))
  {
  }

  /** Text and code agree on what is empty and on what ends in RET. */
  lemma {:induction false} StmtShape(s: Stmt, cx: Ctx, tail: bool, last: bool)
    ensures var code := CompStmt(s, cx, tail, last).frag.code;
            (code != [] <==> Emits(s)) && (EndsRet(code) <==> EndsInRet(s, tail, last))
    decreases s, 0
  {
    match s
    case Block(b) => AllShape(b, cx, tail, last);
    case If(arms) => ArmsShape(arms, cx, tail, last);
    case While(c, b) => LoopsShape(s, cx);
    case Loop(b) => LoopsShape(s, cx);
    case ForRange(_, _, _, b) => LoopsShape(s, cx);
    case ForCount(_, _, b) => LoopsShape(s, cx);
    case ForEach(_, _, b) => LoopsShape(s, cx);
    case _ =>
  }

  lemma LoopsShape(s: Stmt, cx: Ctx)
    requires s.While? || s.Loop? || s.ForRange? || s.ForCount? || s.ForEach?
    ensures var code := CompStmt(s, cx, false, false).frag.code; code != [] && !EndsRet(code)
  {
    match s
    case While(c, b) =>
      var a := CodeOf(c, cx.scopes, cx.pool);
      LoopNeverEndsRet(WhileParts(a.code, CompScoped(b, cx.(pool := a.pool), false, false).frag));
    case Loop(b) =>
      LoopNeverEndsRet(EndlessParts(CompScoped(b, cx, false, false).frag));
    case ForRange(x, lo, hi, b) => RangeCodeShape(cx.next, RangeBounds(x, lo, hi, cx), b);
    case ForCount(x, n, b) => RangeCodeShape(cx.next, CountBounds(x, n, cx), b);
    case ForEach(x, e, b) =>
      var a := CodeOf(e, cx.scopes, cx.pool);
      LoopNeverEndsRet(EachParts(a, cx.next, CompScoped(b, EachCtx(x, cx.(pool := a.pool)), false, false)));
  }

  lemma RangeCodeShape(slot: nat, bounds: Bounds, b: Stmts)
    ensures var code := CompRange(slot, bounds, b).frag.code; code != [] && !EndsRet(code)
  {
    LoopNeverEndsRet(RangeParts(slot, bounds, CompScoped(b, Allocate(bounds.cx, "__end"), false, false)));
  }

  lemma AppendShape(a: Frag, b: Frag)
    ensures Append(a, b).code != [] <==> a.code != [] || b.code != []
    ensures EndsRet(Append(a, b).code) <==> EndsRet(if b.code != [] then b.code else a.code)
  {
    if b.code == [] {
      assert Append(a, b).code == a.code;
    }
  }

  lemma {:induction false} AllShape(ss: Stmts, cx: Ctx, tail: bool, last: bool)
    ensures var code := CompAll(ss, cx, tail, last).frag.code;
            (code != [] <==> AnyEmits(ss)) && (EndsRet(code) <==> AllEndInRet(ss, tail, last))
    decreases ss, 0
  {
    match ss
    case Empty =>
    case Then(s, rest) =>
      var t, l := tail && rest.Empty?, last && !EmitsAhead(rest);
      var a := CompStmt(s, cx, t, l);
      StmtShape(s, cx, t, l);
      AllShape(rest, a.cx, tail, last);
      StmtsText(rest, tail);
      AppendShape(a.frag, CompAll(rest, a.cx, tail, last).frag);
  }

  lemma {:induction false} ArmsShape(arms: Arms, cx: Ctx, tail: bool, last: bool)
    ensures var code := CompArms(arms, cx, tail, last).frag.code;
            (code != [] <==> ArmsEmit(arms)) && (EndsRet(code) <==> ArmsEndInRet(arms, tail, last))
    decreases arms, 0
  {
    match arms
    case NoElse =>
    case Else(b) => AllShape(b, EnterScope(cx), tail, last);
    case Arm(c, b, rest) =>
      var a := CodeOf(c, cx.scopes, cx.pool);
      var body := CompScoped(b, cx.(pool := a.pool), tail, false);
      AllShape(b, EnterScope(cx.(pool := a.pool)), tail, false);
      ArmsShape(rest, body.cx, tail, last);
      JoinArmShape(a.code, body.frag, CompArms(rest, body.cx, tail, last).frag);
  }

  lemma JoinArmShape(test: seq<Instr>, body: Frag, more: Frag)
    ensures var code := JoinArm(test, body, more).code;
            code != [] && (EndsRet(code) <==> if more.code != [] then EndsRet(more.code) else EndsRet(body.code))
  {
    var exit := ArmExit(body.code, |more.code|);
    var guard := test + [Op1(JMP_IF_NOT, |body.code| + |exit|)];
    var code := JoinArm(test, body, more).code;
    assert code == guard + body.code + (exit + more.code);
  }

  lemma JoinArmIs(test: seq<Instr>, body: Frag, more: Frag)
    ensures var exit := ArmExit(body.code, |more.code|);
      JoinArm(test, body, more).code == test + [Op1(JMP_IF_NOT, |body.code| + |exit|)] + body.code + exit + more.code
  {
  }

  /** Patching the jump behind a body to the end of what follows. */
  lemma ExitPatched(front: seq<Instr>, more: seq<Instr>)
    ensures Patch(front + [Op(JMP)] + more, |front|, |front| + 1 + |more|) == front + [Op1(JMP, |more|)] + more
  {
  }

  // ----- slots and scopes -----

  /** x is bound to slot s in scope i. */
  predicate BoundAt(scopes: Scopes, i: int, x: string, s: int) {
    0 <= i < |scopes| && x in scopes[i] && scopes[i][x] == s
  }

  predicate Bound(scopes: Scopes, i: int, x: string) {
    0 <= i < |scopes| && x in scopes[i]
  }

  /** Every binding has its own slot, below `next`. */
  ghost predicate SlotsApart(scopes: Scopes, next: nat) {
    && (forall i, x, s :: BoundAt(scopes, i, x, s) ==> s < next)
    && (forall i, x, j, y, s :: BoundAt(scopes, i, x, s) && BoundAt(scopes, j, y, s) ==> i == j && x == y)
  }

  /** Outer scopes are untouched; new bindings get slots from `next` on. */
  ghost predicate ScopesGrow(before: Scopes, next: nat, after: Scopes) {
    && |before| == |after| >= 1
    && (var d := |before| - 1;
        && before[..d] == after[..d]
        && (forall x {:trigger Bound(before, d, x)} :: Bound(before, d, x) ==> Bound(after, d, x))
        && (forall x, s :: BoundAt(after, d, x, s) ==> s >= next || BoundAt(before, d, x, s)))
  }

  datatype ScopeFact = Apart(scopes: Scopes, next: nat) | Growth(scopes: Scopes, next: nat, after: Scopes)

  ghost predicate FactHolds(f: ScopeFact) {
    match f
    case Apart(scopes, next) => SlotsApart(scopes, next)
    case Growth(scopes, next, after) => ScopesGrow(scopes, next, after)
  }

  ghost predicate AreScopeFacts(s: iset<ScopeFact>) {
    forall f {:trigger FactHolds(f)} :: f in s <==> FactHolds(f)
  }

  lemma ScopeFactsExist()
    ensures exists s :: AreScopeFacts(s)
  {
    var s := iset f | FactHolds(f);
    assert AreScopeFacts(s);
  }

  /** The facts about scopes and slots: proofs about code pass them on without unfolding their quantifiers. */
  ghost function ScopeFacts(): iset<ScopeFact> {
    ScopeFactsExist();
    var s :| AreScopeFacts(s);
    s
  }

  ghost predicate GoodCtx(cx: Ctx) {
    |cx.scopes| >= 1 && Apart(cx.scopes, cx.next) in ScopeFacts()
  }

  /** The pool, the slot counter and the scopes only grow. */
  ghost predicate Grows(a: Ctx, b: Ctx) {
    && a.pool <= b.pool && a.next <= b.next
    && |a.scopes| == |b.scopes| >= 1
    && Growth(a.scopes, a.next, b.scopes) in ScopeFacts()
  }

  lemma GoodIs(cx: Ctx)
    ensures GoodCtx(cx) <==> |cx.scopes| >= 1 && SlotsApart(cx.scopes, cx.next)
  {
    ScopeFactsExist();
    assert FactHolds(Apart(cx.scopes, cx.next)) <==> SlotsApart(cx.scopes, cx.next);
  }

  lemma GrowsIs(a: Ctx, b: Ctx)
    ensures Grows(a, b) <==> a.pool <= b.pool && a.next <= b.next && ScopesGrow(a.scopes, a.next, b.scopes)
  {
    ScopeFactsExist();
    assert FactHolds(Growth(a.scopes, a.next, b.scopes)) <==> ScopesGrow(a.scopes, a.next, b.scopes);
  }

  lemma GrowsTrans(a: Ctx, b: Ctx, c: Ctx)
    requires Grows(a, b) && Grows(b, c)
    ensures Grows(a, c)
  {
    GrowsIs(a, b);
    GrowsIs(b, c);
    GrowsIs(a, c);
  }

  lemma AllocateGood(cx: Ctx, x: string)
    requires GoodCtx(cx)
    ensures GoodCtx(Allocate(cx, x)) && Grows(cx, Allocate(cx, x))
    ensures BoundAt(Allocate(cx, x).scopes, |cx.scopes| - 1, x, cx.next)
  {
    var d := |cx.scopes| - 1;
    var r := Allocate(cx, x);
    GoodIs(cx);
    GoodIs(r);
    GrowsIs(cx, r);
    assert forall i, y, s :: BoundAt(r.scopes, i, y, s) ==>
      (i == d && y == x && s == cx.next) || BoundAt(cx.scopes, i, y, s);
  }

  lemma ScopedGood(cx: Ctx, inner: Ctx)
    requires GoodCtx(cx) && GoodCtx(inner) && Grows(EnterScope(cx), inner)
    ensures GoodCtx(ExitScope(inner)) && Grows(cx, ExitScope(inner)) && ExitScope(inner).scopes == cx.scopes
  {
    var d := |cx.scopes|;
    GrowsIs(EnterScope(cx), inner);
    assert EnterScope(cx).scopes[..d] == cx.scopes;
    assert inner.scopes[..d] == cx.scopes;
    var out := ExitScope(inner);
    GoodIs(cx);
    GoodIs(out);
    GrowsIs(cx, out);
    assert forall i, y, s :: BoundAt(out.scopes, i, y, s) ==> BoundAt(cx.scopes, i, y, s);
  }

  lemma EnterGood(cx: Ctx)
    requires GoodCtx(cx)
    ensures GoodCtx(EnterScope(cx))
  {
    var r := EnterScope(cx);
    GoodIs(cx);
    GoodIs(r);
    assert forall i, y, s :: BoundAt(r.scopes, i, y, s) ==> BoundAt(cx.scopes, i, y, s);
  }

  lemma PoolGood(cx: Ctx, pool: Pool)
    requires GoodCtx(cx) && cx.pool <= pool
    ensures GoodCtx(cx.(pool := pool)) && Grows(cx, cx.(pool := pool))
  {
    GoodIs(cx);
    GoodIs(cx.(pool := pool));
    GrowsIs(cx, cx.(pool := pool));
  }

  lemma GrowsOuter(a: Ctx, b: Ctx)
    requires Grows(a, b)
    ensures a.scopes[..|a.scopes| - 1] == b.scopes[..|a.scopes| - 1]
  {
    GrowsIs(a, b);
  }

  lemma GrowsSelf(cx: Ctx)
    requires |cx.scopes| >= 1
    ensures Grows(cx, cx)
  {
    GrowsIs(cx, cx);
  }

  lemma {:induction false} StmtGood(s: Stmt, cx: Ctx, tail: bool, last: bool)
    requires GoodCtx(cx)
    ensures GoodCtx(CompStmt(s, cx, tail, last).cx) && Grows(cx, CompStmt(s, cx, tail, last).cx)
    decreases s, 5
  {
    match s
    case Let(x, e) =>
      var a := CodeOf(e, cx.scopes, cx.pool);
      AllocateGood(cx.(pool := a.pool), x);
    case Block(b) => AllGood(b, cx, tail, last);
    case If(arms) => ArmsGood(arms, cx, tail, last);
    case While(_, _) => LoopsGood(s, cx);
    case Loop(_) => LoopsGood(s, cx);
    case ForRange(_, _, _, _) => LoopsGood(s, cx);
    case ForCount(_, _, _) => LoopsGood(s, cx);
    case ForEach(x, e, b) => EachGood(x, e, b, cx);
    case _ => GrowsSelf(cx);
  }

  lemma {:induction false} LoopsGood(s: Stmt, cx: Ctx)
    requires GoodCtx(cx) && (s.While? || s.Loop? || s.ForRange? || s.ForCount?)
    ensures var r := CompStmt(s, cx, false, false).cx; GoodCtx(r) && Grows(cx, r)
    decreases s, 4
  {
    match s
    case While(c, b) => WhileGood(c, b, cx);
    case Loop(b) => ScopedBodyGood(b, cx, false, false);
    case ForRange(x, lo, hi, b) =>
      AllocateGood(cx, x);
      RangeGood(cx, cx.next, RangeBounds(x, lo, hi, cx), b);
    case ForCount(x, n, b) =>
      AllocateGood(cx, x);
      RangeGood(cx, cx.next, CountBounds(x, n, cx), b);
  }

  lemma {:induction false} WhileGood(c: Expr, b: Stmts, cx: Ctx)
    requires GoodCtx(cx)
    ensures var r := CompWhile(c, b, cx).cx; GoodCtx(r) && Grows(cx, r) && r.scopes == cx.scopes
    decreases b, 3
  {
    ScopedBodyGood(b, cx.(pool := CodeOf(c, cx.scopes, cx.pool).pool), false, false);
  }

  lemma {:induction false} EachGood(x: string, e: Expr, b: Stmts, cx: Ctx)
    requires GoodCtx(cx)
    ensures var r := CompEach(x, e, b, cx).cx; GoodCtx(r) && Grows(cx, r)
    decreases b, 4
  {
    var a := CodeOf(e, cx.scopes, cx.pool);
    var inner := EachCtx(x, cx.(pool := a.pool));
    EachCtxGood(x, cx.(pool := a.pool));
    ScopedBodyGood(b, inner, false, false);
    GrowsTrans(cx, inner, CompScoped(b, inner, false, false).cx);
  }

  lemma EachCtxGood(x: string, cx: Ctx)
    requires GoodCtx(cx)
    ensures GoodCtx(EachCtx(x, cx)) && Grows(cx, EachCtx(x, cx))
  {
    var cx0 := WithConst(cx, Int(0));
    var cx1 := Allocate(cx0, "__arr");
    AllocateGood(cx0, "__arr");
    var cx2 := Allocate(cx1, "__len");
    AllocateGood(cx1, "__len");
    GrowsTrans(cx, cx1, cx2);
    var cx3 := Allocate(cx2, "__idx");
    AllocateGood(cx2, "__idx");
    GrowsTrans(cx, cx2, cx3);
    AllocateGood(cx3, x);
    GrowsTrans(cx, cx3, Allocate(cx3, x));
  }

  lemma {:induction false} RangeGood(cx: Ctx, slot: nat, bounds: Bounds, b: Stmts)
    requires GoodCtx(bounds.cx) && Grows(cx, bounds.cx)
    ensures var r := CompRange(slot, bounds, b).cx; GoodCtx(r) && Grows(cx, r)
    decreases b, 3
  {
    var inner := Allocate(bounds.cx, "__end");
    AllocateGood(bounds.cx, "__end");
    ScopedBodyGood(b, inner, false, false);
    GrowsTrans(cx, bounds.cx, inner);
    GrowsTrans(cx, inner, CompScoped(b, inner, false, false).cx);
  }

  lemma {:induction false} ScopedBodyGood(b: Stmts, cx: Ctx, tail: bool, last: bool)
    requires GoodCtx(cx)
    ensures var r := CompScoped(b, cx, tail, last).cx; GoodCtx(r) && Grows(cx, r) && r.scopes == cx.scopes
    decreases b, 2
  {
    EnterGood(cx);
    AllGood(b, EnterScope(cx), tail, last);
    ScopedGood(cx, CompAll(b, EnterScope(cx), tail, last).cx);
  }

  lemma {:induction false} AllGood(ss: Stmts, cx: Ctx, tail: bool, last: bool)
    requires GoodCtx(cx)
    ensures GoodCtx(CompAll(ss, cx, tail, last).cx) && Grows(cx, CompAll(ss, cx, tail, last).cx)
    decreases ss, 0
  {
    match ss
    case Empty => GrowsSelf(cx);
    case Then(s, rest) =>
      var a := CompStmt(s, cx, tail && rest.Empty?, last && !EmitsAhead(rest));
      StmtGood(s, cx, tail && rest.Empty?, last && !EmitsAhead(rest));
      AllGood(rest, a.cx, tail, last);
      GrowsTrans(cx, a.cx, CompAll(rest, a.cx, tail, last).cx);
  }

  lemma {:induction false} ArmsGood(arms: Arms, cx: Ctx, tail: bool, last: bool)
    requires GoodCtx(cx)
    ensures var r := CompArms(arms, cx, tail, last).cx; GoodCtx(r) && Grows(cx, r) && r.scopes == cx.scopes
    decreases arms, 0
  {
    match arms
    case NoElse => GrowsSelf(cx);
    case Else(b) => ScopedBodyGood(b, cx, tail, last);
    case Arm(c, b, rest) =>
      var a := CodeOf(c, cx.scopes, cx.pool);
      ScopedBodyGood(b, cx.(pool := a.pool), tail, false);
      var body := CompScoped(b, cx.(pool := a.pool), tail, false);
      ArmsGood(rest, body.cx, tail, last);
  }

  // ----- functions -----

  lemma {:induction false} ParamSlotsFit(params: seq<string>)
    ensures forall x :: x in ParamSlots(params) ==> ParamSlots(params)[x] < |params| && params[ParamSlots(params)[x]] == x
    decreases |params|
  {
    if params != [] {
      var k := |params| - 1;
      ParamSlotsFit(params[..k]);
    }
  }

  lemma FunctionCtxGood(f: FunctionDecl, pool: Pool)
    ensures GoodCtx(FunctionCtx(f, pool))
  {
    ParamSlotsFit(f.params);
    GoodIs(FunctionCtx(f, pool));
  }

  // ----- the final POP -----

  /** Compiling with `last` is compiling without it and turning the final POP, if there is one, into RET. */
  ghost predicate LastPops(with: Lowered, without: Lowered) {
    with == Lowered(without.frag.(code := PopToRet(without.frag.code)), without.cx)
  }

  lemma {:induction false} StmtLast(s: Stmt, cx: Ctx, tail: bool)
    ensures LastPops(CompStmt(s, cx, tail, true), CompStmt(s, cx, tail, false))
    decreases s, 1
  {
    match s
    case Block(b) => AllLast(b, cx, tail);
    case If(arms) => ArmsLast(arms, cx, tail);
    case While(_, _) => LoopLast(s, cx, tail);
    case Loop(_) => LoopLast(s, cx, tail);
    case ForRange(_, _, _, _) => LoopLast(s, cx, tail);
    case ForCount(_, _, _) => LoopLast(s, cx, tail);
    case ForEach(_, _, _) => LoopLast(s, cx, tail);
    case _ =>
  }

  lemma LoopLast(s: Stmt, cx: Ctx, tail: bool)
    requires s.While? || s.Loop? || s.ForRange? || s.ForCount? || s.ForEach?
    ensures LastPops(CompStmt(s, cx, tail, true), CompStmt(s, cx, tail, false))
  {
    match s
    case While(c, b) =>
      var a := CodeOf(c, cx.scopes, cx.pool);
      LoopNeverEndsPop(WhileParts(a.code, CompScoped(b, cx.(pool := a.pool), false, false).frag));
    case Loop(b) => LoopNeverEndsPop(EndlessParts(CompScoped(b, cx, false, false).frag));
    case ForRange(x, lo, hi, b) => RangeLast(cx.next, RangeBounds(x, lo, hi, cx), b);
    case ForCount(x, n, b) => RangeLast(cx.next, CountBounds(x, n, cx), b);
    case ForEach(x, e, b) =>
      var a := CodeOf(e, cx.scopes, cx.pool);
      LoopNeverEndsPop(EachParts(a, cx.next, CompScoped(b, EachCtx(x, cx.(pool := a.pool)), false, false)));
  }

  lemma RangeLast(slot: nat, bounds: Bounds, b: Stmts)
    ensures !EndsPop(CompRange(slot, bounds, b).frag.code)
  {
    LoopNeverEndsPop(RangeParts(slot, bounds, CompScoped(b, Allocate(bounds.cx, "__end"), false, false)));
  }

  lemma {:induction false} LoopNeverEndsPop(l: LoopParts)
    ensures !EndsPop(LoopCode(l))
  {
  }

  lemma {:induction false} AllLast(ss: Stmts, cx: Ctx, tail: bool)
    ensures LastPops(CompAll(ss, cx, tail, true), CompAll(ss, cx, tail, false))
    decreases ss, 1
  {
    match ss
    case Empty =>
    case Then(s, rest) =>
      var t := tail && rest.Empty?;
      var a := CompStmt(s, cx, t, false);
      StmtLast(s, cx, t);
      AllLast(rest, a.cx, tail);
      AllShape(rest, a.cx, tail, false);
      StmtsText(rest, tail);
      AppendLast(a.frag, CompAll(rest, a.cx, tail, false).frag);
  }

  lemma AppendLast(a: Frag, b: Frag)
    ensures var b1 := b.(code := PopToRet(b.code));
            var a1 := if b.code == [] then a.(code := PopToRet(a.code)) else a;
            Append(a1, b1) == Append(a, b).(code := PopToRet(a.code + b.code))
  {
    if b.code == [] {
      assert a.code + b.code == a.code;
      assert PopToRet(a.code) + PopToRet(b.code) == PopToRet(a.code);
    } else {
      assert a.code + PopToRet(b.code) == PopToRet(a.code + b.code);
    }
  }

  lemma {:induction false} ArmsLast(arms: Arms, cx: Ctx, tail: bool)
    ensures LastPops(CompArms(arms, cx, tail, true), CompArms(arms, cx, tail, false))
    decreases arms, 1
  {
    match arms
    case NoElse =>
    case Else(b) => AllLast(b, EnterScope(cx), tail);
    case Arm(c, b, rest) =>
      var a := CodeOf(c, cx.scopes, cx.pool);
      var body := CompScoped(b, cx.(pool := a.pool), tail, false);
      ArmsLast(rest, body.cx, tail);
      JoinArmLast(a.code, body.frag, CompArms(rest, body.cx, tail, false).frag);
  }

  lemma JoinArmLast(test: seq<Instr>, body: Frag, more: Frag)
    ensures var m1 := more.(code := PopToRet(more.code));
            var j := JoinArm(test, body, more);
            JoinArm(test, body, m1) == j.(code := PopToRet(j.code))
  {
    var m1 := more.(code := PopToRet(more.code));
    var exit := ArmExit(body.code, |more.code|);
    var front := test + [Op1(JMP_IF_NOT, |body.code| + |exit|)] + body.code;
    assert JoinArm(test, body, more).code == front + (exit + more.code);
    assert JoinArm(test, body, m1).code == front + (exit + m1.code);
    if more.code == [] {
      assert exit + more.code == exit;
      JoinArmShape(test, body, more);
      assert !EndsPop(front + exit);
    } else {
      assert front + (exit + m1.code) == PopToRet(front + (exit + more.code));
    }
  }

  /** The code of a function is its body compiled as the last thing in it, then RET_NULL if that ends in no return. */
  lemma FunctionCode(f: FunctionDecl, pool: Pool)
    ensures var r := CompAll(f.body, FunctionCtx(f, pool), true, true);
            CompFunction(f, pool) == Lowered(Plain(r.frag.code + if EndsRet(r.frag.code) then [] else [Op(RET_NULL)]), r.cx)
  {
    AllLast(f.body, FunctionCtx(f, pool), true);
    var code := CompAll(f.body, FunctionCtx(f, pool), true, false).frag.code;
    if EndsPop(code) {
      assert PopToRet(code) + [] == PopToRet(code);
    } else if EndsRet(code) {
      assert code + [] == code;
    }
  }
}
