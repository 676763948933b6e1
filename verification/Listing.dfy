/** One function with the code the compiler gives it, instruction by instruction, operands as they are stored. */
module Listing {
  import opened Values
  import opened Ast
  import opened Machine
  import opened Lowering

  const I: Expr := Var("i")

  /** `if i == 3 { break; }` */
  const STOP: Stmt := If(Arm(Binary(Eq, I, IntLit(3)), Then(Break, Empty), NoElse))

  /** `i = i + 1;` */
  const STEP: Stmt := Assign("i", Binary(Add, I, IntLit(1)))

  /** `while i < x { if i == 3 { break; } i = i + 1; }` */
  const COUNT: Stmt := While(Binary(Lt, I, Var("x")), Then(STOP, Then(STEP, Empty)))

  /** `fn f(x) { let i = 0; while i < x { if i == 3 { break; } i = i + 1; } i }` */
  const EXAMPLE: FunctionDecl := FunctionDecl(["x"], Then(Let("i", IntLit(0)), Then(COUNT, Then(ExprStmt(I), Empty))))

  const OUTER: map<string, nat> := map["x" := 0, "i" := 1]

  const S1: Scopes := [OUTER]
  const S2: Scopes := [OUTER, map[]]
  const S3: Scopes := [OUTER, map[], map[]]

  lemma Slots(s: Scopes)
    requires s == S1 || s == S2 || s == S3
    ensures Resolve(s, "i") == Some(1) && Resolve(s, "x") == Some(0)
  {
    assert S3[..2] == S2 && S2[..1] == S1;
    assert Resolve(S1, "i") == Some(1) && Resolve(S1, "x") == Some(0);
    assert Resolve(S2, "i") == Some(1) && Resolve(S2, "x") == Some(0);
  }

  const LOAD_I: Instr := Instr(LOAD_LOCAL_1, 0)
  const LOAD_X: Instr := Instr(LOAD_LOCAL_0, 0)

  /** An expression `i op n`. */
  lemma WithLiteral(op: BinOp, n: int, s: Scopes, pool: Pool)
    requires (s == S1 || s == S2 || s == S3) && 0 <= n < TWO_31 && |pool| < TWO_31
    ensures CodeOf(Binary(op, I, IntLit(n)), s, pool)
         == ExprCode([LOAD_I, Instr(PUSH, |pool|), Instr(BinaryCode(op), 0)], pool + [Int(n)])
  {
    Slots(s);
    CodeOfIs(Binary(op, I, IntLit(n)), s, pool);
    assert CompExpr(I, s, pool) == ExprCode([LOAD_I], pool);
    assert CompExpr(IntLit(n), s, pool) == ExprCode([Instr(PUSH, |pool|)], pool + [Int(n)]);
  }

  /** The body of the loop: the jump of `break` is still open, at index 4. */
  lemma LoopBody(pool: Pool)
    requires |pool| < TWO_31 - 2
    ensures var r := CompScoped(Then(STOP, Then(STEP, Empty)), Ctx(pool, S1, 2), false, false);
            && r.cx == Ctx(pool + [Int(3), Int(1)], S1, 2)
            && r.frag == Frag(Body(|pool|), 4, -1)
  {
    var cx := Ctx(pool, S2, 2);
    assert EnterScope(Ctx(pool, S1, 2)) == cx;
    WithLiteral(Eq, 3, S2, pool);
    var cx1 := cx.(pool := pool + [Int(3)]);
    var b := CompAll(Then(Break, Empty), EnterScope(cx1), false, false);
    assert b == Lowered(Frag([Instr(JMP, 0)], 0, -1), EnterScope(cx1));
    assert ExitScope(EnterScope(cx1)) == cx1;
    var stop := CompStmt(STOP, cx, false, false);
    assert stop.frag.code == [LOAD_I, Instr(PUSH, |pool|), Instr(IEQ, 0), Instr(JMP_IF_NOT, 2), Instr(JMP, 0), Instr(JMP, 0)];
    assert stop.frag.brk == 4 && stop.frag.cont == -1 && stop.cx == cx1;
    WithLiteral(Add, 1, S2, cx1.pool);
    Slots(S2);
    var step := CompStmt(STEP, cx1, false, false);
    assert step.frag.code == [LOAD_I, Instr(PUSH, |pool| + 1), Instr(IADD, 0), Instr(STORE_LOCAL, 1)];
    assert cx1.pool + [Int(1)] == pool + [Int(3), Int(1)];
  }

  const LISTING: seq<Instr> := [
    Instr(PUSH, 0), Instr(STORE_LOCAL, 1),
    LOAD_I, LOAD_X, Instr(ILT, 0), Instr(JMP_IF_NOT, 11),
    LOAD_I, Instr(PUSH, 1), Instr(IEQ, 0), Instr(JMP_IF_NOT, 2), Instr(JMP, 6), Instr(JMP, 0),
    LOAD_I, Instr(PUSH, 2), Instr(IADD, 0), Instr(STORE_LOCAL, 1),
    Instr(JMP, 0xFFFF_FFF1),
    LOAD_I, Instr(RET, 0)
  ]

  const TEST: seq<Instr> := [LOAD_I, LOAD_X, Instr(ILT, 0)]

  function Body(k: uint32): seq<Instr>
    requires k + 1 < TWO_32
  {
    [LOAD_I, Instr(PUSH, k), Instr(IEQ, 0), Instr(JMP_IF_NOT, 2), Instr(JMP, 0), Instr(JMP, 0),
     LOAD_I, Instr(PUSH, k + 1), Instr(IADD, 0), Instr(STORE_LOCAL, 1)]
  }

  function Looped(k: uint32): seq<Instr>
    requires k + 1 < TWO_32
  {
    [LOAD_I, LOAD_X, Instr(ILT, 0), Instr(JMP_IF_NOT, 11),
     LOAD_I, Instr(PUSH, k), Instr(IEQ, 0), Instr(JMP_IF_NOT, 2), Instr(JMP, 6), Instr(JMP, 0),
     LOAD_I, Instr(PUSH, k + 1), Instr(IADD, 0), Instr(STORE_LOCAL, 1),
     Instr(JMP, 0xFFFF_FFF1)]
  }

  /** The body's open jump is patched to the end of the loop, the last jump goes back 15. */
  lemma Assembled(k: uint32)
    requires k + 1 < TWO_32
    ensures LoopCode(WhileParts(TEST, Frag(Body(k), 4, -1))) == Looped(k)
  {
    var l := WhileParts(TEST, Frag(Body(k), 4, -1));
    assert BodyAt(l) == 4 && StepAt(l) == 14 && LoopEnd(l) == 15;
    Back();
    var code := TEST + [Instr(JMP_IF_NOT, 11)] + Body(k) + [Instr(JMP, 0xFFFF_FFF1)];
    assert l.init + l.test + ExitJump(l) + l.pre + l.body.code + l.step + BackJump(l) == code;
    assert code[8] == Instr(JMP, 0) && LoopCode(l) == Patch(code, 8, 15);
  }

  lemma Back()
    ensures U32(-15) == 0xFFFF_FFF1
  {
  }

  lemma WhileFrom(c: Expr, b: Stmts, cx: Ctx, code: ExprCode, body: Lowered, tail: bool, last: bool)
    requires CodeOf(c, cx.scopes, cx.pool) == code && CompScoped(b, cx.(pool := code.pool), false, false) == body
    ensures CompStmt(While(c, b), cx, tail, last) == WhileLowered(code, body)
  {
  }

  lemma ThenFrom(s: Stmt, rest: Stmts, cx: Ctx, tail: bool, first: Lowered, more: Lowered)
    requires rest.Then? && CompStmt(s, cx, false, false) == first && CompAll(rest, first.cx, tail, false) == more
    ensures CompAll(Then(s, rest), cx, tail, false) == Lowered(Append(first.frag, more.frag), more.cx)
  {
  }

  lemma LoopLines(pool: Pool)
    requires |pool| < TWO_31 - 2
    ensures CompStmt(COUNT, Ctx(pool, S1, 2), false, false) == Lowered(Plain(Looped(|pool|)), Ctx(pool + [Int(3), Int(1)], S1, 2))
  {
    Test(pool);
    LoopBody(pool);
    Assembled(|pool|);
    WhileFrom(COUNT.cond, COUNT.wbody, Ctx(pool, S1, 2), ExprCode(TEST, pool),
              Lowered(Frag(Body(|pool|), 4, -1), Ctx(pool + [Int(3), Int(1)], S1, 2)), false, false);
  }

  lemma Test(pool: Pool)
    ensures CodeOf(COUNT.cond, S1, pool) == ExprCode(TEST, pool)
  {
    Slots(S1);
    CodeOfIs(COUNT.cond, S1, pool);
    assert CompExpr(I, S1, pool) == ExprCode([LOAD_I], pool) && CompExpr(Var("x"), S1, pool) == ExprCode([LOAD_X], pool);
  }

  const BEFORE: Ctx := Ctx([], [map["x" := 0]], 1)
  const AFTER: Ctx := Ctx([Int(0), Int(3), Int(1)], S1, 2)

  lemma AfterLet()
    ensures CompAll(EXAMPLE.body.rest, Ctx([Int(0)], S1, 2), true, false)
         == Lowered(Plain(Looped(1) + [LOAD_I, Instr(RET, 0)]), AFTER)
  {
    LoopLines([Int(0)]);
    assert [Int(0)] + [Int(3), Int(1)] == AFTER.pool;
    LastLine(AFTER);
    ThenFrom(COUNT, EXAMPLE.body.rest.rest, Ctx([Int(0)], S1, 2), true, Lowered(Plain(Looped(1)), AFTER),
             Lowered(Plain([LOAD_I, Instr(RET, 0)]), AFTER));
  }

  lemma AllLines(rest: Stmts, more: Lowered)
    requires rest.Then? && CompAll(rest, Ctx([Int(0)], S1, 2), true, false) == more
    ensures CompAll(Then(Let("i", IntLit(0)), rest), BEFORE, true, false)
         == Lowered(Append(Plain([Instr(PUSH, 0), Instr(STORE_LOCAL, 1)]), more.frag), more.cx)
  {
    FirstLine(BEFORE);
    ThenFrom(Let("i", IntLit(0)), rest, BEFORE, true,
             Lowered(Plain([Instr(PUSH, 0), Instr(STORE_LOCAL, 1)]), Ctx([Int(0)], S1, 2)), more);
  }

  lemma BodyLines(body: Stmts)
    requires body == EXAMPLE.body
    ensures CompAll(body, BEFORE, true, false) == Lowered(Plain(LISTING), AFTER)
  {
    var code := Looped(1) + [LOAD_I, Instr(RET, 0)];
    AfterLet();
    AllLines(body.rest, Lowered(Plain(code), AFTER));
    Joined();
  }

  lemma Joined()
    ensures Append(Plain([Instr(PUSH, 0), Instr(STORE_LOCAL, 1)]), Plain(Looped(1) + [LOAD_I, Instr(RET, 0)])) == Plain(LISTING)
  {
  }

  lemma Finished(f: FunctionDecl)
    requires f.params == ["x"] && CompAll(f.body, BEFORE, true, false) == Lowered(Plain(LISTING), AFTER)
    ensures CompFunction(f, []) == Lowered(Plain(LISTING), AFTER)
  {
    Entry();
    assert FunctionCtx(f, []) == BEFORE;
  }

  /** The code and the constant pool of the example. */
  lemma ExampleListing()
    ensures CompFunction(EXAMPLE, []).frag.code == LISTING && CompFunction(EXAMPLE, []).cx.pool == [Int(0), Int(3), Int(1)]
  {
    BodyLines(EXAMPLE.body);
    Finished(EXAMPLE);
  }

  lemma Entry()
    ensures FunctionCtx(EXAMPLE, []) == Ctx([], [map["x" := 0]], 1)
  {
    assert ["x"][..0] == [];
  }

  lemma FirstLine(cx: Ctx)
    requires cx == Ctx([], [map["x" := 0]], 1)
    ensures CompLet("i", IntLit(0), cx) == Lowered(Plain([Instr(PUSH, 0), Instr(STORE_LOCAL, 1)]), Ctx([Int(0)], S1, 2))
  {
    CodeOfIs(IntLit(0), cx.scopes, []);
    assert Bind(cx.scopes, "i", 1) == S1;
  }

  lemma LastLine(cx: Ctx)
    requires cx.scopes == S1
    ensures CompAll(Then(ExprStmt(I), Empty), cx, true, false) == Lowered(Plain([LOAD_I, Instr(RET, 0)]), cx)
  {
    Slots(S1);
    CodeOfIs(I, S1, cx.pool);
    assert CompExprStmt(I, cx, true) == Lowered(Plain([LOAD_I, Instr(RET, 0)]), cx);
  }
}
