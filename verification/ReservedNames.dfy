/** What a program gets that assigns the reserved name of its own loop's bound. */
module ReservedNames {
  import opened Values
  import opened Ast
  import opened Machine
  import opened Lowering
  import opened LoweringFacts
  import opened Layers
  import opened Semantics
  import opened ExprProof
  import opened Placement
  import opened StmtSteps
  import opened LoopSteps
  import RangeCount

  /** The body `__end = n`. */
  function BoundBody(n: int): Stmts {
    Then(Assign("__end", IntLit(n)), Empty)
  }

  /** The compiler resolves the name like any other and stores to the slot of the bound. */
  lemma BoundBodyCode(n: int, cx: Ctx, bound: nat)
    requires |cx.scopes| >= 1 && BoundAt(cx.scopes, |cx.scopes| - 1, "__end", bound)
    ensures ScopedCode(BoundBody(n), cx, false, false)
         == Lowered(Plain([Op1(PUSH, |cx.pool|), Op1(STORE_LOCAL, bound)]), cx.(pool := cx.pool + [Int(Cut32(n))]))
  {
    var inner := EnterScope(cx);
    var s := Assign("__end", IntLit(n));
    assert inner.scopes[..|cx.scopes|] == cx.scopes;
    assert Resolve(inner.scopes, "__end") == Resolve(cx.scopes, "__end") == Some(bound);
    CodeOfIs(IntLit(n), inner.scopes, inner.pool);
    CodeUnfolds(All(BoundBody(n)), inner, false, false);
    CodeUnfolds(One(s), inner, false, true);
    CodeUnfolds(One(s), inner, false, false);
    CodeUnfolds(All(Empty), CompAssign("__end", IntLit(n), inner).cx, false, false);
  }

  /** The range loop with that body lies at `at`. */
  ghost predicate LoopLies(p: Program, at: int, slot: nat, bounds: Bounds, n: int, l: LoopParts) {
    && GoodCtx(bounds.cx) && slot < bounds.cx.next && |p.code| < TWO_31 && |p.pool| < TWO_31
    && l == RangeParts(slot, bounds, ScopedCode(BoundBody(n), Allocate(bounds.cx, "__end"), false, false))
    && CodeAt(p, at, LoopCode(l)) && bounds.cx.pool + [Int(Cut32(n))] + [Int(1)] <= p.pool
  }

  /** c is at its head; the variable is a, the bound z. */
  predicate AtHead(c: Config, at: int, slot: nat, bounds: Bounds, l: LoopParts, a: int, z: int) {
    && c.pc == at + |l.init| && c.stack == [] && slot < bounds.cx.next < |c.locals| < TWO_31
    && c.locals[slot] == Int(a) && c.locals[bounds.cx.next] == Int(z)
  }

  /** An iteration replaces the bound by n and counts the variable up. */
  lemma BoundIteration(p: Program, at: int, slot: nat, bounds: Bounds, n: int, l: LoopParts, c: Config, a: int, z: int)
    requires LoopLies(p, at, slot, bounds, n, l) && AtHead(c, at, slot, bounds, l, a, z)
    ensures a > z ==> Moves(p, c, c.(pc := at + LoopEnd(l)))
    ensures a <= z ==> Moves(p, c, c.(locals := c.locals[bounds.cx.next := Int(Cut32(n))][slot := Int(Wrap64(a + 1))]))
  {
    var cx := Allocate(bounds.cx, "__end");
    AllocateGood(bounds.cx, "__end");
    BoundBodyCode(n, cx, bounds.cx.next);
    LoopIsReady(p, at, l, cx);
    TestRuns(p, at, l, cx, c, slot, bounds.cx.next, IGT, a > z);
    if a <= z {
      var d := c.(pc := at + BodyAt(l));
      var e := d.(pc := d.pc + 2, locals := c.locals[bounds.cx.next := Int(Cut32(n))]);
      MovesGoes(p, c, d);
      BoundStored(p, d, bounds.cx.next, |cx.pool|, n);
      GoesGoes(p, c, d, e);
      var again := StepRuns(p, at, l, cx, c, e, slot, |cx.pool| + 1);
    }
  }

  lemma BoundStored(p: Program, c: Config, bound: nat, k: nat, n: int)
    requires CodeAt(p, c.pc, [Op1(PUSH, k), Op1(STORE_LOCAL, bound)])
    requires bound < |c.locals| < TWO_31 && k < |p.pool| < TWO_31 && p.pool[k] == Int(Cut32(n))
    ensures Goes(p, c, c.(pc := c.pc + 2, locals := c.locals[bound := Int(Cut32(n))]))
  {
    var push, store := Op1(PUSH, k), Op1(STORE_LOCAL, bound);
    assert [push, store] == [push] + [store];
    CodeSplit(p, c.pc, [push], [store]);
    CodeHead(p, c.pc, push);
    PushStep(p, c, k);
    Start(p, c);
    GoesStep(p, c, c, After(c, 1, Int(Cut32(n))));
    StoreRuns(p, c, [push], bound, V(Int(Cut32(n))));
  }

  /** With the bound n already in place the loop counts up to n. */
  lemma {:induction false} CountsToBound(p: Program, at: int, slot: nat, bounds: Bounds, n: int, l: LoopParts, c: Config,
                                         a: int)
    requires LoopLies(p, at, slot, bounds, n, l) && AtHead(c, at, slot, bounds, l, a, Cut32(n)) && -TWO_63 <= a
    ensures Moves(p, c, c.(pc := at + LoopEnd(l), locals := c.locals[slot := Int(a + RangeCount.Count(a, Cut32(n)))]))
    decreases RangeCount.Count(a, Cut32(n))
  {
    BoundIteration(p, at, slot, bounds, n, l, c, a, Cut32(n));
    if a > Cut32(n) {
      assert c.locals[slot := Int(a)] == c.locals;
    } else {
      CutIsModulo(n);
      WrapIsModulo(a + 1);
      var d := c.(locals := c.locals[slot := Int(a + 1)]);
      assert c.locals[bounds.cx.next := Int(Cut32(n))] == c.locals;
      assert c.(locals := c.locals[bounds.cx.next := Int(Cut32(n))][slot := Int(Wrap64(a + 1))]) == d;
      CountsToBound(p, at, slot, bounds, n, l, d, a + 1);
      MovesGoes(p, c, d);
      assert d.locals[slot := Int(a + RangeCount.Count(a, Cut32(n)))] == c.locals[slot := Int(a + RangeCount.Count(a, Cut32(n)))];
      GoesMoves(p, c, d, c.(pc := at + LoopEnd(l), locals := c.locals[slot := Int(a + RangeCount.Count(a, Cut32(n)))]));
    }
  }

  /**
   * `for y in a..z { __end = n }` runs its body once for a, if a <= z, and then for a + 1, ..., n: not once for
   * every integer from a to z.
   */
  lemma ReservedNameHitsBound(p: Program, at: int, slot: nat, bounds: Bounds, n: int, l: LoopParts, c: Config, a: int, z: int)
    requires LoopLies(p, at, slot, bounds, n, l) && AtHead(c, at, slot, bounds, l, a, z)
    requires -TWO_63 <= a && z < TWO_63 - 1
    ensures var times := if a > z then 0 else 1 + RangeCount.Count(a + 1, Cut32(n));
            var last := if a > z then c.locals else c.locals[bounds.cx.next := Int(Cut32(n))];
            Moves(p, c, c.(pc := at + LoopEnd(l), locals := last[slot := Int(a + times)]))
  {
    BoundIteration(p, at, slot, bounds, n, l, c, a, z);
    if a > z {
      assert c.locals[slot := Int(a)] == c.locals;
    } else {
      WrapIsModulo(a + 1);
      var last := c.locals[bounds.cx.next := Int(Cut32(n))];
      var d := c.(locals := last[slot := Int(a + 1)]);
      var times := 1 + RangeCount.Count(a + 1, Cut32(n));
      CountsToBound(p, at, slot, bounds, n, l, d, a + 1);
      MovesGoes(p, c, d);
      assert d.locals[slot := Int(a + times)] == last[slot := Int(a + times)];
      GoesMoves(p, c, d, c.(pc := at + LoopEnd(l), locals := last[slot := Int(a + times)]));
    }
  }
}
