/** The straight-line parts of loops: heads, tests, increments, and the set-up of for loops. */
module LoopSteps {
  import opened Values
  import opened Ast
  import opened Machine
  import opened Lowering
  import opened LoweringFacts
  import opened Semantics
  import opened Layers
  import opened Agreement
  import opened ExprProof
  import opened Placement
  import opened StmtSteps
  import Runs

  /** The mode speaks of the exits the fragment really has. */
  predicate ModeFits(m: Mode, x: Exits, f: Frag) {
    (f.brk >= 0 ==> (m.brk <==> x.brk.None?)) && (f.cont >= 0 ==> (m.cont <==> x.cont.None?))
  }

  predicate ExitsInCode(p: Program, x: Exits) {
    && (x.brk.Some? ==> 0 <= x.brk.value <= |p.code|)
    && (x.cont.Some? ==> 0 <= x.cont.value <= |p.code|)
  }

  /** A loop lies at index at; cx is the context of its body. */
  ghost predicate LoopReady(p: Program, at: int, l: LoopParts, cx: Ctx) {
    && LoopAt(p, at, l) && GoodCtx(cx) && |p.code| < TWO_31
    && CodeAt(p, at + |l.init|, l.test)
    && CodeAt(p, at + |l.init| + |l.test|, ExitJump(l))
    && CodeAt(p, at + |l.init| + |l.test| + ExitLen(l), l.pre)
    && Placed(p, at + BodyAt(l), l.body, BodyExits(l, at))
    && ModeFits(LOOP_BODY, BodyExits(l, at), l.body)
    && CodeAt(p, at + StepAt(l), l.step)
    && CodeAt(p, at + StepAt(l) + |l.step|, BackJump(l))
    && 0 <= at && at + LoopEnd(l) <= |p.code|
  }

  lemma LoopIsReady(p: Program, at: int, l: LoopParts, cx: Ctx)
    requires CodeAt(p, at, LoopCode(l)) && WellHoled(l.body) && GoodCtx(cx) && |p.code| < TWO_31
    ensures LoopReady(p, at, l, cx) && CodeAt(p, at, l.init) && |LoopCode(l)| == LoopEnd(l)
  {
    PlaceLoop(p, at, l);
    PlaceFront(p, at, l);
    PlaceBack(p, at, l);
  }

  /** The test said stop. */
  lemma EndLoop(p: Program, cx: Ctx, c: Config, end: int, st: State)
    requires Moves(p, c, c.(pc := end)) && c.stack == [] && c.globals == st.globals
    requires Agree(cx.scopes, st.env, c.locals)
    ensures Arrives(p, c, end, cx, cx.scopes, st.env, st.globals)
  {
    var d := c.(pc := end);
    MovesGoes(p, c, d);
    FrameSelf(cx, c.locals);
    ArrivesAt(p, cx, c, d, cx.scopes, st);
  }

  // ----- slots of the loop's own scope -----

  lemma TopRead(cx: Ctx, st: State, locals: seq<Value>, x: string, slot: nat)
    requires Agree(cx.scopes, st.env, locals) && BoundAt(cx.scopes, |cx.scopes| - 1, x, slot) && !Reserved(x)
    ensures var a := ReadVar(st, x);
            !a.Failed? && (a.V? ==> slot < |locals| && locals[slot] == a.v)
  {
    AgreeIs(cx.scopes, st.env, locals);
    var k := |cx.scopes| - 1;
    assert AgreeScope(cx.scopes[k], st.env[k], locals);
  }

  /** The slot of a hidden variable survives whatever user code does. */
  lemma HiddenKept(cx: Ctx, before: seq<Value>, after: seq<Value>, h: string, slot: nat)
    requires GoodCtx(cx) && Frame(cx, before, after) && Reserved(h)
    requires BoundAt(cx.scopes, |cx.scopes| - 1, h, slot) && slot < |before|
    ensures after[slot] == before[slot]
  {
    GoodIs(cx);
    FrameIs(cx, before, after);
    assert !UserSlot(cx.scopes, slot);
  }

  /** Storing to the loop variable's slot sets the loop variable. */
  lemma TopSet(cx: Ctx, st: State, locals: seq<Value>, x: string, slot: nat, v: Value)
    requires GoodCtx(cx) && Agree(cx.scopes, st.env, locals) && slot < |locals|
    requires BoundAt(cx.scopes, |cx.scopes| - 1, x, slot) && !Reserved(x)
    ensures Agree(cx.scopes, SetTop(st, x, Set(v)).env, locals[slot := v]) && Frame(cx, locals, locals[slot := v])
    ensures UserSlot(cx.scopes, slot)
  {
    GoodIs(cx);
    TopStoreAgrees(cx.scopes, st.env, locals, x, v);
    assert UserSlot(cx.scopes, slot);
    FrameStore(cx, locals, slot, v);
  }

  /** The step of a for loop and its back jump: the counter goes up and control is at the head. */
  lemma StepRuns(p: Program, at: int, l: LoopParts, cx: Ctx, c: Config, d: Config, slot: nat, k: nat) returns (again: Config)
    requires LoopReady(p, at, l, cx) && l.step == Increment(slot, [Op1(PUSH, k)])
    requires Goes(p, c, d) && d.pc == at + StepAt(l) && d.stack == []
    requires slot < |d.locals| < TWO_31 && k < |p.pool| < TWO_31 && p.pool[k] == Int(1)
    ensures Moves(p, c, again)
    ensures again == Config(at + |l.init|, [], d.locals[slot := Int(Wrap64(AsInt(d.locals[slot]) + 1))], d.globals)
  {
    var locals := d.locals[slot := Int(Wrap64(AsInt(d.locals[slot]) + 1))];
    var e := Config(d.pc + 4, [], locals, d.globals);
    again := Config(at + |l.init|, [], locals, d.globals);
    IncrementRuns(p, d, slot, k);
    GoesGoes(p, c, d, e);
    JumpStep(p, e, |l.init| - LoopEnd(l));
    GoesMove(p, c, e, again);
  }

  /** The test of a for loop: two locals, a comparison, and the jump out of the loop. */
  lemma TestRuns(p: Program, at: int, l: LoopParts, cx: Ctx, c: Config, x: nat, y: nat, op: OpCode, stop: bool)
    requires LoopReady(p, at, l, cx) && c.pc == at + |l.init| && l.exit == Some(JMP_IF)
    requires l.test == [Op1(LOAD_LOCAL, x), Op1(LOAD_LOCAL, y), Op(op)] && (op == IGT || op == IGE)
    requires x < |c.locals| && y < |c.locals| < TWO_31
    requires BinaryOp(op, c.locals[x], c.locals[y]) == Some(Bool(stop))
    ensures Moves(p, c, c.(pc := if stop then at + LoopEnd(l) else at + |l.init| + |l.test| + 1))
  {
    CompareRuns(p, c, x, y, op);
    BranchRuns(p, c, 3, JMP_IF, LoopEnd(l) - (|l.init| + 4), Bool(stop));
  }

  // ----- for over a range -----

  /** The static shape of a range loop: x in `slot`, the bound in `hid`. */
  ghost predicate RangeShape(p: Program, at: int, x: string, slot: nat, hid: nat, b: Stmts, body: Lowered, l: LoopParts,
                             cx: Ctx) {
    && LoopReady(p, at, l, cx) && Own(All(b)) && !Reserved(x)
    && body == ScopedCode(b, cx, false, false) && l.body == body.frag && Grows(cx, body.cx)
    && l.test == [Op1(LOAD_LOCAL, slot), Op1(LOAD_LOCAL, hid), Op(IGT)] && l.exit == Some(JMP_IF) && l.pre == []
    && l.step == Increment(slot, [Op1(PUSH, |body.cx.pool|)])
    && BoundAt(cx.scopes, |cx.scopes| - 1, x, slot) && BoundAt(cx.scopes, |cx.scopes| - 1, "__end", hid)
  }

  /** c is at the head of the loop, in a state that agrees with st, and the bound is in its slot. */
  ghost predicate AtRangeHead(p: Program, at: int, hid: nat, bound: Value, body: Lowered, l: LoopParts, cx: Ctx, st: State,
                              c: Config) {
    && Begin(p, cx, WithConst(body.cx, Int(1)), st, c) && c.pc == at + |l.init|
    && hid < |c.locals| && c.locals[hid] == bound
  }

  lemma RangeTestRuns(p: Program, at: int, x: string, slot: nat, hid: nat, b: Stmts, body: Lowered, l: LoopParts, cx: Ctx,
                      bound: Value, st: State, c: Config)
    requires RangeShape(p, at, x, slot, hid, b, body, l, cx) && AtRangeHead(p, at, hid, bound, body, l, cx, st, c)
    ensures var a := ReadVar(st, x);
            !a.Failed? &&
            (a.V? ==> Moves(p, c, c.(pc := at + if AsInt(a.v) > AsInt(bound) then LoopEnd(l) else BodyAt(l))))
  {
    TopRead(cx, st, c.locals, x, slot);
    var a := ReadVar(st, x);
    if a.V? {
      TestRuns(p, at, l, cx, c, slot, hid, IGT, AsInt(a.v) > AsInt(bound));
    }
  }

  /** From the step of an iteration that ended in st1: the next head, with the loop variable incremented. */
  lemma RangeStepRuns(p: Program, at: int, x: string, slot: nat, hid: nat, b: Stmts, body: Lowered, l: LoopParts, cx: Ctx,
                      bound: Value, st: State, c: Config, st1: State) returns (again: Config)
    requires RangeShape(p, at, x, slot, hid, b, body, l, cx) && AtRangeHead(p, at, hid, bound, body, l, cx, st, c)
    requires Arrives(p, c, at + StepAt(l), cx, cx.scopes, st1.env, st1.globals)
    ensures var a := ReadVar(st1, x);
            !a.Failed? &&
            (a.V? ==>
              && Moves(p, c, again) && Frame(cx, c.locals, again.locals)
              && AtRangeHead(p, at, hid, bound, body, l, cx, SetTop(st1, x, Set(Int(Wrap64(AsInt(a.v) + 1)))), again))
  {
    var d := Resume(p, cx, c, at + StepAt(l), cx.scopes, st1);
    TopRead(cx, st1, d.locals, x, slot);
    var a := ReadVar(st1, x);
    again := d;
    if a.V? {
      again := StepRuns(p, at, l, cx, c, d, slot, |body.cx.pool|);
      var next := Int(Wrap64(AsInt(a.v) + 1));
      TopSet(cx, st1, d.locals, x, slot, next);
      FrameTrans(cx, c.locals, d.locals, again.locals);
      HiddenKept(cx, c.locals, again.locals, "__end", hid);
    }
  }

  lemma SetTopTwice(st: State, x: string, a: Cell, b: Cell)
    ensures SetTop(SetTop(st, x, a), x, b) == SetTop(st, x, b)
  {
    var k := |st.env| - 1;
    if k >= 0 {
      assert st.env[k][x := a][x := b] == st.env[k][x := b];
    } else {
      assert map[x := a][x := b] == map[x := b];
    }
  }

  /** The contexts of a range loop. */
  lemma RangeContexts(y: string, bounds: Bounds, b: Stmts, cx: Ctx, cx2: Ctx, body: Lowered)
    requires GoodCtx(cx) && cx.pool <= bounds.cx.pool && bounds.cx == Allocate(cx, y).(pool := bounds.cx.pool)
    requires cx2 == Allocate(bounds.cx, "__end") && body == ScopedCode(b, cx2, false, false) && !Reserved(y)
    ensures GoodCtx(bounds.cx) && Grows(cx, bounds.cx) && bounds.cx.next == cx.next + 1
    ensures GoodCtx(cx2) && Grows(cx, cx2) && Grows(cx2, body.cx) && body.cx.scopes == cx2.scopes && cx2.next == cx.next + 2
    ensures WellHoled(body.frag)
    ensures BoundAt(cx2.scopes, |cx2.scopes| - 1, y, cx.next)
    ensures BoundAt(cx2.scopes, |cx2.scopes| - 1, "__end", cx.next + 1)
  {
    var cx1 := Allocate(cx, y);
    AllocateGood(cx, y);
    PoolGood(cx1, bounds.cx.pool);
    GrowsTrans(cx, cx1, bounds.cx);
    AllocateGood(bounds.cx, "__end");
    GrowsTrans(cx, bounds.cx, cx2);
    ScopedCodeGood(b, cx2, false, false);
    CodeHoled(All(b), EnterScope(cx2), false, false);
  }

  /** The bounds are computed and stored, in order. */
  lemma BoundsRun(p: Program, c: Config, slot: nat, bounds: Bounds, a: Answer, z: Answer)
    requires CodeAt(p, c.pc, bounds.lo + [Op1(STORE_LOCAL, slot)] + bounds.hi + [Op1(STORE_LOCAL, bounds.cx.next)])
    requires slot < |c.locals| && bounds.cx.next < |c.locals| < TWO_31
    requires Computes(p, c, |bounds.lo|, a)
    requires a.V? ==> Computes(p, c.(pc := c.pc + |bounds.lo| + 1, locals := c.locals[slot := a.v]), |bounds.hi|, z)
    ensures a.Failed? || (a.V? && z.Failed?) ==> Stops(p, c, Error)
    ensures a.V? && z.V? ==> Goes(p, c, c.(pc := c.pc + |bounds.lo| + |bounds.hi| + 2,
                                           locals := c.locals[slot := a.v][bounds.cx.next := z.v]))
  {
    var store, end := [Op1(STORE_LOCAL, slot)], bounds.cx.next;
    var last := [Op1(STORE_LOCAL, end)];
    assert bounds.lo + store + bounds.hi + last == (bounds.lo + store) + (bounds.hi + last);
    CodeSplit(p, c.pc, bounds.lo + store, bounds.hi + last);
    StoreRuns(p, c, bounds.lo, slot, a);
    if a.V? {
      var d := c.(pc := c.pc + |bounds.lo| + 1, locals := c.locals[slot := a.v]);
      StoreRuns(p, d, bounds.hi, end, z);
      if z.V? {
        GoesGoes(p, c, d, c.(pc := c.pc + |bounds.lo| + |bounds.hi| + 2,
                             locals := c.locals[slot := a.v][end := z.v]));
      } else if z.Failed? {
        GoesStops(p, c, d, Error);
      }
    }
  }

  /** The bounds of `for y in lo..hi`: y is already in scope, unset while lo is computed. */
  lemma RangeBoundsRun(p: Program, y: string, lo: Expr, hi: Expr, cx: Ctx, bounds: Bounds, st: State, c: Config)
    requires bounds == RangeBounds(y, lo, hi, cx) && bounds.cx.pool <= p.pool
    requires GoodCtx(cx) && Fits(p, |c.locals|) && Agree(cx.scopes, st.env, c.locals) && c.globals == st.globals
    requires cx.next + 1 < |c.locals| && !Reserved(y) && UserExpr(lo) && UserExpr(hi)
    requires CodeAt(p, c.pc, bounds.lo + [Op1(STORE_LOCAL, cx.next)] + bounds.hi + [Op1(STORE_LOCAL, cx.next + 1)])
    ensures var a := ValueOf(lo, SetTop(st, y, Unset));
            var z := if a.V? then ValueOf(hi, SetTop(st, y, Set(a.v))) else a;
            && (a.Failed? || (a.V? && z.Failed?) ==> Stops(p, c, Error))
            && (a.V? && z.V? ==> Goes(p, c, c.(pc := c.pc + |bounds.lo| + |bounds.hi| + 2,
                                               locals := c.locals[cx.next := a.v][cx.next + 1 := z.v])))
  {
    var cx1 := Allocate(cx, y);
    var st0 := SetTop(st, y, Unset);
    var e1 := CodeOf(lo, cx1.scopes, cx1.pool);
    AllocateGood(cx, y);
    DeclareAgrees(cx, st.env, c.locals, y, Unset);
    var store, last := [Op1(STORE_LOCAL, cx.next)], [Op1(STORE_LOCAL, cx.next + 1)];
    assert bounds.lo + store + bounds.hi + last == bounds.lo + (store + (bounds.hi + last));
    CodeSplit(p, c.pc, bounds.lo, store + (bounds.hi + last));
    CodeSplit(p, c.pc + |bounds.lo|, store, bounds.hi + last);
    CodeSplit(p, c.pc + |bounds.lo| + 1, bounds.hi, last);
    ValueRuns(p, lo, cx1, st0, c);
    var a := ValueOf(lo, st0);
    var z := a;
    if a.V? {
      var st1 := SetTop(st, y, Set(a.v));
      var d := c.(pc := c.pc + |bounds.lo| + 1, locals := c.locals[cx.next := a.v]);
      NextStoreAgrees(cx, st.env, c.locals, cx.next, a.v);
      DeclareAgrees(cx, st.env, d.locals, y, Set(a.v));
      ValueRuns(p, hi, cx1.(pool := e1.pool), st1, d);
      z := ValueOf(hi, st1);
    }
    BoundsRun(p, c, cx.next, bounds, a, z);
  }

  /** The bounds of `for y in n`: 1 and n. */
  lemma CountBoundsRun(p: Program, y: string, n: int, cx: Ctx, bounds: Bounds, c: Config)
    requires bounds == CountBounds(y, n, cx) && bounds.cx.pool <= p.pool && Fits(p, |c.locals|)
    requires cx.next + 1 < |c.locals|
    requires CodeAt(p, c.pc, bounds.lo + [Op1(STORE_LOCAL, cx.next)] + bounds.hi + [Op1(STORE_LOCAL, cx.next + 1)])
    ensures Goes(p, c, c.(pc := c.pc + |bounds.lo| + |bounds.hi| + 2,
                          locals := c.locals[cx.next := Int(1)][cx.next + 1 := Int(Cut32(n))]))
  {
    var store, last := [Op1(STORE_LOCAL, cx.next)], [Op1(STORE_LOCAL, cx.next + 1)];
    assert bounds.lo + store + bounds.hi + last == bounds.lo + (store + (bounds.hi + last));
    CodeSplit(p, c.pc, bounds.lo, store + (bounds.hi + last));
    CodeSplit(p, c.pc + |bounds.lo|, store, bounds.hi + last);
    CodeSplit(p, c.pc + |bounds.lo| + 1, bounds.hi, last);
    ConstRuns(p, cx.pool, Int(1), c);
    var d := c.(pc := c.pc + |bounds.lo| + 1, locals := c.locals[cx.next := Int(1)]);
    ConstRuns(p, cx.pool + [Int(1)], Int(Cut32(n)), d);
    BoundsRun(p, c, cx.next, bounds, V(Int(1)), V(Int(Cut32(n))));
  }

  /** What a range loop is made of: its bounds, the context of its body, its body. */
  ghost predicate RangePieces(y: string, bounds: Bounds, b: Stmts, cx: Ctx, cx2: Ctx, body: Lowered, l: LoopParts) {
    && cx2 == Allocate(bounds.cx, "__end") && body == ScopedCode(b, cx2, false, false) && !Reserved(y)
    && bounds.cx == Allocate(cx, y).(pool := bounds.cx.pool) && cx.pool <= bounds.cx.pool
    && l == RangeParts(cx.next, bounds, body)
  }

  lemma RangeReady(p: Program, y: string, bounds: Bounds, b: Stmts, cx: Ctx, cx2: Ctx, body: Lowered, l: LoopParts, at: int)
    requires RangePieces(y, bounds, b, cx, cx2, body, l) && GoodCtx(cx)
    requires CodeAt(p, at, LoopCode(l)) && |p.code| < TWO_31
    ensures LoopReady(p, at, l, cx2) && CodeAt(p, at, l.init) && |LoopCode(l)| == LoopEnd(l)
    ensures body.cx.scopes == cx2.scopes && bounds.cx.pool <= body.cx.pool && cx.next + 2 <= body.cx.next
    ensures bounds.cx.next == cx.next + 1
  {
    RangeContexts(y, bounds, b, cx, cx2, body);
    LoopIsReady(p, at, l, cx2);
  }

  /** After the bounds: the loop variable is set, the bound is hidden, and control is at the head. */
  lemma RangeEnters(p: Program, y: string, bounds: Bounds, b: Stmts, cx: Ctx, cx2: Ctx, body: Lowered, l: LoopParts,
                    v: Value, w: Value, st: State, c: Config, d: Config)
    requires RangePieces(y, bounds, b, cx, cx2, body, l) && LoopReady(p, c.pc, l, cx2) && Own(All(b))
    requires Begin(p, cx, WithConst(body.cx, Int(1)), st, c) && cx.next + 1 < |c.locals|
    requires d == c.(pc := c.pc + |bounds.lo| + |bounds.hi| + 2, locals := c.locals[cx.next := v][cx.next + 1 := w])
    ensures RangeShape(p, c.pc, y, cx.next, cx.next + 1, b, body, l, cx2)
    ensures AtRangeHead(p, c.pc, cx.next + 1, w, body, l, cx2, SetTop(st, y, Set(v)), d)
    ensures Frame(cx, c.locals, d.locals) && Grows(cx, cx2)
  {
    RangeContexts(y, bounds, b, cx, cx2, body);
    RangeAgrees(y, bounds.cx, cx, st, c.locals, v, w);
    FrameStore(cx, c.locals, cx.next, v);
    FrameStore(cx, c.locals[cx.next := v], cx.next + 1, w);
    FrameTrans(cx, c.locals, c.locals[cx.next := v], d.locals);
  }

  /** Declaring the loop variable and hiding the bound behind it. */
  lemma RangeAgrees(y: string, cx1: Ctx, cx: Ctx, st: State, locals: seq<Value>, v: Value, w: Value)
    requires GoodCtx(cx) && GoodCtx(cx1) && cx1 == Allocate(cx, y).(pool := cx1.pool) && !Reserved(y)
    requires Agree(cx.scopes, st.env, locals) && cx.next + 1 < |locals|
    ensures Agree(Allocate(cx1, "__end").scopes, SetTop(st, y, Set(v)).env, locals[cx.next := v][cx.next + 1 := w])
  {
    var l1 := locals[cx.next := v];
    NextStoreAgrees(cx, st.env, locals, cx.next, v);
    DeclareAgrees(cx, st.env, l1, y, Set(v));
    NextStoreAgrees(cx1, Declare(st.env, y, Set(v)), l1, cx.next + 1, w);
    HideAgrees(cx1, Declare(st.env, y, Set(v)), l1[cx.next + 1 := w], "__end");
  }

  // ----- for over an array -----

  /** The static shape of an array loop: array, length and index in arr, arr + 1, arr + 2; x in arr + 3. */
  ghost predicate EachShape(p: Program, at: int, x: string, arr: nat, b: Stmts, body: Lowered, l: LoopParts, cx: Ctx) {
    && LoopReady(p, at, l, cx) && Own(All(b)) && !Reserved(x)
    && body == ScopedCode(b, cx, false, false) && l.body == body.frag && Grows(cx, body.cx)
    && l.test == [Op1(LOAD_LOCAL, arr + 2), Op1(LOAD_LOCAL, arr + 1), Op(IGE)] && l.exit == Some(JMP_IF)
    && l.pre == [Op1(LOAD_LOCAL, arr), Op1(LOAD_LOCAL, arr + 2), Op(LOAD_INDEX), Op1(STORE_LOCAL, arr + 3)]
    && l.step == Increment(arr + 2, [Op1(PUSH, |body.cx.pool|)])
    && EachSlots(cx, x, arr)
  }

  ghost predicate EachSlots(cx: Ctx, x: string, arr: nat) {
    var k := |cx.scopes| - 1;
    && BoundAt(cx.scopes, k, "__arr", arr) && BoundAt(cx.scopes, k, "__len", arr + 1)
    && BoundAt(cx.scopes, k, "__idx", arr + 2) && BoundAt(cx.scopes, k, x, arr + 3) && arr + 4 <= cx.next
  }

  /** The hidden variables hold the array, its length and the current index. */
  predicate Visits(locals: seq<Value>, arr: nat, a: Value, len: int, i: int) {
    arr + 4 <= |locals| && locals[arr] == a && locals[arr + 1] == Int(len) && locals[arr + 2] == Int(i)
    && 0 <= i && len < TWO_63
  }

  ghost predicate AtEachHead(p: Program, at: int, arr: nat, a: Value, len: int, i: int, body: Lowered, l: LoopParts,
                             cx: Ctx, st: State, c: Config) {
    && Begin(p, cx, WithConst(body.cx, Int(1)), st, c) && c.pc == at + |l.init| && Visits(c.locals, arr, a, len, i)
  }

  /** The element is loaded and stored in the loop variable; an index without element is an error. */
  lemma ElementRuns(p: Program, at: int, x: string, arr: nat, b: Stmts, body: Lowered, l: LoopParts, cx: Ctx, a: Value,
                    len: int, i: int, st: State, c: Config) returns (d: Config)
    requires EachShape(p, at, x, arr, b, body, l, cx) && AtEachHead(p, at, arr, a, len, i, body, l, cx, st, c) && i < len
    ensures match Element(a, i)
            case None => Stops(p, c, Error)
            case Some(v) => Goes(p, c, d) && d == Config(at + BodyAt(l), [], c.locals[arr + 3 := v], c.globals)
  {
    TestRuns(p, at, l, cx, c, arr + 2, arr + 1, IGE, false);
    var e := c.(pc := at + |l.init| + |l.test| + 1);
    MovesGoes(p, c, e);
    d := LoadElement(p, e, arr, a, i);
    if Element(a, i).None? {
      GoesStops(p, c, e, Error);
    } else {
      GoesGoes(p, c, e, d);
    }
  }

  /** The first instructions of an iteration: element i of the array goes to the loop variable. */
  lemma LoadElement(p: Program, c: Config, arr: nat, a: Value, i: int) returns (d: Config)
    requires CodeAt(p, c.pc, [Op1(LOAD_LOCAL, arr), Op1(LOAD_LOCAL, arr + 2), Op(LOAD_INDEX), Op1(STORE_LOCAL, arr + 3)])
    requires arr + 3 < |c.locals| < TWO_31 && c.locals[arr] == a && c.locals[arr + 2] == Int(i)
    ensures match Element(a, i)
            case None => Stops(p, c, Error)
            case Some(v) => Goes(p, c, d) && d == c.(pc := c.pc + 4, locals := c.locals[arr + 3 := v])
  {
    var load, store := [Op1(LOAD_LOCAL, arr), Op1(LOAD_LOCAL, arr + 2), Op(LOAD_INDEX)], [Op1(STORE_LOCAL, arr + 3)];
    assert [Op1(LOAD_LOCAL, arr), Op1(LOAD_LOCAL, arr + 2), Op(LOAD_INDEX), Op1(STORE_LOCAL, arr + 3)] == load + store;
    CodeSplit(p, c.pc, load, store);
    LoadLoadOp(p, c, arr, arr + 2, LOAD_INDEX);
    d := c;
    if Element(a, i).Some? {
      d := c.(pc := c.pc + 4, locals := c.locals[arr + 3 := Element(a, i).value]);
      StoreRuns(p, c, load, arr + 3, V(Element(a, i).value));
    }
  }

  /**
   * From the step of an iteration that ended in st1: the next head, with the index incremented. The index is
   * hidden from the program, so the frame is that of the context cx0 around the loop.
   */
  lemma EachStepRuns(p: Program, cx0: Ctx, at: int, x: string, arr: nat, b: Stmts, body: Lowered, l: LoopParts, cx: Ctx, a: Value,
                     len: int, i: int, st: State, c: Config, st1: State) returns (again: Config)
    requires EachShape(p, at, x, arr, b, body, l, cx) && AtEachHead(p, at, arr, a, len, i, body, l, cx, st, c) && i < len
    requires Arrives(p, c, at + StepAt(l), cx, cx.scopes, st1.env, st1.globals)
    requires Grows(cx0, cx) && cx0.next <= arr
    ensures Moves(p, c, again) && Frame(cx0, c.locals, again.locals)
    ensures AtEachHead(p, at, arr, a, len, i + 1, body, l, cx, st1, again)
  {
    var d := Resume(p, cx, c, at + StepAt(l), cx.scopes, st1);
    HiddenKept(cx, c.locals, d.locals, "__arr", arr);
    HiddenKept(cx, c.locals, d.locals, "__len", arr + 1);
    HiddenKept(cx, c.locals, d.locals, "__idx", arr + 2);
    again := StepRuns(p, at, l, cx, c, d, arr + 2, |body.cx.pool|);
    HiddenStore(cx, st1, d.locals, "__idx", arr + 2, Int(i + 1));
    FrameWiden(cx0, cx, c.locals, d.locals);
    FrameStore(cx0, d.locals, arr + 2, Int(i + 1));
    FrameTrans(cx0, c.locals, d.locals, again.locals);
  }

  /** Writing a hidden variable changes nothing the program can see. */
  lemma HiddenStore(cx: Ctx, st: State, locals: seq<Value>, h: string, slot: nat, v: Value)
    requires GoodCtx(cx) && Agree(cx.scopes, st.env, locals) && Reserved(h)
    requires BoundAt(cx.scopes, |cx.scopes| - 1, h, slot) && slot < |locals|
    ensures Agree(cx.scopes, st.env, locals[slot := v])
  {
    GoodIs(cx);
    FreshStoreAgrees(cx.scopes, st.env, locals, slot, v);
  }

  /** The contexts of an array loop. */
  lemma EachContexts(y: string, e: ExprCode, b: Stmts, cx: Ctx, cx4: Ctx, body: Lowered)
    requires GoodCtx(cx) && cx.pool <= e.pool && !Reserved(y)
    requires cx4 == EachCtx(y, cx.(pool := e.pool)) && body == ScopedCode(b, cx4, false, false)
    ensures GoodCtx(cx4) && Grows(cx, cx4) && Grows(cx4, body.cx) && body.cx.scopes == cx4.scopes
    ensures WellHoled(body.frag) && EachSlots(cx4, y, cx.next) && cx4.next == cx.next + 4
    ensures cx4.pool == e.pool + [Int(0)]
  {
    var cx0 := cx.(pool := e.pool);
    PoolGood(cx, e.pool);
    EachCtxGood(y, cx0);
    GrowsTrans(cx, cx0, cx4);
    ScopedCodeGood(b, cx4, false, false);
    CodeHoled(All(b), EnterScope(cx4), false, false);
    EachCtxSlots(y, cx0);
  }

  lemma EachCtxSlots(y: string, cx: Ctx)
    requires |cx.scopes| >= 1 && !Reserved(y)
    ensures EachSlots(EachCtx(y, cx), y, cx.next)
  {
  }

  /** The set-up: array, length and index are stored; what has no length is an error. */
  lemma EachInitRuns(p: Program, c: Config, code: seq<Instr>, arr: nat, pool: Pool, a: Value) returns (d: Config)
    requires CodeAt(p, c.pc, code + EachInit(arr, pool)) && Goes(p, c, After(c, |code|, a))
    requires arr + 3 < |c.locals| < TWO_31 && |p.pool| < TWO_31 && pool + [Int(0)] <= p.pool
    ensures match UnaryOp(ARRAY_LEN, a)
            case None => Stops(p, c, Error)
            case Some(len) =>
              && Goes(p, c, d)
              && d == c.(pc := c.pc + |code| + 6, locals := c.locals[arr := a][arr + 1 := len][arr + 2 := Int(0)])
  {
    var first, second := [Op1(STORE_LOCAL, arr), Op1(LOAD_LOCAL, arr), Op(ARRAY_LEN)], [Op1(STORE_LOCAL, arr + 1)];
    var third := [Op1(PUSH, |pool|), Op1(STORE_LOCAL, arr + 2)];
    assert code + EachInit(arr, pool) == code + (first + (second + third));
    CodeSplit(p, c.pc, code, first + (second + third));
    var c1 := After(c, |code|, a);
    CodeSplit(p, c1.pc, first, second + third);
    d := LengthRuns(p, c1, arr, c.stack, a);
    var len := UnaryOp(ARRAY_LEN, a);
    if len.None? {
      GoesStops(p, c, c1, Error);
    } else {
      GoesGoes(p, c, c1, d);
      CodeSplit(p, d.pc, second, third);
      CodeHead(p, d.pc, Op1(STORE_LOCAL, arr + 1));
      StoreStep(p, d, arr + 1, c.stack, len.value);
      var e := d.(pc := d.pc + 1, stack := c.stack, locals := d.locals[arr + 1 := len.value]);
      GoesStep(p, c, d, e);
      d := ZeroRuns(p, e, arr + 2, |pool|);
      GoesGoes(p, c, e, d);
    }
  }

  lemma LengthRuns(p: Program, c: Config, arr: nat, below: seq<Value>, a: Value) returns (d: Config)
    requires CodeAt(p, c.pc, [Op1(STORE_LOCAL, arr), Op1(LOAD_LOCAL, arr), Op(ARRAY_LEN)])
    requires c.stack == below + [a] && arr < |c.locals| < TWO_31
    ensures match UnaryOp(ARRAY_LEN, a)
            case None => Stops(p, c, Error)
            case Some(len) => Goes(p, c, d) && d == c.(pc := c.pc + 3, stack := below + [len], locals := c.locals[arr := a])
  {
    var store, load, length := Op1(STORE_LOCAL, arr), Op1(LOAD_LOCAL, arr), Op(ARRAY_LEN);
    assert [store, load, length] == [store] + ([load] + [length]);
    CodeSplit(p, c.pc, [store], [load] + [length]);
    CodeSplit(p, c.pc + 1, [load], [length]);
    CodeHead(p, c.pc, store);
    CodeHead(p, c.pc + 1, load);
    CodeHead(p, c.pc + 2, length);
    var c1 := c.(pc := c.pc + 1, stack := below, locals := c.locals[arr := a]);
    var c2 := After(c1, 1, a);
    StoreStep(p, c, arr, below, a);
    LoadStep(p, c1, arr);
    UnaryStep(p, c2, ARRAY_LEN, below, a);
    Start(p, c);
    GoesStep(p, c, c, c1);
    GoesStep(p, c, c1, c2);
    d := c2;
    match UnaryOp(ARRAY_LEN, a)
    case None => GoesStop(p, c, c2, Error);
    case Some(len) =>
      d := c.(pc := c.pc + 3, stack := below + [len], locals := c.locals[arr := a]);
      GoesStep(p, c, c2, d);
  }

  lemma ZeroRuns(p: Program, c: Config, slot: nat, k: nat) returns (d: Config)
    requires CodeAt(p, c.pc, [Op1(PUSH, k), Op1(STORE_LOCAL, slot)])
    requires slot < |c.locals| < TWO_31 && k < |p.pool| < TWO_31 && p.pool[k] == Int(0)
    ensures Goes(p, c, d) && d == c.(pc := c.pc + 2, locals := c.locals[slot := Int(0)])
  {
    assert [Op1(PUSH, k), Op1(STORE_LOCAL, slot)] == [Op1(PUSH, k)] + [Op1(STORE_LOCAL, slot)];
    CodeSplit(p, c.pc, [Op1(PUSH, k)], [Op1(STORE_LOCAL, slot)]);
    CodeHead(p, c.pc, Op1(PUSH, k));
    PushStep(p, c, k);
    Start(p, c);
    GoesStep(p, c, c, After(c, 1, Int(0)));
    StoreRuns(p, c, [Op1(PUSH, k)], slot, V(Int(0)));
    d := c.(pc := c.pc + 2, locals := c.locals[slot := Int(0)]);
  }

  /** What an array loop is made of: the code of the array, the context of its body, its body. */
  ghost predicate EachPieces(y: string, e: ExprCode, b: Stmts, cx: Ctx, cx4: Ctx, body: Lowered, l: LoopParts) {
    && cx.pool <= e.pool && cx4 == EachCtx(y, cx.(pool := e.pool)) && body == ScopedCode(b, cx4, false, false)
    && l == EachParts(e, cx.next, body) && !Reserved(y)
  }

  lemma EachReady(p: Program, y: string, e: ExprCode, b: Stmts, cx: Ctx, cx4: Ctx, body: Lowered, l: LoopParts, at: int)
    requires EachPieces(y, e, b, cx, cx4, body, l) && GoodCtx(cx)
    requires CodeAt(p, at, LoopCode(l)) && |p.code| < TWO_31
    ensures LoopReady(p, at, l, cx4) && |LoopCode(l)| == LoopEnd(l)
    ensures CodeAt(p, at, l.init) && CodeAt(p, at, e.code)
    ensures body.cx.scopes == cx4.scopes && e.pool + [Int(0)] <= body.cx.pool && cx.next + 4 <= body.cx.next
  {
    EachContexts(y, e, b, cx, cx4, body);
    LoopIsReady(p, at, l, cx4);
    CodeSplit(p, at, e.code, EachInit(cx.next, e.pool));
  }

  /** After the set-up: the hidden variables are set, the loop variable is declared, and control is at the head. */
  lemma EachEnters(p: Program, y: string, e: ExprCode, b: Stmts, cx: Ctx, cx4: Ctx, body: Lowered, l: LoopParts,
                   a: Value, len: int, st: State, c: Config, d: Config)
    requires EachPieces(y, e, b, cx, cx4, body, l) && len < TWO_63 && LoopReady(p, c.pc, l, cx4) && Own(All(b))
    requires Begin(p, cx, WithConst(body.cx, Int(1)), st, c) && cx.next + 4 <= |c.locals|
    requires d == c.(pc := c.pc + |e.code| + 6,
                     locals := c.locals[cx.next := a][cx.next + 1 := Int(len)][cx.next + 2 := Int(0)])
    ensures EachShape(p, c.pc, y, cx.next, b, body, l, cx4)
    ensures AtEachHead(p, c.pc, cx.next, a, len, 0, body, l, cx4, SetTop(st, y, Unset), d)
    ensures Frame(cx, c.locals, d.locals)
    ensures var cx0 := cx4.(next := cx.next); Grows(cx, cx0) && Grows(cx0, cx4)
  {
    EachContexts(y, e, b, cx, cx4, body);
    HiddenStores(cx, st, c.locals, a, len);
    EachAgrees(y, cx.(pool := e.pool), st, d.locals);
    GrowsBelow(cx, cx4);
  }

  /** Slots from cx.next on can be left out of the frame. */
  lemma GrowsBelow(cx: Ctx, inner: Ctx)
    requires Grows(cx, inner)
    ensures var cx0 := inner.(next := cx.next); Grows(cx, cx0) && Grows(cx0, inner)
  {
    var cx0 := inner.(next := cx.next);
    GrowsIs(cx, inner);
    GrowsIs(cx, cx0);
    GrowsIs(cx0, inner);
  }

  /** The set-up writes only to slots that no name has yet. */
  lemma HiddenStores(cx: Ctx, st: State, locals: seq<Value>, a: Value, len: int)
    requires GoodCtx(cx) && Agree(cx.scopes, st.env, locals) && cx.next + 4 <= |locals|
    ensures var l3 := locals[cx.next := a][cx.next + 1 := Int(len)][cx.next + 2 := Int(0)];
            Agree(cx.scopes, st.env, l3) && Frame(cx, locals, l3)
  {
    var l1 := locals[cx.next := a];
    var l2 := l1[cx.next + 1 := Int(len)];
    var l3 := l2[cx.next + 2 := Int(0)];
    NextStoreAgrees(cx, st.env, locals, cx.next, a);
    NextStoreAgrees(cx, st.env, l1, cx.next + 1, Int(len));
    NextStoreAgrees(cx, st.env, l2, cx.next + 2, Int(0));
    FrameStore(cx, locals, cx.next, a);
    FrameStore(cx, l1, cx.next + 1, Int(len));
    FrameStore(cx, l2, cx.next + 2, Int(0));
    FrameTrans(cx, locals, l1, l2);
    FrameTrans(cx, locals, l2, l3);
  }

  lemma EachAgrees(y: string, cx: Ctx, st: State, locals: seq<Value>)
    requires GoodCtx(cx) && Agree(cx.scopes, st.env, locals) && cx.next + 4 <= |locals| && !Reserved(y)
    ensures Agree(EachCtx(y, cx).scopes, SetTop(st, y, Unset).env, locals)
  {
    var cx0 := WithConst(cx, Int(0));
    var cx1 := Allocate(cx0, "__arr");
    var cx2 := Allocate(cx1, "__len");
    var cx3 := Allocate(cx2, "__idx");
    AllocateGood(cx0, "__arr");
    HideAgrees(cx0, st.env, locals, "__arr");
    AllocateGood(cx1, "__len");
    HideAgrees(cx1, st.env, locals, "__len");
    AllocateGood(cx2, "__idx");
    HideAgrees(cx2, st.env, locals, "__idx");
    DeclareAgrees(cx3, st.env, locals, y, Unset);
  }
}
