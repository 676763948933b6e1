/** The straight-line pieces of statement code, and how runs of pieces compose. */
module StmtSteps {
  import opened Values
  import opened Ast
  import opened Machine
  import opened Lowering
  import opened LoweringFacts
  import opened Semantics
  import opened Agreement
  import opened ExprProof
  import opened Placement
  import Runs

  // ----- single steps and short stretches -----

  lemma JumpStep(p: Program, c: Config, off: int)
    requires CodeAt(p, c.pc, [Op1(JMP, off)]) && -TWO_31 <= off < TWO_31
    ensures Step(p, c) == Runs.Next(c.(pc := c.pc + 1 + off))
  {
    CodeHead(p, c.pc, Op1(JMP, off));
    OperandRoundTrip(off);
  }

  predicate Taken(op: OpCode, v: Value) {
    if op == JMP_IF then Truthy(v) else !Truthy(v)
  }

  /** A conditional jump pops its condition. */
  lemma BranchRuns(p: Program, c: Config, len: nat, op: OpCode, off: int, v: Value)
    requires Goes(p, c, After(c, len, v)) && CodeAt(p, c.pc + len, [Op1(op, off)])
    requires op == JMP_IF || op == JMP_IF_NOT
    requires -TWO_31 <= off < TWO_31
    ensures Moves(p, c, c.(pc := c.pc + len + 1 + if Taken(op, v) then off else 0))
  {
    var d := After(c, len, v);
    CodeHead(p, d.pc, Op1(op, off));
    OperandRoundTrip(off);
    assert d.stack[..|d.stack| - 1] == c.stack;
    GoesMove(p, c, d, c.(pc := c.pc + len + 1 + if Taken(op, v) then off else 0));
  }

  /** The only value on the stack goes to a global, away, or back to the caller. */
  lemma StoreGlobalRuns(p: Program, c: Config, d: Config, k: nat, x: string, v: Value)
    requires Goes(p, c, d) && CodeAt(p, d.pc, [Op1(STORE_GLOBAL, k)]) && d.stack == [v]
    requires k < |p.pool| < TWO_31 && p.pool[k] == Str(x)
    ensures Goes(p, c, Config(d.pc + 1, [], d.locals, d.globals[x := v]))
  {
    CodeHead(p, d.pc, Op1(STORE_GLOBAL, k));
    OperandRoundTrip(k);
    assert d.stack[..|d.stack| - 1] == [];
    GoesStep(p, c, d, Config(d.pc + 1, [], d.locals, d.globals[x := v]));
  }

  lemma PopRuns(p: Program, c: Config, d: Config, v: Value)
    requires Goes(p, c, d) && CodeAt(p, d.pc, [Op(POP)]) && d.stack == [v]
    ensures Goes(p, c, Config(d.pc + 1, [], d.locals, d.globals))
  {
    CodeHead(p, d.pc, Op(POP));
    assert d.stack[..|d.stack| - 1] == [];
    GoesStep(p, c, d, Config(d.pc + 1, [], d.locals, d.globals));
  }

  lemma RetStops(p: Program, c: Config, d: Config, v: Value)
    requires Goes(p, c, d) && CodeAt(p, d.pc, [Op(RET)]) && d.stack == [v]
    ensures Stops(p, c, Done(v, d.globals))
  {
    CodeHead(p, d.pc, Op(RET));
    GoesStop(p, c, d, Done(v, d.globals));
  }

  /** Compute a value and store it in a slot. */
  ghost predicate StoresTo(p: Program, c: Config, len: nat, slot: nat, a: Answer)
    requires slot < |c.locals|
  {
    match a
    case V(v) => Goes(p, c, c.(pc := c.pc + len, locals := c.locals[slot := v]))
    case Failed => Stops(p, c, Error)
    case Unknown => true
  }

  lemma StoreRuns(p: Program, c: Config, code: seq<Instr>, slot: nat, a: Answer)
    requires CodeAt(p, c.pc, code + [Op1(STORE_LOCAL, slot)]) && Computes(p, c, |code|, a)
    requires slot < |c.locals| < TWO_31
    ensures StoresTo(p, c, |code| + 1, slot, a)
  {
    CodeSplit(p, c.pc, code, [Op1(STORE_LOCAL, slot)]);
    if a.V? {
      var d := After(c, |code|, a.v);
      CodeHead(p, d.pc, Op1(STORE_LOCAL, slot));
      StoreStep(p, d, slot, c.stack, a.v);
      GoesStep(p, c, d, c.(pc := c.pc + (|code| + 1), locals := c.locals[slot := a.v]));
    }
  }

  /** Two locals and a comparison. */
  lemma CompareRuns(p: Program, c: Config, x: nat, y: nat, op: OpCode)
    requires CodeAt(p, c.pc, [Op1(LOAD_LOCAL, x), Op1(LOAD_LOCAL, y), Op(op)])
    requires x < |c.locals| && y < |c.locals| < TWO_31 && (op == IGT || op == IGE)
    ensures Goes(p, c, After(c, 3, BinaryOp(op, c.locals[x], c.locals[y]).value))
  {
    LoadLoadOp(p, c, x, y, op);
  }

  lemma LoadLoadOp(p: Program, c: Config, x: nat, y: nat, op: OpCode)
    requires CodeAt(p, c.pc, [Op1(LOAD_LOCAL, x), Op1(LOAD_LOCAL, y), Op(op)])
    requires x < |c.locals| && y < |c.locals| < TWO_31 && IsBinary(op)
    ensures var r := BinaryOp(op, c.locals[x], c.locals[y]);
            if r.Some? then Goes(p, c, After(c, 3, r.value)) else Stops(p, c, Error)
  {
    var i, j, k := Op1(LOAD_LOCAL, x), Op1(LOAD_LOCAL, y), Op(op);
    assert [i, j, k] == [i] + ([j] + [k]);
    CodeSplit(p, c.pc, [i], [j] + [k]);
    CodeSplit(p, c.pc + 1, [j], [k]);
    CodeHead(p, c.pc, i);
    CodeHead(p, c.pc + 1, j);
    CodeHead(p, c.pc + 2, k);
    var d := After(c, 1, c.locals[x]);
    var e := After(d, 1, c.locals[y]);
    LoadStep(p, c, x);
    LoadStep(p, d, y);
    BinaryStep(p, e, op, c.stack, c.locals[x], c.locals[y]);
    Start(p, c);
    GoesStep(p, c, c, d);
    GoesStep(p, c, d, e);
    match BinaryOp(op, c.locals[x], c.locals[y])
    case Some(v) => GoesStep(p, c, e, After(c, 3, v));
    case None => GoesStop(p, c, e, Error);
  }

  /** slot = slot + 1 */
  lemma IncrementRuns(p: Program, c: Config, slot: nat, k: nat)
    requires CodeAt(p, c.pc, Increment(slot, [Op1(PUSH, k)]))
    requires slot < |c.locals| < TWO_31 && k < |p.pool| < TWO_31 && p.pool[k] == Int(1)
    ensures Goes(p, c, c.(pc := c.pc + 4, locals := c.locals[slot := Int(Wrap64(AsInt(c.locals[slot]) + 1))]))
  {
    var load, push, add, store := Op1(LOAD_LOCAL, slot), Op1(PUSH, k), Op(IADD), Op1(STORE_LOCAL, slot);
    assert Increment(slot, [push]) == [load] + ([push] + ([add] + [store]));
    CodeSplit(p, c.pc, [load], [push] + ([add] + [store]));
    CodeSplit(p, c.pc + 1, [push], [add] + [store]);
    CodeSplit(p, c.pc + 2, [add], [store]);
    CodeHead(p, c.pc, load);
    CodeHead(p, c.pc + 1, push);
    CodeHead(p, c.pc + 2, add);
    CodeHead(p, c.pc + 3, store);
    var was := c.locals[slot];
    var sum := Int(Wrap64(AsInt(was) + 1));
    var d := After(c, 1, was);
    var e := After(d, 1, Int(1));
    var f := After(c, 3, sum);
    LoadStep(p, c, slot);
    PushStep(p, d, k);
    BinaryStep(p, e, IADD, c.stack, was, Int(1));
    StoreStep(p, f, slot, c.stack, sum);
    Start(p, c);
    GoesStep(p, c, c, d);
    GoesStep(p, c, d, e);
    GoesStep(p, c, e, f);
    GoesStep(p, c, f, c.(pc := c.pc + 4, locals := c.locals[slot := sum]));
  }

  // ----- what running a statement must do -----

  /** From c the machine gets to index pc, operand stack empty, in a state that agrees with env. */
  ghost predicate Arrives(p: Program, c: Config, pc: int, cx: Ctx, scopes: Scopes, env: Env, g: Machine.Globals) {
    exists l :: Frame(cx, c.locals, l) && Agree(scopes, env, l) && Goes(p, c, Config(pc, [], l, g))
  }

  /** The same, in at least one step. */
  ghost predicate Jumps(p: Program, c: Config, pc: int, cx: Ctx, scopes: Scopes, env: Env, g: Machine.Globals) {
    exists l :: Frame(cx, c.locals, l) && Agree(scopes, env, l) && Moves(p, c, Config(pc, [], l, g))
  }

  /**
   * The machine started at c matches the outcome o: control is at `end`, at the patched exit, returned, stopped
   * with an error, or still running after `fuel` steps. On a jump only the k outer scopes are still of interest.
   */
  ghost predicate Ran(p: Program, cx: Ctx, c: Config, x: Exits, k: nat, after: Scopes, end: int, o: Outcome, fuel: nat)
    requires k <= |cx.scopes|
  {
    match o
    case Normal(st) => Arrives(p, c, end, cx, after, st.env, st.globals)
    case Broke(st) => x.brk.Some? && |st.env| == |cx.scopes|
                      && Jumps(p, c, x.brk.value, cx, cx.scopes[..k], st.env[..k], st.globals)
    case Continued(st) => x.cont.Some? && |st.env| == |cx.scopes|
                          && Jumps(p, c, x.cont.value, cx, cx.scopes[..k], st.env[..k], st.globals)
    case Returned(v, g) => Stops(p, c, Done(v, g))
    case Crashed => Stops(p, c, Error)
    case Undefined => true
    case Timeout => RunsFor(p, c, fuel)
  }

  /** c is at the start of a construct compiled in cx, whose compilation ended in `after`. */
  ghost predicate Begin(p: Program, cx: Ctx, after: Ctx, st: State, c: Config) {
    && GoodCtx(cx) && Fits(p, |c.locals|) && Agree(cx.scopes, st.env, c.locals)
    && c.globals == st.globals && c.stack == []
    && cx.next <= after.next <= |c.locals| && after.pool <= p.pool
  }

  lemma ArrivesBefore(p: Program, cx0: Ctx, cx: Ctx, c: Config, d: Config, pc: int, scopes: Scopes, env: Env,
                      g: Machine.Globals)
    requires Goes(p, c, d) && Frame(cx0, c.locals, d.locals) && Grows(cx0, cx)
    requires Arrives(p, d, pc, cx, scopes, env, g)
    ensures Arrives(p, c, pc, cx0, scopes, env, g)
  {
    var l :| Frame(cx, d.locals, l) && Agree(scopes, env, l) && Goes(p, d, Config(pc, [], l, g));
    FrameWiden(cx0, cx, d.locals, l);
    FrameTrans(cx0, c.locals, d.locals, l);
    GoesGoes(p, c, d, Config(pc, [], l, g));
  }

  lemma JumpsBefore(p: Program, cx0: Ctx, cx: Ctx, c: Config, d: Config, pc: int, scopes: Scopes, env: Env,
                    g: Machine.Globals)
    requires Goes(p, c, d) && Frame(cx0, c.locals, d.locals) && Grows(cx0, cx)
    requires Jumps(p, d, pc, cx, scopes, env, g)
    ensures Jumps(p, c, pc, cx0, scopes, env, g)
  {
    var l :| Frame(cx, d.locals, l) && Agree(scopes, env, l) && Moves(p, d, Config(pc, [], l, g));
    FrameWiden(cx0, cx, d.locals, l);
    FrameTrans(cx0, c.locals, d.locals, l);
    GoesMoves(p, c, d, Config(pc, [], l, g));
  }

  /** A run to d, then what happens from d. */
  lemma RanBefore(p: Program, cx0: Ctx, cx: Ctx, c: Config, d: Config, x: Exits, k: nat, after: Scopes, end: int,
                  o: Outcome, fuel: nat)
    requires Goes(p, c, d) && Frame(cx0, c.locals, d.locals) && Grows(cx0, cx)
    requires k <= |cx.scopes| && cx.scopes[..k] == cx0.scopes[..k]
    requires Ran(p, cx, d, x, k, after, end, o, fuel)
    ensures Ran(p, cx0, c, x, k, after, end, o, fuel)
  {
    match o
    case Normal(st) => ArrivesBefore(p, cx0, cx, c, d, end, after, st.env, st.globals);
    case Broke(st) => JumpsBefore(p, cx0, cx, c, d, x.brk.value, cx.scopes[..k], st.env[..k], st.globals);
    case Continued(st) => JumpsBefore(p, cx0, cx, c, d, x.cont.value, cx.scopes[..k], st.env[..k], st.globals);
    case Returned(v, g) => GoesStops(p, c, d, Done(v, g));
    case Crashed => GoesStops(p, c, d, Error);
    case Undefined =>
    case Timeout => GoesRuns(p, c, d, fuel);
  }

  /** The same for a context that grew out of another one: what was run answers to the outer one. */
  lemma RanOuter(p: Program, cx0: Ctx, cx: Ctx, c: Config, d: Config, x: Exits, after: Scopes, end: int, o: Outcome,
                 fuel: nat)
    requires Goes(p, c, d) && (c == d || Frame(cx0, c.locals, d.locals)) && Grows(cx0, cx)
    requires Ran(p, cx, d, x, |cx.scopes| - 1, after, end, o, fuel)
    ensures Ran(p, cx0, c, x, |cx0.scopes| - 1, after, end, o, fuel)
  {
    FrameSelf(cx0, c.locals);
    GrowsOuter(cx0, cx);
    RanBefore(p, cx0, cx, c, d, x, |cx.scopes| - 1, after, end, o, fuel);
  }

  /** One loop iteration back to d, then what happens from d with less fuel. */
  lemma RanAgain(p: Program, cx: Ctx, c: Config, d: Config, x: Exits, k: nat, after: Scopes, end: int, o: Outcome,
                 fuel: nat)
    requires Moves(p, c, d) && Frame(cx, c.locals, d.locals) && |cx.scopes| >= 1 && k <= |cx.scopes| && fuel > 0
    requires Ran(p, cx, d, x, k, after, end, o, fuel - 1)
    ensures Ran(p, cx, c, x, k, after, end, o, fuel)
  {
    MovesGoes(p, c, d);
    GrowsSelf(cx);
    if o.Timeout? {
      MovesRuns(p, c, d, fuel - 1);
    } else {
      RanBefore(p, cx, cx, c, d, x, k, after, end, o, fuel - 1);
    }
  }

  /** Leaving a scope. */
  lemma LeaveRan(p: Program, cx: Ctx, c: Config, x: Exits, after: Scopes, end: int, o: Outcome, fuel: nat)
    requires |after| == |cx.scopes| + 1 && after[..|cx.scopes|] == cx.scopes
    requires Ran(p, EnterScope(cx), c, x, |cx.scopes|, after, end, o, fuel)
    ensures Ran(p, cx, c, x, |cx.scopes|, cx.scopes, end, Leave(o), fuel)
  {
    var k := |cx.scopes|;
    assert EnterScope(cx).scopes[..k] == cx.scopes;
    match o
    case Normal(st) =>
      var l :| Frame(EnterScope(cx), c.locals, l) && Agree(after, st.env, l) && Goes(p, c, Config(end, [], l, st.globals));
      FrameEnter(cx, c.locals, l);
      AgreeOuter(after, st.env, l);
    case Broke(st) => JumpsLeave(p, cx, c, x.brk.value, st);
    case Continued(st) => JumpsLeave(p, cx, c, x.cont.value, st);
    case _ =>
  }

  lemma JumpsLeave(p: Program, cx: Ctx, c: Config, pc: int, st: State)
    requires |st.env| == |cx.scopes| + 1
    requires Jumps(p, c, pc, EnterScope(cx), cx.scopes, st.env[..|cx.scopes|], st.globals)
    ensures |Shrink(st).env| == |cx.scopes|
    ensures Jumps(p, c, pc, cx, cx.scopes[..|cx.scopes|], Shrink(st).env[..|cx.scopes|], Shrink(st).globals)
  {
    var k := |cx.scopes|;
    var l :| Frame(EnterScope(cx), c.locals, l) && Agree(cx.scopes, st.env[..k], l)
             && Moves(p, c, Config(pc, [], l, st.globals));
    FrameEnter(cx, c.locals, l);
    assert cx.scopes[..k] == cx.scopes && Shrink(st).env[..k] == st.env[..k];
  }

  lemma EnterAgrees(scopes: Scopes, env: Env, locals: seq<Value>)
    requires Agree(scopes, env, locals)
    ensures Agree(scopes + [map[]], env + [map[]], locals)
  {
    AgreeIs(scopes, env, locals);
    AgreeIs(scopes + [map[]], env + [map[]], locals);
  }

  /** A scoped body that jumps agrees on every scope of the loop; a statement promises one scope less. */
  lemma RanWeaken(p: Program, cx: Ctx, c: Config, x: Exits, k: nat, after: Scopes, end: int, o: Outcome, fuel: nat)
    requires k + 1 == |cx.scopes| && Ran(p, cx, c, x, k + 1, after, end, o, fuel)
    ensures Ran(p, cx, c, x, k, after, end, o, fuel)
  {
    if o.Broke? {
      JumpsWeaken(p, cx, c, x.brk.value, k, o.st);
    } else if o.Continued? {
      JumpsWeaken(p, cx, c, x.cont.value, k, o.st);
    }
  }

  lemma JumpsWeaken(p: Program, cx: Ctx, c: Config, pc: int, k: nat, st: State)
    requires k + 1 == |cx.scopes| == |st.env|
    requires Jumps(p, c, pc, cx, cx.scopes[..k + 1], st.env[..k + 1], st.globals)
    ensures Jumps(p, c, pc, cx, cx.scopes[..k], st.env[..k], st.globals)
  {
    var l :| Frame(cx, c.locals, l) && Agree(cx.scopes[..k + 1], st.env[..k + 1], l)
             && Moves(p, c, Config(pc, [], l, st.globals));
    AgreeOuter(cx.scopes[..k + 1], st.env[..k + 1], l);
    assert cx.scopes[..k + 1][..k] == cx.scopes[..k] && st.env[..k + 1][..k] == st.env[..k];
  }

  // ----- loops -----

  /** A body that did not come back to its loop: the loop is over. */
  lemma LoopExitRan(p: Program, cx: Ctx, c: Config, xb: Exits, step: int, end: int, o: Outcome, fuel: nat,
                    x: Exits, k: nat)
    requires Ran(p, cx, c, xb, |cx.scopes|, cx.scopes, step, o, fuel)
    requires !o.Normal? && !o.Continued? && xb.brk == Some(end) && k <= |cx.scopes|
    ensures Ran(p, cx, c, x, k, cx.scopes, end, LoopExit(o), fuel)
  {
    if o.Broke? {
      var n := |cx.scopes|;
      var l :| Frame(cx, c.locals, l) && Agree(cx.scopes[..n], o.st.env[..n], l)
               && Moves(p, c, Config(end, [], l, o.st.globals));
      assert cx.scopes[..n] == cx.scopes && o.st.env[..n] == o.st.env;
      MovesGoes(p, c, Config(end, [], l, o.st.globals));
    }
  }

  /** A body that ended normally or continued reaches the step of a for loop. */
  lemma StepReached(p: Program, cx: Ctx, c: Config, xb: Exits, step: int, o: Outcome, fuel: nat)
    requires Ran(p, cx, c, xb, |cx.scopes|, cx.scopes, step, o, fuel)
    requires (o.Normal? || o.Continued?) && xb.cont == Some(step)
    ensures Arrives(p, c, step, cx, cx.scopes, o.st.env, o.st.globals)
  {
    if o.Continued? {
      var n := |cx.scopes|;
      var l :| Frame(cx, c.locals, l) && Agree(cx.scopes[..n], o.st.env[..n], l)
               && Moves(p, c, Config(step, [], l, o.st.globals));
      assert cx.scopes[..n] == cx.scopes && o.st.env[..n] == o.st.env;
      MovesGoes(p, c, Config(step, [], l, o.st.globals));
    }
  }

  /** In a loop without a step it reaches the head, by the back jump or by the continue jump. */
  lemma HeadReached(p: Program, cx: Ctx, c: Config, xb: Exits, step: int, head: int, o: Outcome, fuel: nat)
    requires Ran(p, cx, c, xb, |cx.scopes|, cx.scopes, step, o, fuel)
    requires (o.Normal? || o.Continued?) && xb.cont == Some(head)
    requires CodeAt(p, step, [Op1(JMP, head - (step + 1))]) && -TWO_31 <= head - (step + 1) < TWO_31
    ensures Jumps(p, c, head, cx, cx.scopes, o.st.env, o.st.globals)
  {
    var n := |cx.scopes|;
    if o.Continued? {
      assert cx.scopes[..n] == cx.scopes && o.st.env[..n] == o.st.env;
    } else {
      var l :| Frame(cx, c.locals, l) && Agree(cx.scopes, o.st.env, l) && Goes(p, c, Config(step, [], l, o.st.globals));
      var d := Config(step, [], l, o.st.globals);
      JumpStep(p, d, head - (step + 1));
      GoesMove(p, c, d, d.(pc := head));
    }
  }

  // ----- handing over from one construct to the next -----

  /** The configuration in which a construct ended. */
  lemma Resume(p: Program, cx: Ctx, c: Config, pc: int, scopes: Scopes, st: State) returns (d: Config)
    requires Arrives(p, c, pc, cx, scopes, st.env, st.globals)
    ensures Goes(p, c, d) && d.pc == pc && d.stack == [] && d.globals == st.globals
    ensures Frame(cx, c.locals, d.locals) && Agree(scopes, st.env, d.locals)
  {
    var l :| Frame(cx, c.locals, l) && Agree(scopes, st.env, l) && Goes(p, c, Config(pc, [], l, st.globals));
    d := Config(pc, [], l, st.globals);
  }

  /** The configuration in which a loop is entered again. */
  lemma Reenter(p: Program, cx: Ctx, c: Config, pc: int, scopes: Scopes, st: State) returns (d: Config)
    requires Jumps(p, c, pc, cx, scopes, st.env, st.globals)
    ensures Moves(p, c, d) && d.pc == pc && d.stack == [] && d.globals == st.globals
    ensures Frame(cx, c.locals, d.locals) && Agree(scopes, st.env, d.locals)
  {
    var l :| Frame(cx, c.locals, l) && Agree(scopes, st.env, l) && Moves(p, c, Config(pc, [], l, st.globals));
    d := Config(pc, [], l, st.globals);
  }

  /** A construct that ends where it is. */
  lemma ArrivesAt(p: Program, cx: Ctx, c: Config, d: Config, scopes: Scopes, st: State)
    requires Goes(p, c, d) && d.stack == [] && d.globals == st.globals
    requires Frame(cx, c.locals, d.locals) && Agree(scopes, st.env, d.locals)
    ensures Arrives(p, c, d.pc, cx, scopes, st.env, st.globals)
  {
    assert d == Config(d.pc, [], d.locals, st.globals);
  }

  /** Part of a construct begins where the construct begins. */
  lemma BeginPart(p: Program, cx: Ctx, mid: Ctx, after: Ctx, st: State, c: Config)
    requires Begin(p, cx, after, st, c) && Grows(cx, mid) && Grows(mid, after)
    ensures Begin(p, cx, mid, st, c)
  {
  }

  /** The next part begins where the previous one ended. */
  lemma BeginNext(p: Program, cx: Ctx, mid: Ctx, after: Ctx, st: State, c: Config, st1: State, d: Config)
    requires Begin(p, cx, after, st, c) && GoodCtx(mid) && Grows(mid, after)
    requires |d.locals| == |c.locals| && Agree(mid.scopes, st1.env, d.locals)
    requires d.stack == [] && d.globals == st1.globals
    ensures Begin(p, mid, after, st1, d)
  {
  }

  /** The same state seen from a context with the same scopes and a longer pool. */
  lemma BeginPool(p: Program, cx: Ctx, pool: Pool, after: Ctx, st: State, c: Config)
    requires Begin(p, cx, after, st, c) && cx.pool <= pool <= after.pool
    ensures Begin(p, cx.(pool := pool), after, st, c)
  {
    PoolGood(cx, pool);
  }
}
