/**
 * Stack discipline: in compiled code the operand stack's depth is a function of the program counter alone, every
 * jump goes to an index of depth 0, and no run, whatever it computes, can fault.
 */
module StackDepth {
  import opened Values
  import opened Ast
  import opened Machine
  import opened Lowering
  import opened LoweringFacts
  import opened Layers
  import opened ExprProof
  import Agreement
  import Placement
  import Runs

  /** The pool of the program and how many local slots it has. */
  datatype Limits = Limits(pool: Pool, slots: nat)

  predicate IsJump(op: OpCode) {
    op == JMP || op == JMP_IF || op == JMP_IF_NOT
  }

  predicate IsReturn(op: OpCode) {
    op == RET || op == RET_NULL
  }

  predicate IsPush(op: OpCode) {
    op in {PUSH, LOAD_LOCAL, LOAD_LOCAL_0, LOAD_LOCAL_1, LOAD_GLOBAL, ALLOC_ARRAY}
  }

  function Pops(op: OpCode): nat {
    if IsPush(op) || op == JMP || op == RET_NULL then 0
    else if IsBinary(op) then 2
    else 1
  }

  function Pushes(op: OpCode): nat {
    if IsPush(op) || IsUnary(op) || IsBinary(op) then 1 else 0
  }

  /** The entry is a string: the name of a global is there. */
  predicate IsText(pool: Pool, k: int) {
    0 <= k < |pool| && pool[k].Str?
  }

  predicate OperandOk(i: Instr, lim: Limits) {
    match i.op
    case PUSH => 0 <= I32(i.arg) < |lim.pool|
    case LOAD_GLOBAL => IsText(lim.pool, I32(i.arg))
    case STORE_GLOBAL => IsText(lim.pool, I32(i.arg))
    case LOAD_LOCAL => 0 <= I32(i.arg) < lim.slots
    case STORE_LOCAL => 0 <= I32(i.arg) < lim.slots
    case LOAD_LOCAL_0 => 0 < lim.slots
    case LOAD_LOCAL_1 => 1 < lim.slots
    case _ => true
  }

  /** Instruction i, at depth d[i]: operands fit, jumps stay in the code and empty the stack, the next depth follows. */
  predicate InstrOk(code: seq<Instr>, d: seq<nat>, lim: Limits, i: int)
    requires |d| == |code| + 1
  {
    0 <= i < |code| &&
    var op, to := code[i].op, i + 1 + I32(code[i].arg);
    && d[i] >= Pops(op) && OperandOk(code[i], lim)
    && (IsJump(op) || IsReturn(op) ==> d[i] == Pops(op))
    && (IsJump(op) ==> 0 <= to <= |code| && d[to] == 0)
    && (op != JMP && !IsReturn(op) ==> d[i + 1] == d[i] - Pops(op) + Pushes(op))
  }

  ghost predicate AllOk(code: seq<Instr>, d: seq<nat>, lim: Limits) {
    |d| == |code| + 1 && forall i {:trigger InstrOk(code, d, lim, i)} :: 0 <= i < |code| ==> InstrOk(code, d, lim, i)
  }

  datatype Judgement = Judgement(code: seq<Instr>, d: seq<nat>, lim: Limits)

  ghost predicate JudgementHolds(j: Judgement) {
    AllOk(j.code, j.d, j.lim)
  }

  ghost predicate AreJudgements(s: iset<Judgement>) {
    forall j {:trigger JudgementHolds(j)} :: j in s <==> JudgementHolds(j)
  }

  lemma JudgementsExist()
    ensures exists s :: AreJudgements(s)
  {
    var s := iset j | JudgementHolds(j);
    assert AreJudgements(s);
  }

  /** The code and depths of which every instruction is right; composed without looking at instructions. */
  ghost function Judgements(): iset<Judgement> {
    JudgementsExist();
    var s :| AreJudgements(s);
    s
  }

  /** Every instruction is right. */
  ghost predicate Sound(code: seq<Instr>, d: seq<nat>, lim: Limits) {
    |d| == |code| + 1 && Judgement(code, d, lim) in Judgements()
  }

  lemma SoundIs(code: seq<Instr>, d: seq<nat>, lim: Limits)
    ensures Sound(code, d, lim) <==> AllOk(code, d, lim)
  {
    JudgementsExist();
    assert JudgementHolds(Judgement(code, d, lim)) <==> AllOk(code, d, lim);
  }

  /** Sound code that takes the stack from depth a to depth b. */
  ghost predicate Flows(code: seq<Instr>, d: seq<nat>, lim: Limits, a: nat, b: nat) {
    Sound(code, d, lim) && d[0] == a && d[|code|] == b
  }

  // ----- composition -----

  /** Code behind code; the depths of the first part stay. */
  lemma JoinKeeps(x: seq<Instr>, dx: seq<nat>, y: seq<Instr>, dy: seq<nat>, lim: Limits, a: nat, b: nat, c: nat)
    returns (d: seq<nat>)
    requires Flows(x, dx, lim, a, b) && Flows(y, dy, lim, b, c)
    ensures Flows(x + y, d, lim, a, c)
    ensures forall k :: 0 <= k <= |x| ==> d[k] == dx[k]
  {
    d := dx[..|x|] + dy;
    SoundIs(x, dx, lim);
    SoundIs(y, dy, lim);
    JoinedOk(x, dx, y, dy, d, lim);
    SoundIs(x + y, d, lim);
  }

  lemma JoinedOk(x: seq<Instr>, dx: seq<nat>, y: seq<Instr>, dy: seq<nat>, d: seq<nat>, lim: Limits)
    requires AllOk(x, dx, lim) && AllOk(y, dy, lim) && dx[|x|] == dy[0] && d == dx[..|x|] + dy
    ensures AllOk(x + y, d, lim)
  {
    var code := x + y;
    forall i | 0 <= i < |code| ensures InstrOk(code, d, lim, i) {
      if i < |x| {
        assert InstrOk(x, dx, lim, i);
        FirstKept(x, dx, code, d, lim, i);
      } else {
        assert InstrOk(y, dy, lim, i - |x|);
        SecondKept(y, dy, code, d, lim, |x|, i);
      }
    }
  }

  /** An instruction is right in longer code with the same depths around it. */
  lemma FirstKept(x: seq<Instr>, dx: seq<nat>, code: seq<Instr>, d: seq<nat>, lim: Limits, i: int)
    requires |dx| == |x| + 1 && |d| == |code| + 1 && |x| <= |code| && InstrOk(x, dx, lim, i)
    requires code[i] == x[i] && forall k :: 0 <= k <= |x| ==> d[k] == dx[k]
    ensures InstrOk(code, d, lim, i)
  {
  }

  lemma SecondKept(y: seq<Instr>, dy: seq<nat>, code: seq<Instr>, d: seq<nat>, lim: Limits, off: nat, i: int)
    requires |dy| == |y| + 1 && |d| == |code| + 1 == off + |y| + 1 && InstrOk(y, dy, lim, i - off)
    requires code[i] == y[i - off] && forall k :: off <= k <= |code| ==> d[k] == dy[k - off]
    ensures InstrOk(code, d, lim, i)
  {
  }

  lemma JoinFlows(x: seq<Instr>, dx: seq<nat>, y: seq<Instr>, dy: seq<nat>, lim: Limits, a: nat, b: nat, c: nat)
    returns (d: seq<nat>)
    requires Flows(x, dx, lim, a, b) && Flows(y, dy, lim, b, c)
    ensures Flows(x + y, d, lim, a, c)
  {
    d := JoinKeeps(x, dx, y, dy, lim, a, b, c);
  }

  /** Three parts: the depth where the second and the third begin. */
  lemma JoinThree(x: seq<Instr>, dx: seq<nat>, y: seq<Instr>, dy: seq<nat>, z: seq<Instr>, dz: seq<nat>, lim: Limits,
                  a: nat, b: nat, c: nat, e: nat)
    returns (d: seq<nat>)
    requires Flows(x, dx, lim, a, b) && Flows(y, dy, lim, b, c) && Flows(z, dz, lim, c, e)
    ensures Flows(x + y + z, d, lim, a, e) && d[|x|] == b && d[|x| + |y|] == c
  {
    var d1 := JoinKeeps(x, dx, y, dy, lim, a, b, c);
    d := JoinKeeps(x + y, d1, z, dz, lim, a, c, e);
  }

  /** One instruction that neither jumps nor returns. */
  lemma PlainFlows(i: Instr, lim: Limits, a: nat) returns (d: seq<nat>)
    requires !IsJump(i.op) && !IsReturn(i.op) && OperandOk(i, lim) && a >= Pops(i.op)
    ensures Flows([i], d, lim, a, a - Pops(i.op) + Pushes(i.op))
  {
    d := [a, a - Pops(i.op) + Pushes(i.op)];
    SoundIs([i], d, lim);
    assert InstrOk([i], d, lim, 0);
  }

  /** A jump not yet patched goes to the next instruction; a return leaves the depth open. */
  lemma LeaveFlows(op: OpCode, lim: Limits) returns (d: seq<nat>)
    requires IsJump(op) || IsReturn(op)
    ensures Flows([Op(op)], d, lim, Pops(op), 0)
  {
    d := [Pops(op), 0];
    SoundIs([Op(op)], d, lim);
    assert InstrOk([Op(op)], d, lim, 0);
  }

  /** Patching any jump to an index of depth 0 keeps the code sound. */
  lemma PatchFlows(code: seq<Instr>, d: seq<nat>, lim: Limits, at: int, target: int, a: nat, b: nat)
    requires Flows(code, d, lim, a, b) && |code| < TWO_31
    requires 0 <= at < |code| && IsJump(code[at].op) && 0 <= target <= |code| && d[target] == 0
    ensures Flows(Patch(code, at, target), d, lim, a, b)
  {
    var r := Patch(code, at, target);
    SoundIs(code, d, lim);
    SoundIs(r, d, lim);
    OperandRoundTrip(target - (at + 1));
    forall i | 0 <= i < |r| ensures InstrOk(r, d, lim, i) {
      assert InstrOk(code, d, lim, i);
    }
  }

  /** Code, then one more instruction that neither jumps nor returns. */
  lemma ThenPlain(code: seq<Instr>, d: seq<nat>, i: Instr, lim: Limits, a: nat, b: nat) returns (r: seq<nat>)
    requires Flows(code, d, lim, a, b)
    requires !IsJump(i.op) && !IsReturn(i.op) && OperandOk(i, lim) && b >= Pops(i.op)
    ensures Flows(code + [i], r, lim, a, b - Pops(i.op) + Pushes(i.op))
  {
    var d2 := PlainFlows(i, lim, b);
    r := JoinFlows(code, d, [i], d2, lim, a, b, b - Pops(i.op) + Pushes(i.op));
  }

  /** No code leaves the depth as it is. */
  lemma NothingFlows(lim: Limits, a: nat) returns (d: seq<nat>)
    ensures d == [a] && Flows([], d, lim, a, a)
  {
    d := [a];
    SoundIs([], d, lim);
  }

  // ----- expressions -----

  lemma SlotOperand(op: OpCode, slot: nat, lim: Limits)
    requires (op == LOAD_LOCAL || op == STORE_LOCAL) && slot < lim.slots < TWO_31
    ensures OperandOk(Op1(op, slot), lim) && OperandOk(LoadLocal(slot), lim)
  {
    OperandRoundTrip(slot);
  }

  lemma {:induction false} ExprFlows(e: Expr, scopes: Scopes, pool: Pool, lim: Limits, a: nat) returns (d: seq<nat>)
    requires CompExpr(e, scopes, pool).pool <= lim.pool && |lim.pool| < TWO_31 && SlotsBelow(scopes, lim.slots) && lim.slots < TWO_31
    ensures Flows(CompExpr(e, scopes, pool).code, d, lim, a, a + 1)
    decreases e, 1
  {
    match e
    case IntLit(n) => d := ConstFlows(pool, Int(Cut32(n)), lim, a);
    case BoolLit(b) => d := ConstFlows(pool, Int(if b then 1 else 0), lim, a);
    case StrLit(s) =>
      FindStringFinds(pool, s, 0);
      OperandRoundTrip(StringIndex(pool, s));
      d := PlainFlows(Op1(PUSH, StringIndex(pool, s)), lim, a);
    case Var(x) => d := VarFlows(x, scopes, pool, lim, a);
    case Binary(op, l, r) => d := PairFlows(e, l, r, BinaryCode(op), scopes, pool, lim, a);
    case Unary(op, x) =>
      var code := CompExpr(x, scopes, pool).code;
      var d1 := ExprFlows(x, scopes, pool, lim, a);
      d := ThenPlain(code, d1, Op(UnaryCode(op)), lim, a, a + 1);
    case Index(x, i) => d := PairFlows(e, x, i, LOAD_INDEX, scopes, pool, lim, a);
    case ArrayLit(es) =>
      var alloc := Op1(ALLOC_ARRAY, Count(es));
      var d1 := PlainFlows(alloc, lim, a);
      var d2 := ElemsFlow(es, scopes, pool, lim, a + 1);
      d := JoinFlows([alloc], d1, CompElems(es, scopes, pool).code, d2, lim, a, a + 1, a + 1);
  }

  lemma ConstFlows(pool: Pool, v: Value, lim: Limits, a: nat) returns (d: seq<nat>)
    requires pool + [v] <= lim.pool && |lim.pool| < TWO_31
    ensures Flows(ConstCode(pool, v).code, d, lim, a, a + 1)
  {
    OperandRoundTrip(|pool|);
    d := PlainFlows(Op1(PUSH, |pool|), lim, a);
  }

  lemma VarFlows(x: string, scopes: Scopes, pool: Pool, lim: Limits, a: nat) returns (d: seq<nat>)
    requires CompExpr(Var(x), scopes, pool).pool <= lim.pool && |lim.pool| < TWO_31
    requires SlotsBelow(scopes, lim.slots) && lim.slots < TWO_31
    ensures Flows(CompExpr(Var(x), scopes, pool).code, d, lim, a, a + 1)
  {
    match Resolve(scopes, x)
    case Some(slot) =>
      var i := Agreement.ResolveBound(scopes, x);
      assert BoundAt(scopes, i, x, slot);
      SlotOperand(LOAD_LOCAL, slot, lim);
      d := PlainFlows(LoadLocal(slot), lim, a);
    case None =>
      StringStays(pool, x, lim.pool);
      OperandRoundTrip(StringIndex(pool, x));
      d := PlainFlows(Op1(LOAD_GLOBAL, StringIndex(pool, x)), lim, a);
  }

  lemma {:induction false} PairFlows(e: Expr, x: Expr, y: Expr, op: OpCode, scopes: Scopes, pool: Pool, lim: Limits, a: nat)
    returns (d: seq<nat>)
    requires e.Binary? || e.Index?
    requires e.Binary? ==> x == e.left && y == e.right && op == BinaryCode(e.op)
    requires e.Index? ==> x == e.base && y == e.index && op == LOAD_INDEX
    requires CompExpr(e, scopes, pool).pool <= lim.pool && |lim.pool| < TWO_31 && SlotsBelow(scopes, lim.slots) && lim.slots < TWO_31
    ensures Flows(CompExpr(e, scopes, pool).code, d, lim, a, a + 1)
    decreases e, 0
  {
    var c1 := CompExpr(x, scopes, pool);
    var c2 := CompExpr(y, scopes, c1.pool);
    var d1 := ExprFlows(x, scopes, pool, lim, a);
    var d2 := ExprFlows(y, scopes, c1.pool, lim, a + 1);
    d := OperandsThen(c1.code, d1, c2.code, d2, op, lim, a);
  }

  lemma OperandsThen(x: seq<Instr>, dx: seq<nat>, y: seq<Instr>, dy: seq<nat>, op: OpCode, lim: Limits, a: nat)
    returns (d: seq<nat>)
    requires Flows(x, dx, lim, a, a + 1) && Flows(y, dy, lim, a + 1, a + 2) && IsBinary(op)
    ensures Flows(x + y + [Op(op)], d, lim, a, a + 1)
  {
    d := JoinFlows(x, dx, y, dy, lim, a, a + 1, a + 2);
    d := ThenPlain(x + y, d, Op(op), lim, a, a + 2);
  }

  lemma ElemThen(x: seq<Instr>, dx: seq<nat>, y: seq<Instr>, dy: seq<nat>, lim: Limits, a: nat) returns (d: seq<nat>)
    requires Flows(x, dx, lim, a, a + 1) && Flows(y, dy, lim, a, a) && a >= 1
    ensures Flows(x + [Op(ARRAY_PUSH)] + y, d, lim, a, a)
  {
    d := ThenPlain(x, dx, Op(ARRAY_PUSH), lim, a, a + 1);
    d := JoinFlows(x + [Op(ARRAY_PUSH)], d, y, dy, lim, a, a, a);
  }

  lemma {:induction false} ElemsFlow(es: Exprs, scopes: Scopes, pool: Pool, lim: Limits, a: nat) returns (d: seq<nat>)
    requires CompElems(es, scopes, pool).pool <= lim.pool && |lim.pool| < TWO_31 && SlotsBelow(scopes, lim.slots) && lim.slots < TWO_31
    requires a >= 1
    ensures Flows(CompElems(es, scopes, pool).code, d, lim, a, a)
    decreases es, 1
  {
    match es
    case NoExprs => d := NothingFlows(lim, a);
    case MoreExprs(e, rest) =>
      var c1 := CompExpr(e, scopes, pool);
      var c2 := CompElems(rest, scopes, c1.pool);
      var d1 := ExprFlows(e, scopes, pool, lim, a);
      var d2 := ElemsFlow(rest, scopes, c1.pool, lim, a);
      d := ElemThen(c1.code, d1, c2.code, d2, lim, a);
  }

  /** The context's slots and the code's pool are within the limits. */
  ghost predicate Within(cx: Ctx, after: Ctx, lim: Limits) {
    && GoodCtx(cx) && cx.next <= after.next <= lim.slots < TWO_31
    && cx.pool <= after.pool && after.pool <= lim.pool && |lim.pool| < TWO_31
  }

  /** The same, as statements use it. */
  lemma ValueFlows(e: Expr, cx: Ctx, after: Ctx, lim: Limits) returns (d: seq<nat>)
    requires Within(cx, after, lim) && CodeOf(e, cx.scopes, cx.pool).pool <= after.pool
    ensures Flows(CodeOf(e, cx.scopes, cx.pool).code, d, lim, 0, 1)
  {
    GoodIs(cx);
    CodeOfIs(e, cx.scopes, cx.pool);
    d := ExprFlows(e, cx.scopes, cx.pool, lim, 0);
  }

  /** A value, then one instruction that consumes it. */
  lemma ValueThen(code: seq<Instr>, d: seq<nat>, i: Instr, lim: Limits) returns (r: seq<nat>)
    requires Flows(code, d, lim, 0, 1) && OperandOk(i, lim)
    requires i.op == STORE_LOCAL || i.op == STORE_GLOBAL || i.op == POP || i == Op(RET)
    ensures Flows(code + [i], r, lim, 0, 0)
  {
    var d2;
    if i.op == RET {
      d2 := LeaveFlows(RET, lim);
    } else {
      d2 := PlainFlows(i, lim, 1);
    }
    r := JoinFlows(code, d, [i], d2, lim, 0, 1, 0);
  }

  // ----- loops -----

  function Unpatched(l: LoopParts): seq<Instr> {
    l.init + l.test + (if l.exit.Some? then [Op(l.exit.value)] else []) + l.pre + l.body.code + l.step + [Op(JMP)]
  }

  /** A loop's own two jumps are patched jumps too. */
  lemma LoopCodePatched(l: LoopParts)
    ensures var code := Patch(Unpatched(l), LoopEnd(l) - 1, |l.init|);
            LoopCode(l) == PatchBody(if l.exit.Some? then Patch(code, |l.init| + |l.test|, LoopEnd(l)) else code,
                                     BodyAt(l), l.body, LoopEnd(l), ContinueAt(l))
  {
    var code := Patch(Unpatched(l), LoopEnd(l) - 1, |l.init|);
    assert (if l.exit.Some? then Patch(code, |l.init| + |l.test|, LoopEnd(l)) else code)
        == l.init + l.test + ExitJump(l) + l.pre + l.body.code + l.step + BackJump(l);
  }

  /** The depths of the parts of a loop. */
  datatype LoopDepths = LoopDepths(init: seq<nat>, test: seq<nat>, pre: seq<nat>, body: seq<nat>, step: seq<nat>)

  ghost predicate PartsFlow(l: LoopParts, d: LoopDepths, lim: Limits) {
    && Flows(l.init, d.init, lim, 0, 0)
    && Flows(l.test, d.test, lim, 0, if l.exit.Some? then 1 else 0)
    && (l.exit.Some? ==> l.exit.value == JMP_IF || l.exit.value == JMP_IF_NOT)
    && Flows(l.pre, d.pre, lim, 0, 0) && Flows(l.body.code, d.body, lim, 0, 0) && Flows(l.step, d.step, lim, 0, 0)
    && WellHoled(l.body)
  }

  lemma UnpatchedFlows(l: LoopParts, p: LoopDepths, lim: Limits) returns (d: seq<nat>)
    requires PartsFlow(l, p, lim)
    ensures Flows(Unpatched(l), d, lim, 0, 0) && |Unpatched(l)| == LoopEnd(l)
    ensures d[|l.init|] == 0 && d[StepAt(l)] == 0
  {
    var x := if l.exit.Some? then [Op(l.exit.value)] else [];
    var middle, dm := MiddleFlows(l, p, lim, x);
    var jump := LeaveFlows(JMP, lim);
    var back := JoinFlows(l.step, p.step, [Op(JMP)], jump, lim, 0, 0, 0);
    d := JoinThree(l.init, p.init, middle, dm, l.step + [Op(JMP)], back, lim, 0, 0, 0, 0);
    UnpatchedParts(l.init, l.test, x, l.pre, l.body.code, l.step, [Op(JMP)]);
  }

  /** Test, jump out, and body. */
  lemma MiddleFlows(l: LoopParts, p: LoopDepths, lim: Limits, x: seq<Instr>) returns (code: seq<Instr>, d: seq<nat>)
    requires PartsFlow(l, p, lim) && x == if l.exit.Some? then [Op(l.exit.value)] else []
    ensures code == l.test + x + l.pre + l.body.code && Flows(code, d, lim, 0, 0)
  {
    code := l.test + x + l.pre + l.body.code;
    var k := if l.exit.Some? then 1 else 0;
    var dx := NothingFlows(lim, 0);
    if l.exit.Some? {
      dx := LeaveFlows(l.exit.value, lim);
    }
    d := JoinFlows(l.test, p.test, x, dx, lim, 0, k, 0);
    d := JoinFlows(l.test + x, d, l.pre, p.pre, lim, 0, 0, 0);
    d := JoinFlows(l.test + x + l.pre, d, l.body.code, p.body, lim, 0, 0, 0);
  }

  lemma UnpatchedParts(a: seq<Instr>, b: seq<Instr>, c: seq<Instr>, d: seq<Instr>, e: seq<Instr>, f: seq<Instr>,
                       g: seq<Instr>)
    ensures a + (b + c + d + e) + (f + g) == a + b + c + d + e + f + g
  {
  }

  lemma LoopFlows(l: LoopParts, p: LoopDepths, lim: Limits) returns (d: seq<nat>)
    requires PartsFlow(l, p, lim) && LoopEnd(l) < TWO_31
    ensures Flows(LoopCode(l), d, lim, 0, 0)
  {
    d := UnpatchedFlows(l, p, lim);
    var both := OwnJumpsFlow(l, d, lim);
    PatchBodyFlows(both, d, lim, BodyAt(l), l.body, LoopEnd(l), ContinueAt(l));
  }

  /** The loop's own jumps: back to the head, and out of the loop. */
  lemma OwnJumpsFlow(l: LoopParts, d: seq<nat>, lim: Limits) returns (both: seq<Instr>)
    requires Flows(Unpatched(l), d, lim, 0, 0) && |Unpatched(l)| == LoopEnd(l) < TWO_31 && d[|l.init|] == 0
    requires l.exit.Some? ==> IsJump(l.exit.value)
    ensures LoopCode(l) == PatchBody(both, BodyAt(l), l.body, LoopEnd(l), ContinueAt(l))
    ensures Flows(both, d, lim, 0, 0) && |both| == LoopEnd(l)
    ensures forall i :: 0 <= i < |l.body.code| ==> both[BodyAt(l) + i] == l.body.code[i]
  {
    LoopCodePatched(l);
    var code, end, at := Unpatched(l), LoopEnd(l), |l.init| + |l.test|;
    assert code[end - 1] == Op(JMP);
    PatchFlows(code, d, lim, end - 1, |l.init|, 0, 0);
    both := Patch(code, end - 1, |l.init|);
    assert forall i :: 0 <= i < |l.body.code| ==> code[BodyAt(l) + i] == l.body.code[i];
    if l.exit.Some? {
      assert both[at] == code[at] == Op(l.exit.value);
      PatchFlows(both, d, lim, at, end, 0, 0);
      both := Patch(both, at, end);
    }
  }

  lemma PatchBodyFlows(code: seq<Instr>, d: seq<nat>, lim: Limits, at: nat, body: Frag, brk: int, cont: int)
    requires Flows(code, d, lim, 0, 0) && |code| < TWO_31 && WellHoled(body) && at + |body.code| <= |code|
    requires forall i :: 0 <= i < |body.code| ==> code[at + i] == body.code[i]
    requires 0 <= brk <= |code| && d[brk] == 0 && 0 <= cont <= |code| && d[cont] == 0
    ensures Flows(PatchBody(code, at, body, brk, cont), d, lim, 0, 0)
  {
    var broken := code;
    if body.brk >= 0 {
      PatchFlows(code, d, lim, at + body.brk, brk, 0, 0);
      broken := Patch(code, at + body.brk, brk);
    }
    if body.cont >= 0 {
      assert broken[at + body.cont] == Op(JMP);
      PatchFlows(broken, d, lim, at + body.cont, cont, 0, 0);
    }
  }

  /** slot = slot + 1 */
  lemma IncrementFlows(slot: nat, k: nat, lim: Limits) returns (d: seq<nat>)
    requires slot < lim.slots < TWO_31 && k < |lim.pool| < TWO_31
    ensures Flows(Increment(slot, [Op1(PUSH, k)]), d, lim, 0, 0)
  {
    var load, push, add, store := Op1(LOAD_LOCAL, slot), Op1(PUSH, k), Op(IADD), Op1(STORE_LOCAL, slot);
    SlotOperand(LOAD_LOCAL, slot, lim);
    SlotOperand(STORE_LOCAL, slot, lim);
    OperandRoundTrip(k);
    d := PlainFlows(load, lim, 0);
    d := ThenPlain([load], d, push, lim, 0, 1);
    d := ThenPlain([load] + [push], d, add, lim, 0, 2);
    d := ThenPlain([load] + [push] + [add], d, store, lim, 0, 1);
    assert Increment(slot, [push]) == [load] + [push] + [add] + [store];
  }

  lemma LoadLoadFlows(x: nat, y: nat, op: OpCode, lim: Limits) returns (d: seq<nat>)
    requires x < lim.slots < TWO_31 && y < lim.slots && IsBinary(op)
    ensures Flows([Op1(LOAD_LOCAL, x), Op1(LOAD_LOCAL, y), Op(op)], d, lim, 0, 1)
  {
    SlotOperand(LOAD_LOCAL, x, lim);
    SlotOperand(LOAD_LOCAL, y, lim);
    var first, second := Op1(LOAD_LOCAL, x), Op1(LOAD_LOCAL, y);
    var d1 := PlainFlows(first, lim, 0);
    var d2 := PlainFlows(second, lim, 1);
    d := OperandsThen([first], d1, [second], d2, op, lim, 0);
    assert [first, second, Op(op)] == [first] + [second] + [Op(op)];
  }

  // ----- statements: the code takes the empty stack to the empty stack -----

  lemma {:induction false} AllFlows(ss: Stmts, cx: Ctx, tail: bool, last: bool, lim: Limits, r: Lowered) returns (d: seq<nat>)
    requires r == Code(All(ss), cx, tail, last) && Within(cx, r.cx, lim) && |r.frag.code| < TWO_31
    ensures Flows(r.frag.code, d, lim, 0, 0)
    decreases ss, 0
  {
    CodeUnfolds(All(ss), cx, tail, last);
    match ss
    case Empty => d := NothingFlows(lim, 0);
    case Then(s, rest) =>
      var t1, l1 := tail && rest.Empty?, last && !EmitsAhead(rest);
      var a := Code(One(s), cx, t1, l1);
      var b := Code(All(rest), a.cx, tail, last);
      CodeGood(One(s), cx, t1, l1);
      CodeGood(All(rest), a.cx, tail, last);
      CodeUnfolds(One(s), cx, t1, l1);
      var d1 := StmtFlows(s, cx, t1, l1, lim, a);
      var d2 := AllFlows(rest, a.cx, tail, last, lim, b);
      d := JoinFlows(a.frag.code, d1, b.frag.code, d2, lim, 0, 0, 0);
  }

  lemma {:induction false} CasesFlow(arms: Arms, cx: Ctx, tail: bool, last: bool, lim: Limits, r: Lowered) returns (d: seq<nat>)
    requires r == Code(Cases(arms), cx, tail, last) && Within(cx, r.cx, lim) && |r.frag.code| < TWO_31
    ensures Flows(r.frag.code, d, lim, 0, 0)
    decreases arms, 1
  {
    CodeUnfolds(Cases(arms), cx, tail, last);
    match arms
    case NoElse => d := NothingFlows(lim, 0);
    case Else(b) => d := BodyFlows(b, cx, tail, last, lim, r);
    case Arm(e, b, rest) => d := ArmFlows(e, b, rest, cx, tail, last, lim, r);
  }

  lemma {:induction false} BodyFlows(b: Stmts, cx: Ctx, tail: bool, last: bool, lim: Limits, r: Lowered) returns (d: seq<nat>)
    requires r == ScopedCode(b, cx, tail, last) && Within(cx, r.cx, lim) && |r.frag.code| < TWO_31
    ensures Flows(r.frag.code, d, lim, 0, 0)
    decreases b, 1
  {
    EnterGood(cx);
    CodeGood(All(b), EnterScope(cx), tail, last);
    d := AllFlows(b, EnterScope(cx), tail, last, lim, Code(All(b), EnterScope(cx), tail, last));
  }

  lemma {:induction false} ArmFlows(e: Expr, b: Stmts, rest: Arms, cx: Ctx, tail: bool, last: bool, lim: Limits, r: Lowered)
    returns (d: seq<nat>)
    requires r == CodeLayer(Cases(Arm(e, b, rest)), cx, tail, last) && Within(cx, r.cx, lim) && |r.frag.code| < TWO_31
    ensures Flows(r.frag.code, d, lim, 0, 0)
    decreases Arm(e, b, rest), 0
  {
    var a := CodeOf(e, cx.scopes, cx.pool);
    var cx1 := cx.(pool := a.pool);
    var body := ScopedCode(b, cx1, tail, false);
    var more := Code(Cases(rest), body.cx, tail, last);
    PoolGood(cx, a.pool);
    ScopedCodeGood(b, cx1, tail, false);
    CodeGood(Cases(rest), body.cx, tail, last);
    Placement.JoinArmLength(a.code, body.frag, more.frag);
    var d1 := ValueFlows(e, cx, r.cx, lim);
    var d2 := BodyFlows(b, cx1, tail, false, lim, body);
    var d3 := CasesFlow(rest, body.cx, tail, last, lim, more);
    d := JoinArmFlows(a.code, d1, body.frag, d2, more.frag, d3, lim);
  }

  lemma JoinArmFlows(test: seq<Instr>, dt: seq<nat>, body: Frag, db: seq<nat>, more: Frag, dm: seq<nat>, lim: Limits)
    returns (d: seq<nat>)
    requires Flows(test, dt, lim, 0, 1) && Flows(body.code, db, lim, 0, 0) && Flows(more.code, dm, lim, 0, 0)
    requires |JoinArm(test, body, more).code| < TWO_31
    ensures Flows(JoinArm(test, body, more).code, d, lim, 0, 0)
  {
    var x := if EndsRet(body.code) then [] else [Op(JMP)];
    d := ArmUnpatchedFlows(test, dt, body.code, db, x, more.code, dm, lim);
    JoinArmIs(test, body, more);
    SkipFlows(test, body.code, x, more.code, d, lim);
    if x != [] {
      ExitFlows(test + [Op1(JMP_IF_NOT, |body.code| + 1)] + body.code, more.code, d, lim);
    }
  }

  /** The jump over the body. */
  lemma SkipFlows(test: seq<Instr>, body: seq<Instr>, x: seq<Instr>, more: seq<Instr>, d: seq<nat>, lim: Limits)
    requires Flows(test + [Op(JMP_IF_NOT)] + body + x + more, d, lim, 0, 0)
    requires |test| + 1 + |body| + |x| + |more| < TWO_31 && d[|test| + 1 + |body| + |x|] == 0
    ensures Flows(test + [Op1(JMP_IF_NOT, |body| + |x|)] + body + x + more, d, lim, 0, 0)
  {
    SkipPatched(test, body, x, more);
    PatchFlows(test + [Op(JMP_IF_NOT)] + body + x + more, d, lim, |test|, |test| + 1 + |body| + |x|, 0, 0);
  }

  /** The jump to the end. */
  lemma ExitFlows(front: seq<Instr>, more: seq<Instr>, d: seq<nat>, lim: Limits)
    requires Flows(front + [Op(JMP)] + more, d, lim, 0, 0) && |front| + 1 + |more| < TWO_31
    ensures Flows(front + [Op1(JMP, |more|)] + more, d, lim, 0, 0)
  {
    ExitPatched(front, more);
    PatchFlows(front + [Op(JMP)] + more, d, lim, |front|, |front| + 1 + |more|, 0, 0);
  }

  lemma SkipPatched(test: seq<Instr>, body: seq<Instr>, x: seq<Instr>, more: seq<Instr>)
    ensures Patch(test + [Op(JMP_IF_NOT)] + body + x + more, |test|, |test| + 1 + |body| + |x|)
         == test + [Op1(JMP_IF_NOT, |body| + |x|)] + body + x + more
  {
  }

  lemma ArmUnpatchedFlows(test: seq<Instr>, dt: seq<nat>, body: seq<Instr>, db: seq<nat>, x: seq<Instr>,
                          more: seq<Instr>, dm: seq<nat>, lim: Limits) returns (d: seq<nat>)
    requires Flows(test, dt, lim, 0, 1) && Flows(body, db, lim, 0, 0) && Flows(more, dm, lim, 0, 0)
    requires x == [] || x == [Op(JMP)]
    ensures Flows(test + [Op(JMP_IF_NOT)] + body + x + more, d, lim, 0, 0)
    ensures d[|test| + 1 + |body| + |x|] == 0
  {
    var dx := NothingFlows(lim, 0);
    if x != [] {
      dx := LeaveFlows(JMP, lim);
    }
    var dj := LeaveFlows(JMP_IF_NOT, lim);
    d := JoinFlows(test, dt, [Op(JMP_IF_NOT)], dj, lim, 0, 1, 0);
    d := JoinFlows(test + [Op(JMP_IF_NOT)], d, body, db, lim, 0, 0, 0);
    d := JoinThree(test + [Op(JMP_IF_NOT)] + body, d, x, dx, more, dm, lim, 0, 0, 0, 0);
  }

  lemma {:induction false} StmtFlows(s: Stmt, cx: Ctx, tail: bool, last: bool, lim: Limits, r: Lowered) returns (d: seq<nat>)
    requires r == StmtLayer(s, cx, tail, last) && Within(cx, r.cx, lim) && |r.frag.code| < TWO_31
    ensures Flows(r.frag.code, d, lim, 0, 0)
    decreases s, 4
  {
    match s
    case Block(b) => d := AllFlows(b, cx, tail, last, lim, r);
    case If(arms) => d := CasesFlow(arms, cx, tail, last, lim, r);
    case While(e, b) => d := WhileFlows(e, b, cx, lim, r);
    case Loop(b) =>
      var body := ScopedCode(b, cx, false, false);
      LoopCodeLength(EndlessParts(body.frag));
      var db := BodyFlows(b, cx, false, false, lim, body);
      CodeHoled(All(b), EnterScope(cx), false, false);
      var none := NothingFlows(lim, 0);
      d := LoopFlows(EndlessParts(body.frag), LoopDepths(none, none, none, db, none), lim);
    case ForRange(x, lo, hi, b) => d := ForRangeFlows(x, lo, hi, b, cx, lim, r);
    case ForCount(x, n, b) => d := ForCountFlows(x, n, b, cx, lim, r);
    case ForEach(x, e, b) => d := ForEachFlows(x, e, b, cx, lim, r);
    case _ => d := SimpleFlows(s, cx, tail, last, lim, r);
  }

  lemma SimpleFlows(s: Stmt, cx: Ctx, tail: bool, last: bool, lim: Limits, r: Lowered) returns (d: seq<nat>)
    requires s.Let? || s.Assign? || s.ExprStmt? || s.Return? || s.Break? || s.Continue?
    requires r == StmtLayer(s, cx, tail, last) && Within(cx, r.cx, lim)
    ensures Flows(r.frag.code, d, lim, 0, 0)
  {
    match s
    case Let(x, e) =>
      var d1 := ValueFlows(e, cx, r.cx, lim);
      SlotOperand(STORE_LOCAL, cx.next, lim);
      d := ValueThen(CodeOf(e, cx.scopes, cx.pool).code, d1, Op1(STORE_LOCAL, cx.next), lim);
    case Assign(x, e) => d := AssignFlows(x, e, cx, lim, r);
    case ExprStmt(e) =>
      var d1 := ValueFlows(e, cx, r.cx, lim);
      d := ValueThen(CodeOf(e, cx.scopes, cx.pool).code, d1, Op(if tail || last then RET else POP), lim);
    case Return(v) =>
      if v.None? {
        d := LeaveFlows(RET_NULL, lim);
      } else {
        var d1 := ValueFlows(v.value, cx, r.cx, lim);
        d := ValueThen(CodeOf(v.value, cx.scopes, cx.pool).code, d1, Op(RET), lim);
      }
    case _ => d := LeaveFlows(JMP, lim);
  }

  lemma AssignFlows(x: string, e: Expr, cx: Ctx, lim: Limits, r: Lowered) returns (d: seq<nat>)
    requires r == CompAssign(x, e, cx) && Within(cx, r.cx, lim)
    ensures Flows(r.frag.code, d, lim, 0, 0)
  {
    var a := CodeOf(e, cx.scopes, cx.pool);
    var d1 := ValueFlows(e, cx, r.cx, lim);
    match Resolve(cx.scopes, x)
    case Some(slot) =>
      var i := Agreement.ResolveBound(cx.scopes, x);
      GoodIs(cx);
      assert BoundAt(cx.scopes, i, x, slot);
      SlotOperand(STORE_LOCAL, slot, lim);
      d := ValueThen(a.code, d1, Op1(STORE_LOCAL, slot), lim);
    case None =>
      StringStays(a.pool, x, lim.pool);
      OperandRoundTrip(StringIndex(a.pool, x));
      d := ValueThen(a.code, d1, Op1(STORE_GLOBAL, StringIndex(a.pool, x)), lim);
  }

  lemma {:induction false} WhileFlows(e: Expr, b: Stmts, cx: Ctx, lim: Limits, r: Lowered) returns (d: seq<nat>)
    requires r == StmtLayer(While(e, b), cx, false, false) && Within(cx, r.cx, lim) && |r.frag.code| < TWO_31
    ensures Flows(r.frag.code, d, lim, 0, 0)
    decreases While(e, b), 3
  {
    var a := CodeOf(e, cx.scopes, cx.pool);
    var cx1 := cx.(pool := a.pool);
    var body := ScopedCode(b, cx1, false, false);
    PoolGood(cx, a.pool);
    ScopedCodeGood(b, cx1, false, false);
    CodeHoled(All(b), EnterScope(cx1), false, false);
    LoopCodeLength(WhileParts(a.code, body.frag));
    var dt := ValueFlows(e, cx, r.cx, lim);
    var db := BodyFlows(b, cx1, false, false, lim, body);
    var none := NothingFlows(lim, 0);
    d := LoopFlows(WhileParts(a.code, body.frag), LoopDepths(none, dt, none, db, none), lim);
  }

  lemma {:induction false} ForRangeFlows(x: string, lo: Expr, hi: Expr, b: Stmts, cx: Ctx, lim: Limits, r: Lowered)
    returns (d: seq<nat>)
    requires r == StmtLayer(ForRange(x, lo, hi, b), cx, false, false) && Within(cx, r.cx, lim) && |r.frag.code| < TWO_31
    ensures Flows(r.frag.code, d, lim, 0, 0)
    decreases ForRange(x, lo, hi, b), 3
  {
    var bounds := RangeBounds(x, lo, hi, cx);
    var cx1 := Allocate(cx, x);
    var a := CodeOf(lo, cx1.scopes, cx1.pool);
    var body := ScopedCode(b, Allocate(bounds.cx, "__end"), false, false);
    RangeCtxGood(x, bounds, b, cx, body);
    var d1 := ValueFlows(lo, cx1, r.cx, lim);
    PoolGood(cx1, a.pool);
    var d2 := ValueFlows(hi, cx1.(pool := a.pool), r.cx, lim);
    d := RangeFlows(cx, bounds, d1, d2, b, body, lim, r);
  }

  lemma {:induction false} ForCountFlows(x: string, n: int, b: Stmts, cx: Ctx, lim: Limits, r: Lowered)
    returns (d: seq<nat>)
    requires r == StmtLayer(ForCount(x, n, b), cx, false, false) && Within(cx, r.cx, lim) && |r.frag.code| < TWO_31
    ensures Flows(r.frag.code, d, lim, 0, 0)
    decreases ForCount(x, n, b), 3
  {
    var bounds := CountBounds(x, n, cx);
    var body := ScopedCode(b, Allocate(bounds.cx, "__end"), false, false);
    RangeCtxGood(x, bounds, b, cx, body);
    var d1 := ConstFlows(cx.pool, Int(1), lim, 0);
    var d2 := ConstFlows(cx.pool + [Int(1)], Int(Cut32(n)), lim, 0);
    d := RangeFlows(cx, bounds, d1, d2, b, body, lim, r);
  }

  lemma RangeCtxGood(x: string, bounds: Bounds, b: Stmts, cx: Ctx, body: Lowered)
    requires GoodCtx(cx) && bounds.cx == Allocate(cx, x).(pool := bounds.cx.pool) && cx.pool <= bounds.cx.pool
    requires body == ScopedCode(b, Allocate(bounds.cx, "__end"), false, false)
    ensures GoodCtx(Allocate(cx, x)) && GoodCtx(bounds.cx) && GoodCtx(Allocate(bounds.cx, "__end"))
    ensures Grows(Allocate(bounds.cx, "__end"), body.cx) && bounds.cx.next == cx.next + 1
  {
    AllocateGood(cx, x);
    PoolGood(Allocate(cx, x), bounds.cx.pool);
    AllocateGood(bounds.cx, "__end");
    ScopedCodeGood(b, Allocate(bounds.cx, "__end"), false, false);
  }

  lemma {:induction false} RangeFlows(cx: Ctx, bounds: Bounds, d1: seq<nat>, d2: seq<nat>, b: Stmts, body: Lowered,
                                      lim: Limits, r: Lowered) returns (d: seq<nat>)
    requires body == ScopedCode(b, Allocate(bounds.cx, "__end"), false, false) && r == RangeLowered(cx.next, bounds, body)
    requires GoodCtx(Allocate(bounds.cx, "__end")) && Grows(Allocate(bounds.cx, "__end"), body.cx)
    requires bounds.cx.next == cx.next + 1
    requires Within(cx, r.cx, lim) && |r.frag.code| < TWO_31
    requires Flows(bounds.lo, d1, lim, 0, 1) && Flows(bounds.hi, d2, lim, 0, 1)
    ensures Flows(r.frag.code, d, lim, 0, 0)
    decreases b, 2
  {
    var l := RangeParts(cx.next, bounds, body);
    LoopCodeLength(l);
    var cx2 := Allocate(bounds.cx, "__end");
    var db := BodyFlows(b, cx2, false, false, lim, body);
    CodeHoled(All(b), EnterScope(cx2), false, false);
    var di := RangeInitFlows(cx.next, bounds, d1, d2, lim, l.init);
    var dt := LoadLoadFlows(cx.next, cx.next + 1, IGT, lim);
    var ds := IncrementFlows(cx.next, |body.cx.pool|, lim);
    var none := NothingFlows(lim, 0);
    d := LoopFlows(l, LoopDepths(di, dt, none, db, ds), lim);
  }

  lemma RangeInitFlows(slot: nat, bounds: Bounds, d1: seq<nat>, d2: seq<nat>, lim: Limits, init: seq<Instr>)
    returns (d: seq<nat>)
    requires init == bounds.lo + [Op1(STORE_LOCAL, slot)] + bounds.hi + [Op1(STORE_LOCAL, slot + 1)]
    requires Flows(bounds.lo, d1, lim, 0, 1) && Flows(bounds.hi, d2, lim, 0, 1) && slot + 1 < lim.slots < TWO_31
    ensures Flows(init, d, lim, 0, 0)
  {
    var x, y := bounds.lo + [Op1(STORE_LOCAL, slot)], bounds.hi + [Op1(STORE_LOCAL, slot + 1)];
    SlotOperand(STORE_LOCAL, slot, lim);
    SlotOperand(STORE_LOCAL, slot + 1, lim);
    var e1 := ValueThen(bounds.lo, d1, Op1(STORE_LOCAL, slot), lim);
    var e2 := ValueThen(bounds.hi, d2, Op1(STORE_LOCAL, slot + 1), lim);
    d := JoinFlows(x, e1, y, e2, lim, 0, 0, 0);
    assert init == x + y;
  }

  lemma {:induction false} ForEachFlows(x: string, e: Iterable, b: Stmts, cx: Ctx, lim: Limits, r: Lowered)
    returns (d: seq<nat>)
    requires r == StmtLayer(ForEach(x, e, b), cx, false, false) && Within(cx, r.cx, lim) && |r.frag.code| < TWO_31
    ensures Flows(r.frag.code, d, lim, 0, 0)
    decreases ForEach(x, e, b), 3
  {
    var a := CodeOf(e, cx.scopes, cx.pool);
    var cx4 := EachCtx(x, cx.(pool := a.pool));
    var body := ScopedCode(b, cx4, false, false);
    PoolGood(cx, a.pool);
    EachCtxGood(x, cx.(pool := a.pool));
    ScopedCodeGood(b, cx4, false, false);
    var l := EachParts(a, cx.next, body);
    LoopCodeLength(l);
    var db := BodyFlows(b, cx4, false, false, lim, body);
    CodeHoled(All(b), EnterScope(cx4), false, false);
    var da := ValueFlows(e, cx, r.cx, lim);
    var di := EachInitFlows(cx.next, a.pool, lim);
    var start := JoinFlows(a.code, da, EachInit(cx.next, a.pool), di, lim, 0, 1, 0);
    var dt := LoadLoadFlows(cx.next + 2, cx.next + 1, IGE, lim);
    var dl := LoadLoadFlows(cx.next, cx.next + 2, LOAD_INDEX, lim);
    var load := [Op1(LOAD_LOCAL, cx.next), Op1(LOAD_LOCAL, cx.next + 2), Op(LOAD_INDEX)];
    SlotOperand(STORE_LOCAL, cx.next + 3, lim);
    var dp := ValueThen(load, dl, Op1(STORE_LOCAL, cx.next + 3), lim);
    assert l.pre == load + [Op1(STORE_LOCAL, cx.next + 3)];
    var ds := IncrementFlows(cx.next + 2, |body.cx.pool|, lim);
    d := LoopFlows(l, LoopDepths(start, dt, dp, db, ds), lim);
  }

  lemma EachInitFlows(arr: nat, pool: Pool, lim: Limits) returns (d: seq<nat>)
    requires arr + 2 < lim.slots < TWO_31 && |pool| < |lim.pool| < TWO_31
    ensures Flows(EachInit(arr, pool), d, lim, 1, 0)
  {
    var d1 := LengthFlows(arr, lim);
    var d2 := StartFlows(arr, pool, lim);
    var length := [Op1(STORE_LOCAL, arr)] + [Op1(LOAD_LOCAL, arr)] + [Op(ARRAY_LEN)];
    var start := [Op1(STORE_LOCAL, arr + 1)] + [Op1(PUSH, |pool|)] + [Op1(STORE_LOCAL, arr + 2)];
    d := JoinFlows(length, d1, start, d2, lim, 1, 1, 0);
    assert EachInit(arr, pool) == length + start;
  }

  lemma LengthFlows(arr: nat, lim: Limits) returns (d: seq<nat>)
    requires arr < lim.slots < TWO_31
    ensures Flows([Op1(STORE_LOCAL, arr)] + [Op1(LOAD_LOCAL, arr)] + [Op(ARRAY_LEN)], d, lim, 1, 1)
  {
    SlotOperand(LOAD_LOCAL, arr, lim);
    SlotOperand(STORE_LOCAL, arr, lim);
    var store, load := Op1(STORE_LOCAL, arr), Op1(LOAD_LOCAL, arr);
    d := PlainFlows(store, lim, 1);
    d := ThenPlain([store], d, load, lim, 1, 0);
    d := ThenPlain([store] + [load], d, Op(ARRAY_LEN), lim, 1, 1);
  }

  lemma StartFlows(arr: nat, pool: Pool, lim: Limits) returns (d: seq<nat>)
    requires arr + 2 < lim.slots < TWO_31 && |pool| < |lim.pool| < TWO_31
    ensures Flows([Op1(STORE_LOCAL, arr + 1)] + [Op1(PUSH, |pool|)] + [Op1(STORE_LOCAL, arr + 2)], d, lim, 1, 0)
  {
    SlotOperand(STORE_LOCAL, arr + 1, lim);
    SlotOperand(STORE_LOCAL, arr + 2, lim);
    OperandRoundTrip(|pool|);
    var store, zero := Op1(STORE_LOCAL, arr + 1), Op1(PUSH, |pool|);
    d := PlainFlows(store, lim, 1);
    d := ThenPlain([store], d, zero, lim, 1, 0);
    d := ThenPlain([store] + [zero], d, Op1(STORE_LOCAL, arr + 2), lim, 1, 1);
  }

  // ----- runs -----

  /** c is where sound code puts it. */
  predicate Balanced(p: Program, d: seq<nat>, lim: Limits, c: Config)
    requires |d| == |p.code| + 1
  {
    0 <= c.pc <= |p.code| && |c.stack| == d[c.pc] && |c.locals| >= lim.slots && lim.pool <= p.pool
  }

  /** c is at an instruction that is right. */
  predicate Here(p: Program, d: seq<nat>, lim: Limits, c: Config) {
    |d| == |p.code| + 1 && Balanced(p, d, lim, c) && c.pc < |p.code| && InstrOk(p.code, d, lim, c.pc)
  }

  /** One step of sound code keeps the depth and cannot fault. */
  lemma StepBalanced(p: Program, d: seq<nat>, lim: Limits, c: Config)
    requires Sound(p.code, d, lim) && Balanced(p, d, lim, c)
    ensures match Step(p, c)
            case Next(e) => Balanced(p, d, lim, e)
            case Final(f) => f != Fault && (f.Ended? <==> c.pc == |p.code|)
  {
    if c.pc < |p.code| {
      SoundIs(p.code, d, lim);
      assert InstrOk(p.code, d, lim, c.pc);
      var op := p.code[c.pc].op;
      if Pops(op) == 0 {
        ProduceBalanced(p, d, lim, c);
      } else {
        ConsumeBalanced(p, d, lim, c);
      }
    }
  }

  lemma ProduceBalanced(p: Program, d: seq<nat>, lim: Limits, c: Config)
    requires Here(p, d, lim, c) && Pops(p.code[c.pc].op) == 0
    ensures match Step(p, c)
            case Next(e) => Balanced(p, d, lim, e)
            case Final(f) => f != Fault && !f.Ended?
  {
    if IsPush(p.code[c.pc].op) {
      PushBalanced(p, d, lim, c);
    }
  }

  lemma PushBalanced(p: Program, d: seq<nat>, lim: Limits, c: Config)
    requires Here(p, d, lim, c) && IsPush(p.code[c.pc].op)
    ensures Step(p, c).Next? && Balanced(p, d, lim, Step(p, c).c)
  {
  }

  lemma ConsumeBalanced(p: Program, d: seq<nat>, lim: Limits, c: Config)
    requires Here(p, d, lim, c) && Pops(p.code[c.pc].op) > 0
    ensures match Step(p, c)
            case Next(e) => Balanced(p, d, lim, e)
            case Final(f) => f != Fault && !f.Ended?
  {
  }

  lemma SoundOperand(code: seq<Instr>, d: seq<nat>, lim: Limits, i: nat)
    requires Sound(code, d, lim) && i < |code|
    ensures OperandOk(code[i], lim)
  {
    SoundIs(code, d, lim);
    assert InstrOk(code, d, lim, i);
  }

  lemma RunBalanced(p: Program, d: seq<nat>, lim: Limits, c: Config, n: nat)
    requires Sound(p.code, d, lim) && Balanced(p, d, lim, c)
    ensures match Runs.Run(Stepper(p), c, n)
            case Next(e) => Balanced(p, d, lim, e)
            case Final(f) => f != Fault
  {
    var inv, fin := (e: Config) => Balanced(p, d, lim, e), (f: Stop) => f != Fault;
    forall e | inv(e) ensures Runs.Keeps(Stepper(p)(e), inv, fin) {
      StepBalanced(p, d, lim, e);
    }
    Runs.RunKeeps(Stepper(p), inv, fin, c, n);
  }

  // ----- compiled functions -----

  /** Depths for the whole code of a function: 0 at both ends. */
  lemma FunctionFlows(f: FunctionDecl, pool: Pool, lim: Limits) returns (d: seq<nat>)
    requires var r := CompFunction(f, pool);
             r.cx.pool <= lim.pool && |lim.pool| < TWO_31 && r.cx.next <= lim.slots < TWO_31 && |r.frag.code| < TWO_31
    ensures Flows(CompFunction(f, pool).frag.code, d, lim, 0, 0)
  {
    var cx := FunctionCtx(f, pool);
    var r := CompAll(f.body, cx, true, true);
    FunctionCode(f, pool);
    FunctionCtxGood(f, pool);
    CodeIs(All(f.body), cx, true, true);
    CodeGood(All(f.body), cx, true, true);
    d := AllFlows(f.body, cx, true, true, lim, r);
    if EndsRet(r.frag.code) {
      assert r.frag.code + [] == r.frag.code;
    } else {
      var d2 := LeaveFlows(RET_NULL, lim);
      d := JoinFlows(r.frag.code, d, [Op(RET_NULL)], d2, lim, 0, 0, 0);
    }
  }

  /**
   * Every compiled function has depths, one per index, that hold in every run from an empty stack, whatever the
   * arguments and globals; no run faults, and no instruction reached has an operand without a slot, a constant or a
   * name behind it.
   */
  lemma DepthIsFunctionOfPc(f: FunctionDecl, pool: Pool, p: Program) returns (d: seq<nat>)
    requires var r := CompFunction(f, pool);
             p.code == r.frag.code && r.cx.pool <= p.pool && |p.pool| < TWO_31 && |p.code| < TWO_31 && r.cx.next < TWO_31
    ensures var lim := Limits(p.pool, CompFunction(f, pool).cx.next);
            && Flows(p.code, d, lim, 0, 0)
            && forall locals, g, n: nat | |locals| >= lim.slots ::
                 match Runs.Run(Stepper(p), Config(0, [], locals, g), n)
                 case Next(c) =>
                   0 <= c.pc <= |p.code| && |c.stack| == d[c.pc] && (c.pc < |p.code| ==> OperandOk(p.code[c.pc], lim))
                 case Final(stop) => stop != Fault
  {
    var lim := Limits(p.pool, CompFunction(f, pool).cx.next);
    d := FunctionFlows(f, pool, lim);
    forall locals: seq<Value>, g: Globals, n: nat | |locals| >= lim.slots
      ensures match Runs.Run(Stepper(p), Config(0, [], locals, g), n)
              case Next(c) =>
                0 <= c.pc <= |p.code| && |c.stack| == d[c.pc] && (c.pc < |p.code| ==> OperandOk(p.code[c.pc], lim))
              case Final(stop) => stop != Fault
    {
      RunBalanced(p, d, lim, Config(0, [], locals, g), n);
      var r := Runs.Run(Stepper(p), Config(0, [], locals, g), n);
      if r.Next? && r.c.pc < |p.code| {
        SoundOperand(p.code, d, lim, r.c.pc);
      }
    }
  }

  /** In every run a jump finds nothing but its condition, and leaves nothing; a return finds nothing but its value. */
  lemma JumpsAtDepthZero(f: FunctionDecl, pool: Pool, p: Program, locals: seq<Value>, g: Globals, n: nat)
    requires var r := CompFunction(f, pool);
             p.code == r.frag.code && r.cx.pool <= p.pool && |p.pool| < TWO_31 && |p.code| < TWO_31 && r.cx.next < TWO_31
    requires |locals| >= CompFunction(f, pool).cx.next
    ensures match Runs.Run(Stepper(p), Config(0, [], locals, g), n)
            case Final(_) => true
            case Next(c) => 0 <= c.pc <= |p.code| && (c.pc < |p.code| ==> LeavesNothing(p, c))
  {
    var d := DepthIsFunctionOfPc(f, pool, p);
    var lim := Limits(p.pool, CompFunction(f, pool).cx.next);
    match Runs.Run(Stepper(p), Config(0, [], locals, g), n)
    case Final(_) =>
    case Next(c) =>
      if c.pc < |p.code| {
        DepthsLeaveNothing(p, d, lim, c);
      }
  }

  lemma DepthsLeaveNothing(p: Program, d: seq<nat>, lim: Limits, c: Config)
    requires Sound(p.code, d, lim) && 0 <= c.pc < |p.code| && |c.stack| == d[c.pc]
    ensures LeavesNothing(p, c)
  {
    SoundIs(p.code, d, lim);
    assert InstrOk(p.code, d, lim, c.pc);
  }

  ghost predicate LeavesNothing(p: Program, c: Config)
    requires 0 <= c.pc < |p.code|
  {
    var op := p.code[c.pc].op;
    && (op == JMP || op == RET_NULL ==> |c.stack| == 0)
    && (op == JMP_IF || op == JMP_IF_NOT || op == RET ==> |c.stack| == 1)
    && (IsJump(op) ==> Step(p, c).Next? && Step(p, c).c.stack == [])
  }

  /** A `let` without initializer emits two PUSHes for one STORE_LOCAL: it leaves one value too many behind. */
  lemma LetWithoutInitializer(p: Program, c: Config, slot: nat)
    requires CodeAt(p, c.pc, [Op(PUSH), Op1(PUSH, 0), Op1(STORE_LOCAL, slot)])
    requires 0 < |p.pool| < TWO_31 && slot < |c.locals| < TWO_31
    ensures Goes(p, c, c.(pc := c.pc + 3, stack := c.stack + [p.pool[0]], locals := c.locals[slot := p.pool[0]]))
  {
    var first, second, third := Op(PUSH), Op1(PUSH, 0), Op1(STORE_LOCAL, slot);
    assert [first, second, third] == [first] + ([second] + [third]);
    CodeSplit(p, c.pc, [first], [second] + [third]);
    CodeSplit(p, c.pc + 1, [second], [third]);
    CodeHead(p, c.pc, first);
    CodeHead(p, c.pc + 1, second);
    CodeHead(p, c.pc + 2, third);
    var v := p.pool[0];
    var d := After(c, 1, v);
    PushStep(p, c, 0);
    PushStep(p, d, 0);
    StoreStep(p, After(d, 1, v), slot, d.stack, v);
    Start(p, c);
    GoesStep(p, c, c, d);
    GoesStep(p, c, d, After(d, 1, v));
    GoesStep(p, c, After(d, 1, v), c.(pc := c.pc + 3, stack := d.stack, locals := c.locals[slot := v]));
  }
}
