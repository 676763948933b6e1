/**
 * The compiler as it is written: one object that appends instructions, patches jumps in place, and pushes and
 * pops scopes and loops. Each method leaves exactly what Lowering says.
 */
module BytecodeCompiler {
  import opened Values
  import opened Ast
  import opened Machine
  import opened Lowering
  import opened LoweringFacts
  import opened Layers

  datatype LoopContext = LoopContext(breakJumpIdx: int, continueJumpIdx: int)

  // ----- what the object's state is after a fragment -----

  /** The innermost loop remembers the last `break` and `continue` of the fragment emitted at `base`. */
  function Noted(loops: seq<LoopContext>, base: nat, f: Frag): seq<LoopContext> {
    if loops == [] then loops
    else
      var k := |loops| - 1;
      loops[k := LoopContext(if f.brk >= 0 then base + f.brk else loops[k].breakJumpIdx,
                             if f.cont >= 0 then base + f.cont else loops[k].continueJumpIdx)]
  }

  lemma NotedAppend(loops: seq<LoopContext>, base: nat, a: Frag, b: Frag)
    ensures Noted(Noted(loops, base, a), base + |a.code|, b) == Noted(loops, base, Append(a, b))
  {
  }

  lemma NotedPlain(loops: seq<LoopContext>, base: nat, code: seq<Instr>)
    ensures Noted(loops, base, Plain(code)) == loops
  {
    if loops != [] {
      assert loops[|loops| - 1 := loops[|loops| - 1]] == loops;
    }
  }

  lemma AppendAssociates(a: Frag, b: Frag, c: Frag)
    ensures Append(Append(a, b), c) == Append(a, Append(b, c))
  {
    assert a.code + b.code + c.code == a.code + (b.code + c.code);
  }

  lemma AppendNothing(a: Frag)
    ensures Append(Plain([]), a) == Frag(a.code, if a.brk >= 0 then a.brk else -1, if a.cont >= 0 then a.cont else -1)
    ensures Append(a, Plain([])) == a
  {
    assert [] + a.code == a.code && a.code + [] == a.code;
  }

  /** The code of a list: the fragments done, then that of the rest. */
  ghost predicate BlockLeft(whole: Lowered, done: Frag, rest: Stmts, cx: Ctx, tail: bool) {
    var more := Code(All(rest), cx, tail, false);
    whole.frag == Append(done, more.frag) && whole.cx == more.cx
  }

  lemma BlockLeftNext(whole: Lowered, done: Frag, rest: Stmts, cx: Ctx, tail: bool)
    requires rest.Then? && BlockLeft(whole, done, rest, cx, tail)
    ensures var a := Code(One(rest.first), cx, tail && rest.rest.Empty?, false);
            BlockLeft(whole, Append(done, a.frag), rest.rest, a.cx, tail)
  {
    CodeUnfolds(All(rest), cx, tail, false);
    var a := Code(One(rest.first), cx, tail && rest.rest.Empty?, false);
    AppendAssociates(done, a.frag, Code(All(rest.rest), a.cx, tail, false).frag);
  }

  lemma BlockLeftNone(whole: Lowered, done: Frag, cx: Ctx, tail: bool)
    requires BlockLeft(whole, done, Empty, cx, tail)
    ensures whole == Lowered(done, cx)
  {
    CodeUnfolds(All(Empty), cx, tail, false);
    AppendNothing(done);
  }

  /** One more fragment behind those already emitted. */
  lemma BlockGoesOn(code: seq<Instr>, loops: seq<LoopContext>, done: Frag, a: Frag)
    ensures code + done.code + a.code == code + Append(done, a).code
    ensures Noted(Noted(loops, |code|, done), |code + done.code|, a) == Noted(loops, |code|, Append(done, a))
  {
    NotedAppend(loops, |code|, done, a);
  }

  // ----- patching inside a longer code -----

  lemma PatchShift(base: seq<Instr>, code: seq<Instr>, at: int, target: int)
    requires at >= 0
    ensures Patch(base + code, |base| + at, |base| + target) == base + Patch(code, at, target)
  {
  }

  /** The code of a loop before its exit jump and the jumps of its body are patched. */
  function Assembled(l: LoopParts): seq<Instr> {
    Opened(l) + BackJump(l)
  }

  function Opened(l: LoopParts): seq<Instr> {
    l.init + l.test + (if l.exit.Some? then [Op(l.exit.value)] else []) + l.pre + l.body.code + l.step
  }

  lemma LoopAssembled(l: LoopParts)
    ensures LoopCode(l) == PatchBody(PatchIf(Assembled(l), ExitAt(l), LoopEnd(l)), BodyAt(l), l.body, LoopEnd(l), ContinueAt(l))
  {
    assert PatchIf(Assembled(l), ExitAt(l), LoopEnd(l)) == l.init + l.test + ExitJump(l) + l.pre + l.body.code + l.step + BackJump(l);
  }

  /** Patch the jump at idx, if there is one. */
  function PatchIf(code: seq<Instr>, idx: int, target: int): (r: seq<Instr>)
    ensures |r| == |code|
  {
    if idx >= 0 then Patch(code, idx, target) else code
  }

  /** Emit the back jump and patch the exit, the last `break` and the last `continue`, in that order. */
  function Close(code: seq<Instr>, loopStart: int, exit: int, loop: LoopContext, cont: int): seq<Instr> {
    var end := |code| + 1;
    var back := code + [Op1(JMP, loopStart - end)];
    PatchIf(PatchIf(PatchIf(back, exit, end), loop.breakJumpIdx, end), loop.continueJumpIdx, cont)
  }

  /** What the loop's body noted in its own, fresh loop context. */
  function LoopNotes(base: seq<Instr>, l: LoopParts): LoopContext {
    LoopContext(if l.body.brk >= 0 then |base| + BodyAt(l) + l.body.brk else -1,
                if l.body.cont >= 0 then |base| + BodyAt(l) + l.body.cont else -1)
  }

  /** A body compiled in a fresh loop context leaves its notes there and nowhere else. */
  lemma LoopNoted(loops: seq<LoopContext>, base: seq<Instr>, l: LoopParts)
    ensures Noted(loops + [LoopContext(-1, -1)], |base| + BodyAt(l), l.body) == loops + [LoopNotes(base, l)]
    ensures (loops + [LoopNotes(base, l)])[..|loops|] == loops
  {
  }

  lemma WhileOpened(base: seq<Instr>, test: seq<Instr>, body: Frag)
    ensures base + test + [Op(JMP_IF_NOT)] + body.code == base + Opened(WhileParts(test, body))
    ensures |base + test + [Op(JMP_IF_NOT)]| == |base| + BodyAt(WhileParts(test, body))
  {
  }

  lemma BoundsEmitted(base: seq<Instr>, lo: seq<Instr>, store: Instr, hi: seq<Instr>)
    ensures base + lo + [store] + hi == base + (lo + [store] + hi)
  {
  }

  function Shift(base: nat, idx: int): int {
    if idx >= 0 then base + idx else -1
  }

  function ShiftLoop(base: nat, loop: LoopContext): LoopContext {
    LoopContext(Shift(base, loop.breakJumpIdx), Shift(base, loop.continueJumpIdx))
  }

  lemma PatchIfShift(base: seq<Instr>, code: seq<Instr>, idx: int, target: int)
    ensures PatchIf(base + code, Shift(|base|, idx), |base| + target) == base + PatchIf(code, idx, target)
  {
    if idx >= 0 {
      PatchShift(base, code, idx, target);
    }
  }

  /** Closing a loop behind other code. */
  lemma CloseShift(base: seq<Instr>, code: seq<Instr>, loopStart: nat, exit: int, loop: LoopContext, cont: nat)
    ensures Close(base + code, |base| + loopStart, Shift(|base|, exit), ShiftLoop(|base|, loop), |base| + cont)
         == base + Close(code, loopStart, exit, loop, cont)
  {
    var end := |code| + 1;
    var back := code + [Op1(JMP, loopStart - end)];
    assert base + code + [Op1(JMP, loopStart - end)] == base + back;
    var exited := PatchIf(back, exit, end);
    var broken := PatchIf(exited, loop.breakJumpIdx, end);
    PatchIfShift(base, back, exit, end);
    PatchIfShift(base, exited, loop.breakJumpIdx, end);
    PatchIfShift(base, broken, loop.continueJumpIdx, cont);
  }

  lemma OpenedLength(l: LoopParts)
    ensures |Opened(l)| + 1 == LoopEnd(l)
  {
  }

  function ExitAt(l: LoopParts): int {
    if l.exit.Some? then |l.init| + |l.test| else -1
  }

  lemma CloseIsLoopCode(l: LoopParts)
    ensures Close(Opened(l), |l.init|, ExitAt(l), LoopNotes([], l), ContinueAt(l)) == LoopCode(l)
  {
    OpenedLength(l);
    var exited := PatchIf(Assembled(l), ExitAt(l), LoopEnd(l));
    LoopAssembled(l);
    CloseIsPatchBody(exited, BodyAt(l), l.body, LoopNotes([], l), LoopEnd(l), ContinueAt(l));
  }

  lemma CloseIsPatchBody(code: seq<Instr>, at: nat, body: Frag, loop: LoopContext, brk: int, cont: int)
    requires loop == LoopContext(if body.brk >= 0 then at + body.brk else -1, if body.cont >= 0 then at + body.cont else -1)
    ensures PatchIf(PatchIf(code, loop.breakJumpIdx, brk), loop.continueJumpIdx, cont) == PatchBody(code, at, body, brk, cont)
  {
  }

  lemma LoopClosed(base: seq<Instr>, l: LoopParts, loop: LoopContext, exit: int)
    requires loop == LoopNotes(base, l)
    requires exit == Shift(|base|, ExitAt(l))
    ensures Close(base + Opened(l), |base| + |l.init|, exit, loop, |base| + ContinueAt(l)) == base + LoopCode(l)
  {
    CloseShift(base, Opened(l), |l.init|, ExitAt(l), LoopNotes([], l), ContinueAt(l));
    CloseIsLoopCode(l);
    assert ShiftLoop(|base|, LoopNotes([], l)) == loop;
  }

  /** Patch every listed jump to one target, first to last. */
  function PatchAll(code: seq<Instr>, idxs: seq<nat>, target: int): (r: seq<Instr>)
    ensures |r| == |code|
  {
    if idxs == [] then code
    else Patch(PatchAll(code, idxs[..|idxs| - 1], target), idxs[|idxs| - 1], target)
  }

  lemma {:induction false} PatchCommutes(code: seq<Instr>, idxs: seq<nat>, at: nat, target: int)
    ensures PatchAll(Patch(code, at, target), idxs, target) == Patch(PatchAll(code, idxs, target), at, target)
    decreases |idxs|
  {
    if idxs != [] {
      var k := |idxs| - 1;
      PatchCommutes(code, idxs[..k], at, target);
    }
  }

  /** What has been emitted once an arm is done, its exit jump (if it has one) still to be patched. */
  function ArmOpen(code: seq<Instr>, test: seq<Instr>, body: seq<Instr>): seq<Instr> {
    code + test + [Op1(JMP_IF_NOT, |body| + |OpenExit(body)|)] + body + OpenExit(body)
  }

  function OpenExit(body: seq<Instr>): seq<Instr> {
    if EndsRet(body) then [] else [Op(JMP)]
  }

  /** The last instruction emitted so far is the body's, or the conditional jump before an empty body. */
  lemma ArmTerminates(code: seq<Instr>, test: seq<Instr>, body: seq<Instr>)
    ensures EndsRet(code + test + [Op(JMP_IF_NOT)] + body) <==> EndsRet(body)
  {
  }

  lemma ArmPatched(code: seq<Instr>, test: seq<Instr>, body: seq<Instr>)
    ensures var now := code + test + [Op(JMP_IF_NOT)] + body + OpenExit(body);
            Patch(now, |code| + |test|, |now|) == ArmOpen(code, test, body)
  {
  }

  function WithExit(now: seq<Instr>, body: seq<Instr>, after: seq<nat>): seq<nat>
    requires now != []
  {
    if EndsRet(body) then after else after + [|now| - 1]
  }

  /** The code of an arm: test, jump, body, exit jump, remaining arms. */
  function ArmJoined(test: seq<Instr>, body: seq<Instr>, more: seq<Instr>): seq<Instr> {
    var exit := ArmExit(body, |more|);
    test + [Op1(JMP_IF_NOT, |body| + |exit|)] + body + exit + more
  }

  lemma OpenReturns(code: seq<Instr>, test: seq<Instr>, body: seq<Instr>, more: seq<Instr>)
    requires EndsRet(body)
    ensures code + ArmJoined(test, body, more) == ArmOpen(code, test, body) + more
  {
    Regroup(code, test + [Op1(JMP_IF_NOT, |body|)] + body, [], more);
  }

  lemma OpenJumps(code: seq<Instr>, test: seq<Instr>, body: seq<Instr>, more: seq<Instr>)
    requires !EndsRet(body)
    ensures var now := ArmOpen(code, test, body);
            code + ArmJoined(test, body, more) == Patch(now + more, |now| - 1, |now| + |more|)
  {
    var front := test + [Op1(JMP_IF_NOT, |body| + 1)] + body;
    OpenIs(code, test, body);
    ExitPatched(code + front, more);
    Regroup(code, front, [Op1(JMP, |more|)], more);
  }

  lemma OpenIs(code: seq<Instr>, test: seq<Instr>, body: seq<Instr>)
    requires !EndsRet(body)
    ensures ArmOpen(code, test, body) == code + (test + [Op1(JMP_IF_NOT, |body| + 1)] + body) + [Op(JMP)]
  {
  }

  lemma Regroup(code: seq<Instr>, front: seq<Instr>, exit: seq<Instr>, more: seq<Instr>)
    ensures code + (front + exit + more) == code + front + exit + more
  {
  }

  /** Patching the exit jumps later is the arm joined to the remaining ones. */
  lemma ArmEmitted(code: seq<Instr>, test: seq<Instr>, body: seq<Instr>, more: seq<Instr>, after: seq<nat>, end: int)
    requires end == |code| + |ArmJoined(test, body, more)|
    ensures var now := ArmOpen(code, test, body);
            && |now| + |more| == end
            && PatchAll(code + ArmJoined(test, body, more), after, end)
               == PatchAll(now + more, WithExit(now, body, after), end)
  {
    var now := ArmOpen(code, test, body);
    if EndsRet(body) {
      OpenReturns(code, test, body, more);
    } else {
      OpenJumps(code, test, body, more);
      PatchCommutes(now + more, after, |now| - 1, end);
      assert (after + [|now| - 1])[..|after|] == after;
    }
  }

  /** What has been emitted, the contexts of the enclosing loops, and the exit jumps still to be patched. */
  datatype Progress = Progress(code: seq<Instr>, loops: seq<LoopContext>, after: seq<nat>)

  /** Emitting `rest` from `now` on gives what emitting `arms` from `was` on gives. */
  ghost predicate Continues(was: Progress, arms: Lowered, now: Progress, rest: Lowered, end: int) {
    && end == |now.code| + |rest.frag.code| && arms.cx == rest.cx && |now.loops| == |was.loops|
    && PatchAll(was.code + arms.frag.code, was.after, end) == PatchAll(now.code + rest.frag.code, now.after, end)
    && Noted(was.loops, |was.code|, arms.frag) == Noted(now.loops, |now.code|, rest.frag)
  }

  /** What an arm leaves to be done: its exit jump is noted, the remaining arms follow. */
  lemma ArmCompiled(guard: Expr, body: Stmts, more: Arms, cx: Ctx, tail: bool, a: ExprCode, b: Lowered, code: seq<Instr>,
                    loops: seq<LoopContext>, after: seq<nat>, end: int, now: Progress, cx1: Ctx)
    requires a == CodeOf(guard, cx.scopes, cx.pool) && b == ScopedCode(body, cx.(pool := a.pool), tail, false)
    requires end == |code| + |Code(Cases(Arm(guard, body, more)), cx, tail, false).frag.code|
    requires now.code == ArmOpen(code, a.code, b.frag.code) && now.loops == Noted(loops, |code| + |a.code| + 1, b.frag)
    requires now.after == WithExit(now.code, b.frag.code, after) && cx1 == b.cx
    ensures Continues(Progress(code, loops, after), Code(Cases(Arm(guard, body, more)), cx, tail, false), now,
                      Code(Cases(more), cx1, tail, false), end)
  {
    ArmCodeIs(guard, body, more, cx, tail, a, b);
    ArmNotes(guard, body, more, cx, tail, a, b, code, loops);
    ArmEmitted(code, a.code, b.frag.code, Code(Cases(more), b.cx, tail, false).frag.code, after, end);
  }

  lemma ArmCodeIs(guard: Expr, body: Stmts, more: Arms, cx: Ctx, tail: bool, a: ExprCode, b: Lowered)
    requires a == CodeOf(guard, cx.scopes, cx.pool) && b == ScopedCode(body, cx.(pool := a.pool), tail, false)
    ensures var arms := Code(Cases(Arm(guard, body, more)), cx, tail, false);
            var rest := Code(Cases(more), b.cx, tail, false);
            arms.cx == rest.cx && arms.frag.code == ArmJoined(a.code, b.frag.code, rest.frag.code)
  {
    ArmUnfolds(guard, body, more, cx, tail, a, b);
    JoinArmIs(a.code, b.frag, Code(Cases(more), b.cx, tail, false).frag);
  }

  lemma ArmNotes(guard: Expr, body: Stmts, more: Arms, cx: Ctx, tail: bool, a: ExprCode, b: Lowered, code: seq<Instr>,
                 loops: seq<LoopContext>)
    requires a == CodeOf(guard, cx.scopes, cx.pool) && b == ScopedCode(body, cx.(pool := a.pool), tail, false)
    ensures var arms := Code(Cases(Arm(guard, body, more)), cx, tail, false);
            var rest := Code(Cases(more), b.cx, tail, false);
            var now := ArmOpen(code, a.code, b.frag.code);
            Noted(loops, |code|, arms.frag) == Noted(Noted(loops, |code| + |a.code| + 1, b.frag), |now|, rest.frag)
  {
    ArmUnfolds(guard, body, more, cx, tail, a, b);
    ArmNoted(loops, code, a.code, b.frag, Code(Cases(more), b.cx, tail, false).frag);
  }

  lemma ArmUnfolds(guard: Expr, body: Stmts, more: Arms, cx: Ctx, tail: bool, a: ExprCode, b: Lowered)
    requires a == CodeOf(guard, cx.scopes, cx.pool) && b == ScopedCode(body, cx.(pool := a.pool), tail, false)
    ensures var rest := Code(Cases(more), b.cx, tail, false);
            Code(Cases(Arm(guard, body, more)), cx, tail, false) == Lowered(JoinArm(a.code, b.frag, rest.frag), rest.cx)
  {
    CodeUnfolds(Cases(Arm(guard, body, more)), cx, tail, false);
  }

  /** The jumps of an arm's body and of the remaining arms are noted in order. */
  lemma ArmNoted(loops: seq<LoopContext>, code: seq<Instr>, test: seq<Instr>, body: Frag, more: Frag)
    ensures Noted(loops, |code|, JoinArm(test, body, more))
         == Noted(Noted(loops, |code| + |test| + 1, body), |ArmOpen(code, test, body.code)|, more)
  {
  }

  /** The test of a range loop, and everything before its body. */
  function RangeTest(slot: nat, end: nat): seq<Instr> {
    [Op1(LOAD_LOCAL, slot), Op1(LOAD_LOCAL, end), Op(IGT), Op(JMP_IF)]
  }

  function RangeFront(bounds: Bounds, slot: nat): seq<Instr> {
    bounds.lo + [Op1(STORE_LOCAL, slot)] + bounds.hi + [Op1(STORE_LOCAL, bounds.cx.next)] + RangeTest(slot, bounds.cx.next)
  }

  lemma RangeFrontCode(base: seq<Instr>, bounds: Bounds, slot: nat)
    ensures base + (bounds.lo + [Op1(STORE_LOCAL, slot)] + bounds.hi) + [Op1(STORE_LOCAL, bounds.cx.next)]
            + RangeTest(slot, bounds.cx.next)
         == base + RangeFront(bounds, slot)
  {
  }

  lemma RangeOpened(base: seq<Instr>, bounds: Bounds, slot: nat, body: Lowered)
    ensures var l := RangeParts(slot, bounds, body);
            && base + RangeFront(bounds, slot) + body.frag.code + l.step == base + Opened(l)
            && |RangeFront(bounds, slot)| == BodyAt(l)
  {
    var l := RangeParts(slot, bounds, body);
    assert RangeFront(bounds, slot) == l.init + l.test + [Op(JMP_IF)] + l.pre;
  }

  /** The test of an array loop and the load of the element. */
  function EachTest(arr: nat): seq<Instr> {
    [Op1(LOAD_LOCAL, arr + 2), Op1(LOAD_LOCAL, arr + 1), Op(IGE), Op(JMP_IF),
     Op1(LOAD_LOCAL, arr), Op1(LOAD_LOCAL, arr + 2), Op(LOAD_INDEX)]
  }

  function EachFront(a: ExprCode, arr: nat): seq<Instr> {
    a.code + EachInit(arr, a.pool) + EachTest(arr) + [Op1(STORE_LOCAL, arr + 3)]
  }

  function LengthInit(arr: nat): seq<Instr> {
    [Op1(STORE_LOCAL, arr), Op1(LOAD_LOCAL, arr), Op(ARRAY_LEN)]
  }

  lemma EachFrontCode(base: seq<Instr>, a: ExprCode, arr: nat)
    ensures base + a.code + LengthInit(arr) + [Op1(STORE_LOCAL, arr + 1)] + [Op1(PUSH, |a.pool|)]
            + [Op1(STORE_LOCAL, arr + 2)] + EachTest(arr) + [Op1(STORE_LOCAL, arr + 3)]
         == base + EachFront(a, arr)
  {
    EachInitParts(base + a.code, arr, a.pool);
    FrontGrouped(base, a.code, EachInit(arr, a.pool), EachTest(arr), [Op1(STORE_LOCAL, arr + 3)]);
  }

  lemma EachInitParts(base: seq<Instr>, arr: nat, pool: Pool)
    ensures base + LengthInit(arr) + [Op1(STORE_LOCAL, arr + 1)] + [Op1(PUSH, |pool|)] + [Op1(STORE_LOCAL, arr + 2)]
         == base + EachInit(arr, pool)
  {
  }

  lemma FrontGrouped(a: seq<Instr>, b: seq<Instr>, c: seq<Instr>, d: seq<Instr>, e: seq<Instr>)
    ensures a + b + c + d + e == a + (b + c + d + e)
  {
  }

  lemma EachOpened(base: seq<Instr>, a: ExprCode, arr: nat, body: Lowered)
    ensures var l := EachParts(a, arr, body);
            && base + EachFront(a, arr) + body.frag.code + l.step == base + Opened(l)
            && |EachFront(a, arr)| == BodyAt(l)
  {
    var l := EachParts(a, arr, body);
    assert EachFront(a, arr) == l.init + l.test + [Op(JMP_IF)] + l.pre;
  }

  lemma ElementEmitted(code: seq<Instr>, done: seq<Instr>, a: seq<Instr>, more: seq<Instr>)
    ensures code + done + a + [Op(ARRAY_PUSH)] == code + (done + (a + [Op(ARRAY_PUSH)]))
    ensures done + (a + [Op(ARRAY_PUSH)] + more) == done + (a + [Op(ARRAY_PUSH)]) + more
  {
  }

  /** A function is its body, finished; its parameters have the first slots. */
  lemma FunctionCompiled(f: FunctionDecl, pool: Pool)
    ensures var r := Code(All(f.body), FunctionCtx(f, pool), true, false);
            CompFunction(f, pool) == Lowered(Plain(Finish([] + r.frag.code)), r.cx) && |f.params| <= r.cx.next
  {
    var r := Code(All(f.body), FunctionCtx(f, pool), true, false);
    CodeIs(All(f.body), FunctionCtx(f, pool), true, false);
    FunctionCtxGood(f, pool);
    CodeGood(All(f.body), FunctionCtx(f, pool), true, false);
    assert [] + r.frag.code == r.frag.code;
  }

  /** A constant may as well be added before the variables are. */
  lemma ConstFirst(cx: Ctx, x: string, y: string, v: Value)
    ensures WithConst(Allocate(Allocate(cx, x), y), v) == Allocate(Allocate(WithConst(cx, v), x), y)
  {
  }

  class BytecodeCompiler {
    var code: seq<Instr>
    var values: Pool
    var scopeStack: Scopes
    var nextSlot: nat
    var loopStack: seq<LoopContext>
    var isTailContext: bool

    function Cx(): Ctx
      reads this
    {
      Ctx(values, scopeStack, nextSlot)
    }

    constructor (pool: Pool)
      ensures code == [] && values == pool && scopeStack == [] && nextSlot == 0 && loopStack == [] && !isTailContext
    {
      code, values, scopeStack, nextSlot, loopStack, isTailContext := [], pool, [], 0, [], false;
    }

    // ----- emitting -----

    method EmitOp(op: OpCode)
      modifies `code
      ensures code == old(code) + [Op(op)]
    {
      code := code + [Op(op)];
    }

    method EmitOp1(op: OpCode, operand: int)
      modifies `code
      ensures code == old(code) + [Op1(op, operand)]
    {
      code := code + [Op1(op, operand)];
    }

    method PatchJump(jumpIdx: int, targetIdx: int)
      modifies `code
      ensures code == Patch(old(code), jumpIdx, targetIdx)
    {
      if 0 <= jumpIdx < |code| {
        var offset := targetIdx - (jumpIdx + 1);
        code := code[jumpIdx := code[jumpIdx].(arg := U32(offset))];
      }
    }

    method EmitLoadLocal(slot: nat)
      modifies `code
      ensures code == old(code) + [LoadLocal(slot)]
    {
      if slot == 0 {
        EmitOp(LOAD_LOCAL_0);
      } else if slot == 1 {
        EmitOp(LOAD_LOCAL_1);
      } else {
        EmitOp1(LOAD_LOCAL, slot);
      }
    }

    // ----- constants -----

    method AddConstant(v: Value) returns (idx: nat)
      modifies `values
      ensures values == old(values) + [v] && idx == |old(values)|
    {
      values := values + [v];
      idx := |values| - 1;
    }

    method FindOrAddString(s: string) returns (idx: nat)
      modifies `values
      ensures values == WithString(old(values), s) && idx == StringIndex(old(values), s)
      ensures idx < |values| && values[idx] == Str(s)
    {
      idx := 0;
      while idx < |values|
        invariant idx <= |values| && StringIndex(values, s) == FindString(values, s, idx)
      {
        if values[idx] == Str(s) {
          return;
        }
        idx := idx + 1;
      }
      values := values + [Str(s)];
    }

    method EmitConst(v: Value)
      modifies `code, `values
      ensures var r := ConstCode(old(values), v); code == old(code) + r.code && values == r.pool
      ensures Cx() == WithConst(old(Cx()), v)
    {
      var idx := AddConstant(v);
      EmitOp1(PUSH, idx);
    }

    method EmitString(op: OpCode, s: string)
      modifies `code, `values
      ensures code == old(code) + [Op1(op, StringIndex(old(values), s))] && values == WithString(old(values), s)
    {
      var idx := FindOrAddString(s);
      EmitOp1(op, idx);
    }

    // ----- scopes -----

    method EnterScope()
      modifies `scopeStack
      ensures Cx() == Lowering.EnterScope(old(Cx()))
    {
      scopeStack := scopeStack + [map[]];
    }

    method ExitScope()
      modifies `scopeStack
      ensures Cx() == Lowering.ExitScope(old(Cx()))
    {
      if scopeStack != [] {
        scopeStack := scopeStack[..|scopeStack| - 1];
      }
    }

    /** The slot of the innermost binding of the name, or -1. */
    method ResolveVariable(name: string) returns (slot: int)
      ensures slot == match Resolve(scopeStack, name) case Some(k) => k case None => -1
    {
      var i := |scopeStack|;
      assert scopeStack[..i] == scopeStack;
      while i > 0
        invariant 0 <= i <= |scopeStack| && Resolve(scopeStack[..i], name) == Resolve(scopeStack, name)
      {
        i := i - 1;
        assert scopeStack[..i + 1][..i] == scopeStack[..i];
        if name in scopeStack[i] {
          return scopeStack[i][name];
        }
      }
      assert scopeStack[..0] == [];
      return -1;
    }

    method AllocateLocal(name: string) returns (slot: nat)
      modifies `scopeStack, `nextSlot
      ensures Cx() == Allocate(old(Cx()), name) && slot == old(nextSlot)
    {
      if scopeStack == [] {
        scopeStack := [map[]];
      }
      slot := nextSlot;
      nextSlot := nextSlot + 1;
      var top: map<string, nat> := scopeStack[|scopeStack| - 1];
      scopeStack := scopeStack[..|scopeStack| - 1] + [top[name := slot]];
    }

    // ----- expressions -----

    method CompileExpression(e: Expr)
      modifies `code, `values
      ensures var r := CompExpr(e, scopeStack, old(values)); code == old(code) + r.code && values == r.pool
      decreases e, 1
    {
      ghost var before := code;
      match e
      case IntLit(n) => EmitConst(Int(Cut32(n)));
      case BoolLit(b) => EmitConst(Int(if b then 1 else 0));
      case StrLit(s) => EmitString(PUSH, s);
      case Var(x) => CompileIdentifier(x);
      case Binary(op, l, r) =>
        CompilePair(l, r, BinaryCode(op), e);
      case Unary(op, x) =>
        CompileExpression(x);
        EmitOp(UnaryCode(op));
      case Index(x, i) =>
        CompilePair(x, i, LOAD_INDEX, e);
      case ArrayLit(es) =>
        EmitOp1(ALLOC_ARRAY, Count(es));
        CompileElements(es);
    }

    method CompileIdentifier(name: string)
      modifies `code, `values
      ensures var r := CompExpr(Var(name), scopeStack, old(values)); code == old(code) + r.code && values == r.pool
    {
      var slot := ResolveVariable(name);
      if slot >= 0 {
        EmitLoadLocal(slot);
      } else {
        EmitString(LOAD_GLOBAL, name);
      }
    }

    method CompilePair(l: Expr, r: Expr, op: OpCode, ghost whole: Expr)
      requires l < whole && r < whole
      modifies `code, `values
      ensures var a := CompExpr(l, scopeStack, old(values));
              var b := CompExpr(r, scopeStack, a.pool);
              code == old(code) + (a.code + b.code + [Op(op)]) && values == b.pool
      decreases whole, 0
    {
      CompileExpression(l);
      CompileExpression(r);
      EmitOp(op);
    }

    method CompileElements(es: Exprs)
      modifies `code, `values
      ensures var r := CompElems(es, scopeStack, old(values)); code == old(code) + r.code && values == r.pool
      decreases es, 0
    {
      var rest := es;
      ghost var done: seq<Instr> := [];
      while rest.MoreExprs?
        invariant rest == es || rest < es
        invariant code == old(code) + done
        invariant var r, more := CompElems(es, scopeStack, old(values)), CompElems(rest, scopeStack, values);
                  r.code == done + more.code && r.pool == more.pool
        decreases rest
      {
        ghost var a := CompExpr(rest.head, scopeStack, values);
        ghost var more := CompElems(rest.tail, scopeStack, a.pool);
        ElementEmitted(old(code), done, a.code, more.code);
        CompileExpression(rest.head);
        EmitOp(ARRAY_PUSH);
        done := done + (a.code + [Op(ARRAY_PUSH)]);
        rest := rest.tail;
      }
    }

    // ----- statements -----

    /** The state after the text lowered to r has been emitted behind code0, within the loops loops0. */
    ghost predicate Emitted(code0: seq<Instr>, loops0: seq<LoopContext>, r: Lowered)
      reads this
    {
      code == code0 + r.frag.code && Cx() == r.cx && loopStack == Noted(loops0, |code0|, r.frag)
    }

    /** Refused is only a `break` or `continue` outside of all loops: the compiler throws, and nothing is promised. */
    method CompileStatement(s: Stmt) returns (ok: bool)
      modifies this
      ensures ok <==> old(loopStack) != [] || !Stray(s)
      ensures ok ==> Emitted(old(code), old(loopStack), Code(One(s), old(Cx()), old(isTailContext), false))
      ensures isTailContext == old(isTailContext) || !ok
      decreases s, 2
    {
      CodeUnfolds(One(s), Cx(), isTailContext, false);
      ok := true;
      match s
      case Block(b) => ok := CompileBlock(b);
      case If(arms) => ok := CompileIf(arms);
      case While(e, b) => CompileWhile(e, b);
      case Loop(b) => CompileLoop(b);
      case ForRange(x, lo, hi, b) => CompileForRange(x, lo, hi, b);
      case ForCount(x, n, b) => CompileForCount(x, n, b);
      case ForEach(x, e, b) => CompileForEach(x, e, b);
      case Break => ok := CompileBreak();
      case Continue => ok := CompileContinue();
      case _ => CompileSimple(s);
    }

    method CompileSimple(s: Stmt)
      requires s.Let? || s.Assign? || s.ExprStmt? || s.Return?
      modifies `code, `values, `scopeStack, `nextSlot
      ensures Emitted(old(code), old(loopStack), StmtLayer(s, old(Cx()), isTailContext, false))
    {
      NotedPlain(loopStack, |code|, StmtLayer(s, Cx(), isTailContext, false).frag.code);
      match s
      case Let(x, e) => CompileLet(x, e);
      case Assign(x, e) => CompileAssign(x, e);
      case ExprStmt(e) => CompileExprStmt(e);
      case Return(v) => CompileReturn(v);
    }

    method CompileLet(x: string, e: Expr)
      modifies `code, `values, `scopeStack, `nextSlot
      ensures var r := CompLet(x, e, old(Cx())); code == old(code) + r.frag.code && Cx() == r.cx
    {
      CodeOfIs(e, scopeStack, values);
      CompileExpression(e);
      var slot := AllocateLocal(x);
      EmitOp1(STORE_LOCAL, slot);
    }

    method CompileAssign(x: string, e: Expr)
      modifies `code, `values
      ensures var r := CompAssign(x, e, old(Cx())); code == old(code) + r.frag.code && Cx() == r.cx
    {
      CodeOfIs(e, scopeStack, values);
      CompileExpression(e);
      var slot := ResolveVariable(x);
      if slot >= 0 {
        EmitOp1(STORE_LOCAL, slot);
      } else {
        EmitString(STORE_GLOBAL, x);
      }
    }

    method CompileExprStmt(e: Expr)
      modifies `code, `values
      ensures var r := CompExprStmt(e, old(Cx()), isTailContext); code == old(code) + r.frag.code && Cx() == r.cx
    {
      CodeOfIs(e, scopeStack, values);
      CompileExpression(e);
      if isTailContext {
        EmitOp(RET);
      } else {
        EmitOp(POP);
      }
    }

    method CompileReturn(v: Option<Expr>)
      modifies `code, `values
      ensures var r := StmtLayer(Return(v), old(Cx()), isTailContext, false);
              code == old(code) + r.frag.code && Cx() == r.cx
    {
      if v.Some? {
        CodeOfIs(v.value, scopeStack, values);
        CompileExpression(v.value);
        EmitOp(RET);
      } else {
        EmitOp(RET_NULL);
      }
    }

    method CompileBreak() returns (ok: bool)
      modifies `code, `loopStack
      ensures ok <==> old(loopStack) != []
      ensures ok ==> Emitted(old(code), old(loopStack), Lowered(Frag([Op(JMP)], 0, -1), old(Cx())))
    {
      if loopStack == [] {
        return false;
      }
      var jumpIdx := |code|;
      EmitOp(JMP);
      var k := |loopStack| - 1;
      loopStack := loopStack[k := loopStack[k].(breakJumpIdx := jumpIdx)];
      return true;
    }

    method CompileContinue() returns (ok: bool)
      modifies `code, `loopStack
      ensures ok <==> old(loopStack) != []
      ensures ok ==> Emitted(old(code), old(loopStack), Lowered(Frag([Op(JMP)], -1, 0), old(Cx())))
    {
      if loopStack == [] {
        return false;
      }
      EmitOp(JMP);
      var jumpIdx := |code| - 1;
      var k := |loopStack| - 1;
      loopStack := loopStack[k := loopStack[k].(continueJumpIdx := jumpIdx)];
      return true;
    }

    /** Only the last member of a block is in tail position. */
    method CompileMember(s: Stmt, isLast: bool) returns (ok: bool)
      modifies this
      ensures ok <==> old(loopStack) != [] || !Stray(s)
      ensures ok ==> Emitted(old(code), old(loopStack), Code(One(s), old(Cx()), old(isTailContext) && isLast, false))
      ensures isTailContext == old(isTailContext) || !ok
      decreases s, 3
    {
      var savedTail := isTailContext;
      if !isLast {
        isTailContext := false;
      }
      ok := CompileStatement(s);
      if ok {
        isTailContext := savedTail;
      }
    }

    /** The fragment f has been emitted behind code0, within the loops loops0. */
    ghost predicate Behind(code0: seq<Instr>, loops0: seq<LoopContext>, f: Frag)
      reads this
    {
      code == code0 + f.code && loopStack == Noted(loops0, |code0|, f)
    }

    /** One more member behind those already emitted. */
    method CompileNext(s: Stmt, isLast: bool, ghost code0: seq<Instr>, ghost loops0: seq<LoopContext>, ghost done: Frag)
      returns (ok: bool)
      requires Behind(code0, loops0, done)
      modifies this
      ensures ok <==> old(loopStack) != [] || !Stray(s)
      ensures ok ==> var a := Code(One(s), old(Cx()), old(isTailContext) && isLast, false);
                     Behind(code0, loops0, Append(done, a.frag)) && Cx() == a.cx
      ensures isTailContext == old(isTailContext) || !ok
      decreases s, 4
    {
      BlockGoesOn(code0, loops0, done, Code(One(s), Cx(), isTailContext && isLast, false).frag);
      ok := CompileMember(s, isLast);
    }

    method CompileBlock(ss: Stmts) returns (ok: bool)
      modifies this
      ensures ok <==> old(loopStack) != [] || !AnyStray(ss)
      ensures ok ==> Emitted(old(code), old(loopStack), Code(All(ss), old(Cx()), old(isTailContext), false))
      ensures isTailContext == old(isTailContext) || !ok
      decreases ss, 1
    {
      var rest := ss;
      ghost var whole := Code(All(ss), Cx(), isTailContext, false);
      ghost var done := Plain([]);
      NotedPlain(loopStack, |code|, []);
      CodeHoled(All(ss), Cx(), isTailContext, false);
      AppendNothing(whole.frag);
      while rest.Then?
        invariant rest == ss || rest < ss
        invariant isTailContext == old(isTailContext)
        invariant Behind(old(code), old(loopStack), done)
        invariant BlockLeft(whole, done, rest, Cx(), isTailContext)
        invariant old(loopStack) == [] ==> (AnyStray(ss) <==> AnyStray(rest))
        decreases rest
      {
        BlockLeftNext(whole, done, rest, Cx(), isTailContext);
        ghost var a := Code(One(rest.first), Cx(), isTailContext && rest.rest.Empty?, false);
        ok := CompileNext(rest.first, rest.rest.Empty?, old(code), old(loopStack), done);
        if !ok {
          return;
        }
        done := Append(done, a.frag);
        rest := rest.rest;
      }
      BlockLeftNone(whole, done, Cx(), isTailContext);
      ok := true;
    }

    /** A body in its own scope. */
    method CompileBody(b: Stmts) returns (ok: bool)
      modifies this
      ensures ok <==> old(loopStack) != [] || !AnyStray(b)
      ensures ok ==> Emitted(old(code), old(loopStack), ScopedCode(b, old(Cx()), old(isTailContext), false))
      ensures isTailContext == old(isTailContext) || !ok
      decreases b, 3
    {
      EnterScope();
      ok := CompileBlock(b);
      ExitScope();
    }

    // ----- if -----

    method CompileIf(arms: Arms) returns (ok: bool)
      modifies this
      ensures ok <==> old(loopStack) != [] || !ArmsStray(arms)
      ensures ok ==> Emitted(old(code), old(loopStack), Code(Cases(arms), old(Cx()), old(isTailContext), false))
      ensures isTailContext == old(isTailContext) || !ok
      decreases arms, 1
    {
      var rest := arms;
      var after: seq<nat> := [];
      ghost var whole := Code(Cases(arms), Cx(), isTailContext, false);
      ghost var end := |code| + |whole.frag.code|;
      while rest.Arm?
        invariant rest == arms || rest < arms
        invariant isTailContext == old(isTailContext)
        invariant var more := Code(Cases(rest), Cx(), isTailContext, false);
                  && end == |code| + |more.frag.code| && whole.cx == more.cx
                  && old(code) + whole.frag.code == PatchAll(code + more.frag.code, after, end)
                  && Noted(old(loopStack), |old(code)|, whole.frag) == Noted(loopStack, |code|, more.frag)
        invariant |loopStack| == |old(loopStack)|
        invariant old(loopStack) != [] || (ArmsStray(arms) <==> ArmsStray(rest))
        decreases rest
      {
        ok, after := CompileArm(rest.guard, rest.abody, rest.more, after, end);
        if !ok {
          return;
        }
        rest := rest.more;
      }
      CodeUnfolds(Cases(rest), Cx(), isTailContext, false);
      ghost var more := Code(Cases(rest), Cx(), isTailContext, false);
      ghost var before := code;
      ok := true;
      if rest.Else? {
        ok := CompileBody(rest.orelse);
        if !ok {
          return;
        }
      } else {
        NotedPlain(loopStack, |code|, []);
      }
      assert code == before + more.frag.code;
      PatchExits(after);
    }

    /** Every exit jump collected goes to the end. */
    method PatchExits(after: seq<nat>)
      modifies `code
      ensures code == PatchAll(old(code), after, |old(code)|)
    {
      var i := 0;
      assert after[..0] == [];
      while i < |after|
        invariant 0 <= i <= |after| && |code| == |old(code)|
        invariant code == PatchAll(old(code), after[..i], |old(code)|)
      {
        assert after[..i + 1][..i] == after[..i];
        PatchJump(after[i], |code|);
        i := i + 1;
      }
      assert after[..i] == after;
    }

    /** One condition and its body; `after` collects the exit jumps still to be patched to `end`. */
    method CompileArm(guard: Expr, body: Stmts, more: Arms, after: seq<nat>, ghost end: nat)
      returns (ok: bool, after1: seq<nat>)
      requires var arms := Code(Cases(Arm(guard, body, more)), Cx(), isTailContext, false);
               end == |code| + |arms.frag.code|
      modifies this
      ensures ok <==> old(loopStack) != [] || !AnyStray(body)
      ensures isTailContext == old(isTailContext) || !ok
      ensures ok ==> Continues(Progress(old(code), old(loopStack), after),
                               Code(Cases(Arm(guard, body, more)), old(Cx()), isTailContext, false),
                               Progress(code, loopStack, after1), Code(Cases(more), Cx(), isTailContext, false), end)
      decreases body, 5
    {
      after1 := after;
      ghost var code0, loops0, cx, tail := code, loopStack, Cx(), isTailContext;
      ghost var a := CodeOf(guard, scopeStack, values);
      ghost var b := ScopedCode(body, cx.(pool := a.pool), tail, false);
      var elseJumpIdx: nat;
      ok, elseJumpIdx := CompileGuarded(guard, body);
      if !ok {
        return;
      }
      after1 := CloseArm(elseJumpIdx, after, code0, a.code, b.frag.code);
      ghost var now := Progress(code, loopStack, after1);
      ArmCompiled(guard, body, more, cx, tail, a, b, code0, loops0, after, end, now, Cx());
    }

    /** The condition, its jump, and the body. */
    method CompileGuarded(guard: Expr, body: Stmts) returns (ok: bool, elseJumpIdx: nat)
      modifies this
      ensures ok <==> old(loopStack) != [] || !AnyStray(body)
      ensures isTailContext == old(isTailContext) || !ok
      ensures ok ==>
                var a := CodeOf(guard, old(scopeStack), old(values));
                var b := ScopedCode(body, old(Cx()).(pool := a.pool), isTailContext, false);
                && code == old(code) + a.code + [Op(JMP_IF_NOT)] + b.frag.code && elseJumpIdx == |old(code)| + |a.code|
                && Cx() == b.cx && loopStack == Noted(old(loopStack), |old(code)| + |a.code| + 1, b.frag)
                && |loopStack| == |old(loopStack)|
      decreases body, 4
    {
      CodeOfIs(guard, scopeStack, values);
      CompileExpression(guard);
      elseJumpIdx := |code|;
      EmitOp(JMP_IF_NOT);
      ok := CompileBody(body);
    }

    /** The jump past the remaining arms, unless the arm's last instruction returns; the condition's jump is patched. */
    method CloseArm(elseJumpIdx: nat, after: seq<nat>, ghost code0: seq<Instr>, ghost test: seq<Instr>, ghost body: seq<Instr>)
      returns (after1: seq<nat>)
      requires code == code0 + test + [Op(JMP_IF_NOT)] + body && elseJumpIdx == |code0| + |test|
      modifies `code
      ensures code == ArmOpen(code0, test, body) && after1 == WithExit(code, body, after)
    {
      ArmTerminates(code0, test, body);
      after1 := EmitExit(after, body);
      PatchJump(elseJumpIdx, |code|);
      ArmPatched(code0, test, body);
    }

    /** The exit jump, noted to be patched, unless the last instruction returns. */
    method EmitExit(after: seq<nat>, ghost body: seq<Instr>) returns (after1: seq<nat>)
      requires EndsRet(code) <==> EndsRet(body)
      modifies `code
      ensures code == old(code) + OpenExit(body)
      ensures after1 == if EndsRet(body) then after else after + [|code| - 1]
    {
      after1 := after;
      var branchTerminates := EndsRet(code);
      if !branchTerminates {
        after1 := after + [|code|];
        EmitOp(JMP);
      }
    }

    // ----- loops -----

    /** The loop whose code up to its step is l's lies behind base, and its context holds its body's notes. */
    method CloseLoop(loopStart: nat, exitJumpIdx: int, continueTarget: nat, ghost base: seq<Instr>, ghost l: LoopParts)
      requires code == base + Opened(l) && loopStart == |base| + |l.init|
      requires exitJumpIdx == Shift(|base|, ExitAt(l)) && continueTarget == |base| + ContinueAt(l)
      requires loopStack != [] && loopStack[|loopStack| - 1] == LoopNotes(base, l)
      modifies `code, `loopStack
      ensures code == base + LoopCode(l) && loopStack == old(loopStack)[..|old(loopStack)| - 1]
    {
      LoopClosed(base, l, LoopNotes(base, l), exitJumpIdx);
      EmitLoopEnd(loopStart, exitJumpIdx, continueTarget);
    }

    /** The back jump, then every jump out of the loop or to its next iteration is patched. */
    method EmitLoopEnd(loopStart: nat, exitJumpIdx: int, continueTarget: nat)
      requires loopStack != []
      modifies `code, `loopStack
      ensures code == Close(old(code), loopStart, exitJumpIdx, old(loopStack)[|old(loopStack)| - 1], continueTarget)
      ensures loopStack == old(loopStack)[..|old(loopStack)| - 1]
    {
      var backOffset := loopStart - (|code| + 1);
      EmitOp1(JMP, backOffset);
      if exitJumpIdx >= 0 {
        PatchJump(exitJumpIdx, |code|);
      }
      var loop := loopStack[|loopStack| - 1];
      if loop.breakJumpIdx >= 0 {
        PatchJump(loop.breakJumpIdx, |code|);
      }
      if loop.continueJumpIdx >= 0 {
        PatchJump(loop.continueJumpIdx, continueTarget);
      }
      loopStack := loopStack[..|loopStack| - 1];
    }

    /** The body of a loop, never in tail position; nothing in it is refused. */
    method CompileLoopBody(b: Stmts)
      requires loopStack != []
      modifies this
      ensures Emitted(old(code), old(loopStack), ScopedCode(b, old(Cx()), false, false))
      ensures isTailContext == old(isTailContext)
      decreases b, 4
    {
      var savedTail := isTailContext;
      isTailContext := false;
      var ok := CompileBody(b);
      isTailContext := savedTail;
    }

    method CompileWhile(cond: Expr, b: Stmts)
      modifies this
      ensures var a := CodeOf(cond, old(scopeStack), old(values));
                     Emitted(old(code), old(loopStack),
                             WhileLowered(a, ScopedCode(b, old(Cx()).(pool := a.pool), false, false)))
      ensures isTailContext == old(isTailContext)
      decreases b, 5
    {
      ghost var base, loops, cx := code, loopStack, Cx();
      var loopStart := |code|;
      loopStack := loopStack + [LoopContext(-1, -1)];
      CodeOfIs(cond, scopeStack, values);
      ghost var a := CodeOf(cond, scopeStack, values);
      CompileExpression(cond);
      var condJumpIdx := |code|;
      EmitOp(JMP_IF_NOT);
      ghost var body := ScopedCode(b, Cx(), false, false);
      CompileLoopBody(b);
      ghost var l := WhileParts(a.code, body.frag);
      WhileOpened(base, a.code, body.frag);
      LoopNoted(loops, base, l);
      CloseLoop(loopStart, condJumpIdx, loopStart, base, l);
      assert loopStack == loops;
      NotedPlain(loops, |base|, LoopCode(l));
    }

    method CompileLoop(b: Stmts)
      modifies this
      ensures Emitted(old(code), old(loopStack), LoopLowered(ScopedCode(b, old(Cx()), false, false)))
      ensures isTailContext == old(isTailContext)
      decreases b, 5
    {
      ghost var base, loops := code, loopStack;
      var loopStart := |code|;
      loopStack := loopStack + [LoopContext(-1, -1)];
      ghost var body := ScopedCode(b, Cx(), false, false);
      CompileLoopBody(b);
      ghost var l := EndlessParts(body.frag);
      assert code == base + Opened(l);
      CloseLoop(loopStart, -1, loopStart, base, l);
      assert loopStack == loops;
      NotedPlain(loops, |base|, LoopCode(l));
    }

    method CompileForRange(x: string, lo: Expr, hi: Expr, b: Stmts)
      modifies this
      ensures Emitted(old(code), old(loopStack), RangeLayer(old(nextSlot), RangeBounds(x, lo, hi, old(Cx())), b))
      ensures isTailContext == old(isTailContext)
      decreases b, 6
    {
      ghost var base, loops := code, loopStack;
      ghost var bounds := RangeBounds(x, lo, hi, Cx());
      loopStack := loopStack + [LoopContext(-1, -1)];
      var varSlot := EmitRangeBounds(x, lo, hi);
      CompileRangeLoop(varSlot, b, base, bounds);
      assert loopStack == loops;
      NotedPlain(loops, |base|, RangeLayer(varSlot, bounds, b).frag.code);
    }

    /** The loop variable is in scope before its bounds are compiled. */
    method EmitRangeBounds(x: string, lo: Expr, hi: Expr) returns (varSlot: nat)
      modifies `code, `values, `scopeStack, `nextSlot
      ensures var bounds := RangeBounds(x, lo, hi, old(Cx()));
              && varSlot == old(nextSlot) && Cx() == bounds.cx
              && code == old(code) + (bounds.lo + [Op1(STORE_LOCAL, varSlot)] + bounds.hi)
    {
      ghost var base, bounds := code, RangeBounds(x, lo, hi, Cx());
      varSlot := AllocateLocal(x);
      CodeOfIs(lo, scopeStack, values);
      CompileExpression(lo);
      EmitOp1(STORE_LOCAL, varSlot);
      CodeOfIs(hi, scopeStack, values);
      CompileExpression(hi);
      BoundsEmitted(base, bounds.lo, Op1(STORE_LOCAL, varSlot), bounds.hi);
    }

    method CompileForCount(x: string, n: int, b: Stmts)
      modifies this
      ensures Emitted(old(code), old(loopStack), RangeLayer(old(nextSlot), CountBounds(x, n, old(Cx())), b))
      ensures isTailContext == old(isTailContext)
      decreases b, 6
    {
      ghost var base, loops := code, loopStack;
      ghost var bounds := CountBounds(x, n, Cx());
      loopStack := loopStack + [LoopContext(-1, -1)];
      var varSlot := AllocateLocal(x);
      EmitConst(Int(1));
      EmitOp1(STORE_LOCAL, varSlot);
      EmitConst(Int(Cut32(n)));
      BoundsEmitted(base, bounds.lo, Op1(STORE_LOCAL, varSlot), bounds.hi);
      CompileRangeLoop(varSlot, b, base, bounds);
      assert loopStack == loops;
      NotedPlain(loops, |base|, RangeLayer(varSlot, bounds, b).frag.code);
    }

    /** The part both range forms share, from the store of the bound on; the loop has been pushed. */
    method CompileRangeLoop(varSlot: nat, b: Stmts, ghost base: seq<Instr>, ghost bounds: Bounds)
      requires code == base + (bounds.lo + [Op1(STORE_LOCAL, varSlot)] + bounds.hi) && Cx() == bounds.cx
      requires loopStack != [] && loopStack[|loopStack| - 1] == LoopContext(-1, -1)
      modifies this
      ensures var r := RangeLayer(varSlot, bounds, b);
                     code == base + r.frag.code && Cx() == r.cx && loopStack == old(loopStack)[..|old(loopStack)| - 1]
      ensures isTailContext == old(isTailContext)
      decreases b, 5
    {
      var endSlot := AllocateLocal("__end");
      EmitOp1(STORE_LOCAL, endSlot);
      var loopStart := |code|;
      var exitJumpIdx := EmitRangeTest(varSlot, endSlot);
      ghost var body := ScopedCode(b, Cx(), false, false);
      ghost var loops := loopStack[..|loopStack| - 1];
      assert loopStack == loops + [LoopContext(-1, -1)];
      RangeFrontCode(base, bounds, varSlot);
      CompileLoopBody(b);
      CloseRange(varSlot, loopStart, exitJumpIdx, base, loops, bounds, body);
    }

    /** Whether the loop variable is past the bound. */
    method EmitRangeTest(varSlot: nat, endSlot: nat) returns (exitJumpIdx: nat)
      modifies `code
      ensures code == old(code) + RangeTest(varSlot, endSlot) && exitJumpIdx == |old(code)| + 3
    {
      EmitOp1(LOAD_LOCAL, varSlot);
      EmitOp1(LOAD_LOCAL, endSlot);
      EmitOp(IGT);
      exitJumpIdx := |code|;
      EmitOp(JMP_IF);
    }

    /** The loop variable goes up by one, and the loop is closed. */
    method CloseRange(varSlot: nat, loopStart: nat, exitJumpIdx: int, ghost base: seq<Instr>,
                      ghost loops: seq<LoopContext>, ghost bounds: Bounds, ghost body: Lowered)
      requires loopStart == |base| + |bounds.lo| + |bounds.hi| + 2 && exitJumpIdx == loopStart + 3
      requires code == base + RangeFront(bounds, varSlot) + body.frag.code && values == body.cx.pool
      requires loopStack == Noted(loops + [LoopContext(-1, -1)], |base + RangeFront(bounds, varSlot)|, body.frag)
      modifies `code, `values, `loopStack
      ensures code == base + LoopCode(RangeParts(varSlot, bounds, body)) && loopStack == loops
      ensures values == body.cx.pool + [Int(1)]
    {
      ghost var l := RangeParts(varSlot, bounds, body);
      var continueTarget := |code|;
      EmitIncrement(varSlot);
      RangeOpened(base, bounds, varSlot, body);
      LoopNoted(loops, base, l);
      CloseLoop(loopStart, exitJumpIdx, continueTarget, base, l);
    }

    method EmitIncrement(slot: nat)
      modifies `code, `values
      ensures code == old(code) + Increment(slot, ConstCode(old(values), Int(1)).code) && values == old(values) + [Int(1)]
    {
      EmitOp1(LOAD_LOCAL, slot);
      EmitConst(Int(1));
      EmitOp(IADD);
      EmitOp1(STORE_LOCAL, slot);
    }

    method CompileForEach(x: string, e: Iterable, b: Stmts)
      modifies this
      ensures var a := CodeOf(e, old(scopeStack), old(values));
                     Emitted(old(code), old(loopStack),
                             EachLowered(a, old(nextSlot), ScopedCode(b, EachCtx(x, old(Cx()).(pool := a.pool)), false, false)))
      ensures isTailContext == old(isTailContext)
      decreases b, 5
    {
      ghost var base, loops, cx := code, loopStack, Cx();
      loopStack := loopStack + [LoopContext(-1, -1)];
      ghost var a := CodeOf(e, scopeStack, values);
      var arrSlot, loopStart, exitJumpIdx := CompileEachHead(x, e);
      EachFrontCode(base, a, arrSlot);
      ghost var body := ScopedCode(b, Cx(), false, false);
      ghost var l := EachParts(a, arrSlot, body);
      CompileLoopBody(b);
      CloseEach(arrSlot, loopStart, exitJumpIdx, base, loops, a, body);
      NotedPlain(loops, |base|, LoopCode(l));
    }

    /** The index goes up by one, and the loop is closed. */
    method CloseEach(arrSlot: nat, loopStart: nat, exitJumpIdx: int, ghost base: seq<Instr>, ghost loops: seq<LoopContext>,
                     ghost a: ExprCode, ghost body: Lowered)
      requires loopStart == |base| + |a.code| + 6 && exitJumpIdx == loopStart + 3
      requires code == base + EachFront(a, arrSlot) + body.frag.code && values == body.cx.pool
      requires loopStack == Noted(loops + [LoopContext(-1, -1)], |base + EachFront(a, arrSlot)|, body.frag)
      modifies `code, `values, `loopStack
      ensures code == base + LoopCode(EachParts(a, arrSlot, body)) && loopStack == loops && values == body.cx.pool + [Int(1)]
    {
      ghost var l := EachParts(a, arrSlot, body);
      var continueTarget := |code|;
      EmitIncrement(arrSlot + 2);
      EachOpened(base, a, arrSlot, body);
      LoopNoted(loops, base, l);
      CloseLoop(loopStart, exitJumpIdx, continueTarget, base, l);
    }

    /** Everything before the body: the hidden variables, the test, and the load of the element. */
    method CompileEachHead(x: string, e: Expr) returns (arrSlot: nat, loopStart: nat, exitJumpIdx: nat)
      modifies `code, `values, `scopeStack, `nextSlot
      ensures var a := CodeOf(e, old(scopeStack), old(values));
              && Cx() == EachCtx(x, old(Cx()).(pool := a.pool)) && arrSlot == old(nextSlot)
              && code == old(code) + a.code + LengthInit(arrSlot) + [Op1(STORE_LOCAL, arrSlot + 1)] + [Op1(PUSH, |a.pool|)]
                         + [Op1(STORE_LOCAL, arrSlot + 2)] + EachTest(arrSlot) + [Op1(STORE_LOCAL, arrSlot + 3)]
              && loopStart == |old(code)| + |a.code| + 6 && exitJumpIdx == loopStart + 3
    {
      CodeOfIs(e, scopeStack, values);
      CompileExpression(e);
      arrSlot := EmitEachSetUp();
      loopStart := |code|;
      exitJumpIdx := EmitEachTest(arrSlot);
      var varSlot := AllocateLocal(x);
      assert varSlot == arrSlot + 3;
      EmitOp1(STORE_LOCAL, arrSlot + 3);
    }

    /** The array on the stack, its length and the index 0 go to hidden variables. */
    method EmitEachSetUp() returns (arrSlot: nat)
      modifies `code, `values, `scopeStack, `nextSlot
      ensures arrSlot == old(nextSlot) && nextSlot == arrSlot + 3
      ensures code == old(code) + LengthInit(arrSlot) + [Op1(STORE_LOCAL, arrSlot + 1)] + [Op1(PUSH, |old(values)|)]
                      + [Op1(STORE_LOCAL, arrSlot + 2)]
      ensures Cx() == Allocate(Allocate(Allocate(WithConst(old(Cx()), Int(0)), "__arr"), "__len"), "__idx")
    {
      ghost var cx := Cx();
      arrSlot := StoreArray();
      var lenSlot := StoreHidden("__len");
      EmitConst(Int(0));
      ConstFirst(cx, "__arr", "__len", Int(0));
      var idxSlot := StoreHidden("__idx");
    }

    /** The value on the stack goes to a new variable. */
    method StoreHidden(name: string) returns (slot: nat)
      modifies `code, `scopeStack, `nextSlot
      ensures slot == old(nextSlot) && Cx() == Allocate(old(Cx()), name)
      ensures code == old(code) + [Op1(STORE_LOCAL, slot)]
    {
      slot := AllocateLocal(name);
      EmitOp1(STORE_LOCAL, slot);
    }

    method StoreArray() returns (arrSlot: nat)
      modifies `code, `scopeStack, `nextSlot
      ensures arrSlot == old(nextSlot) && Cx() == Allocate(old(Cx()), "__arr")
      ensures code == old(code) + LengthInit(arrSlot)
    {
      arrSlot := AllocateLocal("__arr");
      EmitOp1(STORE_LOCAL, arrSlot);
      EmitOp1(LOAD_LOCAL, arrSlot);
      EmitOp(ARRAY_LEN);
    }

    method EmitEachTest(arrSlot: nat) returns (exitJumpIdx: nat)
      modifies `code
      ensures code == old(code) + EachTest(arrSlot) && exitJumpIdx == |old(code)| + 3
    {
      EmitOp1(LOAD_LOCAL, arrSlot + 2);
      EmitOp1(LOAD_LOCAL, arrSlot + 1);
      EmitOp(IGE);
      exitJumpIdx := |code|;
      EmitOp(JMP_IF);
      EmitOp1(LOAD_LOCAL, arrSlot);
      EmitOp1(LOAD_LOCAL, arrSlot + 2);
      EmitOp(LOAD_INDEX);
    }

    // ----- functions -----

    /** A fresh context for the function; the constant pool is shared with the functions compiled before. */
    method CompileFunction(f: FunctionDecl) returns (ok: bool, localCount: nat)
      modifies this
      ensures ok <==> !HasBreaks(f.body) && !HasContinues(f.body)
      ensures ok ==> var r := CompFunction(f, old(values));
                     code == r.frag.code && values == r.cx.pool && localCount == r.cx.next
    {
      localCount := 0;
      DeclareParameters(f);
      FunctionCompiled(f, values);
      isTailContext := true;
      ok := CompileBlock(f.body);
      if !ok {
        return;
      }
      EmitImplicitReturn();
      localCount := Max(|f.params|, nextSlot);
    }

    method DeclareParameters(f: FunctionDecl)
      modifies this
      ensures code == [] && loopStack == [] && Cx() == FunctionCtx(f, old(values))
    {
      code, scopeStack, nextSlot, loopStack := [], [map[]], 0, [];
      var i := 0;
      while i < |f.params|
        invariant 0 <= i <= |f.params| && nextSlot == i && code == [] && loopStack == [] && values == old(values)
        invariant scopeStack == [ParamSlots(f.params[..i])]
      {
        assert f.params[..i + 1][..i] == f.params[..i];
        var top: map<string, nat> := scopeStack[0];
        scopeStack := [top[f.params[i] := nextSlot]];
        nextSlot := nextSlot + 1;
        i := i + 1;
      }
      assert f.params[..i] == f.params;
    }

    /** A last POP becomes RET; code that does not end in RET gets a RET_NULL. */
    method EmitImplicitReturn()
      modifies `code
      ensures code == Finish(old(code))
    {
      if !EndsRet(code) {
        if EndsPop(code) {
          code := code[|code| - 1 := code[|code| - 1].(op := RET)];
        } else {
          EmitOp(RET_NULL);
        }
      }
    }
  }

  function Max(a: nat, b: nat): nat {
    if a > b then a else b
  }
}
