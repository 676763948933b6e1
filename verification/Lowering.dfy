/**
 * What the compiler emits, as a function of the text: code fragments with relative jumps, the constant pool
 * and the slot map after each construct. BytecodeCompiler.dfy appends and back-patches; it is proved to
 * produce exactly this.
 */
module Lowering {
  import opened Values
  import opened Ast
  import opened Machine

  type Scopes = seq<map<string, nat>>
  type Pool = seq<Value>

  /** Compilation state a construct sees: pool, scope stack (innermost last), next free slot. */
  datatype Ctx = Ctx(pool: Pool, scopes: Scopes, next: nat)

  /** Code, with the index of the last unpatched `break` and `continue` jump of the enclosing loop, or -1. */
  datatype Frag = Frag(code: seq<Instr>, brk: int, cont: int)

  datatype Lowered = Lowered(frag: Frag, cx: Ctx)

  function Plain(code: seq<Instr>): Frag {
    Frag(code, -1, -1)
  }

  function Append(a: Frag, b: Frag): Frag {
    Frag(a.code + b.code,
         if b.brk >= 0 then |a.code| + b.brk else a.brk,
         if b.cont >= 0 then |a.code| + b.cont else a.cont)
  }

  // ----- scopes -----

  function Resolve(scopes: Scopes, x: string): Option<nat> {
    if scopes == [] then None
    else if x in scopes[|scopes| - 1] then Some(scopes[|scopes| - 1][x])
    else Resolve(scopes[..|scopes| - 1], x)
  }

  function Bind(scopes: Scopes, x: string, slot: nat): Scopes {
    if scopes == [] then [map[x := slot]]
    else
      var top: map<string, nat> := scopes[|scopes| - 1];
      scopes[..|scopes| - 1] + [top[x := slot]]
  }

  function Allocate(cx: Ctx, x: string): Ctx {
    cx.(scopes := Bind(cx.scopes, x, cx.next), next := cx.next + 1)
  }

  function EnterScope(cx: Ctx): Ctx {
    cx.(scopes := cx.scopes + [map[]])
  }

  function ExitScope(cx: Ctx): Ctx {
    if cx.scopes == [] then cx else cx.(scopes := cx.scopes[..|cx.scopes| - 1])
  }

  // ----- constant pool -----

  function FindString(pool: Pool, s: string, from: nat): nat
    decreases |pool| - from
  {
    if from < |pool| && pool[from] != Str(s) then FindString(pool, s, from + 1) else from
  }

  function StringIndex(pool: Pool, s: string): nat {
    FindString(pool, s, 0)
  }

  function WithString(pool: Pool, s: string): Pool {
    if StringIndex(pool, s) < |pool| then pool else pool + [Str(s)]
  }

  // ----- instructions -----

  function Op(op: OpCode): Instr {
    Instr(op, 0)
  }

  function Op1(op: OpCode, operand: int): Instr {
    Instr(op, U32(operand))
  }

  function LoadLocal(slot: nat): Instr {
    if slot == 0 then Op(LOAD_LOCAL_0) else if slot == 1 then Op(LOAD_LOCAL_1) else Op1(LOAD_LOCAL, slot)
  }

  /** Point the jump at index `at` to index `target`. */
  function Patch(code: seq<Instr>, at: int, target: int): (r: seq<Instr>)
    ensures |r| == |code|
  {
    if 0 <= at < |code| then code[at := Op1(code[at].op, target - (at + 1))] else code
  }

  function BinaryCode(op: BinOp): OpCode {
    match op
    case Add => IADD
    case Sub => ISUB
    case Mul => IMUL
    case Div => IDIV
    case Mod => IMOD
    case Eq => IEQ
    case Ne => INE
    case Lt => ILT
    case Le => ILE
    case Gt => IGT
    case Ge => IGE
    case And => AND
    case Or => OR
  }

  function UnaryCode(op: UnOp): OpCode {
    match op
    case Neg => INEG
    case Not => NOT
  }

  // ----- expressions -----

  datatype ExprCode = ExprCode(code: seq<Instr>, pool: Pool)

  function ConstCode(pool: Pool, v: Value): ExprCode {
    ExprCode([Op1(PUSH, |pool|)], pool + [v])
  }

  function CompExpr(e: Expr, scopes: Scopes, pool: Pool): (r: ExprCode)
    ensures pool <= r.pool
    decreases e, 0
  {
    match e
    case IntLit(n) => ConstCode(pool, Int(Cut32(n)))
    case BoolLit(b) => ConstCode(pool, Int(if b then 1 else 0))
    case StrLit(s) => ExprCode([Op1(PUSH, StringIndex(pool, s))], WithString(pool, s))
    case Var(x) =>
      (match Resolve(scopes, x)
       case Some(slot) => ExprCode([LoadLocal(slot)], pool)
       case None => ExprCode([Op1(LOAD_GLOBAL, StringIndex(pool, x))], WithString(pool, x)))
    case Binary(op, l, r) =>
      var a := CompExpr(l, scopes, pool);
      var b := CompExpr(r, scopes, a.pool);
      ExprCode(a.code + b.code + [Op(BinaryCode(op))], b.pool)
    case Unary(op, x) =>
      var a := CompExpr(x, scopes, pool);
      ExprCode(a.code + [Op(UnaryCode(op))], a.pool)
    case Index(x, i) =>
      var a := CompExpr(x, scopes, pool);
      var b := CompExpr(i, scopes, a.pool);
      ExprCode(a.code + b.code + [Op(LOAD_INDEX)], b.pool)
    case ArrayLit(es) =>
      var a := CompElems(es, scopes, pool);
      ExprCode([Op1(ALLOC_ARRAY, Count(es))] + a.code, a.pool)
  }

  function CompElems(es: Exprs, scopes: Scopes, pool: Pool): (r: ExprCode)
    ensures pool <= r.pool
    decreases es, 0
  {
    match es
    case NoExprs => ExprCode([], pool)
    case MoreExprs(e, rest) =>
      var a := CompExpr(e, scopes, pool);
      var b := CompElems(rest, scopes, a.pool);
      ExprCode(a.code + [Op(ARRAY_PUSH)] + b.code, b.pool)
  }

  function Count(es: Exprs): nat {
    match es
    case NoExprs => 0
    case MoreExprs(_, rest) => 1 + Count(rest)
  }

  ghost predicate IsExprCompiler(f: (Expr, Scopes, Pool) -> ExprCode) {
    && (forall e, scopes, pool {:trigger CompExpr(e, scopes, pool)} :: f(e, scopes, pool) == CompExpr(e, scopes, pool))
    && (forall e, scopes, pool {:trigger f(e, scopes, pool)} :: pool <= f(e, scopes, pool).pool)
  }

  /** CompExpr as a value: proofs about statements use it without looking inside expressions. */
  ghost function ExprCompiler(): (f: (Expr, Scopes, Pool) -> ExprCode)
    ensures IsExprCompiler(f)
  {
    var g := (e: Expr, scopes: Scopes, pool: Pool) => CompExpr(e, scopes, pool);
    assert IsExprCompiler(g);
    var f: (Expr, Scopes, Pool) -> ExprCode :| IsExprCompiler(f);
    f
  }

  ghost function CodeOf(e: Expr, scopes: Scopes, pool: Pool): ExprCode {
    ExprCompiler()(e, scopes, pool)
  }

  lemma CodeOfIs(e: Expr, scopes: Scopes, pool: Pool)
    ensures CodeOf(e, scopes, pool) == CompExpr(e, scopes, pool)
  {
  }

  // ----- loops: one layout for all of them -----

  /** The straight-line parts of a loop around its body; `exit` is the jump taken when the test says stop. */
  datatype LoopParts = LoopParts(init: seq<Instr>, test: seq<Instr>, exit: Option<OpCode>, pre: seq<Instr>,
                                 body: Frag, step: seq<Instr>)

  function ExitLen(l: LoopParts): nat {
    if l.exit.Some? then 1 else 0
  }

  function BodyAt(l: LoopParts): nat {
    |l.init| + |l.test| + ExitLen(l) + |l.pre|
  }

  function StepAt(l: LoopParts): nat {
    BodyAt(l) + |l.body.code|
  }

  function LoopEnd(l: LoopParts): nat {
    StepAt(l) + |l.step| + 1
  }

  /** `continue` goes to the step of a for loop, and to the head of a loop that has none. */
  function ContinueAt(l: LoopParts): nat {
    if l.step == [] then |l.init| else StepAt(l)
  }

  function ExitJump(l: LoopParts): seq<Instr> {
    if l.exit.Some? then [Op1(l.exit.value, LoopEnd(l) - (|l.init| + |l.test| + 1))] else []
  }

  function BackJump(l: LoopParts): seq<Instr> {
    [Op1(JMP, |l.init| - LoopEnd(l))]
  }

  /** Patch the recorded jumps of a body that starts at `at`. */
  function PatchBody(code: seq<Instr>, at: nat, body: Frag, brk: int, cont: int): seq<Instr> {
    var broken := if body.brk >= 0 then Patch(code, at + body.brk, brk) else code;
    if body.cont >= 0 then Patch(broken, at + body.cont, cont) else broken
  }

  function LoopCode(l: LoopParts): seq<Instr> {
    PatchBody(l.init + l.test + ExitJump(l) + l.pre + l.body.code + l.step + BackJump(l),
              BodyAt(l), l.body, LoopEnd(l), ContinueAt(l))
  }

  // ----- statements -----

  ghost function CompStmt(s: Stmt, cx: Ctx, tail: bool, last: bool): Lowered
    decreases s, 0
  {
    match s
    case Let(x, e) => CompLet(x, e, cx)
    case Assign(x, e) => CompAssign(x, e, cx)
    case ExprStmt(e) => CompExprStmt(e, cx, tail || last)
    case Return(None) => Lowered(Plain([Op(RET_NULL)]), cx)
    case Return(Some(e)) => CompExprStmt(e, cx, true)
    case Break => Lowered(Frag([Op(JMP)], 0, -1), cx)
    case Continue => Lowered(Frag([Op(JMP)], -1, 0), cx)
    case Block(b) => CompAll(b, cx, tail, last)
    case If(arms) => CompArms(arms, cx, tail, last)
    case While(c, b) => CompWhile(c, b, cx)
    case Loop(b) => CompLoop(b, cx)
    case ForRange(x, lo, hi, b) => CompRange(cx.next, RangeBounds(x, lo, hi, cx), b)
    case ForCount(x, n, b) => CompRange(cx.next, CountBounds(x, n, cx), b)
    case ForEach(x, e, b) => CompEach(x, e, b, cx)
  }

  ghost function CompLet(x: string, e: Expr, cx: Ctx): Lowered {
    var a := CodeOf(e, cx.scopes, cx.pool);
    Lowered(Plain(a.code + [Op1(STORE_LOCAL, cx.next)]), Allocate(cx.(pool := a.pool), x))
  }

  ghost function CompAssign(x: string, e: Expr, cx: Ctx): Lowered {
    var a := CodeOf(e, cx.scopes, cx.pool);
    match Resolve(cx.scopes, x)
    case Some(slot) => Lowered(Plain(a.code + [Op1(STORE_LOCAL, slot)]), cx.(pool := a.pool))
    case None => Lowered(Plain(a.code + [Op1(STORE_GLOBAL, StringIndex(a.pool, x))]),
                         cx.(pool := WithString(a.pool, x)))
  }

  /** A value that is the function's result is returned, any other is dropped. */
  ghost function CompExprStmt(e: Expr, cx: Ctx, result: bool): Lowered {
    var a := CodeOf(e, cx.scopes, cx.pool);
    Lowered(Plain(a.code + [Op(if result then RET else POP)]), cx.(pool := a.pool))
  }

  ghost function CompWhile(c: Expr, b: Stmts, cx: Ctx): Lowered
    decreases b, 4
  {
    var a := CodeOf(c, cx.scopes, cx.pool);
    WhileLowered(a, CompScoped(b, cx.(pool := a.pool), false, false))
  }

  function WhileLowered(a: ExprCode, body: Lowered): Lowered {
    Lowered(Plain(LoopCode(WhileParts(a.code, body.frag))), body.cx)
  }

  function WhileParts(test: seq<Instr>, body: Frag): LoopParts {
    LoopParts([], test, Some(JMP_IF_NOT), [], body, [])
  }

  ghost function CompLoop(b: Stmts, cx: Ctx): Lowered
    decreases b, 4
  {
    LoopLowered(CompScoped(b, cx, false, false))
  }

  function LoopLowered(body: Lowered): Lowered {
    Lowered(Plain(LoopCode(EndlessParts(body.frag))), body.cx)
  }

  function EndlessParts(body: Frag): LoopParts {
    LoopParts([], [], None, [], body, [])
  }

  function Increment(slot: nat, one: seq<Instr>): seq<Instr> {
    [Op1(LOAD_LOCAL, slot)] + one + [Op(IADD), Op1(STORE_LOCAL, slot)]
  }

  /** The code of the two bounds, and the state after them (the loop variable is already allocated). */
  datatype Bounds = Bounds(lo: seq<Instr>, hi: seq<Instr>, cx: Ctx)

  ghost function RangeBounds(x: string, lo: Expr, hi: Expr, cx: Ctx): Bounds {
    var cx0 := Allocate(cx, x);
    var a := CodeOf(lo, cx0.scopes, cx0.pool);
    var z := CodeOf(hi, cx0.scopes, a.pool);
    Bounds(a.code, z.code, cx0.(pool := z.pool))
  }

  function CountBounds(x: string, n: int, cx: Ctx): Bounds {
    var cx0 := Allocate(cx, x);
    var a := ConstCode(cx0.pool, Int(1));
    var z := ConstCode(a.pool, Int(Cut32(n)));
    Bounds(a.code, z.code, cx0.(pool := z.pool))
  }

  /** The loop variable is in `slot`; the bound goes to the hidden variable allocated next. */
  ghost function CompRange(slot: nat, bounds: Bounds, b: Stmts): Lowered
    decreases b, 4
  {
    RangeLowered(slot, bounds, CompScoped(b, Allocate(bounds.cx, "__end"), false, false))
  }

  function RangeLowered(slot: nat, bounds: Bounds, body: Lowered): Lowered {
    Lowered(Plain(LoopCode(RangeParts(slot, bounds, body))), WithConst(body.cx, Int(1)))
  }

  function WithConst(cx: Ctx, v: Value): Ctx {
    cx.(pool := cx.pool + [v])
  }

  function RangeParts(slot: nat, bounds: Bounds, body: Lowered): LoopParts {
    var end := bounds.cx.next;
    LoopParts(
      bounds.lo + [Op1(STORE_LOCAL, slot)] + bounds.hi + [Op1(STORE_LOCAL, end)],
      [Op1(LOAD_LOCAL, slot), Op1(LOAD_LOCAL, end), Op(IGT)],
      Some(JMP_IF), [], body.frag,
      Increment(slot, ConstCode(body.cx.pool, Int(1)).code))
  }

  /** Hidden slots arr, arr + 1 (length) and arr + 2 (index); the loop variable is arr + 3. */
  ghost function CompEach(x: string, e: Expr, b: Stmts, cx: Ctx): Lowered
    decreases b, 4
  {
    var a := CodeOf(e, cx.scopes, cx.pool);
    EachLowered(a, cx.next, CompScoped(b, EachCtx(x, cx.(pool := a.pool)), false, false))
  }

  function EachLowered(a: ExprCode, arr: nat, body: Lowered): Lowered {
    Lowered(Plain(LoopCode(EachParts(a, arr, body))), WithConst(body.cx, Int(1)))
  }

  function EachCtx(x: string, cx: Ctx): Ctx {
    Allocate(Allocate(Allocate(Allocate(WithConst(cx, Int(0)), "__arr"), "__len"), "__idx"), x)
  }

  function EachParts(a: ExprCode, arr: nat, body: Lowered): LoopParts {
    LoopParts(
      a.code + EachInit(arr, a.pool),
      [Op1(LOAD_LOCAL, arr + 2), Op1(LOAD_LOCAL, arr + 1), Op(IGE)],
      Some(JMP_IF),
      [Op1(LOAD_LOCAL, arr), Op1(LOAD_LOCAL, arr + 2), Op(LOAD_INDEX), Op1(STORE_LOCAL, arr + 3)],
      body.frag,
      Increment(arr + 2, ConstCode(body.cx.pool, Int(1)).code))
  }

  function EachInit(arr: nat, pool: Pool): seq<Instr> {
    [Op1(STORE_LOCAL, arr), Op1(LOAD_LOCAL, arr), Op(ARRAY_LEN), Op1(STORE_LOCAL, arr + 1),
     Op1(PUSH, |pool|), Op1(STORE_LOCAL, arr + 2)]
  }

  ghost function CompScoped(b: Stmts, cx: Ctx, tail: bool, last: bool): Lowered
    decreases b, 2
  {
    LeaveScope(CompAll(b, EnterScope(cx), tail, last))
  }

  function LeaveScope(r: Lowered): Lowered {
    Lowered(r.frag, ExitScope(r.cx))
  }

  ghost function CompAll(ss: Stmts, cx: Ctx, tail: bool, last: bool): Lowered
    decreases ss, 0
  {
    match ss
    case Empty => Lowered(Plain([]), cx)
    case Then(s, rest) =>
      var a := CompStmt(s, cx, tail && rest.Empty?, last && !EmitsAhead(rest));
      var b := CompAll(rest, a.cx, tail, last);
      Lowered(Append(a.frag, b.frag), b.cx)
  }

  predicate EndsRet(code: seq<Instr>) {
    code != [] && (code[|code| - 1].op == RET || code[|code| - 1].op == RET_NULL)
  }

  ghost function CompArms(arms: Arms, cx: Ctx, tail: bool, last: bool): Lowered
    decreases arms, 0
  {
    match arms
    case NoElse => Lowered(Plain([]), cx)
    case Else(b) => CompScoped(b, cx, tail, last)
    case Arm(c, b, rest) =>
      var a := CodeOf(c, cx.scopes, cx.pool);
      var body := CompScoped(b, cx.(pool := a.pool), tail, false);
      var more := CompArms(rest, body.cx, tail, last);
      Lowered(JoinArm(a.code, body.frag, more.frag), more.cx)
  }

  /** test, jump over the body, body, jump over the remaining arms (left out when the body ends in RET). */
  function JoinArm(test: seq<Instr>, body: Frag, more: Frag): Frag {
    var exit := ArmExit(body.code, |more.code|);
    Append(Append(Plain(test + [Op1(JMP_IF_NOT, |body.code| + |exit|)]), body), Append(Plain(exit), more))
  }

  function ArmExit(body: seq<Instr>, more: nat): seq<Instr> {
    if EndsRet(body) then [] else [Op1(JMP, more)]
  }

  // ----- functions -----

  function ParamSlots(params: seq<string>): map<string, nat> {
    if params == [] then map[]
    else
      var k := |params| - 1;
      ParamSlots(params[..k])[params[k] := k]
  }

  function FunctionCtx(f: FunctionDecl, pool: Pool): Ctx {
    Ctx(pool, [ParamSlots(f.params)], |f.params|)
  }

  /** What is done to a body whose code does not end in a return: a final POP becomes RET, or RET_NULL is added. */
  function Finish(code: seq<Instr>): seq<Instr> {
    if EndsRet(code) then code
    else if EndsPop(code) then PopToRet(code)
    else code + [Op(RET_NULL)]
  }

  predicate EndsPop(code: seq<Instr>) {
    code != [] && code[|code| - 1].op == POP
  }

  function PopToRet(code: seq<Instr>): seq<Instr> {
    if EndsPop(code) then code[|code| - 1 := code[|code| - 1].(op := RET)] else code
  }

  ghost function CompFunction(f: FunctionDecl, pool: Pool): Lowered {
    var r := CompAll(f.body, FunctionCtx(f, pool), true, false);
    Lowered(Plain(Finish(r.frag.code)), r.cx)
  }
}
