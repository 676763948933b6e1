/** The fragment of the Claw syntax tree that the bytecode compiler's core lowers. */
module Ast {
  import opened Values

  datatype BinOp = Add | Sub | Mul | Div | Mod | Eq | Ne | Lt | Le | Gt | Ge | And | Or
  datatype UnOp = Neg | Not

  datatype Expr =
    | IntLit(n: int)
    | BoolLit(b: bool)
    | StrLit(s: string)
    | Var(x: string)
    | Binary(op: BinOp, left: Expr, right: Expr)
    | Unary(uop: UnOp, operand: Expr)
    | Index(base: Expr, index: Expr)
    | ArrayLit(elems: Exprs)

  datatype Exprs = NoExprs | MoreExprs(head: Expr, tail: Exprs)

  /** What `for x in e` visits the elements of; over an integer literal it counts instead (ForCount). */
  type Iterable = e: Expr | !e.IntLit? witness BoolLit(true)

  datatype Stmt =
    | Let(x: string, init: Expr)
    | Assign(y: string, value: Expr)
    | ExprStmt(e: Expr)
    | Return(ret: Option<Expr>)
    | Break
    | Continue
    | Block(body: Stmts)
    | If(arms: Arms)
    | While(cond: Expr, wbody: Stmts)
    | Loop(lbody: Stmts)
    | ForRange(v: string, lo: Expr, hi: Expr, rbody: Stmts)
    | ForCount(c: string, count: int, cbody: Stmts)
    | ForEach(w: string, iterable: Iterable, ebody: Stmts)

  datatype Stmts = Empty | Then(first: Stmt, rest: Stmts)

  /** `if c {b} else if ... else {b}`: the condition and body vectors, zipped, then the else body. */
  datatype Arms = NoElse | Else(orelse: Stmts) | Arm(guard: Expr, abody: Stmts, more: Arms)

  datatype FunctionDecl = FunctionDecl(params: seq<string>, body: Stmts)

  /** Names the compiler gives to the hidden slots of for loops. */
  predicate Reserved(x: string) {
    x == "__end" || x == "__arr" || x == "__len" || x == "__idx"
  }

  // ----- the program text mentions no reserved name -----

  predicate UserExpr(e: Expr) {
    match e
    case IntLit(_) => true
    case BoolLit(_) => true
    case StrLit(_) => true
    case Var(x) => !Reserved(x)
    case Binary(_, l, r) => UserExpr(l) && UserExpr(r)
    case Unary(_, a) => UserExpr(a)
    case Index(a, i) => UserExpr(a) && UserExpr(i)
    case ArrayLit(es) => UserExprs(es)
  }

  predicate UserExprs(es: Exprs) {
    match es
    case NoExprs => true
    case MoreExprs(e, rest) => UserExpr(e) && UserExprs(rest)
  }

  predicate UserStmt(s: Stmt) {
    match s
    case Let(x, e) => !Reserved(x) && UserExpr(e)
    case Assign(x, e) => !Reserved(x) && UserExpr(e)
    case ExprStmt(e) => UserExpr(e)
    case Return(r) => r.Some? ==> UserExpr(r.value)
    case Break => true
    case Continue => true
    case Block(b) => UserStmts(b)
    case If(arms) => UserArms(arms)
    case While(c, b) => UserExpr(c) && UserStmts(b)
    case Loop(b) => UserStmts(b)
    case ForRange(x, lo, hi, b) => !Reserved(x) && UserExpr(lo) && UserExpr(hi) && UserStmts(b)
    case ForCount(x, _, b) => !Reserved(x) && UserStmts(b)
    case ForEach(x, e, b) => !Reserved(x) && UserExpr(e) && UserStmts(b)
  }

  predicate UserStmts(ss: Stmts) {
    match ss
    case Empty => true
    case Then(s, rest) => UserStmt(s) && UserStmts(rest)
  }

  predicate UserArms(arms: Arms) {
    match arms
    case NoElse => true
    case Else(b) => UserStmts(b)
    case Arm(c, b, rest) => UserExpr(c) && UserStmts(b) && UserArms(rest)
  }

  predicate UserFunction(f: FunctionDecl) {
    (forall i :: 0 <= i < |f.params| ==> !Reserved(f.params[i])) && UserStmts(f.body)
  }

  // ----- `break` and `continue` belonging to the enclosing loop -----

  predicate HasBreak(s: Stmt) {
    match s
    case Break => true
    case Block(b) => HasBreaks(b)
    case If(arms) => ArmsBreak(arms)
    case _ => false
  }

  predicate HasBreaks(ss: Stmts) {
    match ss
    case Empty => false
    case Then(s, rest) => HasBreak(s) || HasBreaks(rest)
  }

  predicate ArmsBreak(arms: Arms) {
    match arms
    case NoElse => false
    case Else(b) => HasBreaks(b)
    case Arm(_, b, rest) => HasBreaks(b) || ArmsBreak(rest)
  }

  predicate HasContinue(s: Stmt) {
    match s
    case Continue => true
    case Block(b) => HasContinues(b)
    case If(arms) => ArmsContinue(arms)
    case _ => false
  }

  predicate HasContinues(ss: Stmts) {
    match ss
    case Empty => false
    case Then(s, rest) => HasContinue(s) || HasContinues(rest)
  }

  predicate ArmsContinue(arms: Arms) {
    match arms
    case NoElse => false
    case Else(b) => HasContinues(b)
    case Arm(_, b, rest) => HasContinues(b) || ArmsContinue(rest)
  }

  /** A `break` or `continue` that belongs to no loop of the statement: outside of a loop the compiler throws. */
  predicate Stray(s: Stmt) {
    HasBreak(s) || HasContinue(s)
  }

  predicate AnyStray(ss: Stmts) {
    HasBreaks(ss) || HasContinues(ss)
  }

  predicate ArmsStray(arms: Arms) {
    ArmsBreak(arms) || ArmsContinue(arms)
  }

  // ----- the shape of the emitted code, read off the text -----

  /** A statement emits no instruction only if it is an empty block (or one of empty blocks). */
  predicate Emits(s: Stmt) {
    match s
    case Block(b) => AnyEmits(b)
    case If(arms) => ArmsEmit(arms)
    case _ => true
  }

  predicate AnyEmits(ss: Stmts) {
    match ss
    case Empty => false
    case Then(s, rest) => Emits(s) || AnyEmits(rest)
  }

  predicate ArmsEmit(arms: Arms) {
    match arms
    case NoElse => false
    case Else(b) => AnyEmits(b)
    case Arm(_, _, _) => true
  }

  /**
   * The code ends in RET or RET_NULL. `tail`: a value here is the function's implicit result;
   * `last`: nothing is emitted after it in the whole function.
   */
  predicate EndsInRet(s: Stmt, tail: bool, last: bool) {
    match s
    case ExprStmt(_) => tail || last
    case Return(_) => true
    case Block(b) => AllEndInRet(b, tail, last)
    case If(arms) => ArmsEndInRet(arms, tail, last)
    case _ => false
  }

  predicate AllEndInRet(ss: Stmts, tail: bool, last: bool) {
    match ss
    case Empty => false
    case Then(s, rest) =>
      if AnyEmits(rest) then AllEndInRet(rest, tail, last) else EndsInRet(s, tail && rest.Empty?, last)
  }

  predicate ArmsEndInRet(arms: Arms, tail: bool, last: bool) {
    match arms
    case NoElse => false
    case Else(b) => AllEndInRet(b, tail, last)
    case Arm(_, b, rest) =>
      if ArmsEmit(rest) then ArmsEndInRet(rest, tail, last) else AllEndInRet(b, tail, false)
  }

  // ----- what the text ahead contains -----

  /** What the meaning and the lowering of a statement need to know about the text that follows it. */
  datatype Remark =
    | Emitting(ss: Stmts) | Breaking(ss: Stmts) | Continuing(ss: Stmts)
    | ArmsBreaking(arms: Arms) | ArmsContinuing(arms: Arms)
    | EndingInRet(ss: Stmts, tail: bool)

  predicate Applies(r: Remark) {
    match r
    case Emitting(ss) => AnyEmits(ss)
    case Breaking(ss) => HasBreaks(ss)
    case Continuing(ss) => HasContinues(ss)
    case ArmsBreaking(arms) => ArmsBreak(arms)
    case ArmsContinuing(arms) => ArmsContinue(arms)
    case EndingInRet(ss, tail) => AllEndInRet(ss, tail, false)
  }

  ghost predicate AreRemarks(s: iset<Remark>) {
    forall r {:trigger Applies(r)} :: r in s <==> Applies(r)
  }

  lemma RemarksExist()
    ensures exists s :: AreRemarks(s)
  {
    var s := iset r | Applies(r);
    assert AreRemarks(s);
  }

  /** The remarks that apply; proofs about statements use membership without unfolding the text. */
  ghost function Remarks(): iset<Remark> {
    RemarksExist();
    var s :| AreRemarks(s);
    s
  }

  /** Some statement ahead emits code; some `break`/`continue` of the enclosing loop is still ahead. */
  ghost predicate EmitsAhead(ss: Stmts) { Emitting(ss) in Remarks() }
  ghost predicate BreakAhead(ss: Stmts) { Breaking(ss) in Remarks() }
  ghost predicate ContinueAhead(ss: Stmts) { Continuing(ss) in Remarks() }
  ghost predicate BreakInArms(arms: Arms) { ArmsBreaking(arms) in Remarks() }
  ghost predicate ContinueInArms(arms: Arms) { ArmsContinuing(arms) in Remarks() }

  /** The code of this arm body ends in RET or RET_NULL. */
  ghost predicate ArmEndsInRet(b: Stmts, tail: bool) { EndingInRet(b, tail) in Remarks() }

  lemma StmtsText(ss: Stmts, tail: bool)
    ensures EmitsAhead(ss) <==> AnyEmits(ss)
    ensures BreakAhead(ss) <==> HasBreaks(ss)
    ensures ContinueAhead(ss) <==> HasContinues(ss)
    ensures ArmEndsInRet(ss, tail) <==> AllEndInRet(ss, tail, false)
  {
    RemarksExist();
    assert Applies(Emitting(ss)) <==> AnyEmits(ss);
    assert Applies(Breaking(ss)) <==> HasBreaks(ss);
    assert Applies(Continuing(ss)) <==> HasContinues(ss);
    assert Applies(EndingInRet(ss, tail)) <==> AllEndInRet(ss, tail, false);
  }

  lemma ArmsText(arms: Arms)
    ensures BreakInArms(arms) <==> ArmsBreak(arms)
    ensures ContinueInArms(arms) <==> ArmsContinue(arms)
  {
    RemarksExist();
    assert Applies(ArmsBreaking(arms)) <==> ArmsBreak(arms);
    assert Applies(ArmsContinuing(arms)) <==> ArmsContinue(arms);
  }
}
