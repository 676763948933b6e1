/**
 * Which programs the main theorems are about. Their conditions are checks that walk the text; here they follow from
 * what can be seen in the text without walking it: the names it mentions and the statements it contains.
 */
module Covered {
  import opened Values
  import opened Ast
  import opened Machine
  import opened Lowering
  import opened Semantics
  import opened Layers
  import opened ExprProof
  import opened Variables
  import opened Correctness
  import opened Documented
  import opened Definedness

  // ----- what a text contains -----

  /** The statement and all statements inside it, at any depth. */
  function Parts(s: Stmt): set<Stmt> {
    {s} + match s
          case Block(b) => AllParts(b)
          case If(arms) => ArmsParts(arms)
          case While(_, b) => AllParts(b)
          case Loop(b) => AllParts(b)
          case ForRange(_, _, _, b) => AllParts(b)
          case ForCount(_, _, b) => AllParts(b)
          case ForEach(_, _, b) => AllParts(b)
          case _ => {}
  }

  function AllParts(ss: Stmts): set<Stmt> {
    match ss
    case Empty => {}
    case Then(s, rest) => Parts(s) + AllParts(rest)
  }

  function ArmsParts(arms: Arms): set<Stmt> {
    match arms
    case NoElse => {}
    case Else(b) => AllParts(b)
    case Arm(_, b, rest) => AllParts(b) + ArmsParts(rest)
  }

  /** The same, but not what is inside a loop. */
  function Outer(s: Stmt): set<Stmt> {
    {s} + match s
          case Block(b) => AllOuter(b)
          case If(arms) => ArmsOuter(arms)
          case _ => {}
  }

  function AllOuter(ss: Stmts): set<Stmt> {
    match ss
    case Empty => {}
    case Then(s, rest) => Outer(s) + AllOuter(rest)
  }

  function ArmsOuter(arms: Arms): set<Stmt> {
    match arms
    case NoElse => {}
    case Else(b) => AllOuter(b)
    case Arm(_, b, rest) => AllOuter(b) + ArmsOuter(rest)
  }

  /** The names a statement mentions, inside it as well. */
  function Mentions(s: Stmt): set<string> {
    match s
    case Let(x, e) => {x} + Names(e)
    case Assign(x, e) => {x} + Names(e)
    case ExprStmt(e) => Names(e)
    case Return(r) => if r.Some? then Names(r.value) else {}
    case Break => {}
    case Continue => {}
    case Block(b) => AllMention(b)
    case If(arms) => ArmsMention(arms)
    case While(e, b) => Names(e) + AllMention(b)
    case Loop(b) => AllMention(b)
    case ForRange(x, lo, hi, b) => {x} + Names(lo) + Names(hi) + AllMention(b)
    case ForCount(x, _, b) => {x} + AllMention(b)
    case ForEach(x, e, b) => {x} + Names(e) + AllMention(b)
  }

  function AllMention(ss: Stmts): set<string> {
    match ss
    case Empty => {}
    case Then(s, rest) => Mentions(s) + AllMention(rest)
  }

  function ArmsMention(arms: Arms): set<string> {
    match arms
    case NoElse => {}
    case Else(b) => AllMention(b)
    case Arm(e, b, rest) => Names(e) + AllMention(b) + ArmsMention(rest)
  }

  const RESERVED: set<string> := {"__end", "__arr", "__len", "__idx"}

  // ----- no reserved name, no jump without a loop -----

  lemma {:induction false} ExprOwn(e: Expr)
    ensures UserExpr(e) <==> Names(e) !! RESERVED
    decreases e
  {
    match e
    case Binary(_, l, r) =>
      ExprOwn(l);
      ExprOwn(r);
    case Unary(_, a) => ExprOwn(a);
    case Index(a, i) =>
      ExprOwn(a);
      ExprOwn(i);
    case ArrayLit(es) => ExprsOwn(es);
    case _ =>
  }

  lemma {:induction false} ExprsOwn(es: Exprs)
    ensures UserExprs(es) <==> AllNames(es) !! RESERVED
    decreases es
  {
    if es.MoreExprs? {
      ExprOwn(es.head);
      ExprsOwn(es.tail);
    }
  }

  lemma {:induction false} StmtOwn(s: Stmt)
    ensures UserStmt(s) <==> Mentions(s) !! RESERVED
    decreases s
  {
    match s
    case Let(_, e) => ExprOwn(e);
    case Assign(_, e) => ExprOwn(e);
    case ExprStmt(e) => ExprOwn(e);
    case Return(r) =>
      if r.Some? {
        ExprOwn(r.value);
      }
    case Block(b) => AllOwn(b);
    case If(arms) => ArmsOwn(arms);
    case While(e, b) =>
      ExprOwn(e);
      AllOwn(b);
    case Loop(b) => AllOwn(b);
    case ForRange(_, lo, hi, b) =>
      ExprOwn(lo);
      ExprOwn(hi);
      AllOwn(b);
    case ForCount(_, _, b) => AllOwn(b);
    case ForEach(_, e, b) =>
      ExprOwn(e);
      AllOwn(b);
    case _ =>
  }

  lemma {:induction false} AllOwn(ss: Stmts)
    ensures UserStmts(ss) <==> AllMention(ss) !! RESERVED
    decreases ss
  {
    if ss.Then? {
      StmtOwn(ss.first);
      AllOwn(ss.rest);
    }
  }

  lemma {:induction false} ArmsOwn(arms: Arms)
    ensures UserArms(arms) <==> ArmsMention(arms) !! RESERVED
    decreases arms
  {
    match arms
    case NoElse =>
    case Else(b) => AllOwn(b);
    case Arm(e, b, rest) =>
      ExprOwn(e);
      AllOwn(b);
      ArmsOwn(rest);
  }

  lemma {:induction false} StmtStray(s: Stmt)
    ensures (HasBreak(s) <==> Break in Outer(s)) && (HasContinue(s) <==> Continue in Outer(s))
    decreases s
  {
    match s
    case Block(b) => AllStray(b);
    case If(arms) => ArmsAreStray(arms);
    case _ =>
  }

  lemma {:induction false} AllStray(ss: Stmts)
    ensures (HasBreaks(ss) <==> Break in AllOuter(ss)) && (HasContinues(ss) <==> Continue in AllOuter(ss))
    decreases ss
  {
    if ss.Then? {
      StmtStray(ss.first);
      AllStray(ss.rest);
    }
  }

  lemma {:induction false} ArmsAreStray(arms: Arms)
    ensures (ArmsBreak(arms) <==> Break in ArmsOuter(arms)) && (ArmsContinue(arms) <==> Continue in ArmsOuter(arms))
    decreases arms
  {
    match arms
    case NoElse =>
    case Else(b) => AllStray(b);
    case Arm(_, b, rest) =>
      AllStray(b);
      ArmsAreStray(rest);
  }

  /** Compiled functions that the correctness theorems are about: names, arguments, room and widths, nothing else. */
  lemma LoadedExactly(f: FunctionDecl, args: seq<Value>, pool: Pool, p: Program, locals: seq<Value>)
    ensures Loaded(f, args, pool, p, locals) <==>
              var r := CompFunction(f, pool);
              && (forall x :: x in f.params ==> x !in RESERVED) && AllMention(f.body) !! RESERVED
              && Break !in AllOuter(f.body) && Continue !in AllOuter(f.body)
              && |args| == |f.params| && args <= locals && r.cx.next <= |locals| < 0x8000_0000
              && p.code == r.frag.code && |p.code| < 0x8000_0000
              && r.cx.pool <= p.pool && |p.pool| < 0x8000_0000
  {
    AllOwn(f.body);
    AllStray(f.body);
  }

  // ----- no variable read unset -----

  /** There is no array loop, and no range loop starts from its own variable. */
  predicate SetsFirst(parts: set<Stmt>) {
    forall p <- parts :: !p.ForEach? && (p.ForRange? ==> p.v !in Names(p.lo))
  }

  lemma {:induction false} StmtSafe(s: Stmt, unset: set<string>)
    requires SetsFirst(Parts(s)) && Mentions(s) !! unset
    ensures Safe(s, unset) && Unsets(s, unset) == unset
    decreases s
  {
    assert s in Parts(s);
    match s
    case Block(b) => AllAreSafe(b, unset);
    case If(arms) => ArmsAreSafe(arms, unset);
    case While(_, b) => AllAreSafe(b, unset);
    case Loop(b) => AllAreSafe(b, unset);
    case ForRange(x, lo, _, b) =>
      assert unset - {x} == unset;
      AllAreSafe(b, unset);
    case ForCount(x, _, b) =>
      assert unset - {x} == unset;
      AllAreSafe(b, unset);
    case _ =>
  }

  lemma {:induction false} AllAreSafe(ss: Stmts, unset: set<string>)
    requires SetsFirst(AllParts(ss)) && AllMention(ss) !! unset
    ensures AllSafe(ss, unset) && AllUnset(ss, unset) == unset
    decreases ss
  {
    if ss.Then? {
      StmtSafe(ss.first, unset);
      AllAreSafe(ss.rest, unset);
    }
  }

  lemma {:induction false} ArmsAreSafe(arms: Arms, unset: set<string>)
    requires SetsFirst(ArmsParts(arms)) && ArmsMention(arms) !! unset
    ensures ArmsSafe(arms, unset)
    decreases arms
  {
    match arms
    case NoElse =>
    case Else(b) => AllAreSafe(b, unset);
    case Arm(_, b, rest) =>
      AllAreSafe(b, unset);
      ArmsAreSafe(rest, unset);
  }

  /** Functions that pass the check: no array loop, or one over such a body with nothing behind it that reads its variable. */
  lemma FunctionSafe(params: seq<string>, body: Stmts, x: string, e: Iterable, b: Stmts)
    requires SetsFirst(AllParts(body)) && SetsFirst(AllParts(b)) && x !in AllMention(body)
    ensures SafeFunction(FunctionDecl(params, body)) && SafeFunction(FunctionDecl(params, Then(ForEach(x, e, b), body)))
  {
    AllAreSafe(body, {});
    AllAreSafe(b, {});
    AllAreSafe(body, {x});
    assert {} - {x} == {} && {} + {x} == {x};
  }

  // ----- no assignment -----

  lemma {:induction false} AssignsNone(s: Stmt, x: string)
    ensures NoAssign(s, x) <==> forall p <- Parts(s) :: p.Assign? ==> p.y != x
    decreases s
  {
    match s
    case Block(b) => AllAssignNone(b, x);
    case If(arms) => ArmsAssignNone(arms, x);
    case While(_, b) => AllAssignNone(b, x);
    case Loop(b) => AllAssignNone(b, x);
    case ForRange(_, _, _, b) => AllAssignNone(b, x);
    case ForCount(_, _, b) => AllAssignNone(b, x);
    case ForEach(_, _, b) => AllAssignNone(b, x);
    case _ =>
  }

  /** A body assigns x nowhere exactly when it contains no assignment to x. */
  lemma {:induction false} AllAssignNone(ss: Stmts, x: string)
    ensures NoAssigns(ss, x) <==> forall p <- AllParts(ss) :: p.Assign? ==> p.y != x
    decreases ss
  {
    if ss.Then? {
      AssignsNone(ss.first, x);
      AllAssignNone(ss.rest, x);
    }
  }

  lemma {:induction false} ArmsAssignNone(arms: Arms, x: string)
    ensures NoArmAssigns(arms, x) <==> forall p <- ArmsParts(arms) :: p.Assign? ==> p.y != x
    decreases arms
  {
    match arms
    case NoElse =>
    case Else(b) => AllAssignNone(b, x);
    case Arm(_, b, rest) =>
      AllAssignNone(b, x);
      ArmsAssignNone(rest, x);
  }

  // ----- the two readings agree -----

  predicate NoJump(parts: set<Stmt>) {
    forall p <- parts :: !p.Break? && !p.Continue?
  }

  predicate NoBranch(parts: set<Stmt>) {
    NoJump(parts) && forall p <- parts :: !p.If? && !p.Block?
  }

  predicate NoResult(parts: set<Stmt>) {
    NoJump(parts) && forall p <- parts :: !p.Return? && !p.ExprStmt?
  }

  lemma {:induction false} StmtBranchless(s: Stmt, m: Mode)
    requires NoBranch(Parts(s)) && (m.last ==> m.tail)
    ensures Clean(s, m) && Emits(s)
    decreases s
  {
    assert s in Parts(s);
    match s
    case While(_, b) => AllBranchless(b, LOOP_BODY);
    case Loop(b) => AllBranchless(b, LOOP_BODY);
    case ForRange(_, _, _, b) => AllBranchless(b, LOOP_BODY);
    case ForCount(_, _, b) => AllBranchless(b, LOOP_BODY);
    case ForEach(_, _, b) => AllBranchless(b, LOOP_BODY);
    case _ =>
  }

  lemma {:induction false} AllBranchless(ss: Stmts, m: Mode)
    requires NoBranch(AllParts(ss)) && (m.last ==> m.tail)
    ensures AllClean(ss, m) && (AnyEmits(ss) <==> ss.Then?)
    ensures AllEndInRet(ss, true, true) ==> !AllComplete(ss, true)
    decreases ss
  {
    if ss.Then? {
      StmtsText(ss.rest, false);
      AllBranchless(ss.rest, m);
      StmtBranchless(ss.first, FirstMode(m, ss.rest));
      assert ss.first in Parts(ss.first);
      if ss.rest.Empty? {
        assert !AnyEmits(ss.rest);
        assert AllEndInRet(ss, true, true) <==> EndsInRet(ss.first, true, true);
      }
    }
  }

  lemma {:induction false} StmtResultless(s: Stmt, m: Mode)
    requires NoResult(Parts(s))
    ensures Clean(s, m) && forall tail, last :: !EndsInRet(s, tail, last)
    decreases s
  {
    assert s in Parts(s);
    match s
    case Block(b) => AllResultless(b, m);
    case If(arms) => ArmsResultless(arms, m);
    case While(_, b) => AllResultless(b, LOOP_BODY);
    case Loop(b) => AllResultless(b, LOOP_BODY);
    case ForRange(_, _, _, b) => AllResultless(b, LOOP_BODY);
    case ForCount(_, _, b) => AllResultless(b, LOOP_BODY);
    case ForEach(_, _, b) => AllResultless(b, LOOP_BODY);
    case _ =>
  }

  lemma {:induction false} AllResultless(ss: Stmts, m: Mode)
    requires NoResult(AllParts(ss))
    ensures AllClean(ss, m) && forall tail, last :: !AllEndInRet(ss, tail, last)
    decreases ss
  {
    if ss.Then? {
      StmtResultless(ss.first, FirstMode(m, ss.rest));
      AllResultless(ss.rest, m);
    }
  }

  lemma {:induction false} ArmsResultless(arms: Arms, m: Mode)
    requires NoResult(ArmsParts(arms))
    ensures ArmsClean(arms, m) && forall tail, last :: !ArmsEndInRet(arms, tail, last)
    decreases arms
  {
    match arms
    case NoElse =>
    case Else(b) => AllResultless(b, m);
    case Arm(_, b, rest) =>
      AllResultless(b, ArmMode(m, rest));
      ArmsResultless(rest, m);
      StmtsText(b, m.tail);
  }

  /** Functions without jumps are clean when they do not branch, and when nothing in them is a result. */
  lemma FunctionClean(f: FunctionDecl)
    requires NoBranch(AllParts(f.body)) || NoResult(AllParts(f.body))
    ensures CleanFunction(f)
  {
    if NoBranch(AllParts(f.body)) {
      AllBranchless(f.body, BODY);
    } else {
      AllResultless(f.body, BODY);
    }
  }

  /** A guarded jump in front of a loop's body keeps the body clean exactly when it is the only one of its kind. */
  lemma GuardedJump(e: Expr, ss: Stmts, jump: Stmt)
    requires jump == Break || jump == Continue
    ensures AllClean(Then(If(Arm(e, Then(jump, Empty), NoElse)), ss), LOOP_BODY)
       <==> AllClean(ss, LOOP_BODY) && if jump == Break then !HasBreaks(ss) else !HasContinues(ss)
  {
    var body := Then(jump, Empty);
    StmtsText(ss, false);
    StmtsText(Empty, false);
    StmtsText(body, false);
    ArmsText(NoElse);
    var m := FirstMode(LOOP_BODY, ss);
    var m1 := ArmMode(m, NoElse);
    assert !ArmEndsInRet(body, m.tail);
    assert AllClean(body, m1) <==> Clean(jump, FirstMode(m1, Empty));
    assert ArmsClean(Arm(e, body, NoElse), m) <==> AllClean(body, m1);
  }

  /** One class of functions for which the code does exactly what is documented, told by what their text contains. */
  lemma CompiledAsDocumented(f: FunctionDecl, args: seq<Value>, g: Machine.Globals, pool: Pool, p: Program, locals: seq<Value>,
                             stop: Stop)
    requires (forall x :: x in f.params ==> x !in RESERVED) && AllMention(f.body) !! RESERVED
    requires SetsFirst(AllParts(f.body)) && (NoBranch(AllParts(f.body)) || NoResult(AllParts(f.body)))
    requires var r := CompFunction(f, pool);
             && p.code == r.frag.code && r.cx.pool <= p.pool && |p.code| < 0x8000_0000 && |p.pool| < 0x8000_0000
             && |args| == |f.params| && args <= locals && r.cx.next <= |locals| < 0x8000_0000
    ensures Stops(p, EntryPoint(locals, g), stop) <==> Means(f, args, g, stop)
    ensures (forall k: nat :: RunsFor(p, EntryPoint(locals, g), k)) <==> MeansForever(f, args, g)
  {
    OuterAreParts(f.body);
    LoadedExactly(f, args, pool, p, locals);
    AllAreSafe(f.body, {});
    FunctionClean(f);
    SafeCleanRunsExactly(f, args, g, pool, p, locals, stop);
  }

  lemma {:induction false} OuterAreParts(ss: Stmts)
    ensures AllOuter(ss) <= AllParts(ss)
    decreases ss
  {
    if ss.Then? {
      StmtOuterAreParts(ss.first);
      OuterAreParts(ss.rest);
    }
  }

  lemma {:induction false} StmtOuterAreParts(s: Stmt)
    ensures Outer(s) <= Parts(s)
    decreases s
  {
    match s
    case Block(b) => OuterAreParts(b);
    case If(arms) => ArmsOuterAreParts(arms);
    case _ =>
  }

  lemma {:induction false} ArmsOuterAreParts(arms: Arms)
    ensures ArmsOuter(arms) <= ArmsParts(arms)
    decreases arms
  {
    match arms
    case NoElse =>
    case Else(b) => OuterAreParts(b);
    case Arm(_, b, rest) =>
      OuterAreParts(b);
      ArmsOuterAreParts(rest);
  }
}
