/**
 * Where the compiled code does what the language documents: the built and the documented reading of a program
 * agree on programs that keep clear of four spots, and differ in each of them.
 */
module Documented {
  import opened Values
  import opened Ast
  import opened Machine
  import opened Lowering
  import opened Semantics
  import opened Layers
  import opened ExprProof
  import opened Correctness
  import opened LoweringFacts

  // ----- text that cannot be completed -----

  /** Control can reach the end of the statement (loops are taken to end). */
  predicate Completes(s: Stmt, tail: bool) {
    match s
    case ExprStmt(_) => !tail
    case Return(_) => false
    case Break => false
    case Continue => false
    case Block(b) => AllComplete(b, tail)
    case If(arms) => ArmsComplete(arms, tail)
    case _ => true
  }

  predicate AllComplete(ss: Stmts, tail: bool) {
    match ss
    case Empty => true
    case Then(s, rest) => Completes(s, tail && rest.Empty?) && AllComplete(rest, tail)
  }

  predicate ArmsComplete(arms: Arms, tail: bool) {
    match arms
    case NoElse => true
    case Else(b) => AllComplete(b, tail)
    case Arm(_, b, rest) => AllComplete(b, tail) || ArmsComplete(rest, tail)
  }

  /** Text that does not complete has no normal outcome. */
  lemma {:induction false} NotCompleted(s: Stmt, st: State, fuel: nat, m: Mode)
    requires !Completes(s, m.tail)
    ensures !Reading(Do(One(s), m), st, fuel, false).Normal?
    decreases s, 0
  {
    ReadingUnfolds(Do(One(s), m), st, fuel, false);
    match s
    case Block(b) => NotAllCompleted(b, st, fuel, m);
    case If(arms) => NotArmsCompleted(arms, st, fuel, m);
    case _ =>
  }

  lemma {:induction false} NotAllCompleted(ss: Stmts, st: State, fuel: nat, m: Mode)
    requires !AllComplete(ss, m.tail)
    ensures !Reading(Do(All(ss), m), st, fuel, false).Normal?
    decreases ss, 0
  {
    ReadingUnfolds(Do(All(ss), m), st, fuel, false);
    var m1 := FirstMode(m, ss.rest);
    if !Completes(ss.first, m.tail && ss.rest.Empty?) {
      NotCompleted(ss.first, st, fuel, m1);
    } else {
      var o := Reading(Do(One(ss.first), m1), st, fuel, false);
      if o.Normal? {
        NotAllCompleted(ss.rest, o.st, fuel, m);
      }
    }
  }

  lemma {:induction false} NotArmsCompleted(arms: Arms, st: State, fuel: nat, m: Mode)
    requires !ArmsComplete(arms, m.tail)
    ensures !Reading(Do(Cases(arms), m), st, fuel, false).Normal?
    decreases arms, 0
  {
    ReadingUnfolds(Do(Cases(arms), m), st, fuel, false);
    match arms
    case Else(b) => NotAllCompleted(b, Enter(st), fuel, m);
    case Arm(e, b, rest) =>
      NotAllCompleted(b, Enter(st), fuel, ArmMode(m, rest));
      NotArmsCompleted(rest, st, fuel, m);
  }

  // ----- text whose two readings agree -----

  /**
   * No jump of a loop is followed by another of its kind in that loop; an arm whose code ends in RET does not
   * complete; the function's last expression is followed by no empty block.
   */
  ghost predicate Clean(s: Stmt, m: Mode) {
    match s
    case ExprStmt(_) => m.last ==> m.tail
    case Break => !m.brk
    case Continue => !m.cont
    case Block(b) => AllClean(b, m)
    case If(arms) => ArmsClean(arms, m)
    case While(_, b) => AllClean(b, LOOP_BODY)
    case Loop(b) => AllClean(b, LOOP_BODY)
    case ForRange(_, _, _, b) => AllClean(b, LOOP_BODY)
    case ForCount(_, _, b) => AllClean(b, LOOP_BODY)
    case ForEach(_, _, b) => AllClean(b, LOOP_BODY)
    case _ => true
  }

  ghost predicate AllClean(ss: Stmts, m: Mode) {
    match ss
    case Empty => true
    case Then(s, rest) => Clean(s, FirstMode(m, rest)) && AllClean(rest, m)
  }

  ghost predicate ArmsClean(arms: Arms, m: Mode) {
    match arms
    case NoElse => true
    case Else(b) => AllClean(b, m)
    case Arm(_, b, rest) =>
      AllClean(b, ArmMode(m, rest)) && ArmsClean(rest, m) && (ArmEndsInRet(b, m.tail) ==> !AllComplete(b, m.tail))
  }

  lemma {:induction false} CleanReading(s: Stmt, st: State, fuel: nat, m: Mode)
    requires Clean(s, m)
    ensures Reading(Do(One(s), m), st, fuel, true) == Reading(Do(One(s), m), st, fuel, false)
    decreases fuel, s, 6
  {
    ReadingUnfolds(Do(One(s), m), st, fuel, true);
    ReadingUnfolds(Do(One(s), m), st, fuel, false);
    match s
    case Block(b) => AllCleanReading(b, st, fuel, m);
    case If(arms) => ArmsCleanReading(arms, st, fuel, m);
    case While(e, b) => LoopCleanReading(s, b, st, fuel, m);
    case Loop(b) => LoopCleanReading(s, b, st, fuel, m);
    case ForRange(x, lo, hi, b) =>
      var st0 := SetTop(st, x, Unset);
      var a := ValueOf(lo, st0);
      if a.V? {
        var st1 := SetTop(st0, x, Set(a.v));
        var z := ValueOf(hi, st1);
        if z.V? {
          RangeCleanReading(x, z.v, b, st1, fuel);
        }
      }
    case ForCount(x, n, b) => RangeCleanReading(x, Int(Cut32(n)), b, SetTop(st, x, Set(Int(1))), fuel);
    case ForEach(x, e, b) =>
      var a := ValueOf(e, st);
      if a.V? {
        var len := UnaryOp(ARRAY_LEN, a.v);
        if len.Some? {
          EachCleanReading(x, a.v, AsInt(len.value), 0, b, SetTop(st, x, Unset), fuel);
        }
      }
    case _ =>
  }

  lemma {:induction false} AllCleanReading(ss: Stmts, st: State, fuel: nat, m: Mode)
    requires AllClean(ss, m)
    ensures Reading(Do(All(ss), m), st, fuel, true) == Reading(Do(All(ss), m), st, fuel, false)
    decreases fuel, ss, 1
  {
    ReadingUnfolds(Do(All(ss), m), st, fuel, true);
    ReadingUnfolds(Do(All(ss), m), st, fuel, false);
    if ss.Then? {
      CleanReading(ss.first, st, fuel, FirstMode(m, ss.rest));
      var o := Reading(Do(One(ss.first), FirstMode(m, ss.rest)), st, fuel, false);
      if o.Normal? {
        AllCleanReading(ss.rest, o.st, fuel, m);
      }
    }
  }

  lemma {:induction false} ArmsCleanReading(arms: Arms, st: State, fuel: nat, m: Mode)
    requires ArmsClean(arms, m)
    ensures Reading(Do(Cases(arms), m), st, fuel, true) == Reading(Do(Cases(arms), m), st, fuel, false)
    decreases fuel, arms, 1
  {
    ReadingUnfolds(Do(Cases(arms), m), st, fuel, true);
    ReadingUnfolds(Do(Cases(arms), m), st, fuel, false);
    match arms
    case NoElse =>
    case Else(b) => AllCleanReading(b, Enter(st), fuel, m);
    case Arm(e, b, rest) =>
      AllCleanReading(b, Enter(st), fuel, ArmMode(m, rest));
      ArmsCleanReading(rest, st, fuel, m);
      if ArmEndsInRet(b, m.tail) {
        NotAllCompleted(b, Enter(st), fuel, ArmMode(m, rest));
      }
  }

  lemma {:induction false} LoopCleanReading(s: Stmt, b: Stmts, st: State, fuel: nat, m: Mode)
    requires s == Loop(b) || (s.While? && s.wbody == b)
    requires AllClean(b, LOOP_BODY)
    ensures Reading(Do(One(s), m), st, fuel, true) == Reading(Do(One(s), m), st, fuel, false)
    decreases fuel, s, 5
  {
    ReadingUnfolds(Do(One(s), m), st, fuel, true);
    ReadingUnfolds(Do(One(s), m), st, fuel, false);
    if fuel > 0 {
      AllCleanReading(b, Enter(st), fuel, LOOP_BODY);
      var o := ScopedReading(b, st, fuel, LOOP_BODY, false);
      if o.Normal? || o.Continued? {
        CleanReading(s, o.st, fuel - 1, m);
      }
    }
  }

  lemma {:induction false} RangeCleanReading(x: string, bound: Value, b: Stmts, st: State, fuel: nat)
    requires AllClean(b, LOOP_BODY)
    ensures Reading(Ranging(x, bound, b), st, fuel, true) == Reading(Ranging(x, bound, b), st, fuel, false)
    decreases fuel, b, 5
  {
    ReadingUnfolds(Ranging(x, bound, b), st, fuel, true);
    ReadingUnfolds(Ranging(x, bound, b), st, fuel, false);
    if fuel > 0 {
      AllCleanReading(b, Enter(st), fuel, LOOP_BODY);
      var o := ScopedReading(b, st, fuel, LOOP_BODY, false);
      if o.Normal? || o.Continued? {
        var z := ReadVar(o.st, x);
        if z.V? {
          RangeCleanReading(x, bound, b, SetTop(o.st, x, Set(Int(Wrap64(AsInt(z.v) + 1)))), fuel - 1);
        }
      }
    }
  }

  lemma {:induction false} EachCleanReading(x: string, a: Value, len: int, i: int, b: Stmts, st: State, fuel: nat)
    requires AllClean(b, LOOP_BODY)
    ensures Reading(Visiting(x, a, len, i, b), st, fuel, true) == Reading(Visiting(x, a, len, i, b), st, fuel, false)
    decreases fuel, b, 5
  {
    ReadingUnfolds(Visiting(x, a, len, i, b), st, fuel, true);
    ReadingUnfolds(Visiting(x, a, len, i, b), st, fuel, false);
    if fuel > 0 && i < len {
      var v := Element(a, i);
      if v.Some? {
        var st1 := SetTop(st, x, Set(v.value));
        AllCleanReading(b, Enter(st1), fuel, LOOP_BODY);
        var o := ScopedReading(b, st1, fuel, LOOP_BODY, false);
        if o.Normal? || o.Continued? {
          EachCleanReading(x, a, len, i + 1, b, o.st, fuel - 1);
        }
      }
    }
  }

  /** A clean function also does not complete if its code ends in RET (nothing is emitted after that RET). */
  ghost predicate CleanFunction(f: FunctionDecl) {
    AllClean(f.body, BODY) && (AllEndInRet(f.body, true, true) ==> !AllComplete(f.body, true))
  }

  /** On a clean function the two readings of a call agree, and a call that completes is not at the code's end. */
  lemma CleanCall(f: FunctionDecl, args: seq<Value>, g: Machine.Globals, fuel: nat)
    requires |args| == |f.params| && CleanFunction(f)
    ensures var o := Call(f, args, g, fuel, false);
            Call(f, args, g, fuel, true) == o && StopOf(o, AllEndInRet(f.body, true, true)) == StopOf(o, false)
  {
    var st := State([ParamScope(f.params, args)], g);
    ReadingIs(Do(All(f.body), BODY), st, fuel, true);
    ReadingIs(Do(All(f.body), BODY), st, fuel, false);
    AllCleanReading(f.body, st, fuel, BODY);
    if AllEndInRet(f.body, true, true) {
      NotAllCompleted(f.body, st, fuel, BODY);
    }
  }

  /** The documented behaviour: how a call ends; completing the body returns nil. */
  ghost predicate Means(f: FunctionDecl, args: seq<Value>, g: Machine.Globals, stop: Stop)
    requires |args| == |f.params|
  {
    exists fuel: nat :: StopOf(Call(f, args, g, fuel, false), false) == Some(stop)
  }

  /** Compilation preserves the documented meaning of clean functions, in both directions. */
  lemma CleanStopsExactly(f: FunctionDecl, args: seq<Value>, g: Machine.Globals, pool: Pool, p: Program,
                          locals: seq<Value>, stop: Stop)
    requires Loaded(f, args, pool, p, locals) && CleanFunction(f)
    requires forall fuel: nat :: !Call(f, args, g, fuel, false).Undefined?
    ensures Stops(p, EntryPoint(locals, g), stop) <==> Means(f, args, g, stop)
  {
    forall fuel: nat
      ensures Call(f, args, g, fuel, true) == Call(f, args, g, fuel, false)
      ensures StopOf(Call(f, args, g, fuel, true), AllEndInRet(f.body, true, true))
           == StopOf(Call(f, args, g, fuel, false), false)
    {
      CleanCall(f, args, g, fuel);
    }
    StopsExactly(f, args, g, pool, p, locals, stop);
  }

  /** The documented behaviour: the call never ends. */
  ghost predicate MeansForever(f: FunctionDecl, args: seq<Value>, g: Machine.Globals)
    requires |args| == |f.params|
  {
    forall fuel: nat :: Call(f, args, g, fuel, false).Timeout?
  }

  /** The code of a clean function runs for ever if and only if the documented call does. */
  lemma CleanDivergesExactly(f: FunctionDecl, args: seq<Value>, g: Machine.Globals, pool: Pool, p: Program,
                             locals: seq<Value>)
    requires Loaded(f, args, pool, p, locals) && CleanFunction(f)
    requires forall fuel: nat :: !Call(f, args, g, fuel, false).Undefined?
    ensures (forall k: nat :: RunsFor(p, EntryPoint(locals, g), k)) <==> MeansForever(f, args, g)
  {
    forall fuel: nat ensures Call(f, args, g, fuel, true) == Call(f, args, g, fuel, false) {
      CleanCall(f, args, g, fuel);
    }
    DivergesExactly(f, args, g, pool, p, locals);
  }

  // ----- the spots clean programs keep clear of, one concrete program each -----

  /** `break; return; break;` in a loop: only the last jump is patched, so the first one falls through. */
  lemma FirstBreakIsLost(st: State, fuel: nat)
    ensures var body := Then(Break, Then(Return(None), Then(Break, Empty)));
            && Reading(Do(All(body), LOOP_BODY), st, fuel, false) == Broke(st)
            && Reading(Do(All(body), LOOP_BODY), st, fuel, true) == Returned(Nil, st.globals)
  {
    var third := Then(Break, Empty);
    var second := Then(Return(None), third);
    var body := Then(Break, second);
    var m := FirstMode(LOOP_BODY, second);
    StmtsText(second, false);
    assert m.brk;
    ReadingUnfolds(Do(All(body), LOOP_BODY), st, fuel, false);
    ReadingUnfolds(Do(One(Break), m), st, fuel, false);
    ReadingUnfolds(Do(All(body), LOOP_BODY), st, fuel, true);
    ReadingUnfolds(Do(One(Break), m), st, fuel, true);
    ReadingUnfolds(Do(All(second), LOOP_BODY), st, fuel, true);
    ReadingUnfolds(Do(One(Return(None)), FirstMode(LOOP_BODY, third)), st, fuel, true);
  }

  /** `continue; return; continue;` likewise. */
  lemma FirstContinueIsLost(st: State, fuel: nat)
    ensures var body := Then(Continue, Then(Return(None), Then(Continue, Empty)));
            && Reading(Do(All(body), LOOP_BODY), st, fuel, false) == Continued(st)
            && Reading(Do(All(body), LOOP_BODY), st, fuel, true) == Returned(Nil, st.globals)
  {
    var third := Then(Continue, Empty);
    var second := Then(Return(None), third);
    var body := Then(Continue, second);
    var m := FirstMode(LOOP_BODY, second);
    StmtsText(second, false);
    assert m.cont;
    ReadingUnfolds(Do(All(body), LOOP_BODY), st, fuel, false);
    ReadingUnfolds(Do(One(Continue), m), st, fuel, false);
    ReadingUnfolds(Do(All(body), LOOP_BODY), st, fuel, true);
    ReadingUnfolds(Do(One(Continue), m), st, fuel, true);
    ReadingUnfolds(Do(All(second), LOOP_BODY), st, fuel, true);
    ReadingUnfolds(Do(One(Return(None)), FirstMode(LOOP_BODY, third)), st, fuel, true);
  }

  /** `if true { if false { return } } else { break }`: the first arm ends in RET_NULL and runs on into the second. */
  lemma ArmFallsIntoNext(st: State, fuel: nat)
    ensures var inner := Arm(BoolLit(false), Then(Return(None), Empty), NoElse);
            var arms := Arm(BoolLit(true), Then(If(inner), Empty), Else(Then(Break, Empty)));
            && Reading(Do(Cases(arms), LOOP_BODY), st, fuel, false) == Normal(st)
            && Reading(Do(Cases(arms), LOOP_BODY), st, fuel, true) == Broke(st)
  {
    var inner := Arm(BoolLit(false), Then(Return(None), Empty), NoElse);
    var body := Then(If(inner), Empty);
    var rest := Else(Then(Break, Empty));
    var arms := Arm(BoolLit(true), body, rest);
    assert AllEndInRet(body, false, false);
    StmtsText(body, false);
    StmtsText(Empty, false);
    InnerCompletes(inner, body, ArmMode(LOOP_BODY, rest), Enter(st), fuel, false);
    InnerCompletes(inner, body, ArmMode(LOOP_BODY, rest), Enter(st), fuel, true);
    TrueArmEnds(body, rest, LOOP_BODY, st, fuel, false);
    TrueArmEnds(body, rest, LOOP_BODY, st, fuel, true);
    ElseBreaks(st, fuel);
  }

  /** An arm whose guard is true and whose body completes: as documented the `if` is done, as built perhaps not. */
  lemma TrueArmEnds(b: Stmts, rest: Arms, m: Mode, st: State, fuel: nat, asBuilt: bool)
    requires Reading(Do(All(b), ArmMode(m, rest)), Enter(st), fuel, asBuilt) == Normal(Enter(st))
    ensures Reading(Do(Cases(Arm(BoolLit(true), b, rest)), m), st, fuel, asBuilt)
         == if asBuilt && ArmEndsInRet(b, m.tail) then Reading(Do(Cases(rest), m), st, fuel, asBuilt) else Normal(st)
  {
    ValueOfIs(BoolLit(true), st);
    ReadingUnfolds(Do(Cases(Arm(BoolLit(true), b, rest)), m), st, fuel, asBuilt);
    assert Shrink(Enter(st)) == st;
  }

  lemma ElseBreaks(st: State, fuel: nat)
    ensures Reading(Do(Cases(Else(Then(Break, Empty))), LOOP_BODY), st, fuel, true) == Broke(st)
  {
    assert Shrink(Enter(st)) == st;
    StmtsText(Empty, false);
    ReadingUnfolds(Do(Cases(Else(Then(Break, Empty))), LOOP_BODY), st, fuel, true);
    ReadingUnfolds(Do(All(Then(Break, Empty)), LOOP_BODY), Enter(st), fuel, true);
    ReadingUnfolds(Do(One(Break), FirstMode(LOOP_BODY, Empty)), Enter(st), fuel, true);
  }

  lemma InnerCompletes(inner: Arms, body: Stmts, m: Mode, st: State, fuel: nat, asBuilt: bool)
    requires inner == Arm(BoolLit(false), Then(Return(None), Empty), NoElse) && body == Then(If(inner), Empty)
    ensures Reading(Do(All(body), m), st, fuel, asBuilt) == Normal(st)
  {
    var m1 := FirstMode(m, Empty);
    ValueOfIs(BoolLit(false), st);
    ReadingUnfolds(Do(All(body), m), st, fuel, asBuilt);
    ReadingUnfolds(Do(One(If(inner)), m1), st, fuel, asBuilt);
    ReadingUnfolds(Do(Cases(inner), m1), st, fuel, asBuilt);
    ReadingUnfolds(Do(Cases(NoElse), m1), st, fuel, asBuilt);
    ReadingUnfolds(Do(All(Empty), m), st, fuel, asBuilt);
  }

  /** `5; {}`: the expression is not the last statement, but its POP is the last instruction and becomes RET. */
  lemma SilentTailReturns(st: State, fuel: nat)
    ensures var body := Then(ExprStmt(IntLit(5)), Then(Block(Empty), Empty));
            && Reading(Do(All(body), BODY), st, fuel, false) == Normal(st)
            && Reading(Do(All(body), BODY), st, fuel, true) == Returned(Int(5), st.globals)
  {
    var rest := Then(Block(Empty), Empty);
    var body := Then(ExprStmt(IntLit(5)), rest);
    var m := FirstMode(BODY, rest);
    StmtsText(rest, true);
    ValueOfIs(IntLit(5), st);
    assert m.last && !m.tail;
    ReadingUnfolds(Do(All(body), BODY), st, fuel, false);
    ReadingUnfolds(Do(One(ExprStmt(IntLit(5))), m), st, fuel, false);
    ReadingUnfolds(Do(All(rest), BODY), st, fuel, false);
    ReadingUnfolds(Do(One(Block(Empty)), FirstMode(BODY, Empty)), st, fuel, false);
    ReadingUnfolds(Do(All(Empty), FirstMode(BODY, Empty)), st, fuel, false);
    ReadingUnfolds(Do(All(Empty), BODY), st, fuel, false);
    ReadingUnfolds(Do(All(body), BODY), st, fuel, true);
    ReadingUnfolds(Do(One(ExprStmt(IntLit(5))), m), st, fuel, true);
  }

  /** `fn f(c) { if c { return; } }` with c = 0: control runs off the end of the code instead of returning nil. */
  lemma FallsOffTheEnd(g: Machine.Globals, pool: Pool, p: Program, locals: seq<Value>, fuel: nat)
    requires var f := FunctionDecl(["c"], Then(If(Arm(Var("c"), Then(Return(None), Empty), NoElse)), Empty));
             Loaded(f, [Int(0)], pool, p, locals)
    ensures var f := FunctionDecl(["c"], Then(If(Arm(Var("c"), Then(Return(None), Empty), NoElse)), Empty));
            Means(f, [Int(0)], g, Done(Nil, g)) && Stops(p, EntryPoint(locals, g), Ended(g))
  {
    var arms := Arm(Var("c"), Then(Return(None), Empty), NoElse);
    var body := Then(If(arms), Empty);
    var f := FunctionDecl(["c"], body);
    var st := State([ParamScope(f.params, [Int(0)])], g);
    assert f.params[..0] == [] && ParamScope(f.params, [Int(0)])["c"] == Set(Int(0));
    SkipsItsArm(arms, body, st, fuel, false);
    SkipsItsArm(arms, body, st, fuel, true);
    assert StopOf(Call(f, [Int(0)], g, fuel, false), false) == Some(Done(Nil, g));
    CallRuns(f, [Int(0)], g, pool, p, locals, fuel);
    assert AllEndInRet(body, true, true);
  }

  lemma SkipsItsArm(arms: Arms, body: Stmts, st: State, fuel: nat, asBuilt: bool)
    requires arms == Arm(Var("c"), Then(Return(None), Empty), NoElse) && body == Then(If(arms), Empty)
    requires Eval(Var("c"), st) == V(Int(0))
    ensures ExecAll(body, st, fuel, BODY, asBuilt) == Normal(st)
  {
    var m1 := FirstMode(BODY, Empty);
    ValueOfIs(Var("c"), st);
    ReadingIs(Do(All(body), BODY), st, fuel, asBuilt);
    ReadingUnfolds(Do(All(body), BODY), st, fuel, asBuilt);
    ReadingUnfolds(Do(One(If(arms)), m1), st, fuel, asBuilt);
    ReadingUnfolds(Do(Cases(arms), m1), st, fuel, asBuilt);
    ReadingUnfolds(Do(Cases(NoElse), m1), st, fuel, asBuilt);
    ReadingUnfolds(Do(All(Empty), BODY), st, fuel, asBuilt);
  }
}
