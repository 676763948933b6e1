/**
 * A check on the text that no unset variable is ever read: the analysis follows the names that may be unset. Only
 * two things unset a name: a range loop before its first bound, and an array loop that may have no element.
 */
module Definedness {
  import opened Values
  import opened Ast
  import opened Machine
  import opened Semantics
  import opened Layers
  import opened Variables
  import opened Correctness
  import opened Documented
  import Lowering

  function Names(e: Expr): set<string> {
    match e
    case IntLit(_) => {}
    case BoolLit(_) => {}
    case StrLit(_) => {}
    case Var(x) => {x}
    case Binary(_, l, r) => Names(l) + Names(r)
    case Unary(_, a) => Names(a)
    case Index(a, i) => Names(a) + Names(i)
    case ArrayLit(es) => AllNames(es)
  }

  function AllNames(es: Exprs): set<string> {
    match es
    case NoExprs => {}
    case MoreExprs(e, rest) => Names(e) + AllNames(rest)
  }

  /** The names that may be unset after s, if they were those of `unset` before. */
  function Unsets(s: Stmt, unset: set<string>): set<string> {
    match s
    case Let(x, _) => unset - {x}
    case Assign(x, _) => unset - {x}
    case Block(b) => AllUnset(b, unset)
    case ForRange(x, _, _, _) => unset - {x}
    case ForCount(x, _, _) => unset - {x}
    case ForEach(x, _, _) => unset + {x}
    case _ => unset
  }

  function AllUnset(ss: Stmts, unset: set<string>): set<string> {
    match ss
    case Empty => unset
    case Then(s, rest) => AllUnset(rest, Unsets(s, unset))
  }

  /** No expression mentions a name that may be unset where it is evaluated. */
  predicate Safe(s: Stmt, unset: set<string>) {
    match s
    case Let(_, e) => Names(e) !! unset
    case Assign(_, e) => Names(e) !! unset
    case ExprStmt(e) => Names(e) !! unset
    case Return(v) => v.Some? ==> Names(v.value) !! unset
    case Break => true
    case Continue => true
    case Block(b) => AllSafe(b, unset)
    case If(arms) => ArmsSafe(arms, unset)
    case While(e, b) => Names(e) !! unset && AllSafe(b, unset)
    case Loop(b) => AllSafe(b, unset)
    case ForRange(x, lo, hi, b) => Names(lo) !! unset + {x} && Names(hi) !! unset - {x} && AllSafe(b, unset - {x})
    case ForCount(x, _, b) => AllSafe(b, unset - {x})
    case ForEach(x, e, b) => Names(e) !! unset && AllSafe(b, unset - {x})
  }

  predicate AllSafe(ss: Stmts, unset: set<string>) {
    match ss
    case Empty => true
    case Then(s, rest) => Safe(s, unset) && AllSafe(rest, Unsets(s, unset))
  }

  predicate ArmsSafe(arms: Arms, unset: set<string>) {
    match arms
    case NoElse => true
    case Else(b) => AllSafe(b, unset)
    case Arm(e, b, rest) => Names(e) !! unset && AllSafe(b, unset) && ArmsSafe(rest, unset)
  }

  // ----- what the set says of a state -----

  predicate IsUnset(env: Env, x: string) {
    Lookup(env, x) == Some(Unset)
  }

  /** Every name that reads as unset is in the set. */
  ghost predicate Covers(unset: set<string>, env: Env) {
    forall x {:trigger IsUnset(env, x)} :: IsUnset(env, x) ==> x in unset
  }

  lemma {:induction false} EvalDefined(e: Expr, st: State, unset: set<string>)
    requires Covers(unset, st.env) && Names(e) !! unset
    ensures !Eval(e, st).Unknown?
    decreases e
  {
    match e
    case Var(x) => assert !IsUnset(st.env, x);
    case Binary(_, l, r) =>
      EvalDefined(l, st, unset);
      EvalDefined(r, st, unset);
    case Unary(_, a) => EvalDefined(a, st, unset);
    case Index(a, i) =>
      EvalDefined(a, st, unset);
      EvalDefined(i, st, unset);
    case ArrayLit(es) => ElemsDefined(es, [], st, unset);
    case _ =>
  }

  lemma {:induction false} ElemsDefined(es: Exprs, sofar: seq<Value>, st: State, unset: set<string>)
    requires Covers(unset, st.env) && AllNames(es) !! unset
    ensures !EvalElems(es, sofar, st).Unknown?
    decreases es
  {
    if es.MoreExprs? {
      EvalDefined(es.head, st, unset);
      if Eval(es.head, st).V? {
        ElemsDefined(es.tail, sofar + [Eval(es.head, st).v], st, unset);
      }
    }
  }

  lemma ValueDefined(e: Expr, st: State, unset: set<string>)
    requires Covers(unset, st.env) && Names(e) !! unset
    ensures !ValueOf(e, st).Unknown?
  {
    EvalDefined(e, st, unset);
    ValueOfIs(e, st);
  }

  lemma SetTopCovers(st: State, x: string, c: Cell, unset: set<string>)
    requires Covers(unset, st.env) && st.env != []
    ensures Covers(if c.Set? then unset - {x} else unset + {x}, SetTop(st, x, c).env)
  {
    var env, env1 := st.env, SetTop(st, x, c).env;
    var k := |env| - 1;
    assert env1[..k] == env[..k];
    forall y | IsUnset(env1, y) ensures y in (if c.Set? then unset - {x} else unset + {x}) {
      assert y == x || IsUnset(env, y);
    }
  }

  lemma {:induction false} LookupUpdated(env: Env, x: string, v: Value, y: string)
    ensures Lookup(UpdateLocal(env, x, v), y) == if y == x && Lookup(env, x).Some? then Some(Set(v)) else Lookup(env, y)
    decreases |env|
  {
    if env != [] && x !in env[|env| - 1] {
      var k := |env| - 1;
      LookupUpdated(env[..k], x, v, y);
      var r := UpdateLocal(env[..k], x, v);
      assert (r + [env[k]])[..k] == r;
    } else if env != [] {
      var k := |env| - 1;
      assert env[k := env[k][x := Set(v)]][..k] == env[..k];
    }
  }

  lemma UpdateCovers(st: State, x: string, v: Value, unset: set<string>)
    requires Covers(unset, st.env)
    ensures Covers(unset - {x}, Update(st, x, v).env)
  {
    forall y | IsUnset(Update(st, x, v).env, y) ensures y in unset - {x} {
      if Lookup(st.env, x).Some? {
        LookupUpdated(st.env, x, v, y);
      }
      assert IsUnset(st.env, y);
    }
  }

  lemma EnterCovers(st: State, unset: set<string>)
    requires Covers(unset, st.env)
    ensures Covers(unset, Enter(st).env)
  {
    assert Enter(st).env[..|st.env|] == st.env;
    forall y | IsUnset(Enter(st).env, y) ensures y in unset {
      assert IsUnset(st.env, y);
    }
  }

  /** Where nothing was unset since, the set still covers. */
  lemma {:induction false} LookupStays(a: Env, b: Env, x: string)
    requires SameBelow(a, b, |a|, x, false)
    ensures IsUnset(b, x) ==> IsUnset(a, x)
    decreases |a|
  {
    if a != [] {
      var k := |a| - 1;
      assert SameCell(a[k], b[k], x, false);
      forall i | 0 <= i < k ensures SameCell(a[..k][i], b[..k][i], x, false) {
        assert SameCell(a[i], b[i], x, false);
      }
      LookupStays(a[..k], b[..k], x);
    }
  }

  /** After a body in its own scope. */
  lemma BodyCovers(b: Stmts, st: State, fuel: nat, m: Mode, asBuilt: bool, unset: set<string>)
    requires Covers(unset, st.env)
    ensures var o := ScopedReading(b, st, fuel, m, asBuilt);
            o.Normal? || o.Broke? || o.Continued? ==> Covers(unset, o.st.env) && |o.st.env| == |st.env|
  {
    var o := ScopedReading(b, st, fuel, m, asBuilt);
    if o.Normal? || o.Broke? || o.Continued? {
      forall x ensures SameBelow(st.env, o.st.env, |st.env|, x, false) {
        ScopedKeeps(b, st, fuel, m, asBuilt, |st.env|, x, false);
      }
      assert SameBelow(st.env, o.st.env, |st.env|, "", false);
      forall x | IsUnset(o.st.env, x) ensures x in unset {
        LookupStays(st.env, o.st.env, x);
      }
    }
  }

  // ----- no run reads an unset variable -----

  /** Nothing unset was read, and where control goes on the set covers what is unset. */
  ghost predicate Fine(o: Outcome, depth: nat, unset: set<string>) {
    !o.Undefined? && (o.Normal? ==> Covers(unset, o.st.env) && |o.st.env| == depth)
  }

  lemma {:induction false} StmtFine(s: Stmt, st: State, fuel: nat, m: Mode, asBuilt: bool, unset: set<string>)
    requires Safe(s, unset) && Covers(unset, st.env) && st.env != []
    ensures Fine(Reading(Do(One(s), m), st, fuel, asBuilt), |st.env|, Unsets(s, unset))
    decreases fuel, s, 6
  {
    ReadingUnfolds(Do(One(s), m), st, fuel, asBuilt);
    match s
    case Let(x, e) =>
      ValueDefined(e, st, unset);
      if ValueOf(e, st).V? {
        SetTopCovers(st, x, Set(ValueOf(e, st).v), unset);
      }
    case Assign(x, e) =>
      ValueDefined(e, st, unset);
      if ValueOf(e, st).V? {
        UpdateCovers(st, x, ValueOf(e, st).v, unset);
      }
    case ExprStmt(e) => ValueDefined(e, st, unset);
    case Return(v) =>
      if v.Some? {
        ValueDefined(v.value, st, unset);
      }
    case Block(b) => AllFine(b, st, fuel, m, asBuilt, unset);
    case If(arms) => ArmsFine(arms, st, fuel, m, asBuilt, unset);
    case While(_, b) => LoopFine(s, b, st, fuel, m, asBuilt, unset);
    case Loop(b) => LoopFine(s, b, st, fuel, m, asBuilt, unset);
    case ForRange(x, lo, hi, b) => BoundsFine(x, lo, hi, b, st, fuel, asBuilt, unset);
    case ForCount(x, n, b) =>
      SetTopCovers(st, x, Set(Int(1)), unset);
      RangeFine(x, Int(Cut32(n)), b, SetTop(st, x, Set(Int(1))), fuel, asBuilt, unset - {x});
    case ForEach(x, e, b) =>
      ValueDefined(e, st, unset);
      if ValueOf(e, st).V? {
        var a := ValueOf(e, st).v;
        var len := UnaryOp(ARRAY_LEN, a);
        if len.Some? {
          SetTopCovers(st, x, Unset, unset);
          assert unset + {x} - {x} == unset - {x};
          EachFine(x, a, AsInt(len.value), 0, b, SetTop(st, x, Unset), fuel, asBuilt, unset + {x});
        }
      }
    case _ =>
  }

  lemma {:induction false} AllFine(ss: Stmts, st: State, fuel: nat, m: Mode, asBuilt: bool, unset: set<string>)
    requires AllSafe(ss, unset) && Covers(unset, st.env) && st.env != []
    ensures Fine(Reading(Do(All(ss), m), st, fuel, asBuilt), |st.env|, AllUnset(ss, unset))
    decreases fuel, ss, 1
  {
    ReadingUnfolds(Do(All(ss), m), st, fuel, asBuilt);
    if ss.Then? {
      StmtFine(ss.first, st, fuel, FirstMode(m, ss.rest), asBuilt, unset);
      var o := Reading(Do(One(ss.first), FirstMode(m, ss.rest)), st, fuel, asBuilt);
      if o.Normal? {
        AllFine(ss.rest, o.st, fuel, m, asBuilt, Unsets(ss.first, unset));
      }
    }
  }

  lemma {:induction false} ScopedFine(b: Stmts, st: State, fuel: nat, m: Mode, asBuilt: bool, unset: set<string>)
    requires AllSafe(b, unset) && Covers(unset, st.env)
    ensures var o := ScopedReading(b, st, fuel, m, asBuilt);
            && Fine(o, |st.env|, unset)
            && (o.Broke? || o.Continued? ==> Covers(unset, o.st.env) && |o.st.env| == |st.env|)
    decreases fuel, b, 2
  {
    EnterCovers(st, unset);
    AllFine(b, Enter(st), fuel, m, asBuilt, unset);
    BodyCovers(b, st, fuel, m, asBuilt, unset);
  }

  lemma {:induction false} ArmsFine(arms: Arms, st: State, fuel: nat, m: Mode, asBuilt: bool, unset: set<string>)
    requires ArmsSafe(arms, unset) && Covers(unset, st.env) && st.env != []
    ensures Fine(Reading(Do(Cases(arms), m), st, fuel, asBuilt), |st.env|, unset)
    decreases fuel, arms, 1
  {
    ReadingUnfolds(Do(Cases(arms), m), st, fuel, asBuilt);
    match arms
    case NoElse =>
    case Else(b) => ScopedFine(b, st, fuel, m, asBuilt, unset);
    case Arm(e, b, rest) =>
      ValueDefined(e, st, unset);
      ScopedFine(b, st, fuel, ArmMode(m, rest), asBuilt, unset);
      ArmsFine(rest, st, fuel, m, asBuilt, unset);
      var o := ScopedReading(b, st, fuel, ArmMode(m, rest), asBuilt);
      if o.Normal? {
        ArmsFine(rest, o.st, fuel, m, asBuilt, unset);
      }
  }

  lemma {:induction false} LoopFine(s: Stmt, b: Stmts, st: State, fuel: nat, m: Mode, asBuilt: bool, unset: set<string>)
    requires s == Loop(b) || (s.While? && s.wbody == b)
    requires Safe(s, unset) && Covers(unset, st.env) && st.env != []
    ensures Fine(Reading(Do(One(s), m), st, fuel, asBuilt), |st.env|, unset)
    decreases fuel, s, 5
  {
    ReadingUnfolds(Do(One(s), m), st, fuel, asBuilt);
    if fuel > 0 {
      if s.While? {
        ValueDefined(s.cond, st, unset);
      }
      ScopedFine(b, st, fuel, LOOP_BODY, asBuilt, unset);
      var o := ScopedReading(b, st, fuel, LOOP_BODY, asBuilt);
      if o.Normal? || o.Continued? {
        StmtFine(s, o.st, fuel - 1, m, asBuilt, unset);
      }
    }
  }

  lemma {:induction false} BoundsFine(x: string, lo: Expr, hi: Expr, b: Stmts, st: State, fuel: nat, asBuilt: bool,
                                      unset: set<string>)
    requires Safe(ForRange(x, lo, hi, b), unset) && Covers(unset, st.env) && st.env != []
    ensures Fine(BoundsReading(x, lo, hi, b, st, fuel, asBuilt), |st.env|, unset - {x})
    decreases fuel, b, 6
  {
    var st0 := SetTop(st, x, Unset);
    SetTopCovers(st, x, Unset, unset);
    ValueDefined(lo, st0, unset + {x});
    var a := ValueOf(lo, st0);
    if a.V? {
      var st1 := SetTop(st0, x, Set(a.v));
      SetTopCovers(st0, x, Set(a.v), unset + {x});
      assert unset + {x} - {x} == unset - {x};
      ValueDefined(hi, st1, unset - {x});
      var z := ValueOf(hi, st1);
      if z.V? {
        RangeFine(x, z.v, b, st1, fuel, asBuilt, unset - {x});
      }
    }
  }

  lemma {:induction false} RangeFine(x: string, bound: Value, b: Stmts, st: State, fuel: nat, asBuilt: bool,
                                     unset: set<string>)
    requires x !in unset && AllSafe(b, unset) && Covers(unset, st.env) && st.env != []
    ensures Fine(Reading(Ranging(x, bound, b), st, fuel, asBuilt), |st.env|, unset)
    decreases fuel, b, 5
  {
    ReadingUnfolds(Ranging(x, bound, b), st, fuel, asBuilt);
    if fuel > 0 {
      assert !IsUnset(st.env, x);
      ScopedFine(b, st, fuel, LOOP_BODY, asBuilt, unset);
      var o := ScopedReading(b, st, fuel, LOOP_BODY, asBuilt);
      if o.Normal? || o.Continued? {
        assert !IsUnset(o.st.env, x);
        var z := ReadVar(o.st, x);
        var next := Set(Int(Wrap64(AsInt(z.v) + 1)));
        SetTopCovers(o.st, x, next, unset);
        assert unset - {x} == unset;
        RangeFine(x, bound, b, SetTop(o.st, x, next), fuel - 1, asBuilt, unset);
      }
    }
  }

  lemma {:induction false} EachFine(x: string, a: Value, len: int, i: int, b: Stmts, st: State, fuel: nat, asBuilt: bool,
                                    unset: set<string>)
    requires x in unset && AllSafe(b, unset - {x}) && Covers(unset, st.env) && st.env != []
    ensures Fine(Reading(Visiting(x, a, len, i, b), st, fuel, asBuilt), |st.env|, unset)
    decreases fuel, b, 5
  {
    ReadingUnfolds(Visiting(x, a, len, i, b), st, fuel, asBuilt);
    if fuel > 0 && i < len {
      var v := Element(a, i);
      if v.Some? {
        var st1 := SetTop(st, x, Set(v.value));
        SetTopCovers(st, x, Set(v.value), unset);
        ScopedFine(b, st1, fuel, LOOP_BODY, asBuilt, unset - {x});
        var o := ScopedReading(b, st1, fuel, LOOP_BODY, asBuilt);
        if o.Normal? || o.Continued? || o.Broke? {
          CoversMore(unset - {x}, unset, o.st.env);
        }
        if o.Normal? || o.Continued? {
          EachFine(x, a, len, i + 1, b, o.st, fuel - 1, asBuilt, unset);
        }
      }
    }
  }

  lemma CoversMore(small: set<string>, big: set<string>, env: Env)
    requires Covers(small, env) && small <= big
    ensures Covers(big, env)
  {
  }

  // ----- functions -----

  /** The check on a function's text; its parameters are set. */
  predicate SafeFunction(f: FunctionDecl) {
    AllSafe(f.body, {})
  }

  lemma {:induction false} ParamsSet(params: seq<string>, args: seq<Value>, x: string)
    requires |params| == |args|
    ensures x in ParamScope(params, args) ==> ParamScope(params, args)[x].Set?
    decreases |params|
  {
    if params != [] {
      ParamsSet(params[..|params| - 1], args[..|params| - 1], x);
    }
  }

  /** No call of a safe function reads an unset variable, in either reading. */
  lemma SafeIsDefined(f: FunctionDecl, args: seq<Value>, g: Machine.Globals, fuel: nat, asBuilt: bool)
    requires SafeFunction(f) && |args| == |f.params|
    ensures !Call(f, args, g, fuel, asBuilt).Undefined?
  {
    var st := State([ParamScope(f.params, args)], g);
    forall x ensures !IsUnset(st.env, x) {
      ParamsSet(f.params, args, x);
      assert st.env[..0] == [];
      assert Lookup([], x) == None;
    }
    ReadingIs(Do(All(f.body), BODY), st, fuel, asBuilt);
    AllFine(f.body, st, fuel, BODY, asBuilt, {});
  }

  /** What the compiled code of a safe function does, with nothing assumed of its runs. */
  lemma SafeRunsExactly(f: FunctionDecl, args: seq<Value>, g: Machine.Globals, pool: Lowering.Pool, p: Program,
                        locals: seq<Value>, stop: Stop)
    requires Loaded(f, args, pool, p, locals) && SafeFunction(f)
    ensures Stops(p, EntryPoint(locals, g), stop) <==> Yields(f, args, g, stop)
    ensures (forall k: nat :: RunsFor(p, EntryPoint(locals, g), k)) <==> Diverges(f, args, g)
  {
    forall fuel: nat ensures !Call(f, args, g, fuel, true).Undefined? {
      SafeIsDefined(f, args, g, fuel, true);
    }
    StopsExactly(f, args, g, pool, p, locals, stop);
    DivergesExactly(f, args, g, pool, p, locals);
  }

  /** The same for what the language documents, when the function is clean as well. */
  lemma SafeCleanRunsExactly(f: FunctionDecl, args: seq<Value>, g: Machine.Globals, pool: Lowering.Pool, p: Program,
                             locals: seq<Value>, stop: Stop)
    requires Loaded(f, args, pool, p, locals) && SafeFunction(f) && CleanFunction(f)
    ensures Stops(p, EntryPoint(locals, g), stop) <==> Means(f, args, g, stop)
    ensures (forall k: nat :: RunsFor(p, EntryPoint(locals, g), k)) <==> MeansForever(f, args, g)
  {
    forall fuel: nat ensures !Call(f, args, g, fuel, false).Undefined? {
      SafeIsDefined(f, args, g, fuel, false);
    }
    CleanStopsExactly(f, args, g, pool, p, locals, stop);
    CleanDivergesExactly(f, args, g, pool, p, locals);
  }

  /** A range loop that starts from its own variable reads it unset, whatever came before. */
  lemma OwnBoundIsUnset(x: string, hi: Expr, b: Stmts, st: State, fuel: nat, m: Mode, asBuilt: bool)
    requires st.env != []
    ensures Reading(Do(One(ForRange(x, Var(x), hi, b)), m), st, fuel, asBuilt) == Undefined
  {
    var st0 := SetTop(st, x, Unset);
    ReadingUnfolds(Do(One(ForRange(x, Var(x), hi, b)), m), st, fuel, asBuilt);
    ValueOfIs(Var(x), st0);
    assert Lookup(st0.env, x) == Some(Unset);
  }
}
