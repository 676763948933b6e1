/**
 * Big-step meaning of the fragment. Variables live in a stack of scopes; `if` and loop bodies open a scope,
 * a bare block does not. Loops consume fuel, so a diverging program is one that answers Timeout for every fuel.
 *
 * The evaluator has two readings of a program. With `asBuilt` it also follows the three places where the
 * compiler departs from the text (see Mode); without it, it is the meaning the language documents.
 */
module Semantics {
  import opened Values
  import opened Ast
  import Machine

  type Globals = Machine.Globals

  /** A declared variable holds a value, or none yet (a loop variable before its first assignment). */
  datatype Cell = Unset | Set(v: Value)
  type Env = seq<map<string, Cell>>

  datatype State = State(env: Env, globals: Globals)

  datatype Answer = V(v: Value) | Failed | Unknown   // Unknown: an unset variable was read

  function BinaryMeaning(op: BinOp, a: Value, b: Value): Option<Value> {
    var m, n := AsInt(a), AsInt(b);
    match op
    case Add => Some(Int(Wrap64(m + n)))
    case Sub => Some(Int(Wrap64(m - n)))
    case Mul => Some(Int(Wrap64(m * n)))
    case Div => if n == 0 then None else Some(Int(Wrap64(TruncDiv(m, n))))
    case Mod => if n == 0 then None else Some(Int(Wrap64(TruncMod(m, n))))
    case Eq => Some(Bool(m == n))
    case Ne => Some(Bool(m != n))
    case Lt => Some(Bool(m < n))
    case Le => Some(Bool(m <= n))
    case Gt => Some(Bool(m > n))
    case Ge => Some(Bool(m >= n))
    case And => Some(Bool(Truthy(a) && Truthy(b)))
    case Or => Some(Bool(Truthy(a) || Truthy(b)))
  }

  function UnaryMeaning(op: UnOp, a: Value): Value {
    match op
    case Neg => Int(Wrap64(-AsInt(a)))
    case Not => Bool(!Truthy(a))
  }

  // ----- variables -----

  /** The innermost binding of x. */
  function Lookup(env: Env, x: string): Option<Cell> {
    if env == [] then None
    else if x in env[|env| - 1] then Some(env[|env| - 1][x])
    else Lookup(env[..|env| - 1], x)
  }

  function Declare(env: Env, x: string, c: Cell): Env {
    if env == [] then [map[x := c]] else env[|env| - 1 := env[|env| - 1][x := c]]
  }

  /** Assignment goes to the innermost binding, or else to a global. */
  function Update(st: State, x: string, v: Value): State {
    if Lookup(st.env, x).None? then st.(globals := st.globals[x := v])
    else st.(env := UpdateLocal(st.env, x, v))
  }

  function UpdateLocal(env: Env, x: string, v: Value): (r: Env)
    ensures |r| == |env|
  {
    if env == [] then env
    else if x in env[|env| - 1] then env[|env| - 1 := env[|env| - 1][x := Set(v)]]
    else UpdateLocal(env[..|env| - 1], x, v) + [env[|env| - 1]]
  }

  function ReadVar(st: State, x: string): Answer {
    match Lookup(st.env, x)
    case Some(Set(v)) => V(v)
    case Some(Unset) => Unknown
    case None => V(if x in st.globals then st.globals[x] else Nil)
  }

  function ToAnswer(r: Option<Value>): Answer {
    match r
    case Some(v) => V(v)
    case None => Failed
  }

  // ----- expressions (they have no side effect) -----

  function Eval(e: Expr, st: State): Answer {
    match e
    case IntLit(n) => V(Int(Cut32(n)))
    case BoolLit(b) => V(Int(if b then 1 else 0))
    case StrLit(s) => V(Str(s))
    case Var(x) => ReadVar(st, x)
    case Binary(op, l, r) =>
      var a := Eval(l, st);
      if !a.V? then a
      else
        var b := Eval(r, st);
        if !b.V? then b else ToAnswer(BinaryMeaning(op, a.v, b.v))
    case Unary(op, x) =>
      var a := Eval(x, st);
      if !a.V? then a else V(UnaryMeaning(op, a.v))
    case Index(x, i) =>
      var a := Eval(x, st);
      if !a.V? then a
      else
        var b := Eval(i, st);
        if !b.V? then b else ToAnswer(Machine.Element(a.v, AsInt(b.v)))
    case ArrayLit(es) => EvalElems(es, [], st)
  }

  function EvalElems(es: Exprs, sofar: seq<Value>, st: State): Answer {
    match es
    case NoExprs => V(Arr(sofar))
    case MoreExprs(e, rest) =>
      var a := Eval(e, st);
      if !a.V? then a else EvalElems(rest, sofar + [a.v], st)
  }

  ghost predicate IsEvaluator(f: (Expr, State) -> Answer) {
    forall e, st {:trigger Eval(e, st)} :: f(e, st) == Eval(e, st)
  }

  lemma EvaluatorExists()
    ensures exists f: (Expr, State) -> Answer :: IsEvaluator(f)
  {
    var g := (e: Expr, st: State) => Eval(e, st);
    assert IsEvaluator(g);
  }

  /** Eval as a value: proofs about statements use it without looking inside expressions. */
  ghost function Evaluator(): (Expr, State) -> Answer {
    EvaluatorExists();
    var f: (Expr, State) -> Answer :| IsEvaluator(f);
    f
  }

  ghost function ValueOf(e: Expr, st: State): Answer {
    Evaluator()(e, st)
  }

  lemma ValueOfIs(e: Expr, st: State)
    ensures ValueOf(e, st) == Eval(e, st)
  {
  }

  // ----- statements -----

  datatype Outcome =
    | Normal(st: State)
    | Broke(st: State)
    | Continued(st: State)
    | Returned(v: Value, globals: Globals)
    | Crashed              // run-time error
    | Undefined            // an unset variable was read: nothing is promised
    | Timeout

  /**
   * Where a statement stands.
   *  tail:  its value is the function's implicit result;
   *  last:  nothing is emitted after it in the function (its final POP, if any, becomes RET);
   *  brk, cont: a later `break`/`continue` of the same loop exists, so this one's jump is never patched.
   */
  datatype Mode = Mode(tail: bool, last: bool, brk: bool, cont: bool)

  const LOOP_BODY: Mode := Mode(false, false, false, false)

  ghost function FirstMode(m: Mode, rest: Stmts): Mode {
    Mode(m.tail && rest.Empty?, m.last && !EmitsAhead(rest), m.brk || BreakAhead(rest), m.cont || ContinueAhead(rest))
  }

  ghost function ArmMode(m: Mode, rest: Arms): Mode {
    Mode(m.tail, false, m.brk || BreakInArms(rest), m.cont || ContinueInArms(rest))
  }

  function Abort(a: Answer): Outcome {
    if a.Failed? then Crashed else Undefined
  }

  /** Leave the scope opened for a body. */
  function Leave(o: Outcome): Outcome {
    match o
    case Normal(st) => Normal(Shrink(st))
    case Broke(st) => Broke(Shrink(st))
    case Continued(st) => Continued(Shrink(st))
    case _ => o
  }

  function Shrink(st: State): State {
    if st.env == [] then st else st.(env := st.env[..|st.env| - 1])
  }

  function Enter(st: State): State {
    st.(env := st.env + [map[]])
  }

  function SetTop(st: State, x: string, c: Cell): State {
    st.(env := Declare(st.env, x, c))
  }

  ghost function Exec(s: Stmt, st: State, fuel: nat, m: Mode, asBuilt: bool): Outcome
    decreases fuel, s, 1
  {
    match s
    case Let(x, e) =>
      var a := ValueOf(e, st);
      if a.V? then Normal(SetTop(st, x, Set(a.v))) else Abort(a)
    case Assign(x, e) =>
      var a := ValueOf(e, st);
      if a.V? then Normal(Update(st, x, a.v)) else Abort(a)
    case ExprStmt(e) =>
      var a := ValueOf(e, st);
      if !a.V? then Abort(a)
      else if m.tail || (asBuilt && m.last) then Returned(a.v, st.globals)
      else Normal(st)
    case Return(None) => Returned(Nil, st.globals)
    case Return(Some(e)) =>
      var a := ValueOf(e, st);
      if a.V? then Returned(a.v, st.globals) else Abort(a)
    case Break => if asBuilt && m.brk then Normal(st) else Broke(st)
    case Continue => if asBuilt && m.cont then Normal(st) else Continued(st)
    case Block(b) => ExecAll(b, st, fuel, m, asBuilt)
    case If(arms) => ExecArms(arms, st, fuel, m, asBuilt)
    case While(c, b) =>
      if fuel == 0 then Timeout
      else
        var a := ValueOf(c, st);
        if !a.V? then Abort(a)
        else if !Truthy(a.v) then Normal(st)
        else
          var o := Scoped(b, st, fuel, LOOP_BODY, asBuilt);
          if o.Normal? || o.Continued? then Exec(s, o.st, fuel - 1, m, asBuilt) else LoopExit(o)
    case Loop(b) =>
      if fuel == 0 then Timeout
      else
        var o := Scoped(b, st, fuel, LOOP_BODY, asBuilt);
        if o.Normal? || o.Continued? then Exec(s, o.st, fuel - 1, m, asBuilt) else LoopExit(o)
    case ForRange(x, lo, hi, b) =>
      var st0 := SetTop(st, x, Unset);
      var a := ValueOf(lo, st0);
      if !a.V? then Abort(a)
      else
        var st1 := SetTop(st0, x, Set(a.v));
        var z := ValueOf(hi, st1);
        if !z.V? then Abort(z) else RangeLoop(x, z.v, b, st1, fuel, asBuilt)
    case ForCount(x, n, b) =>
      RangeLoop(x, Int(Cut32(n)), b, SetTop(st, x, Set(Int(1))), fuel, asBuilt)
    case ForEach(x, e, b) =>
      var a := ValueOf(e, st);
      if !a.V? then Abort(a)
      else
        match Machine.UnaryOp(Machine.ARRAY_LEN, a.v)
        case None => Crashed
        case Some(len) => EachLoop(x, a.v, AsInt(len), 0, b, SetTop(st, x, Unset), fuel, asBuilt)
  }

  function LoopExit(o: Outcome): Outcome {
    if o.Broke? then Normal(o.st) else o
  }

  /** A body with its own scope. */
  ghost function Scoped(b: Stmts, st: State, fuel: nat, m: Mode, asBuilt: bool): Outcome
    decreases fuel, b, 2
  {
    Leave(ExecAll(b, Enter(st), fuel, m, asBuilt))
  }

  ghost function ExecAll(ss: Stmts, st: State, fuel: nat, m: Mode, asBuilt: bool): Outcome
    decreases fuel, ss, 1
  {
    match ss
    case Empty => Normal(st)
    case Then(s, rest) =>
      var o := Exec(s, st, fuel, FirstMode(m, rest), asBuilt);
      if o.Normal? then ExecAll(rest, o.st, fuel, m, asBuilt) else o
  }

  /** As built, an arm whose code ends in RET has no exit jump: completing it falls into the next arm. */
  ghost function ExecArms(arms: Arms, st: State, fuel: nat, m: Mode, asBuilt: bool): Outcome
    decreases fuel, arms, 1
  {
    match arms
    case NoElse => Normal(st)
    case Else(b) => Scoped(b, st, fuel, m, asBuilt)
    case Arm(c, b, rest) =>
      var a := ValueOf(c, st);
      if !a.V? then Abort(a)
      else if !Truthy(a.v) then ExecArms(rest, st, fuel, m, asBuilt)
      else
        var o := Scoped(b, st, fuel, ArmMode(m, rest), asBuilt);
        if o.Normal? && asBuilt && ArmEndsInRet(b, m.tail) then ExecArms(rest, o.st, fuel, m, asBuilt) else o
  }

  /** The bound is evaluated once and is inclusive; the body may assign the loop variable. */
  ghost function RangeLoop(x: string, bound: Value, b: Stmts, st: State, fuel: nat, asBuilt: bool): Outcome
    decreases fuel, b, 3
  {
    if fuel == 0 then Timeout
    else
      var a := ReadVar(st, x);
      if !a.V? then Abort(a)
      else if AsInt(a.v) > AsInt(bound) then Normal(st)
      else
        var o := Scoped(b, st, fuel, LOOP_BODY, asBuilt);
        if o.Normal? || o.Continued? then
          var z := ReadVar(o.st, x);
          if !z.V? then Abort(z)
          else RangeLoop(x, bound, b, SetTop(o.st, x, Set(Int(Wrap64(AsInt(z.v) + 1)))), fuel - 1, asBuilt)
        else LoopExit(o)
  }

  ghost function EachLoop(x: string, a: Value, len: int, i: int, b: Stmts, st: State, fuel: nat, asBuilt: bool): Outcome
    decreases fuel, b, 3
  {
    if fuel == 0 then Timeout
    else if i >= len then Normal(st)
    else
      match Machine.Element(a, i)
      case None => Crashed
      case Some(v) =>
        var o := Scoped(b, SetTop(st, x, Set(v)), fuel, LOOP_BODY, asBuilt);
        if o.Normal? || o.Continued? then EachLoop(x, a, len, i + 1, b, o.st, fuel - 1, asBuilt)
        else LoopExit(o)
  }

  /** The whole function: parameters are bound in the scope the body also declares into. */
  function ParamScope(params: seq<string>, args: seq<Value>): map<string, Cell>
    requires |params| == |args|
  {
    if params == [] then map[]
    else
      var k := |params| - 1;
      ParamScope(params[..k], args[..k])[params[k] := Set(args[k])]
  }

  ghost function Call(f: FunctionDecl, args: seq<Value>, globals: Globals, fuel: nat, asBuilt: bool): Outcome
    requires |args| == |f.params|
  {
    ExecAll(f.body, State([ParamScope(f.params, args)], globals), fuel, Mode(true, true, false, false), asBuilt)
  }
}
