/** Compiled functions behave as their source: every terminating run, every error, and every divergence. */
module Correctness {
  import opened Values
  import opened Ast
  import opened Machine
  import opened Lowering
  import opened LoweringFacts
  import opened Semantics
  import opened Layers
  import opened Agreement
  import opened ExprProof
  import opened Placement
  import opened StmtSteps
  import opened LoopSteps
  import opened StmtProof
  import Runs

  // ----- parameters -----

  lemma {:induction false} ParamsAgree(params: seq<string>, args: seq<Value>, locals: seq<Value>)
    requires |params| == |args| && args <= locals
    ensures AgreeScope(ParamSlots(params), ParamScope(params, args), locals)
    decreases |params|
  {
    if params != [] {
      var k := |params| - 1;
      ParamsAgree(params[..k], args[..k], locals);
    }
  }

  lemma FunctionBegins(f: FunctionDecl, args: seq<Value>, pool: Pool, locals: seq<Value>)
    requires |f.params| == |args| && args <= locals
    ensures GoodCtx(FunctionCtx(f, pool)) && Agree(FunctionCtx(f, pool).scopes, [ParamScope(f.params, args)], locals)
  {
    FunctionCtxGood(f, pool);
    AgreeIs(FunctionCtx(f, pool).scopes, [ParamScope(f.params, args)], locals);
    ParamsAgree(f.params, args, locals);
  }

  // ----- one call -----

  /** The compiled f is loaded as p, and a frame for the arguments is set up. */
  ghost predicate Loaded(f: FunctionDecl, args: seq<Value>, pool: Pool, p: Program, locals: seq<Value>) {
    var r := CompFunction(f, pool);
    && UserFunction(f) && !AnyStray(f.body) && |args| == |f.params|
    && p.code == r.frag.code && r.cx.pool <= p.pool
    && r.cx.next <= |locals| && args <= locals && Fits(p, |locals|)
  }

  function EntryPoint(locals: seq<Value>, g: Machine.Globals): Config {
    Config(0, [], locals, g)
  }

  /** How the machine stops when the source has this outcome; a body whose code ends in RET falls off its end. */
  function StopOf(o: Outcome, endsInRet: bool): Option<Stop> {
    match o
    case Returned(v, g) => Some(Done(v, g))
    case Normal(st) => Some(if endsInRet then Ended(st.globals) else Done(Nil, st.globals))
    case Crashed => Some(Error)
    case _ => None
  }

  lemma PlacedAsIs(p: Program, at: int, f: Frag, code: seq<Instr>)
    requires CodeAt(p, at, f.code + code) && WellHoled(f)
    ensures Placed(p, at, f, Exits(None, None)) && CodeAt(p, at + |f.code|, code)
  {
    CodeSplit(p, at, f.code, code);
    assert Fill(f, Exits(None, None), at) == f.code;
  }

  lemma WholeCode(p: Program)
    ensures CodeAt(p, 0, p.code)
  {
    CodeAtIs(p, 0, p.code);
    assert forall i :: 0 <= i < |p.code| ==> Fetches(p, 0, p.code, i);
  }

  const BODY: Mode := Mode(true, true, false, false)

  /** The body's own run, before the code added after it. */
  lemma BodyRuns(f: FunctionDecl, args: seq<Value>, g: Machine.Globals, pool: Pool, p: Program, locals: seq<Value>,
                 fuel: nat, r: Lowered)
    requires Loaded(f, args, pool, p, locals) && r == CompAll(f.body, FunctionCtx(f, pool), true, true)
    ensures Ran(p, FunctionCtx(f, pool), EntryPoint(locals, g), Exits(None, None), 0, r.cx.scopes, |r.frag.code|,
                Call(f, args, g, fuel, true), fuel)
  {
    var cx := FunctionCtx(f, pool);
    var st := State([ParamScope(f.params, args)], g);
    var c := EntryPoint(locals, g);
    FunctionCode(f, pool);
    CodeIs(All(f.body), cx, true, true);
    ReadingIs(Do(All(f.body), BODY), st, fuel, true);
    OwnIs(All(f.body));
    FunctionBegins(f, args, pool, locals);
    CodeGood(All(f.body), cx, true, true);
    AllHoles(f.body, cx, true, true);
    WholeCode(p);
    PlacedAsIs(p, 0, r.frag, p.code[|r.frag.code|..]);
    AllRuns(p, f.body, cx, BODY, Exits(None, None), st, c, fuel, r, Call(f, args, g, fuel, true));
  }

  /** A compiled function does what its source does, outcome by outcome. */
  lemma CallRuns(f: FunctionDecl, args: seq<Value>, g: Machine.Globals, pool: Pool, p: Program, locals: seq<Value>,
                 fuel: nat)
    requires Loaded(f, args, pool, p, locals)
    ensures var o := Call(f, args, g, fuel, true);
            var c := EntryPoint(locals, g);
            var stop := StopOf(o, AllEndInRet(f.body, true, true));
            && !o.Broke? && !o.Continued?
            && (stop.Some? ==> Stops(p, c, stop.value))
            && (o.Timeout? ==> RunsFor(p, c, fuel))
  {
    var cx := FunctionCtx(f, pool);
    var r := CompAll(f.body, cx, true, true);
    var o := Call(f, args, g, fuel, true);
    var c := EntryPoint(locals, g);
    BodyRuns(f, args, g, pool, p, locals, fuel, r);
    FunctionCode(f, pool);
    if o.Normal? {
      AllShape(f.body, cx, true, true);
      var d := Resume(p, cx, c, |r.frag.code|, r.cx.scopes, o.st);
      if EndsRet(r.frag.code) {
        GoesStop(p, c, d, Ended(o.st.globals));
      } else {
        assert p.code[d.pc] == Op(RET_NULL);
        GoesStop(p, c, d, Done(Nil, o.st.globals));
      }
    }
  }

  // ----- whole behaviour -----

  /** The source stops this way, given enough fuel. */
  ghost predicate Yields(f: FunctionDecl, args: seq<Value>, g: Machine.Globals, stop: Stop)
    requires |args| == |f.params|
  {
    exists fuel: nat :: StopOf(Call(f, args, g, fuel, true), AllEndInRet(f.body, true, true)) == Some(stop)
  }

  ghost predicate Diverges(f: FunctionDecl, args: seq<Value>, g: Machine.Globals)
    requires |args| == |f.params|
  {
    forall fuel: nat :: Call(f, args, g, fuel, true).Timeout?
  }

  /** No unset variable is ever read. */
  ghost predicate Defined(f: FunctionDecl, args: seq<Value>, g: Machine.Globals)
    requires |args| == |f.params|
  {
    forall fuel: nat :: !Call(f, args, g, fuel, true).Undefined?
  }

  /** The machine stops with `stop` if and only if the source does. */
  lemma StopsExactly(f: FunctionDecl, args: seq<Value>, g: Machine.Globals, pool: Pool, p: Program, locals: seq<Value>,
                     stop: Stop)
    requires Loaded(f, args, pool, p, locals) && Defined(f, args, g)
    ensures Stops(p, EntryPoint(locals, g), stop) <==> Yields(f, args, g, stop)
  {
    var c := EntryPoint(locals, g);
    if Yields(f, args, g, stop) {
      var fuel: nat :| StopOf(Call(f, args, g, fuel, true), AllEndInRet(f.body, true, true)) == Some(stop);
      CallRuns(f, args, g, pool, p, locals, fuel);
    }
    if Stops(p, c, stop) {
      BehaviourIs(p, c, c, stop, 0);
      Runs.FinalBounds(Stepper(p), c, stop);
      var k: nat :| !Runs.RunsFor(Stepper(p), c, k);
      BehaviourIs(p, c, c, stop, k);
      CallRuns(f, args, g, pool, p, locals, k);
      var other := StopOf(Call(f, args, g, k, true), AllEndInRet(f.body, true, true));
      BehaviourIs(p, c, c, other.value, k);
      Runs.FinalUnique(Stepper(p), c, stop, other.value);
    }
  }

  /** The machine runs for ever if and only if the source does. */
  lemma DivergesExactly(f: FunctionDecl, args: seq<Value>, g: Machine.Globals, pool: Pool, p: Program,
                        locals: seq<Value>)
    requires Loaded(f, args, pool, p, locals) && Defined(f, args, g)
    ensures (forall k: nat :: RunsFor(p, EntryPoint(locals, g), k)) <==> Diverges(f, args, g)
  {
    var c := EntryPoint(locals, g);
    if Diverges(f, args, g) {
      forall k: nat ensures RunsFor(p, c, k) {
        CallRuns(f, args, g, pool, p, locals, k);
      }
    } else {
      var fuel: nat :| !Call(f, args, g, fuel, true).Timeout?;
      CallRuns(f, args, g, pool, p, locals, fuel);
      var stop := StopOf(Call(f, args, g, fuel, true), AllEndInRet(f.body, true, true)).value;
      BehaviourIs(p, c, c, stop, 0);
      Runs.FinalBounds(Stepper(p), c, stop);
      var k: nat :| !Runs.RunsFor(Stepper(p), c, k);
      BehaviourIs(p, c, c, stop, k);
      assert !RunsFor(p, c, k);
    }
  }
}
