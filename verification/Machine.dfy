/** The stack machine: instructions, one step, and runs. */
module Machine {
  import opened Values
  import Runs

  datatype OpCode =
    | PUSH | POP
    | IADD | ISUB | IMUL | IDIV | IMOD | INEG
    | IEQ | INE | ILT | ILE | IGT | IGE
    | AND | OR | NOT
    | LOAD_LOCAL | STORE_LOCAL | LOAD_LOCAL_0 | LOAD_LOCAL_1
    | LOAD_GLOBAL | STORE_GLOBAL
    | JMP | JMP_IF | JMP_IF_NOT | RET | RET_NULL
    | ALLOC_ARRAY | LOAD_INDEX | ARRAY_LEN | ARRAY_PUSH

  datatype Instr = Instr(op: OpCode, arg: uint32)

  type Globals = map<string, Value>

  datatype Program = Program(code: seq<Instr>, pool: seq<Value>)

  /** One frame: the operand stack grows at its right end. */
  datatype Config = Config(pc: int, stack: seq<Value>, locals: seq<Value>, globals: Globals)

  datatype Stop =
    | Done(v: Value, globals: Globals)   // RET or RET_NULL
    | Ended(g: Globals)                  // control ran off the end of the code
    | Error                              // a run-time error of the program (division by zero, bad index)
    | Fault                              // stack underflow or bad operand: must never happen

  type Result = Runs.Result<Config, Stop>

  function BinaryOp(op: OpCode, a: Value, b: Value): Option<Value> {
    var m, n := AsInt(a), AsInt(b);
    match op
    case IADD => Some(Int(Wrap64(m + n)))
    case ISUB => Some(Int(Wrap64(m - n)))
    case IMUL => Some(Int(Wrap64(m * n)))
    case IDIV => if n == 0 then None else Some(Int(Wrap64(TruncDiv(m, n))))
    case IMOD => if n == 0 then None else Some(Int(Wrap64(TruncMod(m, n))))
    case IEQ => Some(Bool(m == n))
    case INE => Some(Bool(m != n))
    case ILT => Some(Bool(m < n))
    case ILE => Some(Bool(m <= n))
    case IGT => Some(Bool(m > n))
    case IGE => Some(Bool(m >= n))
    case AND => Some(Bool(Truthy(a) && Truthy(b)))
    case OR => Some(Bool(Truthy(a) || Truthy(b)))
    case LOAD_INDEX => Element(a, n)
    case ARRAY_PUSH => if a.Arr? then Some(Arr(a.elems + [b])) else None
    case _ => None
  }

  predicate IsBinary(op: OpCode) {
    op in {IADD, ISUB, IMUL, IDIV, IMOD, IEQ, INE, ILT, ILE, IGT, IGE, AND, OR, LOAD_INDEX, ARRAY_PUSH}
  }

  /** Indexing counts from 0; a negative index counts from the end. */
  function Element(a: Value, i: int): Option<Value> {
    match a
    case Arr(vs) =>
      var k := if i < 0 then i + |vs| else i;
      if 0 <= k < |vs| then Some(vs[k]) else None
    case Str(s) =>
      var k := if i < 0 then i + |s| else i;
      if 0 <= k < |s| then Some(Str([s[k]])) else None
    case _ => None
  }

  function UnaryOp(op: OpCode, a: Value): Option<Value> {
    match op
    case INEG => Some(Int(Wrap64(-AsInt(a))))
    case NOT => Some(Bool(!Truthy(a)))
    case ARRAY_LEN =>
      if a.Arr? then Some(Int(Wrap64(|a.elems|)))
      else if a.Str? then Some(Int(Wrap64(|a.s|)))
      else None
    case _ => None
  }

  predicate IsUnary(op: OpCode) {
    op in {INEG, NOT, ARRAY_LEN}
  }

  /** The text of pool entry `idx`; an entry that is no string has empty text. */
  function PoolText(pool: seq<Value>, idx: int): string {
    if 0 <= idx < |pool| && pool[idx].Str? then pool[idx].s else ""
  }

  function Step(p: Program, c: Config): Result {
    if c.pc < 0 then Runs.Final(Fault)
    else if c.pc >= |p.code| then Runs.Final(Ended(c.globals))
    else Execute(p.pool, p.code[c.pc], c)
  }

  function Execute(pool: seq<Value>, i: Instr, c: Config): Result {
    var k := |c.stack|;
    var arg := I32(i.arg);
    var next := c.(pc := c.pc + 1);
    match i.op
    case PUSH =>
      if 0 <= arg < |pool| then Runs.Next(next.(stack := c.stack + [pool[arg]])) else Runs.Final(Fault)
    case LOAD_LOCAL =>
      if 0 <= arg < |c.locals| then Runs.Next(next.(stack := c.stack + [c.locals[arg]])) else Runs.Final(Fault)
    case LOAD_LOCAL_0 =>
      if 0 < |c.locals| then Runs.Next(next.(stack := c.stack + [c.locals[0]])) else Runs.Final(Fault)
    case LOAD_LOCAL_1 =>
      if 1 < |c.locals| then Runs.Next(next.(stack := c.stack + [c.locals[1]])) else Runs.Final(Fault)
    case LOAD_GLOBAL =>
      var name := PoolText(pool, arg);
      Runs.Next(next.(stack := c.stack + [if name in c.globals then c.globals[name] else Nil]))
    case ALLOC_ARRAY => Runs.Next(next.(stack := c.stack + [Arr([])]))
    case JMP => Runs.Next(c.(pc := c.pc + 1 + arg))
    case RET_NULL => Runs.Final(Done(Nil, c.globals))
    case _ => if k == 0 then Runs.Final(Fault) else Consume(pool, i, c, c.stack[k - 1], c.stack[..k - 1])
  }

  /** The instructions that pop: `v` was on top of `below`. */
  function Consume(pool: seq<Value>, i: Instr, c: Config, v: Value, below: seq<Value>): Result {
    var arg := I32(i.arg);
    var popped := c.(pc := c.pc + 1, stack := below);
    match i.op
    case POP => Runs.Next(popped)
    case RET => Runs.Final(Done(v, c.globals))
    case STORE_LOCAL =>
      if 0 <= arg < |c.locals| then Runs.Next(popped.(locals := c.locals[arg := v])) else Runs.Final(Fault)
    case STORE_GLOBAL => Runs.Next(popped.(globals := c.globals[PoolText(pool, arg) := v]))
    case JMP_IF => Runs.Next(if Truthy(v) then popped.(pc := c.pc + 1 + arg) else popped)
    case JMP_IF_NOT => Runs.Next(if Truthy(v) then popped else popped.(pc := c.pc + 1 + arg))
    case _ => Operate(i.op, popped, below, v)
  }

  function Operate(op: OpCode, popped: Config, below: seq<Value>, v: Value): Result {
    if IsUnary(op) then Push(popped, UnaryOp(op, v))
    else if below == [] then Runs.Final(Fault)
    else Push(popped.(stack := below[..|below| - 1]), BinaryOp(op, below[|below| - 1], v))
  }

  function Push(c: Config, r: Option<Value>): Result {
    match r
    case Some(v) => Runs.Next(c.(stack := c.stack + [v]))
    case None => Runs.Final(Error)
  }

  function Stepper(p: Program): Config -> Result {
    (c: Config) => Step(p, c)
  }

  /** What runs of a program do: reach a result, reach a configuration in at least one step, run k steps. */
  datatype Fact = Reach(c: Config, r: Result) | Move(c: Config, d: Config) | Last(c: Config, k: nat)

  ghost predicate Holds(p: Program, f: Fact) {
    match f
    case Reach(c, r) => Runs.Reaches(Stepper(p), c, r)
    case Move(c, d) => Runs.Moves(Stepper(p), c, d)
    case Last(c, k) => Runs.RunsFor(Stepper(p), c, k)
  }

  ghost predicate AreFacts(s: iset<Fact>, p: Program) {
    forall f {:trigger Holds(p, f)} :: f in s <==> Holds(p, f)
  }

  lemma FactsExist(p: Program)
    ensures exists s :: AreFacts(s, p)
  {
    var s := iset f | Holds(p, f);
    assert AreFacts(s, p);
  }

  /** The facts about a program's runs: proofs about code compose them without unfolding runs. */
  ghost function Facts(p: Program): iset<Fact> {
    FactsExist(p);
    var s :| AreFacts(s, p);
    s
  }

  /** From c the machine gets to configuration d. */
  ghost predicate Goes(p: Program, c: Config, d: Config) {
    Reach(c, Runs.Next(d)) in Facts(p)
  }

  /** From c the machine stops with f. */
  ghost predicate Stops(p: Program, c: Config, f: Stop) {
    Reach(c, Runs.Final(f)) in Facts(p)
  }

  /** From c to d in at least one step. */
  ghost predicate Moves(p: Program, c: Config, d: Config) {
    Move(c, d) in Facts(p)
  }

  /** From c the machine runs at least k steps without stopping. */
  ghost predicate RunsFor(p: Program, c: Config, k: nat) {
    Last(c, k) in Facts(p)
  }

  lemma BehaviourIs(p: Program, c: Config, d: Config, f: Stop, k: nat)
    ensures Goes(p, c, d) <==> Runs.Reaches(Stepper(p), c, Runs.Next(d))
    ensures Stops(p, c, f) <==> Runs.Reaches(Stepper(p), c, Runs.Final(f))
    ensures Moves(p, c, d) <==> Runs.Moves(Stepper(p), c, d)
    ensures RunsFor(p, c, k) <==> Runs.RunsFor(Stepper(p), c, k)
  {
    FactsExist(p);
    assert Holds(p, Reach(c, Runs.Next(d))) <==> Runs.Reaches(Stepper(p), c, Runs.Next(d));
    assert Holds(p, Reach(c, Runs.Final(f))) <==> Runs.Reaches(Stepper(p), c, Runs.Final(f));
    assert Holds(p, Move(c, d)) <==> Runs.Moves(Stepper(p), c, d);
    assert Holds(p, Last(c, k)) <==> Runs.RunsFor(Stepper(p), c, k);
  }

  lemma Start(p: Program, c: Config)
    ensures Goes(p, c, c)
  {
    BehaviourIs(p, c, c, Error, 0);
    Runs.Stay(Stepper(p), c);
  }

  lemma GoesGoes(p: Program, c: Config, d: Config, e: Config)
    requires Goes(p, c, d) && Goes(p, d, e)
    ensures Goes(p, c, e)
  {
    BehaviourIs(p, c, d, Error, 0);
    BehaviourIs(p, d, e, Error, 0);
    BehaviourIs(p, c, e, Error, 0);
    Runs.Chain(Stepper(p), c, d, Runs.Next(e));
  }

  lemma GoesStep(p: Program, c: Config, d: Config, e: Config)
    requires Goes(p, c, d) && Step(p, d) == Runs.Next(e)
    ensures Goes(p, c, e)
  {
    GoesMove(p, c, d, e);
    MovesGoes(p, c, e);
  }

  lemma GoesStops(p: Program, c: Config, d: Config, f: Stop)
    requires Goes(p, c, d) && Stops(p, d, f)
    ensures Stops(p, c, f)
  {
    BehaviourIs(p, c, d, f, 0);
    BehaviourIs(p, d, d, f, 0);
    Runs.Chain(Stepper(p), c, d, Runs.Final(f));
  }

  lemma GoesStop(p: Program, c: Config, d: Config, f: Stop)
    requires Goes(p, c, d) && Step(p, d) == Runs.Final(f)
    ensures Stops(p, c, f)
  {
    BehaviourIs(p, c, d, f, 0);
    BehaviourIs(p, d, d, f, 0);
    Runs.OneStep(Stepper(p), d);
    Runs.Chain(Stepper(p), c, d, Runs.Final(f));
  }

  lemma GoesRuns(p: Program, c: Config, d: Config, k: nat)
    requires Goes(p, c, d) && RunsFor(p, d, k)
    ensures RunsFor(p, c, k)
  {
    BehaviourIs(p, c, d, Error, k);
    BehaviourIs(p, d, d, Error, k);
    Runs.ChainRunsFor(Stepper(p), c, d, k);
  }

  lemma GoesMove(p: Program, c: Config, d: Config, e: Config)
    requires Goes(p, c, d) && Step(p, d) == Runs.Next(e)
    ensures Moves(p, c, e)
  {
    BehaviourIs(p, c, d, Error, 0);
    BehaviourIs(p, c, e, Error, 0);
    Runs.Stay(Stepper(p), e);
    Runs.ReachesMoves(Stepper(p), c, d, e);
  }

  lemma GoesMoves(p: Program, c: Config, d: Config, e: Config)
    requires Goes(p, c, d) && Moves(p, d, e)
    ensures Moves(p, c, e)
  {
    BehaviourIs(p, c, d, Error, 0);
    BehaviourIs(p, d, e, Error, 0);
    BehaviourIs(p, c, e, Error, 0);
    Runs.ReachesMoves(Stepper(p), c, d, e);
  }

  lemma MovesGoes(p: Program, c: Config, d: Config)
    requires Moves(p, c, d)
    ensures Goes(p, c, d)
  {
    BehaviourIs(p, c, d, Error, 0);
    Runs.MovesReaches(Stepper(p), c, d);
  }

  lemma MovesRuns(p: Program, c: Config, d: Config, k: nat)
    requires Moves(p, c, d) && RunsFor(p, d, k)
    ensures RunsFor(p, c, k + 1)
  {
    BehaviourIs(p, c, d, Error, k + 1);
    BehaviourIs(p, d, d, Error, k);
    Runs.MovesRunsFor(Stepper(p), c, d, k);
  }

  lemma RunsZero(p: Program, c: Config)
    ensures RunsFor(p, c, 0)
  {
    BehaviourIs(p, c, c, Error, 0);
  }
}
