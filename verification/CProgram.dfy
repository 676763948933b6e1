/** The C programs the generator emits, seen through their heap: allocation, freeing, calls, and every read of a pointer. */
module CProgram {
  import opened Values

  /**
   * An expression is one identifier, one call, or anything else; the latter two read variables and make calls on the
   * way (the arguments of a call, the operands of an operator), whose results go nowhere.
   */
  datatype Exp =
    | Ident(x: string)
    | Call(f: string, args: set<string>, nested: seq<string>)
    | Other(names: set<string>, calls: seq<string>)

  const CONSTANT: Exp := Other({}, [])

  function Reads(e: Exp): set<string> {
    match e
    case Ident(x) => {x}
    case Call(_, args, _) => args
    case Other(names, _) => names
  }

  function Inner(e: Exp): seq<string> {
    match e
    case Ident(_) => []
    case Call(_, _, nested) => nested
    case Other(_, calls) => calls
  }

  datatype CStmt =
    | CAlloc(x: string)                      // x = claw_alloc(...)
    | CBorrow(y: string, from: Option<Exp>)  // x = the value of an expression, or NULL
    | CFree(z: string)                       // claw_free(x)
    | CDeclare(d: string, init: Exp)         // a scalar d, initialized
    | CEval(e: Exp)                          // element stores, expressions
    | CAssign(w: string, value: Exp)         // w = value
    | CReturn(ret: Option<Exp>)
    | CBreak
    | CContinue
    | CIf(arms: CArms)
    | CWhile(guard: Exp, body: CStmts)
    | CFor(v: string, counted: CStmts)       // for (int v = 1; ...; v++)

  datatype CStmts = NoCode | Cons(first: CStmt, rest: CStmts)

  /** `if (e) {..} else if ... else {..}` */
  datatype CArms = NoElse | Else(orelse: CStmts) | Arm(cond: Exp, abody: CStmts, more: CArms)

  /** The bodies of the functions of the program. */
  type Code = map<string, CStmts>

  function One(s: CStmt): CStmts {
    Cons(s, NoCode)
  }

  function Append(a: CStmts, b: CStmts): CStmts {
    match a
    case NoCode => b
    case Cons(s, rest) => Cons(s, Append(rest, b))
  }

  // ----- heap semantics -----

  datatype Ptr = Null | Obj(id: nat) | Foreign

  /** Pointer variables, the objects allocated and not freed, how many were ever allocated, and those freed. */
  datatype Mem = Mem(vars: map<string, Ptr>, live: set<nat>, count: nat, freed: seq<nat>)

  const START: Mem := Mem(map[], {}, 0, [])

  datatype Fault = FreeOfFreed | FreeOfForeign | ReadOfFreed

  /**
   * Guards are answered by a list of choices, so a property of all lists is a property of all paths. A call takes a
   * choice too: recursion without end runs out of them.
   */
  datatype Out =
    | Fell(m: Mem, ch: seq<bool>)
    | Broke(m: Mem, ch: seq<bool>)
    | Continued(m: Mem, ch: seq<bool>)
    | Returned(m: Mem, v: Option<Ptr>, ch: seq<bool>)
    | Bad(f: Fault)
    | Undecided   // the choices ran out

  /** The value of an expression: a pointer, if it is one that is known. */
  datatype Worth = Got(p: Option<Ptr>, m: Mem, ch: seq<bool>) | Wrong(f: Fault) | NoChoice

  function Spoilt(w: Worth): Out
    requires !w.Got?
  {
    if w.Wrong? then Bad(w.f) else Undecided
  }

  function Free(m: Mem, x: string): Out {
    if x !in m.vars || m.vars[x].Foreign? then Bad(FreeOfForeign)
    else if m.vars[x].Null? then Fell(m, [])
    else if m.vars[x].id !in m.live then Bad(FreeOfFreed)
    else Fell(m.(live := m.live - {m.vars[x].id}, freed := m.freed + [m.vars[x].id]), [])
  }

  /** Every pointer the expression reads is usable. */
  predicate Readable(e: Exp, m: Mem) {
    forall x :: x in Reads(e) && x in m.vars && m.vars[x].Obj? ==> m.vars[x].id in m.live
  }

  /** What a name points to, if it is a pointer variable. */
  function Pointer(x: string, m: Mem): Option<Ptr> {
    if x in m.vars then Some(m.vars[x]) else None
  }

  function Assign(w: string, p: Option<Ptr>, m: Mem): Mem {
    if p.Some? then m.(vars := m.vars[w := p.value])
    else if w in m.vars then m.(vars := m.vars[w := Foreign])
    else m
  }

  function Borrow(y: string, p: Option<Ptr>, m: Mem): Mem {
    m.(vars := m.vars[y := if p.Some? then p.value else Foreign])
  }

  /** While the counter v is in scope its name is no pointer variable; afterwards it is what it was. */
  function Hide(v: string, m: Mem): Mem {
    m.(vars := m.vars - {v})
  }

  function Restore(v: string, before: Mem, m: Mem): Mem {
    m.(vars := if v in before.vars then m.vars[v := before.vars[v]] else m.vars - {v})
  }

  predicate Shorter(o: Out, ch: seq<bool>) {
    (o.Fell? || o.Broke? || o.Continued? || o.Returned?) ==> |o.ch| <= |ch|
  }

  predicate ShorterWorth(w: Worth, ch: seq<bool>) {
    w.Got? ==> |w.ch| <= |ch|
  }

  /** A function of the program runs on the same heap with its own variables; any other gives no known pointer. */
  function CallOf(code: Code, f: string, m: Mem, ch: seq<bool>): (w: Worth)
    ensures ShorterWorth(w, ch)
    decreases |ch|, 0, 0
  {
    if f !in code then Got(None, m, ch)
    else if ch == [] then NoChoice
    else
      match Run(code, code[f], m.(vars := map[]), ch[1..])
      case Returned(m1, v, ch1) => Got(v, m1.(vars := m.vars), ch1)
      case Fell(m1, ch1) => Got(None, m1.(vars := m.vars), ch1)
      case Broke(m1, ch1) => Got(None, m1.(vars := m.vars), ch1)
      case Continued(m1, ch1) => Got(None, m1.(vars := m.vars), ch1)
      case Bad(fault) => Wrong(fault)
      case Undecided => NoChoice
  }

  /** The calls on the way; a choice says whether each is made, as behind && and || it may not be. */
  function RunCalls(code: Code, fs: seq<string>, m: Mem, ch: seq<bool>): (w: Worth)
    ensures ShorterWorth(w, ch)
    decreases |ch|, 0, 1 + |fs|
  {
    if fs == [] then Got(None, m, ch)
    else if ch == [] then NoChoice
    else if !ch[0] then RunCalls(code, fs[1..], m, ch[1..])
    else
      var w := CallOf(code, fs[0], m, ch[1..]);
      if w.Got? then RunCalls(code, fs[1..], w.m, w.ch) else w
  }

  function Eval(code: Code, e: Exp, m: Mem, ch: seq<bool>): (w: Worth)
    ensures ShorterWorth(w, ch)
    decreases |ch|, 0, 2 + |Inner(e)|
  {
    if !Readable(e, m) then Wrong(ReadOfFreed)
    else
      var w := RunCalls(code, Inner(e), m, ch);
      if !w.Got? then w
      else
        match e
        case Ident(x) => Got(Pointer(x, w.m), w.m, w.ch)
        case Call(f, _, _) => CallOf(code, f, w.m, w.ch)
        case Other(_, _) => Got(None, w.m, w.ch)
  }

  function RunStmt(code: Code, s: CStmt, m: Mem, ch: seq<bool>): (o: Out)
    ensures Shorter(o, ch)
    decreases |ch|, 1, s, 1
  {
    match s
    case CAlloc(x) =>
      Fell(m.(vars := m.vars[x := Obj(m.count)], live := m.live + {m.count}, count := m.count + 1), ch)
    case CBorrow(y, None) => Fell(m.(vars := m.vars[y := Null]), ch)
    case CBorrow(y, Some(e)) =>
      var w := Eval(code, e, m, ch);
      if w.Got? then Fell(Borrow(y, w.p, w.m), w.ch) else Spoilt(w)
    case CFree(z) =>
      var o := Free(m, z);
      if o.Fell? then Fell(o.m, ch) else o
    case CDeclare(_, e) =>
      var w := Eval(code, e, m, ch);
      if w.Got? then Fell(w.m, w.ch) else Spoilt(w)
    case CEval(e) =>
      var w := Eval(code, e, m, ch);
      if w.Got? then Fell(w.m, w.ch) else Spoilt(w)
    case CAssign(x, e) =>
      var w := Eval(code, e, m, ch);
      if w.Got? then Fell(Assign(x, w.p, w.m), w.ch) else Spoilt(w)
    case CReturn(None) => Returned(m, None, ch)
    case CReturn(Some(e)) =>
      var w := Eval(code, e, m, ch);
      if w.Got? then Returned(w.m, w.p, w.ch) else Spoilt(w)
    case CBreak => Broke(m, ch)
    case CContinue => Continued(m, ch)
    case CIf(arms) => RunArms(code, arms, m, ch)
    case CWhile(e, body) =>
      var w := Eval(code, e, m, ch);
      if !w.Got? then Spoilt(w)
      else if w.ch == [] then Undecided
      else if !w.ch[0] then Fell(w.m, w.ch[1..])
      else
        var o := Run(code, body, w.m, w.ch[1..]);
        if o.Fell? || o.Continued? then RunStmt(code, s, o.m, o.ch) else if o.Broke? then Fell(o.m, o.ch) else o
    case CFor(v, body) =>
      if ch == [] then Undecided
      else if !ch[0] then Fell(m, ch[1..])
      else
        var o := Run(code, body, Hide(v, m), ch[1..]);
        if o.Fell? || o.Continued? then RunStmt(code, s, Restore(v, m, o.m), o.ch)
        else if o.Broke? then Fell(Restore(v, m, o.m), o.ch) else o
  }

  function Run(code: Code, c: CStmts, m: Mem, ch: seq<bool>): (o: Out)
    ensures Shorter(o, ch)
    decreases |ch|, 1, c, 1
  {
    match c
    case NoCode => Fell(m, ch)
    case Cons(s, rest) =>
      var o := RunStmt(code, s, m, ch);
      if o.Fell? then Run(code, rest, o.m, o.ch) else o
  }

  function RunArms(code: Code, arms: CArms, m: Mem, ch: seq<bool>): (o: Out)
    ensures Shorter(o, ch)
    decreases |ch|, 1, arms, 1
  {
    match arms
    case NoElse => Fell(m, ch)
    case Else(b) => Run(code, b, m, ch)
    case Arm(e, b, more) =>
      var w := Eval(code, e, m, ch);
      if !w.Got? then Spoilt(w)
      else if w.ch == [] then Undecided
      else if w.ch[0] then Run(code, b, w.m, w.ch[1..])
      else RunArms(code, more, w.m, w.ch[1..])
  }

  lemma {:induction false} RunAppend(code: Code, a: CStmts, b: CStmts, m: Mem, ch: seq<bool>)
    ensures Run(code, Append(a, b), m, ch)
         == (var o := Run(code, a, m, ch); if o.Fell? then Run(code, b, o.m, o.ch) else o)
    decreases |ch|, a
  {
    if a.Cons? {
      var o := RunStmt(code, a.first, m, ch);
      if o.Fell? {
        RunAppend(code, a.rest, b, o.m, o.ch);
      }
    }
  }

  // ----- accounting: holds of every C program -----

  /** Every object allocated so far is live or was freed once, never both. */
  ghost predicate Accounted(m: Mem) {
    && (forall i :: i in m.live ==> i < m.count && i !in m.freed)
    && (forall i :: i in m.freed ==> i < m.count)
    && (forall i, j :: 0 <= i < j < |m.freed| ==> m.freed[i] != m.freed[j])
    && (forall i: nat {:trigger i in m.live} :: i < m.count ==> i in m.live || i in m.freed)
  }

  /** Nothing freed comes back. */
  ghost predicate Later(m: Mem, m1: Mem) {
    Accounted(m1) && m.count <= m1.count && forall i :: i in m.freed ==> i in m1.freed
  }

  ghost predicate WorthAccounted(w: Worth, m: Mem) {
    w.Got? ==> Later(m, w.m)
  }

  ghost predicate OutAccounted(o: Out, m: Mem) {
    match o
    case Fell(m1, _) => Later(m, m1)
    case Broke(m1, _) => Later(m, m1)
    case Continued(m1, _) => Later(m, m1)
    case Returned(m1, _, _) => Later(m, m1)
    case _ => true
  }

  lemma {:induction false} CallAccounted(code: Code, f: string, m: Mem, ch: seq<bool>)
    requires Accounted(m)
    ensures WorthAccounted(CallOf(code, f, m, ch), m)
    decreases |ch|, 0, 0
  {
    if f in code && ch != [] {
      RunAccounted(code, code[f], m.(vars := map[]), ch[1..]);
    }
  }

  lemma {:induction false} CallsAccounted(code: Code, fs: seq<string>, m: Mem, ch: seq<bool>)
    requires Accounted(m)
    ensures WorthAccounted(RunCalls(code, fs, m, ch), m)
    decreases |ch|, 0, 1 + |fs|
  {
    if fs != [] && ch != [] {
      if ch[0] {
        CallAccounted(code, fs[0], m, ch[1..]);
        var w := CallOf(code, fs[0], m, ch[1..]);
        if w.Got? {
          CallsAccounted(code, fs[1..], w.m, w.ch);
        }
      } else {
        CallsAccounted(code, fs[1..], m, ch[1..]);
      }
    }
  }

  lemma {:induction false} EvalAccounted(code: Code, e: Exp, m: Mem, ch: seq<bool>)
    requires Accounted(m)
    ensures WorthAccounted(Eval(code, e, m, ch), m)
    decreases |ch|, 0, 2 + |Inner(e)|
  {
    CallsAccounted(code, Inner(e), m, ch);
    var w := RunCalls(code, Inner(e), m, ch);
    if w.Got? && e.Call? {
      CallAccounted(code, e.f, w.m, w.ch);
    }
  }

  lemma AllocAccounted(code: Code, x: string, m: Mem, ch: seq<bool>)
    requires Accounted(m)
    ensures OutAccounted(RunStmt(code, CAlloc(x), m, ch), m)
  {
  }

  lemma FreeAccounted(m: Mem, z: string)
    requires Accounted(m)
    ensures OutAccounted(Free(m, z), m)
  {
  }

  lemma {:induction false} StmtAccounted(code: Code, s: CStmt, m: Mem, ch: seq<bool>)
    requires Accounted(m)
    ensures OutAccounted(RunStmt(code, s, m, ch), m)
    decreases |ch|, 1, s, 1
  {
    match s
    case CAlloc(x) => AllocAccounted(code, x, m, ch);
    case CFree(z) => FreeAccounted(m, z);
    case CBorrow(_, Some(e)) => EvalAccounted(code, e, m, ch);
    case CDeclare(_, e) => EvalAccounted(code, e, m, ch);
    case CEval(e) => EvalAccounted(code, e, m, ch);
    case CAssign(_, e) => EvalAccounted(code, e, m, ch);
    case CReturn(Some(e)) => EvalAccounted(code, e, m, ch);
    case CIf(arms) => ArmsAccounted(code, arms, m, ch);
    case CWhile(e, body) => WhileAccounted(code, e, body, m, ch);
    case CFor(v, body) => ForAccounted(code, v, body, m, ch);
    case _ =>
  }

  lemma {:induction false} WhileAccounted(code: Code, e: Exp, body: CStmts, m: Mem, ch: seq<bool>)
    requires Accounted(m)
    ensures OutAccounted(RunStmt(code, CWhile(e, body), m, ch), m)
    decreases |ch|, 1, CWhile(e, body), 0
  {
    EvalAccounted(code, e, m, ch);
    var w := Eval(code, e, m, ch);
    if w.Got? && w.ch != [] && w.ch[0] {
      RunAccounted(code, body, w.m, w.ch[1..]);
      var o := Run(code, body, w.m, w.ch[1..]);
      if o.Fell? || o.Continued? {
        WhileAccounted(code, e, body, o.m, o.ch);
      }
    }
  }

  lemma {:induction false} ForAccounted(code: Code, v: string, body: CStmts, m: Mem, ch: seq<bool>)
    requires Accounted(m)
    ensures OutAccounted(RunStmt(code, CFor(v, body), m, ch), m)
    decreases |ch|, 1, CFor(v, body), 0
  {
    if ch != [] && ch[0] {
      RunAccounted(code, body, Hide(v, m), ch[1..]);
      var o := Run(code, body, Hide(v, m), ch[1..]);
      if o.Fell? || o.Continued? {
        ForAccounted(code, v, body, Restore(v, m, o.m), o.ch);
      }
    }
  }

  lemma {:induction false} RunAccounted(code: Code, c: CStmts, m: Mem, ch: seq<bool>)
    requires Accounted(m)
    ensures OutAccounted(Run(code, c, m, ch), m)
    decreases |ch|, 1, c, 1
  {
    if c.Cons? {
      StmtAccounted(code, c.first, m, ch);
      var o := RunStmt(code, c.first, m, ch);
      if o.Fell? {
        RunAccounted(code, c.rest, o.m, o.ch);
      }
    }
  }

  lemma {:induction false} ArmsAccounted(code: Code, arms: CArms, m: Mem, ch: seq<bool>)
    requires Accounted(m)
    ensures OutAccounted(RunArms(code, arms, m, ch), m)
    decreases |ch|, 1, arms, 1
  {
    match arms
    case NoElse =>
    case Else(b) => RunAccounted(code, b, m, ch);
    case Arm(e, b, more) =>
      EvalAccounted(code, e, m, ch);
      var w := Eval(code, e, m, ch);
      if w.Got? && w.ch != [] {
        RunAccounted(code, b, w.m, w.ch[1..]);
        ArmsAccounted(code, more, w.m, w.ch[1..]);
      }
  }
}
