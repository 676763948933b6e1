/**
 * What a function does apart from its heap: which declarations, assignments, tests and returns happen, in which order.
 * The C that is emitted does what the source says, on every path.
 */
module CMeaning {
  import opened Values
  import opened CProgram
  import opened Ownership

  datatype Event =
    | Makes(x: string)                        // a new array, or an empty string
    | Points(y: string, from: Option<Exp>)    // a string or tensor that is NULL or what the expression gives
    | Declares(z: string, init: Exp)
    | Assigns(w: string, value: Exp)
    | Evaluates(e: Exp)
    | Tests(guard: Exp, holds: bool)
    | Counts(v: string, again: bool)
    | Gives(ret: Option<Exp>)

  datatype Ending = Falls | Breaks | Continues | Returns | Unfinished

  /** A path: tests are answered by a list of choices, as in CProgram. */
  datatype Trail = Trail(events: seq<Event>, end: Ending, ch: seq<bool>)

  function Happens(e: Event, ch: seq<bool>): Trail {
    Trail([e], Falls, ch)
  }

  /** One event, then the rest. */
  function Before(e: Event, t: Trail): Trail {
    t.(events := [e] + t.events)
  }

  /** One path, then another one. */
  function Join(a: Trail, b: Trail): Trail {
    b.(events := a.events + b.events)
  }

  /** Where a loop stands after an iteration. */
  predicate GoesOn(t: Trail) {
    t.end.Falls? || t.end.Continues?
  }

  /** A break ends the loop. */
  function OutOf(t: Trail): Trail {
    if t.end.Breaks? then t.(end := Falls) else t
  }

  // ----- the source -----

  /** Arrays are made, and so are strings without an initializer; other values of the heap types are bound to a name. */
  function Declared(x: string, typ: string, init: Option<Exp>): Event {
    if Contains(typ, "[") then Makes(x)
    else if typ == "string" && init.None? then Makes(x)
    else if typ == "string" || Contains(typ, "tensor") then Points(x, init)
    else if init.Some? then Declares(x, init.value)
    else Declares(x, CONSTANT)
  }

  function Follow(s: Stmt, ch: seq<bool>): (t: Trail)
    ensures |t.ch| <= |ch|
    decreases |ch|, s, 1
  {
    match s
    case Let(x, typ, init) => Happens(Declared(x, typ, init), ch)
    case Set(y, e) => Happens(Assigns(y, e), ch)
    case Eval(e) => Happens(Evaluates(e), ch)
    case Return(ret) => Trail([Gives(ret)], Returns, ch)
    case Break => Trail([], Breaks, ch)
    case Continue => Trail([], Continues, ch)
    case If(arms) => if arms.When? then FollowArms(arms, ch) else Trail([], Falls, ch)
    case Block(b) => FollowAll(b, ch)
    case For(v, _, b) =>
      if ch == [] then Trail([], Unfinished, [])
      else if !ch[0] then Happens(Counts(v, false), ch[1..])
      else
        var t := FollowAll(b, ch[1..]);
        Before(Counts(v, true), if GoesOn(t) then Join(t, Follow(s, t.ch)) else OutOf(t))
    case While(e, b) =>
      if ch == [] then Trail([], Unfinished, [])
      else if !ch[0] then Happens(Tests(e, false), ch[1..])
      else
        var t := FollowAll(b, ch[1..]);
        Before(Tests(e, true), if GoesOn(t) then Join(t, Follow(s, t.ch)) else OutOf(t))
  }

  function FollowAll(ss: Stmts, ch: seq<bool>): (t: Trail)
    ensures |t.ch| <= |ch|
    decreases |ch|, ss, 1
  {
    match ss
    case Empty => Trail([], Falls, ch)
    case Then(s, rest) =>
      var t := Follow(s, ch);
      if t.end.Falls? then Join(t, FollowAll(rest, t.ch)) else t
  }

  function FollowArms(arms: Arms, ch: seq<bool>): (t: Trail)
    ensures |t.ch| <= |ch|
    decreases |ch|, arms, 1
  {
    match arms
    case NoMore => Trail([], Falls, ch)
    case Otherwise(b) => FollowAll(b, ch)
    case When(e, b, more) =>
      if ch == [] then Trail([], Unfinished, [])
      else Before(Tests(e, ch[0]), if ch[0] then FollowAll(b, ch[1..]) else FollowArms(more, ch[1..]))
  }

  /** `main` gives 0 at its end. */
  function FollowFunction(f: FunctionDecl, ch: seq<bool>): Trail {
    var t := FollowAll(f.body, ch);
    if t.end.Falls? && f.name == "main" then Join(t, Trail([Gives(Some(CONSTANT))], Returns, t.ch)) else t
  }

  // ----- the C -----

  function Does(s: CStmt, ch: seq<bool>): (t: Trail)
    ensures |t.ch| <= |ch|
    decreases |ch|, s, 1
  {
    match s
    case CAlloc(x) => Happens(Makes(x), ch)
    case CBorrow(y, from) => Happens(Points(y, from), ch)
    case CFree(_) => Trail([], Falls, ch)
    case CDeclare(x, e) => Happens(Declares(x, e), ch)
    case CEval(e) => Happens(Evaluates(e), ch)
    case CAssign(w, e) => Happens(Assigns(w, e), ch)
    case CReturn(ret) => Trail([Gives(ret)], Returns, ch)
    case CBreak => Trail([], Breaks, ch)
    case CContinue => Trail([], Continues, ch)
    case CIf(arms) => DoesArms(arms, ch)
    case CWhile(e, b) =>
      if ch == [] then Trail([], Unfinished, [])
      else if !ch[0] then Happens(Tests(e, false), ch[1..])
      else
        var t := DoesAll(b, ch[1..]);
        Before(Tests(e, true), if GoesOn(t) then Join(t, Does(s, t.ch)) else OutOf(t))
    case CFor(v, b) =>
      if ch == [] then Trail([], Unfinished, [])
      else if !ch[0] then Happens(Counts(v, false), ch[1..])
      else
        var t := DoesAll(b, ch[1..]);
        Before(Counts(v, true), if GoesOn(t) then Join(t, Does(s, t.ch)) else OutOf(t))
  }

  function DoesAll(c: CStmts, ch: seq<bool>): (t: Trail)
    ensures |t.ch| <= |ch|
    decreases |ch|, c, 1
  {
    match c
    case NoCode => Trail([], Falls, ch)
    case Cons(s, rest) =>
      var t := Does(s, ch);
      if t.end.Falls? then Join(t, DoesAll(rest, t.ch)) else t
  }

  function DoesArms(arms: CArms, ch: seq<bool>): (t: Trail)
    ensures |t.ch| <= |ch|
    decreases |ch|, arms, 1
  {
    match arms
    case NoElse => Trail([], Falls, ch)
    case Else(b) => DoesAll(b, ch)
    case Arm(e, b, more) =>
      if ch == [] then Trail([], Unfinished, [])
      else Before(Tests(e, ch[0]), if ch[0] then DoesAll(b, ch[1..]) else DoesArms(more, ch[1..]))
  }

  // ----- they agree -----

  lemma JoinNothing(t: Trail, ch: seq<bool>)
    ensures Join(Trail([], Falls, ch), t) == t
    ensures t.end.Falls? ==> Join(t, Trail([], Falls, t.ch)) == t
  {
    assert [] + t.events == t.events && t.events + [] == t.events;
  }

  lemma JoinNests(a: Trail, b: Trail, c: Trail)
    ensures Join(Join(a, b), c) == Join(a, Join(b, c))
  {
    assert a.events + b.events + c.events == a.events + (b.events + c.events);
  }

  lemma {:induction false} DoesAppend(a: CStmts, b: CStmts, ch: seq<bool>)
    ensures DoesAll(Append(a, b), ch) == var t := DoesAll(a, ch); if t.end.Falls? then Join(t, DoesAll(b, t.ch)) else t
    decreases |ch|, a
  {
    match a
    case NoCode => JoinNothing(DoesAll(b, ch), ch);
    case Cons(s, rest) =>
      var t := Does(s, ch);
      if t.end.Falls? {
        DoesAppend(rest, b, t.ch);
        var u := DoesAll(rest, t.ch);
        if u.end.Falls? {
          JoinNests(t, u, DoesAll(b, u.ch));
        }
      }
  }

  /** Code in front of frees does what it does without them. */
  lemma ThenFrees(c: CStmts, vars: seq<string>, ch: seq<bool>)
    ensures DoesAll(Append(c, Frees(vars, None)), ch) == DoesAll(c, ch)
  {
    DoesAppend(c, Frees(vars, None), ch);
    var t := DoesAll(c, ch);
    FreesDoNothing(vars, None, t.ch);
    JoinNothing(t, t.ch);
  }

  lemma {:induction false} FreesDoNothing(vars: seq<string>, skip: Option<string>, ch: seq<bool>)
    ensures DoesAll(Frees(vars, skip), ch) == Trail([], Falls, ch)
    decreases |vars|
  {
    if vars != [] {
      FreesDoNothing(vars[1..], skip, ch);
    }
  }

  lemma {:induction false} FreesAllDoNothing(scopes: Scopes, skip: Option<string>, ch: seq<bool>)
    ensures DoesAll(FreesAll(scopes, skip), ch) == Trail([], Falls, ch)
    decreases |scopes|
  {
    if scopes != [] {
      var k := |scopes| - 1;
      DoesAppend(Frees(scopes[k], skip), FreesAll(scopes[..k], skip), ch);
      FreesDoNothing(scopes[k], skip, ch);
      FreesAllDoNothing(scopes[..k], skip, ch);
    }
  }

  lemma DoesOne(s: CStmt, ch: seq<bool>)
    ensures DoesAll(One(s), ch) == Does(s, ch)
  {
    var t := Does(s, ch);
    JoinNothing(t, t.ch);
  }

  lemma {:induction false} StmtMeans(s: Stmt, scopes: Scopes, ch: seq<bool>)
    ensures DoesAll(GenStmt(s, scopes), ch) == Follow(s, ch)
    decreases |ch|, s, 5
  {
    match s
    case Let(x, typ, init) => DoesOne(GenLet(x, typ, init).first, ch);
    case Set(y, e) => DoesOne(CAssign(y, e), ch);
    case Eval(e) => DoesOne(CEval(e), ch);
    case Return(ret) =>
      DoesAppend(FreesAll(scopes, ReturnSkips(ret)), One(CReturn(ret)), ch);
      FreesAllDoNothing(scopes, ReturnSkips(ret), ch);
      DoesOne(CReturn(ret), ch);
      JoinNothing(Follow(s, ch), ch);
    case Break => DoesOne(CBreak, ch);
    case Continue => DoesOne(CContinue, ch);
    case If(arms) =>
      if arms.When? {
        DoesOne(CIf(GenArms(arms, scopes)), ch);
        ArmsMean(arms, scopes, ch);
      }
    case Block(b) => BodyMeans(b, scopes, ch);
    case For(v, range, b) =>
      DoesOne(CFor(v, GenLoopBody(b, scopes)), ch);
      ForMeans(v, range, b, scopes, ch);
    case While(e, b) =>
      DoesOne(CWhile(e, GenLoopBody(b, scopes)), ch);
      WhileMeans(e, b, scopes, ch);
  }

  lemma {:induction false} AllMean(ss: Stmts, scopes: Scopes, ch: seq<bool>)
    ensures DoesAll(GenAll(ss, scopes), ch) == FollowAll(ss, ch)
    decreases |ch|, ss, 1
  {
    if ss.Then? {
      var s, rest := ss.first, ss.rest;
      DoesAppend(GenStmt(s, scopes), GenAll(rest, After(s, scopes)), ch);
      StmtMeans(s, scopes, ch);
      var t := Follow(s, ch);
      AllMean(rest, After(s, scopes), t.ch);
    }
  }

  lemma {:induction false} BodyMeans(b: Stmts, scopes: Scopes, ch: seq<bool>)
    ensures DoesAll(GenBody(b, scopes), ch) == FollowAll(b, ch)
    decreases |ch|, b, 2
  {
    ThenFrees(GenAll(b, scopes + [[]]), Top(AfterAll(b, scopes + [[]])), ch);
    AllMean(b, scopes + [[]], ch);
  }

  lemma {:induction false} LoopBodyMeans(b: Stmts, scopes: Scopes, ch: seq<bool>)
    ensures DoesAll(GenLoopBody(b, scopes), ch) == FollowAll(b, ch)
    decreases |ch|, b, 3
  {
    ThenFrees(GenBody(b, scopes + [[]]), Top(scopes + [[]]), ch);
    BodyMeans(b, scopes + [[]], ch);
  }

  lemma {:induction false} WhileMeans(e: Exp, b: Stmts, scopes: Scopes, ch: seq<bool>)
    ensures Does(CWhile(e, GenLoopBody(b, scopes)), ch) == Follow(While(e, b), ch)
    decreases |ch|, b, 4
  {
    if ch != [] && ch[0] {
      LoopBodyMeans(b, scopes, ch[1..]);
      WhileMeans(e, b, scopes, FollowAll(b, ch[1..]).ch);
    }
  }

  lemma {:induction false} ForMeans(v: string, range: Exp, b: Stmts, scopes: Scopes, ch: seq<bool>)
    ensures Does(CFor(v, GenLoopBody(b, scopes)), ch) == Follow(For(v, range, b), ch)
    decreases |ch|, b, 4
  {
    if ch != [] && ch[0] {
      LoopBodyMeans(b, scopes, ch[1..]);
      ForMeans(v, range, b, scopes, FollowAll(b, ch[1..]).ch);
    }
  }

  lemma {:induction false} ArmsMean(arms: Arms, scopes: Scopes, ch: seq<bool>)
    ensures DoesArms(GenArms(arms, scopes), ch) == FollowArms(arms, ch)
    decreases |ch|, arms, 4
  {
    match arms
    case NoMore =>
    case Otherwise(b) => BodyMeans(b, scopes, ch);
    case When(e, b, more) =>
      if ch != [] {
        BodyMeans(b, scopes, ch[1..]);
        ArmsMean(more, scopes, ch[1..]);
      }
  }

  /** On every path the function emitted does what its source says; the frees are all that is added. */
  lemma FunctionMeans(f: FunctionDecl, ch: seq<bool>)
    ensures DoesAll(GenFunction(f), ch) == FollowFunction(f, ch)
  {
    var code := Append(GenAll(f.body, [[]]), Frees(Top(AfterAll(f.body, [[]])), None));
    DoesAppend(code, End(f.name), ch);
    ThenFrees(GenAll(f.body, [[]]), Top(AfterAll(f.body, [[]])), ch);
    AllMean(f.body, [[]], ch);
    var t := FollowAll(f.body, ch);
    if f.name == "main" {
      DoesOne(CReturn(Some(CONSTANT)), t.ch);
    } else {
      JoinNothing(t, t.ch);
    }
  }
}
