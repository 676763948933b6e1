/** The lines of an emitted program, and the program that a reader of C finds in them. */
module CLines {
  import opened Values
  import opened CProgram

  datatype Line =
    | AllocLine(x: string) | BorrowLine(y: string, from: Option<Exp>) | FreeLine(z: string)
    | DeclareLine(d: string, init: Exp) | EvalLine(e: Exp) | AssignLine(w: string, value: Exp) | ReturnLine(ret: Option<Exp>)
    | BreakLine | ContinueLine
    | IfLine(cond: Exp) | ElseIfLine(other: Exp) | ElseLine | WhileLine(guard: Exp) | ForLine(v: string) | CloseLine

  // ----- a program as lines -----

  function Lines(c: CStmts): seq<Line> {
    match c
    case NoCode => []
    case Cons(s, rest) => StmtLines(s) + Lines(rest)
  }

  function StmtLines(s: CStmt): seq<Line> {
    match s
    case CAlloc(x) => [AllocLine(x)]
    case CBorrow(y, from) => [BorrowLine(y, from)]
    case CFree(z) => [FreeLine(z)]
    case CDeclare(x, e) => [DeclareLine(x, e)]
    case CEval(e) => [EvalLine(e)]
    case CAssign(w, e) => [AssignLine(w, e)]
    case CReturn(ret) => [ReturnLine(ret)]
    case CBreak => [BreakLine]
    case CContinue => [ContinueLine]
    case CIf(arms) => ArmLines(arms, true)
    case CWhile(e, body) => [WhileLine(e)] + Lines(body) + [CloseLine]
    case CFor(v, body) => [ForLine(v)] + Lines(body) + [CloseLine]
  }

  function ArmLines(arms: CArms, first: bool): seq<Line> {
    match arms
    case NoElse => []
    case Else(b) => [ElseLine] + Lines(b) + [CloseLine]
    case Arm(e, b, more) => [if first then IfLine(e) else ElseIfLine(e)] + Lines(b) + [CloseLine] + ArmLines(more, false)
  }

  lemma {:induction false} LinesAppend(a: CStmts, b: CStmts)
    ensures Lines(Append(a, b)) == Lines(a) + Lines(b)
    decreases a
  {
    match a
    case NoCode => assert [] + Lines(b) == Lines(b);
    case Cons(s, rest) =>
      LinesAppend(rest, b);
      Associates(StmtLines(s), Lines(rest), Lines(b));
  }

  lemma LinesOne(s: CStmt)
    ensures Lines(One(s)) == StmtLines(s)
  {
    assert StmtLines(s) + [] == StmtLines(s);
  }

  lemma Associates(a: seq<Line>, b: seq<Line>, c: seq<Line>)
    ensures a + b + c == a + (b + c)
  {
  }

  // ----- lines as a program -----

  /** What a reader finds up to a closing brace or the end, and the lines from there on. */
  datatype Reading = Read(c: CStmts, rest: seq<Line>) | Unreadable

  /** The same for the `else` parts behind a branch. */
  datatype ArmReading = ReadArms(arms: CArms, rest: seq<Line>) | BadArms

  /** The statement a line is by itself. */
  function Simple(l: Line): Option<CStmt> {
    match l
    case AllocLine(x) => Some(CAlloc(x))
    case BorrowLine(y, from) => Some(CBorrow(y, from))
    case FreeLine(z) => Some(CFree(z))
    case DeclareLine(d, e) => Some(CDeclare(d, e))
    case EvalLine(e) => Some(CEval(e))
    case AssignLine(w, e) => Some(CAssign(w, e))
    case ReturnLine(ret) => Some(CReturn(ret))
    case BreakLine => Some(CBreak)
    case ContinueLine => Some(CContinue)
    case _ => None
  }

  /** One statement in front of what follows it. */
  function InFront(s: CStmt, r: Reading): Reading {
    if r.Read? then Read(Cons(s, r.c), r.rest) else r
  }

  function ReadLines(ls: seq<Line>): (r: Reading)
    ensures r.Read? ==> |r.rest| <= |ls|
    decreases |ls|, 0
  {
    if ls == [] || ls[0].CloseLine? then Read(NoCode, ls)
    else if Simple(ls[0]).Some? then InFront(Simple(ls[0]).value, ReadLines(ls[1..]))
    else
      match ls[0]
      case IfLine(e) =>
        var b := ReadBody(ls[1..]);
        if b.Unreadable? then b
        else
          var more := ReadElse(b.rest);
          if more.BadArms? then Unreadable else InFront(CIf(Arm(e, b.c, more.arms)), ReadLines(more.rest))
      case WhileLine(e) =>
        var b := ReadBody(ls[1..]);
        if b.Unreadable? then b else InFront(CWhile(e, b.c), ReadLines(b.rest))
      case ForLine(v) =>
        var b := ReadBody(ls[1..]);
        if b.Unreadable? then b else InFront(CFor(v, b.c), ReadLines(b.rest))
      case _ => Unreadable
  }

  /** Up to the brace that closes, which is read too. */
  function ReadBody(ls: seq<Line>): (r: Reading)
    ensures r.Read? ==> |r.rest| < |ls|
    decreases |ls|, 1
  {
    var r := ReadLines(ls);
    if r.Read? && r.rest != [] && r.rest[0].CloseLine? then Read(r.c, r.rest[1..]) else Unreadable
  }

  function ReadElse(ls: seq<Line>): (r: ArmReading)
    ensures r.ReadArms? ==> |r.rest| <= |ls|
    decreases |ls|, 2
  {
    if ls == [] then ReadArms(NoElse, ls)
    else
      match ls[0]
      case ElseIfLine(e) =>
        var b := ReadBody(ls[1..]);
        if b.Unreadable? then BadArms
        else
          var more := ReadElse(b.rest);
          if more.BadArms? then BadArms else ReadArms(Arm(e, b.c, more.arms), more.rest)
      case ElseLine =>
        var b := ReadBody(ls[1..]);
        if b.Unreadable? then BadArms else ReadArms(Else(b.c), b.rest)
      case _ => ReadArms(NoElse, ls)
  }

  // ----- the reader finds what was written -----

  /** Every `if` has a condition. */
  predicate Conditional(c: CStmts) {
    match c
    case NoCode => true
    case Cons(s, rest) => StmtConditional(s) && Conditional(rest)
  }

  predicate StmtConditional(s: CStmt) {
    match s
    case CIf(arms) => arms.Arm? && ArmsConditional(arms)
    case CWhile(_, b) => Conditional(b)
    case CFor(_, b) => Conditional(b)
    case _ => true
  }

  predicate ArmsConditional(arms: CArms) {
    match arms
    case NoElse => true
    case Else(b) => Conditional(b)
    case Arm(_, b, more) => Conditional(b) && ArmsConditional(more)
  }

  /** What may follow a list of statements. */
  predicate Closes(ls: seq<Line>) {
    ls == [] || ls[0].CloseLine?
  }

  /** What may follow a statement. */
  predicate NoElseAhead(ls: seq<Line>) {
    ls == [] || (!ls[0].ElseIfLine? && !ls[0].ElseLine?)
  }

  lemma {:induction false} ReadsBack(c: CStmts, tail: seq<Line>)
    requires Conditional(c) && Closes(tail)
    ensures ReadLines(Lines(c) + tail) == Read(c, tail)
    decreases c, 1
  {
    match c
    case NoCode => assert [] + tail == tail;
    case Cons(s, rest) =>
      Associates(StmtLines(s), Lines(rest), tail);
      StartsWell(rest, tail);
      ReadsBack(rest, tail);
      StmtReadsBack(s, Lines(rest) + tail);
  }

  /** No statement begins with an `else`. */
  lemma StartsWell(c: CStmts, tail: seq<Line>)
    requires Conditional(c) && Closes(tail)
    ensures NoElseAhead(Lines(c) + tail)
  {
    if c.Cons? {
      assert StmtLines(c.first) != [];
      assert (Lines(c) + tail)[0] == StmtLines(c.first)[0];
    }
  }

  lemma {:induction false} StmtReadsBack(s: CStmt, tail: seq<Line>)
    requires StmtConditional(s) && NoElseAhead(tail)
    ensures ReadLines(StmtLines(s) + tail) == InFront(s, ReadLines(tail))
    decreases s, 1
  {
    var ls := StmtLines(s) + tail;
    match s
    case CIf(arms) => ArmReadsBack(arms.cond, arms.abody, arms.more, tail);
    case CWhile(e, b) => BodyReadsBack(WhileLine(e), b, tail);
    case CFor(v, b) => BodyReadsBack(ForLine(v), b, tail);
    case _ => assert ls[1..] == tail;
  }

  /** A body between its first line and its brace. */
  lemma {:induction false} BodyReadsBack(head: Line, b: CStmts, tail: seq<Line>)
    requires Conditional(b)
    ensures var ls := [head] + Lines(b) + [CloseLine] + tail;
            ls[0] == head && ReadBody(ls[1..]) == Read(b, tail)
    decreases b, 2
  {
    var ls := [head] + Lines(b) + [CloseLine] + tail;
    var behind := [CloseLine] + tail;
    assert ls[1..] == Lines(b) + behind;
    ReadsBack(b, behind);
    assert behind[1..] == tail;
  }

  lemma {:induction false} ArmReadsBack(e: Exp, b: CStmts, more: CArms, tail: seq<Line>)
    requires Conditional(b) && ArmsConditional(more) && NoElseAhead(tail)
    ensures ReadLines(ArmLines(Arm(e, b, more), true) + tail) == InFront(CIf(Arm(e, b, more)), ReadLines(tail))
    decreases Arm(e, b, more), 1
  {
    var behind := ArmLines(more, false) + tail;
    Associates([IfLine(e)] + Lines(b) + [CloseLine], ArmLines(more, false), tail);
    BodyReadsBack(IfLine(e), b, behind);
    ElseReadsBack(more, tail);
  }

  lemma {:induction false} ElseReadsBack(arms: CArms, tail: seq<Line>)
    requires ArmsConditional(arms) && NoElseAhead(tail)
    ensures ReadElse(ArmLines(arms, false) + tail) == ReadArms(arms, tail)
    decreases arms, 3
  {
    match arms
    case NoElse => assert [] + tail == tail;
    case Else(b) => BodyReadsBack(ElseLine, b, tail);
    case Arm(e, b, more) =>
      var behind := ArmLines(more, false) + tail;
      Associates([ElseIfLine(e)] + Lines(b) + [CloseLine], ArmLines(more, false), tail);
      BodyReadsBack(ElseIfLine(e), b, behind);
      ElseReadsBack(more, tail);
  }
}
