/** Fragments inside a finished program: relative jumps make code position independent, up to patched holes. */
module Placement {
  import opened Values
  import opened Ast
  import opened Machine
  import opened Lowering
  import opened LoweringFacts
  import opened ExprProof

  /** Where the enclosing loop patched this fragment's `break` and `continue` jumps to, if it did. */
  datatype Exits = Exits(brk: Option<int>, cont: Option<int>)

  /** The jump at index `at` as it stands in the finished code: unpatched, it has operand 0. */
  function Hole(target: Option<int>, at: int): Instr {
    match target
    case None => Op(JMP)
    case Some(t) => Op1(JMP, t - (at + 1))
  }

  /** The fragment's code with its holes as the enclosing loop left them. */
  function Fill(f: Frag, x: Exits, at: int): (r: seq<Instr>)
    ensures |r| == |f.code|
  {
    var a := if 0 <= f.brk < |f.code| then f.code[f.brk := Hole(x.brk, at + f.brk)] else f.code;
    if 0 <= f.cont < |f.code| then a[f.cont := Hole(x.cont, at + f.cont)] else a
  }

  ghost predicate Placed(p: Program, at: int, f: Frag, x: Exits) {
    CodeAt(p, at, Fill(f, x, at))
  }

  /** The exits of a fragment followed by another one: a later jump of the same kind takes the patch. */
  function ExitsBefore(later: Frag, x: Exits): Exits {
    Exits(if later.brk >= 0 then None else x.brk, if later.cont >= 0 then None else x.cont)
  }

  lemma FillAppend(a: Frag, b: Frag, x: Exits, at: int)
    requires WellHoled(a) && WellHoled(b)
    ensures Fill(Append(a, b), x, at) == Fill(a, ExitsBefore(b, x), at) + Fill(b, x, at + |a.code|)
  {
  }

  lemma PlacedAppend(p: Program, at: int, a: Frag, b: Frag, x: Exits)
    requires Placed(p, at, Append(a, b), x) && WellHoled(a) && WellHoled(b)
    ensures Placed(p, at, a, ExitsBefore(b, x)) && Placed(p, at + |a.code|, b, x)
  {
    FillAppend(a, b, x, at);
    CodeSplit(p, at, Fill(a, ExitsBefore(b, x), at), Fill(b, x, at + |a.code|));
  }

  // ----- loops -----

  function BodyExits(l: LoopParts, at: int): Exits {
    Exits(Some(at + LoopEnd(l)), Some(at + ContinueAt(l)))
  }

  /** Patching a loop is filling its body's holes; nothing else changes. */
  lemma LoopFilled(l: LoopParts, at: int)
    requires WellHoled(l.body)
    ensures LoopCode(l) == (l.init + l.test + ExitJump(l) + l.pre) + Fill(l.body, BodyExits(l, at), at + BodyAt(l))
                           + (l.step + BackJump(l))
  {
    var front := l.init + l.test + ExitJump(l) + l.pre;
    LastGrouped(front + l.body.code, l.step, BackJump(l));
    FilledParts(front, l.body, l.step + BackJump(l), LoopEnd(l), ContinueAt(l), at);
  }

  lemma LastGrouped(a: seq<Instr>, b: seq<Instr>, c: seq<Instr>)
    ensures a + b + c == a + (b + c)
  {
  }

  lemma FilledParts(front: seq<Instr>, body: Frag, back: seq<Instr>, end: int, cont: int, at: int)
    requires WellHoled(body)
    ensures PatchBody(front + body.code + back, |front|, body, end, cont)
         == front + Fill(body, Exits(Some(at + end), Some(at + cont)), at + |front|) + back
  {
  }

  ghost predicate LoopAt(p: Program, at: int, l: LoopParts) {
    CodeAt(p, at, LoopCode(l)) && WellHoled(l.body)
  }

  /** Where everything of a loop lies once its code is in place. */
  lemma PlaceLoop(p: Program, at: int, l: LoopParts)
    requires LoopAt(p, at, l)
    ensures CodeAt(p, at, l.init + l.test + ExitJump(l) + l.pre)
    ensures Placed(p, at + BodyAt(l), l.body, BodyExits(l, at))
    ensures CodeAt(p, at + StepAt(l), l.step + BackJump(l))
    ensures |LoopCode(l)| == LoopEnd(l)
  {
    LoopFilled(l, at);
    var front := l.init + l.test + ExitJump(l) + l.pre;
    var body := Fill(l.body, BodyExits(l, at), at + BodyAt(l));
    CodeSplit(p, at, front + body, l.step + BackJump(l));
    CodeSplit(p, at, front, body);
  }

  lemma PlaceFront(p: Program, at: int, l: LoopParts)
    requires LoopAt(p, at, l)
    ensures CodeAt(p, at, l.init)
    ensures CodeAt(p, at + |l.init|, l.test)
    ensures CodeAt(p, at + |l.init| + |l.test|, ExitJump(l))
    ensures CodeAt(p, at + |l.init| + |l.test| + ExitLen(l), l.pre)
  {
    PlaceLoop(p, at, l);
    CodeSplit(p, at, l.init + l.test + ExitJump(l), l.pre);
    CodeSplit(p, at, l.init + l.test, ExitJump(l));
    CodeSplit(p, at, l.init, l.test);
  }

  lemma PlaceBack(p: Program, at: int, l: LoopParts)
    requires LoopAt(p, at, l)
    ensures CodeAt(p, at + StepAt(l), l.step)
    ensures CodeAt(p, at + StepAt(l) + |l.step|, BackJump(l))
  {
    PlaceLoop(p, at, l);
    CodeSplit(p, at + StepAt(l), l.step, BackJump(l));
  }

  // ----- arms of an `if` -----

  lemma JoinArmPieces(test: seq<Instr>, body: Frag, more: Frag, exit: seq<Instr>)
    requires exit == ArmExit(body.code, |more.code|)
    ensures JoinArm(test, body, more)
         == Append(Append(Plain(test + [Op1(JMP_IF_NOT, |body.code| + |exit|)]), body), Append(Plain(exit), more))
  {
  }

  /** Where everything of one arm lies: test, jump, body, exit jump, remaining arms. */
  lemma PlacePieces(p: Program, at: int, f: Frag, test: seq<Instr>, jump: Instr, body: Frag, exit: seq<Instr>, more: Frag,
                    x: Exits)
    requires Placed(p, at, f, x) && f == Append(Append(Plain(test + [jump]), body), Append(Plain(exit), more))
    requires WellHoled(body) && WellHoled(more)
    ensures var b := at + |test| + 1;
            && CodeAt(p, at, test)
            && CodeAt(p, at + |test|, [jump])
            && Placed(p, b, body, ExitsBefore(more, x))
            && CodeAt(p, b + |body.code|, exit)
            && Placed(p, b + |body.code| + |exit|, more, x)
  {
    var front, rest := Plain(test + [jump]), Append(Plain(exit), more);
    AppendWell(front, body);
    AppendWell(Plain(exit), more);
    PlacedAppend(p, at, Append(front, body), rest, x);
    PlaceFrontHalf(p, at, test, jump, body, ExitsBefore(more, x));
    PlaceBackHalf(p, at + |test| + 1 + |body.code|, exit, more, x);
  }

  lemma PlaceFrontHalf(p: Program, at: int, test: seq<Instr>, jump: Instr, body: Frag, x: Exits)
    requires Placed(p, at, Append(Plain(test + [jump]), body), x) && WellHoled(body)
    ensures CodeAt(p, at, test) && CodeAt(p, at + |test|, [jump]) && Placed(p, at + |test| + 1, body, x)
  {
    PlacedAppend(p, at, Plain(test + [jump]), body, x);
    CodeSplit(p, at, test, [jump]);
  }

  lemma PlaceBackHalf(p: Program, at: int, exit: seq<Instr>, more: Frag, x: Exits)
    requires Placed(p, at, Append(Plain(exit), more), x) && WellHoled(more)
    ensures CodeAt(p, at, exit) && Placed(p, at + |exit|, more, x)
  {
    PlacedAppend(p, at, Plain(exit), more, x);
  }

  lemma JoinArmLength(test: seq<Instr>, body: Frag, more: Frag)
    ensures |JoinArm(test, body, more).code|
         == |test| + 1 + |body.code| + |ArmExit(body.code, |more.code|)| + |more.code|
  {
  }
}
