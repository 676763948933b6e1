/**
 * The generator as it is written: it appends lines of C and keeps a stack of scopes. The lines are those of the
 * program that Ownership describes; what they mean is that of the source.
 */
module CCodeGenerator {
  import opened Values
  import opened CProgram
  import opened Ownership
  import opened CLines
  import opened EmittedC

  class CCodeGenerator {
    var code: seq<Line>
    var scopeStack: Scopes

    constructor ()
      ensures code == [] && scopeStack == []
    {
      code, scopeStack := [], [];
    }

    method Emit(line: Line)
      modifies `code
      ensures code == old(code) + [line]
    {
      code := code + [line];
    }

    method GenerateStatement(s: Stmt)
      requires scopeStack != []
      modifies this
      ensures code == old(code) + Lines(GenStmt(s, old(scopeStack))) && scopeStack == After(s, old(scopeStack))
      decreases s, 2
    {
      match s
      case Let(x, typ, init) => GenerateLet(x, typ, init);
      case Set(y, e) => Emit(AssignLine(y, e));
      case Eval(e) => Emit(EvalLine(e));
      case Return(ret) => GenerateReturn(ret);
      case Break => Emit(BreakLine);
      case Continue => Emit(ContinueLine);
      case If(arms) => GenerateIf(arms);
      case Block(b) => GenerateBody(b);
      case For(v, range, b) => GenerateFor(v, b);
      case While(e, b) => GenerateWhile(e, b);
    }

    method GenerateLet(x: string, typ: string, init: Option<Exp>)
      requires scopeStack != []
      modifies this
      ensures code == old(code) + Lines(GenLet(x, typ, init))
      ensures scopeStack == After(Let(x, typ, init), old(scopeStack))
    {
      LetLines(x, typ, init);
      if NeedsHeapAlloc(typ) {
        if Allocates(typ, init) {
          Emit(AllocLine(x));
        } else {
          Emit(BorrowLine(x, init));
        }
        var k := |scopeStack| - 1;
        scopeStack := scopeStack[k := scopeStack[k] + [x]];
      } else {
        Emit(DeclareLine(x, if init.Some? then init.value else CONSTANT));
      }
    }

    method GenerateReturn(ret: Option<Exp>)
      modifies `code
      ensures code == old(code) + Lines(GenStmt(Return(ret), scopeStack))
    {
      var returned := ReturnSkips(ret);
      var stack := scopeStack;
      var scopes: seq<seq<string>> := [];
      while stack != []
        invariant scopeStack == stack + Reversed(scopes) && code == old(code)
        decreases |stack|
      {
        assert stack == stack[..|stack| - 1] + [stack[|stack| - 1]];
        ReversedPush(scopes, stack[|stack| - 1]);
        scopes := scopes + [stack[|stack| - 1]];
        stack := stack[..|stack| - 1];
      }
      assert scopeStack == Reversed(scopes);
      EmitAllFrees(scopes, returned);
      ReturnLines(old(code), ret, scopeStack);
      Emit(ReturnLine(ret));
    }

    /** The frees of the scopes in the order given, innermost first. */
    method EmitAllFrees(scopes: seq<seq<string>>, skip: Option<string>)
      modifies `code
      ensures code == old(code) + Lines(FreesAll(Reversed(scopes), skip))
    {
      var i := 0;
      assert scopes[i..] == scopes;
      while i < |scopes|
        invariant 0 <= i <= |scopes|
        invariant old(code) + Lines(FreesAll(Reversed(scopes), skip)) == code + Lines(FreesAll(Reversed(scopes[i..]), skip))
      {
        ScopeFreed(code, scopes[i..], skip);
        assert scopes[i..][1..] == scopes[i + 1..];
        EmitFrees(scopes[i], skip);
        i := i + 1;
      }
      assert scopes[i..] == [];
    }

    /** The frees of one scope, in order of declaration, leaving out the variable that is returned. */
    method EmitFrees(vars: seq<string>, skip: Option<string>)
      modifies `code
      ensures code == old(code) + Lines(Frees(vars, skip))
    {
      var i := 0;
      assert vars[0..] == vars;
      while i < |vars|
        invariant 0 <= i <= |vars|
        invariant old(code) + Lines(Frees(vars, skip)) == code + Lines(Frees(vars[i..], skip))
      {
        FreesLines(vars[i..], skip);
        assert vars[i..][1..] == vars[i + 1..];
        if Some(vars[i]) != skip {
          Emit(FreeLine(vars[i]));
        }
        i := i + 1;
      }
      assert vars[i..] == [];
    }

    method EmitScopeCleanup()
      modifies `code
      ensures code == old(code) + Lines(Frees(Top(scopeStack), None))
    {
      if scopeStack != [] {
        EmitFrees(scopeStack[|scopeStack| - 1], None);
      }
    }

    method GenerateStatements(ss: Stmts)
      requires scopeStack != []
      modifies this
      ensures code == old(code) + Lines(GenAll(ss, old(scopeStack))) && scopeStack == AfterAll(ss, old(scopeStack))
      decreases ss, 0
    {
      var rest := ss;
      while rest.Then?
        invariant rest == ss || rest < ss
        invariant scopeStack != [] && AfterAll(rest, scopeStack) == AfterAll(ss, old(scopeStack))
        invariant old(code) + Lines(GenAll(ss, old(scopeStack))) == code + Lines(GenAll(rest, scopeStack))
        decreases rest
      {
        ThenLines(code, rest.first, rest.rest, scopeStack);
        GenerateStatement(rest.first);
        rest := rest.rest;
      }
    }

    /** A block, or the body of a branch or loop: its scope is pushed and popped around its statements. */
    method GenerateBody(b: Stmts)
      modifies this
      ensures code == old(code) + Lines(GenBody(b, old(scopeStack))) && scopeStack == old(scopeStack)
      decreases b, 1
    {
      BodyLines(code, b, scopeStack);
      scopeStack := scopeStack + [[]];
      GenerateStatements(b);
      EmitScopeCleanup();
      scopeStack := scopeStack[..|scopeStack| - 1];
    }

    method GenerateIf(arms: Arms)
      modifies this
      ensures code == old(code) + Lines(GenStmt(If(arms), old(scopeStack))) && scopeStack == old(scopeStack)
      decreases arms, 1
    {
      if !arms.When? {
        return;
      }
      LinesOne(CIf(GenArms(arms, scopeStack)));
      var rest := arms;
      var first := true;
      while rest.When?
        invariant rest == arms || rest < arms
        invariant scopeStack == old(scopeStack)
        invariant old(code) + ArmLines(GenArms(arms, scopeStack), true) == code + ArmLines(GenArms(rest, scopeStack), first)
        invariant first ==> rest.When?
        decreases rest
      {
        GenerateArm(rest.guard, rest.abody, rest.more, first);
        first := false;
        rest := rest.more;
      }
      if rest.Otherwise? {
        GenerateElse(rest.orelse);
      }
    }

    method GenerateElse(b: Stmts)
      modifies this
      ensures code == old(code) + ArmLines(Else(GenBody(b, scopeStack)), false) && scopeStack == old(scopeStack)
      decreases b, 2
    {
      Emit(ElseLine);
      GenerateBody(b);
      Emit(CloseLine);
    }

    /** One condition and its body. */
    method GenerateArm(guard: Exp, b: Stmts, ghost more: Arms, first: bool)
      modifies this
      ensures code + ArmLines(GenArms(more, scopeStack), false)
           == old(code) + ArmLines(GenArms(When(guard, b, more), scopeStack), first)
      ensures scopeStack == old(scopeStack)
      decreases b, 2
    {
      ghost var was := code;
      Emit(if first then IfLine(guard) else ElseIfLine(guard));
      GenerateBody(b);
      Emit(CloseLine);
      ArmDone(was, guard, GenBody(b, scopeStack), GenArms(more, scopeStack), first);
    }

    /** The loop's own scope lies around its body's. */
    method GenerateFor(v: string, b: Stmts)
      modifies this
      ensures code == old(code) + Lines(One(CFor(v, GenLoopBody(b, old(scopeStack))))) && scopeStack == old(scopeStack)
      decreases b, 2
    {
      LoopLines(code, ForLine(v), CFor(v, GenLoopBody(b, scopeStack)), b, scopeStack);
      scopeStack := scopeStack + [[]];
      Emit(ForLine(v));
      GenerateBody(b);
      EmitScopeCleanup();
      Emit(CloseLine);
      scopeStack := scopeStack[..|scopeStack| - 1];
    }

    method GenerateWhile(guard: Exp, b: Stmts)
      modifies this
      ensures code == old(code) + Lines(One(CWhile(guard, GenLoopBody(b, old(scopeStack))))) && scopeStack == old(scopeStack)
      decreases b, 2
    {
      LoopLines(code, WhileLine(guard), CWhile(guard, GenLoopBody(b, scopeStack)), b, scopeStack);
      scopeStack := scopeStack + [[]];
      Emit(WhileLine(guard));
      GenerateBody(b);
      EmitScopeCleanup();
      Emit(CloseLine);
      scopeStack := scopeStack[..|scopeStack| - 1];
    }

    method GenerateFunction(f: FunctionDecl)
      requires scopeStack == []
      modifies this
      ensures code == old(code) + Lines(GenFunction(f)) && scopeStack == []
      ensures old(code) <= code && Mean(code[|old(code)|..], f)
    {
      ghost var before := code;
      FunctionLines(code, f);
      scopeStack := [[]];
      GenerateStatements(f.body);
      EmitScopeCleanup();
      if f.name == "main" {
        Emit(ReturnLine(Some(CONSTANT)));
      }
      scopeStack := scopeStack[..|scopeStack| - 1];
      LinesMean(f);
      assert code == before + Lines(GenFunction(f));
      assert code[|before|..] == Lines(GenFunction(f));
    }
  }

  // ----- what the loops above go through -----

  lemma LetLines(x: string, typ: string, init: Option<Exp>)
    ensures Lines(GenLet(x, typ, init))
         == [if Allocates(typ, init) then AllocLine(x)
             else if NeedsHeapAlloc(typ) then BorrowLine(x, init)
             else DeclareLine(x, if init.Some? then init.value else CONSTANT)]
    ensures Allocates(typ, init) ==> NeedsHeapAlloc(typ)
  {
  }

  lemma FreesLines(vars: seq<string>, skip: Option<string>)
    requires vars != []
    ensures Lines(Frees(vars, skip)) == (if Some(vars[0]) == skip then [] else [FreeLine(vars[0])]) + Lines(Frees(vars[1..], skip))
  {
  }

  lemma ThenLines(code: seq<Line>, s: Stmt, rest: Stmts, scopes: Scopes)
    ensures code + Lines(GenAll(Then(s, rest), scopes))
         == code + Lines(GenStmt(s, scopes)) + Lines(GenAll(rest, After(s, scopes)))
  {
    LinesAppend(GenStmt(s, scopes), GenAll(rest, After(s, scopes)));
    Associates(code, Lines(GenStmt(s, scopes)), Lines(GenAll(rest, After(s, scopes))));
  }

  lemma Fourfold(a: seq<Line>, b: seq<Line>, c: seq<Line>, d: seq<Line>, e: seq<Line>)
    ensures a + (b + (c + d) + e) == a + b + c + d + e
  {
  }

  lemma BodyLines(code: seq<Line>, b: Stmts, scopes: Scopes)
    ensures var inner := scopes + [[]];
            && code + Lines(GenBody(b, scopes)) == code + Lines(GenAll(b, inner)) + Lines(Frees(Top(AfterAll(b, inner)), None))
            && AfterAll(b, inner) != [] && AfterAll(b, inner)[..|AfterAll(b, inner)| - 1] == scopes
  {
    var inner := scopes + [[]];
    LinesAppend(GenAll(b, inner), Frees(Top(AfterAll(b, inner)), None));
    Associates(code, Lines(GenAll(b, inner)), Lines(Frees(Top(AfterAll(b, inner)), None)));
    AfterAllPrefix(b, inner);
  }

  lemma LoopLines(code: seq<Line>, head: Line, loop: CStmt, b: Stmts, scopes: Scopes)
    requires StmtLines(loop) == [head] + Lines(GenLoopBody(b, scopes)) + [CloseLine]
    ensures var own := scopes + [[]];
            && code + Lines(One(loop))
               == code + [head] + Lines(GenBody(b, own)) + Lines(Frees(Top(own), None)) + [CloseLine]
            && own[..|own| - 1] == scopes
  {
    var own := scopes + [[]];
    LinesOne(loop);
    LinesAppend(GenBody(b, own), Frees(Top(own), None));
    Fourfold(code, [head], Lines(GenBody(b, own)), Lines(Frees(Top(own), None)), [CloseLine]);
  }

  lemma FunctionLines(code: seq<Line>, f: FunctionDecl)
    ensures var last := AfterAll(f.body, [[]]);
            && code + Lines(GenFunction(f)) == code + Lines(GenAll(f.body, [[]])) + Lines(Frees(Top(last), None))
                                               + (if f.name == "main" then [ReturnLine(Some(CONSTANT))] else [])
            && last != [] && last[..|last| - 1] == []
  {
    var last := AfterAll(f.body, [[]]);
    var body, frees := GenAll(f.body, [[]]), Frees(Top(last), None);
    LinesAppend(body, frees);
    LinesAppend(Append(body, frees), End(f.name));
    LinesOne(CReturn(Some(CONSTANT)));
    AfterAllPrefix(f.body, [[]]);
    Associates(code, Lines(body) + Lines(frees), Lines(End(f.name)));
    Associates(code, Lines(body), Lines(frees));
  }

  lemma ReturnLines(code: seq<Line>, ret: Option<Exp>, scopes: Scopes)
    ensures code + Lines(GenStmt(Return(ret), scopes))
         == code + Lines(FreesAll(scopes, ReturnSkips(ret))) + [ReturnLine(ret)]
  {
    var frees := FreesAll(scopes, ReturnSkips(ret));
    LinesAppend(frees, One(CReturn(ret)));
    LinesOne(CReturn(ret));
    Associates(code, Lines(frees), [ReturnLine(ret)]);
  }

  /** The frees of the first scope of the list, then those of the others. */
  lemma ScopeFreed(code: seq<Line>, scopes: seq<seq<string>>, skip: Option<string>)
    requires scopes != []
    ensures code + Lines(FreesAll(Reversed(scopes), skip))
         == code + Lines(Frees(scopes[0], skip)) + Lines(FreesAll(Reversed(scopes[1..]), skip))
  {
    ReversedHead(scopes);
    var a, b := Frees(scopes[0], skip), FreesAll(Reversed(scopes[1..]), skip);
    LinesAppend(a, b);
    Associates(code, Lines(a), Lines(b));
  }

  function Reversed(s: seq<seq<string>>): (r: seq<seq<string>>)
    ensures |r| == |s|
  {
    if s == [] then [] else Reversed(s[1..]) + [s[0]]
  }

  lemma {:induction false} ReversedPush(s: seq<seq<string>>, x: seq<string>)
    ensures Reversed(s + [x]) == [x] + Reversed(s)
    decreases |s|
  {
    if s == [] {
      assert [] + [x] == [x] && [x][1..] == [];
    } else {
      assert (s + [x])[1..] == s[1..] + [x];
      ReversedPush(s[1..], x);
      assert [x] + Reversed(s[1..]) + [s[0]] == [x] + (Reversed(s[1..]) + [s[0]]);
    }
  }

  lemma ReversedHead(s: seq<seq<string>>)
    requires s != []
    ensures var r := Reversed(s); r[|r| - 1] == s[0] && r[..|r| - 1] == Reversed(s[1..])
  {
  }

  lemma ArmDone(was: seq<Line>, e: Exp, b: CStmts, more: CArms, first: bool)
    ensures was + ArmLines(Arm(e, b, more), first)
         == was + [if first then IfLine(e) else ElseIfLine(e)] + Lines(b) + [CloseLine] + ArmLines(more, false)
  {
    var head := [if first then IfLine(e) else ElseIfLine(e)];
    Associates(was, head + Lines(b) + [CloseLine], ArmLines(more, false));
    Associates(was, head + Lines(b), [CloseLine]);
    Associates(was, head, Lines(b));
  }
}
