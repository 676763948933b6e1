/** What the lines emitted are worth: a reader of C finds in them a program that does what the source says and frees what it owns. */
module EmittedC {
  import opened Values
  import opened CProgram
  import opened Ownership
  import opened CLines
  import opened CMeaning
  import opened Selection

  // ----- every `if` that is emitted has a condition -----

  lemma {:induction false} AppendConditional(a: CStmts, b: CStmts)
    requires Conditional(a) && Conditional(b)
    ensures Conditional(Append(a, b))
    decreases a
  {
    if a.Cons? {
      AppendConditional(a.rest, b);
    }
  }

  lemma {:induction false} FreesConditional(vars: seq<string>, skip: Option<string>)
    ensures Conditional(Frees(vars, skip))
    decreases |vars|
  {
    if vars != [] {
      FreesConditional(vars[1..], skip);
    }
  }

  lemma {:induction false} FreesAllConditional(scopes: Scopes, skip: Option<string>)
    ensures Conditional(FreesAll(scopes, skip))
    decreases |scopes|
  {
    if scopes != [] {
      var k := |scopes| - 1;
      FreesConditional(scopes[k], skip);
      FreesAllConditional(scopes[..k], skip);
      AppendConditional(Frees(scopes[k], skip), FreesAll(scopes[..k], skip));
    }
  }

  lemma ThenFreesConditional(c: CStmts, vars: seq<string>)
    requires Conditional(c)
    ensures Conditional(Append(c, Frees(vars, None)))
  {
    FreesConditional(vars, None);
    AppendConditional(c, Frees(vars, None));
  }

  lemma {:induction false} StmtConditionals(s: Stmt, scopes: Scopes)
    ensures Conditional(GenStmt(s, scopes))
    decreases s, 1
  {
    match s
    case Return(ret) =>
      FreesAllConditional(scopes, ReturnSkips(ret));
      AppendConditional(FreesAll(scopes, ReturnSkips(ret)), One(CReturn(ret)));
    case If(arms) => ArmsConditionals(arms, scopes);
    case Block(b) => BodyConditionals(b, scopes);
    case For(_, _, b) => LoopConditionals(b, scopes);
    case While(_, b) => LoopConditionals(b, scopes);
    case _ =>
  }

  lemma {:induction false} AllConditionals(ss: Stmts, scopes: Scopes)
    ensures Conditional(GenAll(ss, scopes))
    decreases ss, 1
  {
    if ss.Then? {
      StmtConditionals(ss.first, scopes);
      AllConditionals(ss.rest, After(ss.first, scopes));
      AppendConditional(GenStmt(ss.first, scopes), GenAll(ss.rest, After(ss.first, scopes)));
    }
  }

  lemma {:induction false} BodyConditionals(b: Stmts, scopes: Scopes)
    ensures Conditional(GenBody(b, scopes))
    decreases b, 2
  {
    AllConditionals(b, scopes + [[]]);
    ThenFreesConditional(GenAll(b, scopes + [[]]), Top(AfterAll(b, scopes + [[]])));
  }

  lemma {:induction false} LoopConditionals(b: Stmts, scopes: Scopes)
    ensures Conditional(GenLoopBody(b, scopes))
    decreases b, 3
  {
    BodyConditionals(b, scopes + [[]]);
    ThenFreesConditional(GenBody(b, scopes + [[]]), Top(scopes + [[]]));
  }

  lemma {:induction false} ArmsConditionals(arms: Arms, scopes: Scopes)
    ensures ArmsConditional(GenArms(arms, scopes))
    decreases arms, 1
  {
    match arms
    case NoMore =>
    case Otherwise(b) => BodyConditionals(b, scopes);
    case When(_, b, more) =>
      BodyConditionals(b, scopes);
      ArmsConditionals(more, scopes);
  }

  // ----- in which order frees are emitted -----

  /** The variables of all scopes, the innermost scope first, each scope in order of declaration. */
  function FreeOrder(scopes: Scopes): seq<string> {
    if scopes == [] then [] else scopes[|scopes| - 1] + FreeOrder(scopes[..|scopes| - 1])
  }

  /** How many variables are declared in scopes inside scope i. */
  function Inside(scopes: Scopes, i: nat): nat
    requires i < |scopes|
  {
    if i == |scopes| - 1 then 0 else |scopes[|scopes| - 1]| + Inside(scopes[..|scopes| - 1], i)
  }

  /** Variable j of scope i comes after those of the scopes inside i, and after the j before it in its own. */
  lemma {:induction false} FreeOrderAt(scopes: Scopes, i: nat, j: nat)
    requires i < |scopes| && j < |scopes[i]|
    ensures Inside(scopes, i) + j < |FreeOrder(scopes)| && FreeOrder(scopes)[Inside(scopes, i) + j] == scopes[i][j]
    decreases |scopes|
  {
    if i < |scopes| - 1 {
      FreeOrderAt(scopes[..|scopes| - 1], i, j);
    }
  }

  /** What is freed, in order: everything of these but the name skipped. */
  lemma {:induction false} FreesSelect(vars: seq<string>, skip: Option<string>) returns (idx: seq<nat>)
    ensures Enumerates(idx, set k: nat | k < |vars| && Some(vars[k]) != skip) && |Lines(Frees(vars, skip))| == |idx|
    ensures forall m :: 0 <= m < |idx| ==> idx[m] < |vars| && Lines(Frees(vars, skip))[m] == FreeLine(vars[idx[m]])
    decreases |vars|
  {
    if vars == [] {
      idx := [];
    } else {
      var k := |vars| - 1;
      var most := vars[..k];
      idx := FreesSelect(most, skip);
      FreesMore(most, vars[k], skip);
      assert vars == most + [vars[k]];
      var before := set j: nat | j < |most| && Some(most[j]) != skip;
      var after := set j: nat | j < |vars| && Some(vars[j]) != skip;
      assert forall j: nat :: j < k ==> most[j] == vars[j];
      if Some(vars[k]) != skip {
        assert after == before + {k};
        EnumeratesMore(idx, before, k);
        idx := idx + [k];
      } else {
        assert after == before;
      }
    }
  }

  lemma {:induction false} FreesMore(vars: seq<string>, x: string, skip: Option<string>)
    ensures Lines(Frees(vars + [x], skip)) == Lines(Frees(vars, skip)) + if Some(x) == skip then [] else [FreeLine(x)]
    decreases |vars|
  {
    if vars == [] {
      assert [] + [x] == [x] && [x][1..] == [];
    } else {
      assert (vars + [x])[1..] == vars[1..] + [x];
      FreesMore(vars[1..], x, skip);
    }
  }

  lemma {:induction false} FreesJoin(a: seq<string>, b: seq<string>, skip: Option<string>)
    ensures Append(Frees(a, skip), Frees(b, skip)) == Frees(a + b, skip)
    decreases |a|
  {
    if a == [] {
      assert a + b == b;
    } else {
      assert (a + b)[1..] == a[1..] + b;
      FreesJoin(a[1..], b, skip);
    }
  }

  lemma {:induction false} FreesAllInOrder(scopes: Scopes, skip: Option<string>)
    ensures FreesAll(scopes, skip) == Frees(FreeOrder(scopes), skip)
    decreases |scopes|
  {
    if scopes != [] {
      FreesAllInOrder(scopes[..|scopes| - 1], skip);
      FreesJoin(scopes[|scopes| - 1], FreeOrder(scopes[..|scopes| - 1]), skip);
    }
  }

  /** A return frees every variable in scope but the one returned, innermost scope first, and only then returns. */
  lemma ReturnFrees(ret: Option<Exp>, scopes: Scopes) returns (idx: seq<nat>)
    ensures var order := FreeOrder(scopes);
            Enumerates(idx, set k: nat | k < |order| && !(ret.Some? && ret.value == Ident(order[k])))
    ensures var lines := Lines(GenStmt(Return(ret), scopes));
            && |lines| == |idx| + 1 && lines[|idx|] == ReturnLine(ret)
            && forall m :: 0 <= m < |idx| ==> idx[m] < |FreeOrder(scopes)| && lines[m] == FreeLine(FreeOrder(scopes)[idx[m]])
  {
    var skip, order := ReturnSkips(ret), FreeOrder(scopes);
    idx := FreesSelect(order, skip);
    assert (set k: nat | k < |order| && Some(order[k]) != skip)
        == set k: nat | k < |order| && !(ret.Some? && ret.value == Ident(order[k]));
    FreesAllInOrder(scopes, skip);
    LinesAppend(FreesAll(scopes, skip), One(CReturn(ret)));
    LinesOne(CReturn(ret));
  }

  // ----- one function -----

  /** A reader finds exactly the program that was written. */
  lemma FunctionReads(f: FunctionDecl)
    ensures ReadLines(Lines(GenFunction(f))) == Read(GenFunction(f), [])
  {
    AllConditionals(f.body, [[]]);
    ThenFreesConditional(GenAll(f.body, [[]]), Top(AfterAll(f.body, [[]])));
    AppendConditional(Append(GenAll(f.body, [[]]), Frees(Top(AfterAll(f.body, [[]])), None)), End(f.name));
    ReadsBack(GenFunction(f), []);
    assert Lines(GenFunction(f)) + [] == Lines(GenFunction(f));
  }

  /** The lines are a program that does, on every path, what the source of f says. */
  ghost predicate Mean(lines: seq<Line>, f: FunctionDecl) {
    var r := ReadLines(lines);
    r.Read? && r.rest == [] && forall ch {:trigger FollowFunction(f, ch)} :: DoesAll(r.c, ch) == FollowFunction(f, ch)
  }

  lemma LinesMean(f: FunctionDecl)
    ensures Mean(Lines(GenFunction(f)), f)
  {
    FunctionReads(f);
    forall ch ensures DoesAll(GenFunction(f), ch) == FollowFunction(f, ch) {
      FunctionMeans(f, ch);
    }
  }

  // ----- whole programs -----

  /** The lines of every function. */
  type Texts = map<string, seq<Line>>

  /** The program in them. */
  function CodeIn(texts: Texts): Code {
    map f | f in texts :: var r := ReadLines(texts[f]); if r.Read? then r.c else NoCode
  }

  /** The texts are what the generator emits for each function. */
  ghost predicate Emitted(p: Program, texts: Texts) {
    texts.Keys == p.Keys && forall f :: f in p ==> texts[f] == Lines(GenFunction(p[f].f))
  }

  lemma CodeRead(p: Program, texts: Texts)
    requires Emitted(p, texts)
    ensures CodeIn(texts) == CodeOf(p)
  {
    forall f | f in p ensures CodeIn(texts)[f] == CodeOf(p)[f] {
      FunctionReads(p[f].f);
    }
  }

  /**
   * Ownership soundness of what is emitted: as read back from its lines, no function of a fine program frees wrongly or
   * reads what has been freed, on any path; when it ends, everything that it and the functions it called allocated has
   * been freed exactly once, except the object it returns.
   */
  lemma EmittedOwns(p: Program, gives: map<string, Gives>, texts: Texts, f: string, ch: seq<bool>)
    requires FineProgram(p, gives) && Emitted(p, texts) && f in p
    ensures match Run(CodeIn(texts), CodeIn(texts)[f], START, ch)
            case Fell(m, _) => Settled(START, m, {}) && gives[f] == NoPointer
            case Returned(m, v, _) => Settled(START, m, KeptBy(v)) && (KeptBy(v) != {} <==> gives[f] == AnObject)
            case Undecided => true
            case _ => false
  {
    CodeRead(p, texts);
    FunctionOwns(p, gives, f, ch);
  }
}
