/** Which programs the ownership theorems are about: two classes told by what the text contains. */
module FinePrograms {
  import opened Values
  import opened CProgram
  import opened Ownership

  // ----- types -----

  /** A type contains a text if that text stands somewhere in it. */
  lemma {:induction false} ContainsIs(t: string, s: string)
    ensures Contains(t, s) <==> exists k :: 0 <= k <= |t| - |s| && t[k..][..|s|] == s
    decreases |t|
  {
    if |t| >= |s| && t[..|s|] == s {
      assert t[0..] == t;
    } else if |t| >= |s| && t != [] {
      ContainsIs(t[1..], s);
      if Contains(t[1..], s) {
        var k :| 0 <= k <= |t[1..]| - |s| && t[1..][k..][..|s|] == s;
        assert t[1..][k..] == t[k + 1..];
      }
      if k :| 0 <= k <= |t| - |s| && t[k..][..|s|] == s {
        assert k > 0 by {
          assert t[0..] == t;
        }
        assert t[1..][k - 1..] == t[k..];
      }
    }
  }

  // ----- what a text contains -----

  function Parts(s: Stmt): set<Stmt> {
    {s} + match s
          case If(arms) => ArmsParts(arms)
          case Block(b) => AllParts(b)
          case For(_, _, b) => AllParts(b)
          case While(_, b) => AllParts(b)
          case _ => {}
  }

  function AllParts(ss: Stmts): set<Stmt> {
    match ss
    case Empty => {}
    case Then(s, rest) => Parts(s) + AllParts(rest)
  }

  function ArmsParts(arms: Arms): set<Stmt> {
    match arms
    case NoMore => {}
    case Otherwise(b) => AllParts(b)
    case When(_, b, more) => AllParts(b) + ArmsParts(more)
  }

  /** The same, but not what is inside a loop. */
  function Outer(s: Stmt): set<Stmt> {
    {s} + match s
          case If(arms) => ArmsOuter(arms)
          case Block(b) => AllOuter(b)
          case _ => {}
  }

  function AllOuter(ss: Stmts): set<Stmt> {
    match ss
    case Empty => {}
    case Then(s, rest) => Outer(s) + AllOuter(rest)
  }

  function ArmsOuter(arms: Arms): set<Stmt> {
    match arms
    case NoMore => {}
    case Otherwise(b) => AllOuter(b)
    case When(_, b, more) => AllOuter(b) + ArmsOuter(more)
  }

  // ----- programs without pointers -----

  /** Nothing is declared on the heap. */
  predicate NoneOnHeap(parts: set<Stmt>) {
    forall p <- parts :: p.Let? ==> p.typ != "string" && !Contains(p.typ, "[") && !Contains(p.typ, "tensor")
  }

  predicate NoJump(parts: set<Stmt>) {
    Break !in parts && Continue !in parts
  }

  /** No function gives a pointer, and no name is one. */
  predicate NoPointers(heap: Heap) {
    heap.owning == {} && heap.empty == {} && heap.result == NoPointer && forall f <- heap.gives :: heap.gives[f] == NoPointer
  }

  predicate Hollow(scopes: Scopes) {
    forall i :: 0 <= i < |scopes| ==> scopes[i] == []
  }

  lemma {:induction false} HollowActive(scopes: Scopes)
    requires Hollow(scopes)
    ensures Active(scopes) == []
    decreases |scopes|
  {
    if scopes != [] {
      HollowActive(scopes[..|scopes| - 1]);
    }
  }

  lemma {:induction false} StmtPlain(s: Stmt, scopes: Scopes, heap: Heap, loop: Option<nat>)
    requires NoneOnHeap(Parts(s)) && NoPointers(heap) && Hollow(scopes) && (loop.Some? || NoJump(Outer(s)))
    ensures Fine(s, scopes, heap, loop) && After(s, scopes) == scopes
    decreases s, 1
  {
    assert s in Parts(s) && s in Outer(s);
    HollowActive(scopes);
    match s
    case If(arms) => ArmsPlain(arms, scopes, heap, loop);
    case Block(b) => AllPlain(b, scopes + [[]], heap, loop);
    case For(_, _, b) => AllPlain(b, scopes + [[]] + [[]], heap, Some(|scopes|));
    case While(_, b) => AllPlain(b, scopes + [[]] + [[]], heap, Some(|scopes|));
    case _ =>
  }

  lemma {:induction false} AllPlain(ss: Stmts, scopes: Scopes, heap: Heap, loop: Option<nat>)
    requires NoneOnHeap(AllParts(ss)) && NoPointers(heap) && Hollow(scopes) && (loop.Some? || NoJump(AllOuter(ss)))
    ensures AllFine(ss, scopes, heap, loop)
    decreases ss, 1
  {
    if ss.Then? {
      StmtPlain(ss.first, scopes, heap, loop);
      AllPlain(ss.rest, scopes, heap, loop);
    }
  }

  lemma {:induction false} ArmsPlain(arms: Arms, scopes: Scopes, heap: Heap, loop: Option<nat>)
    requires NoneOnHeap(ArmsParts(arms)) && NoPointers(heap) && Hollow(scopes) && (loop.Some? || NoJump(ArmsOuter(arms)))
    ensures ArmsFine(arms, scopes, heap, loop)
    decreases arms, 1
  {
    match arms
    case NoMore =>
    case Otherwise(b) => AllPlain(b, scopes + [[]], heap, loop);
    case When(_, b, more) =>
      AllPlain(b, scopes + [[]], heap, loop);
      ArmsPlain(more, scopes, heap, loop);
  }

  /** Any functions that declare nothing on the heap and leave loops from inside only. */
  lemma PointerlessIsFine(fs: map<string, FunctionDecl>)
    requires forall f <- fs :: NoneOnHeap(AllParts(fs[f].body)) && NoJump(AllOuter(fs[f].body))
    ensures var gives := map f | f in fs :: NoPointer;
            FineProgram(map f | f in fs :: Checked(fs[f], Heap({}, {}, NoPointer, gives)), gives)
  {
    var gives := map f | f in fs :: NoPointer;
    forall f | f in fs ensures FineFunction(fs[f], Heap({}, {}, NoPointer, gives)) {
      AllPlain(fs[f].body, [[]], Heap({}, {}, NoPointer, gives), None);
    }
  }

  // ----- an array in a body -----

  /** Any array, declared and used inside a loop, a block or an arm of an `if`. */
  lemma ArrayInside(name: string, a: string, typ: string, init: Option<Exp>, e: Exp, v: string, s: Stmt)
    requires Contains(typ, "[") && a != v && Reads(e) == {} && Inner(e) == [] && !e.Ident? && !e.Call? && init in {None, Some(e)}
    requires var b := Then(Let(a, typ, init), Then(Eval(Other({a}, [])), Empty));
             s in {While(e, b), For(v, e, b), Block(b), If(When(e, b, NoMore))}
    ensures FineProgram(map[name := Checked(FunctionDecl(name, Then(s, Empty)), Heap({a}, {}, NoPointer, map[name := NoPointer]))],
                        map[name := NoPointer])
  {
    var heap := Heap({a}, {}, NoPointer, map[name := NoPointer]);
    var b := Then(Let(a, typ, init), Then(Eval(Other({a}, [])), Empty));
    ArrayBody(a, typ, init, e, b, heap, [[], []], None);
    ArrayBody(a, typ, init, e, b, heap, [[], [], []], Some(1));
    HollowActive([[]]);
    var none: Scopes := [[]];
    assert none + [[]] == [[], []] && none + [[]] + [[]] == [[], [], []];
    assert NothingGot(e, [[]], heap);
    if s.If? {
      assert ArmsFine(NoMore, [[]], heap, None);
      assert ArmsFine(s.arms, [[]], heap, None);
    }
    assert Fine(s, [[]], heap, None);
    assert AllFine(Then(s, Empty), [[]], heap, None);
  }

  lemma ArrayBody(a: string, typ: string, init: Option<Exp>, e: Exp, b: Stmts, heap: Heap, scopes: Scopes, loop: Option<nat>)
    requires b == Then(Let(a, typ, init), Then(Eval(Other({a}, [])), Empty)) && scopes != [] && Hollow(scopes)
    requires Contains(typ, "[") && heap.owning == {a} && heap.empty == {}
    ensures AllFine(b, scopes, heap, loop)
  {
    HollowActive(scopes);
    OneActive(scopes, a);
    assert Fine(b.first, scopes, heap, loop);
    assert Fine(b.rest.first, AddHeap(scopes, a), heap, loop);
  }

  lemma OneActive(scopes: Scopes, a: string)
    requires scopes != [] && Hollow(scopes)
    ensures Active(AddHeap(scopes, a)) == [a]
  {
    var after, k := AddHeap(scopes, a), |scopes| - 1;
    var none: seq<string> := [];
    assert none + [a] == [a];
    assert after[k] == [a] && after[..k] == scopes[..k];
    HollowActive(scopes[..k]);
  }
}
