/**
 * The generator of C code: which frees it emits where, as a function of the source and of the stack of scopes;
 * and what that is worth: nothing freed twice, nothing leaked, on every path.
 */
module Ownership {
  import opened Values
  import opened CProgram

  datatype Stmt =
    | Let(x: string, typ: string, init: Option<Exp>)
    | Set(y: string, value: Exp)
    | Eval(e: Exp)                        // expression statements, element assignments
    | Return(ret: Option<Exp>)
    | Break
    | Continue
    | If(arms: Arms)
    | Block(block: Stmts)
    | For(v: string, range: Exp, fbody: Stmts)
    | While(cond: Exp, wbody: Stmts)

  datatype Stmts = Empty | Then(first: Stmt, rest: Stmts)
  datatype Arms = NoMore | Otherwise(orelse: Stmts) | When(guard: Exp, abody: Stmts, more: Arms)

  datatype FunctionDecl = FunctionDecl(name: string, body: Stmts)

  /** What a function returns: an object its caller is to free, NULL, or no pointer. */
  datatype Gives = AnObject | Nothing | NoPointer

  // ----- where a variable lives -----

  predicate Contains(t: string, s: string) {
    |t| >= |s| && (t[..|s|] == s || (t != [] && Contains(t[1..], s)))
  }

  predicate NeedsHeapAlloc(t: string) {
    Contains(t, "[") || t == "string" || Contains(t, "tensor")
  }

  /** The declaration itself allocates: arrays always, strings only without an initializer, tensors never. */
  predicate Allocates(t: string, init: Option<Exp>) {
    Contains(t, "[") || (t == "string" && init.None?)
  }

  /** Heap variables of each open scope, outermost scope first, in order of declaration. */
  type Scopes = seq<seq<string>>

  function Active(scopes: Scopes): seq<string> {
    if scopes == [] then [] else Active(scopes[..|scopes| - 1]) + scopes[|scopes| - 1]
  }

  function AddHeap(scopes: Scopes, x: string): Scopes {
    if scopes == [] then scopes else scopes[|scopes| - 1 := scopes[|scopes| - 1] + [x]]
  }

  /** The scopes after a statement: only a declaration on the heap changes them. */
  function After(s: Stmt, scopes: Scopes): Scopes {
    if s.Let? && NeedsHeapAlloc(s.typ) then AddHeap(scopes, s.x) else scopes
  }

  function AfterAll(ss: Stmts, scopes: Scopes): Scopes {
    match ss
    case Empty => scopes
    case Then(s, rest) => AfterAll(rest, After(s, scopes))
  }

  // ----- what is emitted -----

  /** Free every variable of one scope but `skip`, in order of declaration. */
  function Frees(vars: seq<string>, skip: Option<string>): CStmts {
    if vars == [] then NoCode
    else if Some(vars[0]) == skip then Frees(vars[1..], skip)
    else Cons(CFree(vars[0]), Frees(vars[1..], skip))
  }

  /** Free every open scope, innermost first. */
  function FreesAll(scopes: Scopes, skip: Option<string>): CStmts {
    if scopes == [] then NoCode
    else Append(Frees(scopes[|scopes| - 1], skip), FreesAll(scopes[..|scopes| - 1], skip))
  }

  function ReturnSkips(ret: Option<Exp>): Option<string> {
    if ret.Some? && ret.value.Ident? then Some(ret.value.x) else None
  }

  function GenLet(x: string, typ: string, init: Option<Exp>): CStmts {
    if Allocates(typ, init) then One(CAlloc(x))
    else if NeedsHeapAlloc(typ) then One(CBorrow(x, init))
    else One(CDeclare(x, if init.Some? then init.value else CONSTANT))
  }

  function GenStmt(s: Stmt, scopes: Scopes): CStmts
    decreases s, 1
  {
    match s
    case Let(x, typ, init) => GenLet(x, typ, init)
    case Set(y, e) => One(CAssign(y, e))
    case Eval(e) => One(CEval(e))
    case Return(ret) => Append(FreesAll(scopes, ReturnSkips(ret)), One(CReturn(ret)))
    case Break => One(CBreak)
    case Continue => One(CContinue)
    case If(arms) => if arms.When? then One(CIf(GenArms(arms, scopes))) else NoCode
    case Block(b) => GenBody(b, scopes)
    case For(v, range, b) => One(CFor(v, GenLoopBody(b, scopes)))
    case While(e, b) => One(CWhile(e, GenLoopBody(b, scopes)))
  }

  function GenAll(ss: Stmts, scopes: Scopes): CStmts
    decreases ss, 1
  {
    match ss
    case Empty => NoCode
    case Then(s, rest) => Append(GenStmt(s, scopes), GenAll(rest, After(s, scopes)))
  }

  /** A body: its scope is pushed, its statements follow, and what it declared is freed. */
  function GenBody(b: Stmts, scopes: Scopes): CStmts
    decreases b, 2
  {
    var inner := AfterAll(b, scopes + [[]]);
    Append(GenAll(b, scopes + [[]]), Frees(Top(inner), None))
  }

  /** A loop has a scope of its own around its body's. */
  function GenLoopBody(b: Stmts, scopes: Scopes): CStmts
    decreases b, 3
  {
    Append(GenBody(b, scopes + [[]]), Frees(Top(scopes + [[]]), None))
  }

  function Top(scopes: Scopes): seq<string> {
    if scopes == [] then [] else scopes[|scopes| - 1]
  }

  function GenArms(arms: Arms, scopes: Scopes): CArms
    decreases arms, 1
  {
    match arms
    case NoMore => NoElse
    case Otherwise(b) => Else(GenBody(b, scopes))
    case When(e, b, more) => Arm(e, GenBody(b, scopes), GenArms(more, scopes))
  }

  /** `main` returns 0 behind its cleanup. */
  function End(name: string): CStmts {
    if name == "main" then One(CReturn(Some(CONSTANT))) else NoCode
  }

  function GenFunction(f: FunctionDecl): CStmts {
    Append(Append(GenAll(f.body, [[]]), Frees(Top(AfterAll(f.body, [[]])), None)), End(f.name))
  }

  // ----- the side conditions, as a check on the text -----

  /**
   * The names a function ever declares on the heap (those that get an object, and those that are NULL), what it
   * returns, and what the functions of the program return.
   */
  datatype Heap = Heap(owning: set<string>, empty: set<string>, result: Gives, gives: map<string, Gives>)

  predicate OnHeap(x: string, heap: Heap) {
    x in heap.owning || x in heap.empty
  }

  function GivesOf(f: string, heap: Heap): Gives {
    if f in heap.gives then heap.gives[f] else NoPointer
  }

  /** None of these calls hands over an object. */
  predicate Quiet(fs: seq<string>, heap: Heap) {
    forall i :: 0 <= i < |fs| ==> GivesOf(fs[i], heap) != AnObject
  }

  /** The value of the expression is an object handed over by the function called. */
  predicate Hands(e: Exp, heap: Heap) {
    e.Call? && GivesOf(e.f, heap) == AnObject
  }

  /** The value of the expression is NULL. */
  predicate IsEmpty(e: Exp, heap: Heap) {
    (e.Ident? && e.x in heap.empty) || (e.Call? && GivesOf(e.f, heap) == Nothing)
  }

  /** Every heap variable read is in scope. */
  predicate ReadsOk(e: Exp, scopes: Scopes, heap: Heap) {
    forall x :: x in Reads(e) && OnHeap(x, heap) ==> x in Active(scopes)
  }

  /** And no object handed over on the way is dropped. */
  predicate ExpOk(e: Exp, scopes: Scopes, heap: Heap) {
    ReadsOk(e, scopes, heap) && Quiet(Inner(e), heap)
  }

  /** And none is dropped at the end. */
  predicate NothingGot(e: Exp, scopes: Scopes, heap: Heap) {
    ExpOk(e, scopes, heap) && !Hands(e, heap)
  }

  /** No variable with an object was declared since scope k was the innermost. */
  predicate NoneSince(scopes: Scopes, k: nat, heap: Heap) {
    forall i, j :: k <= i < |scopes| && 0 <= j < |scopes[i]| ==> scopes[i][j] in heap.empty
  }

  /** The result is one identifier, or reads no variable with an object at all. */
  predicate ReturnReads(e: Exp, heap: Heap) {
    e.Ident? || forall x :: x in Reads(e) && OnHeap(x, heap) ==> x in heap.empty
  }

  function ReturnGives(ret: Option<Exp>, heap: Heap): Gives {
    match ret
    case None => NoPointer
    case Some(Ident(x)) => if x in heap.empty then Nothing else if x in heap.owning then AnObject else NoPointer
    case Some(Call(f, _, _)) => GivesOf(f, heap)
    case Some(Other(_, _)) => NoPointer
  }

  predicate ReturnOk(ret: Option<Exp>, scopes: Scopes, heap: Heap) {
    (ret.Some? ==> ExpOk(ret.value, scopes, heap) && ReturnReads(ret.value, heap)) && ReturnGives(ret, heap) == heap.result
  }

  predicate LetOk(x: string, typ: string, init: Option<Exp>, scopes: Scopes, heap: Heap) {
    if NeedsHeapAlloc(typ) then
      && x !in Active(scopes)
      && if Allocates(typ, init) then x in heap.owning && x !in heap.empty
         else
           match init
           case None => x in heap.empty
           case Some(e) =>
             && ExpOk(e, scopes, heap)
             && if Hands(e, heap) then x in heap.owning && x !in heap.empty else x in heap.empty && IsEmpty(e, heap)
    else !OnHeap(x, heap) && (init.Some? ==> NothingGot(init.value, scopes, heap))
  }

  predicate SetOk(y: string, e: Exp, scopes: Scopes, heap: Heap) {
    && NothingGot(e, scopes, heap)
    && if OnHeap(y, heap) then y in Active(scopes) && (e == Ident(y) || (y in heap.empty && IsEmpty(e, heap)))
       else (e.Ident? ==> !OnHeap(e.x, heap)) && !IsEmpty(e, heap)
  }

  /** loop: how many scopes were open when the innermost loop was entered. A loop's counter shadows no heap variable. */
  predicate Fine(s: Stmt, scopes: Scopes, heap: Heap, loop: Option<nat>)
    decreases s, 1
  {
    match s
    case Let(x, typ, init) => LetOk(x, typ, init, scopes, heap)
    case Set(y, e) => SetOk(y, e, scopes, heap)
    case Eval(e) => NothingGot(e, scopes, heap)
    case Return(ret) => ReturnOk(ret, scopes, heap)
    case Break => loop.Some? && NoneSince(scopes, loop.value, heap)
    case Continue => loop.Some? && NoneSince(scopes, loop.value, heap)
    case If(arms) => ArmsFine(arms, scopes, heap, loop)
    case Block(b) => AllFine(b, scopes + [[]], heap, loop)
    case For(v, _, b) => v !in Active(scopes) && AllFine(b, scopes + [[]] + [[]], heap, Some(|scopes|))
    case While(e, b) => NothingGot(e, scopes, heap) && AllFine(b, scopes + [[]] + [[]], heap, Some(|scopes|))
  }

  predicate AllFine(ss: Stmts, scopes: Scopes, heap: Heap, loop: Option<nat>)
    decreases ss, 1
  {
    match ss
    case Empty => true
    case Then(s, rest) => Fine(s, scopes, heap, loop) && AllFine(rest, After(s, scopes), heap, loop)
  }

  predicate ArmsFine(arms: Arms, scopes: Scopes, heap: Heap, loop: Option<nat>)
    decreases arms, 1
  {
    match arms
    case NoMore => true
    case Otherwise(b) => AllFine(b, scopes + [[]], heap, loop)
    case When(e, b, more) =>
      NothingGot(e, scopes, heap) && AllFine(b, scopes + [[]], heap, loop) && ArmsFine(more, scopes, heap, loop)
  }

  /** Control cannot reach the end. */
  predicate Ends(s: Stmt) {
    match s
    case Return(_) => true
    case If(arms) => arms.When? && ArmsEnd(arms)
    case Block(b) => AllEnd(b)
    case _ => false
  }

  predicate AllEnd(ss: Stmts) {
    ss.Then? && (Ends(ss.first) || AllEnd(ss.rest))
  }

  predicate ArmsEnd(arms: Arms) {
    match arms
    case NoMore => false
    case Otherwise(b) => AllEnd(b)
    case When(_, b, more) => AllEnd(b) && ArmsEnd(more)
  }

  /** A function that returns pointers always returns one. */
  predicate FineFunction(f: FunctionDecl, heap: Heap) {
    AllFine(f.body, [[]], heap, None) && (heap.result != NoPointer ==> AllEnd(f.body))
  }

  // ----- programs -----

  /** A function with the names it declares on the heap. */
  datatype Checked = Checked(f: FunctionDecl, heap: Heap)

  type Program = map<string, Checked>

  function CodeOf(p: Program): Code {
    map f | f in p :: GenFunction(p[f].f)
  }

  /** Every function is fine, and what the functions return is known by the same table everywhere. */
  ghost predicate FineProgram(p: Program, gives: map<string, Gives>) {
    && gives.Keys == p.Keys
    && forall f :: f in p ==> FineFunction(p[f].f, p[f].heap) && p[f].heap.gives == gives && p[f].heap.result == gives[f]
  }

  // ----- ownership -----

  /** Different names of the list own different live objects, or nothing; all else that is live is the caller's. */
  ghost predicate OwnsList(act: seq<string>, m: Mem, base: set<nat>) {
    && base <= m.live
    && (forall i :: 0 <= i < |act| ==> act[i] in m.vars && Usable(m.vars[act[i]], m, base))
    && (forall i, j :: 0 <= i < j < |act| ==> act[i] != act[j] && (m.vars[act[i]].Obj? ==> m.vars[act[i]] != m.vars[act[j]]))
    && (forall o: nat :: o in m.live && o !in base ==> exists i :: 0 <= i < |act| && m.vars[act[i]] == Obj(o))
  }

  predicate Usable(p: Ptr, m: Mem, base: set<nat>) {
    p.Null? || (p.Obj? && p.id in m.live && p.id !in base)
  }

  /** The empty ones of the list are NULL, and only they. */
  ghost predicate Typed(act: seq<string>, m: Mem, heap: Heap) {
    forall i :: 0 <= i < |act| && act[i] in m.vars ==> (act[i] in heap.empty <==> m.vars[act[i]].Null?)
  }

  ghost predicate Named(m: Mem, heap: Heap) {
    forall x :: x in m.vars ==> OnHeap(x, heap)
  }

  ghost predicate Owns(scopes: Scopes, m: Mem, heap: Heap, base: set<nat>) {
    OwnsList(Active(scopes), m, base) && Typed(Active(scopes), m, heap) && Named(m, heap) && Accounted(m)
  }

  lemma ReadsReadable(e: Exp, scopes: Scopes, m: Mem, heap: Heap, base: set<nat>)
    requires Owns(scopes, m, heap, base) && ReadsOk(e, scopes, heap)
    ensures Readable(e, m)
  {
  }

  /** The scopes own all there is, beyond what the caller has. */
  ghost predicate OwnsAll(scopes: Scopes, m: Mem, base: set<nat>) {
    OwnsList(Active(scopes), m, base) && Accounted(m)
  }

  /** A new name for a new object. */
  lemma GainOwns(scopes: Scopes, m: Mem, m1: Mem, base: set<nat>, x: string, k: nat)
    requires OwnsAll(scopes, m, base) && scopes != [] && x !in Active(scopes) && k !in m.live
    requires m1.vars == m.vars[x := Obj(k)] && m1.live == m.live + {k} && Accounted(m1)
    ensures OwnsAll(AddHeap(scopes, x), m1, base) && Active(AddHeap(scopes, x)) == Active(scopes) + [x]
  {
    ActiveAdd(scopes, x);
    OneMore(Active(scopes), m, m1, base, x);
  }

  /** A new name for nothing. */
  lemma EmptyOwns(scopes: Scopes, m: Mem, m1: Mem, base: set<nat>, x: string)
    requires OwnsAll(scopes, m, base) && scopes != [] && x !in Active(scopes)
    requires m1.vars == m.vars[x := Null] && m1.live == m.live && Accounted(m1)
    ensures OwnsAll(AddHeap(scopes, x), m1, base) && Active(AddHeap(scopes, x)) == Active(scopes) + [x]
  {
    ActiveAdd(scopes, x);
    OneMore(Active(scopes), m, m1, base, x);
  }

  /** One more name, with NULL or with an object that nobody had. */
  lemma OneMore(act: seq<string>, m: Mem, m1: Mem, base: set<nat>, x: string)
    requires OwnsList(act, m, base) && x !in act && x in m1.vars && m1.vars == m.vars[x := m1.vars[x]]
    requires if m1.vars[x].Null? then m1.live == m.live
             else m1.vars[x].Obj? && m1.vars[x].id !in m.live && m1.live == m.live + {m1.vars[x].id}
    ensures OwnsList(act + [x], m1, base)
  {
    var act1 := act + [x];
    forall i | 0 <= i < |act|
      ensures act1[i] == act[i] && act[i] != x && m1.vars[act[i]] == m.vars[act[i]] && (m1.vars[x].Obj? ==> m.vars[act[i]] != m1.vars[x])
    {
      assert act[i] in act && Usable(m.vars[act[i]], m, base);
    }
    forall i, j | 0 <= i < j < |act1|
      ensures act1[i] != act1[j] && (m1.vars[act1[i]].Obj? ==> m1.vars[act1[i]] != m1.vars[act1[j]])
    {
      if j < |act| {
        assert act[i] != act[j];
      }
    }
    forall o: nat | o in m1.live && o !in base ensures exists i :: 0 <= i < |act1| && m1.vars[act1[i]] == Obj(o) {
      if o in m.live {
        var i :| 0 <= i < |act| && m.vars[act[i]] == Obj(o);
        assert m1.vars[act1[i]] == Obj(o);
      } else {
        assert m1.vars[act1[|act|]] == Obj(o);
      }
    }
  }

  lemma ActiveAdd(scopes: Scopes, x: string)
    requires scopes != []
    ensures Active(AddHeap(scopes, x)) == Active(scopes) + [x]
  {
    var k := |scopes| - 1;
    assert AddHeap(scopes, x)[..k] == scopes[..k];
  }

  /** Freeing one owned variable leaves the others owned. */
  lemma FreeOwns(left: seq<string>, x: string, right: seq<string>, m: Mem, base: set<nat>)
    requires OwnsList(left + [x] + right, m, base)
    ensures var o := Free(m, x); o.Fell? && OwnsList(left + right, o.m, base) && o.m.vars == m.vars
  {
    var act := left + [x] + right;
    assert act[|left|] == x;
    var m1 := Free(m, x).m;
    var rest := left + right;
    assert forall i :: 0 <= i < |rest| ==> rest[i] == act[if i < |left| then i else i + 1];
    forall o: nat | o in m1.live && o !in base ensures exists i :: 0 <= i < |rest| && m1.vars[rest[i]] == Obj(o) {
      var i :| 0 <= i < |act| && m.vars[act[i]] == Obj(o);
      assert i != |left|;
      assert rest[if i < |left| then i else i - 1] == act[i];
    }
  }

  /** The frees of one scope: what is left is owned by the outer scopes, and by the variable skipped. */
  lemma {:induction false} FreesOwn(code: Code, left: seq<string>, vars: seq<string>, skip: Option<string>,
                                    right: seq<string>, m: Mem, base: set<nat>, ch: seq<bool>)
    requires OwnsList(left + vars + right, m, base)
    ensures var o := Run(code, Frees(vars, skip), m, ch);
            && o.Fell? && o.ch == ch && o.m.vars == m.vars
            && OwnsList(left + (if skip.Some? && skip.value in vars then [skip.value] else []) + right, o.m, base)
    decreases |vars|
  {
    if vars == [] {
      assert left + vars + right == left + [] + right;
    } else {
      var x, rest := vars[0], vars[1..];
      assert vars == [x] + rest;
      if Some(x) == skip {
        assert left + vars + right == (left + [x]) + rest + right;
        FreesOwn(code, left + [x], rest, skip, right, m, base, ch);
        NotTwice(left, x, rest, right, m, base);
        assert (left + [x]) + [] + right == left + [x] + right;
      } else {
        assert left + vars + right == left + [x] + (rest + right);
        FreeOwns(left, x, rest + right, m, base);
        assert left + (rest + right) == left + rest + right;
        FreesOwn(code, left, rest, skip, right, Free(m, x).m, base, ch);
      }
    }
  }

  lemma NotTwice(left: seq<string>, x: string, rest: seq<string>, right: seq<string>, m: Mem, base: set<nat>)
    requires OwnsList((left + [x]) + rest + right, m, base)
    ensures x !in rest
  {
    var act := (left + [x]) + rest + right;
    forall i | 0 <= i < |rest| ensures rest[i] != x {
      assert act[|left|] != act[|left| + 1 + i];
    }
  }

  /** The frees before a return: only the returned variable, if it is a heap variable in scope, is still owned. */
  lemma {:induction false} FreesAllOwn(code: Code, scopes: Scopes, kept: seq<string>, skip: Option<string>, m: Mem,
                                       base: set<nat>, ch: seq<bool>)
    requires OwnsList(Active(scopes) + kept, m, base) && (kept == [] || (skip.Some? && kept == [skip.value]))
    ensures var o := Run(code, FreesAll(scopes, skip), m, ch);
            && o.Fell? && o.ch == ch && o.m.vars == m.vars
            && OwnsList(if skip.Some? && (skip.value in Active(scopes) || kept != []) then [skip.value] else [], o.m, base)
    decreases |scopes|
  {
    if scopes == [] {
      assert [] + kept == kept;
    } else {
      var k := |scopes| - 1;
      var outer, top := Active(scopes[..k]), scopes[k];
      RunAppend(code, Frees(top, skip), FreesAll(scopes[..k], skip), m, ch);
      FreesOwn(code, outer, top, skip, kept, m, base, ch);
      var m1 := Run(code, Frees(top, skip), m, ch).m;
      var here := if skip.Some? && skip.value in top then [skip.value] else [];
      NotInTop(outer, top, kept, m, base);
      assert outer + here + kept == outer + (here + kept);
      assert here + kept == here || here + kept == kept;
      FreesAllOwn(code, scopes[..k], here + kept, skip, m1, base, ch);
    }
  }

  lemma NotInTop(outer: seq<string>, top: seq<string>, kept: seq<string>, m: Mem, base: set<nat>)
    requires OwnsList(outer + top + kept, m, base)
    ensures kept != [] ==> kept[0] !in top
  {
    var act := outer + top + kept;
    forall i | 0 <= i < |top| && kept != [] ensures top[i] != kept[0] {
      assert act[|outer| + i] != act[|outer + top|];
    }
  }

  // ----- every path -----

  /** The variables of the list still hold what they held. */
  ghost predicate Keeps(m: Mem, m1: Mem, act: seq<string>) {
    forall x :: x in act && x in m.vars ==> x in m1.vars && m1.vars[x] == m.vars[x]
  }

  /** What is handed over: a new object, which is all that is left beyond the caller's; NULL; or no pointer. */
  ghost predicate Given(g: Gives, v: Option<Ptr>, base: set<nat>, m: Mem) {
    match g
    case AnObject => v.Some? && v.value.Obj? && v.value.id !in base && m.live == base + {v.value.id}
    case Nothing => v == Some(Null) && m.live == base
    case NoPointer => v == None && m.live == base
  }

  /** What a path from m through code generated under `scopes` may end in. */
  ghost predicate Good(o: Out, m: Mem, scopes: Scopes, after: Scopes, heap: Heap, loop: Option<nat>, base: set<nat>) {
    match o
    case Fell(m1, _) => Owns(after, m1, heap, base) && Keeps(m, m1, Active(scopes))
    case Broke(m1, _) => Left(m, m1, scopes, heap, loop, base)
    case Continued(m1, _) => Left(m, m1, scopes, heap, loop, base)
    case Returned(m1, v, _) => Accounted(m1) && Given(heap.result, v, base, m1)
    case Bad(_) => false
    case Undecided => true
  }

  /** An iteration was left: what the loop's surroundings own is all there is. */
  ghost predicate Left(m: Mem, m1: Mem, scopes: Scopes, heap: Heap, loop: Option<nat>, base: set<nat>) {
    loop.Some? && loop.value < |scopes| && Owns(scopes[..loop.value], m1, heap, base) && Keeps(m, m1, Active(scopes))
  }

  lemma {:induction false} NoneSinceActive(scopes: Scopes, k: nat, heap: Heap)
    requires k <= |scopes| && NoneSince(scopes, k, heap)
    ensures Active(scopes[..k]) <= Active(scopes)
    ensures forall i :: |Active(scopes[..k])| <= i < |Active(scopes)| ==> Active(scopes)[i] in heap.empty
    decreases |scopes|
  {
    if k < |scopes| {
      var j := |scopes| - 1;
      NoneSinceActive(scopes[..j], k, heap);
      assert scopes[..j][..k] == scopes[..k];
    } else {
      assert scopes[..k] == scopes;
    }
  }

  /** Letting go of names that own nothing. */
  lemma EmptyLeft(scopes: Scopes, k: nat, m: Mem, heap: Heap, base: set<nat>)
    requires Owns(scopes, m, heap, base) && k <= |scopes| && NoneSince(scopes, k, heap)
    ensures Owns(scopes[..k], m, heap, base)
  {
    NoneSinceActive(scopes, k, heap);
    var outer, act := Active(scopes[..k]), Active(scopes);
    forall o: nat | o in m.live && o !in base ensures exists i :: 0 <= i < |outer| && m.vars[outer[i]] == Obj(o) {
      var i :| 0 <= i < |act| && m.vars[act[i]] == Obj(o);
      assert outer[i] == act[i];
    }
  }

  lemma ActivePush(scopes: Scopes)
    ensures Active(scopes + [[]]) == Active(scopes)
  {
    assert (scopes + [[]])[..|scopes|] == scopes;
  }

  /** Statements change the innermost scope only, and only add to it. */
  lemma {:induction false} AfterAllPrefix(ss: Stmts, scopes: Scopes)
    requires scopes != []
    ensures var r, k := AfterAll(ss, scopes), |scopes| - 1;
            |r| == |scopes| && r[..k] == scopes[..k] && scopes[k] <= r[k]
    decreases ss
  {
    if ss.Then? {
      AfterAllPrefix(ss.rest, After(ss.first, scopes));
    }
  }

  lemma ActiveGrows(scopes: Scopes, later: Scopes)
    requires scopes != [] && |later| == |scopes| && later[..|scopes| - 1] == scopes[..|scopes| - 1]
    requires scopes[|scopes| - 1] <= later[|scopes| - 1]
    ensures Active(scopes) <= Active(later)
  {
  }

  lemma RunOne(code: Code, s: CStmt, m: Mem, ch: seq<bool>)
    ensures Run(code, One(s), m, ch) == RunStmt(code, s, m, ch)
  {
    var o := RunStmt(code, s, m, ch);
    if o.Fell? {
      assert Run(code, NoCode, o.m, o.ch) == o;
    }
  }

  // ----- expressions and calls -----

  /** The value of a readable expression: what a name points to, or what the function called hands over. */
  ghost predicate Valued(w: Worth, e: Exp, m: Mem, heap: Heap) {
    match w
    case NoChoice => true
    case Wrong(_) => false
    case Got(v, m1, _) =>
      && m1.vars == m.vars && Accounted(m1)
      && match e
         case Ident(x) => v == Pointer(x, m) && m1.live == m.live
         case Call(f, _, _) => Given(GivesOf(f, heap), v, m.live, m1)
         case Other(_, _) => v == None && m1.live == m.live
  }

  lemma {:induction false} EvalGood(p: Program, e: Exp, heap: Heap, m: Mem, ch: seq<bool>)
    requires FineProgram(p, heap.gives) && Accounted(m) && Readable(e, m) && Quiet(Inner(e), heap)
    ensures Valued(CProgram.Eval(CodeOf(p), e, m, ch), e, m, heap)
    decreases |ch|, 0, 2 + |Inner(e)|
  {
    var code := CodeOf(p);
    CallsGood(p, Inner(e), heap, m, ch);
    var w := RunCalls(code, Inner(e), m, ch);
    if w.Got? && e.Call? {
      CallGood(p, e.f, heap, w.m, w.ch);
    }
  }

  /** Calls on the way leave no object behind. */
  lemma {:induction false} CallsGood(p: Program, fs: seq<string>, heap: Heap, m: Mem, ch: seq<bool>)
    requires FineProgram(p, heap.gives) && Accounted(m) && Quiet(fs, heap)
    ensures var w := RunCalls(CodeOf(p), fs, m, ch);
            !w.Wrong? && (w.Got? ==> w.m.vars == m.vars && w.m.live == m.live && Accounted(w.m))
    decreases |ch|, 0, 1 + |fs|
  {
    if fs != [] && ch != [] {
      assert GivesOf(fs[0], heap) != AnObject;
      assert Quiet(fs[1..], heap) by {
        assert forall i :: 0 <= i < |fs[1..]| ==> fs[1..][i] == fs[i + 1];
      }
      if ch[0] {
        CallGood(p, fs[0], heap, m, ch[1..]);
        var w := CallOf(CodeOf(p), fs[0], m, ch[1..]);
        if w.Got? {
          CallsGood(p, fs[1..], heap, w.m, w.ch);
        }
      } else {
        CallsGood(p, fs[1..], heap, m, ch[1..]);
      }
    }
  }

  /** A call goes well and adds to the heap the object handed over, and nothing else. */
  lemma {:induction false} CallGood(p: Program, f: string, heap: Heap, m: Mem, ch: seq<bool>)
    requires FineProgram(p, heap.gives) && Accounted(m)
    ensures var w := CallOf(CodeOf(p), f, m, ch);
            !w.Wrong? && (w.Got? ==> w.m.vars == m.vars && Accounted(w.m) && Given(GivesOf(f, heap), w.p, m.live, w.m))
    decreases |ch|, 0, 0
  {
    if f in p && ch != [] {
      FunctionGood(p, f, heap.gives, m.(vars := map[]), ch[1..]);
    }
  }

  // ----- statements -----

  /** What an expression that hands over nothing leaves unchanged. */
  lemma EvalOwns(p: Program, e: Exp, scopes: Scopes, heap: Heap, base: set<nat>, m: Mem, ch: seq<bool>)
    requires FineProgram(p, heap.gives) && Owns(scopes, m, heap, base) && NothingGot(e, scopes, heap)
    ensures var w := CProgram.Eval(CodeOf(p), e, m, ch);
            && Valued(w, e, m, heap)
            && (w.Got? ==> w.m.vars == m.vars && Owns(scopes, w.m, heap, base) && (w.p == Some(Null) || e.Ident? || w.p == None))
    decreases |ch|, 0, 3 + |Inner(e)|
  {
    ReadsReadable(e, scopes, m, heap, base);
    EvalGood(p, e, heap, m, ch);
  }

  /** A return: everything else is freed, the result is still there when it is read. */
  lemma ReturnGood(p: Program, ret: Option<Exp>, scopes: Scopes, heap: Heap, loop: Option<nat>, base: set<nat>, m: Mem,
                   ch: seq<bool>)
    requires FineProgram(p, heap.gives) && Owns(scopes, m, heap, base) && ReturnOk(ret, scopes, heap)
    ensures Good(Run(CodeOf(p), GenStmt(Return(ret), scopes), m, ch), m, scopes, scopes, heap, loop, base)
    decreases |ch|, 1, 1
  {
    var m1 := ReturnFrees(CodeOf(p), ret, scopes, heap, base, m, ch);
    if ret.Some? {
      var e := ret.value;
      var kept := Kept(ret, scopes);
      if e.Ident? {
        ReturnedName(e.x, scopes, heap, base, m, m1);
      } else {
        NothingRead(e, scopes, heap, base, m, m1);
      }
      EvalGood(p, e, heap, m1, ch);
    }
  }

  /** The variable a return does not free. */
  function Kept(ret: Option<Exp>, scopes: Scopes): seq<string> {
    var skip := ReturnSkips(ret);
    if skip.Some? && skip.value in Active(scopes) then [skip.value] else []
  }

  /** The name returned still points to what it owns. */
  lemma ReturnedName(x: string, scopes: Scopes, heap: Heap, base: set<nat>, m: Mem, m1: Mem)
    requires Owns(scopes, m, heap, base) && ReadsOk(Ident(x), scopes, heap)
    requires m1.vars == m.vars && OwnsList(Kept(Some(Ident(x)), scopes), m1, base)
    ensures Readable(Ident(x), m1) && Given(ReturnGives(Some(Ident(x)), heap), Pointer(x, m1), base, m1)
  {
    var act := Active(scopes);
    if OnHeap(x, heap) {
      var i :| 0 <= i < |act| && act[i] == x;
      assert Kept(Some(Ident(x)), scopes)[0] == x;
      assert x in heap.empty <==> m.vars[x].Null?;
      assert m1.live == base + if m.vars[x].Obj? then {m.vars[x].id} else {};
    } else {
      assert x !in m.vars;
      assert Kept(Some(Ident(x)), scopes) == [];
      assert m1.live == base;
    }
  }

  /** A result that is no identifier reads only what owns nothing. */
  lemma NothingRead(e: Exp, scopes: Scopes, heap: Heap, base: set<nat>, m: Mem, m1: Mem)
    requires Owns(scopes, m, heap, base) && ReadsOk(e, scopes, heap) && ReturnReads(e, heap) && !e.Ident? && m1.vars == m.vars
    ensures Readable(e, m1)
  {
    var act := Active(scopes);
    forall x | x in Reads(e) && x in m1.vars ensures m1.vars[x].Null? {
      assert OnHeap(x, heap) && x in heap.empty && x in act;
      var i :| 0 <= i < |act| && act[i] == x;
    }
  }

  /** The memory when the result is evaluated. */
  lemma ReturnFrees(code: Code, ret: Option<Exp>, scopes: Scopes, heap: Heap, base: set<nat>, m: Mem, ch: seq<bool>)
    returns (m1: Mem)
    requires OwnsAll(scopes, m, base)
    ensures OwnsList(Kept(ret, scopes), m1, base) && m1.vars == m.vars && Accounted(m1)
    ensures Kept(ret, scopes) == [] ==> m1.live == base
    ensures Run(code, FreesAll(scopes, ReturnSkips(ret)), m, ch) == Fell(m1, ch)
    ensures Run(code, GenStmt(Return(ret), scopes), m, ch) == RunStmt(code, CReturn(ret), m1, ch)
  {
    var skip := ReturnSkips(ret);
    assert Active(scopes) + [] == Active(scopes);
    FreesAllOwn(code, scopes, [], skip, m, base, ch);
    RunAccounted(code, FreesAll(scopes, skip), m, ch);
    m1 := Run(code, FreesAll(scopes, skip), m, ch).m;
    RunAppend(code, FreesAll(scopes, skip), One(CReturn(ret)), m, ch);
  }

  /** An assignment keeps what every name owns. */
  lemma SetGood(p: Program, y: string, e: Exp, scopes: Scopes, heap: Heap, loop: Option<nat>, base: set<nat>, m: Mem,
                ch: seq<bool>)
    requires FineProgram(p, heap.gives) && SetOk(y, e, scopes, heap) && Owns(scopes, m, heap, base)
    ensures Good(RunStmt(CodeOf(p), CAssign(y, e), m, ch), m, scopes, scopes, heap, loop, base)
    decreases |ch|, 1, 1
  {
    EvalOwns(p, e, scopes, heap, base, m, ch);
    var w := CProgram.Eval(CodeOf(p), e, m, ch);
    if w.Got? {
      var act := Active(scopes);
      if OnHeap(y, heap) {
        var i :| 0 <= i < |act| && act[i] == y;
        if e != Ident(y) {
          EmptyIsNull(e, scopes, heap, base, m, w);
        }
      }
      assert Assign(y, w.p, w.m).vars == m.vars;
    }
  }

  /** An empty name, or a call that returns NULL, has the value NULL. */
  lemma EmptyIsNull(e: Exp, scopes: Scopes, heap: Heap, base: set<nat>, m: Mem, w: Worth)
    requires Owns(scopes, m, heap, base) && ReadsOk(e, scopes, heap) && IsEmpty(e, heap) && w.Got? && Valued(w, e, m, heap)
    ensures w.p == Some(Null)
  {
    if e.Ident? {
      var act := Active(scopes);
      assert OnHeap(e.x, heap) && e.x in act;
      var i :| 0 <= i < |act| && act[i] == e.x;
    }
  }

  lemma LetGood(p: Program, x: string, typ: string, init: Option<Exp>, scopes: Scopes, heap: Heap, loop: Option<nat>,
                base: set<nat>, m: Mem, ch: seq<bool>)
    requires FineProgram(p, heap.gives) && LetOk(x, typ, init, scopes, heap) && Owns(scopes, m, heap, base) && scopes != []
    ensures Good(Run(CodeOf(p), GenLet(x, typ, init), m, ch), m, scopes, After(Let(x, typ, init), scopes), heap, loop, base)
    decreases |ch|, 1, 1
  {
    var code := CodeOf(p);
    if Allocates(typ, init) {
      RunOne(code, CAlloc(x), m, ch);
      StmtAccounted(code, CAlloc(x), m, ch);
      GainOwns(scopes, m, RunStmt(code, CAlloc(x), m, ch).m, base, x, m.count);
    } else if NeedsHeapAlloc(typ) {
      RunOne(code, CBorrow(x, init), m, ch);
      BorrowGood(p, x, init, scopes, heap, base, m, ch);
    } else {
      var e := if init.Some? then init.value else CONSTANT;
      RunOne(code, CDeclare(x, e), m, ch);
      EvalOwns(p, e, scopes, heap, base, m, ch);
    }
  }

  /** A new name for NULL, or for the object a call hands over. */
  lemma BorrowGood(p: Program, x: string, init: Option<Exp>, scopes: Scopes, heap: Heap, base: set<nat>, m: Mem, ch: seq<bool>)
    requires FineProgram(p, heap.gives) && Owns(scopes, m, heap, base) && scopes != [] && x !in Active(scopes)
    requires match init
             case None => x in heap.empty
             case Some(e) =>
               && ExpOk(e, scopes, heap)
               && if Hands(e, heap) then x in heap.owning && x !in heap.empty else x in heap.empty && IsEmpty(e, heap)
    ensures match RunStmt(CodeOf(p), CBorrow(x, init), m, ch)
            case Fell(m1, _) => Owns(AddHeap(scopes, x), m1, heap, base) && Keeps(m, m1, Active(scopes))
            case Undecided => true
            case _ => false
    decreases |ch|, 1, 0
  {
    var o := RunStmt(CodeOf(p), CBorrow(x, init), m, ch);
    if init.None? {
      EmptyOwns(scopes, m, o.m, base, x);
    } else {
      var e := init.value;
      ReadsReadable(e, scopes, m, heap, base);
      EvalGood(p, e, heap, m, ch);
      var w := CProgram.Eval(CodeOf(p), e, m, ch);
      if w.Got? {
        if Hands(e, heap) {
          GainOwns(scopes, m, o.m, base, x, w.p.value.id);
        } else {
          EmptyIsNull(e, scopes, heap, base, m, w);
          EmptyOwns(scopes, m, o.m, base, x);
        }
      }
    }
  }

  lemma {:induction false} StmtGood(p: Program, s: Stmt, scopes: Scopes, heap: Heap, loop: Option<nat>, base: set<nat>, m: Mem,
                                    ch: seq<bool>)
    requires FineProgram(p, heap.gives) && Fine(s, scopes, heap, loop) && Owns(scopes, m, heap, base) && scopes != []
    requires loop.Some? ==> loop.value < |scopes|
    ensures Good(Run(CodeOf(p), GenStmt(s, scopes), m, ch), m, scopes, After(s, scopes), heap, loop, base)
    decreases |ch|, 2, s, 5
  {
    var code := CodeOf(p);
    match s
    case Let(x, typ, init) => LetGood(p, x, typ, init, scopes, heap, loop, base, m, ch);
    case Set(y, e) =>
      RunOne(code, CAssign(y, e), m, ch);
      SetGood(p, y, e, scopes, heap, loop, base, m, ch);
    case Eval(e) =>
      RunOne(code, CEval(e), m, ch);
      EvalOwns(p, e, scopes, heap, base, m, ch);
    case Return(ret) => ReturnGood(p, ret, scopes, heap, loop, base, m, ch);
    case Break => EmptyLeft(scopes, loop.value, m, heap, base);
    case Continue => EmptyLeft(scopes, loop.value, m, heap, base);
    case If(arms) => IfGood(p, arms, scopes, heap, loop, base, m, ch);
    case Block(b) => BodyGood(p, b, scopes, heap, loop, base, m, ch);
    case For(v, _, b) =>
      RunOne(code, CFor(v, GenLoopBody(b, scopes)), m, ch);
      ForGood(p, v, b, scopes, heap, loop, base, m, ch);
    case While(e, b) =>
      RunOne(code, CWhile(e, GenLoopBody(b, scopes)), m, ch);
      WhileGood(p, e, b, scopes, heap, loop, base, m, ch);
  }

  lemma {:induction false} IfGood(p: Program, arms: Arms, scopes: Scopes, heap: Heap, loop: Option<nat>, base: set<nat>, m: Mem,
                                  ch: seq<bool>)
    requires FineProgram(p, heap.gives) && ArmsFine(arms, scopes, heap, loop) && Owns(scopes, m, heap, base) && scopes != []
    requires loop.Some? ==> loop.value < |scopes|
    ensures Good(Run(CodeOf(p), GenStmt(If(arms), scopes), m, ch), m, scopes, scopes, heap, loop, base)
    decreases |ch|, 2, arms, 2
  {
    if arms.When? {
      ArmsGood(p, arms, scopes, heap, loop, base, m, ch);
      RunOne(CodeOf(p), CIf(GenArms(arms, scopes)), m, ch);
    }
  }

  lemma {:induction false} ArmsGood(p: Program, arms: Arms, scopes: Scopes, heap: Heap, loop: Option<nat>, base: set<nat>,
                                    m: Mem, ch: seq<bool>)
    requires FineProgram(p, heap.gives) && ArmsFine(arms, scopes, heap, loop) && Owns(scopes, m, heap, base) && scopes != []
    requires loop.Some? ==> loop.value < |scopes|
    ensures Good(RunArms(CodeOf(p), GenArms(arms, scopes), m, ch), m, scopes, scopes, heap, loop, base)
    decreases |ch|, 2, arms, 1
  {
    match arms
    case NoMore =>
    case Otherwise(b) => BodyGood(p, b, scopes, heap, loop, base, m, ch);
    case When(e, b, more) =>
      EvalOwns(p, e, scopes, heap, base, m, ch);
      var w := CProgram.Eval(CodeOf(p), e, m, ch);
      if w.Got? && w.ch != [] {
        if w.ch[0] {
          BodyGood(p, b, scopes, heap, loop, base, w.m, w.ch[1..]);
        } else {
          ArmsGood(p, more, scopes, heap, loop, base, w.m, w.ch[1..]);
        }
        GoodAgain(RunArms(CodeOf(p), GenArms(arms, scopes), m, ch), m, w.m, scopes, heap, loop, base);
      }
  }

  /** The same, seen from before an evaluation or an iteration. */
  lemma GoodAgain(o: Out, m: Mem, m1: Mem, scopes: Scopes, heap: Heap, loop: Option<nat>, base: set<nat>)
    requires Good(o, m1, scopes, scopes, heap, loop, base) && Keeps(m, m1, Active(scopes))
    ensures Good(o, m, scopes, scopes, heap, loop, base)
  {
  }

  lemma {:induction false} AllGood(p: Program, ss: Stmts, scopes: Scopes, heap: Heap, loop: Option<nat>, base: set<nat>, m: Mem,
                                   ch: seq<bool>)
    requires FineProgram(p, heap.gives) && AllFine(ss, scopes, heap, loop) && Owns(scopes, m, heap, base) && scopes != []
    requires loop.Some? ==> loop.value < |scopes|
    ensures Good(Run(CodeOf(p), GenAll(ss, scopes), m, ch), m, scopes, AfterAll(ss, scopes), heap, loop, base)
    decreases |ch|, 2, ss, 1
  {
    if ss.Then? {
      var code, s, rest := CodeOf(p), ss.first, ss.rest;
      var mid := After(s, scopes);
      RunAppend(code, GenStmt(s, scopes), GenAll(rest, mid), m, ch);
      StmtGood(p, s, scopes, heap, loop, base, m, ch);
      var o := Run(code, GenStmt(s, scopes), m, ch);
      if o.Fell? {
        AllGood(p, rest, mid, heap, loop, base, o.m, o.ch);
        AfterAllPrefix(Then(s, Empty), scopes);
        ActiveGrows(scopes, mid);
        GoodThen(Run(code, GenAll(rest, mid), o.m, o.ch), m, o.m, scopes, mid, AfterAll(ss, scopes), heap, loop, base);
      }
    }
  }

  /** What follows a statement, seen from before it. */
  lemma GoodThen(o: Out, m: Mem, m1: Mem, scopes: Scopes, mid: Scopes, after: Scopes, heap: Heap, loop: Option<nat>,
                 base: set<nat>)
    requires Good(o, m1, mid, after, heap, loop, base) && Keeps(m, m1, Active(scopes)) && Active(scopes) <= Active(mid)
    requires Owns(scopes, m, heap, base) && scopes != []
    requires |mid| == |scopes| && mid[..|scopes| - 1] == scopes[..|scopes| - 1]
    ensures Good(o, m, scopes, after, heap, loop, base)
  {
    assert forall x :: x in Active(scopes) ==> x in Active(mid);
    if loop.Some? && loop.value < |scopes| {
      assert mid[..loop.value] == mid[..|scopes| - 1][..loop.value] == scopes[..loop.value];
    }
  }

  lemma {:induction false} BodyGood(p: Program, b: Stmts, scopes: Scopes, heap: Heap, loop: Option<nat>, base: set<nat>, m: Mem,
                                    ch: seq<bool>)
    requires FineProgram(p, heap.gives) && AllFine(b, scopes + [[]], heap, loop) && Owns(scopes, m, heap, base)
    requires loop.Some? ==> loop.value < |scopes + [[]]|
    ensures Good(Run(CodeOf(p), GenBody(b, scopes), m, ch), m, scopes + [[]], scopes, heap, loop, base)
    ensures loop.Some? && loop.value < |scopes| ==>
              Good(Run(CodeOf(p), GenBody(b, scopes), m, ch), m, scopes, scopes, heap, loop, base)
    ensures loop.None? ==> Good(Run(CodeOf(p), GenBody(b, scopes), m, ch), m, scopes, scopes, heap, loop, base)
    decreases |ch|, 2, b, 2
  {
    var code, inner := CodeOf(p), scopes + [[]];
    ActivePush(scopes);
    AllGood(p, b, inner, heap, loop, base, m, ch);
    RunAppend(code, GenAll(b, inner), Frees(Top(AfterAll(b, inner)), None), m, ch);
    var o := Run(code, GenAll(b, inner), m, ch);
    if o.Fell? {
      AfterAllPrefix(b, inner);
      ScopeEnds(code, scopes, AfterAll(b, inner), heap, base, o.m, o.ch);
    }
    if loop.Some? && loop.value < |scopes| {
      assert inner[..loop.value] == scopes[..loop.value];
    }
  }

  /** The frees at the end of a scope leave the outer scopes owning all there is. */
  lemma ScopeEnds(code: Code, scopes: Scopes, last: Scopes, heap: Heap, base: set<nat>, m: Mem, ch: seq<bool>)
    requires Owns(last, m, heap, base) && |last| == |scopes| + 1 && last[..|scopes|] == scopes
    ensures var o := Run(code, Frees(Top(last), None), m, ch);
            o.Fell? && o.ch == ch && Owns(scopes, o.m, heap, base) && o.m.vars == m.vars
  {
    assert Active(last) == Active(scopes) + Top(last) + [];
    FreesOwn(code, Active(scopes), Top(last), None, [], m, base, ch);
    assert Active(scopes) + [] + [] == Active(scopes);
    RunAccounted(code, Frees(Top(last), None), m, ch);
    assert Active(scopes) <= Active(last);
    assert Typed(Active(scopes), m, heap);
  }

  /** Every iteration, however it ends, leaves exactly what it found. */
  lemma {:induction false} LoopBodyGood(p: Program, b: Stmts, scopes: Scopes, heap: Heap, base: set<nat>, m: Mem, ch: seq<bool>)
    requires FineProgram(p, heap.gives)
    requires AllFine(b, scopes + [[]] + [[]], heap, Some(|scopes|)) && Owns(scopes, m, heap, base)
    ensures var o := Run(CodeOf(p), GenLoopBody(b, scopes), m, ch);
            && ((o.Fell? || o.Broke? || o.Continued?) ==> Owns(scopes, o.m, heap, base) && Keeps(m, o.m, Active(scopes)))
            && (o.Returned? ==> Good(o, m, scopes, scopes, heap, None, base)) && !o.Bad?
    decreases |ch|, 2, b, 3
  {
    var own := scopes + [[]];
    ActivePush(scopes);
    ActivePush(own);
    BodyGood(p, b, own, heap, Some(|scopes|), base, m, ch);
    RunAppend(CodeOf(p), GenBody(b, own), Frees(Top(own), None), m, ch);
    assert (own + [[]])[..|scopes|] == scopes;
  }

  lemma {:induction false} WhileGood(p: Program, e: Exp, b: Stmts, scopes: Scopes, heap: Heap, loop: Option<nat>, base: set<nat>,
                                     m: Mem, ch: seq<bool>)
    requires FineProgram(p, heap.gives) && NothingGot(e, scopes, heap)
    requires AllFine(b, scopes + [[]] + [[]], heap, Some(|scopes|)) && Owns(scopes, m, heap, base)
    ensures Good(RunStmt(CodeOf(p), CWhile(e, GenLoopBody(b, scopes)), m, ch), m, scopes, scopes, heap, loop, base)
    decreases |ch|, 2, b, 4
  {
    EvalOwns(p, e, scopes, heap, base, m, ch);
    var w := CProgram.Eval(CodeOf(p), e, m, ch);
    if w.Got? && w.ch != [] && w.ch[0] {
      LoopBodyGood(p, b, scopes, heap, base, w.m, w.ch[1..]);
      var o := Run(CodeOf(p), GenLoopBody(b, scopes), w.m, w.ch[1..]);
      if o.Fell? || o.Continued? {
        WhileGood(p, e, b, scopes, heap, loop, base, o.m, o.ch);
        GoodAgain(RunStmt(CodeOf(p), CWhile(e, GenLoopBody(b, scopes)), o.m, o.ch), m, o.m, scopes, heap, loop, base);
      }
    }
  }

  /** A counter that shadows no heap variable in scope leaves the scopes owning what they own. */
  lemma {:induction false} ForGood(p: Program, v: string, b: Stmts, scopes: Scopes, heap: Heap, loop: Option<nat>, base: set<nat>,
                                   m: Mem, ch: seq<bool>)
    requires FineProgram(p, heap.gives) && v !in Active(scopes)
    requires AllFine(b, scopes + [[]] + [[]], heap, Some(|scopes|)) && Owns(scopes, m, heap, base)
    ensures Good(RunStmt(CodeOf(p), CFor(v, GenLoopBody(b, scopes)), m, ch), m, scopes, scopes, heap, loop, base)
    decreases |ch|, 2, b, 4
  {
    if ch != [] && ch[0] {
      HideOwns(scopes, v, m, heap, base);
      LoopBodyGood(p, b, scopes, heap, base, Hide(v, m), ch[1..]);
      var o := Run(CodeOf(p), GenLoopBody(b, scopes), Hide(v, m), ch[1..]);
      if o.Fell? || o.Broke? || o.Continued? {
        RestoreOwns(scopes, v, m, o.m, heap, base);
      }
      if o.Fell? || o.Continued? {
        var m1 := Restore(v, m, o.m);
        ForGood(p, v, b, scopes, heap, loop, base, m1, o.ch);
        GoodAgain(RunStmt(CodeOf(p), CFor(v, GenLoopBody(b, scopes)), m1, o.ch), m, m1, scopes, heap, loop, base);
      }
    }
  }

  lemma HideOwns(scopes: Scopes, v: string, m: Mem, heap: Heap, base: set<nat>)
    requires Owns(scopes, m, heap, base) && v !in Active(scopes)
    ensures Owns(scopes, Hide(v, m), heap, base)
  {
    var act, m1 := Active(scopes), Hide(v, m);
    assert forall i :: 0 <= i < |act| ==> act[i] != v && m1.vars[act[i]] == m.vars[act[i]];
    forall o: nat | o in m1.live && o !in base ensures exists i :: 0 <= i < |act| && m1.vars[act[i]] == Obj(o) {
      var i :| 0 <= i < |act| && m.vars[act[i]] == Obj(o);
    }
  }

  lemma RestoreOwns(scopes: Scopes, v: string, before: Mem, m: Mem, heap: Heap, base: set<nat>)
    requires Owns(scopes, before, heap, base) && Owns(scopes, m, heap, base) && v !in Active(scopes)
    requires Keeps(Hide(v, before), m, Active(scopes))
    ensures Owns(scopes, Restore(v, before, m), heap, base) && Keeps(before, Restore(v, before, m), Active(scopes))
  {
    var act, m1 := Active(scopes), Restore(v, before, m);
    assert forall i :: 0 <= i < |act| ==> act[i] != v && m1.vars[act[i]] == m.vars[act[i]];
    forall o: nat | o in m1.live && o !in base ensures exists i :: 0 <= i < |act| && m1.vars[act[i]] == Obj(o) {
      var i :| 0 <= i < |act| && m.vars[act[i]] == Obj(o);
    }
    forall x | x in act && x in before.vars ensures x in m1.vars && m1.vars[x] == before.vars[x] {
      assert x != v && Hide(v, before).vars[x] == before.vars[x];
    }
  }

  /** An iteration that comes back to the loop's head frees exactly what it allocated and was handed. */
  lemma IterationBalanced(p: Program, b: Stmts, scopes: Scopes, heap: Heap, base: set<nat>, m: Mem, ch: seq<bool>)
    requires FineProgram(p, heap.gives)
    requires AllFine(b, scopes + [[]] + [[]], heap, Some(|scopes|)) && Owns(scopes, m, heap, base)
    ensures var o := Run(CodeOf(p), GenLoopBody(b, scopes), m, ch); o.Fell? || o.Continued? ==> o.m.live == m.live
  {
    LoopBodyGood(p, b, scopes, heap, base, m, ch);
    var o := Run(CodeOf(p), GenLoopBody(b, scopes), m, ch);
    if o.Fell? || o.Continued? {
      var act := Active(scopes);
      forall i: nat ensures i in o.m.live <==> i in m.live {
        if i in m.live && i !in base {
          var k :| 0 <= k < |act| && m.vars[act[k]] == Obj(i);
          assert o.m.vars[act[k]] == Obj(i);
        }
        if i in o.m.live && i !in base {
          var k :| 0 <= k < |act| && o.m.vars[act[k]] == Obj(i);
          assert m.vars[act[k]] == Obj(i);
        }
      }
    }
  }

  // ----- functions -----

  /** Code that ends in a return on every path does not fall out of its end. */
  lemma {:induction false} EndsNever(code: Code, s: Stmt, scopes: Scopes, m: Mem, ch: seq<bool>)
    requires Ends(s)
    ensures !Run(code, GenStmt(s, scopes), m, ch).Fell?
    decreases s, 1
  {
    match s
    case Return(ret) => RunAppend(code, FreesAll(scopes, ReturnSkips(ret)), One(CReturn(ret)), m, ch);
    case If(arms) =>
      ArmsNever(code, arms, scopes, m, ch);
      RunOne(code, CIf(GenArms(arms, scopes)), m, ch);
    case Block(b) => BodyNever(code, b, scopes, m, ch);
  }

  lemma {:induction false} AllNever(code: Code, ss: Stmts, scopes: Scopes, m: Mem, ch: seq<bool>)
    requires AllEnd(ss)
    ensures !Run(code, GenAll(ss, scopes), m, ch).Fell?
    decreases ss, 1
  {
    var s, rest := ss.first, GenAll(ss.rest, After(ss.first, scopes));
    RunAppend(code, GenStmt(s, scopes), rest, m, ch);
    if Ends(s) {
      EndsNever(code, s, scopes, m, ch);
    } else {
      var o := Run(code, GenStmt(s, scopes), m, ch);
      if o.Fell? {
        AllNever(code, ss.rest, After(s, scopes), o.m, o.ch);
      }
    }
  }

  lemma {:induction false} BodyNever(code: Code, b: Stmts, scopes: Scopes, m: Mem, ch: seq<bool>)
    requires AllEnd(b)
    ensures !Run(code, GenBody(b, scopes), m, ch).Fell?
    decreases b, 2
  {
    var inner := scopes + [[]];
    AllNever(code, b, inner, m, ch);
    RunAppend(code, GenAll(b, inner), Frees(Top(AfterAll(b, inner)), None), m, ch);
  }

  lemma {:induction false} ArmsNever(code: Code, arms: Arms, scopes: Scopes, m: Mem, ch: seq<bool>)
    requires ArmsEnd(arms)
    ensures !RunArms(code, GenArms(arms, scopes), m, ch).Fell?
    decreases arms, 1
  {
    match arms
    case Otherwise(b) => BodyNever(code, b, scopes, m, ch);
    case When(e, b, more) =>
      var w := CProgram.Eval(code, e, m, ch);
      if w.Got? && w.ch != [] {
        BodyNever(code, b, scopes, w.m, w.ch[1..]);
        ArmsNever(code, more, scopes, w.m, w.ch[1..]);
      }
  }

  /** A function called on any heap. */
  ghost predicate FunctionDone(o: Out, g: Gives, base: set<nat>) {
    match o
    case Fell(m, _) => g == NoPointer && Accounted(m) && m.live == base
    case Returned(m, v, _) => Accounted(m) && Given(g, v, base, m)
    case Undecided => true
    case _ => false
  }

  lemma EndOf(code: Code, name: string, m: Mem, ch: seq<bool>)
    ensures Run(code, End(name), m, ch) == if name == "main" then Returned(m, None, ch) else Fell(m, ch)
  {
    if name == "main" {
      assert RunCalls(code, Inner(CONSTANT), m, ch) == Got(None, m, ch);
      assert CProgram.Eval(code, CONSTANT, m, ch) == Got(None, m, ch);
      RunOne(code, CReturn(Some(CONSTANT)), m, ch);
    }
  }

  lemma {:induction false} FunctionGood(p: Program, f: string, gives: map<string, Gives>, m: Mem, ch: seq<bool>)
    requires FineProgram(p, gives) && f in p && m.vars == map[] && Accounted(m)
    ensures FunctionDone(Run(CodeOf(p), CodeOf(p)[f], m, ch), gives[f], m.live)
    decreases |ch|, 4
  {
    var code, decl, heap := CodeOf(p), p[f].f, p[f].heap;
    var body := Append(GenAll(decl.body, [[]]), Frees(Top(AfterAll(decl.body, [[]])), None));
    FunctionBody(p, decl, heap, m, ch);
    RunAppend(code, body, End(decl.name), m, ch);
    var o := Run(code, body, m, ch);
    if o.Fell? {
      EndOf(code, decl.name, o.m, o.ch);
    }
  }

  /** The body of a function and the cleanup behind it. */
  lemma {:induction false} FunctionBody(p: Program, f: FunctionDecl, heap: Heap, m: Mem, ch: seq<bool>)
    requires FineProgram(p, heap.gives) && FineFunction(f, heap) && m.vars == map[] && Accounted(m)
    ensures var body := Append(GenAll(f.body, [[]]), Frees(Top(AfterAll(f.body, [[]])), None));
            FunctionDone(Run(CodeOf(p), body, m, ch), heap.result, m.live)
    decreases |ch|, 3
  {
    assert Active([[]]) == [];
    var code, body, last := CodeOf(p), GenAll(f.body, [[]]), AfterAll(f.body, [[]]);
    AllGood(p, f.body, [[]], heap, None, m.live, m, ch);
    RunAppend(code, body, Frees(Top(last), None), m, ch);
    var o := Run(code, body, m, ch);
    if o.Fell? {
      if heap.result != NoPointer {
        AllNever(code, f.body, [[]], m, ch);
        assert false;
      } else {
        AfterAllPrefix(f.body, [[]]);
        assert last[..0] == [];
        ScopeEnds(code, [], last, heap, m.live, o.m, o.ch);
        NothingOwned(Run(code, Frees(Top(last), None), o.m, o.ch).m, m.live);
      }
    }
  }

  lemma NothingOwned(m: Mem, base: set<nat>)
    requires OwnsList([], m, base)
    ensures m.live == base
  {
  }

  // ----- whole programs -----

  /** Between two moments all that was allocated has been freed exactly once, except what is kept. */
  ghost predicate Settled(m: Mem, m1: Mem, kept: set<nat>) {
    && m1.live == m.live + kept
    && (forall i, j :: 0 <= i < j < |m1.freed| ==> m1.freed[i] != m1.freed[j])
    && (forall i: nat {:trigger i in m1.freed} :: m.count <= i < m1.count ==> (i in m1.freed <==> i !in kept))
    && (forall i: nat {:trigger i in kept} :: i in kept ==> m.count <= i < m1.count)
    && (forall i: nat {:trigger i in m1.freed} :: i < m.count ==> (i in m1.freed <==> i in m.freed))
  }

  function KeptBy(v: Option<Ptr>): set<nat> {
    if v.Some? && v.value.Obj? then {v.value.id} else {}
  }

  lemma LiveSettles(m: Mem, m1: Mem, kept: set<nat>)
    requires Accounted(m) && Later(m, m1) && m1.live == m.live + kept && m.live !! kept
    ensures Settled(m, m1, kept)
  {
    forall i: nat {:trigger i in kept} | i in kept ensures m.count <= i < m1.count {
      assert i in m1.live && i !in m1.freed && i !in m.freed && i !in m.live;
    }
    forall i: nat {:trigger i in m1.freed} | i < m1.count
      ensures m.count <= i ==> (i in m1.freed <==> i !in kept)
      ensures i < m.count ==> (i in m1.freed <==> i in m.freed)
    {
      assert i in m1.live || i in m1.freed;
      assert i < m.count ==> i in m.live || i in m.freed;
    }
  }

  /**
   * Ownership soundness of a program: on every path of every function no free goes wrong and nothing freed is read;
   * when the function ends, every object that it and the functions it called allocated, including those handed over to
   * it, has been freed exactly once, except the one it returns itself.
   */
  lemma FunctionOwns(p: Program, gives: map<string, Gives>, f: string, ch: seq<bool>)
    requires FineProgram(p, gives) && f in p
    ensures match Run(CodeOf(p), CodeOf(p)[f], START, ch)
            case Fell(m, _) => Settled(START, m, {}) && gives[f] == NoPointer
            case Returned(m, v, _) => Settled(START, m, KeptBy(v)) && (KeptBy(v) != {} <==> gives[f] == AnObject)
            case Undecided => true
            case _ => false
  {
    FunctionGood(p, f, gives, START, ch);
    RunAccounted(CodeOf(p), CodeOf(p)[f], START, ch);
    var o := Run(CodeOf(p), CodeOf(p)[f], START, ch);
    if o.Fell? {
      LiveSettles(START, o.m, {});
    } else if o.Returned? {
      LiveSettles(START, o.m, KeptBy(o.v));
    }
  }

  /**
   * A call from anywhere: the heap of the caller is as it was, but for the one object handed over, if the function
   * gives one; whatever else was allocated during the call has been freed exactly once.
   */
  lemma CallOwns(p: Program, gives: map<string, Gives>, f: string, m: Mem, ch: seq<bool>)
    requires FineProgram(p, gives) && f in p && Accounted(m)
    ensures match CallOf(CodeOf(p), f, m, ch)
            case Got(v, m1, _) => m1.vars == m.vars && Settled(m, m1, KeptBy(v)) && (KeptBy(v) != {} <==> gives[f] == AnObject)
            case Wrong(_) => false
            case NoChoice => true
  {
    if ch != [] {
      var m0 := m.(vars := map[]);
      FunctionGood(p, f, gives, m0, ch[1..]);
      CallAccounted(CodeOf(p), f, m, ch);
      var w := CallOf(CodeOf(p), f, m, ch);
      if w.Got? {
        LiveSettles(m, w.m, KeptBy(w.p));
      }
    }
  }
}
