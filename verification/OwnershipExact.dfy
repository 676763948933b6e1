/** Why each condition of Ownership is there: exactly when a statement that breaks it goes wrong or loses an object. */
module OwnershipExact {
  import opened Values
  import opened CProgram
  import opened Ownership

  // ----- any expression -----

  /** On this path a call that hands over an object is made, and its object goes nowhere. */
  predicate Drops(code: Code, fs: seq<string>, heap: Heap, m: Mem, ch: seq<bool>)
    decreases |fs|
  {
    && fs != [] && ch != []
    && if !ch[0] then Drops(code, fs[1..], heap, m, ch[1..])
       else
         var w := CallOf(code, fs[0], m, ch[1..]);
         w.Got? && (GivesOf(fs[0], heap) == AnObject || Drops(code, fs[1..], heap, w.m, w.ch))
  }

  /** The memory has an object that it did not have, and p does not point to it. */
  ghost predicate Stray(m: Mem, m1: Mem, p: Option<Ptr>) {
    exists k :: k in m1.live && k !in m.live && p != Some(Obj(k))
  }

  lemma {:induction false} CallsExact(p: Program, fs: seq<string>, heap: Heap, m: Mem, ch: seq<bool>)
    requires FineProgram(p, heap.gives) && Accounted(m)
    ensures var w := RunCalls(CodeOf(p), fs, m, ch);
            && !w.Wrong?
            && (w.Got? ==> w.m.vars == m.vars && m.live <= w.m.live && Accounted(w.m)
                           && if Drops(CodeOf(p), fs, heap, m, ch) then Stray(m, w.m, None) else w.m.live == m.live)
    decreases |fs|
  {
    if fs != [] && ch != [] {
      if ch[0] {
        CallGood(p, fs[0], heap, m, ch[1..]);
        var w := CallOf(CodeOf(p), fs[0], m, ch[1..]);
        if w.Got? {
          CallsExact(p, fs[1..], heap, w.m, w.ch);
          var w1 := RunCalls(CodeOf(p), fs[1..], w.m, w.ch);
          if w1.Got? && GivesOf(fs[0], heap) == AnObject {
            assert w.p.value.id in w1.m.live;
          }
        }
      } else {
        CallsExact(p, fs[1..], heap, m, ch[1..]);
      }
    }
  }

  /** The value of any readable expression. */
  lemma EvalExact(p: Program, e: Exp, heap: Heap, m: Mem, ch: seq<bool>)
    requires FineProgram(p, heap.gives) && Accounted(m) && Readable(e, m)
    ensures var w := CProgram.Eval(CodeOf(p), e, m, ch);
            && !w.Wrong?
            && (w.Got? ==> w.m.vars == m.vars && Accounted(w.m) && m.live <= w.m.live
                           && if Drops(CodeOf(p), Inner(e), heap, m, ch) then Stray(m, w.m, w.p) else Valued(w, e, m, heap))
  {
    var code := CodeOf(p);
    CallsExact(p, Inner(e), heap, m, ch);
    var w := RunCalls(code, Inner(e), m, ch);
    if w.Got? {
      if e.Call? {
        CallGood(p, e.f, heap, w.m, w.ch);
      }
      var w1 := CProgram.Eval(code, e, m, ch);
      if w1.Got? && Drops(code, Inner(e), heap, m, ch) {
        var k :| k in w.m.live && k !in m.live;
        assert k in w1.m.live && w1.p != Some(Obj(k));
      }
    }
  }

  /** A stray object is owned by nobody. */
  lemma StrayLost(act: seq<string>, act1: seq<string>, m: Mem, m1: Mem, m2: Mem, base: set<nat>, x: string, p: Ptr)
    requires OwnsList(act, m, base) && Stray(m, m1, Some(p)) && m2.live == m1.live
    requires m2.vars == m1.vars[x := p] && m1.vars == m.vars && forall y :: y in act1 ==> y in act || y == x
    ensures !OwnsList(act1, m2, base)
  {
    var k :| k in m1.live && k !in m.live && Some(p) != Some(Obj(k));
    forall i | 0 <= i < |act1| && act1[i] in m2.vars ensures m2.vars[act1[i]] != Obj(k) {
      if act1[i] != x {
        assert act1[i] in act1 && act1[i] in act;
        var j :| 0 <= j < |act| && act[j] == act1[i];
      }
    }
  }

  // ----- declarations, assignments, results not used -----

  /**
   * A declaration keeps ownership exactly when it allocates, has nothing to start from, or starts from NULL or from an
   * object handed over, and no object handed over on the way is dropped.
   */
  lemma LetExact(p: Program, x: string, typ: string, init: Option<Exp>, scopes: Scopes, heap: Heap, base: set<nat>, m: Mem,
                 ch: seq<bool>)
    requires FineProgram(p, heap.gives) && Owns(scopes, m, heap, base) && scopes != [] && x !in Active(scopes)
    requires NeedsHeapAlloc(typ) && (init.Some? ==> ReadsOk(init.value, scopes, heap))
    ensures var o := Run(CodeOf(p), GenLet(x, typ, init), m, ch);
            && (o.Fell? || o.Undecided?)
            && (o.Fell? ==>
                 (OwnsAll(AddHeap(scopes, x), o.m, base) <==>
                  Allocates(typ, init) || init.None?
                  || ((IsEmpty(init.value, heap) || Hands(init.value, heap))
                      && !Drops(CodeOf(p), Inner(init.value), heap, m, ch))))
  {
    var code := CodeOf(p);
    if Allocates(typ, init) {
      RunOne(code, CAlloc(x), m, ch);
      StmtAccounted(code, CAlloc(x), m, ch);
      GainOwns(scopes, m, RunStmt(code, CAlloc(x), m, ch).m, base, x, m.count);
    } else {
      RunOne(code, CBorrow(x, init), m, ch);
      if init.None? {
        EmptyOwns(scopes, m, m.(vars := m.vars[x := Null]), base, x);
      } else {
        BorrowExact(p, x, init.value, scopes, heap, base, m, ch);
      }
    }
  }

  lemma BorrowExact(p: Program, x: string, e: Exp, scopes: Scopes, heap: Heap, base: set<nat>, m: Mem, ch: seq<bool>)
    requires FineProgram(p, heap.gives) && Owns(scopes, m, heap, base) && scopes != [] && x !in Active(scopes)
    requires ReadsOk(e, scopes, heap)
    ensures var o := RunStmt(CodeOf(p), CBorrow(x, Some(e)), m, ch);
            && (o.Fell? || o.Undecided?)
            && (o.Fell? ==>
                 (OwnsAll(AddHeap(scopes, x), o.m, base) <==>
                  (IsEmpty(e, heap) || Hands(e, heap)) && !Drops(CodeOf(p), Inner(e), heap, m, ch)))
  {
    ReadsReadable(e, scopes, m, heap, base);
    EvalExact(p, e, heap, m, ch);
    ActiveAdd(scopes, x);
    var w := CProgram.Eval(CodeOf(p), e, m, ch);
    if w.Got? {
      var act, v, m1 := Active(scopes), if w.p.Some? then w.p.value else Foreign, Borrow(x, w.p, w.m);
      if Drops(CodeOf(p), Inner(e), heap, m, ch) {
        assert Stray(m, w.m, Some(v));
        StrayLost(act, act + [x], m, w.m, m1, base, x, v);
      } else if Hands(e, heap) {
        GainOwns(scopes, m, m1, base, x, w.p.value.id);
      } else if IsEmpty(e, heap) {
        EmptyIsNull(e, scopes, heap, base, m, w);
        EmptyOwns(scopes, m, m1, base, x);
      } else {
        assert (act + [x])[|act|] == x;
        NotNew(e, scopes, heap, base, m, w);
        if w.p.Some? {
          var i :| 0 <= i < |act| && act[i] == e.x && m.vars[act[i]] == w.p.value;
          assert (act + [x])[i] == act[i] != x && m1.vars[act[i]] == m1.vars[x];
        }
      }
    }
  }

  /** The value of an expression that is not empty and hands over nothing: what some name owns, or no known pointer. */
  lemma NotNew(e: Exp, scopes: Scopes, heap: Heap, base: set<nat>, m: Mem, w: Worth)
    requires Owns(scopes, m, heap, base) && ReadsOk(e, scopes, heap) && w.Got? && Valued(w, e, m, heap)
    requires !IsEmpty(e, heap) && !Hands(e, heap)
    ensures w.m.live == m.live
    ensures w.p.Some? ==> e.Ident? && w.p.value.Obj?
                          && exists i :: 0 <= i < |Active(scopes)| && Active(scopes)[i] == e.x && m.vars[Active(scopes)[i]] == w.p.value
  {
    if w.p.Some? {
      var act := Active(scopes);
      assert e.Ident? && OnHeap(e.x, heap) && e.x in act;
      var i :| 0 <= i < |act| && act[i] == e.x;
      assert act[i] in heap.empty <==> m.vars[act[i]].Null?;
    }
  }

  /**
   * Assigning to a heap variable keeps ownership exactly when it is given itself, or is NULL and given NULL or an object
   * handed over, and no object handed over on the way is dropped.
   */
  lemma SetExact(p: Program, y: string, e: Exp, scopes: Scopes, heap: Heap, base: set<nat>, m: Mem, ch: seq<bool>)
    requires FineProgram(p, heap.gives) && Owns(scopes, m, heap, base) && y in Active(scopes) && ReadsOk(e, scopes, heap)
    ensures var o := Run(CodeOf(p), GenStmt(Set(y, e), scopes), m, ch);
            && (o.Fell? || o.Undecided?)
            && (o.Fell? ==>
                 (OwnsAll(scopes, o.m, base) <==>
                  (e == Ident(y) || (y in heap.empty && (IsEmpty(e, heap) || Hands(e, heap))))
                  && !Drops(CodeOf(p), Inner(e), heap, m, ch)))
  {
    RunOne(CodeOf(p), CAssign(y, e), m, ch);
    ReadsReadable(e, scopes, m, heap, base);
    EvalExact(p, e, heap, m, ch);
    var w := CProgram.Eval(CodeOf(p), e, m, ch);
    if w.Got? {
      var act := Active(scopes);
      var i :| 0 <= i < |act| && act[i] == y;
      assert act[i] in heap.empty <==> m.vars[act[i]].Null?;
      var v, m1 := if w.p.Some? then w.p.value else Foreign, Assign(y, w.p, w.m);
      assert m1 == w.m.(vars := w.m.vars[y := v]);
      if Drops(CodeOf(p), Inner(e), heap, m, ch) {
        assert Stray(m, w.m, Some(v));
        StrayLost(act, act, m, w.m, m1, base, y, v);
      } else if e == Ident(y) {
        assert m1.vars == m.vars;
      } else {
        SetOther(i, e, scopes, heap, base, m, w);
      }
    }
  }

  /** A variable given something else than itself. */
  lemma SetOther(i: nat, e: Exp, scopes: Scopes, heap: Heap, base: set<nat>, m: Mem, w: Worth)
    requires Owns(scopes, m, heap, base) && i < |Active(scopes)| && ReadsOk(e, scopes, heap)
    requires w.Got? && Valued(w, e, m, heap) && e != Ident(Active(scopes)[i])
    ensures var y := Active(scopes)[i];
            OwnsAll(scopes, Assign(y, w.p, w.m), base) <==> y in heap.empty && (IsEmpty(e, heap) || Hands(e, heap))
  {
    var act := Active(scopes);
    var y := act[i];
    var m1 := Assign(y, w.p, w.m);
    assert y in heap.empty <==> m.vars[y].Null?;
    assert forall j :: 0 <= j < |act| && j != i ==> act[j] != y && m1.vars[act[j]] == m.vars[act[j]];
    if !IsEmpty(e, heap) && !Hands(e, heap) {
      NotNew(e, scopes, heap, base, m, w);
      if w.p.Some? {
        var j :| 0 <= j < |act| && act[j] == e.x && m.vars[act[j]] == w.p.value;
        assert j != i && m1.vars[act[j]] == m1.vars[act[i]];
      } else {
        assert m1.vars[act[i]] == Foreign;
      }
    } else {
      if IsEmpty(e, heap) {
        EmptyIsNull(e, scopes, heap, base, m, w);
      }
      if y in heap.empty {
        NullReplaced(act, i, m, m1, base);
      } else {
        ObjectLost(act, i, m, m1, base);
      }
    }
  }

  /** NULL was replaced by NULL or by a new object. */
  lemma NullReplaced(act: seq<string>, i: nat, m: Mem, m1: Mem, base: set<nat>)
    requires OwnsList(act, m, base) && i < |act| && m.vars[act[i]].Null? && act[i] in m1.vars
    requires m1.vars == m.vars[act[i] := m1.vars[act[i]]]
    requires if m1.vars[act[i]].Null? then m1.live == m.live
             else m1.vars[act[i]].Obj? && m1.vars[act[i]].id !in m.live && m1.live == m.live + {m1.vars[act[i]].id}
    ensures OwnsList(act, m1, base)
  {
    assert forall j :: 0 <= j < |act| && j != i ==> act[j] != act[i] && m1.vars[act[j]] == m.vars[act[j]];
    forall o: nat | o in m1.live && o !in base ensures exists j :: 0 <= j < |act| && m1.vars[act[j]] == Obj(o) {
      if o in m.live {
        var j :| 0 <= j < |act| && m.vars[act[j]] == Obj(o);
        assert m1.vars[act[j]] == Obj(o);
      } else {
        assert m1.vars[act[i]] == Obj(o);
      }
    }
  }

  /** The object of the variable was replaced, and nobody else has it. */
  lemma ObjectLost(act: seq<string>, i: nat, m: Mem, m1: Mem, base: set<nat>)
    requires OwnsList(act, m, base) && i < |act| && m.vars[act[i]].Obj? && act[i] in m1.vars
    requires m1.vars == m.vars[act[i] := m1.vars[act[i]]] && m1.vars[act[i]] != m.vars[act[i]] && m.live <= m1.live
    ensures !OwnsList(act, m1, base)
  {
    var o := m.vars[act[i]].id;
    forall j | 0 <= j < |act| ensures m1.vars[act[j]] != Obj(o) {
      assert j < i || j == i || i < j;
    }
  }

  /** An expression statement keeps ownership exactly when no object is handed over by it or on the way. */
  lemma DiscardExact(p: Program, e: Exp, scopes: Scopes, heap: Heap, base: set<nat>, m: Mem, ch: seq<bool>)
    requires FineProgram(p, heap.gives) && Owns(scopes, m, heap, base) && ReadsOk(e, scopes, heap)
    ensures var o := Run(CodeOf(p), GenStmt(Ownership.Eval(e), scopes), m, ch);
            && (o.Fell? || o.Undecided?)
            && (o.Fell? ==>
                 (OwnsAll(scopes, o.m, base) <==> !Hands(e, heap) && !Drops(CodeOf(p), Inner(e), heap, m, ch)))
  {
    RunOne(CodeOf(p), CEval(e), m, ch);
    ReadsReadable(e, scopes, m, heap, base);
    EvalExact(p, e, heap, m, ch);
    var w := CProgram.Eval(CodeOf(p), e, m, ch);
    if w.Got? && (Hands(e, heap) || Drops(CodeOf(p), Inner(e), heap, m, ch)) {
      var act := Active(scopes);
      var k :| k in w.m.live && k !in m.live;
      assert forall i :: 0 <= i < |act| ==> w.m.vars[act[i]] != Obj(k);
    }
  }

  // ----- breaks -----

  /** A `break` leaves the loop's surroundings owning all there is exactly when the iteration has declared no object. */
  lemma BreakExact(scopes: Scopes, heap: Heap, base: set<nat>, m: Mem, k: nat)
    requires Owns(scopes, m, heap, base) && k <= |scopes|
    ensures Owns(scopes[..k], m, heap, base) <==> NoneSince(scopes, k, heap)
  {
    if NoneSince(scopes, k, heap) {
      EmptyLeft(scopes, k, m, heap, base);
    } else {
      var n := SomeSince(scopes, k, heap);
      ActivePrefix(scopes, k);
      var act, outer := Active(scopes), Active(scopes[..k]);
      NotEmpty(act, n, m, heap, base);
      forall j | 0 <= j < |outer| ensures m.vars[outer[j]] != m.vars[act[n]] {
        assert outer[j] == act[j];
      }
    }
  }

  lemma NotEmpty(act: seq<string>, i: nat, m: Mem, heap: Heap, base: set<nat>)
    requires i < |act| && OwnsList(act, m, base) && Typed(act, m, heap) && act[i] !in heap.empty
    ensures m.vars[act[i]].Obj?
  {
  }

  lemma {:induction false} ActivePrefix(scopes: Scopes, k: nat)
    requires k <= |scopes|
    ensures Active(scopes[..k]) <= Active(scopes)
    decreases |scopes|
  {
    if k < |scopes| {
      ActivePrefix(scopes[..|scopes| - 1], k);
      assert scopes[..|scopes| - 1][..k] == scopes[..k];
    } else {
      assert scopes[..k] == scopes;
    }
  }

  /** Where a variable with an object stands that was declared since scope k was the innermost. */
  lemma {:induction false} SomeSince(scopes: Scopes, k: nat, heap: Heap) returns (n: nat)
    requires k <= |scopes| && !NoneSince(scopes, k, heap)
    ensures |Active(scopes[..k])| <= n < |Active(scopes)| && Active(scopes)[n] !in heap.empty
    decreases |scopes|
  {
    var last := |scopes| - 1;
    assert scopes[..last][..k] == scopes[..k];
    if k <= last && exists j :: 0 <= j < |scopes[last]| && scopes[last][j] !in heap.empty {
      var j :| 0 <= j < |scopes[last]| && scopes[last][j] !in heap.empty;
      ActivePrefix(scopes[..last], k);
      n := |Active(scopes[..last])| + j;
    } else {
      assert forall i :: k <= i < last ==> scopes[..last][i] == scopes[i];
      n := SomeSince(scopes[..last], k, heap);
    }
  }

  // ----- returns, with the counters of the loops around them -----

  /** The counters in scope hide the variables of their names. */
  function HideAll(counters: set<string>, m: Mem): Mem {
    m.(vars := m.vars - counters)
  }

  /** A counter has the name of a variable that is about to be freed. */
  predicate Hit(vars: seq<string>, skip: Option<string>, counters: set<string>) {
    exists i :: 0 <= i < |vars| && vars[i] in counters && Some(vars[i]) != skip
  }

  /** The frees act on the counters: they free one if they can, and otherwise do what they do without counters. */
  lemma {:induction false} FreesHidden(code: Code, vars: seq<string>, skip: Option<string>, counters: set<string>, m: Mem,
                                       ch: seq<bool>)
    requires Run(code, Frees(vars, skip), m, ch).Fell?
    ensures var o := Run(code, Frees(vars, skip), HideAll(counters, m), ch);
            if Hit(vars, skip, counters) then o == Bad(FreeOfForeign)
            else o == Fell(HideAll(counters, Run(code, Frees(vars, skip), m, ch).m), Run(code, Frees(vars, skip), m, ch).ch)
    decreases |vars|
  {
    if vars != [] {
      var x, rest := vars[0], vars[1..];
      assert forall i :: 0 <= i < |rest| ==> rest[i] == vars[i + 1];
      assert Hit(vars, skip, counters) <==> (x in counters && Some(x) != skip) || Hit(rest, skip, counters) by {
        if Hit(rest, skip, counters) {
          var i :| 0 <= i < |rest| && rest[i] in counters && Some(rest[i]) != skip;
          assert vars[i + 1] in counters && Some(vars[i + 1]) != skip;
        }
        if Hit(vars, skip, counters) {
          var i :| 0 <= i < |vars| && vars[i] in counters && Some(vars[i]) != skip;
          assert i == 0 || rest[i - 1] == vars[i];
        }
      }
      if Some(x) == skip {
        FreesHidden(code, rest, skip, counters, m, ch);
      } else if x !in counters {
        var m1 := Free(m, x).m;
        assert Free(HideAll(counters, m), x) == Fell(HideAll(counters, m1), []);
        FreesHidden(code, rest, skip, counters, m1, ch);
      }
    }
  }

  lemma {:induction false} FreesAllHidden(code: Code, scopes: Scopes, skip: Option<string>, counters: set<string>, m: Mem,
                                          ch: seq<bool>)
    requires Run(code, FreesAll(scopes, skip), m, ch).Fell?
    ensures var o := Run(code, FreesAll(scopes, skip), HideAll(counters, m), ch);
            var o1 := Run(code, FreesAll(scopes, skip), m, ch);
            if Hit(Active(scopes), skip, counters) then o == Bad(FreeOfForeign) else o == Fell(HideAll(counters, o1.m), o1.ch)
    decreases |scopes|
  {
    if scopes != [] {
      var k := |scopes| - 1;
      var top, outer := Frees(scopes[k], skip), FreesAll(scopes[..k], skip);
      RunAppend(code, top, outer, m, ch);
      RunAppend(code, top, outer, HideAll(counters, m), ch);
      FreesHidden(code, scopes[k], skip, counters, m, ch);
      var o := Run(code, top, m, ch);
      FreesAllHidden(code, scopes[..k], skip, counters, o.m, o.ch);
      HitAppend(Active(scopes[..k]), scopes[k], skip, counters);
    }
  }

  lemma HitAppend(a: seq<string>, b: seq<string>, skip: Option<string>, counters: set<string>)
    ensures Hit(a + b, skip, counters) <==> Hit(a, skip, counters) || Hit(b, skip, counters)
  {
    if Hit(a, skip, counters) {
      var i :| 0 <= i < |a| && a[i] in counters && Some(a[i]) != skip;
      assert (a + b)[i] == a[i];
    }
    if Hit(b, skip, counters) {
      var i :| 0 <= i < |b| && b[i] in counters && Some(b[i]) != skip;
      assert (a + b)[|a| + i] == b[i];
    }
    if Hit(a + b, skip, counters) {
      var i :| 0 <= i < |a + b| && (a + b)[i] in counters && Some((a + b)[i]) != skip;
      assert if i < |a| then a[i] == (a + b)[i] else b[i - |a|] == (a + b)[i];
    }
  }

  /** What is read of a variable that has been freed, past the counters. */
  predicate ReadsFreed(ret: Option<Exp>, scopes: Scopes, heap: Heap, counters: set<string>) {
    ret.Some? && !ret.value.Ident?
    && exists x :: x in Reads(ret.value) && x in Active(scopes) && x !in counters && x !in heap.empty
  }

  /** The name returned is a counter, and a variable of that name has an object. */
  predicate ReturnsCounter(ret: Option<Exp>, scopes: Scopes, heap: Heap, counters: set<string>) {
    ret.Some? && ret.value.Ident? && ret.value.x in counters && ret.value.x in Active(scopes) && ret.value.x !in heap.empty
  }

  /**
   * A return inside loops with these counters goes wrong exactly when one of them has the name of a heap variable in
   * scope that is not the one returned, or when the result reads a variable with an object and is more than its name.
   * What is left on the heap is then the object returned and nothing else, exactly when the name returned is not that
   * of a counter in front of a variable with an object.
   */
  lemma ReturnExact(p: Program, ret: Option<Exp>, scopes: Scopes, heap: Heap, base: set<nat>, counters: set<string>, m: Mem,
                    ch: seq<bool>)
    requires FineProgram(p, heap.gives) && Owns(scopes, m, heap, base) && (ret.Some? ==> ReadsOk(ret.value, scopes, heap))
    ensures var o := Run(CodeOf(p), GenStmt(Return(ret), scopes), HideAll(counters, m), ch);
            && (o.Bad? || o.Returned? || o.Undecided?)
            && (o.Bad? <==> Hit(Active(scopes), ReturnSkips(ret), counters) || ReadsFreed(ret, scopes, heap, counters))
            && (o.Returned? && (ret.Some? ==> Quiet(Inner(ret.value), heap)) ==>
                 (o.m.live == base + KeptBy(o.v) <==> !ReturnsCounter(ret, scopes, heap, counters)))
  {
    var code, skip, mh := CodeOf(p), ReturnSkips(ret), HideAll(counters, m);
    var m1 := ReturnFrees(code, ret, scopes, heap, base, m, ch);
    FreesAllHidden(code, scopes, skip, counters, m, ch);
    RunAppend(code, FreesAll(scopes, skip), One(CReturn(ret)), mh, ch);
    RunOne(code, CReturn(ret), HideAll(counters, m1), ch);
    ResultExact(p, ret, scopes, heap, base, counters, m, m1, ch);
  }

  /** The result, read behind the frees. */
  lemma ResultExact(p: Program, ret: Option<Exp>, scopes: Scopes, heap: Heap, base: set<nat>, counters: set<string>, m: Mem,
                    m1: Mem, ch: seq<bool>)
    requires FineProgram(p, heap.gives) && Owns(scopes, m, heap, base) && (ret.Some? ==> ReadsOk(ret.value, scopes, heap))
    requires OwnsList(Kept(ret, scopes), m1, base) && m1.vars == m.vars && Accounted(m1)
    requires Kept(ret, scopes) == [] ==> m1.live == base
    ensures var o := RunStmt(CodeOf(p), CReturn(ret), HideAll(counters, m1), ch);
            && (o.Bad? || o.Returned? || o.Undecided?)
            && (o.Bad? <==> ReadsFreed(ret, scopes, heap, counters))
            && (o.Returned? && (ret.Some? ==> Quiet(Inner(ret.value), heap)) ==>
                 (o.m.live == base + KeptBy(o.v) <==> !ReturnsCounter(ret, scopes, heap, counters)))
  {
    if ret.Some? {
      var e, mh := ret.value, HideAll(counters, m1);
      if e.Ident? {
        ReturnedName(e.x, scopes, heap, base, m, m1);
        NameKept(e.x, scopes, heap, base, m, m1);
        assert Readable(e, mh);
      } else {
        FreedRead(e, scopes, heap, base, counters, m, m1);
      }
      if Readable(e, mh) {
        EvalExact(p, e, heap, mh, ch);
        if Quiet(Inner(e), heap) {
          QuietDrops(CodeOf(p), Inner(e), heap, mh, ch);
        }
      }
    }
  }

  /** What a name that is returned keeps on the heap. */
  lemma NameKept(x: string, scopes: Scopes, heap: Heap, base: set<nat>, m: Mem, m1: Mem)
    requires Owns(scopes, m, heap, base) && m1.vars == m.vars && OwnsList(Kept(Some(Ident(x)), scopes), m1, base)
    ensures x in Active(scopes) ==> x in m1.vars && !m1.vars[x].Foreign? && (x in heap.empty <==> m1.vars[x].Null?)
    ensures m1.live == base + if x in Active(scopes) && m1.vars[x].Obj? then {m1.vars[x].id} else {}
    ensures x in Active(scopes) && m1.vars[x].Obj? ==> m1.vars[x].id !in base
  {
    var act := Active(scopes);
    if x in act {
      var i :| 0 <= i < |act| && act[i] == x;
      assert Kept(Some(Ident(x)), scopes)[0] == x;
    }
  }

  /** Behind the frees an expression that is no name is readable exactly when it reads no variable with an object. */
  lemma FreedRead(e: Exp, scopes: Scopes, heap: Heap, base: set<nat>, counters: set<string>, m: Mem, m1: Mem)
    requires Owns(scopes, m, heap, base) && ReadsOk(e, scopes, heap) && !e.Ident? && m1.vars == m.vars && m1.live == base
    ensures Readable(e, HideAll(counters, m1)) <==> !ReadsFreed(Some(e), scopes, heap, counters)
  {
    var act, mh := Active(scopes), HideAll(counters, m1);
    if ReadsFreed(Some(e), scopes, heap, counters) {
      var x :| x in Reads(e) && x in act && x !in counters && x !in heap.empty;
      var i :| 0 <= i < |act| && act[i] == x;
      NotEmpty(act, i, m, heap, base);
      assert x in mh.vars && mh.vars[x].Obj? && mh.vars[x].id !in mh.live;
    } else {
      forall x | x in Reads(e) && x in mh.vars ensures mh.vars[x].Null? {
        assert OnHeap(x, heap) && x in act;
        var i :| 0 <= i < |act| && act[i] == x;
      }
    }
  }

  lemma {:induction false} QuietDrops(code: Code, fs: seq<string>, heap: Heap, m: Mem, ch: seq<bool>)
    requires Quiet(fs, heap)
    ensures !Drops(code, fs, heap, m, ch)
    decreases |fs|
  {
    if fs != [] && ch != [] {
      assert GivesOf(fs[0], heap) != AnObject;
      assert forall i :: 0 <= i < |fs[1..]| ==> fs[1..][i] == fs[i + 1];
      QuietDrops(code, fs[1..], heap, m, ch[1..]);
      var w := CallOf(code, fs[0], m, ch[1..]);
      if w.Got? {
        QuietDrops(code, fs[1..], heap, w.m, w.ch);
      }
    }
  }

  // ----- examples -----

  /** The type of the arrays below, and of a string. */
  lemma TypesAre()
    ensures Contains("i32[1]", "[") && !Contains("string", "[")
  {
    var a := "i32[1]";
    assert a[1..][1..][1..][..1] == "[";
    assert Contains(a[1..][1..][1..], "[");
    assert Contains(a[1..][1..], "[");
    assert Contains(a[1..], "[");
    var t := "string";
    assert t[1..][1..][1..][1..][1..] == "g" && "g"[..1][0] == 'g' && "["[0] == '[';
    assert !Contains("g"[1..], "[");
    assert !Contains(t[1..][1..][1..][1..][1..][1..], "[");
    assert !Contains(t[1..][1..][1..][1..][1..], "[");
    assert !Contains(t[1..][1..][1..][1..], "[");
    assert !Contains(t[1..][1..][1..], "[");
    assert !Contains(t[1..][1..], "[");
    assert !Contains(t[1..], "[");
  }

  lemma FirstHeap(x: string)
    ensures AddHeap([[]], x) == [[x]]
  {
    var none: seq<string> := [];
    assert none + [x] == [x];
  }

  lemma ConstantIs(m: Mem, ch: seq<bool>)
    ensures CProgram.Eval(map[], CONSTANT, m, ch) == Got(None, m, ch)
  {
    assert RunCalls(map[], Inner(CONSTANT), m, ch) == Got(None, m, ch);
  }

  /** A body, its cleanup, and nothing behind it. */
  lemma RunFunction(f: FunctionDecl, ch: seq<bool>)
    requires f.name != "main"
    ensures var o := Run(map[], GenAll(f.body, [[]]), START, ch);
            Run(map[], GenFunction(f), START, ch)
            == if o.Fell? then Run(map[], Frees(Top(AfterAll(f.body, [[]])), None), o.m, o.ch) else o
  {
    var body, frees := GenAll(f.body, [[]]), Frees(Top(AfterAll(f.body, [[]])), None);
    RunAppend(map[], body, frees, START, ch);
    RunAppend(map[], Append(body, frees), NoCode, START, ch);
    var o := Run(map[], Append(body, frees), START, ch);
    if o.Fell? {
      assert Run(map[], NoCode, o.m, o.ch) == o;
    }
  }

  /** `while (..) { let a: i32[1]; break; }` leaks. */
  lemma BreakLeaks()
    ensures var body := Then(Let("a", "i32[1]", None), Then(Break, Empty));
            var o := Run(map[], GenFunction(FunctionDecl("f", Then(While(CONSTANT, body), Empty))), START, [true]);
            o.Fell? && o.m.live == {0}
  {
    var body := Then(Let("a", "i32[1]", None), Then(Break, Empty));
    var m := Mem(map["a" := Obj(0)], {0}, 1, []);
    BreakBody(body, m);
    ConstantIs(START, [true]);
    var loop := CWhile(CONSTANT, GenLoopBody(body, [[]]));
    assert [true][1..] == [];
    assert RunStmt(map[], loop, START, [true]) == Fell(m, []);
    Alone(While(CONSTANT, body), loop, [true], m);
  }

  lemma BreakBody(body: Stmts, m: Mem)
    requires body == Then(Let("a", "i32[1]", None), Then(Break, Empty)) && m == Mem(map["a" := Obj(0)], {0}, 1, [])
    ensures Run(map[], GenLoopBody(body, [[]]), START, []) == Broke(m, [])
  {
    var own: Scopes := [[]] + [[]];
    var inner := own + [[]];
    BreakCode(body, inner);
    assert RunStmt(map[], CAlloc("a"), START, []) == Fell(m, []);
    assert Run(map[], One(CBreak), m, []) == Broke(m, []);
    RunAppend(map[], GenAll(body, inner), Frees(Top(AfterAll(body, inner)), None), START, []);
    RunAppend(map[], GenBody(body, own), Frees(Top(own), None), START, []);
  }

  lemma BreakCode(body: Stmts, scopes: Scopes)
    requires body == Then(Let("a", "i32[1]", None), Then(Break, Empty))
    ensures GenAll(body, scopes) == Cons(CAlloc("a"), One(CBreak))
  {
    TypesAre();
    assert GenAll(body.rest, After(body.first, scopes)) == One(CBreak);
  }

  /** A function whose body is one statement that declares nothing. */
  lemma Alone(s: Stmt, c: CStmt, ch: seq<bool>, m: Mem)
    requires GenStmt(s, [[]]) == One(c) && After(s, [[]]) == [[]]
    ensures var o := RunStmt(map[], c, START, ch);
            o.Fell? || o.Bad? ==> Run(map[], GenFunction(FunctionDecl("f", Then(s, Empty))), START, ch) == o
  {
    var whole := Then(s, Empty);
    assert GenAll(Empty, [[]]) == NoCode && Append(One(c), NoCode) == Cons(c, Append(NoCode, NoCode));
    assert GenAll(whole, [[]]) == One(c);
    assert AfterAll(Empty, [[]]) == [[]];
    RunOne(map[], c, START, ch);
    RunFunction(FunctionDecl("f", whole), ch);
    var o := RunStmt(map[], c, START, ch);
    if o.Fell? {
      assert Run(map[], Frees(Top([[]]), None), o.m, o.ch) == o;
    }
  }

  /** `let a: i32[1]; for a in .. { return 0; }` frees the counter. */
  lemma CounterIsFreed()
    ensures var loop := For("a", CONSTANT, Then(Return(Some(CONSTANT)), Empty));
            var f := FunctionDecl("f", Then(Let("a", "i32[1]", None), Then(loop, Empty)));
            Run(map[], GenFunction(f), START, [true]) == Bad(FreeOfForeign)
  {
    TypesAre();
    FirstHeap("a");
    var loop := For("a", CONSTANT, Then(Return(Some(CONSTANT)), Empty));
    var whole := Then(Let("a", "i32[1]", None), Then(loop, Empty));
    var m := Mem(map["a" := Obj(0)], {0}, 1, []);
    CounterRuns(loop, m);
    RunAppend(map[], One(CAlloc("a")), GenAll(whole.rest, [["a"]]), START, [true]);
    RunOne(map[], CAlloc("a"), START, [true]);
    assert RunStmt(map[], CAlloc("a"), START, [true]) == Fell(m, [true]);
    assert After(whole.first, [[]]) == [["a"]];
    RunFunction(FunctionDecl("f", whole), [true]);
  }

  lemma CounterRuns(loop: Stmt, m: Mem)
    requires loop == For("a", CONSTANT, Then(Return(Some(CONSTANT)), Empty)) && m == Mem(map["a" := Obj(0)], {0}, 1, [])
    ensures Run(map[], GenAll(Then(loop, Empty), [["a"]]), m, [true]) == Bad(FreeOfForeign)
  {
    var c := CFor("a", GenLoopBody(loop.fbody, [["a"]]));
    assert [true][1..] == [];
    CounterBody(loop.fbody, m);
    assert RunStmt(map[], c, m, [true]) == Bad(FreeOfForeign);
    RunOne(map[], c, m, [true]);
    RunAppend(map[], GenStmt(loop, [["a"]]), GenAll(Empty, [["a"]]), m, [true]);
  }

  lemma CounterBody(body: Stmts, m: Mem)
    requires body == Then(Return(Some(CONSTANT)), Empty) && m == Mem(map["a" := Obj(0)], {0}, 1, [])
    ensures Run(map[], GenLoopBody(body, [["a"]]), Hide("a", m), []) == Bad(FreeOfForeign)
  {
    var own, inner := [["a"]] + [[]], [["a"]] + [[]] + [[]];
    CounterReturns(m);
    RunAppend(map[], GenStmt(body.first, inner), GenAll(Empty, inner), Hide("a", m), []);
    RunAppend(map[], GenAll(body, inner), Frees(Top(AfterAll(body, inner)), None), Hide("a", m), []);
    RunAppend(map[], GenBody(body, own), Frees(Top(own), None), Hide("a", m), []);
  }

  lemma CounterReturns(m: Mem)
    requires m == Mem(map["a" := Obj(0)], {0}, 1, [])
    ensures Run(map[], GenStmt(Return(Some(CONSTANT)), [["a"]] + [[]] + [[]]), Hide("a", m), []) == Bad(FreeOfForeign)
  {
    var scopes: Scopes := [["a"]] + [[]] + [[]];
    assert scopes[..2] == [["a"]] + [[]] && scopes[..2][..1] == [["a"]] && [["a"]][..0] == [];
    assert ["a"][1..] == [];
    assert Frees(["a"], None) == One(CFree("a"));
    assert FreesAll([["a"]], None) == Append(One(CFree("a")), NoCode);
    assert FreesAll(scopes[..2], None) == Append(NoCode, FreesAll([["a"]], None));
    assert FreesAll(scopes, None) == Append(NoCode, FreesAll(scopes[..2], None));
    assert GenStmt(Return(Some(CONSTANT)), scopes) == Append(Cons(CFree("a"), NoCode), One(CReturn(Some(CONSTANT))));
  }

  /** `let s: string = "..."` points to storage that claw_alloc never gave out, and is freed all the same. */
  lemma StringLiteralIsFreed(ch: seq<bool>)
    ensures var f := FunctionDecl("f", Then(Let("s", "string", Some(CONSTANT)), Empty));
            Run(map[], GenFunction(f), START, ch) == Bad(FreeOfForeign)
  {
    TypesAre();
    var body := Then(Let("s", "string", Some(CONSTANT)), Empty);
    var m := Mem(map["s" := Foreign], {}, 0, []);
    ConstantIs(START, ch);
    assert GenAll(body, [[]]) == Cons(CBorrow("s", Some(CONSTANT)), NoCode);
    assert Run(map[], GenAll(body, [[]]), START, ch) == Fell(m, ch);
    FirstHeap("s");
    assert After(body.first, [[]]) == [["s"]];
    assert AfterAll(body, [[]]) == [["s"]];
    assert ["s"][1..] == [];
    assert Frees(["s"], None) == Cons(CFree("s"), NoCode);
    RunFunction(FunctionDecl("f", body), ch);
  }

  /** `let a: i32[1]; let b: i32[1]; b = a;` frees one object twice. */
  lemma AliasIsFreedTwice(ch: seq<bool>)
    ensures var f := FunctionDecl("f", Then(Let("a", "i32[1]", None), Then(Let("b", "i32[1]", None),
                                       Then(Set("b", Ident("a")), Empty))));
            Run(map[], GenFunction(f), START, ch) == Bad(FreeOfFreed)
  {
    TypesAre();
    var third := Then(Set("b", Ident("a")), Empty);
    var second := Then(Let("b", "i32[1]", None), third);
    var body := Then(Let("a", "i32[1]", None), second);
    FirstHeap("a");
    assert ["a"] + ["b"] == ["a", "b"];
    assert GenAll(third, [["a", "b"]]) == One(CAssign("b", Ident("a")));
    assert After(Let("b", "i32[1]", None), [["a"]]) == [["a", "b"]];
    assert GenAll(second, [["a"]]) == Cons(CAlloc("b"), One(CAssign("b", Ident("a"))));
    assert After(Let("a", "i32[1]", None), [[]]) == [["a"]];
    var code := Cons(CAlloc("a"), Cons(CAlloc("b"), One(CAssign("b", Ident("a")))));
    assert GenAll(body, [[]]) == code;
    assert AfterAll(third, [["a", "b"]]) == [["a", "b"]];
    assert AfterAll(second, [["a"]]) == [["a", "b"]];
    assert AfterAll(body, [[]]) == [["a", "b"]];
    var m := Mem(map["a" := Obj(0), "b" := Obj(0)], {0, 1}, 2, []);
    AliasRun(m, ch);
    assert Frees(["b"], None) == Cons(CFree("b"), NoCode);
    assert ["a", "b"][1..] == ["b"];
    assert Frees(["a", "b"], None) == Cons(CFree("a"), Cons(CFree("b"), NoCode));
    RunFunction(FunctionDecl("f", body), ch);
  }

  lemma AliasRun(m: Mem, ch: seq<bool>)
    requires m == Mem(map["a" := Obj(0), "b" := Obj(0)], {0, 1}, 2, [])
    ensures Run(map[], Cons(CAlloc("a"), Cons(CAlloc("b"), One(CAssign("b", Ident("a"))))), START, ch) == Fell(m, ch)
    ensures Run(map[], Cons(CFree("a"), Cons(CFree("b"), NoCode)), m, ch) == Bad(FreeOfFreed)
  {
    var m1 := Mem(map["a" := Obj(0)], {0}, 1, []);
    var m2 := Mem(map["a" := Obj(0), "b" := Obj(1)], {0, 1}, 2, []);
    assert m1.vars["b" := Obj(1)] == m2.vars && m2.vars["b" := Obj(0)] == m.vars;
    assert RunStmt(map[], CAlloc("a"), START, ch) == Fell(m1, ch);
    assert RunStmt(map[], CAlloc("b"), m1, ch) == Fell(m2, ch);
    assert RunCalls(map[], Inner(Ident("a")), m2, ch) == Got(None, m2, ch);
    assert RunStmt(map[], CAssign("b", Ident("a")), m2, ch) == Fell(m, ch);
    assert Run(map[], One(CAssign("b", Ident("a"))), m2, ch) == Fell(m, ch);
    assert Run(map[], Cons(CAlloc("b"), One(CAssign("b", Ident("a")))), m1, ch) == Fell(m, ch);
    AliasFrees(m, ch);
  }

  lemma AliasFrees(m: Mem, ch: seq<bool>)
    requires m == Mem(map["a" := Obj(0), "b" := Obj(0)], {0, 1}, 2, [])
    ensures Run(map[], Cons(CFree("a"), Cons(CFree("b"), NoCode)), m, ch) == Bad(FreeOfFreed)
  {
    var m3 := Mem(m.vars, {1}, 2, [0]);
    assert m.live - {0} == m3.live && m.freed + [0] == m3.freed;
    assert RunStmt(map[], CFree("a"), m, ch) == Fell(m3, ch);
    assert RunStmt(map[], CFree("b"), m3, ch) == Bad(FreeOfFreed);
    assert Run(map[], Cons(CFree("b"), NoCode), m3, ch) == Bad(FreeOfFreed);
  }

  /** `fn mk() -> string { let s: string; return s; }` and `fn use() { let t: string = mk(); }` are fine together. */
  lemma MakerAndUser()
    ensures var gives := map["mk" := AnObject, "use" := NoPointer];
            var mk := FunctionDecl("mk", Then(Let("s", "string", None), Then(Return(Some(Ident("s"))), Empty)));
            var user := FunctionDecl("use", Then(Let("t", "string", Some(Call("mk", {}, []))), Empty));
            FineProgram(map["mk" := Checked(mk, Heap({"s"}, {}, AnObject, gives)),
                            "use" := Checked(user, Heap({"t"}, {}, NoPointer, gives))], gives)
  {
    var gives := map["mk" := AnObject, "use" := NoPointer];
    MakerIsFine(Then(Let("s", "string", None), Then(Return(Some(Ident("s"))), Empty)), Heap({"s"}, {}, AnObject, gives));
    UserIsFine(Let("t", "string", Some(Call("mk", {}, []))), Heap({"t"}, {}, NoPointer, gives));
  }

  lemma MakerIsFine(body: Stmts, heap: Heap)
    requires body == Then(Let("s", "string", None), Then(Return(Some(Ident("s"))), Empty))
    requires heap.owning == {"s"} && heap.empty == {} && heap.result == AnObject
    ensures FineFunction(FunctionDecl("mk", body), heap)
  {
    TypesAre();
    FirstHeap("s");
    assert Active([[]]) == [] && Active([["s"]]) == ["s"];
    assert Fine(body.first, [[]], heap, None);
    assert AllFine(body.rest, [["s"]], heap, None);
    assert AllFine(body, [[]], heap, None) && AllEnd(body.rest) && AllEnd(body);
  }

  lemma UserIsFine(s: Stmt, heap: Heap)
    requires s == Let("t", "string", Some(Call("mk", {}, []))) && "mk" in heap.gives && heap.gives["mk"] == AnObject
    requires heap.owning == {"t"} && heap.empty == {} && heap.result == NoPointer
    ensures FineFunction(FunctionDecl("use", Then(s, Empty)), heap)
  {
    TypesAre();
    assert Active([[]]) == [];
    assert Fine(s, [[]], heap, None);
  }
}
