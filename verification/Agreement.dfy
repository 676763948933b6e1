/** Source environments and machine locals: the slot map relates them. */
module Agreement {
  import opened Values
  import opened Ast
  import opened Lowering
  import opened LoweringFacts
  import opened Semantics

  /** One scope: the same user names, and every set variable's slot holds its value. */
  ghost predicate AgreeScope(slots: map<string, nat>, vars: map<string, Cell>, locals: seq<Value>) {
    forall x {:trigger Reserved(x)} :: !Reserved(x) ==>
      && (x in slots <==> x in vars)
      && (x in vars && vars[x].Set? ==> slots[x] < |locals| && locals[slots[x]] == vars[x].v)
  }

  ghost predicate ScopesAgree(scopes: Scopes, env: Env, locals: seq<Value>) {
    |scopes| == |env| && forall i :: 0 <= i < |env| ==> AgreeScope(scopes[i], env[i], locals)
  }

  /** Slot s belongs to a visible user variable. */
  ghost predicate UserSlot(scopes: Scopes, s: int) {
    exists i, x :: !Reserved(x) && BoundAt(scopes, i, x, s)
  }

  /** Nothing below `next` changes but the slots of visible user variables. */
  ghost predicate OnlyUserSlots(scopes: Scopes, next: nat, before: seq<Value>, after: seq<Value>) {
    |before| == |after| &&
    forall s {:trigger UserSlot(scopes, s)} ::
      0 <= s < next && s < |before| && !UserSlot(scopes, s) ==> after[s] == before[s]
  }

  datatype LocalFact =
    | Agreed(scopes: Scopes, env: Env, locals: seq<Value>)
    | Kept(scopes: Scopes, next: nat, before: seq<Value>, after: seq<Value>)

  ghost predicate LocalFactHolds(f: LocalFact) {
    match f
    case Agreed(scopes, env, locals) => ScopesAgree(scopes, env, locals)
    case Kept(scopes, next, before, after) => OnlyUserSlots(scopes, next, before, after)
  }

  ghost predicate AreLocalFacts(s: iset<LocalFact>) {
    forall f {:trigger LocalFactHolds(f)} :: f in s <==> LocalFactHolds(f)
  }

  lemma LocalFactsExist()
    ensures exists s :: AreLocalFacts(s)
  {
    var s := iset f | LocalFactHolds(f);
    assert AreLocalFacts(s);
  }

  /** The facts about locals, passed on like those about scopes. */
  ghost function LocalFacts(): iset<LocalFact> {
    LocalFactsExist();
    var s :| AreLocalFacts(s);
    s
  }

  /** The locals hold the variables of the environment. */
  ghost predicate Agree(scopes: Scopes, env: Env, locals: seq<Value>) {
    |scopes| == |env| && Agreed(scopes, env, locals) in LocalFacts()
  }

  ghost predicate Frame(cx: Ctx, before: seq<Value>, after: seq<Value>) {
    |before| == |after| && Kept(cx.scopes, cx.next, before, after) in LocalFacts()
  }

  lemma AgreeIs(scopes: Scopes, env: Env, locals: seq<Value>)
    ensures Agree(scopes, env, locals) <==> ScopesAgree(scopes, env, locals)
  {
    LocalFactsExist();
    assert LocalFactHolds(Agreed(scopes, env, locals)) <==> ScopesAgree(scopes, env, locals);
  }

  lemma FrameIs(cx: Ctx, before: seq<Value>, after: seq<Value>)
    ensures Frame(cx, before, after) <==> OnlyUserSlots(cx.scopes, cx.next, before, after)
  {
    LocalFactsExist();
    assert LocalFactHolds(Kept(cx.scopes, cx.next, before, after)) <==> OnlyUserSlots(cx.scopes, cx.next, before, after);
  }

  lemma AgreeOuter(scopes: Scopes, env: Env, locals: seq<Value>)
    requires Agree(scopes, env, locals) && |env| > 0
    ensures Agree(scopes[..|scopes| - 1], env[..|env| - 1], locals)
  {
    AgreeIs(scopes, env, locals);
    AgreeIs(scopes[..|scopes| - 1], env[..|env| - 1], locals);
  }

  /** Compile-time resolution finds the run-time binding: both absent, or the slot of that variable. */
  lemma {:induction false} ResolveAgrees(scopes: Scopes, env: Env, locals: seq<Value>, x: string)
    requires Agree(scopes, env, locals) && !Reserved(x)
    ensures Lookup(env, x).None? <==> Resolve(scopes, x).None?
    ensures var c := Lookup(env, x); c.Some? && c.value.Set? ==>
              Resolve(scopes, x).value < |locals| && locals[Resolve(scopes, x).value] == c.value.v
    decreases |env|
  {
    AgreeIs(scopes, env, locals);
    if env != [] && x !in env[|env| - 1] {
      AgreeOuter(scopes, env, locals);
      ResolveAgrees(scopes[..|scopes| - 1], env[..|env| - 1], locals, x);
    }
  }

  lemma {:induction false} ResolveBound(scopes: Scopes, x: string) returns (i: int)
    requires Resolve(scopes, x).Some?
    ensures BoundAt(scopes, i, x, Resolve(scopes, x).value)
    decreases |scopes|
  {
    if x in scopes[|scopes| - 1] {
      i := |scopes| - 1;
    } else {
      i := ResolveBound(scopes[..|scopes| - 1], x);
    }
  }

  /** Slots are distinct: what StoreAgrees needs, for any part of the scope stack. */
  ghost predicate Distinct(scopes: Scopes) {
    forall i, x, j, y, s :: BoundAt(scopes, i, x, s) && BoundAt(scopes, j, y, s) ==> i == j && x == y
  }

  lemma DistinctOuter(scopes: Scopes)
    requires Distinct(scopes) && |scopes| > 0
    ensures Distinct(scopes[..|scopes| - 1])
  {
    var outer := scopes[..|scopes| - 1];
    assert forall i, x, s :: BoundAt(outer, i, x, s) ==> BoundAt(scopes, i, x, s);
  }

  /** Writing a slot leaves every scope that does not own it in agreement. */
  lemma StoreElsewhere(slots: map<string, nat>, vars: map<string, Cell>, locals: seq<Value>, s: nat, v: Value)
    requires AgreeScope(slots, vars, locals) && s < |locals|
    requires forall x :: x in slots ==> slots[x] != s
    ensures AgreeScope(slots, vars, locals[s := v])
  {
  }

  /** Storing to the resolved slot is assigning the innermost variable of that name, and no other. */
  lemma {:induction false} StoreAgrees(scopes: Scopes, env: Env, locals: seq<Value>, x: string, v: Value)
    requires Agree(scopes, env, locals) && Distinct(scopes) && !Reserved(x)
    requires Resolve(scopes, x).Some? && Resolve(scopes, x).value < |locals|
    ensures Agree(scopes, UpdateLocal(env, x, v), locals[Resolve(scopes, x).value := v])
    decreases |env|
  {
    AgreeIs(scopes, env, locals);
    AgreeIs(scopes, UpdateLocal(env, x, v), locals[Resolve(scopes, x).value := v]);
    var k := |scopes| - 1;
    var slot := Resolve(scopes, x).value;
    if x in env[k] {
      assert AgreeScope(scopes[k], env[k], locals);
      assert BoundAt(scopes, k, x, slot);
      StoreOuter(scopes, env, locals, slot, v, k, x);
      TopStore(scopes, env, locals, x, v);
    } else {
      assert AgreeScope(scopes[k], env[k], locals);
      AgreeOuter(scopes, env, locals);
      DistinctOuter(scopes);
      StoreAgrees(scopes[..k], env[..k], locals, x, v);
      var i := ResolveBound(scopes[..k], x);
      assert BoundAt(scopes, i, x, slot);
      assert forall y :: y in scopes[k] ==> BoundAt(scopes, k, y, scopes[k][y]);
      StoreElsewhere(scopes[k], env[k], locals, slot, v);
      AgreeExtend(scopes, UpdateLocal(env[..k], x, v), env[k], locals[slot := v]);
    }
  }

  lemma AgreeExtend(scopes: Scopes, outer: Env, top: map<string, Cell>, locals: seq<Value>)
    requires |scopes| > 0 && Agree(scopes[..|scopes| - 1], outer, locals)
    requires AgreeScope(scopes[|scopes| - 1], top, locals)
    ensures Agree(scopes, outer + [top], locals)
  {
    AgreeIs(scopes[..|scopes| - 1], outer, locals);
    AgreeIs(scopes, outer + [top], locals);
    forall i | 0 <= i < |scopes| ensures AgreeScope(scopes[i], (outer + [top])[i], locals) {
      if i < |outer| {
        assert scopes[i] == scopes[..|scopes| - 1][i];
      }
    }
  }

  lemma StoreOuter(scopes: Scopes, env: Env, locals: seq<Value>, slot: nat, v: Value, k: int, x: string)
    requires Agree(scopes, env, locals) && Distinct(scopes) && slot < |locals|
    requires BoundAt(scopes, k, x, slot)
    ensures forall i :: 0 <= i < |env| && i != k ==> AgreeScope(scopes[i], env[i], locals[slot := v])
  {
    AgreeIs(scopes, env, locals);
    forall i | 0 <= i < |env| && i != k ensures AgreeScope(scopes[i], env[i], locals[slot := v]) {
      assert forall y :: y in scopes[i] ==> BoundAt(scopes, i, y, scopes[i][y]);
      StoreElsewhere(scopes[i], env[i], locals, slot, v);
    }
  }

  lemma TopStore(scopes: Scopes, env: Env, locals: seq<Value>, x: string, v: Value)
    requires Agree(scopes, env, locals) && Distinct(scopes) && !Reserved(x) && |env| > 0
    requires x in scopes[|env| - 1] && scopes[|env| - 1][x] < |locals|
    ensures AgreeScope(scopes[|env| - 1], env[|env| - 1][x := Set(v)], locals[scopes[|env| - 1][x] := v])
  {
    AgreeIs(scopes, env, locals);
    var k := |env| - 1;
    assert AgreeScope(scopes[k], env[k], locals);
    assert forall y :: y in scopes[k] ==> BoundAt(scopes, k, y, scopes[k][y]);
  }

  /** Declaring a variable with a fresh slot: unset, or holding what was stored there. */
  lemma DeclareAgrees(cx: Ctx, env: Env, locals: seq<Value>, x: string, c: Cell)
    requires Agree(cx.scopes, env, locals) && GoodCtx(cx)
    requires cx.next < |locals| && (c.Set? ==> locals[cx.next] == c.v)
    ensures Agree(Allocate(cx, x).scopes, Declare(env, x, c), locals)
  {
    AgreeIs(cx.scopes, env, locals);
    AgreeIs(Allocate(cx, x).scopes, Declare(env, x, c), locals);
  }

  /** A hidden variable is invisible to the program. */
  lemma HideAgrees(cx: Ctx, env: Env, locals: seq<Value>, x: string)
    requires Agree(cx.scopes, env, locals) && GoodCtx(cx) && Reserved(x)
    ensures Agree(Allocate(cx, x).scopes, env, locals)
  {
    AgreeIs(cx.scopes, env, locals);
    AgreeIs(Allocate(cx, x).scopes, env, locals);
  }

  /** Writing a slot no binding owns keeps agreement. */
  lemma FreshStoreAgrees(scopes: Scopes, env: Env, locals: seq<Value>, s: nat, v: Value)
    requires Agree(scopes, env, locals) && s < |locals|
    requires forall i, x :: !BoundAt(scopes, i, x, s) || Reserved(x)
    ensures Agree(scopes, env, locals[s := v])
  {
    AgreeIs(scopes, env, locals);
    AgreeIs(scopes, env, locals[s := v]);
    forall i | 0 <= i < |env| ensures AgreeScope(scopes[i], env[i], locals[s := v]) {
      forall x | x in env[i] && !Reserved(x) && env[i][x].Set? ensures scopes[i][x] != s {
        assert BoundAt(scopes, i, x, scopes[i][x]);
      }
    }
  }

  lemma NextStoreAgrees(cx: Ctx, env: Env, locals: seq<Value>, s: nat, v: Value)
    requires GoodCtx(cx) && Agree(cx.scopes, env, locals) && cx.next <= s < |locals|
    ensures Agree(cx.scopes, env, locals[s := v])
  {
    GoodIs(cx);
    FreshStoreAgrees(cx.scopes, env, locals, s, v);
  }

  /** Writing the slot of the top scope's variable x. */
  lemma TopStoreAgrees(scopes: Scopes, env: Env, locals: seq<Value>, x: string, v: Value)
    requires Agree(scopes, env, locals) && Distinct(scopes) && !Reserved(x)
    requires |scopes| > 0 && x in scopes[|scopes| - 1] && scopes[|scopes| - 1][x] < |locals|
    ensures Agree(scopes, Declare(env, x, Set(v)), locals[scopes[|scopes| - 1][x] := v])
  {
    AgreeIs(scopes, env, locals);
    assert x in env[|env| - 1];
    assert Resolve(scopes, x) == Some(scopes[|scopes| - 1][x]);
    StoreAgrees(scopes, env, locals, x, v);
  }

  // ----- frames -----

  lemma OldUserSlot(a: Ctx, b: Ctx, s: int)
    requires Grows(a, b) && UserSlot(b.scopes, s) && s < a.next
    ensures UserSlot(a.scopes, s)
  {
    GrowsIs(a, b);
    var i, x :| !Reserved(x) && BoundAt(b.scopes, i, x, s);
    var d := |a.scopes| - 1;
    if i < d {
      assert a.scopes[..d][i] == b.scopes[..d][i];
    }
    assert BoundAt(a.scopes, i, x, s);
  }

  /** A later construct's frame, seen from an earlier context. */
  lemma FrameWiden(a: Ctx, b: Ctx, before: seq<Value>, after: seq<Value>)
    requires Grows(a, b) && Frame(b, before, after)
    ensures Frame(a, before, after)
  {
    FrameIs(a, before, after);
    FrameIs(b, before, after);
    forall s | 0 <= s < a.next && UserSlot(b.scopes, s) ensures UserSlot(a.scopes, s) {
      OldUserSlot(a, b, s);
    }
  }

  lemma FrameSelf(cx: Ctx, locals: seq<Value>)
    ensures Frame(cx, locals, locals)
  {
    FrameIs(cx, locals, locals);
  }

  lemma FrameTrans(cx: Ctx, l: seq<Value>, m: seq<Value>, n: seq<Value>)
    requires Frame(cx, l, m) && Frame(cx, m, n)
    ensures Frame(cx, l, n)
  {
    FrameIs(cx, l, m);
    FrameIs(cx, m, n);
    FrameIs(cx, l, n);
  }

  lemma FrameEnter(cx: Ctx, before: seq<Value>, after: seq<Value>)
    requires Frame(EnterScope(cx), before, after)
    ensures Frame(cx, before, after)
  {
    FrameIs(cx, before, after);
    FrameIs(EnterScope(cx), before, after);
    var r := EnterScope(cx);
    forall s | UserSlot(r.scopes, s) ensures UserSlot(cx.scopes, s) {
      var i, x :| !Reserved(x) && BoundAt(r.scopes, i, x, s);
      assert BoundAt(cx.scopes, i, x, s);
    }
  }

  /** Writing a slot at or above `next`, or a visible user slot, respects the frame. */
  lemma FrameStore(cx: Ctx, locals: seq<Value>, s: nat, v: Value)
    requires s < |locals| && (s >= cx.next || UserSlot(cx.scopes, s))
    ensures Frame(cx, locals, locals[s := v])
  {
    FrameIs(cx, locals, locals[s := v]);
  }
}
