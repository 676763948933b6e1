/**
 * Slot allocation over whole runs of the scope operations: the stack of maps answers as a plain list of live
 * declarations would, in which the latest one of a name wins, and no slot is ever handed out twice.
 */
module ScopeHistory {
  import opened Values
  import opened Lowering

  datatype ScopeOp = Enter | Exit | Declare(x: string)

  function Apply(op: ScopeOp, cx: Ctx): Ctx {
    match op
    case Enter => EnterScope(cx)
    case Exit => ExitScope(cx)
    case Declare(x) => Allocate(cx, x)
  }

  function Replay(ops: seq<ScopeOp>, cx: Ctx): Ctx {
    if ops == [] then cx else Apply(ops[|ops| - 1], Replay(ops[..|ops| - 1], cx))
  }

  // ----- the reference: declarations still in force, oldest first -----

  datatype Live = Live(x: string, slot: nat, depth: nat)
  datatype History = History(live: seq<Live>, depth: nat, count: nat)

  /** Without the declarations of depth d or more. */
  function Drop(live: seq<Live>, d: nat): (r: seq<Live>)
    ensures r <= live
  {
    if live != [] && live[|live| - 1].depth >= d then Drop(live[..|live| - 1], d) else live
  }

  function Note(op: ScopeOp, h: History): History {
    match op
    case Enter => h.(depth := h.depth + 1)
    case Exit => if h.depth == 0 then h else h.(live := Drop(h.live, h.depth), depth := h.depth - 1)
    case Declare(x) =>
      var d := if h.depth == 0 then 1 else h.depth;
      History(h.live + [Live(x, h.count, d)], d, h.count + 1)
  }

  function Notes(ops: seq<ScopeOp>): History {
    if ops == [] then History([], 0, 0) else Note(ops[|ops| - 1], Notes(ops[..|ops| - 1]))
  }

  function Declarations(ops: seq<ScopeOp>): nat {
    if ops == [] then 0 else Declarations(ops[..|ops| - 1]) + if ops[|ops| - 1].Declare? then 1 else 0
  }

  /** The latest live declaration of x. */
  function Latest(live: seq<Live>, x: string): Option<nat> {
    if live == [] then None
    else if live[|live| - 1].x == x then Some(live[|live| - 1].slot)
    else Latest(live[..|live| - 1], x)
  }

  /** The latest one at depth d. */
  function LatestAt(live: seq<Live>, d: nat, x: string): Option<nat> {
    if live == [] then None
    else if live[|live| - 1].x == x && live[|live| - 1].depth == d then Some(live[|live| - 1].slot)
    else LatestAt(live[..|live| - 1], d, x)
  }

  predicate Nested(live: seq<Live>, depth: nat) {
    && (forall i, j :: 0 <= i < j < |live| ==> live[i].depth <= live[j].depth)
    && (forall i :: 0 <= i < |live| ==> 1 <= live[i].depth <= depth)
  }

  /** Slots grow along the list: all different, all below the counter. */
  predicate Fresh(live: seq<Live>, count: nat) {
    && (forall i, j :: 0 <= i < j < |live| ==> live[i].slot < live[j].slot)
    && (forall i :: 0 <= i < |live| ==> live[i].slot < count)
  }

  ghost predicate SameScopes(scopes: Scopes, live: seq<Live>) {
    forall i, x {:trigger LatestAt(live, i + 1, x)} :: 0 <= i < |scopes| ==>
      LatestAt(live, i + 1, x) == if x in scopes[i] then Some(scopes[i][x]) else None
  }

  ghost predicate Mirrors(cx: Ctx, h: History) {
    |cx.scopes| == h.depth && cx.next == h.count && Nested(h.live, h.depth) && Fresh(h.live, h.count)
    && SameScopes(cx.scopes, h.live)
  }

  lemma {:induction false} DropKeeps(live: seq<Live>, d: nat, depth: nat, e: nat, x: string)
    requires Nested(live, depth) && e < d
    ensures LatestAt(Drop(live, d), e, x) == LatestAt(live, e, x)
    decreases |live|
  {
    if live != [] && live[|live| - 1].depth >= d {
      DropKeeps(live[..|live| - 1], d, depth, e, x);
    }
  }

  lemma {:induction false} DropBelow(live: seq<Live>, d: nat, depth: nat)
    requires Nested(live, depth) && d >= 1
    ensures Nested(Drop(live, d), d - 1)
    decreases |live|
  {
    if live != [] {
      if live[|live| - 1].depth >= d {
        DropBelow(live[..|live| - 1], d, depth);
      }
    }
  }

  lemma {:induction false} NoneAbove(live: seq<Live>, depth: nat, d: nat, x: string)
    requires Nested(live, depth) && d > depth
    ensures LatestAt(live, d, x) == None
    decreases |live|
  {
    if live != [] {
      NoneAbove(live[..|live| - 1], depth, d, x);
    }
  }

  lemma StepMirrors(op: ScopeOp, cx: Ctx, h: History)
    requires Mirrors(cx, h)
    ensures Mirrors(Apply(op, cx), Note(op, h))
  {
    match op
    case Enter =>
      forall x {:trigger LatestAt(h.live, h.depth + 1, x)} ensures LatestAt(h.live, h.depth + 1, x) == None {
        NoneAbove(h.live, h.depth, h.depth + 1, x);
      }
    case Exit =>
      if h.depth > 0 {
        ExitMirrors(cx, h);
      }
    case Declare(x) => DeclareMirrors(x, cx, h);
  }

  lemma ExitMirrors(cx: Ctx, h: History)
    requires Mirrors(cx, h) && h.depth > 0
    ensures Mirrors(ExitScope(cx), Note(Exit, h))
  {
    var live := Drop(h.live, h.depth);
    DropBelow(h.live, h.depth, h.depth);
    var scopes := ExitScope(cx).scopes;
    forall i, x {:trigger LatestAt(live, i + 1, x)} | 0 <= i < |scopes|
      ensures LatestAt(live, i + 1, x) == if x in scopes[i] then Some(scopes[i][x]) else None
    {
      DropKeeps(h.live, h.depth, h.depth, i + 1, x);
      assert scopes[i] == cx.scopes[i];
    }
  }

  lemma DeclareMirrors(x: string, cx: Ctx, h: History)
    requires Mirrors(cx, h)
    ensures Mirrors(Allocate(cx, x), Note(Declare(x), h))
  {
    var d := if h.depth == 0 then 1 else h.depth;
    var live := h.live + [Live(x, h.count, d)];
    forall i, y {:trigger LatestAt(live, i + 1, y)} | 0 <= i < d
      ensures LatestAt(live, i + 1, y)
           == if y in Allocate(cx, x).scopes[i] then Some(Allocate(cx, x).scopes[i][y]) else None
    {
      DeclareMirrorsAt(x, cx, h, i, y);
    }
  }

  lemma DeclareMirrorsAt(x: string, cx: Ctx, h: History, i: nat, y: string)
    requires Mirrors(cx, h) && i < if h.depth == 0 then 1 else h.depth
    ensures var live := Note(Declare(x), h).live;
            var scopes := Allocate(cx, x).scopes;
            LatestAt(live, i + 1, y) == if y in scopes[i] then Some(scopes[i][y]) else None
  {
    var live := Note(Declare(x), h).live;
    assert live[..|live| - 1] == h.live;
    if h.depth == 0 {
      NoneAbove(h.live, 0, i + 1, y);
    } else {
      assert LatestAt(h.live, i + 1, y) == if y in cx.scopes[i] then Some(cx.scopes[i][y]) else None;
    }
  }

  lemma {:induction false} RunMirrors(ops: seq<ScopeOp>, pool: Pool)
    ensures Mirrors(Replay(ops, Ctx(pool, [], 0)), Notes(ops)) && Notes(ops).count == Declarations(ops)
    decreases |ops|
  {
    if ops != [] {
      var k := |ops| - 1;
      RunMirrors(ops[..k], pool);
      StepMirrors(ops[k], Replay(ops[..k], Ctx(pool, [], 0)), Notes(ops[..k]));
    }
  }

  /** The innermost binding is the latest live declaration. */
  lemma {:induction false} TopIsLatest(live: seq<Live>, depth: nat, x: string)
    requires Nested(live, depth) && depth >= 1
    ensures Latest(live, x) == match LatestAt(live, depth, x)
                               case Some(s) => Some(s)
                               case None => Latest(Drop(live, depth), x)
    decreases |live|
  {
    if live != [] {
      var k := |live| - 1;
      if live[k].depth >= depth {
        TopIsLatest(live[..k], depth, x);
      } else {
        NoneBelow(live, depth, x);
      }
    }
  }

  lemma {:induction false} NoneBelow(live: seq<Live>, depth: nat, x: string)
    requires forall i :: 0 <= i < |live| ==> live[i].depth < depth
    ensures LatestAt(live, depth, x) == None
    decreases |live|
  {
    if live != [] {
      NoneBelow(live[..|live| - 1], depth, x);
    }
  }

  lemma OuterScopesSame(scopes: Scopes, live: seq<Live>)
    requires Nested(live, |scopes|) && SameScopes(scopes, live) && scopes != []
    ensures SameScopes(scopes[..|scopes| - 1], Drop(live, |scopes|))
  {
    var k := |scopes| - 1;
    var rest := Drop(live, k + 1);
    forall i, y {:trigger LatestAt(rest, i + 1, y)} | 0 <= i < k
      ensures LatestAt(rest, i + 1, y) == if y in scopes[..k][i] then Some(scopes[..k][i][y]) else None
    {
      DropKeeps(live, k + 1, k + 1, i + 1, y);
    }
  }

  lemma {:induction false} ResolveIsLatest(scopes: Scopes, live: seq<Live>, x: string)
    requires Nested(live, |scopes|) && SameScopes(scopes, live)
    ensures Resolve(scopes, x) == Latest(live, x)
    decreases |scopes|
  {
    if scopes != [] {
      var k := |scopes| - 1;
      TopIsLatest(live, k + 1, x);
      assert LatestAt(live, k + 1, x) == if x in scopes[k] then Some(scopes[k][x]) else None;
      DropBelow(live, k + 1, k + 1);
      OuterScopesSame(scopes, live);
      ResolveIsLatest(scopes[..k], Drop(live, k + 1), x);
    }
  }

  /** After any run of the operations: names resolve to their latest live declaration, whose slots all differ. */
  lemma ResolutionIsLexical(ops: seq<ScopeOp>, pool: Pool, x: string)
    ensures var cx, h := Replay(ops, Ctx(pool, [], 0)), Notes(ops);
            && Resolve(cx.scopes, x) == Latest(h.live, x)
            && Fresh(h.live, cx.next) && cx.next == Declarations(ops)
  {
    RunMirrors(ops, pool);
    var cx, h := Replay(ops, Ctx(pool, [], 0)), Notes(ops);
    ResolveIsLatest(cx.scopes, h.live, x);
  }

  /** The slot of a declaration is the number of declarations before it, so no slot is handed out twice. */
  lemma SlotsNeverReused(ops: seq<ScopeOp>, pool: Pool, i: nat, j: nat)
    requires i < j < |ops| && ops[i].Declare? && ops[j].Declare?
    ensures Replay(ops[..i], Ctx(pool, [], 0)).next < Replay(ops[..j], Ctx(pool, [], 0)).next
  {
    RunMirrors(ops[..i], pool);
    RunMirrors(ops[..j], pool);
    DeclarationsGrow(ops, i, j);
  }

  lemma {:induction false} DeclarationsGrow(ops: seq<ScopeOp>, i: nat, j: nat)
    requires i < j <= |ops| && ops[i].Declare?
    ensures Declarations(ops[..i]) < Declarations(ops[..j])
    decreases j
  {
    assert ops[..j][..j - 1] == ops[..j - 1];
    if i < j - 1 {
      DeclarationsGrow(ops, i, j - 1);
    }
  }
}
