/** Dead-code elimination inside a function body: what follows a return or a break in its block goes. */
module DeadCode {
  import opened Values

  /** Plain statements, guards and loops are numbered; only blocks and the branches of an if are looked into. */
  datatype Stmt =
    | Return(value: nat)
    | Break
    | Plain(id: nat)
    | Block(body: seq<Stmt>)
    | If(arms: seq<Arm>, orelse: Option<Stmt>)

  datatype Arm = Arm(guard: nat, branch: Stmt)

  predicate Leaves(s: Stmt) {
    s.Return? || s.Break?
  }

  // ----- what is left -----

  /** A block's statements up to the first that leaves it, each cleaned inside. */
  function CleanAll(ss: seq<Stmt>): (r: seq<Stmt>)
    ensures |r| <= |ss|
    decreases ss, 2
  {
    if ss == [] then []
    else if Leaves(ss[0]) then [ss[0]]
    else [Inside(ss[0])] + CleanAll(ss[1..])
  }

  /** A statement of a block that is kept. */
  function Inside(s: Stmt): Stmt
    decreases s, 1
  {
    match s
    case If(arms, orelse) =>
      If(seq(|arms|, i requires 0 <= i < |arms| => Arm(arms[i].guard, Clean(arms[i].branch))),
         if orelse.Some? then Some(Clean(orelse.value)) else None)
    case _ => Clean(s)
  }

  /** Only blocks are cleaned: a branch that is a single statement stays as it is. */
  function Clean(s: Stmt): Stmt
    decreases s, 0
  {
    match s
    case Block(body) => Block(CleanAll(body))
    case _ => s
  }

  // ----- meaning -----

  datatype Outcome = Normal(st: int) | Returned(st: int) | Broke(st: int) | Failed(st: int)

  /** What statements, guards and return values do: anything. A loop is a plain statement. */
  datatype World = World(step: (nat, int) -> Outcome, guard: (nat, int) -> (bool, int), result: (nat, int) -> int)

  function Exec(s: Stmt, st: int, w: World): Outcome
    decreases s, 1
  {
    match s
    case Return(v) => Returned(w.result(v, st))
    case Break => Broke(st)
    case Plain(id) => w.step(id, st)
    case Block(body) => ExecAll(body, st, w)
    case If(arms, orelse) => ExecArms(s, 0, st, w)
  }

  function ExecAll(ss: seq<Stmt>, st: int, w: World): Outcome
    decreases ss, 2
  {
    if ss == [] then Normal(st)
    else
      var o := Exec(ss[0], st, w);
      if o.Normal? then ExecAll(ss[1..], o.st, w) else o
  }

  /** The arms from index i on, then the else branch. */
  function ExecArms(s: Stmt, i: nat, st: int, w: World): Outcome
    requires s.If? && i <= |s.arms|
    decreases s, 0, |s.arms| - i
  {
    if i == |s.arms| then
      if s.orelse.Some? then Exec(s.orelse.value, st, w) else Normal(st)
    else
      var g := w.guard(s.arms[i].guard, st);
      if g.0 then Exec(s.arms[i].branch, g.1, w) else ExecArms(s, i + 1, g.1, w)
  }

  /** Cleaning a block changes neither the outcome nor the state, whatever its parts do. */
  lemma {:induction false} CleanAllPreserves(ss: seq<Stmt>, st: int, w: World)
    ensures ExecAll(CleanAll(ss), st, w) == ExecAll(ss, st, w)
    decreases ss, 2
  {
    if ss != [] {
      var r := CleanAll(ss);
      if Leaves(ss[0]) {
        assert r[0] == ss[0];
      } else {
        assert r[0] == Inside(ss[0]) && r[1..] == CleanAll(ss[1..]);
        InsidePreserves(ss[0], st, w);
        var o := Exec(ss[0], st, w);
        if o.Normal? {
          CleanAllPreserves(ss[1..], o.st, w);
        }
      }
    }
  }

  lemma {:induction false} CleanPreserves(s: Stmt, st: int, w: World)
    ensures Exec(Clean(s), st, w) == Exec(s, st, w)
    decreases s, 0
  {
    if s.Block? {
      CleanAllPreserves(s.body, st, w);
    }
  }

  lemma {:induction false} InsidePreserves(s: Stmt, st: int, w: World)
    ensures Exec(Inside(s), st, w) == Exec(s, st, w)
    decreases s, 1
  {
    if s.If? {
      ArmsPreserve(s, 0, st, w);
    } else {
      CleanPreserves(s, st, w);
    }
  }

  lemma {:induction false} ArmsPreserve(s: Stmt, i: nat, st: int, w: World)
    requires s.If? && i <= |s.arms|
    ensures |Inside(s).arms| == |s.arms| && ExecArms(Inside(s), i, st, w) == ExecArms(s, i, st, w)
    decreases s, 0, |s.arms| - i
  {
    if i == |s.arms| {
      if s.orelse.Some? {
        CleanPreserves(s.orelse.value, st, w);
      }
    } else {
      var g := w.guard(s.arms[i].guard, st);
      if g.0 {
        CleanPreserves(s.arms[i].branch, g.1, w);
      } else {
        ArmsPreserve(s, i + 1, g.1, w);
      }
    }
  }

  // ----- nothing dead is left -----

  /** Only the last statement may leave, here and in every block below that is looked into. */
  predicate Tidy(ss: seq<Stmt>)
    decreases ss, 2
  {
    && (forall i :: 0 <= i < |ss| - 1 ==> !ss[i].Return? && !ss[i].Break?)
    && (forall i :: 0 <= i < |ss| ==> TidyInside(ss[i]))
  }

  predicate TidyInside(s: Stmt)
    decreases s, 1
  {
    match s
    case If(arms, orelse) =>
      (forall i :: 0 <= i < |arms| ==> TidyBlock(arms[i].branch)) && (orelse.Some? ==> TidyBlock(orelse.value))
    case _ => TidyBlock(s)
  }

  predicate TidyBlock(s: Stmt)
    decreases s, 0
  {
    s.Block? ==> Tidy(s.body)
  }

  lemma {:induction false} CleanedIsTidy(ss: seq<Stmt>)
    ensures Tidy(CleanAll(ss)) && (CleanAll(ss) == [] <==> ss == [])
    decreases ss, 2
  {
    if ss != [] && !Leaves(ss[0]) {
      CleanedIsTidy(ss[1..]);
      InsideIsTidy(ss[0]);
      var rest := CleanAll(ss[1..]);
      forall i | 0 <= i < |CleanAll(ss)| - 1 ensures !Leaves(CleanAll(ss)[i]) {
        assert i == 0 || CleanAll(ss)[i] == rest[i - 1];
      }
    }
  }

  lemma {:induction false} CleanIsTidy(s: Stmt)
    ensures TidyBlock(Clean(s))
    decreases s, 0
  {
    if s.Block? {
      CleanedIsTidy(s.body);
    }
  }

  lemma {:induction false} InsideIsTidy(s: Stmt)
    ensures TidyInside(Inside(s)) && Leaves(Inside(s)) == Leaves(s)
    decreases s, 1
  {
    if s.If? {
      forall i | 0 <= i < |s.arms| ensures TidyBlock(Inside(s).arms[i].branch) {
        CleanIsTidy(s.arms[i].branch);
      }
      if s.orelse.Some? {
        CleanIsTidy(s.orelse.value);
      }
    } else {
      CleanIsTidy(s);
    }
  }

  /** Cleaning changes a block exactly when it is not tidy. */
  lemma {:induction false} TidyStays(ss: seq<Stmt>)
    ensures CleanAll(ss) == ss <==> Tidy(ss)
    decreases ss, 2
  {
    CleanedIsTidy(ss);
    if ss != [] && Tidy(ss) {
      TidyInsideStays(ss[0]);
      forall i | 0 <= i < |ss[1..]| ensures TidyInside(ss[1..][i]) && (i < |ss[1..]| - 1 ==> !Leaves(ss[1..][i])) {
        assert ss[1..][i] == ss[i + 1];
      }
      TidyStays(ss[1..]);
      assert ss == [ss[0]] + ss[1..];
    }
  }

  lemma {:induction false} TidyInsideStays(s: Stmt)
    requires TidyInside(s)
    ensures Inside(s) == s
    decreases s, 1
  {
    if s.If? {
      forall i | 0 <= i < |s.arms| ensures Inside(s).arms[i] == s.arms[i] {
        TidyBlockStays(s.arms[i].branch);
      }
      if s.orelse.Some? {
        TidyBlockStays(s.orelse.value);
      }
      assert Inside(s).arms == s.arms;
    } else {
      TidyBlockStays(s);
    }
  }

  lemma {:induction false} TidyBlockStays(s: Stmt)
    requires TidyBlock(s)
    ensures Clean(s) == s
    decreases s, 0
  {
    if s.Block? {
      TidyStays(s.body);
    }
  }

  /** A second run changes nothing. */
  lemma CleanTwice(ss: seq<Stmt>)
    ensures CleanAll(CleanAll(ss)) == CleanAll(ss)
  {
    CleanedIsTidy(ss);
    TidyStays(CleanAll(ss));
  }

  // ----- as it is done: statement vectors are cut, then walked -----

  /** How many statements go. */
  function DroppedAll(ss: seq<Stmt>): nat
    decreases ss, 2
  {
    if ss == [] then 0
    else if Leaves(ss[0]) then |ss| - 1
    else DroppedInside(ss[0]) + DroppedAll(ss[1..])
  }

  function DroppedInside(s: Stmt): nat
    decreases s, 1
  {
    match s
    case If(arms, orelse) => DroppedArms(s, 0)
    case _ => Dropped(s)
  }

  function DroppedArms(s: Stmt, i: nat): nat
    requires s.If? && i <= |s.arms|
    decreases s, 0, |s.arms| - i
  {
    if i < |s.arms| then Dropped(s.arms[i].branch) + DroppedArms(s, i + 1)
    else if s.orelse.Some? then Dropped(s.orelse.value)
    else 0
  }

  function Dropped(s: Stmt): nat
    decreases s, 0
  {
    if s.Block? then DroppedAll(s.body) else 0
  }

  /** n is the last index that stays. */
  predicate Cut(ss: seq<Stmt>, n: nat) {
    n < |ss| && (forall i :: 0 <= i < n ==> !Leaves(ss[i])) && (n + 1 < |ss| ==> Leaves(ss[n]))
  }

  lemma {:induction false} CutIs(ss: seq<Stmt>, n: nat)
    requires Cut(ss, n)
    ensures |CleanAll(ss)| == n + 1 && forall i :: 0 <= i <= n ==> CleanAll(ss)[i] == Inside(ss[i])
    ensures DroppedAll(ss) == |ss| - (n + 1) + Along(ss, n + 1)
    decreases n
  {
    if n > 0 {
      CutIs(ss[1..], n - 1);
      AlongTail(ss, n + 1);
    } else {
      assert |ss| == 1 || Leaves(ss[0]);
      assert Leaves(ss[0]) ==> Inside(ss[0]) == ss[0];
      assert |ss| == 1 ==> ss[1..] == [];
      assert Along(ss, 1) == Along(ss, 0) + DroppedInside(ss[0]);
    }
  }

  /** What goes inside the first n statements. */
  function Along(ss: seq<Stmt>, n: nat): nat
    requires n <= |ss|
    decreases n
  {
    if n == 0 then 0 else Along(ss, n - 1) + DroppedInside(ss[n - 1])
  }

  lemma {:induction false} AlongTail(ss: seq<Stmt>, n: nat)
    requires 0 < n <= |ss|
    ensures Along(ss, n) == DroppedInside(ss[0]) + Along(ss[1..], n - 1)
    decreases n
  {
    if n > 1 {
      AlongTail(ss, n - 1);
    }
  }

  /** The count: what is cut from this vector, and from the vectors inside the statements that stay. */
  lemma {:induction false} DroppedCounts(ss: seq<Stmt>)
    ensures DroppedAll(ss) == |ss| - |CleanAll(ss)| + Along(ss, |CleanAll(ss)|)
    decreases ss
  {
    if ss != [] && !Leaves(ss[0]) {
      DroppedCounts(ss[1..]);
      AlongTail(ss, |CleanAll(ss)|);
    } else if ss != [] {
      assert Along(ss, 1) == Along(ss, 0) + DroppedInside(ss[0]);
    }
  }

  /** Nothing is counted exactly when nothing changes. */
  lemma {:induction false} DroppedWhen(ss: seq<Stmt>)
    ensures DroppedAll(ss) == 0 <==> CleanAll(ss) == ss
    decreases ss, 2
  {
    if ss != [] && !Leaves(ss[0]) {
      InsideDroppedWhen(ss[0]);
      DroppedWhen(ss[1..]);
      var rest := CleanAll(ss[1..]);
      assert CleanAll(ss) == [Inside(ss[0])] + rest && CleanAll(ss)[1..] == rest;
      assert ss == [ss[0]] + ss[1..];
    }
  }

  lemma {:induction false} BlockDroppedWhen(s: Stmt)
    ensures Dropped(s) == 0 <==> Clean(s) == s
    decreases s, 0
  {
    if s.Block? {
      DroppedWhen(s.body);
    }
  }

  lemma {:induction false} InsideDroppedWhen(s: Stmt)
    ensures DroppedInside(s) == 0 <==> Inside(s) == s
    decreases s, 1
  {
    if s.If? {
      ArmsDroppedWhen(s, 0);
      assert Inside(s).arms == s.arms <==> forall j :: 0 <= j < |s.arms| ==> Clean(s.arms[j].branch) == s.arms[j].branch;
    } else {
      BlockDroppedWhen(s);
    }
  }

  lemma {:induction false} ArmsDroppedWhen(s: Stmt, i: nat)
    requires s.If? && i <= |s.arms|
    ensures DroppedArms(s, i) == 0 <==>
            (forall j :: i <= j < |s.arms| ==> Clean(s.arms[j].branch) == s.arms[j].branch) && Inside(s).orelse == s.orelse
    decreases s, 0, |s.arms| - i
  {
    if i < |s.arms| {
      BlockDroppedWhen(s.arms[i].branch);
      ArmsDroppedWhen(s, i + 1);
    } else if s.orelse.Some? {
      BlockDroppedWhen(s.orelse.value);
    }
  }

  class Optimizer {
    var dceCount: nat

    constructor ()
      ensures dceCount == 0
    {
      dceCount := 0;
    }

    method DceBlock(ss: seq<Stmt>) returns (kept: seq<Stmt>, changed: bool)
      modifies this
      ensures kept == CleanAll(ss) && (changed <==> kept != ss)
      ensures dceCount == old(dceCount) + DroppedAll(ss)
      decreases ss, 2
    {
      if ss == [] {
        return ss, false;
      }
      var n := 0;
      while n + 1 < |ss| && !Leaves(ss[n])
        invariant 0 <= n < |ss| && forall i :: 0 <= i < n ==> !Leaves(ss[i])
      {
        n := n + 1;
      }
      CutIs(ss, n);
      changed := n + 1 < |ss|;
      dceCount := dceCount + (|ss| - (n + 1));
      kept := [];
      var i := 0;
      while i < n + 1
        invariant 0 <= i <= n + 1 && |kept| == i && kept == CleanAll(ss)[..i]
        invariant changed <==> n + 1 < |ss| || exists j :: 0 <= j < i && kept[j] != ss[j]
        invariant dceCount == old(dceCount) + (|ss| - (n + 1)) + Along(ss, i)
        decreases n + 1 - i
      {
        var t, c := DceInside(ss[i]);
        ghost var was := kept;
        kept := kept + [t];
        assert c <==> kept[i] != ss[i];
        assert forall j :: 0 <= j < i ==> kept[j] == was[j];
        changed := changed || c;
        i := i + 1;
      }
    }

    method DceInside(s: Stmt) returns (t: Stmt, changed: bool)
      modifies this
      ensures t == Inside(s) && (changed <==> t != s)
      ensures dceCount == old(dceCount) + DroppedInside(s)
      decreases s, 1
    {
      if !s.If? {
        t, changed := Dce(s);
        return;
      }
      changed := false;
      var arms: seq<Arm> := [];
      var i := 0;
      while i < |s.arms|
        invariant 0 <= i <= |s.arms| && |arms| == i
        invariant forall j :: 0 <= j < i ==> arms[j] == Inside(s).arms[j]
        invariant changed <==> exists j :: 0 <= j < i && arms[j] != s.arms[j]
        invariant dceCount + DroppedArms(s, i) == old(dceCount) + DroppedArms(s, 0)
        decreases |s.arms| - i
      {
        var b, c := Dce(s.arms[i].branch);
        ghost var was := arms;
        arms := arms + [Arm(s.arms[i].guard, b)];
        assert c <==> arms[i] != s.arms[i];
        assert forall j :: 0 <= j < i ==> arms[j] == was[j];
        changed := changed || c;
        i := i + 1;
      }
      assert arms == Inside(s).arms;
      var orelse := s.orelse;
      if s.orelse.Some? {
        var b, c := Dce(s.orelse.value);
        orelse := Some(b);
        changed := changed || c;
      }
      t := If(arms, orelse);
      assert arms == s.arms <==> forall j :: 0 <= j < |arms| ==> arms[j] == s.arms[j];
    }

    method Dce(s: Stmt) returns (t: Stmt, changed: bool)
      modifies this
      ensures t == Clean(s) && (changed <==> t != s)
      ensures dceCount == old(dceCount) + Dropped(s)
      decreases s, 0
    {
      if s.Block? {
        var body, c := DceBlock(s.body);
        t, changed := Block(body), c;
      } else {
        t, changed := s, false;
      }
    }
  }
}
