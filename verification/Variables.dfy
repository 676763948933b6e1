/** What statements do to the variables of outer scopes: only assignments change them, and nothing unsets them. */
module Variables {
  import opened Values
  import opened Ast
  import opened Semantics
  import opened Layers
  import Machine

  // ----- a statement that does not assign x leaves the outer x alone; none makes a set variable unset -----

  predicate NoAssign(s: Stmt, x: string) {
    match s
    case Assign(y, _) => y != x
    case Block(b) => NoAssigns(b, x)
    case If(arms) => NoArmAssigns(arms, x)
    case While(_, b) => NoAssigns(b, x)
    case Loop(b) => NoAssigns(b, x)
    case ForRange(_, _, _, b) => NoAssigns(b, x)
    case ForCount(_, _, b) => NoAssigns(b, x)
    case ForEach(_, _, b) => NoAssigns(b, x)
    case _ => true
  }

  predicate NoAssigns(ss: Stmts, x: string) {
    match ss
    case Empty => true
    case Then(s, rest) => NoAssign(s, x) && NoAssigns(rest, x)
  }

  predicate NoArmAssigns(arms: Arms, x: string) {
    match arms
    case NoElse => true
    case Else(b) => NoAssigns(b, x)
    case Arm(_, b, rest) => NoAssigns(b, x) && NoArmAssigns(rest, x)
  }

  /** x stays bound below `base`, once set it stays set, and if it is fixed it stays the same. */
  ghost predicate SameBelow(a: Env, b: Env, base: nat, x: string, fixed: bool) {
    |a| == |b| && forall i :: 0 <= i < base && i < |a| ==> SameCell(a[i], b[i], x, fixed)
  }

  predicate SameCell(a: map<string, Cell>, b: map<string, Cell>, x: string, fixed: bool) {
    (x in a <==> x in b) && (x in a ==> (fixed ==> a[x] == b[x]) && (a[x].Set? ==> b[x].Set?))
  }

  /** Whatever the outcome is, if it goes on, x is as it should be below `base`. */
  ghost predicate Kept(st: State, o: Outcome, base: nat, x: string, fixed: bool) {
    match o
    case Normal(st1) => SameBelow(st.env, st1.env, base, x, fixed)
    case Broke(st1) => SameBelow(st.env, st1.env, base, x, fixed)
    case Continued(st1) => SameBelow(st.env, st1.env, base, x, fixed)
    case _ => true
  }

  lemma KeptTrans(a: State, b: State, o: Outcome, base: nat, x: string, fixed: bool)
    requires SameBelow(a.env, b.env, base, x, fixed) && Kept(b, o, base, x, fixed)
    ensures Kept(a, o, base, x, fixed)
  {
  }

  lemma SetTopKeeps(st: State, y: string, c: Cell, base: nat, x: string, fixed: bool)
    requires base < |st.env|
    ensures SameBelow(st.env, SetTop(st, y, c).env, base, x, fixed)
  {
  }

  lemma {:induction false} UpdateKeeps(env: Env, y: string, v: Value, base: nat, x: string, fixed: bool)
    requires fixed ==> x != y
    ensures SameBelow(env, UpdateLocal(env, y, v), base, x, fixed)
    decreases |env|
  {
    if env != [] && y !in env[|env| - 1] {
      UpdateKeeps(env[..|env| - 1], y, v, base, x, fixed);
    }
  }

  lemma LeaveKeeps(st: State, o: Outcome, base: nat, x: string, fixed: bool)
    requires base <= |st.env| && Kept(Enter(st), o, base, x, fixed)
    ensures Kept(st, Leave(o), base, x, fixed)
  {
  }

  lemma {:induction false} StmtKeeps(s: Stmt, st: State, fuel: nat, m: Mode, asBuilt: bool, base: nat, x: string, fixed: bool)
    requires (fixed ==> NoAssign(s, x)) && base < |st.env|
    ensures Kept(st, Reading(Do(One(s), m), st, fuel, asBuilt), base, x, fixed)
    decreases fuel, s, 6
  {
    ReadingUnfolds(Do(One(s), m), st, fuel, asBuilt);
    match s
    case Let(y, e) =>
      var a := ValueOf(e, st);
      if a.V? {
        SetTopKeeps(st, y, Set(a.v), base, x, fixed);
      }
    case Assign(y, e) =>
      var a := ValueOf(e, st);
      if a.V? {
        UpdateKeeps(st.env, y, a.v, base, x, fixed);
      }
    case Block(b) => AllKeeps(b, st, fuel, m, asBuilt, base, x, fixed);
    case If(arms) => ArmsKeep(arms, st, fuel, m, asBuilt, base, x, fixed);
    case While(_, b) => LoopKeeps(s, b, st, fuel, m, asBuilt, base, x, fixed);
    case Loop(b) => LoopKeeps(s, b, st, fuel, m, asBuilt, base, x, fixed);
    case ForRange(y, lo, hi, b) =>
      var st0 := SetTop(st, y, Unset);
      var a := ValueOf(lo, st0);
      if a.V? {
        var st1 := SetTop(st0, y, Set(a.v));
        SetTopKeeps(st, y, Unset, base, x, fixed);
        SetTopKeeps(st0, y, Set(a.v), base, x, fixed);
        var z := ValueOf(hi, st1);
        if z.V? {
          RangeKeeps(y, z.v, b, st1, fuel, asBuilt, base, x, fixed);
          KeptTrans(st, st1, Reading(Ranging(y, z.v, b), st1, fuel, asBuilt), base, x, fixed);
        }
      }
    case ForCount(y, n, b) =>
      var st1 := SetTop(st, y, Set(Int(1)));
      SetTopKeeps(st, y, Set(Int(1)), base, x, fixed);
      RangeKeeps(y, Int(Cut32(n)), b, st1, fuel, asBuilt, base, x, fixed);
      KeptTrans(st, st1, Reading(Ranging(y, Int(Cut32(n)), b), st1, fuel, asBuilt), base, x, fixed);
    case ForEach(y, e, b) =>
      var a := ValueOf(e, st);
      if a.V? {
        var len := Machine.UnaryOp(Machine.ARRAY_LEN, a.v);
        if len.Some? {
          var st1 := SetTop(st, y, Unset);
          SetTopKeeps(st, y, Unset, base, x, fixed);
          EachKeeps(y, a.v, AsInt(len.value), 0, b, st1, fuel, asBuilt, base, x, fixed);
          KeptTrans(st, st1, Reading(Visiting(y, a.v, AsInt(len.value), 0, b), st1, fuel, asBuilt), base, x, fixed);
        }
      }
    case _ =>
  }

  lemma {:induction false} AllKeeps(ss: Stmts, st: State, fuel: nat, m: Mode, asBuilt: bool, base: nat, x: string, fixed: bool)
    requires (fixed ==> NoAssigns(ss, x)) && base < |st.env|
    ensures Kept(st, Reading(Do(All(ss), m), st, fuel, asBuilt), base, x, fixed)
    decreases fuel, ss, 1
  {
    ReadingUnfolds(Do(All(ss), m), st, fuel, asBuilt);
    if ss.Then? {
      StmtKeeps(ss.first, st, fuel, FirstMode(m, ss.rest), asBuilt, base, x, fixed);
      var o := Reading(Do(One(ss.first), FirstMode(m, ss.rest)), st, fuel, asBuilt);
      if o.Normal? {
        AllKeeps(ss.rest, o.st, fuel, m, asBuilt, base, x, fixed);
        KeptTrans(st, o.st, Reading(Do(All(ss.rest), m), o.st, fuel, asBuilt), base, x, fixed);
      }
    }
  }

  lemma {:induction false} ScopedKeeps(b: Stmts, st: State, fuel: nat, m: Mode, asBuilt: bool, base: nat, x: string, fixed: bool)
    requires (fixed ==> NoAssigns(b, x)) && base <= |st.env|
    ensures Kept(st, ScopedReading(b, st, fuel, m, asBuilt), base, x, fixed)
    decreases fuel, b, 2
  {
    AllKeeps(b, Enter(st), fuel, m, asBuilt, base, x, fixed);
    LeaveKeeps(st, Reading(Do(All(b), m), Enter(st), fuel, asBuilt), base, x, fixed);
  }

  lemma {:induction false} ArmsKeep(arms: Arms, st: State, fuel: nat, m: Mode, asBuilt: bool, base: nat, x: string, fixed: bool)
    requires (fixed ==> NoArmAssigns(arms, x)) && base < |st.env|
    ensures Kept(st, Reading(Do(Cases(arms), m), st, fuel, asBuilt), base, x, fixed)
    decreases fuel, arms, 1
  {
    ReadingUnfolds(Do(Cases(arms), m), st, fuel, asBuilt);
    match arms
    case NoElse =>
    case Else(b) => ScopedKeeps(b, st, fuel, m, asBuilt, base, x, fixed);
    case Arm(e, b, rest) =>
      ScopedKeeps(b, st, fuel, ArmMode(m, rest), asBuilt, base, x, fixed);
      ArmsKeep(rest, st, fuel, m, asBuilt, base, x, fixed);
      var o := ScopedReading(b, st, fuel, ArmMode(m, rest), asBuilt);
      if o.Normal? {
        ArmsKeep(rest, o.st, fuel, m, asBuilt, base, x, fixed);
        KeptTrans(st, o.st, Reading(Do(Cases(rest), m), o.st, fuel, asBuilt), base, x, fixed);
      }
  }

  lemma {:induction false} LoopKeeps(s: Stmt, b: Stmts, st: State, fuel: nat, m: Mode, asBuilt: bool, base: nat, x: string, fixed: bool)
    requires s == Loop(b) || (s.While? && s.wbody == b)
    requires (fixed ==> NoAssigns(b, x)) && base < |st.env|
    ensures Kept(st, Reading(Do(One(s), m), st, fuel, asBuilt), base, x, fixed)
    decreases fuel, s, 5
  {
    ReadingUnfolds(Do(One(s), m), st, fuel, asBuilt);
    if fuel > 0 {
      ScopedKeeps(b, st, fuel, LOOP_BODY, asBuilt, base, x, fixed);
      var o := ScopedReading(b, st, fuel, LOOP_BODY, asBuilt);
      if o.Normal? || o.Continued? {
        StmtKeeps(s, o.st, fuel - 1, m, asBuilt, base, x, fixed);
        KeptTrans(st, o.st, Reading(Do(One(s), m), o.st, fuel - 1, asBuilt), base, x, fixed);
      }
    }
  }

  lemma {:induction false} RangeKeeps(y: string, bound: Value, b: Stmts, st: State, fuel: nat, asBuilt: bool, base: nat, x: string, fixed: bool)
    requires (fixed ==> NoAssigns(b, x)) && base < |st.env|
    ensures Kept(st, Reading(Ranging(y, bound, b), st, fuel, asBuilt), base, x, fixed)
    decreases fuel, b, 5
  {
    ReadingUnfolds(Ranging(y, bound, b), st, fuel, asBuilt);
    if fuel > 0 {
      ScopedKeeps(b, st, fuel, LOOP_BODY, asBuilt, base, x, fixed);
      var o := ScopedReading(b, st, fuel, LOOP_BODY, asBuilt);
      if o.Normal? || o.Continued? {
        var z := ReadVar(o.st, y);
        if z.V? {
          var st2 := SetTop(o.st, y, Set(Int(Wrap64(AsInt(z.v) + 1))));
          SetTopKeeps(o.st, y, Set(Int(Wrap64(AsInt(z.v) + 1))), base, x, fixed);
          RangeKeeps(y, bound, b, st2, fuel - 1, asBuilt, base, x, fixed);
          KeptTrans(o.st, st2, Reading(Ranging(y, bound, b), st2, fuel - 1, asBuilt), base, x, fixed);
          KeptTrans(st, o.st, Reading(Ranging(y, bound, b), st2, fuel - 1, asBuilt), base, x, fixed);
        }
      }
    }
  }

  lemma {:induction false} EachKeeps(y: string, a: Value, len: int, i: int, b: Stmts, st: State, fuel: nat, asBuilt: bool,
                                     base: nat, x: string, fixed: bool)
    requires (fixed ==> NoAssigns(b, x)) && base < |st.env|
    ensures Kept(st, Reading(Visiting(y, a, len, i, b), st, fuel, asBuilt), base, x, fixed)
    decreases fuel, b, 5
  {
    ReadingUnfolds(Visiting(y, a, len, i, b), st, fuel, asBuilt);
    if fuel > 0 && i < len {
      var v := Machine.Element(a, i);
      if v.Some? {
        var st1 := SetTop(st, y, Set(v.value));
        SetTopKeeps(st, y, Set(v.value), base, x, fixed);
        ScopedKeeps(b, st1, fuel, LOOP_BODY, asBuilt, base, x, fixed);
        var o := ScopedReading(b, st1, fuel, LOOP_BODY, asBuilt);
        KeptTrans(st, st1, o, base, x, fixed);
        if o.Normal? || o.Continued? {
          EachKeeps(y, a, len, i + 1, b, o.st, fuel - 1, asBuilt, base, x, fixed);
          KeptTrans(st, o.st, Reading(Visiting(y, a, len, i + 1, b), o.st, fuel - 1, asBuilt), base, x, fixed);
        }
      }
    }
  }
}
