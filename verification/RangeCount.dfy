/**
 * How often the for loops run their bodies. A range loop: once for every integer from the lower to the upper bound,
 * provided the upper bound is not the largest int64; then the loop variable wraps around and the loop has no end.
 * An array loop: once for every element, in order.
 */
module RangeCount {
  import opened Values
  import opened Ast
  import opened Semantics
  import opened Layers
  import opened Variables
  import Machine

  // ----- the iterations -----

  /** x is declared in the innermost scope and holds the integer n there. */
  predicate Holds(st: State, x: string, n: int) {
    st.env != [] && x in st.env[|st.env| - 1] && st.env[|st.env| - 1][x].Set? && AsInt(st.env[|st.env| - 1][x].v) == n
  }

  /** One iteration that completes, with its increment; None if the body leaves the loop. */
  ghost function Iterate(x: string, b: Stmts, st: State, fuel: nat, asBuilt: bool): Option<State> {
    var o := ScopedReading(b, st, fuel, LOOP_BODY, asBuilt);
    if o.Normal? || o.Continued? then
      var z := ReadVar(o.st, x);
      if z.V? then Some(SetTop(o.st, x, Set(Int(Wrap64(AsInt(z.v) + 1))))) else None
    else None
  }

  /** The state after n iterations, if they all complete (the k-th runs with the fuel the loop has left). */
  ghost function Iterations(x: string, b: Stmts, st: State, n: nat, fuel: nat, asBuilt: bool): Option<State>
    requires n <= fuel
    decreases n
  {
    if n == 0 then Some(st)
    else
      var st1 := Iterate(x, b, st, fuel, asBuilt);
      if st1.None? then None else Iterations(x, b, st1.value, n - 1, fuel - 1, asBuilt)
  }

  /** An iteration of a body that does not assign x counts x up by one, wrapping at the end of int64. */
  lemma IterateCounts(x: string, b: Stmts, st: State, fuel: nat, asBuilt: bool, n: int)
    requires NoAssigns(b, x) && Holds(st, x, n)
    ensures var st1 := Iterate(x, b, st, fuel, asBuilt); st1.Some? ==> Holds(st1.value, x, Wrap64(n + 1))
  {
    ScopedKeeps(b, st, fuel, LOOP_BODY, asBuilt, |st.env|, x, true);
    var o := ScopedReading(b, st, fuel, LOOP_BODY, asBuilt);
    if o.Normal? || o.Continued? {
      assert Holds(o.st, x, n);
      HoldsReads(o.st, x, n);
    }
  }

  lemma HoldsReads(st: State, x: string, n: int)
    requires Holds(st, x, n)
    ensures ReadVar(st, x).V? && AsInt(ReadVar(st, x).v) == n
  {
  }

  /** The test lets an iteration run that completes: the loop goes on from where it ended. */
  lemma OneIteration(x: string, bound: Value, b: Stmts, st: State, fuel: nat, asBuilt: bool, a: int)
    requires NoAssigns(b, x) && Holds(st, x, a) && fuel > 0 && a <= AsInt(bound)
    requires Iterate(x, b, st, fuel, asBuilt).Some?
    ensures var next := Iterate(x, b, st, fuel, asBuilt).value;
            && Holds(next, x, Wrap64(a + 1))
            && Reading(Ranging(x, bound, b), st, fuel, asBuilt) == Reading(Ranging(x, bound, b), next, fuel - 1, asBuilt)
  {
    ReadingUnfolds(Ranging(x, bound, b), st, fuel, asBuilt);
    HoldsReads(st, x, a);
    IterateCounts(x, b, st, fuel, asBuilt, a);
  }

  /** The loop is its iterations as long as the test lets them run. */
  lemma {:induction false} LoopIsIterations(x: string, bound: Value, b: Stmts, st: State, n: nat, fuel: nat, asBuilt: bool, a: int)
    requires NoAssigns(b, x) && Holds(st, x, a) && n <= fuel && Iterations(x, b, st, n, fuel, asBuilt).Some?
    requires -TWO_63 <= a && (n > 0 ==> a + n - 1 <= AsInt(bound) < TWO_63 - 1)
    ensures var end := Iterations(x, b, st, n, fuel, asBuilt).value;
            && Holds(end, x, a + n)
            && Reading(Ranging(x, bound, b), st, fuel, asBuilt) == Reading(Ranging(x, bound, b), end, fuel - n, asBuilt)
    decreases n
  {
    if n > 0 {
      OneIteration(x, bound, b, st, fuel, asBuilt, a);
      LoopIsIterations(x, bound, b, Iterate(x, b, st, fuel, asBuilt).value, n - 1, fuel - 1, asBuilt, a + 1);
    }
  }

  function Count(a: int, z: int): nat {
    if z < a then 0 else z - a + 1
  }

  /**
   * A loop from a runs its body n times, with x = a, a + 1, ..., and leaves x at a + n. With no more fuel than that it
   * is still running.
   */
  ghost predicate Counts(o: Outcome, x: string, a: int, n: nat, b: Stmts, st: State, fuel: nat, asBuilt: bool) {
    && (fuel <= n ==> o == Timeout)
    && (fuel > n ==>
          var end := Iterations(x, b, st, n, fuel, asBuilt); end.Some? && o == Normal(end.value) && Holds(end.value, x, a + n))
    && forall k: nat {:trigger Iterations(x, b, st, k, fuel, asBuilt)} ::
         k <= n && k <= fuel && Iterations(x, b, st, k, fuel, asBuilt).Some? ==>
           Holds(Iterations(x, b, st, k, fuel, asBuilt).value, x, a + k)
  }

  /** From a to the bound, behind the bounds' evaluation: the body runs exactly Count(a, bound) times. */
  lemma RangeRunsCount(x: string, bound: Value, b: Stmts, st: State, fuel: nat, asBuilt: bool, a: int)
    requires NoAssigns(b, x) && Holds(st, x, a) && -TWO_63 <= a < TWO_63 && -TWO_63 <= AsInt(bound) < TWO_63 - 1
    requires var n := Count(a, AsInt(bound)); Iterations(x, b, st, if n < fuel then n else fuel, fuel, asBuilt).Some?
    ensures Counts(Reading(Ranging(x, bound, b), st, fuel, asBuilt), x, a, Count(a, AsInt(bound)), b, st, fuel, asBuilt)
  {
    var n := Count(a, AsInt(bound));
    var k := if n < fuel then n else fuel;
    LoopIsIterations(x, bound, b, st, k, fuel, asBuilt, a);
    var end := Iterations(x, b, st, k, fuel, asBuilt).value;
    ReadingUnfolds(Ranging(x, bound, b), end, fuel - k, asBuilt);
    HoldsReads(end, x, a + k);
    forall j: nat {:trigger Iterations(x, b, st, j, fuel, asBuilt)} |
      j <= n && j <= fuel && Iterations(x, b, st, j, fuel, asBuilt).Some?
      ensures Holds(Iterations(x, b, st, j, fuel, asBuilt).value, x, a + j)
    {
      LoopIsIterations(x, bound, b, st, j, fuel, asBuilt, a);
    }
  }

  /** A bound equal to the largest int64 is never exceeded: if the bodies all complete, no fuel is enough. */
  lemma {:induction false} LargestBoundNeverEnds(x: string, bound: Value, b: Stmts, st: State, fuel: nat, asBuilt: bool, a: int)
    requires NoAssigns(b, x) && Holds(st, x, a) && -TWO_63 <= a < TWO_63 && AsInt(bound) == TWO_63 - 1
    requires Iterations(x, b, st, fuel, fuel, asBuilt).Some?
    ensures Reading(Ranging(x, bound, b), st, fuel, asBuilt) == Timeout
    decreases fuel
  {
    if fuel == 0 {
      ReadingUnfolds(Ranging(x, bound, b), st, fuel, asBuilt);
    } else {
      OneIteration(x, bound, b, st, fuel, asBuilt, a);
      WrapIsModulo(a + 1);
      LargestBoundNeverEnds(x, bound, b, Iterate(x, b, st, fuel, asBuilt).value, fuel - 1, asBuilt, Wrap64(a + 1));
    }
  }

  /** A body that leaves the loop in iteration k ends it there, with the loop variable at a + k. */
  lemma RangeLeavesEarly(x: string, bound: Value, b: Stmts, st: State, fuel: nat, asBuilt: bool, a: int, k: nat)
    requires NoAssigns(b, x) && Holds(st, x, a) && -TWO_63 <= a < TWO_63 && -TWO_63 <= AsInt(bound) < TWO_63 - 1
    requires k < Count(a, AsInt(bound)) && k < fuel && Iterations(x, b, st, k, fuel, asBuilt).Some?
    requires var o := ScopedReading(b, Iterations(x, b, st, k, fuel, asBuilt).value, fuel - k, LOOP_BODY, asBuilt);
             !o.Normal? && !o.Continued?
    ensures var end := Iterations(x, b, st, k, fuel, asBuilt).value;
            var o := ScopedReading(b, end, fuel - k, LOOP_BODY, asBuilt);
            Holds(end, x, a + k) && Reading(Ranging(x, bound, b), st, fuel, asBuilt) == LoopExit(o)
  {
    LoopIsIterations(x, bound, b, st, k, fuel, asBuilt, a);
    var end := Iterations(x, b, st, k, fuel, asBuilt).value;
    ReadingUnfolds(Ranging(x, bound, b), end, fuel - k, asBuilt);
    HoldsReads(end, x, a + k);
  }

  // ----- the statements -----

  /** `for x in lo..hi` with both bounds evaluated: the state its iterations begin in, and the upper bound. */
  datatype Beginning = Beginning(st: State, bound: Value)

  /** The lower bound is evaluated with x declared and unset, the upper one with x at the lower bound. */
  ghost function Begin(x: string, lo: Expr, hi: Expr, st: State): Option<Beginning> {
    var a := ValueOf(lo, SetTop(st, x, Unset));
    if !a.V? then None
    else
      var st1 := SetTop(SetTop(st, x, Unset), x, Set(a.v));
      var z := ValueOf(hi, st1);
      if !z.V? then None else Some(Beginning(st1, z.v))
  }

  /** The statement is its iterations, behind its bounds; bounds without a value end it. */
  lemma ForRangeBegins(x: string, lo: Expr, hi: Expr, b: Stmts, st: State, fuel: nat, m: Mode, asBuilt: bool)
    ensures var o := Reading(Do(One(ForRange(x, lo, hi, b)), m), st, fuel, asBuilt);
            match Begin(x, lo, hi, st)
            case None => o == Crashed || o == Undefined
            case Some(at) =>
              && o == Reading(Ranging(x, at.bound, b), at.st, fuel, asBuilt)
              && Holds(at.st, x, AsInt(ValueOf(lo, SetTop(st, x, Unset)).v))
  {
    ReadingUnfolds(Do(One(ForRange(x, lo, hi, b)), m), st, fuel, asBuilt);
  }

  /** `for x in lo..hi` runs its body once for every integer from lo to hi. */
  lemma ForRangeRunsCount(x: string, lo: Expr, hi: Expr, b: Stmts, st: State, fuel: nat, m: Mode, asBuilt: bool, a: int)
    requires NoAssigns(b, x) && Begin(x, lo, hi, st).Some?
    requires var at := Begin(x, lo, hi, st).value;
             && Holds(at.st, x, a) && -TWO_63 <= a < TWO_63 && -TWO_63 <= AsInt(at.bound) < TWO_63 - 1
             && var n := Count(a, AsInt(at.bound)); Iterations(x, b, at.st, if n < fuel then n else fuel, fuel, asBuilt).Some?
    ensures var at := Begin(x, lo, hi, st).value;
            Counts(Reading(Do(One(ForRange(x, lo, hi, b)), m), st, fuel, asBuilt), x, a, Count(a, AsInt(at.bound)), b, at.st,
                   fuel, asBuilt)
  {
    var at := Begin(x, lo, hi, st).value;
    ForRangeBegins(x, lo, hi, b, st, fuel, m, asBuilt);
    RangeRunsCount(x, at.bound, b, at.st, fuel, asBuilt, a);
  }

  /** `for x in lo..9223372036854775807` never ends, if its bodies complete. */
  lemma ForRangeNeverEnds(x: string, lo: Expr, hi: Expr, b: Stmts, st: State, fuel: nat, m: Mode, asBuilt: bool, a: int)
    requires NoAssigns(b, x) && Begin(x, lo, hi, st).Some?
    requires var at := Begin(x, lo, hi, st).value;
             && Holds(at.st, x, a) && -TWO_63 <= a < TWO_63 && AsInt(at.bound) == TWO_63 - 1
             && Iterations(x, b, at.st, fuel, fuel, asBuilt).Some?
    ensures Reading(Do(One(ForRange(x, lo, hi, b)), m), st, fuel, asBuilt) == Timeout
  {
    var at := Begin(x, lo, hi, st).value;
    ForRangeBegins(x, lo, hi, b, st, fuel, m, asBuilt);
    LargestBoundNeverEnds(x, at.bound, b, at.st, fuel, asBuilt, a);
  }

  /** A body that leaves `for x in lo..hi` in iteration k ends it there, with x at lo + k. */
  lemma ForRangeLeavesEarly(x: string, lo: Expr, hi: Expr, b: Stmts, st: State, fuel: nat, m: Mode, asBuilt: bool, a: int, k: nat)
    requires NoAssigns(b, x) && Begin(x, lo, hi, st).Some?
    requires var at := Begin(x, lo, hi, st).value;
             && Holds(at.st, x, a) && -TWO_63 <= a < TWO_63 && -TWO_63 <= AsInt(at.bound) < TWO_63 - 1
             && k < Count(a, AsInt(at.bound)) && k < fuel && Iterations(x, b, at.st, k, fuel, asBuilt).Some?
             && var o := ScopedReading(b, Iterations(x, b, at.st, k, fuel, asBuilt).value, fuel - k, LOOP_BODY, asBuilt);
                !o.Normal? && !o.Continued?
    ensures var end := Iterations(x, b, Begin(x, lo, hi, st).value.st, k, fuel, asBuilt).value;
            && Holds(end, x, a + k)
            && Reading(Do(One(ForRange(x, lo, hi, b)), m), st, fuel, asBuilt)
               == LoopExit(ScopedReading(b, end, fuel - k, LOOP_BODY, asBuilt))
  {
    var at := Begin(x, lo, hi, st).value;
    ForRangeBegins(x, lo, hi, b, st, fuel, m, asBuilt);
    RangeLeavesEarly(x, at.bound, b, at.st, fuel, asBuilt, a, k);
  }

  /** `for x in n` runs its body once for every integer from 1 to the literal, cut to 32 bits. */
  lemma ForCountRunsCount(x: string, count: int, b: Stmts, st: State, fuel: nat, m: Mode, asBuilt: bool)
    requires NoAssigns(b, x)
    requires var n := Count(1, Cut32(count));
             Iterations(x, b, SetTop(st, x, Set(Int(1))), if n < fuel then n else fuel, fuel, asBuilt).Some?
    ensures Counts(Reading(Do(One(ForCount(x, count, b)), m), st, fuel, asBuilt), x, 1, Count(1, Cut32(count)), b,
                   SetTop(st, x, Set(Int(1))), fuel, asBuilt)
  {
    ReadingUnfolds(Do(One(ForCount(x, count, b)), m), st, fuel, asBuilt);
    CutIsModulo(count);
    RangeRunsCount(x, Int(Cut32(count)), b, SetTop(st, x, Set(Int(1))), fuel, asBuilt, 1);
  }

  // ----- array loops -----

  /** The body for element i, if it completes. */
  ghost function Visit(x: string, a: Value, i: int, b: Stmts, st: State, fuel: nat, asBuilt: bool): Option<State> {
    var v := Machine.Element(a, i);
    if v.None? then None
    else
      var o := ScopedReading(b, SetTop(st, x, Set(v.value)), fuel, LOOP_BODY, asBuilt);
      if o.Normal? || o.Continued? then Some(o.st) else None
  }

  /** The state after the n elements from i on, if all their bodies complete. */
  ghost function Visits(x: string, a: Value, i: int, b: Stmts, st: State, n: nat, fuel: nat, asBuilt: bool): Option<State>
    requires n <= fuel
    decreases n
  {
    if n == 0 then Some(st)
    else
      var st1 := Visit(x, a, i, b, st, fuel, asBuilt);
      if st1.None? then None else Visits(x, a, i + 1, b, st1.value, n - 1, fuel - 1, asBuilt)
  }

  lemma VisitOne(x: string, a: Value, i: int, b: Stmts, st: State, one: nat, fuel: nat, asBuilt: bool)
    requires one == 1 <= fuel
    ensures Visits(x, a, i, b, st, one, fuel, asBuilt) == Visit(x, a, i, b, st, fuel, asBuilt)
  {
    var st1 := Visit(x, a, i, b, st, fuel, asBuilt);
    if st1.Some? {
      assert Visits(x, a, i + 1, b, st1.value, one - 1, fuel - 1, asBuilt) == st1;
    }
  }

  /** The last of n + 1 bodies is the one for element i + n. */
  lemma {:induction false} VisitsLast(x: string, a: Value, i: int, b: Stmts, st: State, n: nat, fuel: nat, asBuilt: bool)
    requires n < fuel
    ensures var most := Visits(x, a, i, b, st, n, fuel, asBuilt);
            var next := if most.None? then None else Visit(x, a, i + n, b, most.value, fuel - n, asBuilt);
            Visits(x, a, i, b, st, n + 1, fuel, asBuilt) == next
    decreases n
  {
    if n > 0 {
      var st1 := Visit(x, a, i, b, st, fuel, asBuilt);
      if st1.Some? {
        VisitsLast(x, a, i + 1, b, st1.value, n - 1, fuel - 1, asBuilt);
      }
    } else {
      VisitOne(x, a, i, b, st, n + 1, fuel, asBuilt);
    }
  }

  /** The loop is its visits. */
  lemma {:induction false} LoopIsVisits(x: string, a: Value, len: int, i: int, b: Stmts, st: State, n: nat, fuel: nat, asBuilt: bool)
    requires n <= fuel && i + n <= len && Visits(x, a, i, b, st, n, fuel, asBuilt).Some?
    ensures Reading(Visiting(x, a, len, i, b), st, fuel, asBuilt)
         == Reading(Visiting(x, a, len, i + n, b), Visits(x, a, i, b, st, n, fuel, asBuilt).value, fuel - n, asBuilt)
    decreases n
  {
    if n > 0 {
      ReadingUnfolds(Visiting(x, a, len, i, b), st, fuel, asBuilt);
      var st1 := Visit(x, a, i, b, st, fuel, asBuilt);
      LoopIsVisits(x, a, len, i + 1, b, st1.value, n - 1, fuel - 1, asBuilt);
    }
  }

  /** How many elements an array or a string has. */
  function Length(a: Value): nat {
    if a.Arr? then |a.elems| else if a.Str? then |a.s| else 0
  }

  function ElementAt(a: Value, k: nat): Value
    requires k < Length(a)
  {
    if a.Arr? then a.elems[k] else Str([a.s[k]])
  }

  /** Body k starts with x set to element k, in the state the bodies before it left. */
  ghost predicate InOrder(x: string, a: Value, b: Stmts, st: State, k: nat, fuel: nat, asBuilt: bool)
    requires k < Length(a) && k < fuel && Visits(x, a, 0, b, st, k, fuel, asBuilt).Some?
  {
    var start := SetTop(Visits(x, a, 0, b, st, k, fuel, asBuilt).value, x, Set(ElementAt(a, k)));
    var o := ScopedReading(b, start, fuel - k, LOOP_BODY, asBuilt);
    && ReadVar(start, x) == V(ElementAt(a, k))
    && Visits(x, a, 0, b, st, k + 1, fuel, asBuilt) == if o.Normal? || o.Continued? then Some(o.st) else None
  }

  lemma VisitsInOrder(x: string, a: Value, b: Stmts, st: State, j: nat, fuel: nat, asBuilt: bool)
    requires j < Length(a) && j < fuel && Visits(x, a, 0, b, st, j, fuel, asBuilt).Some?
    ensures InOrder(x, a, b, st, j, fuel, asBuilt)
  {
    VisitsLast(x, a, 0, b, st, j, fuel, asBuilt);
  }

  /** One body for each element, in order; with no more fuel than elements the loop is still running. */
  ghost predicate VisitsAll(o: Outcome, x: string, a: Value, b: Stmts, st: State, fuel: nat, asBuilt: bool) {
    && (fuel <= Length(a) ==> o == Timeout)
    && (fuel > Length(a) ==>
          var end := Visits(x, a, 0, b, st, Length(a), fuel, asBuilt); end.Some? && o == Normal(end.value))
    && forall k: nat {:trigger Visits(x, a, 0, b, st, k, fuel, asBuilt)} ::
         k < Length(a) && k < fuel && Visits(x, a, 0, b, st, k, fuel, asBuilt).Some? ==> InOrder(x, a, b, st, k, fuel, asBuilt)
  }

  /** A loop over an array or a string, behind the evaluation of its length, visits all elements. */
  lemma EachRunsCount(x: string, a: Value, b: Stmts, st: State, fuel: nat, asBuilt: bool)
    requires Visits(x, a, 0, b, st, if Length(a) < fuel then Length(a) else fuel, fuel, asBuilt).Some?
    ensures VisitsAll(Reading(Visiting(x, a, Length(a), 0, b), st, fuel, asBuilt), x, a, b, st, fuel, asBuilt)
  {
    var n := Length(a);
    var k := if n < fuel then n else fuel;
    LoopIsVisits(x, a, n, 0, b, st, k, fuel, asBuilt);
    ReadingUnfolds(Visiting(x, a, n, k, b), Visits(x, a, 0, b, st, k, fuel, asBuilt).value, fuel - k, asBuilt);
    forall j: nat {:trigger Visits(x, a, 0, b, st, j, fuel, asBuilt)} |
      j < n && j < fuel && Visits(x, a, 0, b, st, j, fuel, asBuilt).Some?
      ensures InOrder(x, a, b, st, j, fuel, asBuilt)
    {
      VisitsInOrder(x, a, b, st, j, fuel, asBuilt);
    }
  }

  /** `for x in e` visits the elements of the array or string e once each, in order; any other value crashes. */
  lemma ForEachRunsCount(x: string, e: Iterable, b: Stmts, st: State, fuel: nat, m: Mode, asBuilt: bool)
    requires var a := ValueOf(e, st);
             a.V? ==>
               && Length(a.v) < TWO_63
               && var n := if Length(a.v) < fuel then Length(a.v) else fuel;
                  Visits(x, a.v, 0, b, SetTop(st, x, Unset), n, fuel, asBuilt).Some?
    ensures var a := ValueOf(e, st);
            var o := Reading(Do(One(ForEach(x, e, b)), m), st, fuel, asBuilt);
            if !a.V? then o == Crashed || o == Undefined
            else if !a.v.Arr? && !a.v.Str? then o == Crashed
            else VisitsAll(o, x, a.v, b, SetTop(st, x, Unset), fuel, asBuilt)
  {
    var a := ValueOf(e, st);
    ReadingUnfolds(Do(One(ForEach(x, e, b)), m), st, fuel, asBuilt);
    if a.V? && (a.v.Arr? || a.v.Str?) {
      WrapIsModulo(Length(a.v));
      EachRunsCount(x, a.v, b, SetTop(st, x, Unset), fuel, asBuilt);
    }
  }
}
