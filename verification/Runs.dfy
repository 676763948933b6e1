/** Runs of a deterministic transition function, independent of what a step does. */
module Runs {

  datatype Result<C, F> = Next(c: C) | Final(f: F)

  /** At most n steps; a final result is kept. */
  function Run<C, F>(step: C -> Result<C, F>, c: C, n: nat): Result<C, F>
    decreases n
  {
    if n == 0 then Next(c)
    else
      match step(c)
      case Next(d) => Run(step, d, n - 1)
      case Final(f) => Final(f)
  }

  ghost predicate Reaches<C, F>(step: C -> Result<C, F>, c: C, r: Result<C, F>) {
    exists n: nat :: Run(step, c, n) == r
  }

  /** From c to d in at least one step. */
  ghost predicate Moves<C, F>(step: C -> Result<C, F>, c: C, d: C) {
    step(c).Next? && Reaches(step, step(c).c, Next(d))
  }

  /** Still running after k steps. */
  predicate RunsFor<C, F>(step: C -> Result<C, F>, c: C, k: nat) {
    Run(step, c, k).Next?
  }

  lemma {:induction false} RunSplit<C, F>(step: C -> Result<C, F>, c: C, m: nat, n: nat)
    requires Run(step, c, m).Next?
    ensures Run(step, c, m + n) == Run(step, Run(step, c, m).c, n)
    decreases m
  {
    if m > 0 {
      RunSplit(step, step(c).c, m - 1, n);
    }
  }

  predicate Keeps<C, F>(r: Result<C, F>, inv: C -> bool, fin: F -> bool) {
    match r
    case Next(d) => inv(d)
    case Final(f) => fin(f)
  }

  /** What every step keeps holds in every run. */
  lemma {:induction false} RunKeeps<C(!new), F(!new)>(step: C -> Result<C, F>, inv: C -> bool, fin: F -> bool, c: C, n: nat)
    requires inv(c) && forall d {:trigger inv(d)} :: inv(d) ==> Keeps(step(d), inv, fin)
    ensures Keeps(Run(step, c, n), inv, fin)
    decreases n
  {
    if n > 0 && step(c).Next? {
      RunKeeps(step, inv, fin, step(c).c, n - 1);
    }
  }

  lemma {:induction false} RunsForLess<C, F>(step: C -> Result<C, F>, c: C, k: nat, j: nat)
    requires RunsFor(step, c, k) && j <= k
    ensures RunsFor(step, c, j)
    decreases j
  {
    if j > 0 {
      RunsForLess(step, step(c).c, k - 1, j - 1);
    }
  }

  lemma {:induction false} FinalStays<C, F>(step: C -> Result<C, F>, c: C, m: nat, n: nat)
    requires Run(step, c, m).Final? && m <= n
    ensures Run(step, c, n) == Run(step, c, m)
    decreases m
  {
    if step(c).Next? {
      FinalStays(step, step(c).c, m - 1, n - 1);
    }
  }

  lemma Stay<C, F>(step: C -> Result<C, F>, c: C)
    ensures Reaches(step, c, Next(c))
  {
    assert Run(step, c, 0) == Next(c);
  }

  lemma OneStep<C, F>(step: C -> Result<C, F>, c: C)
    ensures Reaches(step, c, step(c))
  {
    assert Run(step, c, 1) == step(c);
  }

  lemma Chain<C, F>(step: C -> Result<C, F>, c: C, d: C, r: Result<C, F>)
    requires Reaches(step, c, Next(d)) && Reaches(step, d, r)
    ensures Reaches(step, c, r)
  {
    var m: nat :| Run(step, c, m) == Next(d);
    var n: nat :| Run(step, d, n) == r;
    RunSplit(step, c, m, n);
    assert Run(step, c, m + n) == r;
  }

  /** Reaching a point from which k steps run means running k steps. */
  lemma ChainRunsFor<C, F>(step: C -> Result<C, F>, c: C, d: C, k: nat)
    requires Reaches(step, c, Next(d)) && RunsFor(step, d, k)
    ensures RunsFor(step, c, k)
  {
    var m: nat :| Run(step, c, m) == Next(d);
    RunSplit(step, c, m, k);
    RunsForLess(step, c, m + k, k);
  }

  lemma MovesReaches<C, F>(step: C -> Result<C, F>, c: C, d: C)
    requires Moves(step, c, d)
    ensures Reaches(step, c, Next(d))
  {
    OneStep(step, c);
    Chain(step, c, step(c).c, Next(d));
  }

  lemma ReachesMoves<C, F>(step: C -> Result<C, F>, c: C, d: C, e: C)
    requires Reaches(step, c, Next(d)) && Moves(step, d, e)
    ensures Moves(step, c, e)
  {
    var m: nat :| Run(step, c, m) == Next(d);
    if m > 0 {
      MovesReaches(step, d, e);
      assert Run(step, step(c).c, m - 1) == Next(d);
      Chain(step, step(c).c, d, Next(e));
    }
  }

  lemma MovesRunsFor<C, F>(step: C -> Result<C, F>, c: C, d: C, k: nat)
    requires Moves(step, c, d) && RunsFor(step, d, k)
    ensures RunsFor(step, c, k + 1)
  {
    ChainRunsFor(step, step(c).c, d, k);
  }

  /** Two final results of one start are the same. */
  lemma FinalUnique<C, F>(step: C -> Result<C, F>, c: C, r: F, s: F)
    requires Reaches(step, c, Final(r)) && Reaches(step, c, Final(s))
    ensures r == s
  {
    var m: nat :| Run(step, c, m) == Final(r);
    var n: nat :| Run(step, c, n) == Final(s);
    if m <= n {
      FinalStays(step, c, m, n);
    } else {
      FinalStays(step, c, n, m);
    }
  }

  /** A run that ends does not run for ever. */
  lemma FinalBounds<C, F>(step: C -> Result<C, F>, c: C, r: F)
    requires Reaches(step, c, Final(r))
    ensures exists k: nat :: !RunsFor(step, c, k)
  {
    var m: nat :| Run(step, c, m) == Final(r);
    assert !RunsFor(step, c, m);
  }
}
