/** The two searches for a schedule: random with a running top-k, and evolutionary with one top-k at the end. */
module SearchStrategy {
  import opened Values
  import opened Selection
  import opened CachingEvaluator
  import opened ConfigSignature

  predicate IsBetter(a: EvalResult, b: EvalResult) {
    a.valid && (b.valid ==> a.time < b.time)
  }

  predicate AllValid(rs: seq<EvalResult>) {
    forall i :: 0 <= i < |rs| ==> rs[i].valid
  }

  /** Best first. */
  predicate Ranked(rs: seq<EvalResult>) {
    forall i, j :: 0 <= i < j < |rs| ==> !IsBetter(rs[j], rs[i])
  }

  /** How many of n results a limit k keeps; compared as a size, a negative k is no limit. */
  function Limit(k: int, n: nat): nat {
    if 0 <= k < n then k else n
  }

  /** Nothing outside `top` beats anything in it. */
  ghost predicate Leaves(top: seq<EvalResult>, rest: multiset<EvalResult>) {
    forall t, r :: t in top && r in rest ==> !IsBetter(r, t)
  }

  /** `top` is the k best of `all`, best first. */
  ghost predicate IsTop(top: seq<EvalResult>, all: seq<EvalResult>, k: int) {
    && Ranked(top) && |top| == Limit(k, |all|) && multiset(top) <= multiset(all)
    && Leaves(top, multiset(all) - multiset(top))
  }

  /** The times of the k best are the same however the ties fall. */
  lemma {:induction false} TopTimesUnique(a: seq<EvalResult>, b: seq<EvalResult>, all: seq<EvalResult>, k: int, i: nat)
    requires IsTop(a, all, k) && IsTop(b, all, k) && AllValid(all) && i < |a|
    ensures a[i].time == b[i].time
  {
    NoLater(a, b, all, k, i);
    NoLater(b, a, all, k, i);
  }

  /** If b[i] were later than a[i], all of a[..i + 1] would be in front of it, yet only i results are. */
  lemma NoLater(a: seq<EvalResult>, b: seq<EvalResult>, all: seq<EvalResult>, k: int, i: nat)
    requires IsTop(a, all, k) && IsTop(b, all, k) && AllValid(all) && i < |a|
    ensures b[i].time <= a[i].time
  {
    if b[i].time > a[i].time {
      var front := multiset(a[..i + 1]);
      forall x | x in front ensures front[x] <= multiset(b[..i])[x] {
        AllAreValid(all, a);
        AllAreValid(all, b);
        FrontEarlier(a, i, x);
        EarlierInside(b, all, k, i, x);
        assert a == a[..i + 1] + a[i + 1..];
        assert front[x] <= multiset(a)[x] <= multiset(all)[x];
      }
      assert front <= multiset(b[..i]);
      SmallerBag(front, multiset(b[..i]));
    }
  }

  lemma SmallerBag(a: multiset<EvalResult>, b: multiset<EvalResult>)
    requires a <= b
    ensures |a| <= |b|
  {
    assert b == a + (b - a);
  }

  lemma AllAreValid(all: seq<EvalResult>, top: seq<EvalResult>)
    requires AllValid(all) && multiset(top) <= multiset(all)
    ensures AllValid(top)
  {
    forall i | 0 <= i < |top| ensures top[i].valid {
      assert top[i] in multiset(top);
      assert top[i] in all;
    }
  }

  lemma FrontEarlier(a: seq<EvalResult>, i: nat, x: EvalResult)
    requires Ranked(a) && AllValid(a) && i < |a| && x in multiset(a[..i + 1])
    ensures x.time <= a[i].time && x.valid
  {
    assert x in a[..i + 1];
    var j :| 0 <= j < i + 1 && a[j] == x;
    assert j == i || !IsBetter(a[i], a[j]);
  }

  /** A result earlier than b[i] stands, as often as it occurs at all, before b[i]. */
  lemma EarlierInside(b: seq<EvalResult>, all: seq<EvalResult>, k: int, i: nat, x: EvalResult)
    requires IsTop(b, all, k) && AllValid(b) && i < |b| && x.valid && x.time < b[i].time
    ensures multiset(b[..i])[x] == multiset(all)[x]
  {
    assert b == b[..i] + b[i..];
    forall j | i <= j < |b| ensures b[j] != x {
      assert j == i || !IsBetter(b[j], b[i]);
    }
    assert x !in b[i..];
    assert b[i] in b && IsBetter(x, b[i]);
    assert x !in multiset(all) - multiset(b);
  }

  method InsertResult(r: seq<EvalResult>, x: EvalResult) returns (q: seq<EvalResult>)
    requires Ranked(r) && AllValid(r) && x.valid
    ensures Ranked(q) && AllValid(q) && multiset(q) == multiset(r) + multiset{x}
  {
    var j := |r|;
    while j > 0 && IsBetter(x, r[j - 1])
      invariant 0 <= j <= |r| && forall i :: j <= i < |r| ==> IsBetter(x, r[i])
    {
      j := j - 1;
    }
    q := r[..j] + [x] + r[j..];
    assert forall i :: 0 <= i < j ==> !IsBetter(x, r[i]);
    Inserted(r, x, j);
  }

  lemma Inserted(r: seq<EvalResult>, x: EvalResult, j: nat)
    requires j <= |r|
    ensures multiset(r[..j] + [x] + r[j..]) == multiset(r) + multiset{x}
  {
    assert r == r[..j] + r[j..];
  }

  method SortResults(rs: seq<EvalResult>) returns (r: seq<EvalResult>)
    requires AllValid(rs)
    ensures Ranked(r) && AllValid(r) && |r| == |rs| && multiset(r) == multiset(rs)
  {
    r := [];
    var i := 0;
    while i < |rs|
      invariant 0 <= i <= |rs| && Ranked(r) && AllValid(r) && multiset(r) == multiset(rs[..i])
    {
      assert rs[..i + 1] == rs[..i] + [rs[i]];
      r := InsertResult(r, rs[i]);
      i := i + 1;
    }
    assert rs[..i] == rs;
    assert |r| == |multiset(r)| == |multiset(rs)| == |rs|;
  }

  /** Cut a ranking after k results. */
  lemma CutIsTop(ranked: seq<EvalResult>, all: seq<EvalResult>, k: int)
    requires Ranked(ranked) && |ranked| == |all| && multiset(ranked) == multiset(all)
    ensures IsTop(ranked[..Limit(k, |all|)], all, k)
  {
    var n := Limit(k, |all|);
    var top, rest := ranked[..n], ranked[n..];
    assert ranked == top + rest;
    BagOfTwo(top, rest, all);
    forall t, r | t in top && r in multiset(rest) ensures !IsBetter(r, t) {
      assert r in rest;
      RankedParts(ranked, n, t, r);
    }
  }

  lemma BagOfTwo(top: seq<EvalResult>, rest: seq<EvalResult>, all: seq<EvalResult>)
    requires multiset(top + rest) == multiset(all)
    ensures multiset(top) <= multiset(all) && multiset(all) - multiset(top) == multiset(rest)
  {
    assert multiset(top + rest) == multiset(top) + multiset(rest);
  }

  lemma RankedParts(ranked: seq<EvalResult>, n: nat, t: EvalResult, r: EvalResult)
    requires Ranked(ranked) && n <= |ranked| && t in ranked[..n] && r in ranked[n..]
    ensures !IsBetter(r, t)
  {
    var i :| 0 <= i < n && ranked[..n][i] == t;
    var j :| 0 <= j < |ranked| - n && ranked[n..][j] == r;
    assert ranked[i] == t && ranked[n + j] == r;
  }

  // ----- random search -----

  /** A trial may be skipped by the cost model; the clock may end the trials anywhere. */
  datatype Trial = Skipped | Evaluated(r: EvalResult)

  function ValidOf(trials: seq<Trial>): (r: seq<EvalResult>)
    ensures AllValid(r)
  {
    if trials == [] then []
    else
      var most, last := ValidOf(trials[..|trials| - 1]), trials[|trials| - 1];
      if last.Evaluated? && last.r.valid then most + [last.r] else most
  }

  /** The trials with a valid result, by number. */
  function ValidTrials(trials: seq<Trial>): set<nat> {
    set k: nat | k < |trials| && trials[k].Evaluated? && trials[k].r.valid
  }

  /** The valid results are those of these trials, in order. */
  lemma {:induction false} ValidOfSelects(trials: seq<Trial>) returns (idx: seq<nat>)
    ensures Enumerates(idx, ValidTrials(trials)) && |ValidOf(trials)| == |idx|
    ensures forall i :: 0 <= i < |idx| ==> idx[i] < |trials| && trials[idx[i]] == Evaluated(ValidOf(trials)[i])
    decreases |trials|
  {
    if trials == [] {
      idx := [];
    } else {
      var m := |trials| - 1;
      var most := trials[..m];
      idx := ValidOfSelects(most);
      assert forall j: nat :: j < m ==> most[j] == trials[j];
      if trials[m].Evaluated? && trials[m].r.valid {
        assert ValidTrials(trials) == ValidTrials(most) + {m};
        EnumeratesMore(idx, ValidTrials(most), m);
        idx := idx + [m];
      } else {
        assert ValidTrials(trials) == ValidTrials(most);
      }
    }
  }

  /** The first of the best. */
  function BestOf(rs: seq<EvalResult>): Option<EvalResult> {
    if rs == [] then None
    else
      var best, last := BestOf(rs[..|rs| - 1]), rs[|rs| - 1];
      if best.None? || IsBetter(last, best.value) then Some(last) else best
  }

  /** How many results there have been since the best one. */
  function Stale(rs: seq<EvalResult>): nat {
    if rs == [] then 0
    else
      var best, last := BestOf(rs[..|rs| - 1]), rs[|rs| - 1];
      if best.None? || IsBetter(last, best.value) then 0 else Stale(rs[..|rs| - 1]) + 1
  }

  /** Result b is better than all before it, and nothing behind it is better. */
  predicate BestAt(rs: seq<EvalResult>, b: nat) {
    && b < |rs| && (forall i :: 0 <= i < b ==> IsBetter(rs[b], rs[i]))
    && (forall i :: 0 <= i < |rs| ==> !IsBetter(rs[i], rs[b]))
  }

  lemma OneBest(rs: seq<EvalResult>, a: nat, b: nat)
    requires BestAt(rs, a) && BestAt(rs, b)
    ensures a == b
  {
    var x, y := rs[a], rs[b];
    assert !IsBetter(x, y) && !IsBetter(y, x);
  }

  /** The first of the best stands as far from the end as the count says. */
  lemma {:induction false} StaleIs(rs: seq<EvalResult>)
    requires rs != [] && AllValid(rs)
    ensures Stale(rs) < |rs| && BestAt(rs, |rs| - 1 - Stale(rs)) && BestOf(rs) == Some(rs[|rs| - 1 - Stale(rs)])
    decreases |rs|
  {
    if |rs| > 1 {
      StaleIs(rs[..|rs| - 1]);
    }
  }

  /** Adding one result to a running top-k and cutting it again: what was dropped before stays dropped. */
  lemma TopMore(top: seq<EvalResult>, all: seq<EvalResult>, x: EvalResult, ranked: seq<EvalResult>, k: int)
    requires IsTop(top, all, k) && AllValid(all) && x.valid
    requires Ranked(ranked) && AllValid(ranked) && multiset(ranked) == multiset(top) + multiset{x}
    ensures |ranked| == |top| + 1
    ensures IsTop(ranked[..Limit(k, |ranked|)], all + [x], k)
  {
    assert |ranked| == |multiset(ranked)| == |top| + 1;
    var more := all + [x];
    assert multiset(more) == multiset(all) + multiset{x};
    if |top| == |all| {
      SameBag(top, all);
      CutIsTop(ranked, more, k);
    } else {
      var cut, y := ranked[..|top|], ranked[|top|];
      assert ranked == cut + [y];
      assert multiset(cut) + multiset{y} == multiset(top) + multiset{x};
      BagsLeft(multiset(all), multiset(top), multiset(cut), x, y);
      forall t, r | t in cut && r in multiset(more) - multiset(cut) ensures !IsBetter(r, t) {
        var i :| 0 <= i < |cut| && cut[i] == t;
        assert !IsBetter(y, ranked[i]) && t in ranked && t in multiset(cut);
        if r != y {
          OneStayed(multiset(top), multiset(cut), x, y, t);
          DroppedStays(top, all, r, t, y);
        }
      }
    }
  }

  /** Taking x in and y out. */
  lemma BagsLeft(all: multiset<EvalResult>, top: multiset<EvalResult>, cut: multiset<EvalResult>, x: EvalResult, y: EvalResult)
    requires top <= all && cut + multiset{y} == top + multiset{x}
    ensures cut <= all + multiset{x}
    ensures all + multiset{x} - cut == (all - top) + multiset{y}
  {
    forall z ensures cut[z] + multiset{y}[z] == top[z] + multiset{x}[z] {
      assert (cut + multiset{y})[z] == (top + multiset{x})[z];
    }
  }

  lemma OneStayed(top: multiset<EvalResult>, cut: multiset<EvalResult>, x: EvalResult, y: EvalResult, t: EvalResult)
    requires cut + multiset{y} == top + multiset{x} && t in cut
    ensures t in top || y in top
  {
    assert (cut + multiset{y})[t] == (top + multiset{x})[t];
    assert (cut + multiset{y})[y] == (top + multiset{x})[y];
  }

  lemma DroppedStays(top: seq<EvalResult>, all: seq<EvalResult>, r: EvalResult, t: EvalResult, y: EvalResult)
    requires AllValid(all) && multiset(top) <= multiset(all) && Leaves(top, multiset(all) - multiset(top))
    requires r in multiset(all) - multiset(top) && (t in multiset(top) || y in multiset(top)) && t.valid && !IsBetter(y, t)
    ensures !IsBetter(r, t)
  {
    if t in multiset(top) {
      assert t in top;
    } else {
      assert y in top && y in multiset(all) && y in all && r in all;
    }
  }

  lemma SameBag(top: seq<EvalResult>, all: seq<EvalResult>)
    requires multiset(top) <= multiset(all) && |top| == |all|
    ensures multiset(top) == multiset(all)
  {
    assert |multiset(all) - multiset(top)| == 0;
    assert multiset(all) == multiset(top) + (multiset(all) - multiset(top));
  }

  lemma {:induction false} BestIsBest(rs: seq<EvalResult>)
    requires rs != [] && AllValid(rs)
    ensures BestOf(rs).Some? && BestOf(rs).value in rs && forall r :: r in rs ==> !IsBetter(r, BestOf(rs).value)
    decreases |rs|
  {
    var most, last := rs[..|rs| - 1], rs[|rs| - 1];
    if most != [] {
      BestIsBest(most);
    }
    forall r | r in rs ensures !IsBetter(r, BestOf(rs).value) {
      assert r in most || r == last;
    }
  }

  /** The head of the top k is as good as the best result there was. */
  lemma HeadIsBest(top: seq<EvalResult>, all: seq<EvalResult>, k: int)
    requires IsTop(top, all, k) && AllValid(all) && all != [] && k != 0
    ensures BestOf(all).Some? && top != [] && top[0].time == BestOf(all).value.time
  {
    BestIsBest(all);
    var best := BestOf(all).value;
    assert top[0] in multiset(top) && top[0] in all;
    if best in multiset(top) {
      assert best in top;
      var i :| 0 <= i < |top| && top[i] == best;
      assert i == 0 || !IsBetter(top[i], top[0]);
    } else {
      assert best in multiset(all) - multiset(top) && top[0] in top;
    }
  }

  /** Early stop after m trials: the last one was valid, and too many have passed since the best. */
  predicate StopsAfter(trials: seq<Trial>, m: nat, patience: int)
    requires m <= |trials|
  {
    m > 0 && trials[m - 1].Evaluated? && trials[m - 1].r.valid && Stale(ValidOf(trials[..m])) >= patience
  }

  /** What early stopping means: the last trial was valid, and `patience` valid ones or more came after the best. */
  lemma StopsWhen(trials: seq<Trial>, m: nat, patience: int)
    requires 0 < m <= |trials|
    ensures var rs := ValidOf(trials[..m]);
            StopsAfter(trials, m, patience) <==>
              trials[m - 1].Evaluated? && trials[m - 1].r.valid && exists b: nat :: BestAt(rs, b) && |rs| - 1 - b >= patience
  {
    var rs := ValidOf(trials[..m]);
    if trials[m - 1].Evaluated? && trials[m - 1].r.valid {
      assert rs != [];
      StaleIs(rs);
      forall b: nat | BestAt(rs, b) ensures b == |rs| - 1 - Stale(rs) {
        OneBest(rs, |rs| - 1 - Stale(rs), b);
      }
    }
  }

  /** Where the trials end: at the first early stop. */
  function TrialsMade(trials: seq<Trial>, m: nat, patience: int): (n: nat)
    requires m <= |trials|
    ensures m <= n <= |trials| && (n < |trials| ==> StopsAfter(trials, n, patience))
    ensures forall k :: m <= k < n ==> !StopsAfter(trials, k, patience)
    decreases |trials| - m
  {
    if m == |trials| || StopsAfter(trials, m, patience) then m else TrialsMade(trials, m + 1, patience)
  }

  lemma SeenMore(seen: seq<EvalResult>, r: EvalResult)
    ensures var best, improves := BestOf(seen), BestOf(seen).None? || IsBetter(r, BestOf(seen).value);
            && BestOf(seen + [r]) == (if improves then Some(r) else best)
            && Stale(seen + [r]) == (if improves then 0 else Stale(seen) + 1)
  {
    assert (seen + [r])[..|seen|] == seen;
  }

  /** One more result for the running top-k. */
  method Offer(top: seq<EvalResult>, result: EvalResult, topK: int, ghost seen: seq<EvalResult>) returns (next: seq<EvalResult>)
    requires IsTop(top, seen, topK) && AllValid(seen) && AllValid(top) && result.valid
    ensures IsTop(next, seen + [result], topK) && AllValid(next)
  {
    var ranked := SortResults(top + [result]);
    TopMore(top, seen, result, ranked, topK);
    next := if topK >= 0 && |ranked| > topK then ranked[..topK] else ranked;
    assert next == ranked[..Limit(topK, |ranked|)];
  }

  /** What the loop has seen of the trials made so far. */
  ghost predicate Seen(trials: seq<Trial>, m: nat, patience: int, made: nat, seen: seq<EvalResult>,
                       best: Option<EvalResult>, stale: nat)
    requires m <= |trials|
  {
    seen == ValidOf(trials[..m]) && best == BestOf(seen) && stale == Stale(seen) && !StopsAfter(trials, m, patience)
    && TrialsMade(trials, m, patience) == made
  }

  lemma SkipSeen(trials: seq<Trial>, m: nat, patience: int, made: nat, seen: seq<EvalResult>,
            best: Option<EvalResult>, stale: nat)
    requires m < |trials| && Seen(trials, m, patience, made, seen, best, stale)
    requires trials[m].Skipped? || !trials[m].r.valid
    ensures Seen(trials, m + 1, patience, made, seen, best, stale)
  {
    assert trials[..m + 1][..m] == trials[..m];
  }

  lemma TrialSeen(trials: seq<Trial>, m: nat, patience: int, made: nat, seen: seq<EvalResult>,
            best: Option<EvalResult>, stale: nat)
    requires m < |trials| && Seen(trials, m, patience, made, seen, best, stale) && trials[m].Evaluated? && trials[m].r.valid
    ensures var r := trials[m].r;
            var improves := best.None? || IsBetter(r, best.value);
            var n := if improves then 0 else stale + 1;
            && ValidOf(trials[..m + 1]) == seen + [r]
            && (n >= patience ==> made == m + 1)
            && (n < patience ==> Seen(trials, m + 1, patience, made, seen + [r], if improves then Some(r) else best, n))
  {
    assert trials[..m + 1][..m] == trials[..m];
    var r := trials[m].r;
    SeenMore(seen, r);
    assert ValidOf(trials[..m + 1]) == seen + [r];
    assert StopsAfter(trials, m + 1, patience) <==> Stale(seen + [r]) >= patience;
    assert made == TrialsMade(trials, m + 1, patience);
  }

  /**
   * The running top-k of the trials made is the top-k of all their valid results; a negative k, cast to a size to
   * reserve, throws.
   */
  method RandomSearch(trials: seq<Trial>, topK: int, patience: int) returns (r: Option<seq<EvalResult>>)
    ensures r.None? <==> topK < 0
    ensures r.Some? ==> IsTop(r.value, ValidOf(trials[..TrialsMade(trials, 0, patience)]), topK)
    ensures r.Some? ==> |r.value| <= topK
    ensures r.Some? && |r.value| < topK ==> |r.value| == |ValidOf(trials[..TrialsMade(trials, 0, patience)])|
    ensures r.Some? && topK > 0 ==> forall t :: 0 <= t < TrialsMade(trials, 0, patience) && trials[t].Evaluated? && trials[t].r.valid ==>
              r.value != [] && r.value[0].valid && r.value[0].time <= trials[t].r.time
  {
    if topK < 0 {
      return None;
    }
    var top := RunningTop(trials, topK, patience);
    ghost var made := trials[..TrialsMade(trials, 0, patience)];
    if topK > 0 {
      forall t | 0 <= t < |made| && made[t].Evaluated? && made[t].r.valid ensures top != [] && !IsBetter(made[t].r, top[0]) {
        TrialIsBeaten(top, made, topK, t);
      }
    }
    return Some(top);
  }

  /** The head of the top k is not beaten by any result. */
  lemma HeadUnbeaten(top: seq<EvalResult>, all: seq<EvalResult>, k: int, r: EvalResult)
    requires IsTop(top, all, k) && k != 0 && r in all
    ensures top != [] && !IsBetter(r, top[0])
  {
    assert r in multiset(all);
    if r in multiset(top) {
      assert r in top;
      var i :| 0 <= i < |top| && top[i] == r;
      assert i == 0 || !IsBetter(top[i], top[0]);
    } else {
      assert r in multiset(all) - multiset(top) && top[0] in top;
    }
  }

  lemma TrialIsBeaten(top: seq<EvalResult>, made: seq<Trial>, k: int, t: nat)
    requires IsTop(top, ValidOf(made), k) && k != 0 && t < |made| && made[t].Evaluated? && made[t].r.valid
    ensures top != [] && !IsBetter(made[t].r, top[0])
  {
    var idx := ValidOfSelects(made);
    assert t in ValidTrials(made) && t in idx;
    var i :| 0 <= i < |idx| && idx[i] == t;
    assert ValidOf(made)[i] == made[t].r;
    HeadUnbeaten(top, ValidOf(made), k, made[t].r);
  }

  method RunningTop(trials: seq<Trial>, topK: nat, patience: int) returns (top: seq<EvalResult>)
    ensures IsTop(top, ValidOf(trials[..TrialsMade(trials, 0, patience)]), topK)
  {
    top := [];
    var best: Option<EvalResult> := None;
    var noImprovement := 0;
    ghost var seen: seq<EvalResult> := [];
    ghost var made := TrialsMade(trials, 0, patience);
    var trial := 0;
    while trial < |trials|
      invariant 0 <= trial <= |trials| && AllValid(top) && AllValid(seen) && IsTop(top, seen, topK)
      invariant Seen(trials, trial, patience, made, seen, best, noImprovement)
    {
      if trials[trial].Skipped? || !trials[trial].r.valid {
        SkipSeen(trials, trial, patience, made, seen, best, noImprovement);
        trial := trial + 1;
        continue;
      }
      var result := trials[trial].r;
      TrialSeen(trials, trial, patience, made, seen, best, noImprovement);
      top := Offer(top, result, topK, seen);
      seen := seen + [result];
      if best.None? || IsBetter(result, best.value) {
        best := Some(result);
        noImprovement := 0;
      } else {
        noImprovement := noImprovement + 1;
      }
      trial := trial + 1;
      if noImprovement >= patience {
        return;
      }
    }
    assert trials[..trial] == trials;
  }

  // ----- evolutionary search -----

  function Max(a: int, b: int): int {
    if a > b then a else b
  }

  function EliteCount(ratio: real, size: int): int {
    Max(1, (ratio * size as real).Floor)
  }

  /** At least one; otherwise the ratio of the size, rounded down. */
  lemma EliteCountIs(ratio: real, size: int)
    ensures var n, share := EliteCount(ratio, size), ratio * size as real;
            n >= 1 && (share < 2.0 ==> n == 1) && (share >= 1.0 ==> n as real <= share < n as real + 1.0)
  {
  }

  /** The default configuration, then random ones. */
  ghost predicate IsInitial(pop: seq<Config>, first: Config, sample: nat -> Config, size: int) {
    && |pop| >= 1 && pop[0] == first && (size >= 1 ==> |pop| == size) && (size < 1 ==> |pop| == 1)
    && forall i :: 1 <= i < |pop| ==> pop[i] == sample(i)
  }

  method InitPopulation(first: Config, sample: nat -> Config, size: int) returns (pop: seq<Config>)
    ensures IsInitial(pop, first, sample, size)
  {
    pop := [first];
    while |pop| < size
      invariant 1 <= |pop| <= Max(1, size) && pop[0] == first
      invariant forall i :: 1 <= i < |pop| ==> pop[i] == sample(i)
      decreases size - |pop|
    {
      pop := pop + [sample(|pop|)];
    }
  }

  // ----- tournaments, crossover, mutation: the numbers drawn are arbitrary, and taken modulo what there is -----

  /** The best of the results picked; the first one among equals. */
  function Fittest(rs: seq<EvalResult>, draws: seq<nat>): Option<EvalResult>
    requires rs != []
  {
    if draws == [] then None
    else
      var best, r := Fittest(rs, draws[..|draws| - 1]), rs[draws[|draws| - 1] % |rs|];
      if best.None? then if r.valid then Some(r) else None
      else if IsBetter(r, best.value) then Some(r) else best
  }

  /** Without a valid result drawn there is an empty configuration. */
  function Winner(rs: seq<EvalResult>, draws: seq<nat>): Config
    requires rs != []
  {
    var best := Fittest(rs, draws);
    if best.None? then [] else best.value.config
  }

  /** The j-th result drawn. */
  function Drawn(rs: seq<EvalResult>, draws: seq<nat>, j: nat): EvalResult
    requires rs != [] && j < |draws|
  {
    rs[draws[j] % |rs|]
  }

  /** Draw j is valid, nothing drawn is better, and what was drawn before it is worse. */
  predicate WinsAt(rs: seq<EvalResult>, draws: seq<nat>, j: nat)
    requires rs != []
  {
    && j < |draws| && Drawn(rs, draws, j).valid
    && (forall i :: 0 <= i < |draws| ==> !IsBetter(Drawn(rs, draws, i), Drawn(rs, draws, j)))
    && (forall i :: 0 <= i < j ==> IsBetter(Drawn(rs, draws, j), Drawn(rs, draws, i)))
  }

  /** The configuration of the first of the best valid results drawn, or an empty one if none is valid. */
  ghost predicate Wins(rs: seq<EvalResult>, draws: seq<nat>, config: Config)
    requires rs != []
  {
    if exists j: nat :: j < |draws| && Drawn(rs, draws, j).valid
    then exists j: nat :: WinsAt(rs, draws, j) && config == Drawn(rs, draws, j).config
    else config == []
  }

  lemma {:induction false} FittestAt(rs: seq<EvalResult>, draws: seq<nat>) returns (j: nat)
    requires rs != []
    ensures Fittest(rs, draws).Some? ==> WinsAt(rs, draws, j) && Fittest(rs, draws).value == Drawn(rs, draws, j)
    ensures Fittest(rs, draws).None? ==> forall i :: 0 <= i < |draws| ==> !Drawn(rs, draws, i).valid
    decreases |draws|
  {
    j := 0;
    if draws != [] {
      var n := |draws| - 1;
      var before := draws[..n];
      j := FittestAt(rs, before);
      assert forall i :: 0 <= i < n ==> Drawn(rs, before, i) == Drawn(rs, draws, i);
      var r := Drawn(rs, draws, n);
      if r.valid && (Fittest(rs, before).None? || IsBetter(r, Fittest(rs, before).value)) {
        j := n;
      }
    }
  }

  lemma WinnerWins(rs: seq<EvalResult>, draws: seq<nat>)
    requires rs != []
    ensures Wins(rs, draws, Winner(rs, draws))
  {
    var j := FittestAt(rs, draws);
    if Fittest(rs, draws).Some? {
      assert WinsAt(rs, draws, j) && Drawn(rs, draws, j).valid;
    }
  }

  method TournamentSelect(rs: seq<EvalResult>, draws: seq<nat>) returns (config: Config)
    requires rs != []
    ensures config == Winner(rs, draws) && Wins(rs, draws, config)
  {
    WinnerWins(rs, draws);
    var best: Option<EvalResult> := None;
    var i := 0;
    while i < |draws|
      invariant 0 <= i <= |draws| && best == Fittest(rs, draws[..i])
    {
      assert draws[..i + 1][..i] == draws[..i];
      var candidate := rs[draws[i] % |rs|];
      if best.None? {
        if candidate.valid {
          best := Some(candidate);
        }
      } else if IsBetter(candidate, best.value) {
        best := Some(candidate);
      }
      i := i + 1;
    }
    assert draws[..i] == draws;
    config := if best.None? then [] else best.value.config;
  }

  /** The winner was drawn, and nothing drawn is faster. */
  lemma {:induction false} FittestWins(rs: seq<EvalResult>, draws: seq<nat>)
    requires rs != [] && AllValid(rs) && draws != []
    ensures var best := Fittest(rs, draws);
            && best.Some? && (exists j :: 0 <= j < |draws| && best.value == rs[draws[j] % |rs|])
            && forall j :: 0 <= j < |draws| ==> !IsBetter(rs[draws[j] % |rs|], best.value)
    decreases |draws|
  {
    var n := |draws| - 1;
    if n > 0 {
      FittestWins(rs, draws[..n]);
      forall j | 0 <= j < n ensures draws[..n][j] == draws[j] {
      }
    } else {
      assert draws[..n] == [];
    }
  }

  /** As long as the longer parent; decision i comes from the parent picked for it, or from the one long enough. */
  predicate Crosses(a: Config, b: Config, picks: nat -> bool, child: Config) {
    && (|child| == |a| || |child| == |b|) && |a| <= |child| && |b| <= |child|
    && forall i :: 0 <= i < |child| ==>
         if i < |a| && i < |b| then child[i] == (if picks(i) then a[i] else b[i])
         else if i < |a| then child[i] == a[i]
         else i < |b| && child[i] == b[i]
  }

  method Crossover(a: Config, b: Config, picks: nat -> bool) returns (child: Config)
    ensures Crosses(a, b, picks, child)
  {
    child := [];
    var n := Max(|a|, |b|);
    var i := 0;
    while i < n
      invariant 0 <= i <= n && |child| == i
      invariant forall j :: 0 <= j < i ==>
                  if j < |a| && j < |b| then child[j] == (if picks(j) then a[j] else b[j])
                  else if j < |a| then child[j] == a[j]
                  else child[j] == b[j]
    {
      if i < |a| && i < |b| {
        child := child + [if picks(i) then a[i] else b[i]];
      } else if i < |a| {
        child := child + [a[i]];
      } else {
        child := child + [b[i]];
      }
      i := i + 1;
    }
  }

  /** What the generator of random numbers says about one new member. */
  datatype Birth = Birth(crosses: bool, first: seq<nat>, second: seq<nat>, picks: nat -> bool, drawn: Config)

  /** A child of two winners, if there are at least two parents (half of the ranking); otherwise a random configuration. */
  ghost predicate Bears(ranked: seq<EvalResult>, b: Birth, child: Config)
    requires ranked != []
  {
    if b.crosses && |ranked| >= 4
    then exists x, y :: Wins(ranked, b.first, x) && Wins(ranked, b.second, y) && Crosses(x, y, b.picks, child)
    else child == b.drawn
  }

  method Breed(ranked: seq<EvalResult>, b: Birth) returns (child: Config)
    requires ranked != []
    ensures Bears(ranked, b, child)
  {
    if b.crosses && |ranked| / 2 >= 2 {
      var first := TournamentSelect(ranked, b.first);
      var second := TournamentSelect(ranked, b.second);
      child := Crossover(first, second, b.picks);
    } else {
      child := b.drawn;
    }
  }

  /** A member may be spared; else one of four actions, each with the random configuration it would draw on. */
  datatype Mutation =
    | Spared
    | Deleted(at: nat, drawn: Config)
    | Replaced(at: nat, drawn: Config)
    | Inserted(at: nat, drawn: Config)
    | Resampled(drawn: Config)

  /** What a mutation makes of a member. */
  predicate Mutates(ind: Config, m: Mutation, r: Config) {
    match m
    case Spared => r == ind
    case Deleted(at, drawn) => if ind == [] then r == drawn else Without(ind, at % |ind|, r)
    case Replaced(at, drawn) =>
      if ind == [] then r == drawn else if drawn == [] then r == ind else DiffersAt(ind, at % |ind|, drawn[0], r)
    case Inserted(at, drawn) =>
      if ind == [] then r == drawn else if drawn == [] then r == ind else HasMore(ind, at % (|ind| + 1), drawn[0], r)
    case Resampled(drawn) => r == drawn
  }

  /** One shorter: the others are there in order. */
  predicate Without(c: Config, k: nat, r: Config) {
    && |r| + 1 == |c|
    && (forall i :: 0 <= i < |r| && i < k ==> r[i] == c[i])
    && (forall i :: k <= i < |r| ==> r[i] == c[i + 1])
  }

  /** As long, and the same everywhere else. */
  predicate DiffersAt(c: Config, k: nat, d: Decision, r: Config) {
    |r| == |c| && k < |r| && r[k] == d && forall i :: 0 <= i < |r| && i != k ==> r[i] == c[i]
  }

  /** One longer: d stands at k, and without it the old one is left. */
  predicate HasMore(c: Config, k: nat, d: Decision, r: Config) {
    k < |r| && r[k] == d && Without(r, k, c)
  }

  method Mutate(ind: Config, m: Mutation) returns (r: Config)
    ensures Mutates(ind, m, r)
  {
    if m.Spared? {
      return ind;
    }
    if ind == [] {
      return m.drawn;
    }
    r := ind;
    match m
    case Deleted(at, _) =>
      var k := at % |ind|;
      r := ind[..k] + ind[k + 1..];
    case Replaced(at, drawn) =>
      if drawn != [] {
        r := ind[at % |ind| := drawn[0]];
      }
    case Inserted(at, drawn) =>
      if drawn != [] {
        var k := at % (|ind| + 1);
        r := ind[..k] + [drawn[0]] + ind[k..];
      }
    case Resampled(drawn) => r := drawn;
  }

  /** The choices the random generator makes in one generation. */
  datatype Choices = Choices(births: nat -> Birth, mutations: nat -> Mutation)

  /** Elites, then children up to the size; every member may be mutated. */
  method NextPopulation(ranked: seq<EvalResult>, size: int, elites: int, c: Choices) returns (pop: seq<Config>)
    requires elites >= 1 && ranked != []
    ensures IsNext(ranked, pop, c, size, elites)
  {
    pop := [];
    while |pop| < elites && |pop| < |ranked|
      invariant |pop| <= elites && |pop| <= |ranked|
      invariant forall i :: 0 <= i < |pop| ==> pop[i] == ranked[i].config
      decreases elites - |pop|
    {
      pop := pop + [ranked[|pop|].config];
    }
    ghost var taken := |pop|;
    while |pop| < size
      invariant taken <= |pop| <= Max(taken, size)
      invariant forall i :: 0 <= i < |pop| ==> Enters(ranked, taken, c, i, pop[i])
      decreases size - |pop|
    {
      var child := Breed(ranked, c.births(|pop|));
      pop := pop + [child];
    }
    ghost var made := pop;
    var i := 0;
    while i < |pop|
      invariant 0 <= i <= |pop| == |made|
      invariant forall j :: 0 <= j < |pop| ==> if j < i then Mutates(made[j], c.mutations(j), pop[j]) else pop[j] == made[j]
    {
      var mutant := Mutate(pop[i], c.mutations(i));
      pop := pop[i := mutant];
      i := i + 1;
    }
    assert AllMutated(made, pop, c);
  }

  function ValidResults(rs: seq<EvalResult>): (r: seq<EvalResult>)
    ensures AllValid(r)
  {
    if rs == [] then []
    else
      var most, last := ValidResults(rs[..|rs| - 1]), rs[|rs| - 1];
      if last.valid then most + [last] else most
  }

  function ResultsOf(pop: seq<Config>, evaluate: Config -> EvalResult): seq<EvalResult> {
    seq(|pop|, i requires 0 <= i < |pop| => evaluate(pop[i]))
  }

  predicate Sized(pops: seq<seq<Config>>, lo: int, hi: int) {
    forall i :: 0 <= i < |pops| ==> lo <= |pops[i]| <= hi
  }

  /** All valid results of these generations. */
  function AllResults(pops: seq<seq<Config>>, evaluate: Config -> EvalResult): (r: seq<EvalResult>)
    ensures AllValid(r)
  {
    if pops == [] then []
    else AllResults(pops[..|pops| - 1], evaluate) + ValidResults(ResultsOf(pops[|pops| - 1], evaluate))
  }

  function ValidMembers(all: seq<EvalResult>): set<nat> {
    set k: nat | k < |all| && all[k].valid
  }

  lemma {:induction false} ValidResultsSelect(all: seq<EvalResult>) returns (idx: seq<nat>)
    ensures Enumerates(idx, ValidMembers(all)) && |ValidResults(all)| == |idx|
    ensures forall i :: 0 <= i < |idx| ==> idx[i] < |all| && ValidResults(all)[i] == all[idx[i]]
    decreases |all|
  {
    if all == [] {
      idx := [];
    } else {
      var m := |all| - 1;
      var most := all[..m];
      idx := ValidResultsSelect(most);
      assert forall j: nat :: j < m ==> most[j] == all[j];
      if all[m].valid {
        assert ValidMembers(all) == ValidMembers(most) + {m};
        EnumeratesMore(idx, ValidMembers(most), m);
        idx := idx + [m];
      } else {
        assert ValidMembers(all) == ValidMembers(most);
      }
    }
  }

  /** The valid results of each generation stand there whole, behind those of the generations before. */
  lemma {:induction false} AllResultsInTurn(pops: seq<seq<Config>>, evaluate: Config -> EvalResult, g: nat)
    requires g < |pops|
    ensures var all, start := AllResults(pops, evaluate), |AllResults(pops[..g], evaluate)|;
            var rs := ValidResults(ResultsOf(pops[g], evaluate));
            start + |rs| <= |all| && all[start..start + |rs|] == rs
    decreases |pops|
  {
    var n := |pops| - 1;
    if g < n {
      AllResultsInTurn(pops[..n], evaluate, g);
      assert pops[..n][..g] == pops[..g];
    }
  }

  lemma AllMore(pops: seq<seq<Config>>, pop: seq<Config>, evaluate: Config -> EvalResult)
    ensures AllResults(pops + [pop], evaluate) == AllResults(pops, evaluate) + ValidResults(ResultsOf(pop, evaluate))
  {
    assert (pops + [pop])[..|pops|] == pops;
  }

  method EvaluatePopulation(pop: seq<Config>, evaluate: Config -> EvalResult) returns (rs: seq<EvalResult>)
    ensures rs == ValidResults(ResultsOf(pop, evaluate))
  {
    rs := [];
    ghost var all := ResultsOf(pop, evaluate);
    var i := 0;
    while i < |pop|
      invariant 0 <= i <= |pop| && rs == ValidResults(all[..i])
    {
      assert all[..i + 1][..i] == all[..i];
      var r := evaluate(pop[i]);
      if r.valid {
        rs := rs + [r];
      }
      i := i + 1;
    }
    assert all[..i] == all;
  }

  /** The population after `prev`: the same again if nothing in it was valid, else elites and children, mutated. */
  ghost predicate Follows(prev: seq<Config>, next: seq<Config>, evaluate: Config -> EvalResult, c: Choices, size: int, elites: int) {
    var rs := ValidResults(ResultsOf(prev, evaluate));
    if rs == [] then next == prev
    else exists ranked :: ranked != [] && Ranked(ranked) && multiset(ranked) == multiset(rs) && IsNext(ranked, next, c, size, elites)
  }

  /** Member i before mutation: an elite, as ranked, or a child. */
  ghost predicate Enters(ranked: seq<EvalResult>, elites: int, c: Choices, i: nat, member: Config)
    requires ranked != []
  {
    if i < elites && i < |ranked| then member == ranked[i].config else Bears(ranked, c.births(i), member)
  }

  ghost predicate AllMutated(made: seq<Config>, next: seq<Config>, c: Choices) {
    |made| == |next| && forall i :: 0 <= i < |next| ==> Mutates(made[i], c.mutations(i), next[i])
  }

  ghost predicate AllEnter(ranked: seq<EvalResult>, elites: int, c: Choices, made: seq<Config>)
    requires ranked != []
  {
    forall i :: 0 <= i < |made| ==> Enters(ranked, elites, c, i, made[i])
  }

  /** As many as the elites, or up to the size if that is more: elites and children, each one mutated. */
  ghost predicate IsNext(ranked: seq<EvalResult>, next: seq<Config>, c: Choices, size: int, elites: int)
    requires ranked != []
  {
    && |next| == Max(Limit(elites, |ranked|), size)
    && exists made :: AllEnter(ranked, elites, c, made) && AllMutated(made, next, c)
  }

  /** How many generations with valid results there have been since the best time was last beaten. */
  function GenerationsStale(pops: seq<seq<Config>>, evaluate: Config -> EvalResult): nat {
    if pops == [] then 0
    else
      var before, rs := pops[..|pops| - 1], ValidResults(ResultsOf(pops[|pops| - 1], evaluate));
      if rs == [] then GenerationsStale(before, evaluate)
      else if Beats(rs, AllResults(before, evaluate)) then 0
      else GenerationsStale(before, evaluate) + 1
  }

  /** Something in rs is faster than everything in all. */
  predicate Beats(rs: seq<EvalResult>, all: seq<EvalResult>) {
    exists i :: 0 <= i < |rs| && forall j :: 0 <= j < |all| ==> IsBetter(rs[i], all[j])
  }

  predicate Productive(pops: seq<seq<Config>>, evaluate: Config -> EvalResult, g: nat)
    requires g < |pops|
  {
    ValidResults(ResultsOf(pops[g], evaluate)) != []
  }

  /** Generation g beat everything before it. */
  predicate Improves(pops: seq<seq<Config>>, evaluate: Config -> EvalResult, g: nat)
    requires g < |pops|
  {
    Productive(pops, evaluate, g) && Beats(ValidResults(ResultsOf(pops[g], evaluate)), AllResults(pops[..g], evaluate))
  }

  function ProductiveFrom(pops: seq<seq<Config>>, evaluate: Config -> EvalResult, b: nat): set<nat> {
    set g: nat | b <= g < |pops| && Productive(pops, evaluate, g)
  }

  /** Counted are the generations with valid results from b on, where generation b - 1 was the last that improved. */
  lemma {:induction false} GenerationsStaleIs(pops: seq<seq<Config>>, evaluate: Config -> EvalResult) returns (b: nat)
    ensures b <= |pops| && (b > 0 ==> Improves(pops, evaluate, b - 1))
    ensures forall g :: b <= g < |pops| ==> !Improves(pops, evaluate, g)
    ensures GenerationsStale(pops, evaluate) == |ProductiveFrom(pops, evaluate, b)|
    decreases |pops|
  {
    if pops == [] {
      b := 0;
    } else {
      var n := |pops| - 1;
      var before := pops[..n];
      b := GenerationsStaleIs(before, evaluate);
      forall g | b <= g < n ensures !Improves(pops, evaluate, g) {
        ImprovesBefore(pops, evaluate, g);
      }
      if b > 0 {
        ImprovesBefore(pops, evaluate, b - 1);
      }
      OneMoreGeneration(pops, evaluate, b);
      if Improves(pops, evaluate, n) {
        b := |pops|;
        assert ProductiveFrom(pops, evaluate, b) == {};
      }
    }
  }

  /** Later generations do not matter. */
  lemma ImprovesBefore(pops: seq<seq<Config>>, evaluate: Config -> EvalResult, g: nat)
    requires g < |pops| - 1
    ensures var before := pops[..|pops| - 1];
            && (Productive(pops, evaluate, g) <==> Productive(before, evaluate, g))
            && (Improves(pops, evaluate, g) <==> Improves(before, evaluate, g))
  {
    assert pops[..|pops| - 1][..g] == pops[..g];
  }

  lemma OneMoreGeneration(pops: seq<seq<Config>>, evaluate: Config -> EvalResult, b: nat)
    requires pops != [] && b <= |pops| - 1
    ensures var n := |pops| - 1;
            |ProductiveFrom(pops, evaluate, b)|
            == |ProductiveFrom(pops[..n], evaluate, b)| + if Productive(pops, evaluate, n) then 1 else 0
  {
    var n := |pops| - 1;
    var was, now := ProductiveFrom(pops[..n], evaluate, b), ProductiveFrom(pops, evaluate, b);
    forall g ensures g in now <==> g in was || (g == n && Productive(pops, evaluate, n)) {
      if 0 <= g < n {
        ImprovesBefore(pops, evaluate, g);
      }
    }
    assert now == if Productive(pops, evaluate, n) then was + {n} else was;
  }

  ghost predicate IsBestOf(best: Option<EvalResult>, all: seq<EvalResult>) {
    if all == [] then best.None?
    else best.Some? && best.value in all && forall j :: 0 <= j < |all| ==> !IsBetter(all[j], best.value)
  }

  lemma BestBeaten(ranked: seq<EvalResult>, rs: seq<EvalResult>, best: Option<EvalResult>, all: seq<EvalResult>)
    requires Ranked(ranked) && multiset(ranked) == multiset(rs) && ranked != [] && AllValid(rs) && AllValid(all)
    requires IsBestOf(best, all)
    ensures var improves := best.None? || IsBetter(ranked[0], best.value);
            && (improves <==> Beats(rs, all))
            && IsBestOf(if improves then Some(ranked[0]) else best, all + rs)
  {
    var head := ranked[0];
    assert head in multiset(ranked) && head in rs;
    var h :| 0 <= h < |rs| && rs[h] == head;
    forall i | 0 <= i < |rs| ensures !IsBetter(rs[i], head) {
      assert rs[i] in multiset(rs) && rs[i] in ranked;
      var j :| 0 <= j < |ranked| && ranked[j] == rs[i];
      assert j == 0 || !IsBetter(ranked[j], ranked[0]);
    }
    if best.None? || IsBetter(head, best.value) {
      assert forall j :: 0 <= j < |all| ==> IsBetter(rs[h], all[j]);
      assert (all + rs)[|all| + h] == head;
    } else {
      var b :| 0 <= b < |all| && all[b] == best.value;
      assert forall i :: 0 <= i < |rs| ==> !IsBetter(rs[i], all[b]);
      assert (all + rs)[b] == best.value;
    }
  }

  /** The run: each generation follows from the one before; it ends with the choices, or when it has gone stale. */
  ghost predicate IsEvolution(pops: seq<seq<Config>>, first: Config, evaluate: Config -> EvalResult, choices: seq<Choices>,
                              size: int, elites: int) {
    && |pops| <= |choices|
    && (pops != [] ==> |pops[0]| == Max(1, size) && pops[0][0] == first)
    && forall i {:trigger pops[i + 1]} :: 0 <= i < |pops| - 1 ==> Follows(pops[i], pops[i + 1], evaluate, choices[i], size, elites)
  }

  lemma EvolvesOn(pops: seq<seq<Config>>, pop: seq<Config>, first: Config, evaluate: Config -> EvalResult,
                  choices: seq<Choices>, size: int, elites: int)
    requires IsEvolution(pops, first, evaluate, choices, size, elites) && |pops| < |choices|
    requires if pops == [] then |pop| == Max(1, size) && pop[0] == first
             else Follows(pops[|pops| - 1], pop, evaluate, choices[|pops| - 1], size, elites)
    ensures IsEvolution(pops + [pop], first, evaluate, choices, size, elites)
  {
    var more := pops + [pop];
    forall i | 0 <= i < |more| - 1 ensures Follows(more[i], more[i + 1], evaluate, choices[i], size, elites) {
      if i < |pops| - 1 {
        assert more[i + 1] == pops[i + 1];
      }
    }
  }

  /** One generation: its results, whether they beat the best so far, and the next population. */
  method Generation(pop: seq<Config>, best: Option<EvalResult>, ghost all: seq<EvalResult>, evaluate: Config -> EvalResult,
                    c: Choices, size: int, elites: int)
    returns (results: seq<EvalResult>, improved: bool, best1: Option<EvalResult>, next: seq<Config>)
    requires elites >= 1 && AllValid(all) && IsBestOf(best, all) && Max(1, size) <= |pop| <= Max(elites, size)
    ensures results == ValidResults(ResultsOf(pop, evaluate))
    ensures IsBestOf(best1, all + results) && (improved <==> results != [] && Beats(results, all))
    ensures Follows(pop, next, evaluate, c, size, elites) && Max(1, size) <= |next| <= Max(elites, size)
  {
    results := EvaluatePopulation(pop, evaluate);
    if results == [] {
      assert all + results == all;
      return results, false, best, pop;
    }
    var ranked := SortResults(results);
    BestBeaten(ranked, results, best, all);
    improved := best.None? || IsBetter(ranked[0], best.value);
    best1 := if improved then Some(ranked[0]) else best;
    next := NextPopulation(ranked, size, elites, c);
    assert IsNext(ranked, next, c, size, elites);
  }

  /** The population to come: the first one, or what follows from the last. */
  ghost predicate NextUp(pops: seq<seq<Config>>, pop: seq<Config>, first: Config, evaluate: Config -> EvalResult,
                         choices: seq<Choices>, size: int, elites: int)
    requires |pops| <= |choices|
  {
    if pops == [] then |pop| == Max(1, size) && pop[0] == first
    else Follows(pops[|pops| - 1], pop, evaluate, choices[|pops| - 1], size, elites)
  }

  /** Where the loop stands after these generations. */
  ghost predicate Evolving(pops: seq<seq<Config>>, pop: seq<Config>, all: seq<EvalResult>, best: Option<EvalResult>, stale: nat,
                           first: Config, evaluate: Config -> EvalResult, choices: seq<Choices>, size: int, elites: int)
  {
    && IsEvolution(pops, first, evaluate, choices, size, elites) && NextUp(pops, pop, first, evaluate, choices, size, elites)
    && all == AllResults(pops, evaluate) && IsBestOf(best, all) && stale == GenerationsStale(pops, evaluate)
    && Sized(pops, Max(1, size), Max(elites, size)) && Max(1, size) <= |pop| <= Max(elites, size)
  }

  lemma EvolvingNext(pops: seq<seq<Config>>, pop: seq<Config>, all: seq<EvalResult>, best: Option<EvalResult>, stale: nat,
                     first: Config, evaluate: Config -> EvalResult, choices: seq<Choices>, size: int, elites: int,
                     results: seq<EvalResult>, improved: bool, best1: Option<EvalResult>, next: seq<Config>)
    requires Evolving(pops, pop, all, best, stale, first, evaluate, choices, size, elites) && |pops| < |choices|
    requires results == ValidResults(ResultsOf(pop, evaluate))
    requires IsBestOf(best1, all + results) && (improved <==> results != [] && Beats(results, all))
    requires Follows(pop, next, evaluate, choices[|pops|], size, elites) && Max(1, size) <= |next| <= Max(elites, size)
    ensures Evolving(pops + [pop], next, all + results, best1, if results == [] then stale else if improved then 0 else stale + 1,
                     first, evaluate, choices, size, elites)
  {
    EvolvesOn(pops, pop, first, evaluate, choices, size, elites);
    StaleMore(pops, pop, evaluate);
    AllMore(pops, pop, evaluate);
    SizedMore(pops, pop, Max(1, size), Max(elites, size));
    assert (pops + [pop])[|pops|] == pop;
  }

  method Generations(first: Config, sample: nat -> Config, evaluate: Config -> EvalResult, choices: seq<Choices>,
                     size: int, elites: int, topK: int, patience: int)
    returns (top: seq<EvalResult>, ghost pops: seq<seq<Config>>)
    requires elites >= 1
    ensures IsEvolution(pops, first, evaluate, choices, size, elites)
    ensures |pops| < |choices| ==> GenerationsStale(pops, evaluate) >= TruncDiv(patience, 10)
    ensures IsTop(top, AllResults(pops, evaluate), topK)
    ensures Sized(pops, Max(1, size), Max(elites, size))
    ensures pops != [] ==> IsInitial(pops[0], first, sample, size)
  {
    var pop := InitPopulation(first, sample, size);
    var all: seq<EvalResult> := [];
    var best: Option<EvalResult> := None;
    var stale := 0;
    var limit := TruncDiv(patience, 10);
    pops := [];
    var gen := 0;
    while gen < |choices|
      invariant 0 <= gen <= |choices| && |pops| == gen
      invariant Evolving(pops, pop, all, best, stale, first, evaluate, choices, size, elites)
      invariant IsInitial(if pops == [] then pop else pops[0], first, sample, size)
    {
      var results, improved, best1, next := Generation(pop, best, all, evaluate, choices[gen], size, elites);
      EvolvingNext(pops, pop, all, best, stale, first, evaluate, choices, size, elites, results, improved, best1, next);
      pops := pops + [pop];
      pop, all, best, gen := next, all + results, best1, gen + 1;
      if results != [] {
        stale := if improved then 0 else stale + 1;
        if stale >= limit {
          break;
        }
      }
    }
    top := TopOf(all, topK);
  }

  lemma MemberIsBeaten(top: seq<EvalResult>, pops: seq<seq<Config>>, evaluate: Config -> EvalResult, k: int, g: nat, i: nat)
    requires IsTop(top, AllResults(pops, evaluate), k) && k != 0
    requires g < |pops| && i < |pops[g]| && evaluate(pops[g][i]).valid
    ensures top != [] && !IsBetter(evaluate(pops[g][i]), top[0])
  {
    var all, mine := AllResults(pops, evaluate), ResultsOf(pops[g], evaluate);
    var r := mine[i];
    ResultIsValid(mine, i);
    AllResultsInTurn(pops, evaluate, g);
    var start := |AllResults(pops[..g], evaluate)|;
    assert r in all[start..start + |ValidResults(mine)|];
    HeadUnbeaten(top, all, k, r);
  }

  lemma SizedMore(pops: seq<seq<Config>>, pop: seq<Config>, lo: int, hi: int)
    requires Sized(pops, lo, hi) && lo <= |pop| <= hi
    ensures Sized(pops + [pop], lo, hi)
  {
  }

  lemma StaleMore(pops: seq<seq<Config>>, pop: seq<Config>, evaluate: Config -> EvalResult)
    ensures GenerationsStale(pops + [pop], evaluate) ==
              var rs := ValidResults(ResultsOf(pop, evaluate));
              if rs == [] then GenerationsStale(pops, evaluate)
              else if Beats(rs, AllResults(pops, evaluate)) then 0
              else GenerationsStale(pops, evaluate) + 1
  {
    assert (pops + [pop])[..|pops|] == pops;
  }

  /**
   * The search returns the top k of everything it measured, and every generation has as many members as the first,
   * unless there are more elites than that. A negative size, cast to a size to reserve, throws.
   */
  method EvolutionarySearch(first: Config, sample: nat -> Config, evaluate: Config -> EvalResult, choices: seq<Choices>,
                            size: int, ratio: real, topK: int, patience: int)
    returns (r: Option<seq<EvalResult>>, ghost pops: seq<seq<Config>>)
    ensures r.None? <==> size < 0
    ensures r.Some? ==> IsEvolution(pops, first, evaluate, choices, size, EliteCount(ratio, size))
    ensures r.Some? && |pops| < |choices| ==> GenerationsStale(pops, evaluate) >= TruncDiv(patience, 10)
    ensures r.Some? ==> IsTop(r.value, AllResults(pops, evaluate), topK)
    ensures r.Some? ==> Sized(pops, Max(1, size), Max(EliteCount(ratio, size), size))
    ensures size >= EliteCount(ratio, size) ==> Sized(pops, size, size)
    ensures pops != [] ==> IsInitial(pops[0], first, sample, size)
    ensures r.Some? && topK >= 0 ==> |r.value| <= topK
    ensures r.Some? && (topK < 0 || |r.value| < topK) ==> |r.value| == |AllResults(pops, evaluate)|
    ensures r.Some? && topK != 0 ==> forall g, i :: 0 <= g < |pops| && 0 <= i < |pops[g]| && evaluate(pops[g][i]).valid ==>
              r.value != [] && r.value[0].valid && r.value[0].time <= evaluate(pops[g][i]).time
  {
    if size < 0 {
      return None, [];
    }
    var top;
    top, pops := Generations(first, sample, evaluate, choices, size, EliteCount(ratio, size), topK, patience);
    if topK != 0 {
      forall g, i | 0 <= g < |pops| && 0 <= i < |pops[g]| && evaluate(pops[g][i]).valid
        ensures top != [] && !IsBetter(evaluate(pops[g][i]), top[0])
      {
        MemberIsBeaten(top, pops, evaluate, topK, g, i);
      }
    }
    r := Some(top);
  }

  // ----- the best is kept -----

  /** b is no worse than a: if a has a time, so has b, and a time as early. */
  predicate NoLoss(a: EvalResult, b: EvalResult) {
    a.valid ==> b.valid && b.time <= a.time
  }

  /** A first member that mutation spares is the best of the generation before: nothing was better. */
  lemma BestIsFirst(prev: seq<Config>, next: seq<Config>, evaluate: Config -> EvalResult, c: Choices, size: int, elites: int,
                    j: nat)
    requires Follows(prev, next, evaluate, c, size, elites) && elites >= 1 && c.mutations(0).Spared? && j < |prev|
    requires forall x {:trigger evaluate(x)} :: evaluate(x).config == x
    ensures next != [] && NoLoss(evaluate(prev[j]), evaluate(next[0]))
  {
    var all := ResultsOf(prev, evaluate);
    var rs := ValidResults(all);
    if rs == [] {
      assert all[j] == evaluate(prev[j]);
      InvalidAll(all, j);
    } else {
      var ranked :| ranked != [] && Ranked(ranked) && multiset(ranked) == multiset(rs) && IsNext(ranked, next, c, size, elites);
      var made :| AllEnter(ranked, elites, c, made) && AllMutated(made, next, c);
      assert Enters(ranked, elites, c, 0, made[0]) && Mutates(made[0], c.mutations(0), next[0]);
      assert ranked[0] in multiset(ranked) && ranked[0] in multiset(rs);
      ValidIsResult(all, ranked[0]);
      assert evaluate(next[0]) == ranked[0];
      if all[j].valid {
        ResultIsValid(all, j);
        assert all[j] in multiset(rs) && all[j] in ranked;
        var k :| 0 <= k < |ranked| && ranked[k] == all[j];
        assert k == 0 || !IsBetter(ranked[k], ranked[0]);
      }
    }
  }

  lemma {:induction false} ResultIsValid(all: seq<EvalResult>, j: nat)
    requires j < |all| && all[j].valid
    ensures all[j] in ValidResults(all)
    decreases |all|
  {
    if j < |all| - 1 {
      ResultIsValid(all[..|all| - 1], j);
    }
  }

  lemma InvalidAll(all: seq<EvalResult>, j: nat)
    requires ValidResults(all) == [] && j < |all|
    ensures !all[j].valid
  {
    if all[j].valid {
      ResultIsValid(all, j);
    }
  }

  /** Over a run: as long as the first member is spared, the best time of a generation is never lost again. */
  lemma {:induction false} BestIsKept(pops: seq<seq<Config>>, first: Config, evaluate: Config -> EvalResult,
                                      choices: seq<Choices>, size: int, elites: int, i: nat, n: nat, j: nat)
    requires IsEvolution(pops, first, evaluate, choices, size, elites) && elites >= 1 && i < n < |pops| && j < |pops[i]|
    requires forall g :: i <= g < n ==> choices[g].mutations(0).Spared?
    requires forall x {:trigger evaluate(x)} :: evaluate(x).config == x
    ensures pops[n] != [] && NoLoss(evaluate(pops[i][j]), evaluate(pops[n][0]))
    decreases n
  {
    var m := n - 1;
    assert Follows(pops[m], pops[m + 1], evaluate, choices[m], size, elites);
    if i == m {
      BestIsFirst(pops[m], pops[n], evaluate, choices[m], size, elites, j);
    } else {
      BestIsKept(pops, first, evaluate, choices, size, elites, i, m, j);
      BestIsFirst(pops[m], pops[n], evaluate, choices[m], size, elites, 0);
    }
  }

  // ----- where decisions come from -----

  predicate Made(c: Config, genes: set<Decision>) {
    forall i :: 0 <= i < |c| ==> c[i] in genes
  }

  predicate AllMade(pop: seq<Config>, genes: set<Decision>) {
    forall i :: 0 <= i < |pop| ==> Made(pop[i], genes)
  }

  /** The random configurations drawn in a generation. */
  ghost predicate FreshMade(c: Choices, genes: set<Decision>) {
    forall i: nat ::
      Made(c.births(i).drawn, genes) && (!c.mutations(i).Spared? ==> Made(c.mutations(i).drawn, genes))
  }

  lemma WinnerMade(ranked: seq<EvalResult>, draws: seq<nat>, x: Config, genes: set<Decision>)
    requires ranked != [] && Wins(ranked, draws, x) && forall r :: r in ranked ==> Made(r.config, genes)
    ensures Made(x, genes)
  {
    if exists j: nat :: j < |draws| && Drawn(ranked, draws, j).valid {
      var j: nat :| WinsAt(ranked, draws, j) && x == Drawn(ranked, draws, j).config;
      assert Drawn(ranked, draws, j) in ranked;
    }
  }

  lemma BearsMade(ranked: seq<EvalResult>, b: Birth, child: Config, genes: set<Decision>)
    requires ranked != [] && Bears(ranked, b, child) && Made(b.drawn, genes)
    requires forall r :: r in ranked ==> Made(r.config, genes)
    ensures Made(child, genes)
  {
    if b.crosses && |ranked| >= 4 {
      var x, y :| Wins(ranked, b.first, x) && Wins(ranked, b.second, y) && Crosses(x, y, b.picks, child);
      WinnerMade(ranked, b.first, x, genes);
      WinnerMade(ranked, b.second, y, genes);
    }
  }

  lemma MutatesMade(ind: Config, m: Mutation, r: Config, genes: set<Decision>)
    requires Made(ind, genes) && Mutates(ind, m, r) && (!m.Spared? ==> Made(m.drawn, genes))
    ensures Made(r, genes)
  {
    if !m.Spared? && ind != [] && !m.Resampled? && (m.Deleted? || m.drawn != []) {
      match m
      case Deleted(at, _) => WithoutMade(ind, at % |ind|, r, genes);
      case Replaced(at, drawn) => assert drawn[0] in genes;
      case Inserted(at, drawn) => HasMoreMade(ind, at % (|ind| + 1), drawn[0], r, genes);
    }
  }

  lemma WithoutMade(c: Config, k: nat, r: Config, genes: set<Decision>)
    requires Without(c, k, r) && Made(c, genes)
    ensures Made(r, genes)
  {
    forall i | 0 <= i < |r| ensures r[i] in genes {
      assert i < k ==> r[i] == c[i];
    }
  }

  lemma HasMoreMade(c: Config, k: nat, d: Decision, r: Config, genes: set<Decision>)
    requires HasMore(c, k, d, r) && d in genes && Made(c, genes)
    ensures Made(r, genes)
  {
    forall i | 0 <= i < |r| ensures r[i] in genes {
      if i < k {
        assert c[i] == r[i];
      } else if i > k {
        assert c[i - 1] == r[i];
      }
    }
  }

  lemma {:induction false} ValidIsResult(rs: seq<EvalResult>, r: EvalResult)
    requires r in ValidResults(rs)
    ensures r in rs
    decreases |rs|
  {
    if r in ValidResults(rs[..|rs| - 1]) {
      ValidIsResult(rs[..|rs| - 1], r);
    }
  }

  lemma FollowsMade(prev: seq<Config>, next: seq<Config>, evaluate: Config -> EvalResult, c: Choices, size: int, elites: int,
                    genes: set<Decision>)
    requires Follows(prev, next, evaluate, c, size, elites) && AllMade(prev, genes) && FreshMade(c, genes)
    requires forall x {:trigger evaluate(x)} :: evaluate(x).config == x
    ensures AllMade(next, genes)
  {
    var rs := ValidResults(ResultsOf(prev, evaluate));
    if rs != [] {
      var ranked :| ranked != [] && Ranked(ranked) && multiset(ranked) == multiset(rs) && IsNext(ranked, next, c, size, elites);
      forall r | r in ranked ensures Made(r.config, genes) {
        assert r in multiset(ranked) && r in multiset(rs);
        ValidIsResult(ResultsOf(prev, evaluate), r);
        var i :| 0 <= i < |prev| && r == ResultsOf(prev, evaluate)[i];
        assert r == evaluate(prev[i]);
      }
      var made :| AllEnter(ranked, elites, c, made) && AllMutated(made, next, c);
      forall i | 0 <= i < |next| ensures Made(next[i], genes) {
        if i < elites && i < |ranked| {
          assert ranked[i] in ranked;
        } else {
          BearsMade(ranked, c.births(i), made[i], genes);
        }
        MutatesMade(made[i], c.mutations(i), next[i], genes);
      }
    }
  }

  /**
   * No run of the search invents a decision: each one, in every generation, stood in the first population or in a random
   * configuration drawn since.
   */
  lemma {:induction false} DecisionsAreDrawn(pops: seq<seq<Config>>, first: Config, evaluate: Config -> EvalResult,
                                             choices: seq<Choices>, size: int, elites: int, genes: set<Decision>, n: nat)
    requires IsEvolution(pops, first, evaluate, choices, size, elites) && n < |pops|
    requires AllMade(pops[0], genes) && forall i :: 0 <= i < n ==> FreshMade(choices[i], genes)
    requires forall x {:trigger evaluate(x)} :: evaluate(x).config == x
    ensures AllMade(pops[n], genes)
    decreases n
  {
    if n > 0 {
      var i := n - 1;
      DecisionsAreDrawn(pops, first, evaluate, choices, size, elites, genes, i);
      var next := pops[i + 1];
      FollowsMade(pops[i], next, evaluate, choices[i], size, elites, genes);
    }
  }

  method TopOf(all: seq<EvalResult>, topK: int) returns (top: seq<EvalResult>)
    requires AllValid(all)
    ensures IsTop(top, all, topK)
  {
    var ranked := SortResults(all);
    CutIsTop(ranked, all, topK);
    top := if topK >= 0 && |ranked| > topK then ranked[..topK] else ranked;
    assert top == ranked[..Limit(topK, |all|)];
  }
}
