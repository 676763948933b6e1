/** The evaluator that looks in the cache first, and the search that fills the cache: measurements are never confused. */
module CachingEvaluator {
  import opened Values
  import C = ScheduleCache
  import opened ConfigSignature
  import opened CacheRuns

  type Config = seq<Decision>

  datatype EvalResult = EvalResult(config: Config, time: real, valid: bool)

  /** A deterministic evaluator. */
  type Base = Config -> EvalResult

  predicate PlainConfig(c: Config) {
    forall i :: 0 <= i < |c| ==> Plain(c[i])
  }

  /** The entry is worth what the base evaluator says of c. */
  predicate Agrees(e: C.Entry, base: Base, c: Config) {
    e.time == base(c).time && e.valid == base(c).valid
  }

  /** What the cache may say of `op`: an entry with a positive time agrees with the base about every such configuration. */
  ghost predicate Faithful(t: C.Table, op: string, base: Base) {
    forall s, c {:trigger C.Has(t, s), Signature(c)} ::
      C.Has(t, s) && s.op == op && C.At(t, s).time > 0.0 && PlainConfig(c) && Signature(c) == s.config ==>
        Agrees(C.At(t, s), base, c)
  }

  /** An entry that may be stored: of another operator, without a time, or measured. */
  ghost predicate Honest(e: C.Entry, op: string, base: Base) {
    e.op == op && e.time > 0.0 ==> exists c :: PlainConfig(c) && Signature(c) == e.config && Agrees(e, base, c)
  }

  /** Storing an honest entry and evicting others keeps the cache faithful: a signature belongs to one configuration. */
  lemma HonestKeepsFaithful(t: C.Table, e: C.Entry, clock: nat -> int, limit: nat, u: C.Table, op: string, base: Base)
    requires Faithful(t, op, base) && Honest(e, op, base) && C.Evicts(C.Put(t, e), clock, limit, u)
    ensures Faithful(u, op, base)
  {
    C.PutSlots(t, e);
    forall s, c | C.Has(u, s) && s.op == op && C.At(u, s).time > 0.0 && PlainConfig(c) && Signature(c) == s.config
      ensures Agrees(C.At(u, s), base, c)
    {
      var p := C.Put(t, e);
      assert C.Has(p, s) && C.At(u, s) == C.At(p, s);
      if s == C.Slot(e.op, e.config) {
        var d :| PlainConfig(d) && Signature(d) == e.config && Agrees(e, base, d);
        SignatureUnique(c, d);
      } else {
        assert s in C.Slots(p);
        assert s in C.Slots(t) && C.Has(t, s);
      }
    }
  }

  lemma EmptyIsFaithful(op: string, base: Base)
    ensures Faithful(map[], op, base)
  {
  }

  /** The clock that eviction reads after result i is stored. */
  function Reading(clock: (nat, nat) -> int, i: nat): nat -> int {
    (m: nat) => clock(i, m)
  }

  /** A valid result is stored, with its own time, and may evict others; another one changes nothing. */
  ghost predicate Stores(t: C.Table, r: EvalResult, op: string, stamp: int, clock: nat -> int, limit: nat, u: C.Table) {
    if r.valid then C.Evicts(C.Put(t, C.Entry(Signature(r.config), op, r.time, true, 0, stamp)), clock, limit, u) else u == t
  }

  /** ts[i] is the cache before result i, ts[n] the one after the first n. */
  ghost predicate Recorded(ts: seq<C.Table>, n: nat, results: seq<EvalResult>, op: string, stamps: seq<int>,
                           clock: (nat, nat) -> int, limit: nat)
    requires |stamps| == |results| >= n
  {
    && |ts| == n + 1
    && forall i {:trigger results[i]} :: 0 <= i < n ==>
         Stores(ts[i], results[i], op, stamps[i], Reading(clock, i), limit, ts[i + 1])
  }

  class CachingEvaluator {
    const base: Base
    const cache: C.ScheduleCache
    const opSig: string
    var cacheHits: nat

    constructor (base: Base, cache: C.ScheduleCache, opSig: string)
      ensures this.base == base && this.cache == cache && this.opSig == opSig && cacheHits == 0
      ensures cache.cache == map[] ==> Faithful(cache.cache, opSig, base)
    {
      this.base, this.cache, this.opSig, cacheHits := base, cache, opSig, 0;
      EmptyIsFaithful(opSig, base);
    }

    /** Transparent: the time and the validity are those the base evaluator gives. */
    method Evaluate(config: Config) returns (r: EvalResult)
      requires Faithful(cache.cache, opSig, base) && base(config).config == config
      modifies cache`hits, cache`misses, this`cacheHits
      ensures PlainConfig(config) ==> r.config == config && r.time == base(config).time && r.valid == base(config).valid
      ensures !Known(config) ==> r == base(config)
      ensures Known(config) ==> r == Remembered(config)
      ensures cacheHits == old(cacheHits) + if Known(config) then 1 else 0
    {
      var sig := WriteSignature(config);
      var entry := cache.Find(opSig, sig);
      if entry.Some? && entry.value.time > 0.0 {
        r := EvalResult(config, entry.value.time, entry.value.valid);
        cacheHits := cacheHits + 1;
        return;
      }
      r := base(config);
    }

    /** The cache has a time for this signature. */
    predicate Known(config: Config)
      reads this, cache
    {
      var s := C.Slot(opSig, Signature(config));
      C.Has(cache.cache, s) && C.At(cache.cache, s).time > 0.0
    }

    /** The answer of the cache. */
    function Remembered(config: Config): EvalResult
      requires Known(config)
      reads this, cache
    {
      var e := C.At(cache.cache, C.Slot(opSig, Signature(config)));
      EvalResult(config, e.time, e.valid)
    }

    /** After a search: every valid result goes into the cache, in order. */
    method Record(results: seq<EvalResult>, stamps: seq<int>, clock: (nat, nat) -> int) returns (ghost ts: seq<C.Table>)
      requires |stamps| == |results| && Faithful(cache.cache, opSig, base)
      requires forall i :: 0 <= i < |results| ==> PlainConfig(results[i].config) && results[i] == base(results[i].config)
      modifies cache`cache
      ensures Faithful(cache.cache, opSig, base)
      ensures Recorded(ts, |results|, results, opSig, stamps, clock, cache.maxSize)
      ensures ts[0] == old(cache.cache) && ts[|results|] == cache.cache
    {
      ts := [cache.cache];
      var i := 0;
      while i < |results|
        invariant 0 <= i <= |results| && Faithful(cache.cache, opSig, base)
        invariant Recorded(ts, i, results, opSig, stamps, clock, cache.maxSize)
        invariant ts[0] == old(cache.cache) && ts[i] == cache.cache
      {
        RecordOne(results[i], stamps[i], Reading(clock, i));
        ts := ts + [cache.cache];
        i := i + 1;
      }
    }

    method RecordOne(r: EvalResult, stamp: int, clock: nat -> int)
      requires Faithful(cache.cache, opSig, base) && PlainConfig(r.config) && r == base(r.config)
      modifies cache`cache
      ensures Faithful(cache.cache, opSig, base)
      ensures Stores(old(cache.cache), r, opSig, stamp, clock, cache.maxSize, cache.cache)
    {
      if r.valid {
        var sig := WriteSignature(r.config);
        var e := C.Entry(sig, opSig, r.time, true, 0, stamp);
        ghost var t := cache.cache;
        assert Agrees(e, base, r.config);
        cache.Insert(e, clock);
        HonestKeepsFaithful(t, e, clock, cache.maxSize, cache.cache, opSig, base);
      }
    }

    /** The placeholder for a configuration that has not been measured. */
    method WarmUp(config: Config, stamp: int, clock: nat -> int)
      requires Faithful(cache.cache, opSig, base)
      modifies cache
      ensures Faithful(cache.cache, opSig, base)
      ensures var s := C.Slot(opSig, Signature(config));
              if C.Has(old(cache.cache), s) then cache.cache == old(cache.cache)
              else C.Evicts(C.Put(old(cache.cache), Placeholder(opSig, s.config, stamp)), clock, cache.maxSize, cache.cache)
      ensures cache.maxSize == old(cache.maxSize)
    {
      var sig := WriteSignature(config);
      var found := cache.Find(opSig, sig);
      if found.None? {
        ghost var t := cache.cache;
        var e := Placeholder(opSig, sig, stamp);
        cache.Insert(e, clock);
        HonestKeepsFaithful(t, e, clock, cache.maxSize, cache.cache, opSig, base);
      }
    }
  }

  /** With a comma in a string parameter the answer can be another configuration's: one measurement serves two. */
  lemma CommaConfuses(c: Config, i: nat, j: nat, k: nat, op: string) returns (other: Config, base: Base, e: C.Entry)
    requires i < |c| && j < |c[i].strs| && k < |c[i].strs[j]| && c[i].strs[j][k] == ','
    ensures e.time > 0.0 && e.op == op && e.config == Signature(other) && Agrees(e, base, other)
    ensures Signature(c) == e.config && !Agrees(e, base, c)
  {
    other := CommaCollides(c, i, j, k);
    base := x => EvalResult(x, if x == c then 1.0 else 2.0, true);
    e := C.Entry(Signature(other), op, 2.0, true, 0, 0);
  }
}
