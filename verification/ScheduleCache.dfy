/** The bounded cache of measured schedules: two levels of maps, and eviction of the oldest entries. */
module ScheduleCache {
  import opened Values

  datatype Entry = Entry(config: string, op: string, time: real, valid: bool, hits: nat, stamp: int)

  /** Operator signature to configuration signature to entry. */
  type Table = map<string, map<string, Entry>>

  datatype Slot = Slot(op: string, config: string)

  function Slots(t: Table): set<Slot> {
    set op, config | op in t && config in t[op] :: Slot(op, config)
  }

  predicate Has(t: Table, s: Slot) {
    s.op in t && s.config in t[s.op]
  }

  function At(t: Table, s: Slot): Entry
    requires Has(t, s)
  {
    t[s.op][s.config]
  }

  predicate NoEmptyInner(t: Table) {
    forall op :: op in t ==> t[op] != map[]
  }

  /** Creates the inner map when it is missing. */
  function Put(t: Table, e: Entry): Table {
    t[e.op := (if e.op in t then t[e.op] else map[])[e.config := e]]
  }

  function PutAll(t: Table, es: seq<Entry>): Table {
    if es == [] then t else Put(PutAll(t, es[..|es| - 1]), es[|es| - 1])
  }

  /** An inner map that becomes empty goes too. */
  function Remove(t: Table, s: Slot): Table
    requires Has(t, s)
  {
    var inner := t[s.op] - {s.config};
    if inner == map[] then t - {s.op} else t[s.op := inner]
  }

  lemma PutSlots(t: Table, e: Entry)
    ensures Slots(Put(t, e)) == Slots(t) + {Slot(e.op, e.config)}
    ensures forall s :: Has(Put(t, e), s) ==>
              At(Put(t, e), s) == if s == Slot(e.op, e.config) then e else if Has(t, s) then At(t, s) else e
    ensures NoEmptyInner(t) ==> NoEmptyInner(Put(t, e))
  {
    var u := Put(t, e);
    forall s: Slot ensures s in Slots(u) <==> s in Slots(t) || s == Slot(e.op, e.config) {
      assert s in Slots(u) <==> Has(u, s);
      assert s in Slots(t) <==> Has(t, s);
    }
    assert e.config in u[e.op];
  }

  lemma RemoveSlots(t: Table, s: Slot)
    requires Has(t, s)
    ensures Slots(Remove(t, s)) == Slots(t) - {s} && |Slots(Remove(t, s))| == |Slots(t)| - 1
    ensures forall r :: Has(Remove(t, s), r) ==> Has(t, r) && At(Remove(t, s), r) == At(t, r)
    ensures NoEmptyInner(t) ==> NoEmptyInner(Remove(t, s))
  {
    var u := Remove(t, s);
    var inner := t[s.op] - {s.config};
    forall r: Slot ensures r in Slots(u) <==> r in Slots(t) && r != s {
      assert r in Slots(u) <==> Has(u, r);
      assert r in Slots(t) <==> Has(t, r);
      if inner == map[] && r.op == s.op && r.config in t[s.op] {
        assert r.config in inner || r.config == s.config;
      }
    }
  }

  // ----- what eviction does -----

  ghost predicate Oldest(t: Table, s: Slot) {
    Has(t, s) && forall r :: Has(t, r) ==> At(t, s).stamp <= At(t, r).stamp
  }

  /** The search for a victim comes back empty-handed: nothing is older than the clock, or the operator found is "". */
  ghost predicate Stuck(t: Table, now: int) {
    || (forall s :: Has(t, s) ==> At(t, s).stamp >= now)
    || exists s :: Oldest(t, s) && s.op == ""
  }

  function Older(t: Table, now: int): set<Slot> {
    set s | s in Slots(t) && At(t, s).stamp < now
  }

  /**
   * `u` is what eviction may leave of `t`: it drops the oldest entries, one a turn, and reads the clock on every
   * turn. On turn m more than m entries of `t` are older than the clock, or it would have stopped.
   */
  ghost predicate Evicts(t: Table, clock: nat -> int, limit: nat, u: Table) {
    && Evicting(t, clock, u)
    && if |Slots(t)| <= limit then u == t
       else |Slots(u)| == limit || (|Slots(u)| > limit && Stuck(u, clock(|Slots(t)| - |Slots(u)|)))
  }

  /** The same while eviction is under way. */
  ghost predicate Evicting(t: Table, clock: nat -> int, u: Table) {
    && Keeps(t, u) && OldestGo(t, u) && |Slots(u)| <= |Slots(t)|
    && (NoEmptyInner(t) ==> NoEmptyInner(u))
    && forall m: nat {:trigger clock(m)} :: m < |Slots(t)| - |Slots(u)| ==> |Older(t, clock(m))| > m
  }

  ghost predicate Keeps(t: Table, u: Table) {
    forall s :: Has(u, s) ==> Has(t, s) && At(u, s) == At(t, s)
  }

  ghost predicate OldestGo(t: Table, u: Table) {
    forall s, r :: Has(t, s) && !Has(u, s) && Has(u, r) && Has(t, r) ==> At(t, s).stamp <= At(t, r).stamp
  }

  /** One entry of `op` with the best time, if it has a valid one. */
  ghost predicate IsBest(t: Table, op: string, r: Option<Entry>) {
    match r
    case None => forall s :: Has(t, s) && s.op == op ==> !At(t, s).valid
    case Some(e) =>
      && e.valid && (exists s :: Has(t, s) && s.op == op && At(t, s) == e)
      && forall s :: Has(t, s) && s.op == op && At(t, s).valid ==> e.time <= At(t, s).time
  }

  lemma {:induction false} Smaller<T>(a: set<T>, b: set<T>)
    requires a <= b
    ensures |a| <= |b|
    decreases |a|
  {
    if a != {} {
      var x :| x in a;
      Smaller(a - {x}, b - {x});
    }
  }

  lemma HasSlots(t: Table, s: Slot)
    ensures s in Slots(t) <==> Has(t, s)
  {
  }

  /** One more turn: the victim is the oldest entry left. */
  lemma OneMoreGone(t: Table, u: Table, s: Slot, clock: nat -> int)
    requires Evicting(t, clock, u) && Oldest(u, s) && At(u, s).stamp < clock(|Slots(t)| - |Slots(u)|)
    ensures Evicting(t, clock, Remove(u, s)) && |Slots(Remove(u, s))| == |Slots(u)| - 1
  {
    RemoveSlots(u, s);
    VictimIsOldest(t, u, s);
    GoneAreOlder(t, u, s, clock(|Slots(t)| - |Slots(u)|));
  }

  lemma VictimIsOldest(t: Table, u: Table, s: Slot)
    requires Keeps(t, u) && OldestGo(t, u) && Oldest(u, s)
    ensures Keeps(t, Remove(u, s)) && OldestGo(t, Remove(u, s))
  {
    RemoveSlots(u, s);
    Removed(u, s);
  }

  /** With those gone before, the victim is one of many entries older than the clock. */
  lemma GoneAreOlder(t: Table, u: Table, s: Slot, now: int)
    requires Keeps(t, u) && OldestGo(t, u) && Oldest(u, s) && At(u, s).stamp < now
    ensures |Older(t, now)| > |Slots(t)| - |Slots(u)|
  {
    forall r | r in Slots(u) ensures r in Slots(t) {
      assert Has(u, r);
    }
    var gone := Slots(t) - Slots(u);
    forall r | r in gone + {s} ensures r in Older(t, now) {
      HasSlots(t, r);
      HasSlots(u, r);
      HasSlots(t, s);
    }
    HasSlots(u, s);
    assert |gone + {s}| == |gone| + 1;
    assert Slots(t) == gone + Slots(u);
    Smaller(gone + {s}, Older(t, now));
  }

  class ScheduleCache {
    var cache: Table
    var maxSize: nat
    var hits: nat
    var misses: nat

    constructor (limit: nat)
      ensures cache == map[] && maxSize == limit && hits == 0 && misses == 0
    {
      cache, maxSize, hits, misses := map[], limit, 0, 0;
    }

    /** A hit is handed out with its counter one higher; the stored counter stays. */
    method Find(op: string, config: string) returns (r: Option<Entry>)
      modifies `hits, `misses
      ensures r == if Has(cache, Slot(op, config)) then Some(var e := At(cache, Slot(op, config)); e.(hits := e.hits + 1)) else None
      ensures hits == old(hits) + (if r.Some? then 1 else 0) && misses == old(misses) + (if r.Some? then 0 else 1)
    {
      if op !in cache || config !in cache[op] {
        misses := misses + 1;
        return None;
      }
      var out := cache[op][config];
      hits := hits + 1;
      return Some(out.(hits := out.hits + 1));
    }

    method Insert(e: Entry, clock: nat -> int)
      modifies `cache
      ensures Evicts(Put(old(cache), e), clock, maxSize, cache)
    {
      cache := Put(cache, e);
      EvictIfNeeded(clock);
    }

    method InsertBatch(op: string, results: seq<(string, real)>, stamps: seq<int>, clock: nat -> int)
      requires |stamps| == |results|
      modifies `cache
      ensures var es := seq(|results|, i requires 0 <= i < |results| =>
                                         Entry(results[i].0, op, results[i].1, true, 0, stamps[i]));
              Evicts(PutAll(old(cache), es), clock, maxSize, cache)
    {
      ghost var es := seq(|results|, i requires 0 <= i < |results| =>
                                       Entry(results[i].0, op, results[i].1, true, 0, stamps[i]));
      var i := 0;
      while i < |results|
        invariant 0 <= i <= |results| && cache == PutAll(old(cache), es[..i])
      {
        assert es[..i + 1][..i] == es[..i];
        cache := Put(cache, Entry(results[i].0, op, results[i].1, true, 0, stamps[i]));
        i := i + 1;
      }
      assert es[..i] == es;
      EvictIfNeeded(clock);
    }

    /** The number of entries, inner map by inner map. */
    method CountEntries() returns (total: nat)
      ensures total == |Slots(cache)|
    {
      total := 0;
      var ops := cache.Keys;
      ghost var seen: set<Slot> := {};
      while ops != {}
        invariant ops <= cache.Keys && total == |seen|
        invariant seen == set s | s in Slots(cache) && s.op !in ops
        decreases |ops|
      {
        var op :| op in ops;
        ghost var more := set c | c in cache[op].Keys :: Slot(op, c);
        InnerSize(op, cache[op].Keys);
        ops := ops - {op};
        assert (set s | s in Slots(cache) && s.op !in ops) == seen + more by {
          forall s: Slot ensures s in Slots(cache) && s.op !in ops <==> s in seen || s in more {
            assert s in Slots(cache) <==> Has(cache, s);
          }
        }
        seen := seen + more;
        total := total + |cache[op]|;
      }
      assert seen == Slots(cache);
    }

    /** clock(m) is the time when victim number m is looked for. */
    method EvictIfNeeded(clock: nat -> int)
      modifies `cache
      ensures Evicts(old(cache), clock, maxSize, cache)
    {
      var total := CountEntries();
      var turn := 0;
      while total > maxSize
        invariant total == |Slots(cache)| && turn + total == |Slots(old(cache))| && (turn > 0 ==> total >= maxSize)
        invariant Evicting(old(cache), clock, cache)
        invariant turn == 0 ==> cache == old(cache)
        decreases total
      {
        var lru := FindLruEntry(clock(turn));
        if lru == "" {
          break;
        }
        var s := OldestIn(lru);
        OneMoreGone(old(cache), cache, s, clock);
        cache := Remove(cache, s);
        total := total - 1;
        turn := turn + 1;
      }
    }

    /** The operator that holds an oldest entry; the maps may be walked in any order. */
    method FindLruEntry(now: int) returns (lru: string)
      ensures lru != "" ==> exists s :: Oldest(cache, s) && s.op == lru && At(cache, s).stamp < now
      ensures lru == "" ==> Stuck(cache, now)
    {
      lru := "";
      var oldest := now;
      ghost var best: Option<Slot> := None;
      var ops := cache.Keys;
      while ops != {}
        invariant ops <= cache.Keys
        invariant forall s :: Has(cache, s) && s.op !in ops ==> oldest <= At(cache, s).stamp
        invariant best.None? ==> lru == "" && oldest == now
        invariant best.Some? ==> Has(cache, best.value) && best.value.op == lru && At(cache, best.value).stamp == oldest < now
        decreases |ops|
      {
        var op :| op in ops;
        var configs := cache[op].Keys;
        while configs != {}
          invariant configs <= cache[op].Keys
          invariant forall s :: Has(cache, s) && (s.op !in ops || (s.op == op && s.config !in configs)) ==>
                                  oldest <= At(cache, s).stamp
          invariant best.None? ==> lru == "" && oldest == now
          invariant best.Some? ==> Has(cache, best.value) && best.value.op == lru && At(cache, best.value).stamp == oldest < now
          decreases |configs|
        {
          var config :| config in configs;
          configs := configs - {config};
          if cache[op][config].stamp < oldest {
            oldest := cache[op][config].stamp;
            lru := op;
            best := Some(Slot(op, config));
          }
        }
        ops := ops - {op};
      }
      if best.Some? {
        assert Oldest(cache, best.value);
      }
    }

    /** An oldest entry of one operator. */
    method OldestIn(op: string) returns (s: Slot)
      requires exists r :: Oldest(cache, r) && r.op == op
      ensures Oldest(cache, s) && s.op == op
    {
      var configs := cache[op].Keys;
      ghost var r :| Oldest(cache, r) && r.op == op;
      assert r.config in configs;
      var oldest :| oldest in configs;
      configs := configs - {oldest};
      while configs != {}
        invariant configs <= cache[op].Keys && oldest in cache[op]
        invariant forall c :: c in cache[op] && c !in configs ==> cache[op][oldest].stamp <= cache[op][c].stamp
        decreases |configs|
      {
        var c :| c in configs;
        configs := configs - {c};
        if cache[op][c].stamp < cache[op][oldest].stamp {
          oldest := c;
        }
      }
      s := Slot(op, oldest);
    }

    /** A fastest valid entry of the operator, if it has a valid one. */
    method GetBest(op: string) returns (r: Option<Entry>)
      ensures IsBest(cache, op, r)
    {
      r := None;
      if op !in cache {
        return;
      }
      var configs := cache[op].Keys;
      while configs != {}
        invariant configs <= cache[op].Keys
        invariant r.None? ==> forall c :: c in cache[op] && c !in configs ==> !cache[op][c].valid
        invariant r.Some? ==> r.value.valid && exists c :: c in cache[op] && cache[op][c] == r.value
        invariant r.Some? ==> forall c :: c in cache[op] && c !in configs && cache[op][c].valid ==> r.value.time <= cache[op][c].time
        decreases |configs|
      {
        var c :| c in configs;
        configs := configs - {c};
        if cache[op][c].valid && (r.None? || cache[op][c].time < r.value.time) {
          r := Some(cache[op][c]);
        }
      }
      if r.None? {
        forall s | Has(cache, s) && s.op == op ensures !At(cache, s).valid {
          assert s.config in cache[op];
        }
      } else {
        var c :| c in cache[op] && cache[op][c] == r.value;
        assert Has(cache, Slot(op, c)) && At(cache, Slot(op, c)) == r.value;
      }
    }
  }

  lemma {:induction false} InnerSize(op: string, configs: set<string>)
    ensures |set c | c in configs :: Slot(op, c)| == |configs|
    decreases |configs|
  {
    var all := set c | c in configs :: Slot(op, c);
    if configs == {} {
      assert all == {};
    } else {
      var c :| c in configs;
      InnerSize(op, configs - {c});
      assert all == (set d | d in configs - {c} :: Slot(op, d)) + {Slot(op, c)};
    }
  }

  lemma Removed(t: Table, s: Slot)
    requires Has(t, s)
    ensures forall r :: Has(Remove(t, s), r) <==> Has(t, r) && r != s
  {
    RemoveSlots(t, s);
    forall r ensures Has(Remove(t, s), r) <==> Has(t, r) && r != s {
      assert Has(Remove(t, s), r) <==> r in Slots(Remove(t, s));
      assert Has(t, r) <==> r in Slots(t);
    }
  }
}
