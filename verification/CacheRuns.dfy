/** The schedule cache over whole runs of insertions: its size, what it holds, and when the bound fails. */
module CacheRuns {
  import opened Values
  import opened ScheduleCache

  /** One call of insert or insert_batch: what it stores, and the clock eviction reads on each of its turns. */
  datatype Call = Call(puts: seq<Entry>, clock: nat -> int)

  /** ts[i] is the cache after i calls. */
  ghost predicate Runs(ts: seq<Table>, calls: seq<Call>, limit: nat) {
    && |ts| == |calls| + 1 && ts[0] == map[]
    && forall i {:trigger calls[i]} :: 0 <= i < |calls| ==> Evicts(PutAll(ts[i], calls[i].puts), calls[i].clock, limit, ts[i + 1])
  }

  /** The entry last stored at s. */
  function LastPut(es: seq<Entry>, s: Slot): Option<Entry> {
    if es == [] then None
    else
      var e := es[|es| - 1];
      if Slot(e.op, e.config) == s then Some(e) else LastPut(es[..|es| - 1], s)
  }

  function Stored(calls: seq<Call>): seq<Entry> {
    if calls == [] then [] else Stored(calls[..|calls| - 1]) + calls[|calls| - 1].puts
  }

  /** Every entry of t is the one `last` gives. */
  ghost predicate Holds(t: Table, es: seq<Entry>) {
    forall s :: Has(t, s) ==> LastPut(es, s) == Some(At(t, s))
  }

  lemma {:induction false} PutAllHolds(t: Table, before: seq<Entry>, es: seq<Entry>)
    requires Holds(t, before) && NoEmptyInner(t)
    ensures Holds(PutAll(t, es), before + es) && NoEmptyInner(PutAll(t, es))
    ensures forall s :: Has(PutAll(t, es), s) ==> Has(t, s) || exists i :: 0 <= i < |es| && s == Slot(es[i].op, es[i].config)
    decreases |es|
  {
    if es == [] {
      assert before + es == before;
    } else {
      var some := es[..|es| - 1];
      var e := es[|es| - 1];
      PutAllHolds(t, before, some);
      PutSlots(PutAll(t, some), e);
      assert (before + es)[..|before + es| - 1] == before + some;
      forall s | Has(PutAll(t, es), s)
        ensures Has(t, s) || exists i :: 0 <= i < |es| && s == Slot(es[i].op, es[i].config)
      {
        assert s in Slots(PutAll(t, es));
        if s != Slot(e.op, e.config) {
          assert s in Slots(PutAll(t, some));
          if !Has(t, s) {
            var i :| 0 <= i < |some| && s == Slot(some[i].op, some[i].config);
            assert es[i] == some[i];
          }
        }
      }
    }
  }

  /** A batch adds its own slots and no others, with the entry that comes last for each; the rest stays. */
  lemma {:induction false} PutAllSlots(t: Table, es: seq<Entry>)
    ensures Slots(PutAll(t, es)) == Slots(t) + set i | 0 <= i < |es| :: Slot(es[i].op, es[i].config)
    ensures forall s :: Has(PutAll(t, es), s) ==>
              match LastPut(es, s)
              case Some(e) => At(PutAll(t, es), s) == e
              case None => Has(t, s) && At(PutAll(t, es), s) == At(t, s)
    decreases |es|
  {
    var added := set i | 0 <= i < |es| :: Slot(es[i].op, es[i].config);
    if es == [] {
      assert added == {};
    } else {
      var some := es[..|es| - 1];
      var e := es[|es| - 1];
      PutAllSlots(t, some);
      PutSlots(PutAll(t, some), e);
      var before := set i | 0 <= i < |some| :: Slot(some[i].op, some[i].config);
      forall s ensures s in added <==> s in before || s == Slot(e.op, e.config) {
        if s in before {
          var i :| 0 <= i < |some| && s == Slot(some[i].op, some[i].config);
          assert s == Slot(es[i].op, es[i].config);
        }
        if s in added {
          var i :| 0 <= i < |es| && s == Slot(es[i].op, es[i].config);
          assert i < |some| ==> some[i] == es[i];
        }
      }
      assert added == before + {Slot(e.op, e.config)};
      forall s | Has(PutAll(t, es), s) && s != Slot(e.op, e.config) ensures Has(PutAll(t, some), s) {
        assert s in Slots(PutAll(t, es));
      }
    }
  }

  /** The entry for s after which none follows for s. */
  lemma {:induction false} LastPutIs(es: seq<Entry>, s: Slot, i: nat)
    requires i < |es| && Slot(es[i].op, es[i].config) == s
    requires forall j :: i < j < |es| ==> Slot(es[j].op, es[j].config) != s
    ensures LastPut(es, s) == Some(es[i])
    decreases |es|
  {
    if i < |es| - 1 {
      LastPutIs(es[..|es| - 1], s, i);
    }
  }

  lemma {:induction false} LastPutFound(es: seq<Entry>, s: Slot)
    requires LastPut(es, s).Some?
    ensures LastPut(es, s).value in es
    decreases |es|
  {
    if Slot(es[|es| - 1].op, es[|es| - 1].config) != s {
      LastPutFound(es[..|es| - 1], s);
    }
  }

  /** Operators have names, and every entry is older than the clock of every eviction that can see it. */
  ghost predicate ClockRuns(calls: seq<Call>) {
    forall i, j, e, m: nat {:trigger Precedes(e, calls[i].clock, m), calls[j]} ::
      0 <= j <= i < |calls| && e in calls[j].puts ==> Precedes(e, calls[i].clock, m)
  }

  /** e has a named operator and is older than reading m of the clock. */
  predicate Precedes(e: Entry, clock: nat -> int, m: nat) {
    e.op != "" && e.stamp < clock(m)
  }

  lemma {:induction false} StoredFrom(calls: seq<Call>, e: Entry)
    requires e in Stored(calls)
    ensures exists j :: 0 <= j < |calls| && e in calls[j].puts
    decreases |calls|
  {
    var some := calls[..|calls| - 1];
    if e in Stored(some) {
      StoredFrom(some, e);
      var j :| 0 <= j < |some| && e in some[j].puts;
      assert calls[j] == some[j];
    } else {
      assert e in calls[|calls| - 1].puts;
    }
  }

  /**
   * Over every run: the cache is never larger than its bound, exactly as full as it can be, holds at each slot the
   * entry last stored there, and keeps no empty inner map.
   */
  lemma {:induction false} RunsStayBounded(ts: seq<Table>, calls: seq<Call>, limit: nat)
    requires Runs(ts, calls, limit) && ClockRuns(calls)
    ensures var t := ts[|calls|]; |Slots(t)| <= limit && NoEmptyInner(t) && Holds(t, Stored(calls))
    ensures calls != [] ==>
              var before := PutAll(ts[|calls| - 1], calls[|calls| - 1].puts);
              |Slots(ts[|calls|])| == if |Slots(before)| <= limit then |Slots(before)| else limit
    decreases |calls|
  {
    if calls == [] {
      assert Slots(map[]) == {};
    } else {
      var n := |calls| - 1;
      var t := PutAll(ts[n], calls[n].puts);
      FirstRuns(ts, calls, limit);
      RunsStayBounded(ts[..n + 1], calls[..n], limit);
      PutAllHolds(ts[n], Stored(calls[..n]), calls[n].puts);
      var m := |Slots(t)| - |Slots(ts[n + 1])|;
      AllOlder(t, calls, m, calls[n].clock(m));
      FullyEvicted(t, calls[n].clock, limit, ts[n + 1]);
    }
  }

  /** A run without its last call is a run. */
  lemma FirstRuns(ts: seq<Table>, calls: seq<Call>, limit: nat)
    requires Runs(ts, calls, limit) && ClockRuns(calls) && calls != []
    ensures var n := |calls| - 1; Runs(ts[..n + 1], calls[..n], limit) && ClockRuns(calls[..n])
  {
    var n := |calls| - 1;
    var some := calls[..n];
    forall i | 0 <= i < n ensures Evicts(PutAll(ts[..n + 1][i], some[i].puts), some[i].clock, limit, ts[..n + 1][i + 1]) {
      assert calls[i] == some[i];
    }
    FirstClocks(calls, n);
  }

  lemma FirstClocks(calls: seq<Call>, n: nat)
    requires ClockRuns(calls) && n <= |calls|
    ensures ClockRuns(calls[..n])
  {
    var some := calls[..n];
    forall i, j, e, m: nat | 0 <= j <= i < |some| && e in some[j].puts ensures Precedes(e, some[i].clock, m) {
      assert calls[j] == some[j] && calls[i] == some[i];
    }
  }

  /** What was stored has a named operator and is older than any reading of the last call's clock. */
  lemma AllOlder(t: Table, calls: seq<Call>, m: nat, now: int)
    requires ClockRuns(calls) && calls != [] && Holds(t, Stored(calls)) && now == calls[|calls| - 1].clock(m)
    ensures forall s :: Has(t, s) ==> s.op != "" && At(t, s).stamp < now
  {
    forall s | Has(t, s) ensures s.op != "" && At(t, s).stamp < now {
      LastPutFound(Stored(calls), s);
      OwnSlot(Stored(calls), s);
      StoredOlder(calls, At(t, s), m);
    }
  }

  lemma StoredOlder(calls: seq<Call>, e: Entry, m: nat)
    requires ClockRuns(calls) && e in Stored(calls)
    ensures calls != [] && Precedes(e, calls[|calls| - 1].clock, m)
  {
    StoredFrom(calls, e);
    var j :| 0 <= j < |calls| && e in calls[j].puts;
    assert Precedes(e, calls[|calls| - 1].clock, m);
  }

  /** With every entry older than the clock, eviction leaves no more than the bound, and no less than it must. */
  lemma FullyEvicted(t: Table, clock: nat -> int, limit: nat, u: Table)
    requires Evicts(t, clock, limit, u)
    requires forall s :: Has(t, s) ==> s.op != "" && At(t, s).stamp < clock(|Slots(t)| - |Slots(u)|)
    ensures |Slots(u)| == if |Slots(t)| <= limit then |Slots(t)| else limit
  {
    if |Slots(u)| > limit {
      Nonempty(u);
    }
  }

  /** A table with entries has an entry. */
  lemma Nonempty(t: Table)
    requires |Slots(t)| > 0
    ensures exists s :: Has(t, s)
  {
    var s :| s in Slots(t);
    assert Has(t, s);
  }

  lemma {:induction false} OwnSlot(es: seq<Entry>, s: Slot)
    requires LastPut(es, s).Some?
    ensures Slot(LastPut(es, s).value.op, LastPut(es, s).value.config) == s
    decreases |es|
  {
    if Slot(es[|es| - 1].op, es[|es| - 1].config) != s {
      OwnSlot(es[..|es| - 1], s);
    }
  }

  // ----- when the bound fails -----

  /** The bound holds after eviction unless, on some turn before that, too few entries are older than the clock. */
  lemma BoundExact(t: Table, clock: nat -> int, limit: nat, u: Table)
    requires Evicts(t, clock, limit, u) && "" !in t
    ensures |Slots(u)| <= limit <==> forall m: nat {:trigger clock(m)} :: m < |Slots(t)| - limit ==> |Older(t, clock(m))| > m
  {
    if |Slots(u)| > limit && |Slots(t)| > limit {
      var m := |Slots(t)| - |Slots(u)|;
      assert !exists s :: Oldest(u, s) && s.op == "";
      forall s | s in Slots(u) ensures s in Slots(t) {
        HasSlots(u, s);
        HasSlots(t, s);
      }
      var gone := Slots(t) - Slots(u);
      forall s | s in Older(t, clock(m)) ensures s in gone {
        HasSlots(u, s);
        HasSlots(t, s);
      }
      assert Slots(t) == gone + Slots(u);
      Smaller(Older(t, clock(m)), gone);
      assert |Older(t, clock(m))| <= m;
    }
  }

  /** What `warmup` stores for a configuration it does not know. */
  function Placeholder(op: string, config: string, stamp: int): Entry {
    Entry(config, op, -1.0, true, 0, stamp)
  }

  /** The best entry is one a search may use (its time is positive) exactly when every valid entry's time is. */
  lemma UsableBestExact(t: Table, op: string, best: Option<Entry>)
    requires IsBest(t, op, best)
    ensures best.Some? && best.value.time > 0.0 <==>
              (exists s :: Has(t, s) && s.op == op && At(t, s).valid)
              && forall s :: Has(t, s) && s.op == op && At(t, s).valid ==> At(t, s).time > 0.0
  {
  }

  /** Warming up for an unknown configuration, with room in the cache: whatever was measured, no best entry is usable. */
  lemma PlaceholderHidesMeasured(t: Table, op: string, config: string, stamp: int, clock: nat -> int, limit: nat, u: Table,
                                 best: Option<Entry>)
    requires !Has(t, Slot(op, config)) && |Slots(t)| < limit
    requires Evicts(Put(t, Placeholder(op, config, stamp)), clock, limit, u) && IsBest(u, op, best)
    ensures best.Some? && !(best.value.time > 0.0)
  {
    var e := Placeholder(op, config, stamp);
    PutSlots(t, e);
    HasSlots(t, Slot(op, config));
    assert |Slots(Put(t, e))| == |Slots(t)| + 1;
    assert Has(u, Slot(op, config)) && At(u, Slot(op, config)) == e;
    UsableBestExact(u, op, best);
  }
}
