/** What happens after `main` returns: commands are answered once, events are delivered in rounds until none are left. */
module EventLoop {
  import opened Values
  import opened Selection

  /** Handlers and events are numbered; only closures are called. */
  datatype Handler = Handler(id: nat, isClosure: bool)

  datatype Publication = Publication(channel: string, event: int)

  datatype Delivery = Delivery(handler: nat, event: int)

  datatype Call = Call(channel: string, delivery: Delivery)

  function CallsOn(calls: seq<Call>, n: string): seq<Delivery> {
    if calls == [] then []
    else
      var most, c := CallsOn(calls[..|calls| - 1], n), calls[|calls| - 1];
      if c.channel == n then most + [c.delivery] else most
  }

  /** What the first k calls publish. */
  function FirstPublished(publishes: nat -> seq<Publication>, k: nat): seq<Publication> {
    if k == 0 then [] else FirstPublished(publishes, k - 1) + publishes(k - 1)
  }

  function Get<T>(m: map<string, seq<T>>, n: string): seq<T> {
    if n in m then m[n] else []
  }

  /** The closures of a channel, called for one event. */
  function CallsFor(hs: seq<Handler>, event: int): seq<Delivery> {
    if hs == [] then []
    else
      var most, h := CallsFor(hs[..|hs| - 1], event), hs[|hs| - 1];
      if h.isClosure then most + [Delivery(h.id, event)] else most
  }

  /** Every closure once for every event, event by event. */
  function AllCalls(hs: seq<Handler>, events: seq<int>): seq<Delivery> {
    if events == [] then [] else AllCalls(hs, events[..|events| - 1]) + CallsFor(hs, events[|events| - 1])
  }

  // ----- the same on indices -----

  /** The indices of the closures. */
  function Closures(hs: seq<Handler>): set<nat> {
    set j: nat | j < |hs| && hs[j].isClosure
  }

  /** Event k is given to the i-th closure, behind all earlier events and closures. */
  predicate Turn(hs: seq<Handler>, idx: seq<nat>, events: seq<int>, ds: seq<Delivery>, k: nat, i: nat) {
    && k < |events| && i < |idx| && idx[i] < |hs| && 0 <= k * |idx| + i < |ds|
    && ds[k * |idx| + i] == Delivery(hs[idx[i]].id, events[k])
  }

  /** Every closure has been given every event once: event by event, for each event closure by closure. */
  ghost predicate InTurn(hs: seq<Handler>, events: seq<int>, ds: seq<Delivery>) {
    exists idx :: Enumerates(idx, Closures(hs)) && AllTurns(hs, idx, events, ds)
  }

  ghost predicate AllTurns(hs: seq<Handler>, idx: seq<nat>, events: seq<int>, ds: seq<Delivery>) {
    && |ds| == |idx| * |events|
    && forall k: nat, i: nat {:trigger Turn(hs, idx, events, ds, k, i)} ::
         k < |events| && i < |idx| ==> Turn(hs, idx, events, ds, k, i)
  }

  lemma {:induction false} CallsForTurns(hs: seq<Handler>, event: int) returns (idx: seq<nat>)
    ensures Enumerates(idx, Closures(hs)) && |CallsFor(hs, event)| == |idx|
    ensures forall i :: 0 <= i < |idx| ==> idx[i] < |hs| && CallsFor(hs, event)[i] == Delivery(hs[idx[i]].id, event)
    decreases |hs|
  {
    if hs == [] {
      idx := [];
    } else {
      var n := |hs| - 1;
      var most := hs[..n];
      idx := CallsForTurns(most, event);
      assert forall j: nat :: j < n ==> most[j] == hs[j];
      if hs[n].isClosure {
        assert Closures(hs) == Closures(most) + {n};
        EnumeratesMore(idx, Closures(most), n);
        idx := idx + [n];
      } else {
        assert Closures(hs) == Closures(most);
      }
    }
  }

  /** The closures do not depend on the event. */
  lemma {:induction false} CallsForSame(hs: seq<Handler>, event: int, other: int)
    ensures |CallsFor(hs, event)| == |CallsFor(hs, other)|
    ensures forall i :: 0 <= i < |CallsFor(hs, event)| ==> CallsFor(hs, other)[i] == CallsFor(hs, event)[i].(event := other)
    decreases |hs|
  {
    if hs != [] {
      CallsForSame(hs[..|hs| - 1], event, other);
    }
  }

  lemma {:induction false} AllCallsTurns(hs: seq<Handler>, idx: seq<nat>, event: int, events: seq<int>)
    requires |CallsFor(hs, event)| == |idx|
    requires forall i :: 0 <= i < |idx| ==> idx[i] < |hs| && CallsFor(hs, event)[i] == Delivery(hs[idx[i]].id, event)
    ensures AllTurns(hs, idx, events, AllCalls(hs, events))
    decreases |events|
  {
    if events != [] {
      var n := |events| - 1;
      var most, last := events[..n], events[n];
      AllCallsTurns(hs, idx, event, most);
      CallsForSame(hs, event, last);
      var before, ds := AllCalls(hs, most), AllCalls(hs, events);
      assert |ds| == |idx| * n + |idx| == |idx| * |events|;
      forall k: nat, i: nat | k < |events| && i < |idx| ensures Turn(hs, idx, events, ds, k, i) {
        if k < n {
          assert Turn(hs, idx, most, before, k, i);
        } else {
          assert ds[n * |idx| + i] == CallsFor(hs, last)[i];
        }
      }
    }
  }

  lemma CallsInTurn(hs: seq<Handler>, events: seq<int>)
    ensures InTurn(hs, events, AllCalls(hs, events))
  {
    var idx := CallsForTurns(hs, 0);
    AllCallsTurns(hs, idx, 0, events);
  }

  function OnChannel(calls: seq<Call>, n: string): set<nat> {
    set k: nat | k < |calls| && calls[k].channel == n
  }

  /** The calls on a channel are the calls made with its name, in order. */
  lemma {:induction false} CallsOnSelects(calls: seq<Call>, n: string) returns (idx: seq<nat>)
    ensures Enumerates(idx, OnChannel(calls, n)) && |CallsOn(calls, n)| == |idx|
    ensures forall i :: 0 <= i < |idx| ==> idx[i] < |calls| && CallsOn(calls, n)[i] == calls[idx[i]].delivery
    decreases |calls|
  {
    if calls == [] {
      idx := [];
    } else {
      var m := |calls| - 1;
      var most := calls[..m];
      idx := CallsOnSelects(most, n);
      assert forall j: nat :: j < m ==> most[j] == calls[j];
      if calls[m].channel == n {
        assert OnChannel(calls, n) == OnChannel(most, n) + {m};
        EnumeratesMore(idx, OnChannel(most, n), m);
        idx := idx + [m];
      } else {
        assert OnChannel(calls, n) == OnChannel(most, n);
      }
    }
  }

  /** Queues have only got longer, at their ends. */
  ghost predicate Grown(a: map<string, seq<int>>, b: map<string, seq<int>>) {
    forall n: string {:trigger Get(b, n)} :: Get(a, n) <= Get(b, n)
  }

  lemma Nest<T>(a: seq<T>, b: seq<T>, c: seq<T>)
    ensures a + b + c == a + (b + c)
  {
  }

  function PublishedTo(ps: seq<Publication>, n: string): seq<int> {
    if ps == [] then []
    else
      var most, p := PublishedTo(ps[..|ps| - 1], n), ps[|ps| - 1];
      if p.channel == n then most + [p.event] else most
  }

  function ToChannel(ps: seq<Publication>, n: string): set<nat> {
    set k: nat | k < |ps| && ps[k].channel == n
  }

  /** What has been published to a channel, in order. */
  lemma {:induction false} PublishedSelects(ps: seq<Publication>, n: string) returns (idx: seq<nat>)
    ensures Enumerates(idx, ToChannel(ps, n)) && |PublishedTo(ps, n)| == |idx|
    ensures forall i :: 0 <= i < |idx| ==> idx[i] < |ps| && PublishedTo(ps, n)[i] == ps[idx[i]].event
    decreases |ps|
  {
    if ps == [] {
      idx := [];
    } else {
      var m := |ps| - 1;
      var most := ps[..m];
      idx := PublishedSelects(most, n);
      assert forall j: nat :: j < m ==> most[j] == ps[j];
      if ps[m].channel == n {
        assert ToChannel(ps, n) == ToChannel(most, n) + {m};
        EnumeratesMore(idx, ToChannel(most, n), m);
        idx := idx + [m];
      } else {
        assert ToChannel(ps, n) == ToChannel(most, n);
      }
    }
  }

  /** What each call publishes follows, whole, on what the calls before it published. */
  lemma {:induction false} PublishedInTurn(publishes: nat -> seq<Publication>, k: nat, n: nat)
    requires k < n
    ensures var all, start := FirstPublished(publishes, n), |FirstPublished(publishes, k)|;
            start + |publishes(k)| <= |all| && all[start..start + |publishes(k)|] == publishes(k)
    ensures FirstPublished(publishes, k) <= FirstPublished(publishes, n)
    decreases n
  {
    if k < n - 1 {
      PublishedInTurn(publishes, k, n - 1);
    }
  }

  /** What each call publishes is an input: publishes(k) belongs to the k-th call. */
  class EventLoop {
    const handlers: map<string, seq<Handler>>
    const publishes: nat -> seq<Publication>
    var channels: map<string, seq<int>>
    var callCount: nat
    ghost var published: seq<Publication>
    ghost var delivered: map<string, seq<int>>
    ghost var calls: seq<Call>

    constructor (channels: map<string, seq<int>>, handlers: map<string, seq<Handler>>, publishes: nat -> seq<Publication>)
      ensures this.channels == channels && this.handlers == handlers && this.publishes == publishes
      ensures callCount == 0 && published == [] && delivered == map[] && calls == []
    {
      this.channels, this.handlers, this.publishes := channels, handlers, publishes;
      callCount, published, delivered, calls := 0, [], map[], [];
    }

    /** Nothing is lost, invented or reordered, on any channel: what was there and what was published is what was taken and what is left. */
    ghost predicate Conserved(start: map<string, seq<int>>)
      reads `delivered, `channels, `published
    {
      forall n: string {:trigger ConservedAt(start, n)} :: ConservedAt(start, n)
    }

    ghost predicate ConservedAt(start: map<string, seq<int>>, n: string)
      reads `delivered, `channels, `published
    {
      Get(delivered, n) + Get(channels, n) == Get(start, n) + PublishedTo(published, n)
    }

    /** Every event taken has gone once to every closure of its channel, in order; channels without handlers are left alone. */
    ghost predicate Served()
      reads `delivered, `calls
    {
      forall n: string {:trigger ServedAt(n)} :: ServedAt(n)
    }

    ghost predicate ServedAt(n: string)
      reads `delivered, `calls
    {
      if n in handlers then CallsOn(calls, n) == AllCalls(handlers[n], Get(delivered, n))
      else Get(delivered, n) == [] && CallsOn(calls, n) == []
    }

    /** The calls made so far have published what they publish, and nothing else has. */
    ghost predicate Logged()
      reads `calls, `published, `callCount
    {
      |calls| == callCount && published == FirstPublished(publishes, callCount)
    }

    /** Publishing creates the channel if need be. */
    method Publish(p: Publication, ghost start: map<string, seq<int>>)
      requires Conserved(start)
      modifies `channels, `published
      ensures Conserved(start) && published == old(published) + [p]
      ensures channels == old(channels)[p.channel := Get(old(channels), p.channel) + [p.event]]
      ensures Grown(old(channels), channels)
    {
      channels := channels[p.channel := Get(channels, p.channel) + [p.event]];
      published := published + [p];
      forall n: string ensures ConservedAt(start, n) {
        assert published[..|published| - 1] == old(published);
        assert old(ConservedAt(start, n));
        Nest(Get(delivered, n), Get(old(channels), n), [p.event]);
        Nest(Get(start, n), PublishedTo(old(published), n), [p.event]);
      }
    }

    /** One closure runs and publishes what it will. */
    method Execute(n: string, h: Handler, event: int, ghost start: map<string, seq<int>>)
      requires Conserved(start) && Logged() && h.isClosure
      modifies `channels, `published, `calls, `callCount
      ensures Conserved(start) && Logged() && Grown(old(channels), channels)
      ensures calls == old(calls) + [Call(n, Delivery(h.id, event))]
    {
      calls := calls + [Call(n, Delivery(h.id, event))];
      var ps := publishes(callCount);
      callCount := callCount + 1;
      var i := 0;
      while i < |ps|
        invariant 0 <= i <= |ps| && Conserved(start) && published == old(published) + ps[..i] && Grown(old(channels), channels)
        invariant calls == old(calls) + [Call(n, Delivery(h.id, event))] && callCount == old(callCount) + 1
      {
        assert ps[..i + 1] == ps[..i] + [ps[i]];
        Nest(old(published), ps[..i], [ps[i]]);
        Publish(ps[i], start);
        i := i + 1;
      }
      assert ps[..i] == ps;
    }

    /** All closures of the channel, for one event. */
    method Deliver(n: string, event: int, ghost start: map<string, seq<int>>)
      requires Conserved(start) && Logged() && n in handlers
      modifies `channels, `published, `calls, `callCount
      ensures Conserved(start) && Logged() && Grown(old(channels), channels)
      ensures CallsOn(calls, n) == CallsOn(old(calls), n) + CallsFor(handlers[n], event)
      ensures forall m: string :: m != n ==> CallsOn(calls, m) == CallsOn(old(calls), m)
    {
      var hs := handlers[n];
      ghost var was := CallsOn(calls, n);
      assert was + CallsFor(hs[..0], event) == was;
      var i := 0;
      while i < |hs|
        invariant 0 <= i <= |hs| && Conserved(start) && Logged() && Grown(old(channels), channels)
        invariant CallsOn(calls, n) == was + CallsFor(hs[..i], event)
        invariant forall m: string :: m != n ==> CallsOn(calls, m) == CallsOn(old(calls), m)
      {
        assert hs[..i + 1][..i] == hs[..i];
        if hs[i].isClosure {
          Nest(was, CallsFor(hs[..i], event), [Delivery(hs[i].id, event)]);
          ghost var before := calls;
          Execute(n, hs[i], event, start);
          assert calls[..|calls| - 1] == before;
        }
        i := i + 1;
      }
      assert hs[..i] == hs;
    }

    /** The queue is taken whole. */
    method Take(n: string, ghost start: map<string, seq<int>>) returns (events: seq<int>)
      requires Conserved(start) && n in channels
      modifies `channels, `delivered
      ensures Conserved(start) && events == old(channels)[n]
      ensures delivered == old(delivered)[n := Get(old(delivered), n) + events]
      ensures forall m: string :: m != n ==> Get(channels, m) == Get(old(channels), m)
    {
      events := channels[n];
      channels := channels[n := []];
      delivered := delivered[n := Get(delivered, n) + events];
      forall m: string ensures ConservedAt(start, m) {
        assert old(ConservedAt(start, m));
      }
    }

    method DeliverAll(n: string, events: seq<int>, ghost before: seq<int>, ghost start: map<string, seq<int>>)
      requires Conserved(start) && Logged() && n in handlers && CallsOn(calls, n) == AllCalls(handlers[n], before)
      modifies `channels, `published, `calls, `callCount
      ensures Conserved(start) && Logged() && Grown(old(channels), channels)
      ensures CallsOn(calls, n) == AllCalls(handlers[n], before + events)
      ensures forall m: string :: m != n ==> CallsOn(calls, m) == CallsOn(old(calls), m)
    {
      assert before + events[..0] == before;
      var i := 0;
      while i < |events|
        invariant 0 <= i <= |events| && Conserved(start) && Logged() && Grown(old(channels), channels)
        invariant CallsOn(calls, n) == AllCalls(handlers[n], before + events[..i])
        invariant forall m: string :: m != n ==> CallsOn(calls, m) == CallsOn(old(calls), m)
      {
        assert (before + events[..i + 1])[..|before| + i] == before + events[..i];
        Nest(before, events[..i], [events[i]]);
        assert events[..i + 1] == events[..i] + [events[i]];
        Deliver(n, events[i], start);
        i := i + 1;
      }
      assert events[..i] == events;
    }

    /** One channel: its queue is taken, then delivered; what is published meanwhile waits for the next round. */
    method Drain(n: string, ghost start: map<string, seq<int>>) returns (any: bool)
      requires Conserved(start) && Served() && Logged() && n in handlers
      modifies this
      ensures Conserved(start) && Served() && Logged()
      ensures any <==> Get(old(channels), n) != []
      ensures forall m: string :: Get(delivered, m) == Get(old(delivered), m) + if m == n then Get(old(channels), n) else []
      ensures forall m: string :: m != n ==> Get(old(channels), m) <= Get(channels, m)
      ensures !any ==> channels == old(channels) && published == old(published) && callCount == old(callCount)
    {
      if n !in channels || channels[n] == [] {
        return false;
      }
      ghost var before := Get(delivered, n);
      assert ServedAt(n);
      var events := Take(n, start);
      DeliverAll(n, events, before, start);
      forall m: string ensures ServedAt(m) {
        assert old(ServedAt(m));
      }
      any := true;
    }

    /** Not yet visited: nothing taken since, and what was queued is still in front. */
    static predicate Waiting(q0: seq<int>, q: seq<int>, d0: seq<int>, d: seq<int>) {
      d == d0 && q0 <= q
    }

    /** All that was queued has been delivered. */
    static predicate CaughtUp(q0: seq<int>, d0: seq<int>, d: seq<int>) {
      d0 + q0 <= d
    }

    /** One round: every channel with handlers, in any order; all that was queued when it began is delivered. */
    method Round(ghost start: map<string, seq<int>>) returns (dispatched: bool)
      requires Conserved(start) && Served() && Logged()
      modifies this
      ensures Conserved(start) && Served() && Logged()
      ensures forall n :: n in handlers ==> CaughtUp(Get(old(channels), n), Get(old(delivered), n), Get(delivered, n))
      ensures !dispatched ==> forall n :: n in handlers ==> Get(channels, n) == []
      ensures dispatched ==> exists n :: n in handlers && Get(old(delivered), n) < Get(delivered, n)
    {
      dispatched := false;
      ghost var c0, d0 := channels, delivered;
      ghost var busy: string := "";
      var names := handlers.Keys;
      while names != {}
        invariant names <= handlers.Keys && Conserved(start) && Served() && Logged()
        invariant forall n :: n in names ==> Waiting(Get(c0, n), Get(channels, n), Get(d0, n), Get(delivered, n))
        invariant forall n :: n in handlers && n !in names ==> CaughtUp(Get(c0, n), Get(d0, n), Get(delivered, n))
        invariant !dispatched ==> forall n :: n in handlers && n !in names ==> Get(channels, n) == []
        invariant dispatched ==> busy in handlers && Get(d0, busy) < Get(delivered, busy)
        decreases |names|
      {
        var n :| n in names;
        ghost var c1, d1 := channels, delivered;
        names := names - {n};
        var any := Drain(n, start);
        assert CaughtUp(Get(c0, n), Get(d0, n), Get(delivered, n)) by {
          assert Waiting(Get(c0, n), Get(c1, n), Get(d0, n), Get(d1, n));
        }
        forall m | m in names ensures Waiting(Get(c0, m), Get(channels, m), Get(d0, m), Get(delivered, m)) {
          assert Waiting(Get(c0, m), Get(c1, m), Get(d0, m), Get(d1, m));
          assert Get(delivered, m) == Get(d1, m) + [];
        }
        forall m | m in handlers && m !in names ensures CaughtUp(Get(c0, m), Get(d0, m), Get(delivered, m)) {
          assert m == n || CaughtUp(Get(c0, m), Get(d0, m), Get(d1, m));
        }
        if any && !dispatched {
          busy := n;
        }
        dispatched := dispatched || any;
      }
    }

    /** At most 100 rounds; if the last one found nothing to do, no channel with handlers has an event left. */
    method DispatchEvents() returns (quiet: bool, rounds: nat)
      requires callCount == 0 && published == [] && delivered == map[] && calls == []
      modifies this
      ensures Conserved(old(channels)) && Served() && Logged() && rounds <= 100
      ensures forall n :: n in handlers ==> Get(old(channels), n) <= Get(delivered, n)
      ensures forall n :: n in handlers ==> InTurn(handlers[n], Get(delivered, n), CallsOn(calls, n))
      ensures quiet ==> forall n :: n in handlers ==> Get(channels, n) == []
      ensures !quiet ==> rounds == 100
    {
      var dispatched := true;
      rounds := 0;
      ghost var start := channels;
      while dispatched && rounds < 100
        invariant rounds <= 100 && Conserved(start) && Served() && Logged()
        invariant !dispatched ==> forall n :: n in handlers ==> Get(channels, n) == []
        invariant if rounds == 0 then dispatched && channels == start && delivered == map[]
                  else forall n :: n in handlers ==> CaughtUp(Get(start, n), [], Get(delivered, n))
      {
        ghost var c1, d1, first := channels, delivered, rounds == 0;
        dispatched := Round(start);
        forall n | n in handlers ensures CaughtUp(Get(start, n), [], Get(delivered, n)) {
          assert CaughtUp(Get(c1, n), Get(d1, n), Get(delivered, n));
          assert first || CaughtUp(Get(start, n), [], Get(d1, n));
        }
        rounds := rounds + 1;
      }
      quiet := !dispatched;
      forall n | n in handlers ensures Get(old(channels), n) <= Get(delivered, n) {
        assert CaughtUp(Get(start, n), [], Get(delivered, n));
      }
      forall n | n in handlers ensures InTurn(handlers[n], Get(delivered, n), CallsOn(calls, n)) {
        assert ServedAt(n);
        CallsInTurn(handlers[n], Get(delivered, n));
      }
    }
  }

  // ----- commands -----

  /** Only a tuple of at least three elements is a request. */
  datatype Command = Other | Request(id: int, name: string, args: int)

  /** The request each closure call answers, in the order of the calls. */
  function Answers(cmds: seq<Command>, handlers: map<string, seq<Handler>>): seq<int> {
    if cmds == [] then []
    else
      var most, c := Answers(cmds[..|cmds| - 1], handlers), cmds[|cmds| - 1];
      if c.Request? && c.name in handlers then most + Repeated(handlers[c.name], c.id) else most
  }

  function Repeated(hs: seq<Handler>, id: int): seq<int> {
    if hs == [] then []
    else if hs[|hs| - 1].isClosure then Repeated(hs[..|hs| - 1], id) + [id]
    else Repeated(hs[..|hs| - 1], id)
  }

  function FirstIndex(ids: seq<int>, id: int): nat {
    if ids == [] || ids[0] == id then 0 else 1 + FirstIndex(ids[1..], id)
  }

  lemma {:induction false} FirstIndexAppend(ids: seq<int>, more: seq<int>, id: int)
    ensures FirstIndex(ids, id) <= |ids| && (FirstIndex(ids, id) < |ids| <==> id in ids)
    ensures id in ids ==> FirstIndex(ids + more, id) == FirstIndex(ids, id)
    ensures id !in ids ==> FirstIndex(ids + more, id) == |ids| + FirstIndex(more, id)
    decreases |ids|
  {
    if ids == [] {
      assert ids + more == more;
    } else {
      assert (ids + more)[1..] == ids[1..] + more;
      FirstIndexAppend(ids[1..], more, id);
    }
  }

  // ----- the answers on indices: which handler of which command -----

  datatype Answer = Answer(command: nat, handler: nat)

  /** A closure of the command's name. */
  predicate Answers1(cmds: seq<Command>, handlers: map<string, seq<Handler>>, a: Answer) {
    && a.command < |cmds| && cmds[a.command].Request? && cmds[a.command].name in handlers
    && a.handler < |handlers[cmds[a.command].name]| && handlers[cmds[a.command].name][a.handler].isClosure
  }

  predicate Earlier(a: Answer, b: Answer) {
    a.command < b.command || (a.command == b.command && a.handler < b.handler)
  }

  /** All answers, command by command, for each command closure by closure. */
  ghost predicate AllAnswers(cmds: seq<Command>, handlers: map<string, seq<Handler>>, all: seq<Answer>) {
    && (forall p :: 0 <= p < |all| ==> Answers1(cmds, handlers, all[p]))
    && (forall p, q :: 0 <= p < q < |all| ==> Earlier(all[p], all[q]))
    && (forall a :: Answers1(cmds, handlers, a) ==> a in all)
  }

  /** The answers of the first n handlers of command c. */
  lemma {:induction false} AnswersOfOne(hs: seq<Handler>, id: int, c: nat, n: nat) returns (all: seq<Answer>)
    requires n <= |hs|
    ensures |Repeated(hs[..n], id)| == |all| && forall p :: 0 <= p < |all| ==> Repeated(hs[..n], id)[p] == id
    ensures forall p :: 0 <= p < |all| ==> all[p].command == c && all[p].handler < n && hs[all[p].handler].isClosure
    ensures forall p, q :: 0 <= p < q < |all| ==> all[p].handler < all[q].handler
    ensures forall j: nat :: j < n && hs[j].isClosure ==> Answer(c, j) in all
    decreases n
  {
    if n == 0 {
      all := [];
    } else {
      assert hs[..n][..n - 1] == hs[..n - 1];
      var most := AnswersOfOne(hs, id, c, n - 1);
      all := if hs[n - 1].isClosure then most + [Answer(c, n - 1)] else most;
      forall j: nat | j < n && hs[j].isClosure ensures Answer(c, j) in all {
        if j == n - 1 {
          assert all[|most|] == Answer(c, j);
        } else {
          assert Answer(c, j) in most;
        }
      }
    }
  }

  lemma {:induction false} AnswersInOrder(cmds: seq<Command>, handlers: map<string, seq<Handler>>) returns (all: seq<Answer>)
    ensures AllAnswers(cmds, handlers, all) && |Answers(cmds, handlers)| == |all|
    ensures forall p :: 0 <= p < |all| ==> Answers(cmds, handlers)[p] == cmds[all[p].command].id
    decreases |cmds|
  {
    all := [];
    if cmds != [] {
      var n := |cmds| - 1;
      var most := AnswersInOrder(cmds[..n], handlers);
      var last: seq<Answer> := [];
      if cmds[n].Request? && cmds[n].name in handlers {
        var hs := handlers[cmds[n].name];
        last := AnswersOfOne(hs, cmds[n].id, n, |hs|);
        assert hs[..|hs|] == hs;
      }
      all := most + last;
      forall a | Answers1(cmds, handlers, a) ensures a in all {
        if a.command < n {
          assert Answers1(cmds[..n], handlers, a) && a in most;
        } else {
          assert a == Answer(n, a.handler) && a in last;
        }
      }
    }
  }

  /** Answer p is the first to the request. */
  predicate FirstAnswer(cmds: seq<Command>, all: seq<Answer>, id: int, p: nat) {
    && p < |all| && all[p].command < |cmds| && cmds[all[p].command].Request? && cmds[all[p].command].id == id
    && forall q :: 0 <= q < p && all[q].command < |cmds| && cmds[all[q].command].Request? ==> cmds[all[q].command].id != id
  }

  /**
   * With p counting the calls: a pending request is resolved exactly if it has an answer, with the result of the first
   * one; all others stay pending.
   */
  ghost predicate ResolvesFirst(cmds: seq<Command>, all: seq<Answer>, pending: set<int>, results: nat -> int,
                                resolved: map<int, int>, left: set<int>) {
    && left == pending - resolved.Keys && resolved.Keys <= pending
    && (forall id, p: nat {:trigger FirstAnswer(cmds, all, id, p)} ::
          id in pending && FirstAnswer(cmds, all, id, p) ==> id in resolved && resolved[id] == results(p))
    && (forall id :: id in resolved ==> exists p: nat :: FirstAnswer(cmds, all, id, p))
  }

  ghost predicate ResolvesAll(cmds: seq<Command>, handlers: map<string, seq<Handler>>, pending: set<int>, results: nat -> int,
                              resolved: map<int, int>, left: set<int>) {
    exists all :: AllAnswers(cmds, handlers, all) && ResolvesFirst(cmds, all, pending, results, resolved, left)
  }

  lemma {:induction false} FirstIndexIs(ids: seq<int>, id: int)
    requires id in ids
    ensures FirstIndex(ids, id) < |ids| && ids[FirstIndex(ids, id)] == id
    ensures forall q :: 0 <= q < FirstIndex(ids, id) ==> ids[q] != id
    decreases |ids|
  {
    if ids[0] != id {
      FirstIndexIs(ids[1..], id);
    }
  }

  lemma ResolvesEach(cmds: seq<Command>, handlers: map<string, seq<Handler>>, pending: set<int>, results: nat -> int,
                     resolved: map<int, int>, left: set<int>)
    requires Resolves(pending, Answers(cmds, handlers), results, resolved, left)
    ensures ResolvesAll(cmds, handlers, pending, results, resolved, left)
  {
    var ids := Answers(cmds, handlers);
    var all := AnswersInOrder(cmds, handlers);
    forall id, p: nat | id in pending && FirstAnswer(cmds, all, id, p) ensures id in resolved && resolved[id] == results(p) {
      assert ids[p] == id;
      FirstIndexIs(ids, id);
      var f := FirstIndex(ids, id);
      assert cmds[all[f].command].id == id;
      assert f == p;
    }
    forall id | id in resolved ensures exists p: nat :: FirstAnswer(cmds, all, id, p) {
      FirstIndexIs(ids, id);
      assert FirstAnswer(cmds, all, id, FirstIndex(ids, id));
    }
  }

  /** Each pending request that some closure answers is resolved with the first answer; the others stay pending. */
  ghost predicate Resolves(pending: set<int>, ids: seq<int>, results: nat -> int, resolved: map<int, int>, left: set<int>) {
    && left == (set id | id in pending && id !in ids)
    && resolved.Keys == (set id | id in pending && id in ids)
    && forall id :: id in resolved ==> resolved[id] == results(FirstIndex(ids, id))
  }

  lemma ResolvesMore(pending: set<int>, ids: seq<int>, results: nat -> int, resolved: map<int, int>, left: set<int>, id: int)
    requires Resolves(pending, ids, results, resolved, left)
    ensures var now := id in left;
            Resolves(pending, ids + [id], results, if now then resolved[id := results(|ids|)] else resolved, left - {id})
  {
    forall i ensures i in ids + [id] <==> i in ids || i == id {
    }
    forall i ensures i in ids ==> FirstIndex(ids + [id], i) == FirstIndex(ids, i) {
      FirstIndexAppend(ids, [id], i);
    }
    FirstIndexAppend(ids, [id], id);
  }

  /** results(k) is what the k-th closure call returns. */
  method DispatchCommands(cmds: seq<Command>, handlers: map<string, seq<Handler>>, pending: set<int>, results: nat -> int)
    returns (resolved: map<int, int>, left: set<int>)
    ensures ResolvesAll(cmds, handlers, pending, results, resolved, left)
  {
    resolved, left := map[], pending;
    var callCount := 0;
    ghost var ids: seq<int> := [];
    assert left == set id | id in pending && id !in ids;
    var c := 0;
    while c < |cmds|
      invariant 0 <= c <= |cmds| && ids == Answers(cmds[..c], handlers) && callCount == |ids|
      invariant Resolves(pending, ids, results, resolved, left)
    {
      assert cmds[..c + 1][..c] == cmds[..c];
      if cmds[c].Request? && cmds[c].name in handlers {
        var id, hs := cmds[c].id, handlers[cmds[c].name];
        ghost var before := ids;
        var h := 0;
        while h < |hs|
          invariant 0 <= h <= |hs| && ids == before + Repeated(hs[..h], id) && callCount == |ids|
          invariant Resolves(pending, ids, results, resolved, left)
        {
          assert hs[..h + 1][..h] == hs[..h];
          if hs[h].isClosure {
            ResolvesMore(pending, ids, results, resolved, left, id);
            var result := results(callCount);
            callCount := callCount + 1;
            if id in left {
              resolved := resolved[id := result];
              left := left - {id};
            }
            assert left == left - {id};
            ids := ids + [id];
          }
          h := h + 1;
        }
        assert hs[..h] == hs;
      }
      c := c + 1;
    }
    assert cmds[..c] == cmds;
    ResolvesEach(cmds, handlers, pending, results, resolved, left);
  }
}
