/** One pass of `collect_orphaned_channels` as functions on the heap, and its safety and
    completeness. */
module Collector {
  import opened ChannelHeap

  // ------------------------------------------------------------ discarding queues

  /** Drop every message of one state, then destroy what they carried. */
  function Discard(h: Heap, c: ChannelId): Heap {
    if c !in h.channels then h
    else DropAll(h.(channels := h.channels[c := Emptied(h.channels[c])]), Contents(h.channels[c]))
  }

  function DiscardAll(h: Heap, cs: seq<ChannelId>): Heap
    decreases |cs|
  {
    if cs == [] then h else DiscardAll(Discard(h, cs[0]), cs[1..])
  }

  lemma {:induction false} EmptyingUnqueues(chs: map<ChannelId, Channel>, cs: seq<ChannelId>, c: ChannelId)
    requires c in chs && Distinct(cs) && c in cs
    ensures Queued(chs[c := Emptied(chs[c])], cs) + multiset(Contents(chs[c])) == Queued(chs, cs)
  {
    var chs' := chs[c := Emptied(chs[c])];
    var rest := cs[1..];
    assert cs == [cs[0]] + rest;
    assert Distinct(rest);
    if cs[0] == c {
      assert c !in rest;
      SameQueued(chs, chs', rest);
    } else {
      EmptyingUnqueues(chs, rest, c);
    }
  }

  /** Queues of the listed states are gone, all other queues and all roots are as before. */
  ghost predicate QueuesCleared(h: Heap, h': Heap, cs: seq<ChannelId>) {
    && h'.registry == h.registry && h'.channels.Keys == h.channels.Keys
    && forall c | c in h.channels ::
         h'.channels[c] == (if c in cs then Emptied(h.channels[c]) else h.channels[c]).(endpoints := h'.channels[c].endpoints)
  }

  /** Objects only disappear, and keep pointing where they pointed. */
  ghost predicate StateShrinks(h: Heap, h': Heap) {
    forall o | o in h'.state :: o in h.state && h'.state[o] == h.state[o]
  }

  lemma EmptiedLinked(h: Heap, c: ChannelId)
    requires Linked(h) && c in h.channels
    ensures Linked(h.(channels := h.channels[c := Emptied(h.channels[c])]))
  {
    var g := h.(channels := h.channels[c := Emptied(h.channels[c])]);
    forall d ensures PointingAt(g, d) == PointingAt(h, d) { }
  }

  lemma EmptiedTracked(h: Heap, c: ChannelId)
    requires Registered(h) && Tracked(h, multiset{}) && c in h.channels
    ensures Tracked(h.(channels := h.channels[c := Emptied(h.channels[c])]), multiset{} + multiset(Contents(h.channels[c])))
  {
    hide Emptied, Contents;
    var g := h.(channels := h.channels[c := Emptied(h.channels[c])]);
    var loose := multiset(Contents(h.channels[c]));
    EmptyingUnqueues(h.channels, h.registry, c);
    forall o ensures (Queued(g.channels, g.registry) + (multiset{} + loose))[Endpoint(o)] <= Held(g, o) {
      assert (Queued(h.channels, h.registry) + multiset{})[Endpoint(o)] <= Held(h, o);
    }
  }

  lemma ClearedRegistered(h: Heap, h': Heap, cs: seq<ChannelId>)
    requires Registered(h) && QueuesCleared(h, h', cs)
    ensures Registered(h')
  {
  }

  lemma DiscardSound(h: Heap, c: ChannelId)
    requires Sound(h) && c in h.channels
    ensures var h' := Discard(h, c);
      && Sound(h') && QueuesCleared(h, h', [c]) && StateShrinks(h, h')
      && (forall o :: Held(h', o) == Held(h, o) - multiset(Contents(h.channels[c]))[Endpoint(o)])
  {
    hide Linked, Registered, Tracked, Contents, DropAll;
    var g := h.(channels := h.channels[c := Emptied(h.channels[c])]);
    EmptiedLinked(h, c);
    EmptiedTracked(h, c);
    DropAllCounts(g, Contents(h.channels[c]), multiset{});
    ClearedRegistered(h, Discard(h, c), [c]);
  }

  lemma {:induction false} ClearedQueued(h: Heap, h': Heap, cs: seq<ChannelId>, ds: seq<ChannelId>)
    requires QueuesCleared(h, h', cs) && forall d | d in ds :: d !in cs
    ensures Queued(h'.channels, ds) == Queued(h.channels, ds)
  {
    SameQueued(h.channels, h'.channels, ds);
  }

  lemma ClearedChain(h: Heap, g: Heap, r: Heap, c: ChannelId, cs: seq<ChannelId>)
    requires QueuesCleared(h, g, [c]) && QueuesCleared(g, r, cs) && c !in cs
    ensures QueuesCleared(h, r, [c] + cs)
  {
  }

  lemma {:induction false} DiscardAllSound(h: Heap, cs: seq<ChannelId>)
    requires Sound(h) && Distinct(cs) && forall c | c in cs :: c in h.channels
    ensures var h' := DiscardAll(h, cs);
      && Sound(h') && QueuesCleared(h, h', cs) && StateShrinks(h, h')
      && (forall o :: Held(h', o) == Held(h, o) - Queued(h.channels, cs)[Endpoint(o)])
    decreases |cs|
  {
    if cs != [] {
      hide Sound;
      var c, rest := cs[0], cs[1..];
      assert cs == [c] + rest && c !in rest;
      DiscardSound(h, c);
      var g := Discard(h, c);
      DiscardAllSound(g, rest);
      ClearedQueued(h, g, [c], rest);
      ClearedChain(h, g, DiscardAll(g, rest), c, rest);
    }
  }

  // ---------------------------------------------------------------- sweeping

  /** `registry->remove` of the first matching entry. */
  function Without(reg: seq<ChannelId>, c: ChannelId): (r: seq<ChannelId>)
    ensures forall d | d in r :: d in reg
    ensures forall d | d in reg && d != c :: d in r
  {
    if reg == [] then [] else if reg[0] == c then reg[1..] else [reg[0]] + Without(reg[1..], c)
  }

  lemma {:induction false} WithoutDistinct(reg: seq<ChannelId>, c: ChannelId)
    requires Distinct(reg)
    ensures Distinct(Without(reg, c)) && c !in Without(reg, c)
  {
    if reg != [] {
      assert reg == [reg[0]] + reg[1..];
      assert Distinct(reg[1..]);
      WithoutDistinct(reg[1..], c);
      if reg[0] != c {
        var r := Without(reg[1..], c);
        assert reg[0] !in r;
        assert Without(reg, c) == [reg[0]] + r;
      }
    }
  }

  /** Delete a state no endpoint object points at. */
  function Reap(h: Heap, c: ChannelId): Heap {
    if c in h.channels && h.channels[c].endpoints == 0
    then h.(registry := Without(h.registry, c), channels := h.channels - {c}) else h
  }

  function Sweep(h: Heap, cs: seq<ChannelId>): Heap
    decreases |cs|
  {
    if cs == [] then h else Sweep(Reap(h, cs[0]), cs[1..])
  }

  lemma {:induction false} WithoutQueued(chs: map<ChannelId, Channel>, reg: seq<ChannelId>, c: ChannelId)
    requires Distinct(reg) && c in chs && Contents(chs[c]) == []
    ensures Queued(chs - {c}, Without(reg, c)) == Queued(chs, reg)
  {
    if reg != [] {
      assert reg == [reg[0]] + reg[1..];
      assert Distinct(reg[1..]);
      if reg[0] == c {
        assert c !in reg[1..];
        UnusedQueued(chs, reg[1..], c);
      } else {
        WithoutQueued(chs, reg[1..], c);
        assert Without(reg, c) == [reg[0]] + Without(reg[1..], c);
      }
    }
  }

  lemma {:induction false} UnusedQueued(chs: map<ChannelId, Channel>, cs: seq<ChannelId>, c: ChannelId)
    requires c !in cs
    ensures Queued(chs - {c}, cs) == Queued(chs, cs)
  {
    if cs != [] { UnusedQueued(chs, cs[1..], c); }
  }

  lemma ReapLinked(h: Heap, c: ChannelId)
    requires Linked(h) && c in h.channels && h.channels[c].endpoints == 0
    ensures Linked(Reap(h, c))
  {
    var h' := Reap(h, c);
    forall o | o in h.state ensures h.state[o] != c {
      assert h.state[o] == c ==> o in PointingAt(h, c);
    }
    forall d ensures PointingAt(h', d) == PointingAt(h, d) { }
  }

  lemma ReapRegistered(h: Heap, c: ChannelId)
    requires Registered(h)
    ensures Registered(Reap(h, c))
  {
    WithoutDistinct(h.registry, c);
  }

  lemma ReapSound(h: Heap, c: ChannelId)
    requires Sound(h) && (c in h.channels ==> Contents(h.channels[c]) == [])
    ensures Sound(Reap(h, c))
  {
    hide Linked, Contents;
    ReapRegistered(h, c);
    if c in h.channels && h.channels[c].endpoints == 0 {
      ReapLinked(h, c);
      WithoutQueued(h.channels, h.registry, c);
    }
  }

  /** The sweep deletes exactly the listed states without objects and touches nothing else. */
  lemma {:induction false} SweepSound(h: Heap, cs: seq<ChannelId>)
    requires Sound(h) && forall c | c in cs && c in h.channels :: Contents(h.channels[c]) == []
    ensures var h' := Sweep(h, cs);
      && Sound(h') && h'.state == h.state && h'.handles == h.handles
      && (forall c :: c in h'.channels <==> c in h.channels && !(c in cs && h.channels[c].endpoints == 0))
      && (forall c | c in h'.channels :: h'.channels[c] == h.channels[c])
    decreases |cs|
  {
    if cs != [] {
      hide Sound;
      assert cs == [cs[0]] + cs[1..];
      ReapSound(h, cs[0]);
      SweepSound(Reap(h, cs[0]), cs[1..]);
    }
  }

  // ------------------------------------------------------------------ the pass

  /** The registry entries that tracing does not reach, in registry order. */
  ghost function Unreached(h: Heap, cs: seq<ChannelId>): (r: seq<ChannelId>)
    ensures forall c :: c in r <==> c in cs && !Reachable(h, c)
  {
    if cs == [] then []
    else if Reachable(h, cs[0]) then Unreached(h, cs[1..]) else [cs[0]] + Unreached(h, cs[1..])
  }

  ghost function Reached(h: Heap, cs: seq<ChannelId>): (r: seq<ChannelId>)
    ensures forall c :: c in r <==> c in cs && Reachable(h, c)
  {
    if cs == [] then []
    else if Reachable(h, cs[0]) then [cs[0]] + Reached(h, cs[1..]) else Reached(h, cs[1..])
  }

  lemma {:induction false} UnreachedDistinct(h: Heap, cs: seq<ChannelId>)
    requires Distinct(cs)
    ensures Distinct(Unreached(h, cs))
  {
    if cs != [] {
      assert cs == [cs[0]] + cs[1..];
      assert Distinct(cs[1..]);
      UnreachedDistinct(h, cs[1..]);
      assert cs[0] !in Unreached(h, cs[1..]);
    }
  }

  lemma {:induction false} QueuedSplits(h: Heap, cs: seq<ChannelId>)
    ensures Queued(h.channels, cs) == Queued(h.channels, Unreached(h, cs)) + Queued(h.channels, Reached(h, cs))
  {
    hide Reachable, Contents;
    if cs != [] {
      QueuedSplits(h, cs[1..]);
      var u, r := Unreached(h, cs), Reached(h, cs);
      if Reachable(h, cs[0]) {
        assert r[1..] == Reached(h, cs[1..]);
      } else {
        assert u[1..] == Unreached(h, cs[1..]);
      }
    }
  }

  lemma {:induction false} QueuedSomewhere(chs: map<ChannelId, Channel>, cs: seq<ChannelId>, r: Resource)
    requires Queued(chs, cs)[r] > 0
    ensures exists c :: c in cs && c in chs && r in Contents(chs[c])
  {
    if cs[0] in chs && r in Contents(chs[cs[0]]) {
    } else {
      QueuedSomewhere(chs, cs[1..], r);
    }
  }

  ghost function Collect(h: Heap): Heap {
    var garbage := Unreached(h, h.registry);
    Sweep(DiscardAll(h, garbage), garbage)
  }

  /** Only unreachable states lose messages; a state is deleted only when no endpoint object
      points at it any more; what stays still satisfies every invariant. */
  lemma CollectSafe(h: Heap)
    requires Sound(h)
    ensures var h' := Collect(h);
      && Sound(h') && StateShrinks(h, h') && h'.channels.Keys <= h.channels.Keys
      && (forall c | c in h.channels && Reachable(h, c) ::
            c in h'.channels && h'.channels[c] == h.channels[c].(endpoints := h'.channels[c].endpoints))
      && (forall c | c in h'.channels && !Reachable(h, c) ::
            && c in h.channels && h'.channels[c] == Emptied(h.channels[c]).(endpoints := h'.channels[c].endpoints)
            && Contents(h'.channels[c]) == [] && PointingAt(h', c) != {})
      && (forall c | c in h.channels && c !in h'.channels :: PointingAt(h', c) == {})
      && (forall o :: Held(h', o) == Held(h, o) - Queued(h.channels, Unreached(h, h.registry))[Endpoint(o)])
  {
    var garbage := Unreached(h, h.registry);
    UnreachedDistinct(h, h.registry);
    DiscardAllSound(h, garbage);
    var g := DiscardAll(h, garbage);
    SweepSound(g, garbage);
    var h' := Collect(h);
    forall c | c in h.channels && c !in h'.channels ensures PointingAt(h', c) == {} {
      assert PointingAt(h', c) == PointingAt(g, c);
    }
    forall c | c in h'.channels && !Reachable(h, c) ensures Contents(h'.channels[c]) == [] && PointingAt(h', c) != {} {
      assert PointingAt(h', c) == PointingAt(g, c);
    }
  }

  /** Somebody can still use the state: a root on either side, a call in progress or a claimed message. */
  predicate InUse(c: Channel) {
    c.roots0 > 0 || c.roots1 > 0 || c.operations > 0 || c.claims > 0
  }

  /** From a state in use, each next one through an endpoint in a queued message, to c. */
  ghost predicate UseTrail(h: Heap, p: seq<ChannelId>, c: ChannelId) {
    && p != [] && p[0] in h.channels && InUse(h.channels[p[0]]) && p[|p| - 1] == c
    && forall i | 0 <= i < |p| - 1 :: Edge(h, p[i], p[i + 1])
  }

  lemma ReachableIs(h: Heap, c: ChannelId)
    ensures Reachable(h, c) <==> exists p :: UseTrail(h, p, c)
  {
    if Reachable(h, c) {
      var p :| Trail(h, p) && p[|p| - 1] == c;
      assert UseTrail(h, p, c);
    }
    if p :| UseTrail(h, p, c) {
      assert Trail(h, p) && p[|p| - 1] == c;
    }
  }

  /** A state in use is kept with both its queues. */
  lemma BusyIsKept(h: Heap, c: ChannelId)
    requires Sound(h) && c in h.channels
    requires h.channels[c].roots0 > 0 || h.channels[c].roots1 > 0 || h.channels[c].operations > 0 || h.channels[c].claims > 0
    ensures c in Collect(h).channels
    ensures Collect(h).channels[c].left == h.channels[c].left && Collect(h).channels[c].right == h.channels[c].right
  {
    hide Collect, Reachable;
    CollectSafe(h);
    assert UseTrail(h, [c], c);
    ReachableIs(h, c);
  }

  /** Which states keep their messages: exactly those some state in use leads to.  Any other one that is kept
      has lost them all. */
  lemma MessagesKeptExactly(h: Heap, c: ChannelId)
    requires Sound(h) && c in h.channels
    ensures var h' := Collect(h);
      && ((exists p :: UseTrail(h, p, c)) ==>
            c in h'.channels && h'.channels[c].left == h.channels[c].left && h'.channels[c].right == h.channels[c].right)
      && (!(exists p :: UseTrail(h, p, c)) && c in h'.channels ==>
            h'.channels[c].left.messages == [] && h'.channels[c].right.messages == [])
  {
    hide Collect, Reachable;
    CollectSafe(h);
    ReachableIs(h, c);
  }

  /** Something other than the messages of unreachable states still refers to an endpoint of c. */
  ghost predicate HeldElsewhere(h: Heap, c: ChannelId) {
    exists o :: o in h.state && h.state[o] == c && Held(h, o) > Queued(h.channels, Unreached(h, h.registry))[Endpoint(o)]
  }

  /** One pass deletes exactly the unreachable states whose endpoints nothing but unreachable messages held. */
  lemma CollectExactly(h: Heap)
    requires Sound(h)
    ensures forall c :: c in Collect(h).channels <==> c in h.channels && (Reachable(h, c) || HeldElsewhere(h, c))
  {
    hide Collect, Queued, Reachable, Unreached;
    CollectSafe(h);
    var h' := Collect(h);
    forall c | c in h.channels && !Reachable(h, c) ensures c in h'.channels <==> HeldElsewhere(h, c) {
      if c in h'.channels {
        var o :| o in PointingAt(h', c);
        assert o in h.state && h.state[o] == c && Held(h', o) > 0;
      }
      if HeldElsewhere(h, c) {
        var o :| o in h.state && h.state[o] == c && Held(h, o) > Queued(h.channels, Unreached(h, h.registry))[Endpoint(o)];
        assert Held(h', o) > 0;
        assert o in h'.state && h'.state[o] == c;
        assert o in PointingAt(h', c);
      }
    }
  }

  /** Every endpoint object is held by a table or else by exactly one queued message. */
  ghost predicate HeldByTableOrMessage(h: Heap) {
    forall o | o in h.state ::
      h.state[o] in h.channels
      && (HasRoot(h.channels[h.state[o]])
          || (Held(h, o) == 1 && Queued(h.channels, h.registry)[Endpoint(o)] == 1))
  }

  /** Endpoints of an unreachable state are queued in unreachable states only. */
  lemma GarbageQueued(h: Heap, o: ObjectId)
    requires Linked(h) && Registered(h) && o in h.state && !Reachable(h, h.state[o])
    ensures Queued(h.channels, Unreached(h, h.registry))[Endpoint(o)] == Queued(h.channels, h.registry)[Endpoint(o)]
  {
    var c := h.state[o];
    QueuedSplits(h, h.registry);
    if Queued(h.channels, Reached(h, h.registry))[Endpoint(o)] > 0 {
      QueuedSomewhere(h.channels, Reached(h, h.registry), Endpoint(o));
      var d :| d in Reached(h, h.registry) && d in h.channels && Endpoint(o) in Contents(h.channels[d]);
      EdgeReachable(h, d, c);
    }
  }

  /** An object of an unreachable state is queued in an unreachable state. */
  lemma GarbageHoldsGarbage(h: Heap, o: ObjectId)
    requires Sound(h) && HeldByTableOrMessage(h) && o in h.state && !Reachable(h, h.state[o])
    ensures Held(h, o) == 1 && Queued(h.channels, Unreached(h, h.registry))[Endpoint(o)] == 1
  {
    if HasRoot(h.channels[h.state[o]]) { StartReachable(h, h.state[o]); }
    GarbageQueued(h, o);
  }

  /** One pass frees all garbage, cycles included. */
  lemma CollectComplete(h: Heap)
    requires Sound(h) && HeldByTableOrMessage(h)
    ensures forall c :: c in Collect(h).channels <==> c in h.channels && Reachable(h, c)
  {
    hide Sound, HeldByTableOrMessage, Collect, Queued, Reachable, Unreached;
    CollectExactly(h);
    forall c | c in h.channels && !Reachable(h, c) ensures !HeldElsewhere(h, c) {
      forall o | o in h.state && h.state[o] == c
        ensures Held(h, o) <= Queued(h.channels, Unreached(h, h.registry))[Endpoint(o)]
      {
        GarbageHoldsGarbage(h, o);
      }
    }
  }
}
