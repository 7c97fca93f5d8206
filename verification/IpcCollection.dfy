/** The collector run on the system as it stands between calls: after every run of system calls one
    pass leaves exactly the channels that a process can still reach. */
module IpcCollection {
  import opened CapabilityTable
  import opened CapabilityBags
  import opened Channel
  import opened IpcState
  import opened IpcCalls
  import opened IpcRuns
  import opened Bags
  import Heap = ChannelHeap
  import Collector

  // -------------------------------------------------------------- the system as a heap

  function Seen(rs: seq<Resource>): seq<Heap.Resource> {
    if rs == [] then []
    else [if rs[0].obj.RawEndpoint? then Heap.Endpoint(rs[0].obj) else Heap.Other(rs[0].obj)] + Seen(rs[1..])
  }

  function SeenMessages(ms: seq<Message>): seq<Heap.Message> {
    if ms == [] then [] else [Heap.Message(Seen(ms[0].resources))] + SeenMessages(ms[1..])
  }

  ghost function Rooted(s: System): multiset<Object> {
    MapBag(s.tables, TableBag)
  }

  ghost function InMessages(s: System): multiset<Object> {
    MapBag(s.channels, ChanBag)
  }

  /** The endpoint objects that something still refers to. */
  ghost function Living(s: System): set<Object> {
    set c, side | c in s.channels && side in {0, 1} && Owners(s, c, side) > 0 :: RawEndpoint(c, side)
  }

  lemma LivingIs(s: System, o: Object)
    ensures o in Living(s) <==> o.RawEndpoint? && o.channel in s.channels && o.side <= 1 && Owners(s, o.channel, o.side) > 0
  {
    hide Owners;
    if o.RawEndpoint? && o.channel in s.channels && o.side <= 1 && Owners(s, o.channel, o.side) > 0 {
      assert o.side in {0, 1};
    }
  }

  ghost function Count(s: System, o: Object): nat {
    if o in Living(s) then 1 else 0
  }

  /** A channel with its queues, the table roots of its two ends and the number of its endpoint objects. */
  ghost function SeenChannel(s: System, c: ChannelId): Heap.Channel
    requires c in s.channels
  {
    var ch := s.channels[c];
    var e0, e1 := RawEndpoint(c, 0), RawEndpoint(c, 1);
    Heap.Channel(Heap.Queue(SeenMessages(ch.queue0.items), ch.queue0.claimed),
                 Heap.Queue(SeenMessages(ch.queue1.items), ch.queue1.claimed),
                 Rooted(s)[e0], Rooted(s)[e1], 0, 0, Count(s, e0) + Count(s, e1))
  }

  ghost function HeapOf(s: System, order: seq<ChannelId>): Heap.Heap {
    Heap.Heap(order, map c | c in s.channels :: SeenChannel(s, c),
              map o | o in Living(s) :: o.channel, map o | o in Living(s) :: Owners(s, o.channel, o.side))
  }

  /** The registry lists every channel once. */
  ghost predicate Lists(s: System, order: seq<ChannelId>) {
    Heap.Distinct(order) && (forall c | c in order :: c in s.channels) && (forall c | c in s.channels :: c in order)
  }

  /** The kernel itself holds an end of the channel. */
  predicate KernelHeld(s: System, c: ChannelId) {
    c in s.channels && s.channels[c].kernel0 + s.channels[c].kernel1 > 0
  }

  // -------------------------------------------------------- queued endpoints, counted twice

  function Matches(bag: multiset<Object>, o: Object): nat {
    if o.RawEndpoint? then bag[o] else 0
  }

  lemma {:induction false} SeenCounts(rs: seq<Resource>, o: Object)
    ensures multiset(Seen(rs))[Heap.Endpoint(o)] == Matches(ResourceBag(rs), o)
  {
    if rs != [] {
      SeenCounts(rs[1..], o);
      var first := if rs[0].obj.RawEndpoint? then Heap.Endpoint(rs[0].obj) else Heap.Other(rs[0].obj);
      assert multiset(Seen(rs)) == multiset{first} + multiset(Seen(rs[1..])) by { assert Seen(rs) == [first] + Seen(rs[1..]); }
    }
  }

  lemma {:induction false} MessagesCount(ms: seq<Message>, o: Object)
    ensures multiset(Heap.ResourcesOf(SeenMessages(ms)))[Heap.Endpoint(o)] == Matches(MessagesBag(ms), o)
  {
    if ms != [] {
      MessagesCount(ms[1..], o);
      SeenCounts(ms[0].resources, o);
      assert SeenMessages(ms)[1..] == SeenMessages(ms[1..]);
      assert Heap.ResourcesOf(SeenMessages(ms)) == Seen(ms[0].resources) + Heap.ResourcesOf(SeenMessages(ms[1..]));
    }
  }

  lemma ChannelCounts(s: System, c: ChannelId, o: Object)
    requires c in s.channels
    ensures multiset(Heap.Contents(SeenChannel(s, c)))[Heap.Endpoint(o)] == Matches(ChanBag(s.channels[c]), o)
  {
    MessagesCount(s.channels[c].queue0.items, o);
    MessagesCount(s.channels[c].queue1.items, o);
  }

  lemma {:induction false} QueuedCounts(s: System, part: map<ChannelId, Chan>, cs: seq<ChannelId>, chs: map<ChannelId, Heap.Channel>, o: Object)
    requires Heap.Distinct(cs) && part.Keys == set c | c in cs
    requires forall c | c in part :: c in s.channels && part[c] == s.channels[c] && c in chs && chs[c] == SeenChannel(s, c)
    ensures Heap.Queued(chs, cs)[Heap.Endpoint(o)] == Matches(MapBag(part, ChanBag), o)
    decreases |cs|
  {
    hide SeenChannel, ChanBag;
    if cs == [] {
      assert part == map[];
    } else {
      var c := cs[0];
      assert c in part;
      BagSplit(part, ChanBag, c);
      ChannelCounts(s, c, o);
      assert c !in cs[1..];
      QueuedCounts(s, part - {c}, cs[1..], chs, o);
    }
  }

  lemma AllQueued(s: System, order: seq<ChannelId>, o: Object)
    requires Lists(s, order)
    ensures Heap.Queued(HeapOf(s, order).channels, order)[Heap.Endpoint(o)] == Matches(InMessages(s), o)
  {
    hide SeenChannel;
    assert s.channels.Keys == set c | c in order;
    QueuedCounts(s, s.channels, order, HeapOf(s, order).channels, o);
  }

  // --------------------------------------------------------------------- soundness

  lemma PointingCount(s: System, order: seq<ChannelId>, c: ChannelId)
    requires c in s.channels
    ensures |Heap.PointingAt(HeapOf(s, order), c)| == Count(s, RawEndpoint(c, 0)) + Count(s, RawEndpoint(c, 1))
  {
    hide Living, Owners, SeenChannel;
    var e0, e1 := RawEndpoint(c, 0), RawEndpoint(c, 1);
    var at := Heap.PointingAt(HeapOf(s, order), c);
    forall o ensures o in at <==> o in Living(s) && (o == e0 || o == e1) { LivingIs(s, o); }
    EndsCount(at, Living(s), e0, e1);
  }

  lemma EndsCount(at: set<Object>, living: set<Object>, e0: Object, e1: Object)
    requires e0 != e1 && forall o :: o in at <==> o in living && (o == e0 || o == e1)
    ensures |at| == (if e0 in living then 1 else 0) + (if e1 in living then 1 else 0)
  {
    assert at == (if e0 in living then {e0} else {}) + (if e1 in living then {e1} else {});
  }

  lemma HeapLinked(s: System, order: seq<ChannelId>)
    ensures Heap.Linked(HeapOf(s, order))
  {
    hide Living, Owners;
    var h := HeapOf(s, order);
    forall c | c in h.channels ensures h.channels[c].endpoints == |Heap.PointingAt(h, c)| {
      PointingCount(s, order, c);
    }
    forall o | o in h.state ensures h.state[o] in h.channels && h.handles[o] > 0 { LivingIs(s, o); }
  }

  lemma HeldIs(s: System, order: seq<ChannelId>, o: Object)
    ensures o in Living(s) ==> o.RawEndpoint? && o.channel in s.channels
    ensures Heap.Held(HeapOf(s, order), o) == if o in Living(s) then Owners(s, o.channel, o.side) else 0
  {
    hide Living, Owners, SeenChannel;
    LivingIs(s, o);
  }

  lemma OwnersCoverMessages(s: System, o: Object)
    requires Linear(s) && o.RawEndpoint? && InMessages(s)[o] > 0
    ensures o in Living(s) && o.channel in s.channels && InMessages(s)[o] <= Owners(s, o.channel, o.side)
  {
    hide Living, MapBag;
    LivingIs(s, o);
    assert Holders(s)[o] == Rooted(s)[o] + InMessages(s)[o];
    assert o in Holders(s);
  }

  lemma HeapTracked(s: System, order: seq<ChannelId>)
    requires Linear(s) && Lists(s, order)
    ensures Heap.Tracked(HeapOf(s, order), multiset{})
  {
    hide Living, SeenChannel, Owners, InMessages, Linear, Lists, Heap.Queued, Heap.Held;
    var h := HeapOf(s, order);
    forall o ensures (Heap.Queued(h.channels, h.registry) + multiset{})[Heap.Endpoint(o)] <= Heap.Held(h, o) {
      AllQueued(s, order, o);
      HeldIs(s, order, o);
      if o.RawEndpoint? && InMessages(s)[o] > 0 { OwnersCoverMessages(s, o); }
    }
  }

  lemma HeapSound(s: System, order: seq<ChannelId>)
    requires Inv(s) && Lists(s, order)
    ensures Heap.Sound(HeapOf(s, order))
  {
    hide Living, Heap.Linked, Heap.Tracked, Owners, SeenMessages, Holders;
    HeapLinked(s, order);
    HeapTracked(s, order);
    var h := HeapOf(s, order);
    forall c | c in h.channels ensures !h.channels[c].left.claimed && !h.channels[c].right.claimed {
      assert ChanOk(s.channels[c]);
    }
  }

  /** Linearity is what the collector relies on: in an unreachable channel no end is in a table, so each is in at most
      one message and that message is in an unreachable channel too. */
  lemma GarbageEnd(s: System, order: seq<ChannelId>, o: Object)
    requires Inv(s) && Lists(s, order) && o in Living(s) && o.RawEndpoint? && o.channel in s.channels
    requires !Heap.Reachable(HeapOf(s, order), o.channel)
    ensures var h := HeapOf(s, order);
      Heap.Queued(h.channels, Collector.Unreached(h, h.registry))[Heap.Endpoint(o)] == Holders(s)[o]
  {
    hide Living, Owners, Heap.Queued, SeenMessages, Heap.Reachable, Lists, MapBag;
    var h := HeapOf(s, order);
    LivingIs(s, o);
    HeapSound(s, order);
    Collector.GarbageQueued(h, o);
    AllQueued(s, order, o);
    Unrooted(s, order, o.channel);
    assert o == RawEndpoint(o.channel, 0) || o == RawEndpoint(o.channel, 1);
    assert Holders(s)[o] == Rooted(s)[o] + InMessages(s)[o];
  }

  lemma Unrooted(s: System, order: seq<ChannelId>, c: ChannelId)
    requires c in s.channels && !Heap.Reachable(HeapOf(s, order), c)
    ensures Rooted(s)[RawEndpoint(c, 0)] == 0 && Rooted(s)[RawEndpoint(c, 1)] == 0
  {
    hide Heap.Reachable;
    if Heap.IsStart(HeapOf(s, order), c) { Heap.StartReachable(HeapOf(s, order), c); }
  }

  lemma OwnersAre(s: System, c: ChannelId, side: nat)
    requires c in s.channels
    ensures Owners(s, c, side) == Holders(s)[RawEndpoint(c, side)] + if side == 0 then s.channels[c].kernel0 else s.channels[c].kernel1
  {
  }

  /** What holds an unreachable channel back from deletion is the kernel's own hold, and nothing else. */
  lemma HeldBack(s: System, order: seq<ChannelId>, c: ChannelId)
    requires Inv(s) && Lists(s, order) && c in s.channels && !Heap.Reachable(HeapOf(s, order), c)
    ensures Collector.HeldElsewhere(HeapOf(s, order), c) <==> KernelHeld(s, c)
  {
    hide Inv, Living, Owners, Holders, Heap.Queued, Heap.Reachable, Lists, Collector.Unreached, SeenChannel, Heap.Held;
    var h := HeapOf(s, order);
    forall o | o in h.state && h.state[o] == c
      ensures o.RawEndpoint? && o.channel == c && o.side <= 1
      ensures Heap.Held(h, o) > Heap.Queued(h.channels, Collector.Unreached(h, h.registry))[Heap.Endpoint(o)]
              <==> (if o.side == 0 then s.channels[c].kernel0 else s.channels[c].kernel1) > 0
    {
      LivingIs(s, o);
      HeldIs(s, order, o);
      OwnersAre(s, c, o.side);
      GarbageEnd(s, order, o);
    }
    if KernelHeld(s, c) {
      var o := RawEndpoint(c, if s.channels[c].kernel0 > 0 then 0 else 1);
      OwnersAre(s, c, o.side);
      LivingIs(s, o);
      assert o in h.state && h.state[o] == c;
    }
  }

  /** After every run, one collection leaves exactly the channels reachable from the processes' tables through
      queued messages and those the kernel itself holds an end of; every other channel, cycles included, is gone. */
  lemma OrphansAreCollected(calls: seq<Call>, order: seq<ChannelId>)
    requires Lists(Run(BOOT, calls), order)
    ensures var s := Run(BOOT, calls); var h := HeapOf(s, order);
      forall c :: c in Collector.Collect(h).channels <==> c in s.channels && (Heap.Reachable(h, c) || KernelHeld(s, c))
  {
    hide Inv, Heap.Sound, Collector.HeldElsewhere, Collector.Collect, Heap.Reachable, Lists, KernelHeld, SeenChannel, Living, Owners;
    BootInv();
    RunKeeps(BOOT, calls);
    var s := Run(BOOT, calls);
    var h := HeapOf(s, order);
    HeapSound(s, order);
    Collector.CollectExactly(h);
    forall c | c in s.channels && !Heap.Reachable(h, c) ensures Collector.HeldElsewhere(h, c) <==> KernelHeld(s, c) {
      HeldBack(s, order, c);
    }
  }
}
