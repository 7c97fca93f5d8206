/** Channel states, the endpoint objects that point at them and the messages that
    carry endpoints: the heap `collect_orphaned_channels` traces and sweeps. */
module ChannelHeap {
  import CapabilityTable

  type ChannelId = nat
  type ObjectId = CapabilityTable.Object

  /** What a queued message may own: a raw channel endpoint object, another kernel object, or
      nothing any more. */
  datatype Resource = Endpoint(id: ObjectId) | Other(id: ObjectId) | Hollow

  datatype Message = Message(resources: seq<Resource>)

  datatype Queue = Queue(messages: seq<Message>, claimed: bool)

  /** `endpoints` counts the endpoint objects that point at this state. */
  datatype Channel = Channel(left: Queue, right: Queue, roots0: nat, roots1: nat, operations: nat, claims: nat,
                             endpoints: nat)

  /** `state` maps each living endpoint object to its channel, `handles` to the number of
      references (from tables, messages and the kernel) that keep it alive. */
  datatype Heap = Heap(registry: seq<ChannelId>, channels: map<ChannelId, Channel>,
                       state: map<ObjectId, ChannelId>, handles: map<ObjectId, nat>)

  // --------------------------------------------------------------- queue contents

  function ResourcesOf(ms: seq<Message>): seq<Resource> {
    if ms == [] then [] else ms[0].resources + ResourcesOf(ms[1..])
  }

  function Contents(c: Channel): seq<Resource> {
    ResourcesOf(c.left.messages) + ResourcesOf(c.right.messages)
  }

  function Emptied(c: Channel): Channel {
    c.(left := c.left.(messages := []), right := c.right.(messages := []))
  }

  /** Everything queued in the listed channels. */
  ghost function Queued(chs: map<ChannelId, Channel>, cs: seq<ChannelId>): multiset<Resource> {
    if cs == [] then multiset{}
    else (if cs[0] in chs then multiset(Contents(chs[cs[0]])) else multiset{}) + Queued(chs, cs[1..])
  }

  function Held(h: Heap, o: ObjectId): nat {
    if o in h.handles then h.handles[o] else 0
  }

  // ------------------------------------------------------------------- soundness

  predicate HasRoot(c: Channel) {
    c.roots0 != 0 || c.roots1 != 0
  }

  predicate CanReap(c: Channel) {
    !HasRoot(c) && c.operations == 0 && c.claims == 0
  }

  ghost predicate Distinct(cs: seq<ChannelId>) {
    forall i, j | 0 <= i < j < |cs| :: cs[i] != cs[j]
  }

  ghost function PointingAt(h: Heap, c: ChannelId): set<ObjectId> {
    set o | o in h.state && h.state[o] == c
  }

  /** No endpoint object points at a state that is gone, and each state counts its objects. */
  ghost predicate Linked(h: Heap) {
    && h.state.Keys == h.handles.Keys
    && (forall o | o in h.state :: h.state[o] in h.channels && h.handles[o] > 0)
    && (forall c | c in h.channels :: h.channels[c].endpoints == |PointingAt(h, c)|)
  }

  /** The registry lists every state once; a claim is a claimed queue. */
  ghost predicate Registered(h: Heap) {
    && Distinct(h.registry)
    && (forall c | c in h.registry :: c in h.channels)
    && (forall c | c in h.channels :: c in h.registry)
    && (forall c | c in h.channels ::
          h.channels[c].claims == (if h.channels[c].left.claimed then 1 else 0) + (if h.channels[c].right.claimed then 1 else 0))
  }

  /** Every queued or loose endpoint is one of the references that keep it alive. */
  ghost predicate Tracked(h: Heap, loose: multiset<Resource>) {
    forall o :: (Queued(h.channels, h.registry) + loose)[Endpoint(o)] <= Held(h, o)
  }

  ghost predicate Sound(h: Heap) {
    Linked(h) && Registered(h) && Tracked(h, multiset{})
  }

  // ---------------------------------------------------------------- reachability

  /** A message queued in a carries an endpoint of b. */
  ghost predicate Edge(h: Heap, a: ChannelId, b: ChannelId) {
    a in h.channels && b in h.channels
    && exists o :: Endpoint(o) in Contents(h.channels[a]) && o in h.state && h.state[o] == b
  }

  predicate IsStart(h: Heap, c: ChannelId) {
    c in h.channels && (HasRoot(h.channels[c]) || !CanReap(h.channels[c]))
  }

  ghost predicate Trail(h: Heap, p: seq<ChannelId>) {
    && p != [] && IsStart(h, p[0])
    && forall i | 0 <= i < |p| - 1 :: Edge(h, p[i], p[i + 1])
  }

  /** Reachable from a rooted or busy state through endpoints in queued messages. */
  ghost predicate Reachable(h: Heap, c: ChannelId) {
    exists p :: Trail(h, p) && p[|p| - 1] == c
  }

  lemma StartReachable(h: Heap, c: ChannelId)
    requires IsStart(h, c)
    ensures Reachable(h, c)
  {
    var p := [c];
    assert Trail(h, p) && p[|p| - 1] == c;
  }

  lemma EdgeReachable(h: Heap, a: ChannelId, b: ChannelId)
    requires Reachable(h, a) && Edge(h, a, b)
    ensures Reachable(h, b)
  {
    var p :| Trail(h, p) && p[|p| - 1] == a;
    var q := p + [b];
    forall i | 0 <= i < |q| - 1 ensures Edge(h, q[i], q[i + 1]) {
      if i < |p| - 1 { assert Edge(h, p[i], p[i + 1]); }
    }
    assert Trail(h, q) && q[|q| - 1] == b;
  }

  /** A set holding the starts and closed under edges holds everything reachable. */
  lemma {:induction false} ClosedHolds(h: Heap, marked: set<ChannelId>, p: seq<ChannelId>)
    requires forall c | IsStart(h, c) :: c in marked
    requires forall a, b | a in marked && Edge(h, a, b) :: b in marked
    requires Trail(h, p)
    ensures p[|p| - 1] in marked
    decreases |p|
  {
    if |p| > 1 {
      var q := p[..|p| - 1];
      forall i | 0 <= i < |q| - 1 ensures Edge(h, q[i], q[i + 1]) { assert Edge(h, p[i], p[i + 1]); }
      ClosedHolds(h, marked, q);
      var k := |p| - 2;
      assert Edge(h, p[k], p[k + 1]);
    }
  }

  // ------------------------------------------------------- dropping references

  /** Destroy one resource: an endpoint object goes with its last reference, and its state
      counts one object less. */
  function Drop(h: Heap, r: Resource): Heap {
    if !r.Endpoint? || r.id !in h.handles || r.id !in h.state then h
    else if h.handles[r.id] > 1 then h.(handles := h.handles[r.id := h.handles[r.id] - 1])
    else
      var c := h.state[r.id];
      Heap(h.registry,
           if c in h.channels && h.channels[c].endpoints > 0
           then h.channels[c := h.channels[c].(endpoints := h.channels[c].endpoints - 1)] else h.channels,
           h.state - {r.id}, h.handles - {r.id})
  }

  function DropAll(h: Heap, rs: seq<Resource>): Heap
    decreases |rs|
  {
    if rs == [] then h else DropAll(Drop(h, rs[0]), rs[1..])
  }

  /** Same states, queues, roots and claims; only object counts and references may differ. */
  ghost predicate SameQueues(h: Heap, h': Heap) {
    && h'.registry == h.registry && h'.channels.Keys == h.channels.Keys
    && forall c | c in h.channels :: h'.channels[c] == h.channels[c].(endpoints := h'.channels[c].endpoints)
  }

  lemma {:induction false} SameQueued(chs: map<ChannelId, Channel>, chs': map<ChannelId, Channel>, cs: seq<ChannelId>)
    requires chs'.Keys == chs.Keys
    requires forall c | c in chs && c in cs :: Contents(chs'[c]) == Contents(chs[c])
    ensures Queued(chs', cs) == Queued(chs, cs)
  {
    if cs != [] {
      SameQueued(chs, chs', cs[1..]);
    }
  }

  lemma DropCounts(h: Heap, r: Resource, c: ChannelId)
    requires Linked(h) && c in h.channels
    ensures c in Drop(h, r).channels && Drop(h, r).channels[c].endpoints == |PointingAt(Drop(h, r), c)|
    ensures Drop(h, r).channels[c] == h.channels[c].(endpoints := Drop(h, r).channels[c].endpoints)
  {
    var h' := Drop(h, r);
    if r.Endpoint? && r.id in h.handles && h.handles[r.id] == 1 && h.state[r.id] == c {
      assert r.id in PointingAt(h, c);
      assert PointingAt(h', c) == PointingAt(h, c) - {r.id};
    } else {
      assert PointingAt(h', c) == PointingAt(h, c);
    }
  }

  lemma DropHeld(h: Heap, r: Resource)
    requires h.state.Keys == h.handles.Keys && forall o | o in h.state :: h.handles[o] > 0
    ensures forall o :: Held(Drop(h, r), o) == if r == Endpoint(o) && Held(h, o) > 0 then Held(h, o) - 1 else Held(h, o)
    ensures forall o | o in Drop(h, r).state :: o in h.state && Drop(h, r).state[o] == h.state[o]
    ensures Drop(h, r).state.Keys == Drop(h, r).handles.Keys
    ensures forall o | o in Drop(h, r).state :: Drop(h, r).handles[o] > 0
    ensures Drop(h, r).registry == h.registry && Drop(h, r).channels.Keys == h.channels.Keys
  {
  }

  lemma DropLinked(h: Heap, r: Resource)
    requires Linked(h)
    ensures Linked(Drop(h, r)) && SameQueues(h, Drop(h, r))
    ensures forall o :: Held(Drop(h, r), o) == if r == Endpoint(o) && Held(h, o) > 0 then Held(h, o) - 1 else Held(h, o)
    ensures forall o | o in Drop(h, r).state :: o in h.state && Drop(h, r).state[o] == h.state[o]
  {
    hide PointingAt, Drop, Held;
    DropHeld(h, r);
    forall c | c in h.channels
      ensures c in Drop(h, r).channels && Drop(h, r).channels[c].endpoints == |PointingAt(Drop(h, r), c)|
      ensures Drop(h, r).channels[c] == h.channels[c].(endpoints := Drop(h, r).channels[c].endpoints)
    {
      DropCounts(h, r, c);
    }
  }

  lemma DropTracked(h: Heap, r: Resource, loose: multiset<Resource>)
    requires Linked(h) && Tracked(h, loose + multiset{r})
    ensures Tracked(Drop(h, r), loose)
  {
    DropLinked(h, r);
    var h' := Drop(h, r);
    SameQueued(h.channels, h'.channels, h.registry);
    forall o ensures (Queued(h'.channels, h'.registry) + loose)[Endpoint(o)] <= Held(h', o) {
      assert (Queued(h.channels, h.registry) + (loose + multiset{r}))[Endpoint(o)] <= Held(h, o);
    }
  }

  /** Destroying tracked resources takes exactly their references away, in whatever order. */
  lemma {:induction false} DropAllCounts(h: Heap, rs: seq<Resource>, loose: multiset<Resource>)
    requires Linked(h) && Tracked(h, loose + multiset(rs))
    ensures var h' := DropAll(h, rs);
      && Linked(h') && SameQueues(h, h') && Tracked(h', loose)
      && (forall o :: Held(h', o) == Held(h, o) - multiset(rs)[Endpoint(o)])
      && (forall o | o in h'.state :: o in h.state && h'.state[o] == h.state[o])
    decreases |rs|
  {
    hide Drop, Linked, Queued;
    if rs != [] {
      assert rs == [rs[0]] + rs[1..];
      assert loose + multiset(rs) == (loose + multiset(rs[1..])) + multiset{rs[0]};
      var g := Drop(h, rs[0]);
      DropLinked(h, rs[0]);
      DropTracked(h, rs[0], loose + multiset(rs[1..]));
      DropAllCounts(g, rs[1..], loose);
      forall o ensures Held(DropAll(h, rs), o) == Held(h, o) - multiset(rs)[Endpoint(o)] {
        assert (Queued(h.channels, h.registry) + (loose + multiset(rs)))[Endpoint(o)] <= Held(h, o);
      }
    } else {
      assert loose + multiset(rs) == loose;
    }
  }
}
