/** The channel registry and the collector that runs over it in place. */
module ChannelRegistry {
  import opened ChannelHeap
  import opened Collector

  // --------------------------------------------------------------- list lemmas

  lemma {:induction false} ResourcesAppend(a: seq<Message>, m: Message)
    ensures ResourcesOf(a + [m]) == ResourcesOf(a) + m.resources
  {
    if a == [] {
      assert [m][1..] == [];
    } else {
      assert (a + [m])[1..] == a[1..] + [m];
      ResourcesAppend(a[1..], m);
    }
  }

  lemma {:induction false} DropAllAppend(h: Heap, a: seq<Resource>, b: seq<Resource>)
    ensures DropAll(h, a + b) == DropAll(DropAll(h, a), b)
    decreases |a|
  {
    if a == [] {
      assert a + b == b;
    } else {
      assert (a + b)[0] == a[0] && (a + b)[1..] == a[1..] + b;
      DropAllAppend(Drop(h, a[0]), a[1..], b);
    }
  }

  lemma {:induction false} DiscardAllAppend(h: Heap, cs: seq<ChannelId>, c: ChannelId)
    ensures DiscardAll(h, cs + [c]) == Discard(DiscardAll(h, cs), c)
    decreases |cs|
  {
    if cs == [] {
      assert [c][1..] == [];
      assert DiscardAll(Discard(h, c), []) == Discard(h, c);
    } else {
      assert (cs + [c])[1..] == cs[1..] + [c];
      DiscardAllAppend(Discard(h, cs[0]), cs[1..], c);
    }
  }

  lemma {:induction false} SweepAppend(h: Heap, cs: seq<ChannelId>, c: ChannelId)
    ensures Sweep(h, cs + [c]) == Reap(Sweep(h, cs), c)
    decreases |cs|
  {
    if cs == [] {
      assert [c][1..] == [];
      assert Sweep(Reap(h, c), []) == Reap(h, c);
    } else {
      assert (cs + [c])[1..] == cs[1..] + [c];
      SweepAppend(Reap(h, cs[0]), cs[1..], c);
    }
  }

  lemma {:induction false} UnreachedAppend(h: Heap, cs: seq<ChannelId>, c: ChannelId)
    ensures Unreached(h, cs + [c]) == if Reachable(h, c) then Unreached(h, cs) else Unreached(h, cs) + [c]
  {
    hide Reachable;
    if cs == [] {
      assert [c][1..] == [];
    } else {
      assert (cs + [c])[1..] == cs[1..] + [c];
      UnreachedAppend(h, cs[1..], c);
    }
  }

  ghost function SetOf(cs: seq<ChannelId>): set<ChannelId> {
    set c | c in cs
  }

  /** A list without repetition, drawn from another, is no longer. */
  lemma DistinctFits(work: seq<ChannelId>, states: seq<ChannelId>)
    requires Distinct(work) && forall c | c in work :: c in states
    ensures |work| <= |states|
  {
    DistinctCount(work);
    SetCount(states);
    assert SetOf(states) == SetOf(work) + (SetOf(states) - SetOf(work));
  }

  lemma {:induction false} DistinctCount(cs: seq<ChannelId>)
    requires Distinct(cs)
    ensures |SetOf(cs)| == |cs|
  {
    if cs != [] {
      var rest := cs[1..];
      assert cs == [cs[0]] + rest;
      assert Distinct(rest);
      DistinctCount(rest);
      assert cs[0] !in rest;
      assert SetOf(cs) == SetOf(rest) + {cs[0]};
    }
  }

  lemma {:induction false} SetCount(cs: seq<ChannelId>)
    ensures |SetOf(cs)| <= |cs|
  {
    if cs != [] {
      var rest := cs[1..];
      assert cs == [cs[0]] + rest;
      SetCount(rest);
      assert SetOf(cs) == SetOf(rest) + {cs[0]};
    }
  }

  /** `contains_state`: the first index of a state in a list. */
  method ContainsState(states: seq<ChannelId>, needle: ChannelId) returns (found: bool, index: nat)
    ensures found <==> needle in states
    ensures found ==> index < |states| && states[index] == needle
  {
    index := 0;
    while index < |states|
      invariant 0 <= index <= |states| && needle !in states[..index]
    {
      if states[index] == needle { return true, index; }
      index := index + 1;
    }
    found := false;
  }

  class Registry {
    var registry: seq<ChannelId>
    var channels: map<ChannelId, Channel>
    var state: map<ObjectId, ChannelId>
    var handles: map<ObjectId, nat>

    function View(): Heap
      reads this
    {
      Heap(registry, channels, state, handles)
    }

    /** Destroy a transferred resource and, with its last reference, the endpoint object. */
    method DestroyResource(r: Resource)
      modifies this
      ensures View() == Drop(old(View()), r)
    {
      if r.Endpoint? && r.id in handles && r.id in state {
        if handles[r.id] > 1 {
          handles := handles[r.id := handles[r.id] - 1];
        } else {
          var c := state[r.id];
          if c in channels && channels[c].endpoints > 0 {
            channels := channels[c := channels[c].(endpoints := channels[c].endpoints - 1)];
          }
          state := state - {r.id};
          handles := handles - {r.id};
        }
      }
    }

    method DeleteMessage(m: Message)
      modifies this
      ensures View() == DropAll(old(View()), m.resources)
    {
      var i := 0;
      while i < |m.resources|
        invariant 0 <= i <= |m.resources|
        invariant View() == DropAll(old(View()), m.resources[..i])
      {
        DestroyResource(m.resources[i]);
        DropAllAppend(old(View()), m.resources[..i], [m.resources[i]]);
        assert m.resources[..i + 1] == m.resources[..i] + [m.resources[i]];
        assert DropAll(Drop(DropAll(old(View()), m.resources[..i]), m.resources[i]), [])
            == Drop(DropAll(old(View()), m.resources[..i]), m.resources[i]);
        i := i + 1;
      }
      assert m.resources[..i] == m.resources;
    }

    /** `discard_orphan_messages`: empty both queues under the lock, then delete the messages. */
    method DiscardOrphanMessages(c: ChannelId)
      requires c in channels && !channels[c].left.claimed && !channels[c].right.claimed
      modifies this
      ensures View() == Discard(old(View()), c)
    {
      var discarded: seq<Message> := [];
      ghost var was := channels[c];
      while channels[c].left.messages != []
        invariant c in channels && registry == old(registry) && state == old(state) && handles == old(handles)
        invariant discarded + channels[c].left.messages == was.left.messages
        invariant channels == old(channels)[c := was.(left := was.left.(messages := channels[c].left.messages))]
        decreases |channels[c].left.messages|
      {
        var q := channels[c].left;
        discarded := discarded + [q.messages[0]];
        channels := channels[c := channels[c].(left := q.(messages := q.messages[1..]))];
      }
      assert discarded == was.left.messages;
      while channels[c].right.messages != []
        invariant c in channels && registry == old(registry) && state == old(state) && handles == old(handles)
        invariant discarded + channels[c].right.messages == was.left.messages + was.right.messages
        invariant channels == old(channels)[c := was.(left := was.left.(messages := []),
                                                      right := was.right.(messages := channels[c].right.messages))]
        decreases |channels[c].right.messages|
      {
        var q := channels[c].right;
        discarded := discarded + [q.messages[0]];
        channels := channels[c := channels[c].(right := q.(messages := q.messages[1..]))];
      }
      assert discarded == was.left.messages + was.right.messages;
      assert View() == old(View()).(channels := old(channels)[c := Emptied(was)]);
      DeleteMessages(discarded);
      ResourcesConcat(was.left.messages, was.right.messages);
    }

    method DeleteMessages(ms: seq<Message>)
      modifies this
      ensures View() == DropAll(old(View()), ResourcesOf(ms))
    {
      var i := 0;
      while i < |ms|
        invariant 0 <= i <= |ms|
        invariant View() == DropAll(old(View()), ResourcesOf(ms[..i]))
      {
        DeleteMessage(ms[i]);
        DropAllAppend(old(View()), ResourcesOf(ms[..i]), ms[i].resources);
        ResourcesAppend(ms[..i], ms[i]);
        assert ms[..i + 1] == ms[..i] + [ms[i]];
        i := i + 1;
      }
      assert ms[..i] == ms;
    }

    /** `collect_reachable_states`: the states of the endpoints queued in c. */
    method CollectReachableStates(c: ChannelId) returns (targets: seq<ChannelId>)
      requires c in channels
      ensures forall b :: b in targets <==> Carries(Contents(channels[c]), state, b)
    {
      var found := TargetsOf(channels[c].left.messages);
      var more := TargetsOf(channels[c].right.messages);
      targets := found + more;
    }

    method TargetsOf(ms: seq<Message>) returns (targets: seq<ChannelId>)
      ensures forall b :: b in targets <==> Carries(ResourcesOf(ms), state, b)
    {
      targets := [];
      var i := 0;
      while i < |ms|
        invariant 0 <= i <= |ms|
        invariant forall b :: b in targets <==> Carries(ResourcesOf(ms[..i]), state, b)
      {
        var rs := ms[i].resources;
        var j := 0;
        ghost var before := ResourcesOf(ms[..i]);
        assert before + rs[..0] == before;
        while j < |rs|
          invariant 0 <= j <= |rs|
          invariant forall b :: b in targets <==> Carries(before + rs[..j], state, b)
        {
          assert before + rs[..j + 1] == (before + rs[..j]) + [rs[j]];
          CarriesAppend(before + rs[..j], rs[j], state);
          if rs[j].Endpoint? && rs[j].id in state {
            targets := targets + [state[rs[j].id]];
          }
          j := j + 1;
        }
        assert rs[..j] == rs;
        ResourcesAppend(ms[..i], ms[i]);
        assert ms[..i + 1] == ms[..i] + [ms[i]];
        i := i + 1;
      }
      assert ms[..i] == ms;
    }

    /** Mark the rooted and the busy states. */
    method MarkStarts(states: seq<ChannelId>, marked: array<bool>) returns (work: seq<ChannelId>)
      requires Registered(View()) && states == registry
      requires marked.Length == |states| && forall k | 0 <= k < |states| :: !marked[k]
      modifies marked
      ensures Marks(states, marked[..], work) && AllReachable(View(), work) && StartsIn(View(), work)
    {
      hide Reachable, CanReap;
      work := [];
      var i := 0;
      while i < |states|
        invariant 0 <= i <= |states|
        invariant Marks(states, marked[..], work) && AllReachable(View(), work)
        invariant forall k | i <= k < |states| :: !marked[k]
        invariant forall k | 0 <= k < i :: IsStart(View(), states[k]) ==> states[k] in work
      {
        if HasRoot(channels[states[i]]) || !CanReap(channels[states[i]]) {
          StartReachable(View(), states[i]);
          MarkOne(states, marked[..], work, i);
          marked[i] := true;
          work := work + [states[i]];
        }
        i := i + 1;
      }
    }

    /** Mark what one state's queues lead to. */
    method MarkTargets(states: seq<ChannelId>, marked: array<bool>, work: seq<ChannelId>, a: ChannelId)
      returns (more: seq<ChannelId>)
      requires Registered(View()) && states == registry && marked.Length == |states| && a in work
      requires Marks(states, marked[..], work) && AllReachable(View(), work)
      modifies marked
      ensures Marks(states, marked[..], work + more) && AllReachable(View(), work + more)
      ensures forall b | Edge(View(), a, b) :: b in work + more
    {
      hide Reachable, Edge;
      more := [];
      assert work + more == work;
      var targets := CollectReachableStates(a);
      var j := 0;
      while j < |targets|
        invariant 0 <= j <= |targets| && Marks(states, marked[..], work + more) && AllReachable(View(), work + more)
        invariant forall k | 0 <= k < j :: targets[k] in states ==> targets[k] in work + more
      {
        var found, at := ContainsState(states, targets[j]);
        if found && !marked[at] {
          TargetReachable(View(), a, targets[j]);
          MarkOne(states, marked[..], work + more, at);
          marked[at] := true;
          assert (work + more) + [targets[j]] == work + (more + [targets[j]]);
          more := more + [targets[j]];
        }
        j := j + 1;
      }
      forall b | Edge(View(), a, b) ensures b in work + more {
        EdgeCarried(View(), a, b);
      }
    }

    /** The mark phase: a growing work list over the registry snapshot. */
    method Mark() returns (marked: array<bool>)
      requires Sound(View())
      ensures fresh(marked) && marked.Length == |registry|
      ensures forall i | 0 <= i < |registry| :: marked[i] <==> Reachable(View(), registry[i])
    {
      hide Sound, Reachable, Trail, Edge, IsStart, Registered;
      RegisteredFacts(View());
      var states := registry;
      marked := new bool[|states|](_ => false);
      var work := MarkStarts(states, marked);
      var index := 0;
      while index < |work|
        invariant 0 <= index <= |work| && Marks(states, marked[..], work)
        invariant AllReachable(View(), work) && StartsIn(View(), work)
        invariant forall k, b | 0 <= k < index && Edge(View(), work[k], b) :: b in work
        decreases |states| - index
      {
        WorkFits(states, marked[..], work);
        var more := MarkTargets(states, marked, work, work[index]);
        work := work + more;
        index := index + 1;
      }
      forall k | 0 <= k < |states| ensures marked[k] <==> Reachable(View(), states[k]) {
        if Reachable(View(), states[k]) { ReachableMarked(View(), work, states[k]); }
      }
    }

    /** Drop the messages of every unmarked state. */
    method DiscardUnmarked(states: seq<ChannelId>, marked: array<bool>)
      requires Sound(View()) && states == registry && marked.Length == |states|
      requires forall k | 0 <= k < |states| :: marked[k] <==> Reachable(View(), states[k])
      modifies this
      ensures View() == DiscardAll(old(View()), Unreached(old(View()), states))
    {
      hide Sound, Reachable, Discard, Unreached, DiscardAll;
      ghost var h := View();
      NothingUnreached(h);
      var i := 0;
      while i < |states|
        invariant 0 <= i <= |states|
        invariant View() == DiscardAll(h, Unreached(h, states[..i]))
      {
        PrefixGarbage(h, i);
        if !marked[i] && CanReap(channels[states[i]]) {
          DiscardOrphanMessages(states[i]);
        }
        NextDiscarded(h, i);
        i := i + 1;
      }
      assert states[..i] == states;
    }

    /** Delete every unmarked state no endpoint object points at. */
    method DeleteUnmarked(states: seq<ChannelId>, marked: array<bool>, ghost h: Heap)
      requires Sound(h) && states == h.registry && View() == DiscardAll(h, Unreached(h, states))
      requires marked.Length == |states| && forall k | 0 <= k < |states| :: marked[k] <==> Reachable(h, states[k])
      modifies this
      ensures View() == Sweep(old(View()), Unreached(h, states))
    {
      hide Sound, Reachable, Unreached, DiscardAll, Sweep, Reap;
      ghost var g := View();
      NothingSwept(h, g);
      var i := 0;
      while i < |states|
        invariant 0 <= i <= |states|
        invariant View() == Sweep(g, Unreached(h, states[..i]))
      {
        PrefixSwept(h, g, i);
        if !marked[i] && CanReap(channels[states[i]]) && channels[states[i]].endpoints == 0 {
          Delete(states[i]);
        } else if !marked[i] {
          ReapKeeps(View(), states[i]);
        }
        NextSwept(h, g, i);
        i := i + 1;
      }
      assert states[..i] == states;
    }

    /** `collect_orphaned_channels`: mark, drop the messages of the whole unreachable set, then
        delete the states no object points at. */
    method CollectOrphanedChannels()
      requires Sound(View())
      modifies this
      ensures View() == Collect(old(View()))
    {
      hide Sound, Reachable, Unreached, DiscardAll, Sweep;
      ghost var h := View();
      var states := registry;
      var marked := Mark();
      DiscardUnmarked(states, marked);
      DeleteUnmarked(states, marked, h);
    }

    /** Take a state out of the registry and free it. */
    method Delete(c: ChannelId)
      requires c in channels && channels[c].endpoints == 0
      modifies this
      ensures View() == Reap(old(View()), c)
    {
      var i := 0;
      while i < |registry| && registry[i] != c
        invariant 0 <= i <= |registry| && c !in registry[..i]
      {
        i := i + 1;
      }
      WithoutAt(registry, c, i);
      if i < |registry| {
        registry := registry[..i] + registry[i + 1..];
      }
      channels := channels - {c};
    }
  }

  lemma {:induction false} WithoutAt(reg: seq<ChannelId>, c: ChannelId, i: nat)
    requires i <= |reg| && c !in reg[..i] && (i < |reg| ==> reg[i] == c)
    ensures Without(reg, c) == if i < |reg| then reg[..i] + reg[i + 1..] else reg
  {
    if reg != [] && i > 0 {
      var tail := reg[1..];
      assert reg[0] == reg[..i][0];
      assert tail[..i - 1] == reg[..i][1..];
      WithoutAt(tail, c, i - 1);
      if i < |reg| {
        assert [reg[0]] + (tail[..i - 1] + tail[i..]) == reg[..i] + reg[i + 1..];
      } else {
        assert [reg[0]] + tail == reg;
      }
    }
  }

  // ------------------------------------------------------------ marking lemmas

  /** Some endpoint among the resources belongs to state b. */
  ghost predicate Carries(rs: seq<Resource>, state: map<ObjectId, ChannelId>, b: ChannelId) {
    exists o :: Endpoint(o) in rs && o in state && state[o] == b
  }

  lemma CarriesAppend(rs: seq<Resource>, r: Resource, state: map<ObjectId, ChannelId>)
    ensures forall b :: Carries(rs + [r], state, b)
                        <==> Carries(rs, state, b) || (r.Endpoint? && r.id in state && state[r.id] == b)
  {
    forall b ensures Carries(rs + [r], state, b)
                     <==> Carries(rs, state, b) || (r.Endpoint? && r.id in state && state[r.id] == b) {
      if Carries(rs, state, b) {
        var o :| Endpoint(o) in rs && o in state && state[o] == b;
        assert Endpoint(o) in rs + [r];
      }
      if r.Endpoint? && r.id in state && state[r.id] == b {
        assert Endpoint(r.id) in rs + [r];
      }
    }
  }

  lemma RegisteredFacts(h: Heap)
    requires Sound(h)
    ensures Registered(h)
  {
  }

  /** The work list holds exactly the marked states, each once. */
  ghost predicate Marks(states: seq<ChannelId>, marked: seq<bool>, work: seq<ChannelId>) {
    && |marked| == |states| && Distinct(states) && Distinct(work)
    && (forall c | c in work :: c in states)
    && (forall k | 0 <= k < |states| :: marked[k] <==> states[k] in work)
  }

  ghost predicate AllReachable(h: Heap, work: seq<ChannelId>) {
    forall c | c in work :: Reachable(h, c)
  }

  lemma MarkOne(states: seq<ChannelId>, marked: seq<bool>, work: seq<ChannelId>, i: nat)
    requires Marks(states, marked, work) && i < |states| && !marked[i]
    ensures Marks(states, marked[i := true], work + [states[i]])
  {
  }

  lemma WorkFits(states: seq<ChannelId>, marked: seq<bool>, work: seq<ChannelId>)
    requires Marks(states, marked, work)
    ensures |work| <= |states|
  {
    DistinctFits(work, states);
  }

  lemma TargetReachable(h: Heap, a: ChannelId, b: ChannelId)
    requires Reachable(h, a) && a in h.channels && b in h.channels && Carries(Contents(h.channels[a]), h.state, b)
    ensures Reachable(h, b)
  {
    EdgeReachable(h, a, b);
  }

  lemma EdgeCarried(h: Heap, a: ChannelId, b: ChannelId)
    requires Edge(h, a, b)
    ensures b in h.channels && Carries(Contents(h.channels[a]), h.state, b)
  {
  }

  ghost predicate StartsIn(h: Heap, work: seq<ChannelId>) {
    forall c | c in h.registry && IsStart(h, c) :: c in work
  }

  lemma ReachableMarked(h: Heap, work: seq<ChannelId>, c: ChannelId)
    requires Registered(h) && Reachable(h, c) && StartsIn(h, work)
    requires forall k, b | 0 <= k < |work| && Edge(h, work[k], b) :: b in work
    ensures c in work
  {
    var p :| Trail(h, p) && p[|p| - 1] == c;
    forall a, b | a in SetOf(work) && Edge(h, a, b) ensures b in SetOf(work) {
      var k :| 0 <= k < |work| && work[k] == a;
    }
    ClosedHolds(h, SetOf(work), p);
  }

  // ----------------------------------------------------------- sweeping lemmas

  lemma NothingUnreached(h: Heap)
    ensures DiscardAll(h, Unreached(h, h.registry[..0])) == h
  {
  }

  lemma NothingSwept(h: Heap, g: Heap)
    ensures Sweep(g, Unreached(h, h.registry[..0])) == g
  {
  }

  lemma NextDiscarded(h: Heap, i: nat)
    requires i < |h.registry|
    ensures var g := DiscardAll(h, Unreached(h, h.registry[..i])); var c := h.registry[i];
      DiscardAll(h, Unreached(h, h.registry[..i + 1])) == if Reachable(h, c) then g else Discard(g, c)
  {
    hide Reachable, Discard, DiscardAll, Unreached;
    DiscardAllAppend(h, Unreached(h, h.registry[..i]), h.registry[i]);
    UnreachedAppend(h, h.registry[..i], h.registry[i]);
    assert h.registry[..i + 1] == h.registry[..i] + [h.registry[i]];
  }

  lemma NextSwept(h: Heap, g: Heap, i: nat)
    requires i < |h.registry|
    ensures var r := Sweep(g, Unreached(h, h.registry[..i])); var c := h.registry[i];
      Sweep(g, Unreached(h, h.registry[..i + 1])) == if Reachable(h, c) then r else Reap(r, c)
  {
    hide Reachable, Reap, Sweep, Unreached;
    SweepAppend(g, Unreached(h, h.registry[..i]), h.registry[i]);
    UnreachedAppend(h, h.registry[..i], h.registry[i]);
    assert h.registry[..i + 1] == h.registry[..i] + [h.registry[i]];
  }

  /** Half way through the discards the next state is as it was. */
  lemma PrefixGarbage(h: Heap, i: nat)
    requires Sound(h) && i < |h.registry|
    ensures var g := DiscardAll(h, Unreached(h, h.registry[..i])); var c := h.registry[i];
      && c in g.channels && c in h.channels
      && (!Reachable(h, c) ==> CanReap(g.channels[c]) && !g.channels[c].left.claimed && !g.channels[c].right.claimed)
  {
    var c := h.registry[i];
    UnreachedDistinct(h, h.registry[..i]);
    DiscardAllSound(h, Unreached(h, h.registry[..i]));
    if !Reachable(h, c) {
      if IsStart(h, c) { StartReachable(h, c); }
    }
  }

  lemma PrefixSwept(h: Heap, g: Heap, i: nat)
    requires Sound(h) && i < |h.registry| && g == DiscardAll(h, Unreached(h, h.registry))
    ensures var r := Sweep(g, Unreached(h, h.registry[..i])); var c := h.registry[i];
      && c in r.channels
      && (!Reachable(h, c) ==> CanReap(r.channels[c]))
  {
    hide Reachable;
    var c := h.registry[i];
    var pre := Unreached(h, h.registry[..i]);
    UnreachedDistinct(h, h.registry);
    DiscardAllSound(h, Unreached(h, h.registry));
    SweepSound(g, pre);
    assert c !in h.registry[..i];
    if !Reachable(h, c) {
      UnreachedIdle(h, c);
    }
  }

  lemma ReapKeeps(h: Heap, c: ChannelId)
    requires c in h.channels && h.channels[c].endpoints != 0
    ensures Reap(h, c) == h
  {
  }

  lemma UnreachedIdle(h: Heap, c: ChannelId)
    requires c in h.channels && !Reachable(h, c)
    ensures CanReap(h.channels[c])
  {
    if IsStart(h, c) { StartReachable(h, c); }
  }

  lemma {:induction false} ResourcesConcat(a: seq<Message>, b: seq<Message>)
    ensures ResourcesOf(a + b) == ResourcesOf(a) + ResourcesOf(b)
  {
    if a == [] {
      assert a + b == b;
    } else {
      assert (a + b)[1..] == a[1..] + b;
      ResourcesConcat(a[1..], b);
    }
  }
}
