/** Sends, receives, discards and the life of channels and processes keep the system invariants. */
module IpcTransfers {
  import opened CapabilityTable
  import opened CapabilityLaws
  import opened CapabilityBags
  import opened Channel
  import opened Transfer
  import opened IpcState
  import opened IpcCalls
  import opened Bags

  // ------------------------------------------------------------------------ queues

  lemma {:induction false} MessagesAppend(ms: seq<Message>, m: Message)
    ensures MessagesBag(ms + [m]) == MessagesBag(ms) + ResourceBag(m.resources)
  {
    if ms == [] {
      assert [] + [m] == [m];
    } else {
      MessagesAppend(ms[1..], m);
      assert (ms + [m])[1..] == ms[1..] + [m];
    }
  }

  /** How a queue's totals show in its channel's. */
  lemma SetQueueIs(ch: Chan, side: nat, q: Queue)
    ensures var u := SetQueue(ch, side, q); var old0 := QueueOf(ch, side);
      && u.limits == ch.limits && QueueOf(u, side) == q && QueueOf(u, Other(side)) == QueueOf(ch, Other(side))
      && ChanMessages(u) + |old0.items| == ChanMessages(ch) + |q.items|
      && ChanBytes(u) + old0.bytes == ChanBytes(ch) + q.bytes
      && ChanResources(u) + old0.resources == ChanResources(ch) + q.resources
      && ChanBag(u) + MessagesBag(old0.items) == ChanBag(ch) + MessagesBag(q.items)
      && (ChanOk(ch) && QueueOk(q, ch.limits) && !q.claimed ==> ChanOk(u))
      && SetQueue(ch, side, old0) == ch
  {
  }

  lemma ChanQueue(s: System, c: ChannelId, side: nat)
    requires Inv(s) && c in s.channels
    ensures QueueOk(QueueOf(s.channels[c], side), s.channels[c].limits) && !QueueOf(s.channels[c], side).claimed
    ensures Covers(s.budget, QueueOf(s.channels[c], side)) && ChanOk(s.channels[c])
  {
    ChanCovered(s, c);
  }

  lemma InvBudget(s: System)
    requires Inv(s)
    ensures BudgetOk(s) && Bounded(s.budget)
  {
  }

  lemma ReplaceSame(s: System, p: Process, c: ChannelId)
    requires p in s.tables && c in s.channels
    ensures Replace(s, p, s.tables[p], c, s.channels[c], s.budget) == s
  {
    assert s.tables[p := s.tables[p]] == s.tables && s.channels[c := s.channels[c]] == s.channels;
  }

  // -------------------------------------------------------------------------- send

  /** The queued message carries what was taken: the same raw endpoints, with no more authority. */
  lemma SentWorld(t: Table, u: Table, ch: Chan, side: nat, q: Queue, payload: seq<Byte>, rs: seq<Record>)
    requires DistinctSources(rs) && (forall r | r in rs :: Faithful(t, r)) && u.entries == t.entries - MovedSources(rs)
    requires q.items == QueueOf(ch, side).items + [Message(payload, Resources(rs))]
    ensures RawAtMost(TableBag(u) + ChanBag(SetQueue(ch, side, q)), TableBag(t) + ChanBag(ch))
    ensures RawAtMost(TableBag(t) + ChanBag(ch), TableBag(u) + ChanBag(SetQueue(ch, side, q)))
    ensures WorldDerived(u, SetQueue(ch, side, q), t, ch)
  {
    var v := SetQueue(ch, side, q);
    assert RawAtMost(TableBag(u) + ChanBag(v), TableBag(t) + ChanBag(ch))
           && RawAtMost(TableBag(t) + ChanBag(ch), TableBag(u) + ChanBag(v)) by {
      DetachBag(t.entries, rs);
      CarriedBag(rs);
      CopiesAreShared(t, rs);
      MessagesAppend(QueueOf(ch, side).items, Message(payload, Resources(rs)));
      SetQueueIs(ch, side, q);
      SentBags(TableBag(t), TableBag(u), ChanBag(ch), ChanBag(v), MessagesBag(QueueOf(ch, side).items), MovedBag(rs), CopiedBag(rs));
    }
    forall r | InTable(u, r) || InChan(v, r)
      ensures exists r0 :: (InTable(t, r0) || InChan(ch, r0)) && AtMost(r, r0)
    {
      if InTable(u, r) {
        var h :| h in u.entries && Holding(u.entries[h], r);
        assert h in t.entries && Holding(t.entries[h], r);
        assert InTable(t, r) && AtMost(r, r);
      } else {
        SentCap(t, ch, side, q, payload, rs, r);
      }
    }
  }

  lemma SentBags(t: multiset<Object>, u: multiset<Object>, ch: multiset<Object>, v: multiset<Object>, q: multiset<Object>,
                 moved: multiset<Object>, copied: multiset<Object>)
    requires t == u + moved && v + q == ch + (q + (moved + copied)) && NoRaw(copied)
    ensures RawAtMost(u + v, t + ch) && RawAtMost(t + ch, u + v)
  {
    forall o: Object | o.RawEndpoint? ensures (u + v)[o] == (t + ch)[o] {
      assert (v + q)[o] == (ch + (q + (moved + copied)))[o];
    }
  }

  lemma SentCap(t: Table, ch: Chan, side: nat, q: Queue, payload: seq<Byte>, rs: seq<Record>, r: Resource)
    requires forall r | r in rs :: Faithful(t, r)
    requires q.items == QueueOf(ch, side).items + [Message(payload, Resources(rs))]
    requires InChan(SetQueue(ch, side, q), r)
    ensures exists r0 :: (InTable(t, r0) || InChan(ch, r0)) && AtMost(r, r0)
  {
    if InChan(ch, r) {
      assert AtMost(r, r);
    } else {
      var m :| m in q.items && r in m.resources;
      assert m in QueueOf(ch, side).items ==> InQueue(QueueOf(ch, side), r);
      assert m == Message(payload, Resources(rs));
      var i :| 0 <= i < |rs| && Resources(rs)[i] == r;
      assert rs[i] in rs && Faithful(t, rs[i]);
      var r0 := Resource(r.obj, t.entries[rs[i].source].meta);
      assert Holding(t.entries[rs[i].source], r0);
      assert InTable(t, r0) && AtMost(r, r0);
    }
  }

  /** A send that is refused for its size takes capabilities away and adds none. */
  lemma LostWorld(t: Table, u: Table, ch: Chan, moved: set<Handle>)
    requires TableOk(t) && moved <= t.entries.Keys && u == t.(entries := t.entries - moved)
    ensures TableOk(u) && RawAtMost(TableBag(u) + ChanBag(ch), TableBag(t) + ChanBag(ch)) && WorldDerived(u, ch, t, ch)
  {
    TableLost(t);
    LostValid(t, {}, t.count - |t.entries|, moved);
    OkFrom(u, t.count - |t.entries| + |moved|);
    SubBag(t.entries, moved);
    forall r | InTable(u, r) || InChan(ch, r) ensures (InTable(t, r) || InChan(ch, r)) && AtMost(r, r) {
      if InTable(u, r) {
        var h :| h in u.entries && Holding(u.entries[h], r);
        assert h in t.entries && Holding(t.entries[h], r);
      }
    }
  }

  lemma {:induction false} SubBag(m: map<Handle, Entry>, gone: set<Handle>)
    ensures RawAtMost(EntriesBag(m - gone), EntriesBag(m))
    decreases |gone|
  {
    hide EntriesBag;
    if gone == {} {
      assert m - gone == m;
    } else {
      var h :| h in gone;
      var more := m - (gone - {h});
      SubBag(m, gone - {h});
      if h in m {
        RemoveBag(more, h);
        assert more - {h} == m - gone;
        assert EntriesBag(more) == EntryBag(more[h]) + EntriesBag(m - gone);
      } else {
        assert more == m - gone;
      }
    }
  }

  lemma ReplaceConserves(s: System, p: Process, t: Table, c: ChannelId, ch: Chan, b: Budget)
    requires p in s.tables && c in s.channels
    requires RawAtMost(TableBag(t) + ChanBag(ch), TableBag(s.tables[p]) + ChanBag(s.channels[c]))
    requires RawAtMost(TableBag(s.tables[p]) + ChanBag(s.channels[c]), TableBag(t) + ChanBag(ch))
    ensures RawSame(Holders(Replace(s, p, t, c, ch, b)), Holders(s))
  {
    hide TableBag, ChanBag;
    var u := Replace(s, p, t, c, ch, b);
    ReplaceHolders(s, p, t, c, ch, b);
    ReplaceHolders(u, p, s.tables[p], c, s.channels[c], s.budget);
    assert u.tables[p := s.tables[p]] == s.tables && u.channels[c := s.channels[c]] == s.channels;
  }

  /** Every raw endpoint has exactly as many holders in a as in b. */
  ghost predicate RawSame(a: multiset<Object>, b: multiset<Object>) {
    forall o: Object | o.RawEndpoint? :: a[o] == b[o]
  }

  lemma SendKeeps(s: System, p: Process, h: Handle, o: Object, payload: seq<Byte>, ds: seq<Disposition>)
    requires Inv(s) && p in s.tables && o.RawEndpoint? && o.channel in s.channels
    ensures Kept(SendCall(s, p, h, o, payload, ds), s, [])
    ensures Fits(s.channels[o.channel].limits, |payload|, |ds|) ==> RawSame(Holders(SendCall(s, p, h, o, payload, ds)), Holders(s))
  {
    hide Inv, Kept, Valid, TableOk, QueueOk, ChanOk, BudgetOk, SendRaw, Acceptable, Records, MovedHandles, Covers,
         WorldDerived, RawAtMost, Holders, TableBag, ChanBag, SetQueue, QueueOf, Owners;
    var c, t, ch, other := o.channel, s.tables[p], s.channels[o.channel], Other(o.side);
    var open := Owners(s, c, other) > 0;
    var w := World(t, QueueOf(ch, other), s.budget);
    var (status, u) := SendRaw(w, ch.limits, open, h, payload, ds);
    var lost := t.count - |t.entries|;
    InvTable(s, p);
    TableLost(t);
    ChanQueue(s, c, other);
    InvBudget(s);
    SetQueueIs(ch, other, u.queue);
    if Fits(ch.limits, |payload|, |ds|) {
      SendAllOrNothing(w, ch.limits, open, h, payload, ds, {}, lost);
      if status == OK {
        SentTable(t, u.table, ds, h);
        OkFrom(u.table, lost);
        var rs := Records(t, ds, h);
        SentWorld(t, u.table, ch, other, u.queue, payload, rs);
        SentTotals(w, u, ch.limits);
        ReplaceBudget(s, p, u.table, c, SetQueue(ch, other, u.queue), u.budget);
        WorldOp(s, p, u.table, c, SetQueue(ch, other, u.queue), u.budget);
        ReplaceConserves(s, p, u.table, c, SetQueue(ch, other, u.queue), u.budget);
      } else {
        ReplaceSame(s, p, c);
        SetQueueIs(ch, other, w.queue);
        Same(s);
      }
    } else if InFrame(payload, ds) && Acceptable(t, ds, h) {
      UnfitSend(w, ch.limits, open, h, payload, ds);
      MovedAreEntries(t, ds, h);
      LostWorld(t, u.table, ch, MovedHandles(ds));
      SetQueueIs(ch, other, w.queue);
      ReplaceBudget(s, p, u.table, c, ch, s.budget);
      WorldOp(s, p, u.table, c, ch, s.budget);
    } else {
      RefusedSend(w, ch.limits, open, h, payload, ds);
      ReplaceSame(s, p, c);
      SetQueueIs(ch, other, w.queue);
      Same(s);
    }
  }

  lemma RefusedSend(w: World, l: Limits, open: bool, h: Handle, payload: seq<Byte>, ds: seq<Disposition>)
    requires !(InFrame(payload, ds) && Acceptable(w.table, ds, h))
    ensures SendRaw(w, l, open, h, payload, ds).1 == w
  {
  }

  lemma SentTable(t: Table, u: Table, ds: seq<Disposition>, h: Handle)
    requires Acceptable(t, ds, h) && u.entries == t.entries - MovedHandles(ds)
    ensures var rs := Records(t, ds, h);
      && DistinctSources(rs) && (forall r | r in rs :: Faithful(t, r)) && u.entries == t.entries - MovedSources(rs)
  {
    TakeShape(t, ds, h);
  }

  lemma SentTotals(w: World, u: World, l: Limits)
    requires QueueOk(w.queue, l) && QueueOk(u.queue, l) && |u.queue.items| == |w.queue.items| + 1
    requires u.queue.items[..|w.queue.items|] == w.queue.items
    ensures var m := u.queue.items[|w.queue.items|];
      u.queue.bytes == w.queue.bytes + |m.payload| && u.queue.resources == w.queue.resources + |m.resources|
  {
    var m := u.queue.items[|w.queue.items|];
    SumAppend(w.queue.items, m);
    assert u.queue.items == w.queue.items + [m];
  }

  // ----------------------------------------------------------------------- receive

  lemma ReceivedWorld(t: Table, u: Table, ch: Chan, side: nat, q: Queue, m: Message)
    requires u.entries == FillOnto(t.entries, t.next, m.resources) && QueueOf(ch, side).items == [m] + q.items
    requires forall h | t.next <= h < t.next + |m.resources| :: h !in t.entries
    ensures RawAtMost(TableBag(u) + ChanBag(SetQueue(ch, side, q)), TableBag(t) + ChanBag(ch))
    ensures RawAtMost(TableBag(t) + ChanBag(ch), TableBag(u) + ChanBag(SetQueue(ch, side, q)))
    ensures WorldDerived(u, SetQueue(ch, side, q), t, ch)
  {
    var v := SetQueue(ch, side, q);
    var items := QueueOf(ch, side).items;
    assert RawAtMost(TableBag(u) + ChanBag(v), TableBag(t) + ChanBag(ch))
           && RawAtMost(TableBag(t) + ChanBag(ch), TableBag(u) + ChanBag(v)) by {
      FillBag(t.entries, t.next, m.resources);
      SetQueueIs(ch, side, q);
      assert items[1..] == q.items && items[0] == m;
      ReceivedBags(TableBag(t), TableBag(u), ChanBag(ch), ChanBag(v), MessagesBag(q.items), ResourceBag(m.resources));
    }
    FilledTable(t, u, m.resources);
    forall r | InTable(u, r) || InChan(v, r)
      ensures exists r0 :: (InTable(t, r0) || InChan(ch, r0)) && AtMost(r, r0)
    {
      if InTable(u, r) {
        var r0 :| (InTable(t, r0) || r0 in m.resources) && AtMost(r, r0);
        assert m in items;
        assert r0 in m.resources ==> InQueue(QueueOf(ch, side), r0);
      } else {
        assert forall n | n in q.items :: n in items;
        assert InChan(ch, r) && AtMost(r, r);
      }
    }
  }

  lemma ReceivedBags(t: multiset<Object>, u: multiset<Object>, ch: multiset<Object>, v: multiset<Object>, q: multiset<Object>,
                     m: multiset<Object>)
    requires u == t + m && v + (m + q) == ch + q
    ensures RawAtMost(u + v, t + ch) && RawAtMost(t + ch, u + v)
  {
    forall o: Object | o.RawEndpoint? ensures (u + v)[o] == (t + ch)[o] {
      assert (v + (m + q))[o] == (ch + q)[o];
    }
  }

  lemma ReceiveKeeps(s: System, p: Process, o: Object, f: Frame)
    requires Inv(s) && p in s.tables && o.RawEndpoint? && o.channel in s.channels
    ensures Kept(ReceiveCall(s, p, o, f), s, [])
    ensures RawSame(Holders(ReceiveCall(s, p, o, f)), Holders(s))
  {
    hide Inv, Kept, Valid, TableOk, QueueOk, ChanOk, BudgetOk, ReceiveInto, Covers, WorldDerived, RawAtMost, Holders,
         TableBag, ChanBag, SetQueue, QueueOf, Owners, Filled;
    var c, t, ch := o.channel, s.tables[p], s.channels[o.channel];
    var open := Owners(s, c, Other(o.side)) > 0;
    var w := World(t, QueueOf(ch, o.side), s.budget);
    var lost := t.count - |t.entries|;
    InvTable(s, p);
    TableLost(t);
    ChanQueue(s, c, o.side);
    InvBudget(s);
    var r := ReceiveInto(w, open, f);
    var u := r.world;
    if f.bytes > MAX_MESSAGE_BYTES || f.resources > MAX_TRANSFER {
      SetQueueIs(ch, o.side, w.queue);
      ReplaceSame(s, p, c);
      Same(s);
    } else {
      ReceiveAllOrNothing(w, ch.limits, open, f, {}, lost);
      OkFrom(u.table, lost);
      SetQueueIs(ch, o.side, u.queue);
      if r.status == OK {
        var m := w.queue.items[0];
        ReceivedTable(w, open, f, t, lost, m.resources);
        ReceivedWorld(t, u.table, ch, o.side, u.queue, m);
        PoppedTotals(w, u, ch.limits);
        ReplaceBudget(s, p, u.table, c, SetQueue(ch, o.side, u.queue), u.budget);
        WorldOp(s, p, u.table, c, SetQueue(ch, o.side, u.queue), u.budget);
        ReplaceConserves(s, p, u.table, c, SetQueue(ch, o.side, u.queue), u.budget);
      } else {
        SameEntries(t, u.table, ch);
        ReplaceBudget(s, p, u.table, c, ch, s.budget);
        WorldOp(s, p, u.table, c, ch, s.budget);
        ReplaceConserves(s, p, u.table, c, ch, s.budget);
      }
    }
  }

  lemma SameEntries(t: Table, u: Table, ch: Chan)
    requires u.entries == t.entries
    ensures RawAtMost(TableBag(u) + ChanBag(ch), TableBag(t) + ChanBag(ch)) && WorldDerived(u, ch, t, ch)
    ensures RawAtMost(TableBag(t) + ChanBag(ch), TableBag(u) + ChanBag(ch))
  {
    forall r | InTable(u, r) || InChan(ch, r) ensures (InTable(t, r) || InChan(ch, r)) && AtMost(r, r) {}
  }

  lemma ReceivedTable(w: World, open: bool, f: Frame, t: Table, lost: nat, rs: seq<Resource>)
    requires Valid(t, {}, lost) && w.table == t && ReceiveInto(w, open, f).status == OK
    requires w.queue.items != [] && w.queue.items[0].resources == rs
    ensures Filled(t, rs).entries == FillOnto(t.entries, t.next, rs)
    ensures forall h | t.next <= h < t.next + |rs| :: h !in t.entries
  {
    hide Valid, ReserveEach, ActivateAll, Rollback;
    ReserveIsAtomic(t, {}, lost, |rs|);
    var hs := Reserve(t, |rs|).1;
    forall h | t.next <= h < t.next + |rs| ensures h !in t.entries { assert hs[h - t.next] == h; }
  }

  lemma PoppedTotals(w: World, u: World, l: Limits)
    requires QueueOk(w.queue, l) && QueueOk(u.queue, l) && w.queue.items != [] && u.queue.items == w.queue.items[1..]
    ensures var m := w.queue.items[0];
      w.queue.bytes == u.queue.bytes + |m.payload| && w.queue.resources == u.queue.resources + |m.resources|
  {
  }

  // -------------------------------------------------- one channel without a table

  lemma ChannelBudget(s: System, c: ChannelId, ch: Chan, b: Budget)
    requires BudgetOk(s) && c in s.channels && Bounded(b)
    requires b.messages + ChanMessages(s.channels[c]) == s.budget.messages + ChanMessages(ch)
    requires b.bytes + ChanBytes(s.channels[c]) == s.budget.bytes + ChanBytes(ch)
    requires b.resources + ChanResources(s.channels[c]) == s.budget.resources + ChanResources(ch)
    ensures BudgetOk(SetChannel(s, c, ch, b))
  {
    ReplaceBudget(s, 0, EMPTY, c, ch, b);
    assert SetChannel(s, c, ch, b).channels == Replace(s, 0, EMPTY, c, ch, b).channels;
  }

  lemma ChannelOp(s: System, c: ChannelId, ch: Chan, b: Budget)
    requires Inv(s) && c in s.channels && ChanOk(ch) && BudgetOk(SetChannel(s, c, ch, b))
    requires RawAtMost(ChanBag(ch), ChanBag(s.channels[c]))
    requires forall r | InChan(ch, r) :: InChan(s.channels[c], r)
    ensures Kept(SetChannel(s, c, ch, b), s, [])
  {
    hide TableOk, ChanOk, Linear, RawBound, Holders, BudgetOk, RawAtMost;
    var u := SetChannel(s, c, ch, b);
    ChanHolders(s, c, ch, b);
    forall r | InSystem(u, r) ensures InSystem(s, r) {
      if InChan(ch, r) { assert InChan(s.channels[c], r); }
    }
    FewerDerived(u, s);
    RawKept(u, s, []);
  }

  /** Dropping queued messages keeps everything. */
  lemma ShorterQueue(ch: Chan, side: nat, q: Queue, n: nat)
    requires n <= |QueueOf(ch, side).items| && q.items == QueueOf(ch, side).items[n..]
    ensures RawAtMost(ChanBag(SetQueue(ch, side, q)), ChanBag(ch))
    ensures forall r | InChan(SetQueue(ch, side, q), r) :: InChan(ch, r)
  {
    SetQueueIs(ch, side, q);
    TailBag(QueueOf(ch, side).items, n);
    ShorterBags(ChanBag(ch), ChanBag(SetQueue(ch, side, q)), MessagesBag(QueueOf(ch, side).items), MessagesBag(q.items));
    assert forall m | m in q.items :: m in QueueOf(ch, side).items;
  }

  lemma ShorterBags(ch: multiset<Object>, v: multiset<Object>, old0: multiset<Object>, q: multiset<Object>)
    requires v + old0 == ch + q && q <= old0
    ensures RawAtMost(v, ch)
  {
    forall o: Object | o.RawEndpoint? ensures v[o] <= ch[o] { assert (v + old0)[o] == (ch + q)[o]; }
  }

  lemma {:induction false} TailBag(ms: seq<Message>, n: nat)
    requires n <= |ms|
    ensures MessagesBag(ms[n..]) <= MessagesBag(ms)
    decreases n
  {
    if n == 0 {
      assert ms[0..] == ms;
    } else {
      TailBag(ms[1..], n - 1);
      assert ms[n..] == ms[1..][n - 1..];
    }
  }

  lemma DiscardKeeps(s: System, o: Object)
    requires Inv(s) && o.RawEndpoint? && o.channel in s.channels
    ensures Kept(DiscardCall(s, o), s, [])
  {
    hide Inv, Kept, QueueOk, ChanOk, BudgetOk, RawAtMost, Holders, ChanBag, SetQueue, QueueOf, InChan, Popped;
    var c, ch := o.channel, s.channels[o.channel];
    var q := QueueOf(ch, o.side);
    ChanQueue(s, c, o.side);
    InvBudget(s);
    if q.items == [] {
      SetQueueIs(ch, o.side, q);
      SameChannel(s, c);
      Same(s);
    } else {
      PopKeeps(q, ch.limits, s.budget);
      var b := ReleaseGlobal(s.budget, |q.items[0].payload|, |q.items[0].resources|);
      PoppedIs(q);
      SetQueueIs(ch, o.side, Popped(q));
      ShorterQueue(ch, o.side, Popped(q), 1);
      ChannelBudget(s, c, SetQueue(ch, o.side, Popped(q)), b);
      ChannelOp(s, c, SetQueue(ch, o.side, Popped(q)), b);
    }
  }

  lemma PoppedIs(q: Queue)
    requires q.items != []
    ensures Popped(q).items == q.items[1..] && !Popped(q).claimed
  {
  }

  lemma SameChannel(s: System, c: ChannelId)
    requires c in s.channels
    ensures SetChannel(s, c, s.channels[c], s.budget) == s
  {
    assert s.channels[c := s.channels[c]] == s.channels;
  }

  lemma KernelSendKeeps(s: System, c: ChannelId, sender: nat, payload: seq<Byte>, cap: nat)
    requires Inv(s) && c in s.channels
    ensures Kept(KernelSendCall(s, c, sender, payload, cap), s, [])
  {
    hide Inv, Kept, QueueOk, ChanOk, BudgetOk, RawAtMost, Holders, ChanBag, SetQueue, QueueOf, InChan, Push, Owners;
    var ch, other := s.channels[c], Other(sender);
    var q, open, m := QueueOf(ch, other), Owners(s, c, other) > 0, Message(payload, []);
    ChanQueue(s, c, other);
    InvBudget(s);
    if sender > 1 || |payload| > ch.limits.bytes {
      Same(s);
    } else {
      PushKeeps(q, ch.limits, s.budget, open, cap, m);
      var (status, q', b) := Push(q, ch.limits, s.budget, open, cap, m);
      SetQueueIs(ch, other, q');
      if status == OK {
        SentTotals(World(EMPTY, q, s.budget), World(EMPTY, q', b), ch.limits);
        KernelMessage(ch, other, q', m);
        ChannelBudget(s, c, SetQueue(ch, other, q'), b);
        ChannelOp(s, c, SetQueue(ch, other, q'), b);
      } else {
        SameChannel(s, c);
        Same(s);
      }
    }
  }

  lemma KernelMessage(ch: Chan, side: nat, q: Queue, m: Message)
    requires q.items == QueueOf(ch, side).items + [m] && m.resources == []
    ensures RawAtMost(ChanBag(SetQueue(ch, side, q)), ChanBag(ch))
    ensures forall r | InChan(SetQueue(ch, side, q), r) :: InChan(ch, r)
  {
    SetQueueIs(ch, side, q);
    MessagesAppend(QueueOf(ch, side).items, m);
    var items := QueueOf(ch, side).items;
    ShorterBags(ChanBag(ch), ChanBag(SetQueue(ch, side, q)), MessagesBag(items), MessagesBag(q.items));
    assert forall n | n in q.items :: n in items || n == m;
  }

  /** The collector empties both queues of a channel and gives their budget back. */
  lemma EmptiedIs(s: System, c: ChannelId)
    requires Inv(s) && c in s.channels
    ensures var ch := s.channels[c];
      && ChanMessages(ch) <= s.budget.messages && ChanBytes(ch) <= s.budget.bytes && ChanResources(ch) <= s.budget.resources
      && Emptied(s, c) == SetChannel(s, c, ch.(queue0 := NO_QUEUE, queue1 := NO_QUEUE),
           Budget(s.budget.messages - ChanMessages(ch), s.budget.bytes - ChanBytes(ch), s.budget.resources - ChanResources(ch)))
  {
    hide Drain, QueueOk;
    var ch := s.channels[c];
    ChanQueue(s, c, 0);
    ChanQueue(s, c, 1);
    ChanCovered(s, c);
    DrainKeeps(ch.queue0, ch.limits, s.budget);
    DrainKeeps(ch.queue1, ch.limits, Drain(ch.queue0, s.budget).1);
  }

  lemma EmptiedKeeps(s: System, c: ChannelId)
    requires Inv(s) && c in s.channels
    ensures Kept(Emptied(s, c), s, [])
  {
    hide Inv, Kept, BudgetOk, RawAtMost, Holders, Emptied;
    var ch := s.channels[c];
    var v := ch.(queue0 := NO_QUEUE, queue1 := NO_QUEUE);
    EmptiedIs(s, c);
    InvBudget(s);
    var b := Budget(s.budget.messages - ChanMessages(ch), s.budget.bytes - ChanBytes(ch), s.budget.resources - ChanResources(ch));
    ChannelBudget(s, c, v, b);
    EmptyBag(v, ch);
    ChannelOp(s, c, v, b);
  }

  lemma EmptyBag(v: Chan, ch: Chan)
    requires v.queue0 == NO_QUEUE && v.queue1 == NO_QUEUE
    ensures RawAtMost(ChanBag(v), ChanBag(ch))
  {
  }
}
