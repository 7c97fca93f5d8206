/** Safety of the capability system over every run of system calls. */
module IpcRuns {
  import opened Options
  import opened CapabilityTable
  import opened CapabilityLaws
  import opened CapabilityBags
  import opened Channel
  import opened Transfer
  import opened IpcState
  import opened IpcCalls
  import opened IpcTransfers
  import opened Bags

  // ------------------------------------------------------------ processes come and go

  lemma EmptyTable()
    ensures TableOk(EMPTY) && NoRaw(TableBag(EMPTY)) && forall r :: !InTable(EMPTY, r)
  {
  }

  /** A new process whose capabilities are all some existing process's, none of them a raw endpoint. */
  lemma NewTable(s: System, p: Process, t: Table)
    requires Inv(s) && p !in s.tables && TableOk(t) && NoRaw(TableBag(t))
    requires forall r | InTable(t, r) :: InSystem(s, r)
    ensures Kept(SetTable(s, p, t), s, [])
  {
    hide TableOk, Linear, RawBound, Holders, RawAtMost;
    var u := SetTable(s, p, t);
    NewTableHolders(s, p, t);
    forall r | InSystem(u, r) ensures InSystem(s, r) {
      if InTable(t, r) { assert InSystem(s, r); }
    }
    FewerDerived(u, s);
    RawKept(u, s, []);
  }

  lemma ForkKeeps(s: System, p: Process, child: Process)
    requires Inv(s) && p in s.tables && child !in s.tables
    ensures Kept(SetTable(s, child, CloneFork(EMPTY, s.tables[p]).1), s, [])
  {
    hide Valid, TableOk, Inherited, Linear, BudgetOk, CloneFork;
    var t := s.tables[p];
    InvTable(s, p);
    TableLost(t);
    forall h | h in t.entries && t.entries[h].obj.Some? && t.entries[h].obj.value.RawEndpoint?
      ensures t.entries[h].meta.binding == BINDING_RAW
    {
      var r := Resource(t.entries[h].obj.value, t.entries[h].meta);
      assert Holding(t.entries[h], r) && InTable(t, r) && InSystem(s, r);
    }
    ForkIsSafe(t, {}, t.count - |t.entries|);
    var u := CloneFork(EMPTY, t).1;
    OkFrom(u, 0);
    InheritedIs(t, {}, t.count - |t.entries|);
    NoRawEntries(u.entries);
    forall r | InTable(u, r) ensures InSystem(s, r) {
      var h :| h in u.entries && Holding(u.entries[h], r);
      assert h in t.entries && Holding(t.entries[h], r);
      assert InTable(t, r);
    }
    NewTable(s, child, u);
  }

  lemma ExitKeeps(s: System, p: Process)
    requires Inv(s)
    ensures Kept(s.(tables := s.tables - {p}), s, [])
  {
    hide TableOk, Linear, RawBound, Holders, RawAtMost;
    var u := s.(tables := s.tables - {p});
    if p in s.tables {
      LessTableHolders(s, p);
      forall r | InSystem(u, r) ensures InSystem(s, r) {}
      FewerDerived(u, s);
      RawKept(u, s, []);
    } else {
      assert u == s;
      Same(s);
    }
  }

  // ----------------------------------------------------------------- channel creation

  lemma CreatedTable(t: Table, c: ChannelId, written: bool)
    requires TableOk(t) && Reserve(t, 2).0 == OK
    ensures |Reserve(t, 2).1| == 2
    ensures var f := Filled(t, Ends(c)); var hs := Reserve(t, 2).1;
      var u := if written then f else Close(Close(f, hs[0]).1, hs[1]).1;
      TableOk(u) && NoMoreThan(u, t, Ends(c)) && RawAtMost(TableBag(u), TableBag(t) + ResourceBag(Ends(c)))
  {
    hide Valid, TableOk, Reserve, FillOnto, Close, NoMoreThan;
    TableLost(t);
    var lost, rs := t.count - |t.entries|, Ends(c);
    assert |rs| == 2;
    ReserveIsAtomic(t, {}, lost, 2);
    var hs := Reserve(t, 2).1;
    FilledValid(t, {}, lost, rs);
    var f := Filled(t, rs);
    OkFrom(f, lost);
    forall h | t.next <= h < t.next + |rs| ensures h !in t.entries { assert hs[h - t.next] == h; }
    FillBag(t.entries, t.next, rs);
    FilledTable(t, f, rs);
    if !written {
      CloseTable(f, hs[0]);
      var g := Close(f, hs[0]).1;
      CloseTable(g, hs[1]);
      Chained(Close(g, hs[1]).1, g, f, []);
      Chained(Close(g, hs[1]).1, f, t, rs);
    }
  }

  lemma Chained(a: Table, b: Table, t: Table, also: seq<Resource>)
    requires NoMoreThan(a, b, []) && NoMoreThan(b, t, also)
    ensures NoMoreThan(a, t, also)
  {
    forall r | InTable(a, r) ensures exists r0 :: (InTable(t, r0) || r0 in also) && AtMost(r, r0) {
      var r1 :| (InTable(b, r1) || r1 in []) && AtMost(r, r1);
      assert InTable(b, r1);
      var r0 :| (InTable(t, r0) || r0 in also) && AtMost(r1, r0);
      WeakerTransitive(r, r1, r0);
    }
  }

  lemma NewChannelBudget(s: System, p: Process, t: Table, c: ChannelId, l: Limits)
    requires BudgetOk(s) && c !in s.channels
    ensures BudgetOk(WithChannel(s, p, t, c, l))
  {
    var ch := Chan(NO_QUEUE, NO_QUEUE, l, 0, 0);
    SumFresh(s.channels, ChanMessages, c, ch);
    SumFresh(s.channels, ChanBytes, c, ch);
    SumFresh(s.channels, ChanResources, c, ch);
  }

  lemma NewChannelHolders(s: System, p: Process, t: Table, c: ChannelId, l: Limits, more: multiset<Object>)
    requires p in s.tables && c !in s.channels && RawAtMost(TableBag(t), TableBag(s.tables[p]) + more)
    ensures RawAtMost(Holders(WithChannel(s, p, t, c, l)), Holders(s) + more)
  {
    BagSplit(s.tables, TableBag, p);
    BagUpdate(s.tables, TableBag, p, t);
    BagFresh(s.channels, ChanBag, c, Chan(NO_QUEUE, NO_QUEUE, l, 0, 0));
  }

  /** Both ends of a new channel have one holder at most: nothing can hold an end of a channel that does not exist. */
  lemma NewChannelLinear(s: System, u: System, c: ChannelId)
    requires Linear(s) && c !in s.channels && u.channels.Keys == s.channels.Keys + {c}
    requires RawAtMost(Holders(u), Holders(s) + ResourceBag(Ends(c)))
    ensures Linear(u)
  {
    var e0, e1 := RawEndpoint(c, 0), RawEndpoint(c, 1);
    EndsBag(c);
    assert e0 !in Holders(s) && e1 !in Holders(s);
    forall o: Object | o.RawEndpoint? ensures Holders(u)[o] <= 1 {
      assert Holders(s)[o] <= 1 && (o.channel == c ==> o !in Holders(s));
    }
    forall o: Object | o.RawEndpoint? && o in Holders(u) ensures o.channel in u.channels && o.side <= 1 {
      assert o in Holders(s) || o == e0 || o == e1;
    }
  }

  lemma EndsBag(c: ChannelId)
    ensures ResourceBag(Ends(c)) == multiset{RawEndpoint(c, 0), RawEndpoint(c, 1)}
  {
    var rs := Ends(c);
    assert rs[1..] == [rs[1]];
    assert ResourceBag(rs[1..]) == multiset{rs[1].obj} + ResourceBag([]);
  }

  lemma WithChannelDerived(s: System, p: Process, t: Table, c: ChannelId, l: Limits, also: seq<Resource>)
    requires p in s.tables && c !in s.channels && NoMoreThan(t, s.tables[p], also)
    ensures Derived(WithChannel(s, p, t, c, l), s, also)
  {
    var u := WithChannel(s, p, t, c, l);
    TableDerived(s, p, t, also);
    forall r | InSystem(u, r) ensures InSystem(SetTable(s, p, t), r) {}
  }

  lemma OpenedKeeps(s: System, p: Process, t: Table, c: ChannelId, l: Limits)
    requires Inv(s) && p in s.tables && c !in s.channels && TableOk(t)
    requires NoMoreThan(t, s.tables[p], Ends(c)) && RawAtMost(TableBag(t), TableBag(s.tables[p]) + ResourceBag(Ends(c)))
    ensures Kept(WithChannel(s, p, t, c, l), s, Ends(c))
  {
    hide TableOk, Linear, BudgetOk, Holders, RawAtMost, NoMoreThan, InTable, InSystem;
    var u := WithChannel(s, p, t, c, l);
    NewChannelBudget(s, p, t, c, l);
    NewChannelHolders(s, p, t, c, l, ResourceBag(Ends(c)));
    NewChannelLinear(s, u, c);
    WithChannelDerived(s, p, t, c, l, Ends(c));
    forall r | InSystem(u, r) && r.obj.RawEndpoint? ensures r.meta.binding == BINDING_RAW {
      var r0 :| (InSystem(s, r0) || r0 in Ends(c)) && AtMost(r, r0);
    }
  }

  lemma CreateKeeps(s: System, p: Process, c: ChannelId, asked: Limits, written: bool)
    requires Inv(s) && p in s.tables && c !in s.channels
    ensures Kept(Create(s, p, c, asked, written), s, Ends(c))
  {
    hide Inv, TableOk, Valid, Reserve, Filled, Close, NoMoreThan, RawAtMost, ResourceBag, Ends, Kept;
    var t := s.tables[p];
    InvTable(s, p);
    if ChosenLimits(asked).None? {
      Same(s);
      MoreGranted(s, s, Ends(c));
    } else {
      TableLost(t);
      ReserveIsAtomic(t, {}, t.count - |t.entries|, 2);
      if Reserve(t, 2).0 == OK {
        CreatedTable(t, c, written);
        var hs, f := Reserve(t, 2).1, Filled(t, Ends(c));
        OpenedKeeps(s, p, if written then f else Close(Close(f, hs[0]).1, hs[1]).1, c, ChosenLimits(asked).value);
      } else {
        var u := Reserve(t, 2).2;
        OkFrom(u, t.count - |t.entries|);
        SubTable(u, t);
        SameBag(t, u);
        TableOp(s, p, u, []);
        MoreGranted(SetTable(s, p, u), s, Ends(c));
      }
    }
  }

  /** The two handles of a new channel hold its two ends, until they are closed. */
  lemma CreatedBag(t: Table, c: ChannelId, written: bool)
    requires TableOk(t) && Reserve(t, 2).0 == OK
    ensures |Reserve(t, 2).1| == 2
    ensures var f := Filled(t, Ends(c)); var hs := Reserve(t, 2).1;
      var u := if written then f else Close(Close(f, hs[0]).1, hs[1]).1;
      TableBag(u) == TableBag(t) + if written then multiset{RawEndpoint(c, 0), RawEndpoint(c, 1)} else multiset{}
  {
    hide Valid, TableOk, Reserve, EntriesBag, FillOnto, Close, ReserveOnto;
    TableLost(t);
    var lost, rs := t.count - |t.entries|, Ends(c);
    ReserveIsAtomic(t, {}, lost, |rs|);
    NextPositive(t, {}, lost, |rs|);
    var hs := Reserve(t, 2).1;
    var f := Filled(t, rs);
    forall h | t.next <= h < t.next + |rs| ensures h !in t.entries { assert hs[h - t.next] == h; }
    FillBag(t.entries, t.next, rs);
    EndsBag(c);
    FilledPair(t.entries, t.next, rs);
    if !written {
      ClosePair(f, hs[0], hs[1]);
    }
  }

  lemma ClosePair(f: Table, a: Handle, b: Handle)
    requires a in f.entries && b in f.entries && f.entries[a].state == Active && f.entries[b].state == Active && 0 < a < b
    ensures Close(Close(f, a).1, b).1.entries == f.entries - {a} - {b}
  {
  }

  lemma FilledPair(m: map<Handle, Entry>, first: Handle, rs: seq<Resource>)
    requires |rs| == 2 && first !in m && first + 1 !in m
    ensures var f := FillOnto(m, first, rs);
      && first in f && f[first].state == Active && first + 1 in f && f[first + 1].state == Active
      && f - {first} - {first + 1} == m
  {
    var a := m[first := Entry(Some(rs[0].obj), first, Active, rs[0].meta)];
    var b := a[first + 1 := Entry(Some(rs[1].obj), first + 1, Active, rs[1].meta)];
    assert rs[1..] == [rs[1]] && rs[1..][1..] == [];
    assert FillOnto(b, first + 2, []) == b;
    assert FillOnto(a, first + 1, rs[1..]) == b;
    assert b - {first} - {first + 1} == m;
  }

  /** Creating a channel gives each of its ends one holder, or none when the handles cannot be delivered, and
      leaves every other raw endpoint with the holders it had. */
  lemma CreateHolds(s: System, p: Process, c: ChannelId, asked: Limits, written: bool)
    requires Inv(s) && p in s.tables && c !in s.channels
    ensures var u := Create(s, p, c, asked, written);
      && (c in u.channels <==> ChosenLimits(asked).Some? && Reserve(s.tables[p], 2).0 == OK)
      && Holders(u) == Holders(s) + if c in u.channels && written then multiset{RawEndpoint(c, 0), RawEndpoint(c, 1)} else multiset{}
  {
    hide Inv, TableOk, Valid, Reserve, Filled, Close, MapBag, TableBag, ChanBag;
    var t := s.tables[p];
    InvTable(s, p);
    var (status, hs, v) := Reserve(t, 2);
    TableLost(t);
    ReserveIsAtomic(t, {}, t.count - |t.entries|, 2);
    if ChosenLimits(asked).Some? {
      var l := ChosenLimits(asked).value;
      if status == OK {
        CreatedBag(t, c, written);
        var f := Filled(t, Ends(c));
        var w := if written then f else Close(Close(f, hs[0]).1, hs[1]).1;
        BagReplace(s.tables, TableBag, p, w);
        var ch := Chan(NO_QUEUE, NO_QUEUE, l, 0, 0);
        BagFresh(s.channels, ChanBag, c, ch);
        EmptyChan(ch);
        var more := if written then multiset{RawEndpoint(c, 0), RawEndpoint(c, 1)} else multiset{};
        Shifted(MapBag(s.tables[p := w], TableBag), MapBag(s.tables, TableBag), TableBag(t), more, MapBag(s.channels, ChanBag));
      } else {
        BagReplace(s.tables, TableBag, p, v);
        EntriesDecide(t, v);
        Cancel(MapBag(s.tables[p := v], TableBag), MapBag(s.tables, TableBag), TableBag(t));
      }
    }
  }

  /** The two new handles name the two ends, in order, as raw endpoints that may be sent on but not duplicated; the channel
      is empty and has the limits chosen. */
  lemma CreatedEnds(s: System, p: Process, c: ChannelId, asked: Limits, u: System, h: Handle)
    requires Inv(s) && p in s.tables && c !in s.channels && ChosenLimits(asked).Some? && Reserve(s.tables[p], 2).0 == OK
    requires u == Create(s, p, c, asked, true) && h == s.tables[p].next
    ensures u.channels == s.channels[c := Chan(NO_QUEUE, NO_QUEUE, ChosenLimits(asked).value, 0, 0)]
    ensures p in u.tables && u.tables - {p} == s.tables - {p}
    ensures var m := Metadata(BINDING_RAW, 0, 0, 0, {}, {RIGHT_TRANSFER, 2}, {});
      u.tables[p].entries == s.tables[p].entries[h := Entry(Some(RawEndpoint(c, 0)), h, Active, m)]
                                                [h + 1 := Entry(Some(RawEndpoint(c, 1)), h + 1, Active, m)]
    ensures h !in s.tables[p].entries && h + 1 !in s.tables[p].entries
  {
    hide Inv, Valid, TableOk, Reserve, ChosenLimits, FillOnto;
    var t := s.tables[p];
    InvTable(s, p);
    TableLost(t);
    ReserveIsAtomic(t, {}, t.count - |t.entries|, 2);
    var hs := Reserve(t, 2).1;
    assert hs[0] == t.next && hs[1] == t.next + 1;
    PairEntries(t.entries, t.next, Ends(c));
    assert u.tables - {p} == s.tables - {p};
  }

  lemma PairEntries(m: map<Handle, Entry>, first: Handle, rs: seq<Resource>)
    requires |rs| == 2
    ensures FillOnto(m, first, rs) == m[first := Entry(Some(rs[0].obj), first, Active, rs[0].meta)]
                                      [first + 1 := Entry(Some(rs[1].obj), first + 1, Active, rs[1].meta)]
  {
    var a := m[first := Entry(Some(rs[0].obj), first, Active, rs[0].meta)];
    var b := a[first + 1 := Entry(Some(rs[1].obj), first + 1, Active, rs[1].meta)];
    assert rs[1..] == [rs[1]] && rs[1..][1..] == [];
    assert FillOnto(b, first + 2, []) == b;
    assert FillOnto(a, first + 1, rs[1..]) == b;
  }

  lemma Shifted(x: multiset<Object>, y: multiset<Object>, t: multiset<Object>, more: multiset<Object>, ch: multiset<Object>)
    requires x + t == y + (t + more)
    ensures x + (multiset{} + ch) == (y + ch) + more
  {
    assert y + (t + more) == (y + more) + t;
    Cancel(x, y + more, t);
    assert multiset{} + ch == ch && (y + more) + ch == (y + ch) + more;
  }

  lemma EmptyChan(ch: Chan)
    requires ch.queue0 == NO_QUEUE && ch.queue1 == NO_QUEUE
    ensures ChanBag(ch) == multiset{}
  {
  }

  lemma EntriesDecide(t: Table, u: Table)
    requires t.entries == u.entries
    ensures TableBag(t) == TableBag(u)
  {
  }

  lemma SameBag(t: Table, u: Table)
    requires u.entries == t.entries
    ensures RawAtMost(TableBag(u), TableBag(t))
  {
  }

  lemma MoreGranted(u: System, s: System, also: seq<Resource>)
    requires Kept(u, s, [])
    ensures Kept(u, s, also)
  {
    hide Inv, InSystem;
    forall r | InSystem(u, r) ensures exists r0 :: (InSystem(s, r0) || r0 in also) && AtMost(r, r0) {
      var r0 :| (InSystem(s, r0) || r0 in []) && AtMost(r, r0);
      assert InSystem(s, r0);
    }
  }

  // ------------------------------------------------------------------ channel deletion

  lemma KernelKeeps(s: System, c: ChannelId, ch: Chan)
    requires Inv(s) && c in s.channels
    requires ch == s.channels[c].(kernel0 := ch.kernel0, kernel1 := ch.kernel1)
    ensures Kept(SetChannel(s, c, ch, s.budget), s, [])
  {
    InvBudget(s);
    ChannelBudget(s, c, ch, s.budget);
    ChannelOp(s, c, ch, s.budget);
  }

  lemma DeletedBudget(s: System, c: ChannelId)
    requires BudgetOk(s) && c in s.channels && ChanMessages(s.channels[c]) == 0
    requires ChanBytes(s.channels[c]) == 0 && ChanResources(s.channels[c]) == 0
    ensures BudgetOk(s.(channels := s.channels - {c}))
  {
    SumSplit(s.channels, ChanMessages, c);
    SumSplit(s.channels, ChanBytes, c);
    SumSplit(s.channels, ChanResources, c);
  }

  lemma RemoveKeeps(s: System, c: ChannelId)
    requires Inv(s) && c in s.channels && s.channels[c].queue0 == NO_QUEUE && s.channels[c].queue1 == NO_QUEUE && Unheld(s, c)
    ensures Kept(s.(channels := s.channels - {c}), s, [])
  {
    hide TableOk, ChanOk, BudgetOk, Linear, RawBound, Holders;
    var u := s.(channels := s.channels - {c});
    DeletedBudget(s, c);
    LessChanHolders(s, c, s.budget);
    forall r | InSystem(u, r) ensures InSystem(s, r) {}
    FewerDerived(u, s);
    forall o: Object | o.RawEndpoint? && o in Holders(u) ensures o.channel != c {
      assert Holders(u)[o] <= Holders(s)[o];
    }
    RawKept(u, s, []);
  }

  lemma DeleteKeeps(s: System, c: ChannelId)
    requires Inv(s) && c in s.channels && Unheld(s, c)
    ensures Kept(Step(s, Delete(c)), s, [])
  {
    hide Inv, Holders, Emptied, RawAtMost, Derived;
    var e := Emptied(s, c);
    EmptiedKeeps(s, c);
    EmptiedIs(s, c);
    EmptiedHolders(s, c);
    RemoveKeeps(e, c);
    DerivedTwice(e.(channels := e.channels - {c}), e, s);
  }

  lemma EmptiedHolders(s: System, c: ChannelId)
    requires Inv(s) && c in s.channels && Unheld(s, c)
    ensures Unheld(Emptied(s, c), c)
  {
    hide Inv, Holders, Emptied;
    EmptiedIs(s, c);
    var e := Emptied(s, c);
    EmptyBag(e.channels[c], s.channels[c]);
    ChanHolders(s, c, e.channels[c], e.budget);
    forall o: Object | o.RawEndpoint? && o in Holders(e) ensures o.channel != c {
      assert Holders(e)[o] <= Holders(s)[o];
    }
  }

  lemma DerivedTwice(a: System, b: System, s: System)
    requires Derived(a, b, []) && Derived(b, s, [])
    ensures Derived(a, s, [])
  {
    hide InSystem;
    forall r | InSystem(a, r) ensures exists r0 :: (InSystem(s, r0) || r0 in []) && AtMost(r, r0) {
      var r1 :| (InSystem(b, r1) || r1 in []) && AtMost(r, r1);
      assert InSystem(b, r1);
      var r0 :| (InSystem(s, r0) || r0 in []) && AtMost(r1, r0);
      WeakerTransitive(r, r1, r0);
    }
  }

  // -------------------------------------------------------------------------- steps

  lemma SpawnKeeps(s: System, p: Process)
    requires Inv(s) && p !in s.tables
    ensures Kept(SetTable(s, p, EMPTY), s, [])
  {
    hide Inv, TableOk;
    EmptyTable();
    NewTable(s, p, EMPTY);
  }

  lemma ProcessCall(s: System, call: Call)
    requires Inv(s) && (call.Spawn? || call.Fork? || call.Exit? || call.Grant? || call.CreateChannel?)
    ensures Kept(Step(s, call), s, Granted(call))
  {
    hide Inv, Kept, CloneFork, Install, Create, Ends;
    Same(s);
    MoreGranted(s, s, Granted(call));
    match call {
      case Spawn(p) => if p !in s.tables { SpawnKeeps(s, p); }
      case Fork(p, child) => if p in s.tables && child !in s.tables { ForkKeeps(s, p, child); }
      case Exit(p) => ExitKeeps(s, p);
      case Grant(p, r) => if p in s.tables && !r.obj.RawEndpoint? { GrantKeeps(s, p, r); }
      case CreateChannel(p, c, asked, written) => if p in s.tables && c !in s.channels { CreateKeeps(s, p, c, asked, written); }
      case _ =>
    }
  }

  lemma MessageCall(s: System, call: Call)
    requires Inv(s) && (call.Send? || call.Receive? || call.DiscardMessage?)
    ensures Kept(Step(s, call), s, [])
  {
    hide Inv, Kept, SendCall, ReceiveCall, DiscardCall;
    Same(s);
    match Endpoint(s, call.p, call.h) {
      case None =>
      case Some(o) =>
        if o.channel in s.channels {
          match call {
            case Send(p, h, payload, ds) => SendKeeps(s, p, h, o, payload, ds);
            case Receive(p, h, f) => ReceiveKeeps(s, p, o, f);
            case _ => DiscardKeeps(s, o);
          }
        }
    }
  }

  lemma KernelCall(s: System, call: Call)
    requires Inv(s) && (call.KernelSend? || call.KernelHold? || call.KernelRelease? || call.Reap? || call.Delete?)
    ensures Kept(Step(s, call), s, [])
  {
    hide Inv, Kept, KernelSendCall, Emptied, Holders;
    Same(s);
    if call.c in s.channels {
      match call {
        case KernelSend(c, sender, payload, cap) => KernelSendKeeps(s, c, sender, payload, cap);
        case KernelHold(c, side) => if side <= 1 { KernelKeeps(s, c, Step(s, call).channels[c]); }
        case KernelRelease(c, side) => if side <= 1 { KernelKeeps(s, c, Step(s, call).channels[c]); }
        case Reap(c) => EmptiedKeeps(s, c);
        case Delete(c) => if Unheld(s, c) { DeleteKeeps(s, c); }
        case _ =>
      }
    }
  }

  lemma StepKeeps(s: System, call: Call)
    requires Inv(s)
    ensures Kept(Step(s, call), s, Granted(call))
  {
    hide Inv, Kept, Step;
    if call.Spawn? || call.Fork? || call.Exit? || call.Grant? || call.CreateChannel? { ProcessCall(s, call); }
    else if call.CloseHandle? || call.DuplicateHandle? || call.RestrictHandle? { HandleKeeps(s, call); }
    else if call.Send? || call.Receive? || call.DiscardMessage? { MessageCall(s, call); }
    else { KernelCall(s, call); }
  }

  // --------------------------------------------------------------------------- runs

  ghost function Run(s: System, calls: seq<Call>): System
    decreases |calls|
  {
    if calls == [] then s else Run(Step(s, calls[0]), calls[1..])
  }

  function AllGranted(calls: seq<Call>): seq<Resource> {
    if calls == [] then [] else Granted(calls[0]) + AllGranted(calls[1..])
  }

  lemma {:induction false} RunKeeps(s: System, calls: seq<Call>)
    requires Inv(s)
    ensures Inv(Run(s, calls))
    decreases |calls|
  {
    hide Inv, Step;
    if calls != [] {
      StepKeeps(s, calls[0]);
      RunKeeps(Step(s, calls[0]), calls[1..]);
    }
  }

  lemma BootInv()
    ensures Inv(BOOT)
  {
  }

  /** However processes create channels, duplicate, restrict, send, receive, fork and exit, a raw
      endpoint never has two holders. */
  lemma EndpointsStayLinear(calls: seq<Call>, o: Object)
    requires o.RawEndpoint?
    ensures Holders(Run(BOOT, calls))[o] <= 1
  {
    BootInv();
    RunKeeps(BOOT, calls);
  }

  /** Any capability present at the end descends from one present at the start or granted by the kernel
      on the way, and has no more authority than it. */
  lemma {:induction false} AuthorityOnlyShrinks(s: System, calls: seq<Call>, r: Resource)
    requires Inv(s) && InSystem(Run(s, calls), r)
    ensures exists r0 :: (InSystem(s, r0) || r0 in AllGranted(calls)) && AtMost(r, r0)
    decreases |calls|
  {
    hide Inv, InSystem, Step;
    if calls == [] {
      assert AtMost(r, r);
    } else {
      var u := Step(s, calls[0]);
      StepKeeps(s, calls[0]);
      AuthorityOnlyShrinks(u, calls[1..], r);
      var r1 :| (InSystem(u, r1) || r1 in AllGranted(calls[1..])) && AtMost(r, r1);
      if InSystem(u, r1) {
        var r0 :| (InSystem(s, r0) || r0 in Granted(calls[0])) && AtMost(r1, r0);
        WeakerTransitive(r, r1, r0);
        assert InSystem(s, r0) || r0 in AllGranted(calls);
      } else {
        assert r1 in AllGranted(calls);
      }
    }
  }

  /** In every reachable state each queue's totals are the sums over its messages and within its
      channel's limits, and the global counters are the sums over all channels and within theirs. */
  lemma BudgetsAreConserved(calls: seq<Call>)
    ensures var s := Run(BOOT, calls);
      && s.budget.messages == MapSum(s.channels, ChanMessages) <= GLOBAL.messages
      && s.budget.bytes == MapSum(s.channels, ChanBytes) <= GLOBAL.bytes
      && s.budget.resources == MapSum(s.channels, ChanResources) <= GLOBAL.resources
      && forall c | c in s.channels :: QueueOk(s.channels[c].queue0, s.channels[c].limits) && QueueOk(s.channels[c].queue1, s.channels[c].limits)
  {
    BootInv();
    RunKeeps(BOOT, calls);
    var s := Run(BOOT, calls);
    forall c | c in s.channels
      ensures QueueOk(s.channels[c].queue0, s.channels[c].limits) && QueueOk(s.channels[c].queue1, s.channels[c].limits)
    {
      assert ChanOk(s.channels[c]);
    }
  }

  /** In every reachable state, sending a message that fits and receiving one move raw endpoints
      between holders without making or losing any. */
  lemma TransfersConserve(calls: seq<Call>, call: Call)
    requires call.Receive? || call.Send?
    requires call.Send? ==>
      var s := Run(BOOT, calls);
      var o := Endpoint(s, call.p, call.h);
      o.Some? && o.value.channel in s.channels ==> Fits(s.channels[o.value.channel].limits, |call.payload|, |call.ds|)
    ensures RawSame(Holders(Step(Run(BOOT, calls), call)), Holders(Run(BOOT, calls)))
  {
    hide Inv, SendCall, ReceiveCall, Holders;
    BootInv();
    RunKeeps(BOOT, calls);
    var s := Run(BOOT, calls);
    match Endpoint(s, call.p, call.h) {
      case None =>
      case Some(o) =>
        if o.channel in s.channels {
          if call.Send? { SendKeeps(s, call.p, call.h, o, call.payload, call.ds); }
          if call.Receive? { ReceiveKeeps(s, call.p, o, call.frame); }
        }
    }
  }
}
