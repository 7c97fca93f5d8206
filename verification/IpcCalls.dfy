/** What each system call does to the whole system, and what it keeps. */
module IpcCalls {
  import opened Options
  import opened CapabilityTable
  import opened CapabilityLaws
  import opened CapabilityBags
  import opened Channel
  import opened Transfer
  import opened IpcState
  import opened Bags

  datatype Call =
    | Spawn(p: Process)
    | Fork(p: Process, child: Process)
    | Exit(p: Process)
    | Grant(p: Process, resource: Resource)
    | CreateChannel(p: Process, c: ChannelId, asked: Limits, written: bool)
    | CloseHandle(p: Process, h: Handle)
    | DuplicateHandle(p: Process, h: Handle, rights: Bits)
    | RestrictHandle(p: Process, h: Handle, restriction: Restriction, written: bool)
    | Send(p: Process, h: Handle, payload: seq<Byte>, ds: seq<Disposition>)
    | Receive(p: Process, h: Handle, frame: Frame)
    | DiscardMessage(p: Process, h: Handle)
    | KernelSend(c: ChannelId, sender: nat, payload: seq<Byte>, cap: nat)
    | KernelHold(c: ChannelId, side: nat)
    | KernelRelease(c: ChannelId, side: nat)
    | Reap(c: ChannelId)
    | Delete(c: ChannelId)

  const RAW_META := Metadata(BINDING_RAW, 0, 0, 0, {}, {1, 2}, {})

  function Ends(c: ChannelId): seq<Resource> {
    [Resource(RawEndpoint(c, 0), RAW_META), Resource(RawEndpoint(c, 1), RAW_META)]
  }

  /** The capabilities a call brings into the system from the kernel. */
  function Granted(call: Call): seq<Resource> {
    if call.Grant? then [call.resource] else if call.CreateChannel? then Ends(call.c) else []
  }

  function Other(side: nat): nat {
    if side == 0 then 1 else 0
  }

  /** The raw endpoint a handle names, if it names one. */
  function Endpoint(s: System, p: Process, h: Handle): Option<Object> {
    if p !in s.tables then None
    else
      match Lookup(s.tables[p], h)
      case None => None
      case Some(e) => if e.meta.binding == BINDING_RAW && e.obj.Some? && e.obj.value.RawEndpoint? then e.obj else None
  }

  function SetTable(s: System, p: Process, t: Table): System {
    s.(tables := s.tables[p := t])
  }

  function WithChannel(s: System, p: Process, t: Table, c: ChannelId, l: Limits): System {
    System(s.tables[p := t], s.channels[c := Chan(NO_QUEUE, NO_QUEUE, l, 0, 0)], s.budget)
  }

  /** Open a channel and put both ends in p's table; when the handles cannot be written out they are closed again. */
  function Create(s: System, p: Process, c: ChannelId, asked: Limits, written: bool): System
    requires p in s.tables
  {
    var t := s.tables[p];
    match ChosenLimits(asked)
    case None => s
    case Some(l) =>
      var (status, hs, u) := Reserve(t, 2);
      if status != OK || |hs| != 2 then SetTable(s, p, u)
      else
        var f := Filled(t, Ends(c));
        WithChannel(s, p, if written then f else Close(Close(f, hs[0]).1, hs[1]).1, c, l)
  }

  ghost function SendCall(s: System, p: Process, h: Handle, o: Object, payload: seq<Byte>, ds: seq<Disposition>): System
    requires p in s.tables && o.RawEndpoint? && o.channel in s.channels
  {
    var ch, other := s.channels[o.channel], Other(o.side);
    var w := World(s.tables[p], QueueOf(ch, other), s.budget);
    var u := SendRaw(w, ch.limits, Owners(s, o.channel, other) > 0, h, payload, ds).1;
    Replace(s, p, u.table, o.channel, SetQueue(ch, other, u.queue), u.budget)
  }

  /** What a receive hands to its caller, and the table, queue and budgets it leaves. */
  ghost function Reply(s: System, p: Process, o: Object, f: Frame): Received
    requires p in s.tables && o.RawEndpoint? && o.channel in s.channels
  {
    var w := World(s.tables[p], QueueOf(s.channels[o.channel], o.side), s.budget);
    ReceiveRaw(w, Owners(s, o.channel, Other(o.side)) > 0, f)
  }

  ghost function ReceiveCall(s: System, p: Process, o: Object, f: Frame): System
    requires p in s.tables && o.RawEndpoint? && o.channel in s.channels
  {
    var ch, u := s.channels[o.channel], Reply(s, p, o, f).world;
    Replace(s, p, u.table, o.channel, SetQueue(ch, o.side, u.queue), u.budget)
  }

  function SetChannel(s: System, c: ChannelId, ch: Chan, b: Budget): System {
    s.(channels := s.channels[c := ch], budget := b)
  }

  function DiscardCall(s: System, o: Object): System
    requires o.RawEndpoint? && o.channel in s.channels
  {
    var ch := s.channels[o.channel];
    var (_, q, b) := Discard(QueueOf(ch, o.side), s.budget);
    SetChannel(s, o.channel, SetQueue(ch, o.side, q), b)
  }

  ghost function KernelSendCall(s: System, c: ChannelId, sender: nat, payload: seq<Byte>, cap: nat): System
    requires c in s.channels
  {
    var ch, other := s.channels[c], Other(sender);
    if sender > 1 || |payload| > ch.limits.bytes then s
    else
      var (_, q, b) := Push(QueueOf(ch, other), ch.limits, s.budget, Owners(s, c, other) > 0, cap, Message(payload, []));
      SetChannel(s, c, SetQueue(ch, other, q), b)
  }

  /** What the collector does to a channel it found unreachable. */
  function Emptied(s: System, c: ChannelId): System
    requires c in s.channels
  {
    var ch := s.channels[c];
    var (q0, b0) := Drain(ch.queue0, s.budget);
    var (q1, b1) := Drain(ch.queue1, b0);
    SetChannel(s, c, ch.(queue0 := q0, queue1 := q1), b1)
  }

  ghost predicate Unheld(s: System, c: ChannelId) {
    forall o: Object | o.RawEndpoint? && o in Holders(s) :: o.channel != c
  }

  ghost function Step(s: System, call: Call): System {
    match call
    case Spawn(p) => if p in s.tables then s else SetTable(s, p, EMPTY)
    case Fork(p, child) =>
      if p !in s.tables || child in s.tables then s else SetTable(s, child, CloneFork(EMPTY, s.tables[p]).1)
    case Exit(p) => s.(tables := s.tables - {p})
    case Grant(p, r) =>
      if p !in s.tables || r.obj.RawEndpoint? then s else SetTable(s, p, Install(s.tables[p], r.obj, r.meta).1)
    case CreateChannel(p, c, asked, written) =>
      if p !in s.tables || c in s.channels then s else Create(s, p, c, asked, written)
    case CloseHandle(p, h) => if p !in s.tables then s else SetTable(s, p, Close(s.tables[p], h).1)
    case DuplicateHandle(p, h, rights) => if p !in s.tables then s else SetTable(s, p, Duplicate(s.tables[p], h, rights).2)
    case RestrictHandle(p, h, r, written) => if p !in s.tables then s else SetTable(s, p, Restrict(s.tables[p], h, r, written).2)
    case Send(p, h, payload, ds) =>
      (match Endpoint(s, p, h)
       case None => s
       case Some(o) => if o.channel !in s.channels then s else SendCall(s, p, h, o, payload, ds))
    case Receive(p, h, f) =>
      (match Endpoint(s, p, h)
       case None => s
       case Some(o) => if o.channel !in s.channels then s else ReceiveCall(s, p, o, f))
    case DiscardMessage(p, h) =>
      (match Endpoint(s, p, h)
       case None => s
       case Some(o) => if o.channel !in s.channels then s else DiscardCall(s, o))
    case KernelSend(c, sender, payload, cap) => if c !in s.channels then s else KernelSendCall(s, c, sender, payload, cap)
    case KernelHold(c, side) =>
      if c !in s.channels || side > 1 then s
      else
        var ch := s.channels[c];
        SetChannel(s, c, if side == 0 then ch.(kernel0 := ch.kernel0 + 1) else ch.(kernel1 := ch.kernel1 + 1), s.budget)
    case KernelRelease(c, side) =>
      if c !in s.channels || side > 1 then s
      else
        var ch := s.channels[c];
        SetChannel(s, c, if side == 0 then ch.(kernel0 := Minus(ch.kernel0, 1)) else ch.(kernel1 := Minus(ch.kernel1, 1)), s.budget)
    case Reap(c) => if c !in s.channels then s else Emptied(s, c)
    case Delete(c) =>
      if c !in s.channels || !Unheld(s, c) then s
      else var u := Emptied(s, c); u.(channels := u.channels - {c})
  }

  // ---------------------------------------------------------------- closing lemmas

  ghost predicate Kept(u: System, s: System, also: seq<Resource>) {
    Inv(u) && Derived(u, s, also)
  }

  lemma Same(s: System)
    requires Inv(s)
    ensures Kept(s, s, [])
  {
    FewerDerived(s, s);
  }

  lemma OkFrom(t: Table, lost: nat)
    requires Valid(t, {}, lost)
    ensures TableOk(t)
  {
  }

  lemma TableLost(t: Table)
    requires TableOk(t)
    ensures t.count >= |t.entries| && Valid(t, {}, t.count - |t.entries|)
  {
  }

  lemma TableOp(s: System, p: Process, t: Table, also: seq<Resource>)
    requires Inv(s) && p in s.tables && TableOk(t)
    requires NoMoreThan(t, s.tables[p], also) && RawAtMost(TableBag(t), TableBag(s.tables[p]))
    requires forall r | r in also :: !r.obj.RawEndpoint?
    ensures Kept(SetTable(s, p, t), s, also)
  {
    hide TableOk, NoMoreThan, Linear, RawBound, Holders, RawAtMost;
    TableDerived(s, p, t, also);
    TableHolders(s, p, t);
    RawKept(SetTable(s, p, t), s, also);
  }

  lemma WorldOp(s: System, p: Process, t: Table, c: ChannelId, ch: Chan, b: Budget)
    requires Inv(s) && p in s.tables && c in s.channels && TableOk(t) && ChanOk(ch)
    requires WorldDerived(t, ch, s.tables[p], s.channels[c])
    requires RawAtMost(TableBag(t) + ChanBag(ch), TableBag(s.tables[p]) + ChanBag(s.channels[c]))
    requires BudgetOk(Replace(s, p, t, c, ch, b))
    ensures Kept(Replace(s, p, t, c, ch, b), s, [])
  {
    hide TableOk, ChanOk, WorldDerived, Linear, RawBound, Holders, BudgetOk, RawAtMost;
    ReplaceDerived(s, p, t, c, ch, b);
    ReplaceHolders(s, p, t, c, ch, b);
    RawKept(Replace(s, p, t, c, ch, b), s, []);
  }

  // --------------------------------------------------------------------- table calls

  lemma GrantKeeps(s: System, p: Process, r: Resource)
    requires Inv(s) && p in s.tables && !r.obj.RawEndpoint?
    ensures Kept(SetTable(s, p, Install(s.tables[p], r.obj, r.meta).1), s, [r])
  {
    hide Inv, Kept, Valid, TableOk;
    var t := s.tables[p];
    InvTable(s, p);
    TableLost(t);
    var u := Install(t, r.obj, r.meta).1;
    InstallValid(t, {}, t.count - |t.entries|, r.obj, r.meta);
    OkFrom(u, t.count - |t.entries|);
    if CanAllocate(t) {
      FreshNext(t);
      InsertBag(t, Entry(Some(r.obj), t.next, Active, r.meta));
      AddedEntry(u, t, t.next, r, [r]);
    } else {
      SubTable(u, t);
      MoreAlso(u, t, [r]);
    }
    TableOp(s, p, u, [r]);
  }

  lemma InvTable(s: System, p: Process)
    requires Inv(s) && p in s.tables
    ensures TableOk(s.tables[p])
  {
  }

  lemma FreshNext(t: Table)
    requires TableOk(t)
    ensures t.next !in t.entries
  {
    assert t.next in t.entries ==> WellFormed(t, t.next, t.entries[t.next]);
  }

  lemma MoreAlso(u: Table, t: Table, also: seq<Resource>)
    requires NoMoreThan(u, t, [])
    ensures NoMoreThan(u, t, also)
  {
    forall r | InTable(u, r) ensures exists r0 :: (InTable(t, r0) || r0 in also) && AtMost(r, r0) {
      var r0 :| (InTable(t, r0) || r0 in []) && AtMost(r, r0);
      assert InTable(t, r0);
    }
  }

  lemma CloseTable(t: Table, h: Handle)
    requires TableOk(t)
    ensures TableOk(Close(t, h).1) && NoMoreThan(Close(t, h).1, t, []) && RawAtMost(TableBag(Close(t, h).1), TableBag(t))
  {
    hide Valid, TableOk;
    TableLost(t);
    CloseValid(t, {}, t.count - |t.entries|, h);
    var u := Close(t, h).1;
    OkFrom(u, t.count - |t.entries|);
    SubTable(u, t);
    if h in t.entries { RemoveBag(t.entries, h); }
  }

  lemma DuplicateTable(t: Table, h: Handle, rights: Bits)
    requires TableOk(t)
    ensures var u := Duplicate(t, h, rights).2; TableOk(u) && NoMoreThan(u, t, []) && RawAtMost(TableBag(u), TableBag(t))
  {
    hide Valid, TableOk;
    TableLost(t);
    DuplicateValid(t, {}, t.count - |t.entries|, h, rights);
    var (status, n, u) := Duplicate(t, h, rights);
    OkFrom(u, t.count - |t.entries|);
    if status == OK {
      FreshNext(t);
      InsertBag(t, u.entries[n]);
      var r0 := Resource(t.entries[h].obj.value, t.entries[h].meta);
      assert Holding(t.entries[h], r0);
      AddedEntry(u, t, n, r0, []);
    } else {
      SubTable(u, t);
    }
  }

  lemma RestrictTable(t: Table, h: Handle, r: Restriction, written: bool)
    requires TableOk(t)
    ensures var u := Restrict(t, h, r, written).2; TableOk(u) && NoMoreThan(u, t, []) && RawAtMost(TableBag(u), TableBag(t))
  {
    hide Valid, TableOk, Restrict, Restricted, Weaker;
    TableLost(t);
    RestrictIsAtomic(t, {}, t.count - |t.entries|, h, r, written);
    var (status, n, u) := Restrict(t, h, r, written);
    OkFrom(u, t.count - |t.entries|);
    if status == OK {
      NotIssued(t, n);
      RenameBag(t.entries, h, n, u.entries[n]);
      RenamedCaps(t, u, h, n);
    } else {
      SubTable(u, t);
    }
  }

  lemma NotIssued(t: Table, n: Handle)
    requires TableOk(t) && !Issued(t, n)
    ensures n !in t.entries
  {
    assert n in t.entries ==> WellFormed(t, n, t.entries[n]);
  }

  lemma RenamedCaps(t: Table, u: Table, h: Handle, n: Handle)
    requires h in t.entries && n !in t.entries && n in u.entries && u.entries == (t.entries - {h})[n := u.entries[n]]
    requires u.entries[n].obj == t.entries[h].obj && Weaker(u.entries[n].meta, t.entries[h].meta)
    ensures NoMoreThan(u, t, [])
  {
    if t.entries[h].obj.Some? {
      var r0 := Resource(t.entries[h].obj.value, t.entries[h].meta);
      assert Holding(t.entries[h], r0);
      AddedEntry(u, t, n, r0, []);
    } else {
      forall r | InTable(u, r) ensures InTable(t, r) {
        var k :| k in u.entries && Holding(u.entries[k], r);
        assert k in t.entries && Holding(t.entries[k], r);
      }
      SubCaps(u, t);
    }
  }

  lemma SubCaps(u: Table, t: Table)
    requires forall r | InTable(u, r) :: InTable(t, r)
    ensures NoMoreThan(u, t, [])
  {
    forall r | InTable(u, r) ensures exists r0 :: (InTable(t, r0) || r0 in []) && AtMost(r, r0) {
      assert AtMost(r, r);
    }
  }

  lemma HandleKeeps(s: System, call: Call)
    requires Inv(s) && (call.CloseHandle? || call.DuplicateHandle? || call.RestrictHandle?)
    ensures Kept(Step(s, call), s, [])
  {
    hide Inv, Kept, TableOk, NoMoreThan, RawAtMost, Restrict, Duplicate, Close, Holders;
    if call.p !in s.tables {
      Same(s);
    } else {
      var t := s.tables[call.p];
      InvTable(s, call.p);
      match call {
        case CloseHandle(p, h) => CloseTable(t, h); TableOp(s, p, Close(t, h).1, []);
        case DuplicateHandle(p, h, rights) => DuplicateTable(t, h, rights); TableOp(s, p, Duplicate(t, h, rights).2, []);
        case RestrictHandle(p, h, r, written) => RestrictTable(t, h, r, written); TableOp(s, p, Restrict(t, h, r, written).2, []);
        case _ =>
      }
    }
  }
}
