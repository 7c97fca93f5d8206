/** The books of the capability system: which holders of which objects every system call makes and which it ends. */
module IpcLedger {
  import opened Options
  import opened CapabilityTable
  import opened CapabilityLaws
  import opened CapabilityBags
  import opened Channel
  import opened Transfer
  import opened IpcState
  import opened IpcCalls
  import opened IpcTransfers
  import opened IpcRuns
  import opened IpcDelivery
  import opened Bags

  /** A table has room for n more entries. */
  predicate RoomFor(t: Table, n: nat) {
    n == 0 || (t.next != NO_HANDLE && t.count + n <= MAX_ENTRIES && t.next + n <= HANDLE_SPACE)
  }

  /** The channel a message call works on, if its handle names an end of one. */
  ghost function Target(s: System, p: Process, h: Handle): Option<Object> {
    if p in s.tables && Endpoint(s, p, h).Some? && Endpoint(s, p, h).value.RawEndpoint? && Endpoint(s, p, h).value.channel in s.channels
       && Endpoint(s, p, h).value.side <= 1
    then Endpoint(s, p, h) else None
  }

  /** The new holders a call makes: a granted object, both ends of a new channel, a duplicate, what a child inherits, and
      the copies that travel in a message. */
  ghost function Made(s: System, call: Call): multiset<Object> {
    match call
    case Fork(p, child) => if p in s.tables && child !in s.tables then TableBag(CloneFork(EMPTY, s.tables[p]).1) else multiset{}
    case Grant(p, r) => if p in s.tables && !r.obj.RawEndpoint? && RoomFor(s.tables[p], 1) then multiset{r.obj} else multiset{}
    case CreateChannel(p, c, asked, written) =>
      if p in s.tables && c !in s.channels && ChosenLimits(asked).Some? && RoomFor(s.tables[p], 2) && written
      then multiset{RawEndpoint(c, 0), RawEndpoint(c, 1)} else multiset{}
    case DuplicateHandle(p, h, rights) =>
      if p in s.tables && Lookup(s.tables[p], h).Some? && s.tables[p].entries[h].obj.Some? && s.tables[p].entries[h].obj.value.Sharable?
         && {RIGHT_DUPLICATE} + rights <= s.tables[p].entries[h].meta.metaRights && RoomFor(s.tables[p], 1)
      then multiset{s.tables[p].entries[h].obj.value} else multiset{}
    case Send(p, h, payload, ds) =>
      (match Target(s, p, h)
       case None => multiset{}
       case Some(o) => if Goes(s, p, h, o.channel, 1 - o.side, payload, ds) then CopiedBag(Records(s.tables[p], ds, h)) else multiset{})
    case _ => multiset{}
  }

  /** The holders a call ends: a closed handle's, a process's last, a discarded message's, a collected channel's, and
      those of a batch moved into a message too large for its channel. */
  ghost function Ended(s: System, call: Call): multiset<Object> {
    match call
    case Exit(p) => if p in s.tables then TableBag(s.tables[p]) else multiset{}
    case CloseHandle(p, h) => if p in s.tables && Lookup(s.tables[p], h).Some? then EntryBag(s.tables[p].entries[h]) else multiset{}
    case Send(p, h, payload, ds) =>
      (match Target(s, p, h)
       case None => multiset{}
       case Some(o) =>
         if InFrame(payload, ds) && Acceptable(s.tables[p], ds, h) && !Fits(s.channels[o.channel].limits, |payload|, |ds|)
         then MovedBag(Records(s.tables[p], ds, h)) else multiset{})
    case DiscardMessage(p, h) =>
      (match Target(s, p, h)
       case None => multiset{}
       case Some(o) =>
         if Waiting(s, o.channel, o.side) != [] then ResourceBag(Waiting(s, o.channel, o.side)[0].resources) else multiset{})
    case Reap(c) => if c in s.channels then ChanBag(s.channels[c]) else multiset{}
    case Delete(c) => if c in s.channels && Unheld(s, c) then ChanBag(s.channels[c]) else multiset{}
    case _ => multiset{}
  }

  /** u's holders are s's, with those made and without those ended. */
  ghost predicate Account(s: System, u: System, made: multiset<Object>, ended: multiset<Object>) {
    Holders(u) + ended == Holders(s) + made
  }

  lemma Even(s: System)
    ensures Account(s, s, multiset{}, multiset{})
  {
  }

  // ------------------------------------------------------------------ one table changes

  lemma Shift(m': multiset<Object>, m: multiset<Object>, t: multiset<Object>, t': multiset<Object>, rest: multiset<Object>,
              made: multiset<Object>, ended: multiset<Object>)
    requires m' + t == m + t' && t' + ended == t + made
    ensures (m' + rest) + ended == (m + rest) + made
  {
    forall o ensures ((m' + rest) + ended)[o] == ((m + rest) + made)[o] {
      assert (m' + t)[o] == (m + t')[o] && (t' + ended)[o] == (t + made)[o];
    }
  }

  lemma TableAccount(s: System, p: Process, t: Table, made: multiset<Object>, ended: multiset<Object>)
    requires p in s.tables && TableBag(t) + ended == TableBag(s.tables[p]) + made
    ensures Account(s, SetTable(s, p, t), made, ended)
  {
    hide MapBag, TableBag;
    BagReplace(s.tables, TableBag, p, t);
    Shift(MapBag(s.tables[p := t], TableBag), MapBag(s.tables, TableBag), TableBag(s.tables[p]), TableBag(t),
          MapBag(s.channels, ChanBag), made, ended);
  }

  lemma NewTableAccount(s: System, p: Process, t: Table)
    requires p !in s.tables
    ensures Account(s, SetTable(s, p, t), TableBag(t), multiset{})
  {
    hide TableBag;
    BagFresh(s.tables, TableBag, p, t);
  }

  lemma ExitAccount(s: System, p: Process)
    requires p in s.tables
    ensures Account(s, s.(tables := s.tables - {p}), multiset{}, TableBag(s.tables[p]))
  {
    hide TableBag;
    BagSplit(s.tables, TableBag, p);
  }

  lemma CloseBag(t: Table, h: Handle, lost: nat)
    requires Valid(t, {}, lost)
    ensures TableBag(Close(t, h).1) + (if Lookup(t, h).Some? then EntryBag(t.entries[h]) else multiset{}) == TableBag(t)
  {
    assert h in t.entries ==> WellFormed(t, h, t.entries[h]);
    if Lookup(t, h).Some? { RemoveBag(t.entries, h); }
  }

  lemma InstallBag(t: Table, o: Object, m: Metadata, lost: nat)
    requires Valid(t, {}, lost)
    ensures TableBag(Install(t, o, m).1) == TableBag(t) + if RoomFor(t, 1) then multiset{o} else multiset{}
  {
    assert t.next in t.entries ==> WellFormed(t, t.next, t.entries[t.next]);
    if CanAllocate(t) { InsertBag(t, Entry(Some(o), t.next, Active, m)); }
  }

  lemma DuplicateBag(t: Table, h: Handle, rights: Bits, lost: nat)
    requires Valid(t, {}, lost)
    ensures TableBag(Duplicate(t, h, rights).2) == TableBag(t)
      + if Duplicate(t, h, rights).0 == OK && h in t.entries then EntryBag(t.entries[h]) else multiset{}
  {
    assert t.next in t.entries ==> WellFormed(t, t.next, t.entries[t.next]);
    if Duplicate(t, h, rights).0 == OK {
      var e := t.entries[h];
      var d := e.(meta := e.meta.(metaRights := if rights == {} then e.meta.metaRights else rights), generation := t.next);
      InsertBag(t, d);
    }
  }

  lemma RestrictBag(t: Table, h: Handle, r: Restriction, written: bool, lost: nat)
    requires Valid(t, {}, lost)
    ensures TableBag(Restrict(t, h, r, written).2) == TableBag(t)
  {
    assert t.next in t.entries ==> WellFormed(t, t.next, t.entries[t.next]);
    assert h in t.entries ==> WellFormed(t, h, t.entries[h]);
    RestrictShape(t, h, r, written);
    hide Restrict;
    var (status, n, u) := Restrict(t, h, r, written);
    if status == OK {
      RenameBag(t.entries, h, n, t.entries[h].(generation := n, meta := Restricted(t.entries[h].meta, r)));
    }
  }

  lemma CloseAccount(s: System, p: Process, h: Handle)
    requires Inv(s) && p in s.tables
    ensures Account(s, SetTable(s, p, Close(s.tables[p], h).1), multiset{},
                    if Lookup(s.tables[p], h).Some? then EntryBag(s.tables[p].entries[h]) else multiset{})
  {
    hide Inv, TableOk, Valid, TableBag, Account, Close;
    var t := s.tables[p];
    InvTable(s, p);
    TableLost(t);
    CloseBag(t, h, t.count - |t.entries|);
    TableAccount(s, p, Close(t, h).1, multiset{}, if Lookup(t, h).Some? then EntryBag(t.entries[h]) else multiset{});
  }

  lemma DuplicateAccount(s: System, p: Process, h: Handle, rights: Bits)
    requires Inv(s) && p in s.tables
    ensures Account(s, SetTable(s, p, Duplicate(s.tables[p], h, rights).2), Made(s, DuplicateHandle(p, h, rights)), multiset{})
  {
    hide Inv, TableOk, Valid, TableBag, Account, Duplicate;
    var t := s.tables[p];
    InvTable(s, p);
    TableLost(t);
    var lost := t.count - |t.entries|;
    ValidNext(t, {}, lost);
    DuplicateBag(t, h, rights, lost);
    DuplicateIsExact(t, {}, lost, h, rights);
    TableAccount(s, p, Duplicate(t, h, rights).2, Made(s, DuplicateHandle(p, h, rights)), multiset{});
  }

  lemma RestrictAccount(s: System, p: Process, h: Handle, r: Restriction, written: bool)
    requires Inv(s) && p in s.tables
    ensures Account(s, SetTable(s, p, Restrict(s.tables[p], h, r, written).2), multiset{}, multiset{})
  {
    hide Inv, TableOk, Valid, TableBag, Account, Restrict;
    var t := s.tables[p];
    InvTable(s, p);
    TableLost(t);
    RestrictBag(t, h, r, written, t.count - |t.entries|);
    TableAccount(s, p, Restrict(t, h, r, written).2, multiset{}, multiset{});
  }

  lemma GrantAccount(s: System, p: Process, r: Resource)
    requires Inv(s) && p in s.tables
    ensures Account(s, SetTable(s, p, Install(s.tables[p], r.obj, r.meta).1), if RoomFor(s.tables[p], 1) then multiset{r.obj} else multiset{}, multiset{})
  {
    hide Inv, TableOk, Valid, TableBag, Account, Install;
    var t := s.tables[p];
    InvTable(s, p);
    TableLost(t);
    InstallBag(t, r.obj, r.meta, t.count - |t.entries|);
    TableAccount(s, p, Install(t, r.obj, r.meta).1, if RoomFor(t, 1) then multiset{r.obj} else multiset{}, multiset{});
  }

  /** Calls on one table. */
  lemma HandleAccount(s: System, call: Call)
    requires Inv(s) && (call.CloseHandle? || call.DuplicateHandle? || call.RestrictHandle? || call.Grant?)
    ensures Account(s, Step(s, call), Made(s, call), Ended(s, call))
  {
    hide Inv, Account, Restrict, Duplicate, Close, Install, SetTable, RoomFor, Lookup, EntryBag;
    Even(s);
    if call.p in s.tables {
      match call {
        case CloseHandle(p, h) => CloseAccount(s, p, h);
        case DuplicateHandle(p, h, rights) => DuplicateAccount(s, p, h, rights);
        case RestrictHandle(p, h, r, written) => RestrictAccount(s, p, h, r, written);
        case Grant(p, r) => if !r.obj.RawEndpoint? { GrantAccount(s, p, r); }
        case _ =>
      }
    }
  }

  lemma ReserveTwo(t: Table, lost: nat)
    requires Valid(t, {}, lost)
    ensures Reserve(t, 2).0 == OK <==> RoomFor(t, 2)
  {
    ReserveEachShape(t, {}, lost, 2);
    hide Valid, ReserveEach, NextAfter;
  }

  lemma ProcessAccount(s: System, call: Call)
    requires Inv(s) && (call.Spawn? || call.Fork? || call.Exit? || call.CreateChannel?)
    ensures Account(s, Step(s, call), Made(s, call), Ended(s, call))
  {
    hide Inv, TableOk, Valid, TableBag, Account, CloneFork, Create, Reserve;
    Even(s);
    match call {
      case Spawn(p) =>
        if p !in s.tables {
          NewTableAccount(s, p, EMPTY);
          EmptyTableBag();
        }
      case Fork(p, child) => if p in s.tables && child !in s.tables { NewTableAccount(s, child, CloneFork(EMPTY, s.tables[p]).1); }
      case Exit(p) =>
        if p in s.tables { ExitAccount(s, p); } else { assert s.tables - {p} == s.tables; }
      case CreateChannel(p, c, asked, written) =>
        if p in s.tables && c !in s.channels {
          InvTable(s, p);
          TableLost(s.tables[p]);
          ReserveTwo(s.tables[p], s.tables[p].count - |s.tables[p].entries|);
          CreateHolds(s, p, c, asked, written);
          CreateAccount(s, Create(s, p, c, asked, written), Made(s, call));
        }
      case _ =>
    }
  }

  lemma CreateAccount(s: System, u: System, made: multiset<Object>)
    requires Holders(u) == Holders(s) + made
    ensures Account(s, u, made, multiset{})
  {
  }

  lemma EmptyTableBag()
    ensures TableBag(EMPTY) == multiset{}
  {
  }

  // --------------------------------------------------------------------- message calls

  lemma ReplaceAccount(s: System, p: Process, t: Table, c: ChannelId, ch: Chan, b: Budget, made: multiset<Object>, ended: multiset<Object>)
    requires p in s.tables && c in s.channels
    requires (TableBag(t) + ChanBag(ch)) + ended == (TableBag(s.tables[p]) + ChanBag(s.channels[c])) + made
    ensures Account(s, Replace(s, p, t, c, ch, b), made, ended)
  {
    hide MapBag, TableBag, ChanBag;
    BagReplace(s.tables, TableBag, p, t);
    BagReplace(s.channels, ChanBag, c, ch);
    var m', m, n', n := MapBag(s.tables[p := t], TableBag), MapBag(s.tables, TableBag), MapBag(s.channels[c := ch], ChanBag), MapBag(s.channels, ChanBag);
    var u := Replace(s, p, t, c, ch, b);
    forall o ensures (Holders(u) + ended)[o] == (Holders(s) + made)[o] {
      assert (m' + TableBag(s.tables[p]))[o] == (m + TableBag(t))[o];
      assert (n' + ChanBag(s.channels[c]))[o] == (n + ChanBag(ch))[o];
      assert ((TableBag(t) + ChanBag(ch)) + ended)[o] == ((TableBag(s.tables[p]) + ChanBag(s.channels[c])) + made)[o];
    }
  }

  lemma SentHoldings(t: Table, u: Table, ch: Chan, side: nat, q: Queue, payload: seq<Byte>, rs: seq<Record>)
    requires DistinctSources(rs) && (forall r | r in rs :: Faithful(t, r)) && u.entries == t.entries - MovedSources(rs)
    requires q.items == QueueOf(ch, side).items + [Message(payload, Resources(rs))]
    ensures (TableBag(u) + ChanBag(SetQueue(ch, side, q))) + multiset{} == (TableBag(t) + ChanBag(ch)) + CopiedBag(rs)
  {
    hide EntriesBag, ChanBag, MessagesBag;
    DetachBag(t.entries, rs);
    CarriedBag(rs);
    MessagesAppend(QueueOf(ch, side).items, Message(payload, Resources(rs)));
    SetQueueIs(ch, side, q);
    var a, b, x, y, z, m, k := TableBag(t), TableBag(u), ChanBag(ch), ChanBag(SetQueue(ch, side, q)), MessagesBag(QueueOf(ch, side).items), MovedBag(rs), CopiedBag(rs);
    forall o ensures ((b + y) + multiset{})[o] == ((a + x) + k)[o] {
      assert a[o] == (b + m)[o] && (y + z)[o] == (x + (z + (m + k)))[o];
    }
  }

  lemma LostHoldings(t: Table, u: Table, ch: Chan, rs: seq<Record>)
    requires DistinctSources(rs) && (forall r | r in rs :: Faithful(t, r)) && u.entries == t.entries - MovedSources(rs)
    ensures (TableBag(u) + ChanBag(ch)) + MovedBag(rs) == (TableBag(t) + ChanBag(ch)) + multiset{}
  {
    hide EntriesBag, ChanBag;
    DetachBag(t.entries, rs);
    assert (TableBag(u) + ChanBag(ch)) + MovedBag(rs) == (TableBag(u) + MovedBag(rs)) + ChanBag(ch);
  }

  lemma GoesIs(s: System, p: Process, h: Handle, c: ChannelId, to: nat, payload: seq<Byte>, ds: seq<Disposition>)
    requires Inv(s) && p in s.tables && c in s.channels && to <= 1
    ensures var ch := s.channels[c]; var w := World(s.tables[p], QueueOf(ch, to), s.budget);
      SendRaw(w, ch.limits, Owners(s, c, to) > 0, h, payload, ds).0 == OK <==> Goes(s, p, h, c, to, payload, ds)
  {
    hide Inv, Valid, TableOk, SendRaw, Acceptable, Holders, Owners, Room, InFrame;
    var t := s.tables[p];
    InvTable(s, p);
    TableLost(t);
    SendSucceedsExactly(World(t, QueueOf(s.channels[c], to), s.budget), s.channels[c].limits, Owners(s, c, to) > 0, h, payload, ds, {},
                        t.count - |t.entries|);
  }

  lemma GoesFits(s: System, p: Process, h: Handle, c: ChannelId, to: nat, payload: seq<Byte>, ds: seq<Disposition>)
    requires p in s.tables && c in s.channels && to <= 1 && Goes(s, p, h, c, to, payload, ds)
    ensures Fits(s.channels[c].limits, |payload|, |ds|) && Acceptable(s.tables[p], ds, h)
  {
    hide Acceptable, Owners;
  }

  /** The books of a send, by what becomes of it: gone, lost for its size, or refused. */
  lemma SendOutcome(s: System, p: Process, h: Handle, c: ChannelId, to: nat, payload: seq<Byte>, ds: seq<Disposition>, u: World)
    requires Inv(s) && p in s.tables && c in s.channels && to <= 1
    requires u == SendRaw(World(s.tables[p], QueueOf(s.channels[c], to), s.budget), s.channels[c].limits, Owners(s, c, to) > 0, h, payload, ds).1
    ensures var v := Replace(s, p, u.table, c, SetQueue(s.channels[c], to, u.queue), u.budget);
      && (Goes(s, p, h, c, to, payload, ds) ==> Acceptable(s.tables[p], ds, h) && Account(s, v, CopiedBag(Records(s.tables[p], ds, h)), multiset{}))
      && (InFrame(payload, ds) && Acceptable(s.tables[p], ds, h) && !Fits(s.channels[c].limits, |payload|, |ds|) ==>
            Account(s, v, multiset{}, MovedBag(Records(s.tables[p], ds, h))))
      && (!Goes(s, p, h, c, to, payload, ds) && !(InFrame(payload, ds) && Acceptable(s.tables[p], ds, h) && !Fits(s.channels[c].limits, |payload|, |ds|)) ==>
            Account(s, v, multiset{}, multiset{}))
  {
    hide Inv, Valid, TableOk, QueueOk, ChanOk, SendRaw, Acceptable, Records, Holders, Owners, Account, TableBag, ChanBag, SetQueue, QueueOf, Covers,
         MovedHandles, Goes, InFrame, Fits;
    var t, ch := s.tables[p], s.channels[c];
    var w, open, lost := World(t, QueueOf(ch, to), s.budget), Owners(s, c, to) > 0, t.count - |t.entries|;
    InvTable(s, p);
    TableLost(t);
    ChanQueue(s, c, to);
    GoesIs(s, p, h, c, to, payload, ds);
    SetQueueIs(ch, to, w.queue);
    ReplaceSame(s, p, c);
    Even(s);
    if Fits(ch.limits, |payload|, |ds|) {
      SendAllOrNothing(w, ch.limits, open, h, payload, ds, {}, lost);
      if Goes(s, p, h, c, to, payload, ds) {
        SentTable(t, u.table, ds, h);
        SentHoldings(t, u.table, ch, to, u.queue, payload, Records(t, ds, h));
        ReplaceAccount(s, p, u.table, c, SetQueue(ch, to, u.queue), u.budget, CopiedBag(Records(t, ds, h)), multiset{});
      }
    } else {
      if Goes(s, p, h, c, to, payload, ds) { GoesFits(s, p, h, c, to, payload, ds); }
      if InFrame(payload, ds) && Acceptable(t, ds, h) {
        UnfitSend(w, ch.limits, open, h, payload, ds);
        SentTable(t, u.table, ds, h);
        LostHoldings(t, u.table, ch, Records(t, ds, h));
        ReplaceAccount(s, p, u.table, c, ch, s.budget, multiset{}, MovedBag(Records(t, ds, h)));
      } else {
        RefusedSend(w, ch.limits, open, h, payload, ds);
      }
    }
  }

  lemma SendAccount(s: System, p: Process, h: Handle, c: ChannelId, from: nat, payload: seq<Byte>, ds: seq<Disposition>)
    requires Inv(s) && p in s.tables && c in s.channels && from <= 1
    ensures var u := SendCall(s, p, h, RawEndpoint(c, from), payload, ds);
      Account(s, u, if Goes(s, p, h, c, 1 - from, payload, ds) then CopiedBag(Records(s.tables[p], ds, h)) else multiset{},
              if InFrame(payload, ds) && Acceptable(s.tables[p], ds, h) && !Fits(s.channels[c].limits, |payload|, |ds|)
              then MovedBag(Records(s.tables[p], ds, h)) else multiset{})
  {
    var to := if from == 0 then 1 else 0;
    hide Inv, SendRaw, Acceptable, Records, Owners, Account, SetQueue, QueueOf, Goes, InFrame, Fits;
    var w := World(s.tables[p], QueueOf(s.channels[c], to), s.budget);
    SendOutcome(s, p, h, c, to, payload, ds, SendRaw(w, s.channels[c].limits, Owners(s, c, to) > 0, h, payload, ds).1);
    if Goes(s, p, h, c, to, payload, ds) { GoesFits(s, p, h, c, to, payload, ds); }
  }

  lemma ReceivedHoldings(t: Table, u: Table, ch: Chan, side: nat, q: Queue, m: Message)
    requires u.entries == FillOnto(t.entries, t.next, m.resources) && QueueOf(ch, side).items == [m] + q.items
    requires forall h | t.next <= h < t.next + |m.resources| :: h !in t.entries
    ensures (TableBag(u) + ChanBag(SetQueue(ch, side, q))) + multiset{} == (TableBag(t) + ChanBag(ch)) + multiset{}
  {
    hide EntriesBag, ChanBag;
    FillBag(t.entries, t.next, m.resources);
    SetQueueIs(ch, side, q);
    var items := QueueOf(ch, side).items;
    assert items[1..] == q.items && items[0] == m;
    var a, b, x, y, z, r := TableBag(t), TableBag(u), ChanBag(ch), ChanBag(SetQueue(ch, side, q)), MessagesBag(q.items), ResourceBag(m.resources);
    forall o ensures ((b + y) + multiset{})[o] == ((a + x) + multiset{})[o] {
      assert b[o] == (a + r)[o] && (y + (r + z))[o] == (x + z)[o];
    }
  }

  lemma ReceiveAccount(s: System, p: Process, c: ChannelId, side: nat, f: Frame)
    requires Inv(s) && p in s.tables && c in s.channels && side <= 1
    ensures Account(s, ReceiveCall(s, p, RawEndpoint(c, side), f), multiset{}, multiset{})
  {
    hide Inv, Valid, TableOk, QueueOk, ChanOk, ReceiveInto, Holders, Owners, Account, TableBag, ChanBag, SetQueue, QueueOf, Covers, Filled;
    var t, ch := s.tables[p], s.channels[c];
    var w, open := World(t, QueueOf(ch, side), s.budget), Owners(s, c, Other(side)) > 0;
    var lost := t.count - |t.entries|;
    InvTable(s, p);
    TableLost(t);
    ChanQueue(s, c, side);
    SetQueueIs(ch, side, w.queue);
    if f.bytes > MAX_MESSAGE_BYTES || f.resources > MAX_TRANSFER {
      ReplaceSame(s, p, c);
      Even(s);
    } else {
      ReceiveAllOrNothing(w, ch.limits, open, f, {}, lost);
      var r := ReceiveInto(w, open, f);
      var u := r.world;
      if r.status == OK {
        var m := w.queue.items[0];
        ReceivedTable(w, open, f, t, lost, m.resources);
        ReceivedHoldings(t, u.table, ch, side, u.queue, m);
        ReplaceAccount(s, p, u.table, c, SetQueue(ch, side, u.queue), u.budget, multiset{}, multiset{});
      } else {
        EntriesDecide(t, u.table);
        ReplaceAccount(s, p, u.table, c, ch, s.budget, multiset{}, multiset{});
      }
    }
  }

  lemma ChannelAccount(s: System, c: ChannelId, ch: Chan, b: Budget, ended: multiset<Object>)
    requires c in s.channels && ChanBag(ch) + ended == ChanBag(s.channels[c])
    ensures Account(s, SetChannel(s, c, ch, b), multiset{}, ended)
  {
    hide MapBag, ChanBag;
    BagReplace(s.channels, ChanBag, c, ch);
    var n', n, m := MapBag(s.channels[c := ch], ChanBag), MapBag(s.channels, ChanBag), MapBag(s.tables, TableBag);
    var u := SetChannel(s, c, ch, b);
    forall o ensures (Holders(u) + ended)[o] == (Holders(s) + multiset{})[o] {
      assert (n' + ChanBag(s.channels[c]))[o] == (n + ChanBag(ch))[o];
      assert (ChanBag(ch) + ended)[o] == ChanBag(s.channels[c])[o];
    }
  }

  lemma DiscardAccount(s: System, c: ChannelId, side: nat)
    requires Inv(s) && c in s.channels && side <= 1
    ensures Account(s, DiscardCall(s, RawEndpoint(c, side)), multiset{},
                    if Waiting(s, c, side) != [] then ResourceBag(Waiting(s, c, side)[0].resources) else multiset{})
  {
    hide Inv, QueueOk, ChanOk, Covers, Account, ReleaseGlobal;
    ChanQueue(s, c, side);
    var ch := s.channels[c];
    var (_, q, b) := Discard(QueueOf(ch, side), s.budget);
    SetQueueIs(ch, side, q);
    if Waiting(s, c, side) != [] {
      var items := QueueOf(ch, side).items;
      var x, y, z, r := ChanBag(ch), ChanBag(SetQueue(ch, side, q)), MessagesBag(items[1..]), ResourceBag(items[0].resources);
      assert q.items == items[1..] && y + (r + z) == x + z;
      assert (y + r) + z == x + z;
      Cancel(y + r, x, z);
      ChannelAccount(s, c, SetQueue(ch, side, q), b, r);
    } else {
      ChannelAccount(s, c, SetQueue(ch, side, q), b, multiset{});
    }
  }

  lemma MessageAccount(s: System, call: Call)
    requires Inv(s) && (call.Send? || call.Receive? || call.DiscardMessage?)
    ensures Account(s, Step(s, call), Made(s, call), Ended(s, call))
  {
    hide Inv, Account, SendCall, ReceiveCall, DiscardCall, Goes, Acceptable, Records, Endpoint, Waiting, Fits, InFrame;
    Even(s);
    if Endpoint(s, call.p, call.h).Some? {
      EndpointHeld(s, call.p, call.h);
      var o := Endpoint(s, call.p, call.h).value;
      match call {
        case Send(p, h, payload, ds) => SendAccount(s, p, h, o.channel, o.side, payload, ds);
        case Receive(p, h, f) => ReceiveAccount(s, p, o.channel, o.side, f);
        case DiscardMessage(p, h) => DiscardAccount(s, o.channel, o.side);
        case _ =>
      }
    }
  }

  // ---------------------------------------------------------------------- kernel calls

  lemma EmptiedAccount(s: System, c: ChannelId)
    requires Inv(s) && c in s.channels
    ensures Account(s, Emptied(s, c), multiset{}, ChanBag(s.channels[c]))
    ensures c in Emptied(s, c).channels && ChanBag(Emptied(s, c).channels[c]) == multiset{} && Emptied(s, c).tables == s.tables
  {
    hide Inv, Emptied, Account;
    EmptiedIs(s, c);
    var u := Emptied(s, c);
    EmptyChan(u.channels[c]);
    ChannelAccount(s, c, u.channels[c], u.budget, ChanBag(s.channels[c]));
  }

  lemma RemovedAccount(u: System, c: ChannelId)
    requires c in u.channels && ChanBag(u.channels[c]) == multiset{}
    ensures Holders(u.(channels := u.channels - {c})) == Holders(u)
  {
    hide ChanBag;
    BagSplit(u.channels, ChanBag, c);
  }

  lemma DeleteAccount(s: System, c: ChannelId)
    requires Inv(s) && c in s.channels
    ensures Account(s, Emptied(s, c).(channels := Emptied(s, c).channels - {c}), multiset{}, ChanBag(s.channels[c]))
  {
    hide Inv, Emptied, ChanBag, Holders;
    EmptiedAccount(s, c);
    RemovedAccount(Emptied(s, c), c);
  }

  lemma KernelAccount(s: System, call: Call)
    requires Inv(s) && (call.KernelSend? || call.KernelHold? || call.KernelRelease? || call.Reap? || call.Delete?)
    ensures Account(s, Step(s, call), Made(s, call), Ended(s, call))
  {
    hide Inv, Emptied, Unheld, ChanBag, Account, KernelSendCall;
    Even(s);
    if call.c in s.channels {
      match call {
        case KernelSend(c, sender, payload, cap) => KernelSendAccount(s, c, sender, payload, cap);
        case KernelHold(c, side) => if side <= 1 { QuietChannel(s, c, Step(s, call).channels[c], s.budget); }
        case KernelRelease(c, side) => if side <= 1 { QuietChannel(s, c, Step(s, call).channels[c], s.budget); }
        case Reap(c) => EmptiedAccount(s, c);
        case Delete(c) => DeleteAccount(s, c);
        case _ =>
      }
    }
  }

  lemma QuietChannel(s: System, c: ChannelId, ch: Chan, b: Budget)
    requires c in s.channels && ch.queue0.items == s.channels[c].queue0.items && ch.queue1.items == s.channels[c].queue1.items
    ensures Account(s, SetChannel(s, c, ch, b), multiset{}, multiset{})
  {
    ChannelAccount(s, c, ch, b, multiset{});
  }

  lemma KernelSendAccount(s: System, c: ChannelId, sender: nat, payload: seq<Byte>, cap: nat)
    requires Inv(s) && c in s.channels
    ensures Account(s, Step(s, KernelSend(c, sender, payload, cap)), multiset{}, multiset{})
  {
    hide Inv, Step, Account, KernelGoes, ChanBag;
    KernelSendCrosses(s, c, sender, payload, cap);
    var u := Step(s, KernelSend(c, sender, payload, cap));
    assert u == SetChannel(s, c, u.channels[c], u.budget) by { assert u.channels == s.channels[c := u.channels[c]]; }
    PlainBag(s.channels[c], u.channels[c], payload);
    ChannelAccount(s, c, u.channels[c], u.budget, multiset{});
  }

  /** A message without resources changes nothing in what a channel holds. */
  lemma PlainBag(ch: Chan, u: Chan, payload: seq<Byte>)
    requires u.queue0.items == ch.queue0.items || u.queue0.items == ch.queue0.items + [Message(payload, [])]
    requires u.queue1.items == ch.queue1.items || u.queue1.items == ch.queue1.items + [Message(payload, [])]
    ensures ChanBag(u) == ChanBag(ch)
  {
    MessagesAppend(ch.queue0.items, Message(payload, []));
    MessagesAppend(ch.queue1.items, Message(payload, []));
  }

  // ------------------------------------------------------------------------------ runs

  /** Every call makes and ends exactly the holders the ledger says. */
  lemma StepAccount(s: System, call: Call)
    requires Inv(s)
    ensures Holders(Step(s, call)) + Ended(s, call) == Holders(s) + Made(s, call)
  {
    hide Inv, Step, Holders, Made, Ended;
    if call.CloseHandle? || call.DuplicateHandle? || call.RestrictHandle? || call.Grant? { HandleAccount(s, call); }
    else if call.Spawn? || call.Fork? || call.Exit? || call.CreateChannel? { ProcessAccount(s, call); }
    else if call.Send? || call.Receive? || call.DiscardMessage? { MessageAccount(s, call); }
    else { KernelAccount(s, call); }
  }

  ghost function AllMade(s: System, calls: seq<Call>): multiset<Object>
    decreases |calls|
  {
    if calls == [] then multiset{} else Made(s, calls[0]) + AllMade(Step(s, calls[0]), calls[1..])
  }

  ghost function AllEnded(s: System, calls: seq<Call>): multiset<Object>
    decreases |calls|
  {
    if calls == [] then multiset{} else Ended(s, calls[0]) + AllEnded(Step(s, calls[0]), calls[1..])
  }

  lemma {:induction false} RunAccount(s: System, calls: seq<Call>)
    requires Inv(s)
    ensures Holders(Run(s, calls)) + AllEnded(s, calls) == Holders(s) + AllMade(s, calls)
    decreases |calls|
  {
    hide Inv, Step, Holders, Made, Ended;
    if calls != [] {
      var u := Step(s, calls[0]);
      StepKeeps(s, calls[0]);
      StepAccount(s, calls[0]);
      RunAccount(u, calls[1..]);
      Chain(Holders(s), Holders(u), Holders(Run(s, calls)), Made(s, calls[0]), Ended(s, calls[0]), AllMade(u, calls[1..]), AllEnded(u, calls[1..]));
    }
  }

  lemma Chain(a: multiset<Object>, b: multiset<Object>, c: multiset<Object>, m: multiset<Object>, e: multiset<Object>,
              m': multiset<Object>, e': multiset<Object>)
    requires b + e == a + m && c + e' == b + m'
    ensures c + (e + e') == a + (m + m')
  {
    forall o ensures (c + (e + e'))[o] == (a + (m + m'))[o] {
      assert (b + e)[o] == (a + m)[o] && (c + e')[o] == (b + m')[o];
    }
  }

  /** Over every run from the empty system: the holders there are, together with those that were ended, are those that were made. */
  lemma HoldersAreAccountedFor(calls: seq<Call>)
    ensures Holders(Run(BOOT, calls)) + AllEnded(BOOT, calls) == AllMade(BOOT, calls)
  {
    BootInv();
    RunAccount(BOOT, calls);
    assert Holders(BOOT) == multiset{};
  }

  // -------------------------------------------------------------------- kernel holds

  /** A hold of the kernel's own counts as one owner of exactly that end, and its release takes it back. */
  lemma KernelHoldOwns(s: System, c: ChannelId, side: nat)
    requires Inv(s) && c in s.channels && side <= 1
    ensures var u := Step(s, KernelHold(c, side));
      && c in u.channels
      && Owners(u, c, side) == Owners(s, c, side) + 1 && Owners(u, c, 1 - side) == Owners(s, c, 1 - side)
      && Step(u, KernelRelease(c, side)) == s
  {
    hide Inv, Holders;
    KernelAccount(s, KernelHold(c, side));
    var u := Step(s, KernelHold(c, side));
    Cancel(Holders(u), Holders(s), multiset{});
    var v := Step(u, KernelRelease(c, side));
    assert v.channels == s.channels;
  }
}
