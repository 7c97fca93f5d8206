/** Where messages go: what is sent through one end of a channel is what the holders of the other end receive,
    each message once and in order, over every run of system calls. */
module IpcDelivery {
  import opened Options
  import opened CapabilityTable
  import opened CapabilityLaws
  import opened CapabilityBags
  import opened Channel
  import opened Transfer
  import opened IpcState
  import opened IpcCalls
  import opened IpcTransfers
  import opened IpcRuns

  /** The message a batch becomes. */
  function Letter(t: Table, h: Handle, payload: seq<Byte>, ds: seq<Disposition>): Message
    requires Acceptable(t, ds, h)
  {
    Message(payload, Resources(Records(t, ds, h)))
  }

  /** A send through handle h to end `to` of channel c is in order: frame and batch are, somebody holds that end,
      and its queue and the budgets have room. */
  ghost predicate Goes(s: System, p: Process, h: Handle, c: ChannelId, to: nat, payload: seq<Byte>, ds: seq<Disposition>)
    requires p in s.tables && c in s.channels && to <= 1
  {
    && InFrame(payload, ds) && Acceptable(s.tables[p], ds, h) && Owners(s, c, to) > 0
    && Room(if to == 0 then s.channels[c].queue0 else s.channels[c].queue1, s.channels[c].limits, s.budget, |payload|, |ds|)
  }

  ghost predicate KernelGoes(s: System, c: ChannelId, to: nat, payload: seq<Byte>, cap: nat)
    requires c in s.channels && to <= 1
  {
    var q := if to == 0 then s.channels[c].queue0 else s.channels[c].queue1;
    Owners(s, c, to) > 0 && (cap == 0 || |q.items| < cap) && Room(q, s.channels[c].limits, s.budget, |payload|, 0)
  }

  /** u differs from s in no channel but c, and there not in limits and kernel holds. */
  ghost predicate OnlyQueues(s: System, u: System, c: ChannelId)
    requires c in s.channels
  {
    && u.channels.Keys == s.channels.Keys && (forall k | k in s.channels && k != c :: u.channels[k] == s.channels[k])
    && u.channels[c] == s.channels[c].(queue0 := u.channels[c].queue0, queue1 := u.channels[c].queue1)
  }

  predicate Appended(q: Queue, q': Queue, ms: seq<Message>) {
    q'.items == q.items + ms && q'.claimed == q.claimed && (ms == [] ==> q' == q)
  }

  // ------------------------------------------------------------------------- sending

  lemma SendQueue(w: World, l: Limits, open: bool, h: Handle, payload: seq<Byte>, ds: seq<Disposition>, lost: nat)
    requires Valid(w.table, {}, lost) && QueueOk(w.queue, l)
    ensures var goes := InFrame(payload, ds) && Acceptable(w.table, ds, h) && open && Room(w.queue, l, w.budget, |payload|, |ds|);
      Appended(w.queue, SendRaw(w, l, open, h, payload, ds).1.queue, if goes then [Letter(w.table, h, payload, ds)] else [])
  {
    hide Valid, QueueOk, SendRaw, Acceptable, Records;
    SendSucceedsExactly(w, l, open, h, payload, ds, {}, lost);
    if Fits(l, |payload|, |ds|) {
      SendAllOrNothing(w, l, open, h, payload, ds, {}, lost);
    } else if InFrame(payload, ds) && Acceptable(w.table, ds, h) {
      UnfitSend(w, l, open, h, payload, ds);
    } else {
      RefusedSend(w, l, open, h, payload, ds);
    }
  }

  lemma EndpointHeld(s: System, p: Process, h: Handle)
    requires Inv(s) && Endpoint(s, p, h).Some?
    ensures p in s.tables && Endpoint(s, p, h).value.RawEndpoint? && Endpoint(s, p, h).value.side <= 1
    ensures Endpoint(s, p, h).value.channel in s.channels
  {
    hide Sound, BudgetOk, RawBound;
    var t, o := s.tables[p], Endpoint(s, p, h).value;
    Bags.BagSplit(s.tables, TableBag, p);
    EntryInBag(t, h);
    assert o in Holders(s);
  }

  lemma EntryInBag(t: Table, h: Handle)
    requires h in t.entries && t.entries[h].obj.Some?
    ensures t.entries[h].obj.value in TableBag(t)
  {
    Bags.BagSplit(t.entries, EntryBag, h);
  }

  lemma SendStep(s: System, p: Process, h: Handle, payload: seq<Byte>, ds: seq<Disposition>)
    requires Endpoint(s, p, h).Some? && p in s.tables && Endpoint(s, p, h).value.RawEndpoint? && Endpoint(s, p, h).value.channel in s.channels
    ensures Step(s, Send(p, h, payload, ds)) == SendCall(s, p, h, Endpoint(s, p, h).value, payload, ds)
  {
    hide SendCall, Endpoint;
  }

  lemma ReceiveStep(s: System, p: Process, h: Handle, f: Frame)
    requires Endpoint(s, p, h).Some? && p in s.tables && Endpoint(s, p, h).value.RawEndpoint? && Endpoint(s, p, h).value.channel in s.channels
    ensures Step(s, Receive(p, h, f)) == ReceiveCall(s, p, Endpoint(s, p, h).value, f)
  {
    hide ReceiveCall, Endpoint;
  }

  /** The messages went into the queue that waits for the end other than `from`, and into no other queue. */
  ghost predicate Crossed(s: System, u: System, c: ChannelId, from: nat, ms: seq<Message>)
    requires c in s.channels
  {
    && OnlyQueues(s, u, c)
    && (from == 0 ==> u.channels[c].queue0 == s.channels[c].queue0 && Appended(s.channels[c].queue1, u.channels[c].queue1, ms))
    && (from == 1 ==> u.channels[c].queue1 == s.channels[c].queue1 && Appended(s.channels[c].queue0, u.channels[c].queue0, ms))
  }

  lemma SendCallCrosses(s: System, p: Process, h: Handle, c: ChannelId, from: nat, payload: seq<Byte>, ds: seq<Disposition>)
    requires Inv(s) && p in s.tables && c in s.channels && from <= 1
    ensures Crossed(s, SendCall(s, p, h, RawEndpoint(c, from), payload, ds), c, from,
                    if Goes(s, p, h, c, 1 - from, payload, ds) then [Letter(s.tables[p], h, payload, ds)] else [])
  {
    hide Inv, Valid, TableOk, QueueOk, ChanOk, SendRaw, Acceptable, Records, Holders, Owners, Letter, Room, InFrame;
    var ch, to := s.channels[c], if from == 0 then 1 else 0;
    InvTable(s, p);
    TableLost(s.tables[p]);
    ChanQueue(s, c, to);
    SendQueue(World(s.tables[p], QueueOf(ch, to), s.budget), ch.limits, Owners(s, c, to) > 0, h, payload, ds,
              s.tables[p].count - |s.tables[p].entries|);
  }

  /** A send through one end leaves that end's own queue alone and appends the message to the other end's queue
      exactly if it is in order and the other end has an owner. */
  lemma SendCrosses(s: System, p: Process, h: Handle, payload: seq<Byte>, ds: seq<Disposition>)
    requires Inv(s) && Endpoint(s, p, h).Some?
    ensures var c, from := Endpoint(s, p, h).value.channel, Endpoint(s, p, h).value.side;
      && p in s.tables && c in s.channels && from <= 1
      && Crossed(s, Step(s, Send(p, h, payload, ds)), c, from,
                 if Goes(s, p, h, c, 1 - from, payload, ds) then [Letter(s.tables[p], h, payload, ds)] else [])
  {
    hide Inv, SendCall, Crossed, Goes, Letter, Endpoint, Acceptable, Step;
    EndpointHeld(s, p, h);
    SendStep(s, p, h, payload, ds);
    var o := Endpoint(s, p, h).value;
    SendCallCrosses(s, p, h, o.channel, o.side, payload, ds);
  }

  /** The same for a message of the kernel's own. */
  lemma KernelSendCrosses(s: System, c: ChannelId, sender: nat, payload: seq<Byte>, cap: nat)
    requires Inv(s) && c in s.channels
    ensures var u := Step(s, KernelSend(c, sender, payload, cap));
      && u.tables == s.tables && (sender > 1 ==> u == s)
      && (sender <= 1 ==> Crossed(s, u, c, sender, if KernelGoes(s, c, 1 - sender, payload, cap) then [Message(payload, [])] else []))
  {
    hide Inv, QueueOk, ChanOk, Holders, Owners, Push;
    var ch, to := s.channels[c], if sender == 0 then 1 else 0;
    ChanQueue(s, c, to);
    PushKeeps(QueueOf(ch, to), ch.limits, s.budget, Owners(s, c, to) > 0, cap, Message(payload, []));
    PushTells(QueueOf(ch, to), ch.limits, s.budget, Owners(s, c, to) > 0, cap, Message(payload, []));
  }

  // ----------------------------------------------------------------------- receiving

  /** What a table holds under a handle; anything, when it holds nothing. */
  function ResourceAt(t: Table, h: Handle): Resource {
    if h in t.entries && t.entries[h].obj.Some? then Resource(t.entries[h].obj.value, t.entries[h].meta) else Resource(Sharable(0), BLANK)
  }

  /** The whole message a receiver got: the payload, and what its table holds under the handles it was given. */
  function Got(r: Received): Message {
    Message(r.payload, seq(|r.handles|, i requires 0 <= i < |r.handles| => ResourceAt(r.world.table, r.handles[i])))
  }

  lemma {:induction false} FilledAt(b: map<Handle, Entry>, first: Handle, rs: seq<Resource>, h: Handle)
    ensures if first <= h < first + |rs| then
              h in FillOnto(b, first, rs) && FillOnto(b, first, rs)[h] == Entry(Some(rs[h - first].obj), h, Active, rs[h - first].meta)
            else (h in FillOnto(b, first, rs) <==> h in b) && (h in b ==> FillOnto(b, first, rs)[h] == b[h])
    decreases |rs|
  {
    if rs != [] { FilledAt(b[first := Entry(Some(rs[0].obj), first, Active, rs[0].meta)], first + 1, rs[1..], h); }
  }

  lemma ReceiveHands(w: World, l: Limits, open: bool, f: Frame, lost: nat)
    requires Valid(w.table, {}, lost) && QueueOk(w.queue, l) && Covers(w.budget, w.queue)
    ensures var r := ReceiveRaw(w, open, f);
      && (r.status == OK ==> w.queue.items != [] && Got(r) == w.queue.items[0] && r.world.queue.items == w.queue.items[1..])
      && (r.status != OK ==> r.world.queue == w.queue)
  {
    hide Valid, QueueOk, Covers, ReceiveInto, Filled;
    if f.bytes <= MAX_MESSAGE_BYTES && f.resources <= MAX_TRANSFER {
      ReceiveAllOrNothing(w, l, open, f, {}, lost);
      var r := ReceiveInto(w, open, f);
      if r.status == OK {
        var m := w.queue.items[0];
        ReceivedTable(w, open, f, w.table, lost, m.resources);
        forall i | 0 <= i < |r.handles| ensures ResourceAt(r.world.table, r.handles[i]) == m.resources[i] {
          FilledAt(w.table.entries, w.table.next, m.resources, w.table.next + i);
        }
        assert Got(r).resources == m.resources;
      }
    }
  }

  /** The receive took the head of the queue that waits for end `side`, and handed it over, or left the queue as it was. */
  ghost predicate TookHead(s: System, u: System, c: ChannelId, side: nat, r: Received)
    requires c in s.channels
  {
    && OnlyQueues(s, u, c)
    && (side == 0 ==> u.channels[c].queue1 == s.channels[c].queue1 && HeadGone(s.channels[c].queue0, u.channels[c].queue0, r))
    && (side == 1 ==> u.channels[c].queue0 == s.channels[c].queue0 && HeadGone(s.channels[c].queue1, u.channels[c].queue1, r))
  }

  ghost predicate HeadGone(q: Queue, q': Queue, r: Received) {
    && (r.status == OK ==> q.items != [] && Got(r) == q.items[0] && q'.items == q.items[1..])
    && (r.status != OK ==> q' == q)
  }

  lemma ReceiveCallTakes(s: System, p: Process, c: ChannelId, side: nat, f: Frame)
    requires Inv(s) && p in s.tables && c in s.channels && side <= 1
    ensures var o := RawEndpoint(c, side); var r, u := Reply(s, p, o, f), ReceiveCall(s, p, o, f);
      TookHead(s, u, c, side, r) && u.tables == s.tables[p := r.world.table]
  {
    hide Inv, Valid, TableOk, QueueOk, ChanOk, ReceiveRaw, Holders, Owners, Covers, Got;
    InvTable(s, p);
    TableLost(s.tables[p]);
    ChanQueue(s, c, side);
    ReceiveHands(World(s.tables[p], QueueOf(s.channels[c], side), s.budget), s.channels[c].limits,
                 Owners(s, c, Other(side)) > 0, f, s.tables[p].count - |s.tables[p].entries|);
  }

  /** A receive at one end leaves the other end's queue alone; it hands over exactly the head of its own and takes it
      out, or leaves the queue as it was. */
  lemma ReceiveTakesHead(s: System, p: Process, h: Handle, f: Frame)
    requires Inv(s) && Endpoint(s, p, h).Some?
    ensures var o := Endpoint(s, p, h).value; var u := Step(s, Receive(p, h, f));
      && p in s.tables && o.RawEndpoint? && o.channel in s.channels && o.side <= 1
      && TookHead(s, u, o.channel, o.side, Reply(s, p, o, f)) && u.tables == s.tables[p := Reply(s, p, o, f).world.table]
  {
    hide Inv, ReceiveCall, TookHead, Reply, Endpoint, Step;
    EndpointHeld(s, p, h);
    ReceiveStep(s, p, h, f);
    var o := Endpoint(s, p, h).value;
    ReceiveCallTakes(s, p, o.channel, o.side, f);
  }

  /** When a receive is answered with the head of its queue. */
  ghost predicate Fetches(s: System, p: Process, c: ChannelId, side: nat, f: Frame)
    requires p in s.tables && c in s.channels && side <= 1
  {
    var q, t := (if side == 0 then s.channels[c].queue0 else s.channels[c].queue1), s.tables[p];
    && q.items != [] && f.memory == Fine && f.bytes <= MAX_MESSAGE_BYTES && f.resources <= MAX_TRANSFER
    && var n := |q.items[0].resources|;
    && |q.items[0].payload| <= f.bytes && n <= f.resources
    && (n == 0 || (t.next != NO_HANDLE && t.count + n <= MAX_ENTRIES && t.next + n <= HANDLE_SPACE))
  }

  lemma ReplyIsOk(s: System, p: Process, c: ChannelId, side: nat, f: Frame)
    requires Inv(s) && p in s.tables && c in s.channels && side <= 1
    ensures Reply(s, p, RawEndpoint(c, side), f).status == OK <==> Fetches(s, p, c, side, f)
  {
    hide Inv, Valid, TableOk, QueueOk, ChanOk, ReceiveInto, Holders, Owners, Covers;
    InvTable(s, p);
    TableLost(s.tables[p]);
    ChanQueue(s, c, side);
    ReceiveSucceedsExactly(World(s.tables[p], QueueOf(s.channels[c], side), s.budget), Owners(s, c, Other(side)) > 0, f, {},
                           s.tables[p].count - |s.tables[p].entries|);
  }

  /** A message sent through one end of a channel with nothing under way arrives whole at the other end: the first
      receive there that has room for it gets its payload and its capabilities. */
  lemma SentIsReceived(s: System, p: Process, h: Handle, c: ChannelId, from: nat, payload: seq<Byte>, ds: seq<Disposition>,
                       u: System, q: Process, f: Frame)
    requires Inv(s) && p in s.tables && c in s.channels && from <= 1 && Endpoint(s, p, h) == Some(RawEndpoint(c, from))
    requires Goes(s, p, h, c, 1 - from, payload, ds)
    requires if from == 0 then s.channels[c].queue1.items == [] else s.channels[c].queue0.items == []
    requires u == Step(s, Send(p, h, payload, ds)) && q in u.tables
    requires f.memory == Fine && |payload| <= f.bytes <= MAX_MESSAGE_BYTES && |ds| <= f.resources <= MAX_TRANSFER
    requires |ds| == 0 || (u.tables[q].next != NO_HANDLE && u.tables[q].count + |ds| <= MAX_ENTRIES && u.tables[q].next + |ds| <= HANDLE_SPACE)
    ensures c in u.channels
    ensures var r := Reply(u, q, RawEndpoint(c, 1 - from), f); r.status == OK && Got(r).payload == payload
    ensures Acceptable(s.tables[p], ds, h) && Got(Reply(u, q, RawEndpoint(c, 1 - from), f)) == Letter(s.tables[p], h, payload, ds)
  {
    hide Inv, Endpoint, Goes, Reply, Step, Acceptable, Records, Valid, Letter, Got;
    SendCrosses(s, p, h, payload, ds);
    StepKeeps(s, Send(p, h, payload, ds));
    LetterSize(s, p, h, c, 1 - from, payload, ds);
    ReplyIsOk(u, q, c, 1 - from, f);
    ReceiveCallTakes(u, q, c, 1 - from, f);
  }

  lemma LetterSize(s: System, p: Process, h: Handle, c: ChannelId, to: nat, payload: seq<Byte>, ds: seq<Disposition>)
    requires p in s.tables && c in s.channels && to <= 1 && Goes(s, p, h, c, to, payload, ds)
    ensures Acceptable(s.tables[p], ds, h) && |Letter(s.tables[p], h, payload, ds).resources| == |ds|
    ensures Letter(s.tables[p], h, payload, ds).payload == payload
  {
  }

  // ---------------------------------------------------------------------- over a run

  /** What waits for an end of a channel. */
  function Waiting(s: System, c: ChannelId, to: nat): seq<Message> {
    if c !in s.channels then [] else if to == 0 then s.channels[c].queue0.items else s.channels[c].queue1.items
  }

  /** What a call puts on its way to end `to` of channel c. */
  ghost function Sent(s: System, call: Call, c: ChannelId, to: nat): seq<Message>
    requires to <= 1
  {
    match call
    case Send(p, h, payload, ds) =>
      if c in s.channels && p in s.tables && Endpoint(s, p, h) == Some(RawEndpoint(c, 1 - to)) && Goes(s, p, h, c, to, payload, ds)
      then [Letter(s.tables[p], h, payload, ds)] else []
    case KernelSend(k, sender, payload, cap) =>
      if k == c && c in s.channels && sender == 1 - to && KernelGoes(s, c, to, payload, cap) then [Message(payload, [])] else []
    case _ => []
  }

  /** What a call takes away from end `to` of channel c: the message it hands to its caller, the one it discards, or all of
      them when the channel is emptied. */
  ghost function Gone(s: System, call: Call, c: ChannelId, to: nat): seq<Message>
    requires to <= 1
  {
    match call
    case Receive(p, h, f) =>
      if c in s.channels && p in s.tables && Endpoint(s, p, h) == Some(RawEndpoint(c, to)) && Reply(s, p, RawEndpoint(c, to), f).status == OK
      then [Got(Reply(s, p, RawEndpoint(c, to), f))] else []
    case DiscardMessage(p, h) =>
      if Endpoint(s, p, h) == Some(RawEndpoint(c, to)) && Waiting(s, c, to) != [] then Waiting(s, c, to)[..1] else []
    case Reap(k) => if k == c then Waiting(s, c, to) else []
    case Delete(k) => if k == c && Unheld(s, c) then Waiting(s, c, to) else []
    case _ => []
  }

  ghost predicate Flows(s: System, call: Call, c: ChannelId, to: nat)
    requires to <= 1
  {
    Waiting(s, c, to) + Sent(s, call, c, to) == Gone(s, call, c, to) + Waiting(Step(s, call), c, to)
  }

  lemma SendFlows(s: System, p: Process, h: Handle, payload: seq<Byte>, ds: seq<Disposition>, c: ChannelId, to: nat)
    requires Inv(s) && to <= 1 && Endpoint(s, p, h).Some?
    ensures Flows(s, Send(p, h, payload, ds), c, to)
  {
    hide Inv, Step, Goes, Letter, Endpoint, Acceptable;
    SendCrosses(s, p, h, payload, ds);
    EndpointHeld(s, p, h);
  }

  lemma ReceiveFlows(s: System, p: Process, h: Handle, f: Frame, c: ChannelId, to: nat)
    requires Inv(s) && to <= 1 && Endpoint(s, p, h).Some?
    ensures Flows(s, Receive(p, h, f), c, to)
  {
    hide Inv, Step, Endpoint, Reply, Got;
    ReceiveTakesHead(s, p, h, f);
    EndpointHeld(s, p, h);
  }

  lemma DiscardStep(s: System, p: Process, h: Handle)
    requires Endpoint(s, p, h).Some? && p in s.tables && Endpoint(s, p, h).value.RawEndpoint? && Endpoint(s, p, h).value.channel in s.channels
    ensures Step(s, DiscardMessage(p, h)) == DiscardCall(s, Endpoint(s, p, h).value)
  {
    hide DiscardCall, Endpoint;
  }

  lemma DiscardFlows(s: System, p: Process, h: Handle, c: ChannelId, to: nat)
    requires Inv(s) && to <= 1 && Endpoint(s, p, h).Some?
    ensures Flows(s, DiscardMessage(p, h), c, to)
  {
    hide Inv, Step, Endpoint;
    EndpointHeld(s, p, h);
    DiscardStep(s, p, h);
    var o := Endpoint(s, p, h).value;
    ChanQueue(s, o.channel, o.side);
  }

  lemma KernelSendFlows(s: System, k: ChannelId, sender: nat, payload: seq<Byte>, cap: nat, c: ChannelId, to: nat)
    requires Inv(s) && to <= 1 && k in s.channels
    ensures Flows(s, KernelSend(k, sender, payload, cap), c, to)
  {
    hide Inv, Step, KernelGoes;
    KernelSendCrosses(s, k, sender, payload, cap);
  }

  lemma EmptiedFlows(s: System, call: Call, c: ChannelId, to: nat)
    requires Inv(s) && to <= 1 && (call.Reap? || call.Delete?)
    ensures Flows(s, call, c, to)
  {
    hide Inv, Emptied, Unheld;
    if call.c in s.channels { EmptiedIs(s, call.c); }
  }

  /** Calls that carry no message leave every queue alone. */
  lemma QuietFlows(s: System, call: Call, c: ChannelId, to: nat)
    requires to <= 1 && !call.Send? && !call.Receive? && !call.DiscardMessage? && !call.KernelSend? && !call.Reap? && !call.Delete?
    ensures Flows(s, call, c, to)
  {
    QuietWaiting(s, call, c, to);
    hide Step, Waiting;
    assert Waiting(s, c, to) + [] == [] + Waiting(s, c, to);
  }

  lemma QuietWaiting(s: System, call: Call, c: ChannelId, to: nat)
    requires !call.Send? && !call.Receive? && !call.DiscardMessage? && !call.KernelSend? && !call.Reap? && !call.Delete?
    ensures Waiting(Step(s, call), c, to) == Waiting(s, c, to)
  {
    hide CloneFork, Install, Close, Duplicate, Restrict, Create;
    if call.CreateChannel? && call.p in s.tables && call.c !in s.channels { CreateWaiting(s, call.p, call.c, call.asked, call.written, c, to); }
  }

  lemma CreateWaiting(s: System, p: Process, k: ChannelId, asked: Limits, written: bool, c: ChannelId, to: nat)
    requires p in s.tables && k !in s.channels
    ensures Waiting(Create(s, p, k, asked, written), c, to) == Waiting(s, c, to)
  {
    hide Reserve, Filled, Close, ChosenLimits;
  }

  lemma StepFlows(s: System, call: Call, c: ChannelId, to: nat)
    requires Inv(s) && to <= 1
    ensures Flows(s, call, c, to)
  {
    hide Inv, Flows;
    if call.Send? || call.Receive? || call.DiscardMessage? {
      if Endpoint(s, call.p, call.h).None? {
        NoEndpointFlows(s, call, c, to);
      } else {
        match call {
          case Send(p, h, payload, ds) => SendFlows(s, p, h, payload, ds, c, to);
          case Receive(p, h, f) => ReceiveFlows(s, p, h, f, c, to);
          case DiscardMessage(p, h) => DiscardFlows(s, p, h, c, to);
          case _ =>
        }
      }
    } else if call.KernelSend? {
      if call.c in s.channels { KernelSendFlows(s, call.c, call.sender, call.payload, call.cap, c, to); } else { NoChannelFlows(s, call, c, to); }
    } else if call.Reap? || call.Delete? {
      EmptiedFlows(s, call, c, to);
    } else {
      QuietFlows(s, call, c, to);
    }
  }

  lemma NoEndpointFlows(s: System, call: Call, c: ChannelId, to: nat)
    requires to <= 1 && (call.Send? || call.Receive? || call.DiscardMessage?) && Endpoint(s, call.p, call.h).None?
    ensures Flows(s, call, c, to)
  {
    hide Endpoint;
  }

  lemma NoChannelFlows(s: System, call: Call, c: ChannelId, to: nat)
    requires to <= 1 && call.KernelSend? && call.c !in s.channels
    ensures Flows(s, call, c, to)
  {
  }

  ghost function AllSent(s: System, calls: seq<Call>, c: ChannelId, to: nat): seq<Message>
    requires to <= 1
    decreases |calls|
  {
    if calls == [] then [] else Sent(s, calls[0], c, to) + AllSent(Step(s, calls[0]), calls[1..], c, to)
  }

  ghost function AllGone(s: System, calls: seq<Call>, c: ChannelId, to: nat): seq<Message>
    requires to <= 1
    decreases |calls|
  {
    if calls == [] then [] else Gone(s, calls[0], c, to) + AllGone(Step(s, calls[0]), calls[1..], c, to)
  }

  lemma {:induction false} RunFlows(s: System, calls: seq<Call>, c: ChannelId, to: nat)
    requires Inv(s) && to <= 1
    ensures Waiting(s, c, to) + AllSent(s, calls, c, to) == AllGone(s, calls, c, to) + Waiting(Run(s, calls), c, to)
    decreases |calls|
  {
    hide Inv, Step, Sent, Gone, Waiting;
    if calls != [] {
      var u := Step(s, calls[0]);
      StepKeeps(s, calls[0]);
      StepFlows(s, calls[0], c, to);
      RunFlows(u, calls[1..], c, to);
      calc {
        Waiting(s, c, to) + AllSent(s, calls, c, to);
        (Waiting(s, c, to) + Sent(s, calls[0], c, to)) + AllSent(u, calls[1..], c, to);
        (Gone(s, calls[0], c, to) + Waiting(u, c, to)) + AllSent(u, calls[1..], c, to);
        Gone(s, calls[0], c, to) + (AllGone(u, calls[1..], c, to) + Waiting(Run(s, calls), c, to));
        AllGone(s, calls, c, to) + Waiting(Run(s, calls), c, to);
      }
    }
  }

  /** Over every run: the messages sent towards an end of a channel, in the order they were sent, are those its holders
      got or that were thrown away there, in that order, followed by those still waiting. */
  lemma DeliveredInOrder(calls: seq<Call>, c: ChannelId, to: nat)
    requires to <= 1
    ensures AllSent(BOOT, calls, c, to) == AllGone(BOOT, calls, c, to) + Waiting(Run(BOOT, calls), c, to)
  {
    BootInv();
    RunFlows(BOOT, calls, c, to);
    assert Waiting(BOOT, c, to) == [];
  }
}
