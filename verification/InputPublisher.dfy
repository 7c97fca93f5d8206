/** The input source's loss marking: one subscription, publishes one after another, receives and a
    closing peer at any point in between. */
module InputPublisher {

  datatype Item = Key(n: nat) | Overrun

  /** What happened to each published event, and when markers were sent. */
  datatype Entry = Delivered(n: nat) | Lost(n: nat) | Marked

  /** Where the publisher is.  `latch` is its own copy of the subscription's overrun latch. */
  datatype Pc =
    | Idle
    | Snapped(n: nat, latch: bool)   // copied the subscription's fields
    | Checking(n: nat, latch: bool)  // has tried to send an owed marker
    | Sending(n: nat, latch: bool)   // saw room for an ordinary event
    | Dropping(n: nat)               // saw no room
    | Latching(latch: bool)          // about to store the latch

  /** The channel has one message slot more than `capacity`. */
  datatype State = State(capacity: nat, subscribed: bool, latch: bool, peerOpen: bool, queue: seq<Item>, consumed: seq<Item>,
                         pc: Pc, log: seq<Entry>)

  /** `accepted` is whether the kernel-wide budgets admit the message this step may send. */
  datatype Event = Publish(n: nat) | Advance(accepted: bool) | Receive | PeerCloses

  datatype Outcome = Ok | Refused | Closed

  function Try(s: State, accepted: bool): Outcome {
    if !s.peerOpen then Closed else if |s.queue| >= s.capacity + 1 || !accepted then Refused else Ok
  }

  function Put(s: State, i: Item, pc: Pc, more: seq<Entry>): State {
    s.(queue := s.queue + [i], pc := pc, log := s.log + more)
  }

  function DoAdvance(s: State, accepted: bool): State {
    var outcome := Try(s, accepted);
    match s.pc
    case Idle => s
    case Snapped(n, latch) =>
      if !latch then s.(pc := Checking(n, false))
      else if outcome == Ok then Put(s, Overrun, Checking(n, false), [Marked])
      else if outcome == Closed then s.(pc := Idle)
      else s.(pc := Checking(n, true))
    case Checking(n, latch) => s.(pc := if |s.queue| >= s.capacity then Dropping(n) else Sending(n, latch))
    case Dropping(n) =>
      if outcome == Ok then Put(s, Overrun, Latching(false), [Lost(n), Marked])
      else s.(pc := Latching(true), log := s.log + [Lost(n)])
    case Sending(n, latch) =>
      if outcome == Ok then Put(s, Key(n), Latching(latch), [Delivered(n)])
      else if outcome == Closed then s.(pc := Idle, subscribed := false, latch := false)
      else s.(pc := Latching(true), log := s.log + [Lost(n)])
    case Latching(latch) => s.(pc := Idle, latch := latch)
  }

  function Step(s: State, e: Event): State {
    match e
    case Publish(n) => if s.pc.Idle? && s.subscribed then s.(pc := Snapped(n, s.latch)) else s
    case Advance(accepted) => DoAdvance(s, accepted)
    case Receive => if s.queue == [] then s else s.(queue := s.queue[1..], consumed := s.consumed + [s.queue[0]])
    case PeerCloses => s.(peerOpen := false)
  }

  function Run(s: State, es: seq<Event>): State
    decreases |es|
  {
    if es == [] then s else Run(Step(s, es[0]), es[1..])
  }

  /** A new subscription for up to `capacity` events. */
  function Subscribed(capacity: nat): State {
    State(capacity, true, false, true, [], [], Idle, [])
  }

  // -------------------------------------------------------------------- invariant

  predicate MarkedAfter(log: seq<Entry>, i: nat) {
    exists j :: i < j < |log| && log[j].Marked?
  }

  /** Every loss so far was followed by a marker. */
  predicate Covered(log: seq<Entry>) {
    forall i | 0 <= i < |log| && log[i].Lost? :: MarkedAfter(log, i)
  }

  /** The items sent, in order. */
  function Sent(log: seq<Entry>): seq<Item> {
    if log == [] then []
    else
      var last := log[|log| - 1];
      Sent(log[..|log| - 1]) + (if last.Delivered? then [Key(last.n)] else if last.Marked? then [Overrun] else [])
  }

  predicate Honest(s: State) {
    && (s.subscribed ==> Covered(s.log) || s.latch || s.pc == Latching(true))
    && ((s.pc.Snapped? || s.pc.Checking? || s.pc.Sending?) && !s.pc.latch ==> Covered(s.log))
    && (s.pc == Latching(false) ==> Covered(s.log))
  }

  predicate SlotKept(s: State) {
    && |s.queue| <= s.capacity + 1
    && (|s.queue| == s.capacity + 1 ==> s.queue[s.capacity] == Overrun)
    && (s.pc.Sending? ==> |s.queue| < s.capacity)
  }

  predicate Inv(s: State) {
    Honest(s) && SlotKept(s) && s.consumed + s.queue == Sent(s.log)
  }

  lemma CoveredAppend(log: seq<Entry>, e: Entry)
    ensures e.Marked? ==> Covered(log + [e])
    ensures e.Delivered? && Covered(log) ==> Covered(log + [e])
  {
    var u := log + [e];
    if e.Marked? || (e.Delivered? && Covered(log)) {
      forall i | 0 <= i < |u| && u[i].Lost? ensures MarkedAfter(u, i) {
        if e.Marked? {
          assert u[|log|].Marked?;
        } else {
          assert MarkedAfter(log, i);
          var j :| i < j < |log| && log[j].Marked?;
          assert u[j].Marked?;
        }
      }
    }
  }

  lemma SentAppend(log: seq<Entry>, e: Entry)
    ensures Sent(log + [e]) == Sent(log) + (if e.Delivered? then [Key(e.n)] else if e.Marked? then [Overrun] else [])
  {
    assert (log + [e])[..|log|] == log;
  }

  lemma PutKeeps(s: State, i: Item, pc: Pc, e: Entry)
    requires s.consumed + s.queue == Sent(s.log) && (if i.Overrun? then e.Marked? else e == Delivered(i.n))
    ensures var u := Put(s, i, pc, [e]); u.consumed + u.queue == Sent(u.log)
  {
    SentAppend(s.log, e);
    assert s.consumed + (s.queue + [i]) == (s.consumed + s.queue) + [i];
  }

  lemma AdvanceKeeps(s: State, accepted: bool)
    requires Inv(s)
    ensures Inv(DoAdvance(s, accepted))
  {
    hide Covered, Sent;
    var outcome := Try(s, accepted);
    match s.pc {
      case Snapped(n, latch) =>
        PutKeeps(s, Overrun, Checking(n, false), Marked);
        CoveredAppend(s.log, Marked);
      case Dropping(n) =>
        SentAppend(s.log, Lost(n));
        var v := s.(log := s.log + [Lost(n)]);
        PutKeeps(v, Overrun, Latching(false), Marked);
        CoveredAppend(v.log, Marked);
        assert s.log + [Lost(n), Marked] == v.log + [Marked];
      case Sending(n, latch) =>
        SentAppend(s.log, Lost(n));
        PutKeeps(s, Key(n), Latching(latch), Delivered(n));
        CoveredAppend(s.log, Delivered(n));
      case _ =>
    }
  }

  lemma StepKeeps(s: State, e: Event)
    requires Inv(s)
    ensures Inv(Step(s, e))
  {
    hide Covered, Sent, DoAdvance;
    if e.Advance? {
      AdvanceKeeps(s, e.accepted);
    } else if e.Receive? && s.queue != [] {
      assert (s.consumed + [s.queue[0]]) + s.queue[1..] == s.consumed + s.queue;
    }
  }

  lemma {:induction false} RunKeeps(s: State, es: seq<Event>)
    requires Inv(s)
    ensures Inv(Run(s, es))
    decreases |es|
  {
    hide Inv, Step;
    if es != [] {
      StepKeeps(s, es[0]);
      RunKeeps(Step(s, es[0]), es[1..]);
    }
  }

  /** Between publishes, every event that was dropped is followed by a marker, or the latch is set. */
  lemma LossIsVisible(capacity: nat, es: seq<Event>, i: nat)
    requires var s := Run(Subscribed(capacity), es); s.pc.Idle? && s.subscribed && i < |s.log| && s.log[i].Lost?
    ensures var s := Run(Subscribed(capacity), es); s.latch || exists j :: i < j < |s.log| && s.log[j].Marked?
  {
    RunKeeps(Subscribed(capacity), es);
    var s := Run(Subscribed(capacity), es);
    assert s.latch || MarkedAfter(s.log, i);
  }

  /** The receiver gets exactly what was sent, in order: a marker sent after a loss is read after everything sent before it. */
  lemma ReceiverSeesMarkers(capacity: nat, es: seq<Event>)
    ensures var s := Run(Subscribed(capacity), es); s.consumed + s.queue == Sent(s.log)
  {
    RunKeeps(Subscribed(capacity), es);
  }

  /** The slot beyond the capacity only ever holds a marker. */
  lemma ReservedSlotIsForMarkers(capacity: nat, es: seq<Event>)
    ensures var s := Run(Subscribed(capacity), es);
      && |s.queue| <= capacity + 1
      && (|s.queue| == capacity + 1 ==> s.queue[capacity] == Overrun)
      && (s.pc.Sending? ==> |s.queue| < capacity)
  {
    RunKeeps(Subscribed(capacity), es);
    CapacityFixed(Subscribed(capacity), es);
  }

  lemma {:induction false} CapacityFixed(s: State, es: seq<Event>)
    ensures Run(s, es).capacity == s.capacity
    decreases |es|
  {
    if es != [] { CapacityFixed(Step(s, es[0]), es[1..]); }
  }

  // ------------------------------------------------------------- one whole publish

  /** The publisher is never refused by the budgets, and the receiver reads at any point. */
  predicate Smooth(es: seq<Event>) {
    forall i | 0 <= i < |es| :: es[i] == Advance(true) || es[i] == Receive
  }

  /** Publishing n with nothing owed and room for it: before and after the send. */
  predicate OnItsWay(s: State, u: State, n: nat) {
    && u.capacity == s.capacity && u.peerOpen && u.subscribed && !u.latch
    && if u.pc == Latching(false) || u.pc.Idle? then u.log == s.log + [Delivered(n)]
       else u.log == s.log && |u.queue| < u.capacity && (u.pc == Snapped(n, false) || u.pc == Checking(n, false) || u.pc == Sending(n, false))
  }

  lemma {:induction false} StaysOnItsWay(s: State, u: State, n: nat, es: seq<Event>)
    requires Smooth(es) && OnItsWay(s, u, n)
    ensures OnItsWay(s, Run(u, es), n)
    decreases |es|
  {
    if es != [] {
      StaysOnItsWay(s, Step(u, es[0]), n, es[1..]);
    }
  }

  /** With room, an open peer and nothing owed, a publish that has come to its end sent the event and
      nothing else, whatever was received meanwhile. */
  lemma RoomMeansDelivery(s: State, n: nat, es: seq<Event>)
    requires s.pc.Idle? && s.subscribed && !s.latch && s.peerOpen && |s.queue| < s.capacity
    requires Smooth(es) && Run(Step(s, Publish(n)), es).pc.Idle?
    ensures var u := Run(Step(s, Publish(n)), es); u.log == s.log + [Delivered(n)] && !u.latch && u.subscribed
  {
    StaysOnItsWay(s, Step(s, Publish(n)), n, es);
  }

  /** A marker is owed: it is the first thing the publish sends. */
  predicate Repaying(s: State, u: State, n: nat) {
    && u.capacity == s.capacity && u.peerOpen
    && (if u.pc == Snapped(n, true) then u.log == s.log && |u.queue| <= u.capacity else !u.pc.Snapped? && s.log + [Marked] <= u.log)
  }

  lemma {:induction false} StaysRepaying(s: State, u: State, n: nat, es: seq<Event>)
    requires Smooth(es) && Repaying(s, u, n)
    ensures Repaying(s, Run(u, es), n)
    decreases |es|
  {
    if es != [] {
      StaysRepaying(s, Step(u, es[0]), n, es[1..]);
    }
  }

  /** With the latch set and room for a marker, a publish that has come to its end sent the marker
      before its event was sent or lost. */
  lemma OwedMarkerComesFirst(s: State, n: nat, es: seq<Event>)
    requires s.pc.Idle? && s.subscribed && s.latch && s.peerOpen && |s.queue| <= s.capacity
    requires Smooth(es) && Run(Step(s, Publish(n)), es).pc.Idle?
    ensures s.log + [Marked] <= Run(Step(s, Publish(n)), es).log
  {
    StaysRepaying(s, Step(s, Publish(n)), n, es);
  }

  /** Publishing n with nothing owed while at least the marker's slot is free. */
  predicate WithinSlot(s: State, u: State, n: nat) {
    && u.capacity == s.capacity && u.peerOpen && u.subscribed && !u.latch && |u.queue| <= u.capacity + 1
    && match u.pc
       case Snapped(k, latch) => k == n && !latch && u.log == s.log && |u.queue| <= u.capacity
       case Checking(k, latch) => k == n && !latch && u.log == s.log && |u.queue| <= u.capacity
       case Sending(k, latch) => k == n && !latch && u.log == s.log && |u.queue| < u.capacity
       case Dropping(k) => k == n && u.log == s.log && |u.queue| <= u.capacity
       case Latching(latch) => !latch && (u.log == s.log + [Delivered(n)] || u.log == s.log + [Lost(n), Marked])
       case Idle => u.log == s.log + [Delivered(n)] || u.log == s.log + [Lost(n), Marked]
  }

  lemma {:induction false} StaysWithinSlot(s: State, u: State, n: nat, es: seq<Event>)
    requires Smooth(es) && WithinSlot(s, u, n)
    ensures WithinSlot(s, Run(u, es), n)
    decreases |es|
  {
    if es != [] { StaysWithinSlot(s, Step(u, es[0]), n, es[1..]); }
  }

  /** While the marker's slot is free a publish ends with nothing owed: the event was sent, or its loss was marked at once. */
  lemma LossIsMarkedAtOnce(s: State, n: nat, es: seq<Event>)
    requires s.pc.Idle? && s.subscribed && !s.latch && s.peerOpen && |s.queue| <= s.capacity
    requires Smooth(es) && Run(Step(s, Publish(n)), es).pc.Idle?
    ensures var u := Run(Step(s, Publish(n)), es);
      !u.latch && u.subscribed && (u.log == s.log + [Delivered(n)] || u.log == s.log + [Lost(n), Marked])
  {
    StaysWithinSlot(s, Step(s, Publish(n)), n, es);
  }

  // ------------------------------------------------------------------ a closed peer

  predicate Calm(es: seq<Event>) {
    forall i | 0 <= i < |es| :: !es[i].Publish?
  }

  /** Publishing n to a closed peer. */
  predicate Ending(s: State, u: State, n: nat) {
    && u.capacity == s.capacity && !u.peerOpen && |u.queue| <= |s.queue|
    && match u.pc
       case Snapped(k, latch) => k == n && latch == s.latch == u.latch && u.log == s.log && u.subscribed
       case Checking(k, latch) => k == n && !latch && !s.latch && !u.latch && u.log == s.log && u.subscribed
       case Sending(k, latch) => k == n && !latch && !s.latch && !u.latch && u.log == s.log && u.subscribed
       case Dropping(k) => k == n && !s.latch && !u.latch && u.log == s.log && u.subscribed && |s.queue| >= s.capacity
       case Latching(latch) => latch && !s.latch && u.log == s.log + [Lost(n)] && u.subscribed && |s.queue| >= s.capacity
       case Idle =>
         || (s.latch && u.latch && u.subscribed && u.log == s.log)
         || (!s.latch && !u.subscribed && !u.latch && u.log == s.log)
         || (!s.latch && u.subscribed && u.latch && u.log == s.log + [Lost(n)] && |s.queue| >= s.capacity)
  }

  lemma {:induction false} StaysEnding(s: State, u: State, n: nat, es: seq<Event>)
    requires Calm(es) && Ending(s, u, n)
    ensures Ending(s, Run(u, es), n)
    decreases |es|
  {
    if es != [] { StaysEnding(s, Step(u, es[0]), n, es[1..]); }
  }

  /** A publish to a closed peer sends nothing: with a marker owed it gives up at once, with room it ends the
      subscription, and otherwise it owes a marker. */
  lemma ClosedPeerGetsNothing(s: State, n: nat, es: seq<Event>)
    requires s.pc.Idle? && s.subscribed && !s.peerOpen && Calm(es) && Run(Step(s, Publish(n)), es).pc.Idle?
    ensures var u := Run(Step(s, Publish(n)), es);
      && (s.latch ==> u.subscribed && u.latch && u.log == s.log)
      && (!s.latch && |s.queue| < s.capacity ==> !u.subscribed && u.log == s.log)
      && (!s.latch ==> (!u.subscribed && u.log == s.log) || (u.subscribed && u.latch && u.log == s.log + [Lost(n)]))
  {
    StaysEnding(s, Step(s, Publish(n)), n, es);
  }

  /** The receiver can read on until it has read everything that was sent. */
  lemma {:induction false} EverythingCanBeRead(s: State) returns (es: seq<Event>)
    requires Inv(s)
    ensures Run(s, es).queue == [] && Run(s, es).consumed == Sent(s.log) && Run(s, es).log == s.log
    decreases |s.queue|
  {
    if s.queue == [] {
      es := [];
      assert s.consumed + s.queue == s.consumed;
    } else {
      StepKeeps(s, Receive);
      var rest := EverythingCanBeRead(Step(s, Receive));
      es := [Receive] + rest;
      assert es[1..] == rest;
    }
  }
}
