/** Sending and receiving a message with capabilities: table, queue and budgets move together or not at all. */
module Transfer {
  import opened CapabilityTable
  import opened CapabilityLaws
  import opened Channel
  import opened Bags
  import opened CapabilityBags

  /** What a transfer touches. */
  datatype World = World(table: Table, queue: Queue, budget: Budget)

  // -------------------------------------------------------------------------- send

  /** Queue a taken batch.  Two checks come before anything that would put the batch back. */
  function Enqueue(w: World, l: Limits, open: bool, payload: seq<Byte>, rs: seq<Record>): (r: (Status, World)) {
    if |rs| > l.resources then (INVALID_ARGUMENT, w)
    else if |payload| > l.bytes then (INVALID_MESSAGE, w)
    else
      var (status, q, b) := Push(w.queue, l, w.budget, open, 0, Message(payload, Resources(rs)));
      if status == OK then (OK, World(Commit(w.table, rs), q, b))
      else
        var (restored, t) := Restore(w.table, rs);
        (if restored == OK then status else restored, World(t, q, b))
  }

  function SendRaw(w: World, l: Limits, open: bool, endpoint: Handle, payload: seq<Byte>, ds: seq<Disposition>): (r: (Status, World)) {
    if |payload| > MAX_MESSAGE_BYTES || |ds| > MAX_TRANSFER then (INVALID_MESSAGE, w)
    else
      var (status, rs, t) := Take(w.table, ds, endpoint);
      if status != OK then (status, w)
      else Enqueue(w.(table := t), l, open, payload, rs)
  }

  predicate InFrame(payload: seq<Byte>, ds: seq<Disposition>) {
    |payload| <= MAX_MESSAGE_BYTES && |ds| <= MAX_TRANSFER
  }

  /** A batch that fits is queued and committed, or refused and put back. */
  lemma EnqueueAllOrNothing(w: World, l: Limits, open: bool, payload: seq<Byte>, rs: seq<Record>, before: Table,
                            gone: set<Handle>, lost: nat)
    requires Valid(w.table, gone, lost) && Outstanding(gone, rs) && Restore(w.table, rs) == (OK, before)
    requires QueueOk(w.queue, l) && Fits(l, |payload|, |rs|)
    ensures var (status, u) := Enqueue(w, l, open, payload, rs);
      && QueueOk(u.queue, l)
      && (status != OK ==> u == w.(table := before))
      && (status == OK ==>
            && u.table.entries == w.table.entries && u.table.next == w.table.next
            && u.table.count == w.table.count - |MovedSources(rs)|
            && Valid(u.table, gone - MovedSources(rs), lost)
            && u.queue.items == w.queue.items + [Message(payload, Resources(rs))] && u.queue.claimed == w.queue.claimed
            && u.budget == Budget(w.budget.messages + 1, w.budget.bytes + |payload|, w.budget.resources + |rs|)
            && Bounded(u.budget))
  {
    hide Valid, QueueOk, Outstanding, Restore, Commit, Push;
    CommitValid(w.table, gone, lost, rs);
    PushKeeps(w.queue, l, w.budget, open, 0, Message(payload, Resources(rs)));
  }

  predicate Bounded(b: Budget) {
    b.messages <= GLOBAL.messages && b.bytes <= GLOBAL.bytes && b.resources <= GLOBAL.resources
  }

  lemma TakeIs(t: Table, ds: seq<Disposition>, target: Handle)
    ensures var (status, rs, u) := Take(t, ds, target);
      && (status == OK <==> Acceptable(t, ds, target))
      && (status == OK ==> rs == Records(t, ds, target) && u == t.(entries := t.entries - MovedHandles(ds)))
      && (status != OK ==> u == t)
  {
  }

  lemma TakenBatch(t: Table, ds: seq<Disposition>, target: Handle, gone: set<Handle>, lost: nat)
    requires Valid(t, gone, lost) && Take(t, ds, target).0 == OK
    ensures var (_, rs, u) := Take(t, ds, target);
      && |rs| == |ds| && Valid(u, gone + MovedHandles(ds), lost) && Outstanding(gone + MovedHandles(ds), rs)
      && Restore(u, rs) == (OK, t) && MovedSources(rs) == MovedHandles(ds) && gone !! MovedHandles(ds)
      && MovedHandles(ds) <= t.entries.Keys
  {
    hide Valid, Outstanding, Take, Restore, Faithful;
    TakeShape(t, ds, target);
    TakeValid(t, gone, lost, ds, target);
    TakeOutstanding(t, gone, lost, ds, target);
    TakeRestore(t, gone, lost, ds, target);
  }

  /** A message within the channel's limits is sent whole or not at all. */
  lemma SendAllOrNothing(w: World, l: Limits, open: bool, endpoint: Handle, payload: seq<Byte>, ds: seq<Disposition>,
                         gone: set<Handle>, lost: nat)
    requires Valid(w.table, gone, lost) && QueueOk(w.queue, l) && Fits(l, |payload|, |ds|)
    ensures var (status, u) := SendRaw(w, l, open, endpoint, payload, ds);
      && Valid(u.table, gone, lost) && QueueOk(u.queue, l)
      && (status != OK ==> u == w)
      && (status == OK ==>
            && Acceptable(w.table, ds, endpoint)
            && u.table.entries == w.table.entries - MovedHandles(ds)
            && u.table.count == w.table.count - |MovedHandles(ds)| && u.table.next == w.table.next
            && u.queue.items == w.queue.items + [Message(payload, Resources(Records(w.table, ds, endpoint)))]
            && u.queue.claimed == w.queue.claimed
            && u.budget == Budget(w.budget.messages + 1, w.budget.bytes + |payload|, w.budget.resources + |ds|)
            && Bounded(u.budget))
  {
    hide Valid, QueueOk, Outstanding, Restore, Enqueue, Take, Acceptable, Records, MovedHandles, Resources;
    var (status, rs, t) := Take(w.table, ds, endpoint);
    TakeIs(w.table, ds, endpoint);
    if status == OK {
      var out := gone + MovedHandles(ds);
      TakenBatch(w.table, ds, endpoint, gone, lost);
      EnqueueAllOrNothing(w.(table := t), l, open, payload, rs, w.table, out, lost);
      assert out - MovedHandles(ds) == gone;
    }
  }

  /** Room in the queue and in the kernel-wide budgets for one more message. */
  predicate Room(q: Queue, l: Limits, b: Budget, bytes: nat, resources: nat) {
    && |q.items| < l.messages && q.bytes + bytes <= l.bytes && q.resources + resources <= l.resources
    && b.messages + 1 <= GLOBAL.messages && b.bytes + bytes <= GLOBAL.bytes && b.resources + resources <= GLOBAL.resources
  }

  /** A send succeeds exactly when the frame and the batch are in order, the peer is open and there is room. */
  lemma SendSucceedsExactly(w: World, l: Limits, open: bool, endpoint: Handle, payload: seq<Byte>, ds: seq<Disposition>,
                            gone: set<Handle>, lost: nat)
    requires Valid(w.table, gone, lost)
    ensures SendRaw(w, l, open, endpoint, payload, ds).0 == OK <==>
      InFrame(payload, ds) && Acceptable(w.table, ds, endpoint) && open && Room(w.queue, l, w.budget, |payload|, |ds|)
  {
    hide Valid, Outstanding, Restore, Commit, Take, Acceptable, Records, MovedHandles, Push;
    var (status, rs, t) := Take(w.table, ds, endpoint);
    TakeIs(w.table, ds, endpoint);
    if status == OK {
      TakenBatch(w.table, ds, endpoint, gone, lost);
      PushSucceeds(w.queue, l, w.budget, open, Message(payload, Resources(rs)));
    }
  }

  lemma PushSucceeds(q: Queue, l: Limits, b: Budget, open: bool, m: Message)
    ensures Push(q, l, b, open, 0, m).0 == OK <==> open && Room(q, l, b, |m.payload|, |m.resources|)
  {
  }

  /** Why a message in order is refused: the peer is gone, the queue is full, or else a kernel-wide budget is. */
  lemma SendTells(w: World, l: Limits, open: bool, endpoint: Handle, payload: seq<Byte>, ds: seq<Disposition>,
                  gone: set<Handle>, lost: nat)
    requires Valid(w.table, gone, lost) && InFrame(payload, ds) && Acceptable(w.table, ds, endpoint) && Fits(l, |payload|, |ds|)
    ensures var status := SendRaw(w, l, open, endpoint, payload, ds).0;
      var room := |w.queue.items| < l.messages && w.queue.bytes + |payload| <= l.bytes && w.queue.resources + |ds| <= l.resources;
      && (status == PEER_CLOSED <==> !open)
      && (status == WOULD_BLOCK <==> open && !room)
      && (status == OK || status == RESOURCE_EXHAUSTED <==> open && room)
  {
    hide Valid, Outstanding, Restore, Commit, Take, Acceptable, Records, MovedHandles, Push;
    var (status, rs, t) := Take(w.table, ds, endpoint);
    TakeIs(w.table, ds, endpoint);
    TakenBatch(w.table, ds, endpoint, gone, lost);
    PushTells(w.queue, l, w.budget, open, 0, Message(payload, Resources(rs)));
  }

  /** What a send out of order is answered with: too large a frame, then what is wrong with the batch, then too many
      resources or too many bytes for the channel. */
  lemma SendRefusals(w: World, l: Limits, open: bool, endpoint: Handle, payload: seq<Byte>, ds: seq<Disposition>)
    ensures var status := SendRaw(w, l, open, endpoint, payload, ds).0;
      && (|payload| > MAX_MESSAGE_BYTES || |ds| > MAX_TRANSFER ==> status == INVALID_MESSAGE)
      && (InFrame(payload, ds) && Take(w.table, ds, endpoint).0 != OK ==> status == Take(w.table, ds, endpoint).0)
      && (InFrame(payload, ds) && Take(w.table, ds, endpoint).0 == OK && |ds| > l.resources ==> status == INVALID_ARGUMENT)
      && (InFrame(payload, ds) && Take(w.table, ds, endpoint).0 == OK && |ds| <= l.resources && |payload| > l.bytes ==> status == INVALID_MESSAGE)
  {
    hide Restore, Commit, Acceptable, MovedHandles, Push, Take;
    TakeIs(w.table, ds, endpoint);
  }

  lemma DropChanges(w: World, moved: set<Handle>)
    requires moved <= w.table.entries.Keys
    ensures w.(table := w.table.(entries := w.table.entries - moved)) == w <==> moved == {}
  {
    var m := w.table.entries;
    if moved == {} {
      assert m - moved == m;
    } else {
      var h :| h in moved;
      assert h in m && h !in m - moved;
    }
  }

  lemma UnfitSend(w: World, l: Limits, open: bool, endpoint: Handle, payload: seq<Byte>, ds: seq<Disposition>)
    requires InFrame(payload, ds) && Acceptable(w.table, ds, endpoint) && !Fits(l, |payload|, |ds|)
    ensures SendRaw(w, l, open, endpoint, payload, ds).0 != OK
    ensures SendRaw(w, l, open, endpoint, payload, ds).1 == w.(table := w.table.(entries := w.table.entries - MovedHandles(ds)))
  {
    hide MovedHandles, Acceptable, MakeRecord, Push, Restore, Commit;
  }

  /** A message beyond the channel's limits is refused after its capabilities left the table: they are
      gone, and the table goes on counting them. */
  lemma UnfitSendLoses(w: World, l: Limits, open: bool, endpoint: Handle, payload: seq<Byte>, ds: seq<Disposition>)
    requires InFrame(payload, ds) && Acceptable(w.table, ds, endpoint) && !Fits(l, |payload|, |ds|)
    ensures SendRaw(w, l, open, endpoint, payload, ds).0 != OK
    ensures SendRaw(w, l, open, endpoint, payload, ds).1 == w.(table := w.table.(entries := w.table.entries - MovedHandles(ds)))
    ensures SendRaw(w, l, open, endpoint, payload, ds).1 == w <==> MovedHandles(ds) == {}
  {
    hide Valid, Outstanding, SendRaw, Restore, Take, Acceptable, Records, MovedHandles;
    UnfitSend(w, l, open, endpoint, payload, ds);
    MovedAreEntries(w.table, ds, endpoint);
    DropChanges(w, MovedHandles(ds));
  }

  lemma MovedAreEntries(t: Table, ds: seq<Disposition>, target: Handle)
    requires Acceptable(t, ds, target)
    ensures MovedHandles(ds) <= t.entries.Keys
  {
    hide MovedHandles, MovedSources, Faithful;
    TakeShape(t, ds, target);
  }

  /** A send leaves everything as it was whenever it is refused, exactly when the message fits the
      channel's limits or moves nothing. */
  lemma RefusedSendIsHarmless(w: World, l: Limits, open: bool, endpoint: Handle, payload: seq<Byte>, ds: seq<Disposition>,
                              gone: set<Handle>, lost: nat)
    requires Valid(w.table, gone, lost) && QueueOk(w.queue, l)
    requires InFrame(payload, ds) && Acceptable(w.table, ds, endpoint)
    ensures (SendRaw(w, l, open, endpoint, payload, ds).0 != OK ==> SendRaw(w, l, open, endpoint, payload, ds).1 == w)
            <==> Fits(l, |payload|, |ds|) || MovedHandles(ds) == {}
  {
    hide Valid, QueueOk, SendRaw, Acceptable, Records, MovedHandles, Resources;
    if Fits(l, |payload|, |ds|) {
      SendAllOrNothing(w, l, open, endpoint, payload, ds, gone, lost);
    } else {
      UnfitSendLoses(w, l, open, endpoint, payload, ds);
    }
  }

  lemma LostValid(t: Table, gone: set<Handle>, lost: nat, moved: set<Handle>)
    requires Valid(t, gone, lost) && moved <= t.entries.Keys
    ensures Valid(t.(entries := t.entries - moved), gone, lost + |moved|)
  {
    Without(t.entries, moved);
    var u := t.(entries := t.entries - moved);
    forall h | h in u.entries ensures WellFormed(u, h, u.entries[h]) { assert WellFormed(t, h, t.entries[h]); }
    forall h | h in gone ensures Issued(u, h) { assert Issued(t, h); }
  }

  // ----------------------------------------------------------------------- receive

  /** How the caller's buffers behave. */
  datatype Memory = Fine | BadRange | Overlapping | CopyFails

  datatype Frame = Frame(bytes: nat, resources: nat, memory: Memory)

  datatype Received = Received(status: Status, world: World, payload: seq<Byte>, handles: seq<Handle>)

  function Refused(status: Status, w: World): Received {
    Received(status, w, [], [])
  }

  /** Deliver the claimed head `m`; `w` is the state just after the claim. */
  function Deliver(w: World, m: Message, f: Frame): Received {
    var back := w.(queue := CancelReceive(w.queue, m).1);
    if f.bytes < |m.payload| || f.resources < |m.resources| then
      Refused(if f.memory == CopyFails then FAULT else BUFFER_TOO_SMALL, back)
    else if f.memory == BadRange then Refused(FAULT, back)
    else if f.memory == Overlapping then Refused(INVALID_ARGUMENT, back)
    else
      var (status, hs, t) := Reserve(w.table, |m.resources|);
      if status != OK then Refused(status, back.(table := t))
      else if f.memory == CopyFails then Refused(FAULT, back.(table := Rollback(t, hs)))
      else
        var (_, q, b) := CommitReceive(w.queue, w.budget, m);
        Received(OK, World(ActivateEach(t, hs, m.resources), q, b), m.payload, hs)
  }

  function ActivateEach(t: Table, hs: seq<Handle>, rs: seq<Resource>): Table {
    if |hs| == |rs| then ActivateAll(t, hs, rs) else t
  }

  function ReceiveInto(w: World, open: bool, f: Frame): Received {
    var (status, q) := ClaimReceive(w.queue, open);
    if status != OK then Refused(status, w) else Deliver(w.(queue := q), q.items[0], f)
  }

  function ReceiveRaw(w: World, open: bool, f: Frame): Received {
    if f.bytes > MAX_MESSAGE_BYTES || f.resources > MAX_TRANSFER then Refused(INVALID_ARGUMENT, w)
    else ReceiveInto(w, open, f)
  }

  /** Either the head message left the queue, its resources are active under new handles and the budget is
      given back, or nothing but the handle counter changed and the same head is there, unclaimed
      by this call. */
  lemma ReceiveAllOrNothing(w: World, l: Limits, open: bool, f: Frame, gone: set<Handle>, lost: nat)
    requires Valid(w.table, gone, lost) && QueueOk(w.queue, l) && Covers(w.budget, w.queue)
    ensures var r := ReceiveInto(w, open, f); var u := r.world;
      && Valid(u.table, gone, lost) && QueueOk(u.queue, l)
      && (r.status != OK ==> u == w.(table := w.table.(next := u.table.next)) && r.handles == [])
      && (r.status == OK ==>
            && w.queue.items != [] && !w.queue.claimed
            && var m := w.queue.items[0];
            && u.table == Filled(w.table, m.resources) && r.payload == m.payload
            && r.handles == Consecutive(w.table.next, |m.resources|)
            && u.queue.items == w.queue.items[1..] && !u.queue.claimed
            && u.budget == Budget(w.budget.messages - 1, w.budget.bytes - |m.payload|, w.budget.resources - |m.resources|))
  {
    hide Valid, ReserveEach, Rollback, QueueOk, NextAfter, Filled, Covers, ReserveOnto, FillOnto, ActivateAll;
    if w.queue.items != [] && !w.queue.claimed {
      var m := w.queue.items[0];
      var q := w.queue.(claimed := true);
      assert q.(claimed := false) == w.queue;
      var (status, hs, t) := Reserve(w.table, |m.resources|);
      ReserveIsAtomic(w.table, gone, lost, |m.resources|);
      ClaimedOk(w.queue, l, w.budget);
      PopKeeps(q, l, w.budget);
      if status == OK {
        ReserveRollback(w.table, gone, lost, |m.resources|);
        NextPositive(w.table, gone, lost, |m.resources|);
        FillReserved(w.table, t, m.resources);
        FilledIs(w.table, m.resources);
        FilledValid(w.table, gone, lost, m.resources);
        NextAfterKeeps(w.table, gone, lost, |m.resources|);
        NextIsNext(w.table, |m.resources|);
      }
    }
  }

  /** A receive succeeds exactly when there is an unclaimed message that fits the frame, the caller's memory
      is sound and the table has room for every resource. */
  lemma ReceiveSucceedsExactly(w: World, open: bool, f: Frame, gone: set<Handle>, lost: nat)
    requires Valid(w.table, gone, lost)
    ensures ReceiveInto(w, open, f).status == OK <==>
      && w.queue.items != [] && !w.queue.claimed && f.memory == Fine
      && var m, n := w.queue.items[0], |w.queue.items[0].resources|;
      && |m.payload| <= f.bytes && n <= f.resources
      && (n == 0 || (w.table.next != NO_HANDLE && w.table.count + n <= MAX_ENTRIES && w.table.next + n <= HANDLE_SPACE))
  {
    hide Valid, ReserveEach, Rollback, ActivateAll, NextAfter;
    if w.queue.items != [] { ReserveEachShape(w.table, gone, lost, |w.queue.items[0].resources|); }
  }

  /** An empty queue tells the receiver whether anybody can still send. */
  lemma ReceiveTells(w: World, open: bool, f: Frame)
    requires f.bytes <= MAX_MESSAGE_BYTES && f.resources <= MAX_TRANSFER && w.queue.items == []
    ensures ReceiveRaw(w, open, f) == Refused(if open then WOULD_BLOCK else PEER_CLOSED, w)
  {
  }

  /** What a receive that finds a message but cannot deliver it is answered with. */
  lemma ReceiveRefusals(w: World, open: bool, f: Frame, gone: set<Handle>, lost: nat)
    requires Valid(w.table, gone, lost) && w.queue.items != [] && !w.queue.claimed
    ensures var status := ReceiveRaw(w, open, f).status; var m := w.queue.items[0];
      var framed := f.bytes <= MAX_MESSAGE_BYTES && f.resources <= MAX_TRANSFER;
      var large := |m.payload| <= f.bytes && |m.resources| <= f.resources;
      && (!framed ==> status == INVALID_ARGUMENT)
      && (framed && !large ==> status == if f.memory == CopyFails then FAULT else BUFFER_TOO_SMALL)
      && (framed && large && f.memory == BadRange ==> status == FAULT)
      && (framed && large && f.memory == Overlapping ==> status == INVALID_ARGUMENT)
      && (framed && large && (f.memory == Fine || f.memory == CopyFails) && Reserve(w.table, |m.resources|).0 != OK ==> status == RESOURCE_EXHAUSTED)
      && (framed && large && f.memory == CopyFails && Reserve(w.table, |m.resources|).0 == OK ==> status == FAULT)
  {
    hide Valid, ReserveEach, Rollback, ActivateAll, NextAfter;
  }

  lemma ClaimedOk(q: Queue, l: Limits, b: Budget)
    requires QueueOk(q, l) && Covers(b, q)
    ensures QueueOk(q.(claimed := true), l) && Covers(b, q.(claimed := true))
  {
  }

  lemma NextPositive(t: Table, gone: set<Handle>, lost: nat, n: nat)
    requires Valid(t, gone, lost) && Reserve(t, n).0 == OK
    ensures n == 0 || t.next > 0
  {
    ReserveEachShape(t, gone, lost, n);
  }

  lemma FilledIs(t: Table, rs: seq<Resource>)
    ensures Filled(t, rs) == Reserve(t, |rs|).2.(entries := FillOnto(t.entries, t.next, rs))
  {
  }

  lemma FillReserved(t: Table, u: Table, rs: seq<Resource>)
    requires (rs == [] || t.next > 0) && u.entries == ReserveOnto(t.entries, t.next, |rs|)
    ensures ActivateAll(u, Consecutive(t.next, |rs|), rs) == u.(entries := FillOnto(t.entries, t.next, rs))
  {
    if rs != [] { ActivateFills(u, t.entries, t.next, rs); }
  }
}
