/** One direction of a raw channel: its queue, its limits and the kernel-wide budgets it draws on. */
module Channel {
  import opened Options
  import opened CapabilityTable

  type Byte = bv8

  datatype Message = Message(payload: seq<Byte>, resources: seq<Resource>)

  /** Messages waiting for one side, with the running totals the kernel keeps beside them. */
  datatype Queue = Queue(items: seq<Message>, claimed: bool, bytes: nat, resources: nat)

  datatype Limits = Limits(messages: nat, bytes: nat, resources: nat)

  datatype Budget = Budget(messages: nat, bytes: nat, resources: nat)

  const NO_QUEUE := Queue([], false, 0, 0)
  const GLOBAL := Budget(4096, 16777216, 16384)
  const MAX_MESSAGE_BYTES: nat := 65536
  const DEFAULT := Limits(64, 1048576, 256)

  /** The limits a channel gets for the options asked for; zero means the default. */
  function ChosenLimits(asked: Limits): Option<Limits> {
    var l := Limits(if asked.messages == 0 then DEFAULT.messages else asked.messages,
                    if asked.bytes == 0 then DEFAULT.bytes else asked.bytes,
                    if asked.resources == 0 then DEFAULT.resources else asked.resources);
    if l.messages > 1024 || l.bytes > MAX_MESSAGE_BYTES * 16 || l.resources > 256 then None else Some(l)
  }

  /** Each limit is the one asked for, or the default where none is; a channel is refused exactly if one is too high. */
  lemma LimitsChosen(asked: Limits)
    ensures var m := if asked.messages == 0 then 64 else asked.messages;
      var b := if asked.bytes == 0 then 1048576 else asked.bytes; var r := if asked.resources == 0 then 256 else asked.resources;
      && (ChosenLimits(asked).Some? <==> m <= 1024 && b <= 1048576 && r <= 256)
      && (ChosenLimits(asked).Some? ==> ChosenLimits(asked).value == Limits(m, b, r))
  {
  }

  // ---------------------------------------------------------------------- budgets

  function SumBytes(ms: seq<Message>): nat {
    if ms == [] then 0 else |ms[0].payload| + SumBytes(ms[1..])
  }

  function SumResources(ms: seq<Message>): nat {
    if ms == [] then 0 else |ms[0].resources| + SumResources(ms[1..])
  }

  predicate CanReserve(counter: nat, amount: nat, limit: nat) {
    amount <= limit && counter <= limit - amount
  }

  function ReserveGlobal(b: Budget, bytes: nat, resources: nat): Option<Budget> {
    if !CanReserve(b.messages, 1, GLOBAL.messages) then None
    else if !CanReserve(b.bytes, bytes, GLOBAL.bytes) then None
    else if !CanReserve(b.resources, resources, GLOBAL.resources) then None
    else Some(Budget(b.messages + 1, b.bytes + bytes, b.resources + resources))
  }

  /** Counters are unsigned and would wrap. */
  function ReleaseGlobal(b: Budget, bytes: nat, resources: nat): Budget {
    Budget(Minus(b.messages, 1), Minus(b.bytes, bytes), Minus(b.resources, resources))
  }

  // ------------------------------------------------------------------- operations

  /** A message that could ever be queued here. */
  predicate Fits(l: Limits, bytes: nat, resources: nat) {
    bytes <= l.bytes && resources <= l.resources
  }

  /** Queue a message that fits; `cap` is an extra bound on the queue length, 0 for none. */
  function Push(q: Queue, l: Limits, b: Budget, open: bool, cap: nat, m: Message): (r: (Status, Queue, Budget)) {
    if !open then (PEER_CLOSED, q, b)
    else if (cap != 0 && |q.items| >= cap) || |q.items| >= l.messages || q.bytes > l.bytes - |m.payload|
            || q.resources > l.resources - |m.resources| then (WOULD_BLOCK, q, b)
    else
      match ReserveGlobal(b, |m.payload|, |m.resources|)
      case None => (RESOURCE_EXHAUSTED, q, b)
      case Some(b') => (OK, Queue(q.items + [m], q.claimed, q.bytes + |m.payload|, q.resources + |m.resources|), b')
  }

  function ClaimReceive(q: Queue, open: bool): (r: (Status, Queue)) {
    if q.items == [] then (if open then WOULD_BLOCK else PEER_CLOSED, q)
    else if q.claimed then (WOULD_BLOCK, q)
    else (OK, q.(claimed := true))
  }

  predicate Holds(q: Queue, m: Message) {
    q.claimed && q.items != [] && q.items[0] == m
  }

  function CancelReceive(q: Queue, m: Message): (r: (bool, Queue)) {
    if Holds(q, m) then (true, q.(claimed := false)) else (false, q)
  }

  /** The queue without its head. */
  function Popped(q: Queue): Queue
    requires q.items != []
  {
    var m := q.items[0];
    Queue(q.items[1..], false, Minus(q.bytes, |m.payload|), Minus(q.resources, |m.resources|))
  }

  function CommitReceive(q: Queue, b: Budget, m: Message): (r: (bool, Queue, Budget)) {
    if Holds(q, m) then (true, Popped(q), ReleaseGlobal(b, |m.payload|, |m.resources|)) else (false, q, b)
  }

  function Discard(q: Queue, b: Budget): (r: (Option<Message>, Queue, Budget)) {
    if q.items == [] || q.claimed then (None, q, b)
    else (Some(q.items[0]), Popped(q), ReleaseGlobal(b, |q.items[0].payload|, |q.items[0].resources|))
  }

  /** Empty a queue, as the collector and the destructor do. */
  function Drain(q: Queue, b: Budget): (r: (Queue, Budget))
    decreases |q.items|
  {
    if q.items == [] || q.claimed then (q, b)
    else Drain(Popped(q), ReleaseGlobal(b, |q.items[0].payload|, |q.items[0].resources|))
  }

  // --------------------------------------------------------------------- invariant

  ghost predicate QueueOk(q: Queue, l: Limits) {
    && q.bytes == SumBytes(q.items) && q.resources == SumResources(q.items)
    && |q.items| <= l.messages && q.bytes <= l.bytes && q.resources <= l.resources
  }

  predicate Covers(b: Budget, q: Queue) {
    |q.items| <= b.messages && q.bytes <= b.bytes && q.resources <= b.resources
  }

  lemma {:induction false} SumAppend(ms: seq<Message>, m: Message)
    ensures SumBytes(ms + [m]) == SumBytes(ms) + |m.payload|
    ensures SumResources(ms + [m]) == SumResources(ms) + |m.resources|
  {
    if ms == [] {
      assert [] + [m] == [m];
    } else {
      SumAppend(ms[1..], m);
      assert (ms + [m])[1..] == ms[1..] + [m];
    }
  }

  /** Queueing keeps the totals exact and within bounds, and charges the global budget exactly what it queued. */
  lemma PushKeeps(q: Queue, l: Limits, b: Budget, open: bool, cap: nat, m: Message)
    requires QueueOk(q, l)
    ensures var (status, q', b') := Push(q, l, b, open, cap, m);
      && QueueOk(q', l)
      && (status == OK ==>
            && q'.items == q.items + [m] && q'.claimed == q.claimed
            && b' == Budget(b.messages + 1, b.bytes + |m.payload|, b.resources + |m.resources|)
            && b'.messages <= GLOBAL.messages && b'.bytes <= GLOBAL.bytes && b'.resources <= GLOBAL.resources)
      && (status != OK ==> q' == q && b' == b)
  {
    SumAppend(q.items, m);
  }

  /** Why a message is refused: the peer is gone, the queue is full, or else a kernel-wide budget is. */
  lemma PushTells(q: Queue, l: Limits, b: Budget, open: bool, cap: nat, m: Message)
    ensures var status := Push(q, l, b, open, cap, m).0;
      var room := && |q.items| < l.messages && (cap == 0 || |q.items| < cap)
                  && q.bytes + |m.payload| <= l.bytes && q.resources + |m.resources| <= l.resources;
      && (status == PEER_CLOSED <==> !open)
      && (status == WOULD_BLOCK <==> open && !room)
      && (status == RESOURCE_EXHAUSTED || status == OK <==> open && room)
      && (status == OK <==> open && room && b.messages + 1 <= GLOBAL.messages && b.bytes + |m.payload| <= GLOBAL.bytes
                            && b.resources + |m.resources| <= GLOBAL.resources)
  {
  }

  /** Why nothing is claimed: an empty queue tells an open peer from one that is gone, a claimed head has to be waited for. */
  lemma ClaimTells(q: Queue, open: bool)
    ensures var (status, q') := ClaimReceive(q, open);
      && (status == PEER_CLOSED <==> q.items == [] && !open)
      && (status == WOULD_BLOCK <==> (q.items == [] && open) || (q.items != [] && q.claimed))
      && (status == OK <==> q.items != [] && !q.claimed)
      && q' == (if status == OK then q.(claimed := true) else q)
  {
  }

  /** Taking the head out keeps the totals exact, and no counter underflows. */
  lemma PopKeeps(q: Queue, l: Limits, b: Budget)
    requires QueueOk(q, l) && q.items != [] && Covers(b, q)
    ensures var m := q.items[0]; var q' := Popped(q); var b' := ReleaseGlobal(b, |m.payload|, |m.resources|);
      && QueueOk(q', l) && Covers(b', q')
      && q'.bytes == q.bytes - |m.payload| && q'.resources == q.resources - |m.resources|
      && b' == Budget(b.messages - 1, b.bytes - |m.payload|, b.resources - |m.resources|)
  {
  }

  /** Draining releases exactly what the queue held. */
  lemma {:induction false} DrainKeeps(q: Queue, l: Limits, b: Budget)
    requires QueueOk(q, l) && !q.claimed && Covers(b, q)
    ensures Drain(q, b) == (NO_QUEUE, Budget(b.messages - |q.items|, b.bytes - q.bytes, b.resources - q.resources))
    decreases |q.items|
  {
    if q.items != [] {
      PopKeeps(q, l, b);
      DrainKeeps(Popped(q), l, ReleaseGlobal(b, |q.items[0].payload|, |q.items[0].resources|));
    }
  }

  // ------------------------------------------------------------- the mutable objects

  /** The three kernel-wide counters. */
  class Budgets {
    var messages: nat
    var bytes: nat
    var resources: nat

    function View(): Budget
      reads this
    {
      Budget(messages, bytes, resources)
    }

    constructor ()
      ensures View() == Budget(0, 0, 0)
    {
      messages, bytes, resources := 0, 0, 0;
    }

    /** A reservation that fails half-way gives back what it had taken. */
    method Reserve(byteCount: nat, resourceCount: nat) returns (ok: bool)
      requires messages <= GLOBAL.messages && bytes <= GLOBAL.bytes && resources <= GLOBAL.resources
      modifies this
      ensures ok == ReserveGlobal(old(View()), byteCount, resourceCount).Some?
      ensures View() == if ok then ReserveGlobal(old(View()), byteCount, resourceCount).value else old(View())
    {
      if !CanReserve(messages, 1, GLOBAL.messages) { return false; }
      messages := messages + 1;
      if !CanReserve(bytes, byteCount, GLOBAL.bytes) {
        messages := Minus(messages, 1);
        return false;
      }
      bytes := bytes + byteCount;
      if !CanReserve(resources, resourceCount, GLOBAL.resources) {
        bytes := Minus(bytes, byteCount);
        messages := Minus(messages, 1);
        return false;
      }
      resources := resources + resourceCount;
      return true;
    }

    method Release(byteCount: nat, resourceCount: nat)
      modifies this
      ensures View() == ReleaseGlobal(old(View()), byteCount, resourceCount)
    {
      messages := Minus(messages, 1);
      bytes := Minus(bytes, byteCount);
      resources := Minus(resources, resourceCount);
    }
  }

  /** The queue of one receiving side. */
  class ReceiveQueue {
    var queue: Queue
    const limits: Limits
    const budgets: Budgets

    ghost predicate Valid()
      reads this, budgets
    {
      && QueueOk(queue, limits) && Covers(budgets.View(), queue)
      && budgets.messages <= GLOBAL.messages && budgets.bytes <= GLOBAL.bytes && budgets.resources <= GLOBAL.resources
    }

    constructor (l: Limits, b: Budgets)
      requires b.messages <= GLOBAL.messages && b.bytes <= GLOBAL.bytes && b.resources <= GLOBAL.resources
      ensures Valid() && queue == NO_QUEUE && limits == l && budgets == b
    {
      queue, limits, budgets := NO_QUEUE, l, b;
    }

    method Enqueue(m: Message, open: bool, cap: nat) returns (status: Status)
      requires Valid() && Fits(limits, |m.payload|, |m.resources|)
      modifies this`queue, budgets
      ensures Valid() && (status, queue, budgets.View()) == Push(old(queue), limits, old(budgets.View()), open, cap, m)
    {
      PushKeeps(queue, limits, budgets.View(), open, cap, m);
      if !open { return PEER_CLOSED; }
      if (cap != 0 && |queue.items| >= cap) || |queue.items| >= limits.messages
         || queue.bytes > limits.bytes - |m.payload| || queue.resources > limits.resources - |m.resources| {
        return WOULD_BLOCK;
      }
      var ok := budgets.Reserve(|m.payload|, |m.resources|);
      if !ok { return RESOURCE_EXHAUSTED; }
      queue := queue.(items := queue.items + [m]);
      queue := queue.(bytes := queue.bytes + |m.payload|, resources := queue.resources + |m.resources|);
      status := OK;
    }

    method Claim(open: bool) returns (status: Status, m: Option<Message>)
      requires Valid()
      modifies this`queue
      ensures Valid() && (status, queue) == ClaimReceive(old(queue), open)
      ensures m == if status == OK then Some(old(queue).items[0]) else None
    {
      if queue.items == [] { return if open then WOULD_BLOCK else PEER_CLOSED, None; }
      if queue.claimed { return WOULD_BLOCK, None; }
      queue := queue.(claimed := true);
      return OK, Some(queue.items[0]);
    }

    method Cancel(m: Message) returns (ok: bool)
      requires Valid()
      modifies this`queue
      ensures Valid() && (ok, queue) == CancelReceive(old(queue), m)
    {
      if !queue.claimed || queue.items == [] || queue.items[0] != m { return false; }
      queue := queue.(claimed := false);
      return true;
    }

    method Commit(m: Message) returns (ok: bool)
      requires Valid()
      modifies this`queue, budgets
      ensures Valid() && (ok, queue, budgets.View()) == CommitReceive(old(queue), old(budgets.View()), m)
    {
      if !queue.claimed || queue.items == [] || queue.items[0] != m { return false; }
      RemoveHead();
      return true;
    }

    method RemoveHead()
      requires Valid() && queue.items != []
      modifies this`queue, budgets
      ensures Valid() && queue == Popped(old(queue))
      ensures budgets.View() == ReleaseGlobal(old(budgets.View()), |old(queue).items[0].payload|, |old(queue).items[0].resources|)
    {
      PopKeeps(queue, limits, budgets.View());
      var m := queue.items[0];
      queue := queue.(items := queue.items[1..], claimed := false);
      queue := queue.(bytes := Minus(queue.bytes, |m.payload|), resources := Minus(queue.resources, |m.resources|));
      budgets.Release(|m.payload|, |m.resources|);
    }

    method DiscardHead() returns (m: Option<Message>)
      requires Valid()
      modifies this`queue, budgets
      ensures Valid() && (m, queue, budgets.View()) == Discard(old(queue), old(budgets.View()))
    {
      if queue.items == [] || queue.claimed { return None; }
      m := Some(queue.items[0]);
      RemoveHead();
    }

    method DiscardAll() returns (dropped: seq<Message>)
      requires Valid()
      modifies this`queue, budgets
      ensures Valid() && (queue, budgets.View()) == Drain(old(queue), old(budgets.View()))
      ensures dropped + queue.items == old(queue).items
    {
      hide QueueOk, Covers, ReleaseGlobal;
      dropped := [];
      while queue.items != []
        invariant Valid() && Drain(queue, budgets.View()) == Drain(old(queue), old(budgets.View()))
        invariant dropped + queue.items == old(queue).items
        decreases |queue.items|
      {
        if queue.claimed { break; }
        ghost var items, before := queue.items, dropped;
        dropped := dropped + [queue.items[0]];
        RemoveHead();
        assert before + items == (before + [items[0]]) + items[1..];
      }
    }
  }
}
