/** Calls posted to another CPU: a ring of operations, an interrupt to announce them and a handler that drains it. */
module CallRing {
  import opened BoundedQueue

  datatype Operation = Operation(func: nat, data: nat)

  datatype Result = Full | Enqueued | EnqueuedNeedsInterrupt

  const CAPACITY: nat := 64

  /** The ring as the kernel keeps it: fixed storage, head, tail and size. */
  class Ring {
    const slots: array<Operation>
    var head: nat
    var tail: nat
    var size: nat

    ghost predicate Valid()
      reads this
    {
      slots.Length == CAPACITY && head < CAPACITY && size <= CAPACITY && tail == Slot(head, size, CAPACITY)
    }

    ghost function Contents(): (s: seq<Operation>)
      requires Valid()
      reads this, slots
      ensures |s| == size
    {
      seq(size, i requires 0 <= i < size && Valid() reads this, slots => SlotIs(head, i, CAPACITY); slots[Slot(head, i, CAPACITY)])
    }

    constructor ()
      ensures Valid() && fresh(slots) && Contents() == []
    {
      slots := new Operation[CAPACITY](_ => Operation(0, 0));
      head, tail, size := 0, 0, 0;
    }

    method Enqueue(op: Operation) returns (r: Result)
      requires Valid()
      modifies this`tail, this`size, slots
      ensures Valid()
      ensures r == if |old(Contents())| == CAPACITY then Full else if old(Contents()) == [] then EnqueuedNeedsInterrupt else Enqueued
      ensures Contents() == if r == Full then old(Contents()) else old(Contents()) + [op]
    {
      hide Slot;
      if size == CAPACITY { return Full; }
      ghost var before := Contents();
      var needsInterrupt := size == 0;
      SlotIs(head, size, CAPACITY);
      SlotIs(head, size + 1, CAPACITY);
      SlotIs(tail, 1, CAPACITY);
      slots[tail] := op;
      forall i | 0 <= i < size ensures Slot(head, i, CAPACITY) < CAPACITY && slots[Slot(head, i, CAPACITY)] == before[i] {
        SlotsDiffer(head, i, size, CAPACITY);
        SlotIs(head, i, CAPACITY);
      }
      tail := Slot(tail, 1, CAPACITY);
      size := size + 1;
      assert Contents() == before + [op];
      return if needsInterrupt then EnqueuedNeedsInterrupt else Enqueued;
    }

    method TryDequeue() returns (ok: bool, op: Operation)
      requires Valid()
      modifies this`head, this`size
      ensures Valid() && ok == (old(Contents()) != [])
      ensures if ok then [op] + Contents() == old(Contents()) else Contents() == old(Contents())
    {
      hide Slot;
      op := Operation(0, 0);
      if size == 0 { return false, op; }
      ghost var before := Contents();
      SlotIs(head, 0, CAPACITY);
      SlotIs(head, size, CAPACITY);
      SlotIs(head, 1, CAPACITY);
      op := slots[head];
      forall i | 0 <= i < size
        ensures Slot(head, 1, CAPACITY) < CAPACITY && Slot(Slot(head, 1, CAPACITY), i, CAPACITY) == Slot(head, i + 1, CAPACITY)
      {
        SlotNext(head, i, CAPACITY);
      }
      ghost var start := head;
      SlotNext(start, size - 1, CAPACITY);
      head := Slot(head, 1, CAPACITY);
      size := size - 1;
      forall i | 0 <= i < size ensures Contents()[i] == before[i + 1] {
        SlotIs(head, i, CAPACITY);
        SlotIs(start, i + 1, CAPACITY);
      }
      assert [op] + Contents() == before;
      return true, op;
    }
  }

  // ----------------------------------------------------------------- the protocol

  type Sender = nat

  /** The target CPU: outside the handler, about to look at the ring, or running an operation. */
  datatype Target = Outside | Draining | Executing(op: Operation)

  /** `posting` are the senders that filled an empty ring and have not yet posted the interrupt; `pending` is
      the interrupt waiting at the target.  Interrupts that arrive together merge into one. */
  datatype State = State(ring: seq<Operation>, posting: set<Sender>, pending: bool, target: Target,
                         accepted: seq<Operation>, executed: seq<Operation>)

  datatype Event = Enqueue(who: Sender, op: Operation) | Post(who: Sender) | Deliver | Dequeue | Return

  const QUIET := State([], {}, false, Outside, [], [])

  function Step(s: State, e: Event): State {
    match e
    case Enqueue(who, op) =>
      if who in s.posting || |s.ring| == CAPACITY then s
      else s.(ring := s.ring + [op], accepted := s.accepted + [op],
              posting := if s.ring == [] then s.posting + {who} else s.posting)
    case Post(who) => if who in s.posting then s.(posting := s.posting - {who}, pending := true) else s
    case Deliver => if s.pending && s.target.Outside? then s.(pending := false, target := Draining) else s
    case Dequeue =>
      if !s.target.Draining? then s
      else if s.ring == [] then s.(target := Outside)
      else s.(ring := s.ring[1..], target := Executing(s.ring[0]))
    case Return => if s.target.Executing? then s.(executed := s.executed + [s.target.op], target := Draining) else s
  }

  function InProgress(t: Target): seq<Operation> {
    if t.Executing? then [t.op] else []
  }

  predicate Inv(s: State) {
    && |s.ring| <= CAPACITY
    && (s.ring != [] ==> s.posting != {} || s.pending || !s.target.Outside?)
    && s.executed + InProgress(s.target) + s.ring == s.accepted
  }

  lemma StepKeeps(s: State, e: Event)
    requires Inv(s)
    ensures Inv(Step(s, e))
  {
    var u := Step(s, e);
    var x, p := s.executed, InProgress(s.target);
    match e {
      case Enqueue(who, op) => assert x + p + (s.ring + [op]) == (x + p + s.ring) + [op];
      case Dequeue => if s.target.Draining? && s.ring != [] { assert s.ring == [s.ring[0]] + s.ring[1..]; }
      case Return => if s.target.Executing? { assert (x + [s.target.op]) + [] == x + p; }
      case _ =>
    }
    if e.Enqueue? && u != s && s.ring == [] { assert e.who in u.posting; }
    assert u.executed + InProgress(u.target) + u.ring == u.accepted;
  }

  function Run(s: State, es: seq<Event>): State
    decreases |es|
  {
    if es == [] then s else Run(Step(s, es[0]), es[1..])
  }

  lemma {:induction false} RunKeeps(s: State, es: seq<Event>)
    requires Inv(s)
    ensures Inv(Run(s, es))
    decreases |es|
  {
    if es != [] {
      StepKeeps(s, es[0]);
      RunKeeps(Step(s, es[0]), es[1..]);
    }
  }

  /** No call is stranded: in every interleaving a call in the ring is announced, about to be announced, or in
      front of a target that is still draining; and calls run once each, in the order they were accepted. */
  lemma NoCallStranded(es: seq<Event>)
    ensures var s := Run(QUIET, es);
      && (s.ring != [] ==> s.posting != {} || s.pending || !s.target.Outside?)
      && s.executed + InProgress(s.target) + s.ring == s.accepted
  {
    RunKeeps(QUIET, es);
  }

  /** From any reachable state with calls waiting, posting and delivering leads the target to the oldest call. */
  lemma WaitingCallRuns(es: seq<Event>)
    requires Run(QUIET, es).ring != [] && Run(QUIET, es).target.Outside?
    ensures exists more :: var s := Run(QUIET, es); var u := Run(s, more);
      u.target == Executing(s.ring[0]) && u.ring == s.ring[1..]
  {
    RunKeeps(QUIET, es);
    var s := Run(QUIET, es);
    if s.pending {
      Wakes(s);
    } else {
      var who :| who in s.posting;
      var t := Step(s, Post(who));
      Wakes(t);
      var more := [Post(who), Deliver, Dequeue];
      assert more[1..] == [Deliver, Dequeue];
      assert Run(s, more) == Run(t, [Deliver, Dequeue]);
    }
  }

  lemma Wakes(s: State)
    requires s.pending && s.target.Outside? && s.ring != []
    ensures Run(s, [Deliver, Dequeue]).target == Executing(s.ring[0]) && Run(s, [Deliver, Dequeue]).ring == s.ring[1..]
  {
    var t := Step(s, Deliver);
    var u := Step(t, Dequeue);
    assert Run(u, []) == u;
    assert Run(t, [Dequeue]) == Run(u, []) by { assert [Dequeue][1..] == []; }
    assert [Deliver, Dequeue][1..] == [Dequeue];
  }

  /** A target in its handler works the ring off. */
  lemma {:induction false} Drains(s: State) returns (more: seq<Event>)
    requires Inv(s) && !s.target.Outside?
    ensures Run(s, more).executed == s.accepted && Run(s, more).accepted == s.accepted
    decreases |s.ring|, if s.target.Executing? then 1 else 0
  {
    if s.target.Executing? {
      StepKeeps(s, Return);
      var rest := Drains(Step(s, Return));
      more := [Return] + rest;
      assert more[1..] == rest;
    } else if s.ring != [] {
      StepKeeps(s, Dequeue);
      var rest := Drains(Step(s, Dequeue));
      more := [Dequeue] + rest;
      assert more[1..] == rest;
    } else {
      more := [];
      assert s.executed + InProgress(s.target) + s.ring == s.executed;
    }
  }

  /** Every call that is accepted can still be run, from every reachable state, without another call. */
  lemma AcceptedCallsCanFinish(es: seq<Event>) returns (more: seq<Event>)
    ensures Run(Run(QUIET, es), more).executed == Run(QUIET, es).accepted
  {
    RunKeeps(QUIET, es);
    var s := Run(QUIET, es);
    if !s.target.Outside? {
      more := Drains(s);
    } else if s.ring == [] {
      more := [];
      assert s.executed + InProgress(s.target) + s.ring == s.executed;
    } else if s.pending {
      StepKeeps(s, Deliver);
      var rest := Drains(Step(s, Deliver));
      more := [Deliver] + rest;
      assert more[1..] == rest;
    } else {
      var who :| who in s.posting;
      StepKeeps(s, Post(who));
      var t := Step(s, Post(who));
      StepKeeps(t, Deliver);
      var rest := Drains(Step(t, Deliver));
      var later := [Deliver] + rest;
      assert later[1..] == rest;
      more := [Post(who)] + later;
      assert more[1..] == later;
    }
  }

  /** A call is accepted exactly if the ring has room and its sender has no interrupt to post first. */
  lemma AcceptedExactly(s: State, who: Sender, op: Operation)
    requires Inv(s)
    ensures Step(s, Enqueue(who, op)).accepted == if |s.ring| < CAPACITY && who !in s.posting then s.accepted + [op] else s.accepted
  {
  }
}
