/** Tasklets: deferred handlers linked into per-CPU lists, raised from anywhere and drained by any
    number of runners.  Each step is one section under the global lock, or one unlocked action
    of a runner. */
module Tasklets {
  import opened Bags

  type Id = nat
  type Cpu = nat
  type Runner = nat

  datatype Link = Nil | To(id: Id)

  /** `state` is 0 idle, 1 queued or running, 2 raised again meanwhile.  `owed` says that a raise of
      the enabled tasklet has not been followed by the start of a pass. */
  datatype Tasklet = Tasklet(state: nat, enabled: bool, next: Link, owed: bool)

  /** Where a runner is in its drain loop; `rest` is what its links spell out. */
  datatype Pc = Out | Draining(at: Link, rest: seq<Id>) | Running(id: Id, after: Link, rest: seq<Id>)

  /** `queue` is what the links from each CPU's head spell out. */
  datatype State = State(tasks: map<Id, Tasklet>, head: map<Cpu, Link>, queue: map<Cpu, seq<Id>>, runners: map<Runner, Pc>)

  datatype Event = Raise(id: Id, cpu: Cpu) | Begin(who: Runner, cpu: Cpu) | Fetch(who: Runner) | Finish(who: Runner, cpu: Cpu)
                 | Leave(who: Runner) | Enable(id: Id, on: bool)

  function HeadOf(s: State, cpu: Cpu): Link {
    if cpu in s.head then s.head[cpu] else Nil
  }

  function QueueOf(s: State, cpu: Cpu): seq<Id> {
    if cpu in s.queue then s.queue[cpu] else []
  }

  function PcOf(s: State, r: Runner): Pc {
    if r in s.runners then s.runners[r] else Out
  }

  /** Link a tasklet in front of a CPU's list. */
  function Queued(s: State, id: Id, cpu: Cpu, t: Tasklet): State {
    s.(tasks := s.tasks[id := t.(state := 1, next := HeadOf(s, cpu))], head := s.head[cpu := To(id)],
       queue := s.queue[cpu := [id] + QueueOf(s, cpu)])
  }

  function DoRaise(s: State, id: Id, cpu: Cpu): State
    requires id in s.tasks
  {
    var t := s.tasks[id].(owed := s.tasks[id].owed || s.tasks[id].enabled);
    if t.state == 0 then Queued(s, id, cpu, t) else s.(tasks := s.tasks[id := t.(state := 2)])
  }

  /** The pass over one tasklet ends: queue it again if it was raised meanwhile. */
  function DoFinish(s: State, r: Runner, cpu: Cpu, pc: Pc): State
    requires pc.Running? && pc.id in s.tasks
  {
    var t := s.tasks[pc.id];
    var u := if t.state == 2 && t.enabled then Queued(s, pc.id, cpu, t) else s.(tasks := s.tasks[pc.id := t.(state := 0)]);
    u.(runners := u.runners[r := Draining(pc.after, pc.rest)])
  }

  /** The runner takes the next tasklet off its batch; when it is enabled its pass starts. */
  function DoFetch(s: State, r: Runner, pc: Pc): State
    requires pc.Draining? && pc.at.To? && pc.at.id in s.tasks && pc.rest != []
  {
    var id := pc.at.id;
    var t := s.tasks[id];
    s.(tasks := s.tasks[id := t.(next := Nil, owed := t.owed && !t.enabled)],
       runners := s.runners[r := Running(id, t.next, pc.rest[1..])])
  }

  function Step(s: State, e: Event): State {
    match e
    case Raise(id, cpu) => if id !in s.tasks then s else DoRaise(s, id, cpu)
    case Begin(r, cpu) =>
      if !PcOf(s, r).Out? then s
      else s.(head := s.head[cpu := Nil], queue := s.queue[cpu := []],
              runners := s.runners[r := Draining(HeadOf(s, cpu), QueueOf(s, cpu))])
    case Fetch(r) =>
      var pc := PcOf(s, r);
      if !(pc.Draining? && pc.at.To? && pc.at.id in s.tasks && pc.rest != []) then s else DoFetch(s, r, pc)
    case Finish(r, cpu) =>
      var pc := PcOf(s, r);
      if !(pc.Running? && pc.id in s.tasks) then s else DoFinish(s, r, cpu, pc)
    case Leave(r) => if PcOf(s, r).Draining? && PcOf(s, r).at.Nil? then s.(runners := s.runners[r := Out]) else s
    case Enable(id, on) =>
      if id !in s.tasks then s
      else s.(tasks := s.tasks[id := s.tasks[id].(enabled := on, owed := s.tasks[id].owed && on)])
  }

  // --------------------------------------------------------------------- invariant

  /** Following the links from p visits exactly q and ends. */
  predicate Spells(tasks: map<Id, Tasklet>, p: Link, q: seq<Id>)
    decreases |q|
  {
    if q == [] then p.Nil? else p == To(q[0]) && q[0] in tasks && Spells(tasks, tasks[q[0]].next, q[1..])
  }

  function SeqBag(q: seq<Id>): multiset<Id> { multiset(q) }

  /** A batch still to be fetched. */
  function Rest(pc: Pc): seq<Id> {
    if pc.Out? then [] else pc.rest
  }

  function RestBag(pc: Pc): multiset<Id> { multiset(Rest(pc)) }

  function RunningBag(pc: Pc): multiset<Id> {
    if pc.Running? then multiset{pc.id} else multiset{}
  }

  /** Tasklets whose next pass has not started. */
  ghost function Waiting(s: State): multiset<Id> {
    MapBag(s.queue, SeqBag) + MapBag(s.runners, RestBag)
  }

  ghost function Executing(s: State): multiset<Id> {
    MapBag(s.runners, RunningBag)
  }

  ghost predicate Linked(s: State) {
    && (forall cpu :: Spells(s.tasks, HeadOf(s, cpu), QueueOf(s, cpu)))
    && (forall r | r in s.runners :: PcLinked(s.tasks, s.runners[r]))
  }

  predicate PcLinked(tasks: map<Id, Tasklet>, pc: Pc) {
    match pc
    case Out => true
    case Draining(at, rest) => Spells(tasks, at, rest)
    case Running(id, after, rest) => id in tasks && Spells(tasks, after, rest)
  }

  /** In exactly one place exactly when the state is not idle. */
  ghost predicate Placed(s: State) {
    forall id :: Waiting(s)[id] + Executing(s)[id] == if id in s.tasks && s.tasks[id].state != 0 then 1 else 0
  }

  ghost predicate Served(s: State) {
    forall id | id in s.tasks && s.tasks[id].owed ::
      s.tasks[id].enabled && (Waiting(s)[id] > 0 || s.tasks[id].state == 2)
  }

  ghost predicate Inv(s: State) {
    Linked(s) && Placed(s) && Served(s)
  }

  // ------------------------------------------------------------------------- links

  lemma {:induction false} SpellsFrame(tasks: map<Id, Tasklet>, u: map<Id, Tasklet>, p: Link, q: seq<Id>)
    requires Spells(tasks, p, q) && forall id | id in q :: id in u && id in tasks && u[id].next == tasks[id].next
    ensures Spells(u, p, q)
    decreases |q|
  {
    if q != [] { SpellsFrame(tasks, u, tasks[q[0]].next, q[1..]); }
  }

  lemma {:induction false} SpellsKnown(tasks: map<Id, Tasklet>, p: Link, q: seq<Id>)
    requires Spells(tasks, p, q)
    ensures forall id | id in q :: id in tasks
    decreases |q|
  {
    if q != [] { SpellsKnown(tasks, tasks[q[0]].next, q[1..]); }
  }

  lemma InQueue(s: State, cpu: Cpu, id: Id)
    requires id in QueueOf(s, cpu)
    ensures Waiting(s)[id] >= 1
  {
    BagSplit(s.queue, SeqBag, cpu);
  }

  lemma InRest(s: State, r: Runner, id: Id)
    requires r in s.runners && id in Rest(s.runners[r])
    ensures Waiting(s)[id] >= 1
  {
    BagSplit(s.runners, RestBag, r);
  }

  /** Rewriting the link of a tasklet that is in no list leaves every list as it was. */
  lemma LinksFrame(s: State, u: map<Id, Tasklet>, id: Id)
    requires Linked(s) && Waiting(s)[id] == 0
    requires u.Keys == s.tasks.Keys && forall k | k in u && k != id :: u[k].next == s.tasks[k].next
    ensures Linked(s.(tasks := u))
  {
    var v := s.(tasks := u);
    forall cpu ensures Spells(u, HeadOf(v, cpu), QueueOf(v, cpu)) {
      var q := QueueOf(s, cpu);
      SpellsKnown(s.tasks, HeadOf(s, cpu), q);
      forall k | k in q ensures k != id { InQueue(s, cpu, k); }
      SpellsFrame(s.tasks, u, HeadOf(s, cpu), q);
    }
    forall r | r in s.runners ensures PcLinked(u, s.runners[r]) {
      var pc := s.runners[r];
      if !pc.Out? {
        var p := if pc.Draining? then pc.at else pc.after;
        SpellsKnown(s.tasks, p, pc.rest);
        forall k | k in pc.rest ensures k != id { InRest(s, r, k); }
        SpellsFrame(s.tasks, u, p, pc.rest);
      }
    }
  }

  /** Flags other than the link do not matter to the lists. */
  lemma FlagsFrame(s: State, id: Id, t: Tasklet)
    requires Linked(s) && id in s.tasks && t.next == s.tasks[id].next
    ensures Linked(s.(tasks := s.tasks[id := t]))
  {
    var u := s.tasks[id := t];
    var v := s.(tasks := u);
    forall cpu ensures Spells(u, HeadOf(v, cpu), QueueOf(v, cpu)) {
      SpellsKnown(s.tasks, HeadOf(s, cpu), QueueOf(s, cpu));
      SpellsFrame(s.tasks, u, HeadOf(s, cpu), QueueOf(s, cpu));
    }
    forall r | r in s.runners ensures PcLinked(u, s.runners[r]) {
      var pc := s.runners[r];
      if !pc.Out? {
        var p := if pc.Draining? then pc.at else pc.after;
        SpellsKnown(s.tasks, p, pc.rest);
        SpellsFrame(s.tasks, u, p, pc.rest);
      }
    }
  }

  // ------------------------------------------------------------------------- moves

  lemma QueuedBags(s: State, id: Id, cpu: Cpu, t: Tasklet)
    ensures Waiting(Queued(s, id, cpu, t)) == Waiting(s) + multiset{id} && Executing(Queued(s, id, cpu, t)) == Executing(s)
  {
    hide MapBag;
    var q := QueueOf(s, cpu);
    assert multiset([id] + q) == multiset{id} + multiset(q);
    BagReplace(s.queue, SeqBag, cpu, [id] + q);
    var u := Queued(s, id, cpu, t);
    assert Waiting(u) + multiset(q) == (Waiting(s) + multiset{id}) + multiset(q) by {
      assert BagAt(s.queue, SeqBag, cpu) == multiset(q);
      var x, y, z := MapBag(s.queue, SeqBag), MapBag(u.queue, SeqBag), MapBag(s.runners, RestBag);
      assert (y + z) + multiset(q) == (y + multiset(q)) + z;
      assert (x + (multiset{id} + multiset(q))) + z == ((x + z) + multiset{id}) + multiset(q);
    }
    Cancel(Waiting(u), Waiting(s) + multiset{id}, multiset(q));
  }

  /** Linking a tasklet that is in no list keeps all lists intact. */
  lemma QueuedLinks(s: State, id: Id, cpu: Cpu, t: Tasklet)
    requires Linked(s) && id in s.tasks && Waiting(s)[id] == 0
    ensures Linked(Queued(s, id, cpu, t))
  {
    var u := Queued(s, id, cpu, t);
    LinksFrame(s, u.tasks, id);
    forall c ensures Spells(u.tasks, HeadOf(u, c), QueueOf(u, c)) {
      var v := s.(tasks := u.tasks);
      assert Spells(v.tasks, HeadOf(v, c), QueueOf(v, c));
      assert HeadOf(v, c) == HeadOf(s, c) && QueueOf(v, c) == QueueOf(s, c);
      if c == cpu {
        var q := QueueOf(u, c);
        assert q[1..] == QueueOf(s, c) && u.tasks[id].next == HeadOf(s, c);
      }
    }
  }

  function AtRunner(s: State, r: Runner, pc: Pc): State {
    s.(runners := s.runners[r := pc])
  }

  lemma RunnerWaiting(s: State, r: Runner, pc: Pc)
    ensures Waiting(AtRunner(s, r, pc)) + RestBag(PcOf(s, r)) == Waiting(s) + RestBag(pc)
  {
    hide MapBag;
    BagReplace(s.runners, RestBag, r, pc);
    var q, x, y := MapBag(s.queue, SeqBag), MapBag(s.runners, RestBag), MapBag(s.runners[r := pc], RestBag);
    var f, g := RestBag(PcOf(s, r)), RestBag(pc);
    assert BagAt(s.runners, RestBag, r) == f;
    assert (q + y) + f == q + (y + f) && (q + x) + g == q + (x + g);
  }

  lemma RunnerExecuting(s: State, r: Runner, pc: Pc)
    ensures Executing(AtRunner(s, r, pc)) + RunningBag(PcOf(s, r)) == Executing(s) + RunningBag(pc)
  {
    hide MapBag;
    BagReplace(s.runners, RunningBag, r, pc);
    assert BagAt(s.runners, RunningBag, r) == RunningBag(PcOf(s, r));
  }

  lemma RunnerLinks(s: State, r: Runner, pc: Pc)
    requires Linked(s) && PcLinked(s.tasks, pc)
    ensures Linked(AtRunner(s, r, pc))
  {
    var u := AtRunner(s, r, pc);
    forall cpu ensures Spells(u.tasks, HeadOf(u, cpu), QueueOf(u, cpu)) {
      assert Spells(s.tasks, HeadOf(s, cpu), QueueOf(s, cpu));
    }
  }

  lemma PcIsLinked(s: State, r: Runner)
    requires Linked(s)
    ensures PcLinked(s.tasks, PcOf(s, r))
  {
  }

  /** The counting part of the invariant only sees the bags and each tasklet's flags. */
  ghost predicate Books(tasks: map<Id, Tasklet>, waiting: multiset<Id>, executing: multiset<Id>) {
    forall id ::
      && waiting[id] + executing[id] == (if id in tasks && tasks[id].state != 0 then 1 else 0)
      && (id in tasks && tasks[id].owed ==> tasks[id].enabled && (waiting[id] > 0 || tasks[id].state == 2))
  }

  lemma InvIsBooks(s: State)
    ensures Inv(s) <==> Linked(s) && Books(s.tasks, Waiting(s), Executing(s))
  {
    hide Linked, Waiting, Executing;
    if Placed(s) && Served(s) {
      forall id ensures && Waiting(s)[id] + Executing(s)[id] == (if id in s.tasks && s.tasks[id].state != 0 then 1 else 0)
        && (id in s.tasks && s.tasks[id].owed ==> s.tasks[id].enabled && (Waiting(s)[id] > 0 || s.tasks[id].state == 2)) {}
    }
  }

  lemma RaiseKeeps(s: State, id: Id, cpu: Cpu)
    requires Inv(s) && id in s.tasks
    ensures Inv(DoRaise(s, id, cpu))
  {
    hide Inv, Linked, Waiting, Executing;
    InvIsBooks(s);
    InvIsBooks(DoRaise(s, id, cpu));
    var t := s.tasks[id].(owed := s.tasks[id].owed || s.tasks[id].enabled);
    if t.state == 0 {
      assert Waiting(s)[id] == 0;
      QueuedBags(s, id, cpu, t);
      QueuedLinks(s, id, cpu, t);
    } else {
      FlagsFrame(s, id, t.(state := 2));
      SameBags(s, s.tasks[id := t.(state := 2)]);
    }
  }

  lemma SameBags(s: State, tasks: map<Id, Tasklet>)
    ensures Waiting(s.(tasks := tasks)) == Waiting(s) && Executing(s.(tasks := tasks)) == Executing(s)
  {
  }

  lemma EnableKeeps(s: State, id: Id, on: bool)
    requires Inv(s) && id in s.tasks
    ensures Inv(Step(s, Enable(id, on)))
  {
    hide Inv, Linked, Waiting, Executing;
    var t := s.tasks[id].(enabled := on, owed := s.tasks[id].owed && on);
    InvIsBooks(s);
    InvIsBooks(s.(tasks := s.tasks[id := t]));
    FlagsFrame(s, id, t);
    SameBags(s, s.tasks[id := t]);
  }

  function Detached(s: State, cpu: Cpu): State {
    s.(head := s.head[cpu := Nil], queue := s.queue[cpu := []])
  }

  lemma DetachedBags(s: State, cpu: Cpu)
    ensures Waiting(s) == Waiting(Detached(s, cpu)) + multiset(QueueOf(s, cpu)) && Executing(Detached(s, cpu)) == Executing(s)
  {
    hide MapBag;
    BagReplace(s.queue, SeqBag, cpu, []);
    var q, x, y, z := multiset(QueueOf(s, cpu)), MapBag(s.queue, SeqBag), MapBag(s.queue[cpu := []], SeqBag), MapBag(s.runners, RestBag);
    assert BagAt(s.queue, SeqBag, cpu) == q;
    assert x + SeqBag([]) == x;
    assert (y + z) + q == (y + q) + z;
  }

  lemma DetachedLinks(s: State, cpu: Cpu)
    requires Linked(s)
    ensures Linked(Detached(s, cpu)) && Spells(s.tasks, HeadOf(s, cpu), QueueOf(s, cpu))
  {
    var u := Detached(s, cpu);
    forall c ensures Spells(u.tasks, HeadOf(u, c), QueueOf(u, c)) {
      assert Spells(s.tasks, HeadOf(s, c), QueueOf(s, c));
    }
  }

  lemma BeginKeeps(s: State, r: Runner, cpu: Cpu)
    requires Inv(s) && PcOf(s, r).Out?
    ensures Inv(Step(s, Begin(r, cpu)))
  {
    hide Inv, Linked, Waiting, Executing;
    var v, pc := Detached(s, cpu), Draining(HeadOf(s, cpu), QueueOf(s, cpu));
    var u := AtRunner(v, r, pc);
    InvIsBooks(s);
    InvIsBooks(u);
    DetachedBags(s, cpu);
    DetachedLinks(s, cpu);
    RunnerWaiting(v, r, pc);
    RunnerExecuting(v, r, pc);
    RunnerLinks(v, r, pc);
    assert Waiting(u) + multiset{} == Waiting(u) && Executing(u) + multiset{} == Executing(u) && Executing(v) + multiset{} == Executing(v);
    assert Waiting(u) == Waiting(s) && Executing(u) == Executing(s);
  }

  lemma FetchBags(s: State, r: Runner, pc: Pc, id: Id, next: Link)
    requires pc == PcOf(s, r) && pc.Draining? && pc.rest != [] && pc.rest[0] == id
    ensures var v := AtRunner(s, r, Running(id, next, pc.rest[1..]));
      Waiting(s) == Waiting(v) + multiset{id} && Executing(v) == Executing(s) + multiset{id}
  {
    hide Waiting, Executing;
    var now := Running(id, next, pc.rest[1..]);
    assert pc.rest == [id] + pc.rest[1..];
    assert multiset(pc.rest) == multiset{id} + multiset(pc.rest[1..]);
    RunnerWaiting(s, r, now);
    RunnerExecuting(s, r, now);
    var b, c := Waiting(AtRunner(s, r, now)), multiset(pc.rest[1..]);
    assert b + (multiset{id} + c) == (b + multiset{id}) + c;
    Cancel(Waiting(s), b + multiset{id}, c);
  }

  lemma FetchKeeps(s: State, r: Runner, pc: Pc)
    requires Inv(s) && pc == PcOf(s, r) && pc.Draining? && pc.at.To? && pc.at.id in s.tasks && pc.rest != []
    ensures Inv(DoFetch(s, r, pc))
  {
    hide Inv, Linked, Waiting, Executing;
    var id := pc.at.id;
    var t := s.tasks[id];
    var now := Running(id, t.next, pc.rest[1..]);
    var v := AtRunner(s, r, now);
    var u := DoFetch(s, r, pc);
    InvIsBooks(s);
    InvIsBooks(u);
    PcIsLinked(s, r);
    FetchBags(s, r, pc, id, t.next);
    assert Waiting(v)[id] == 0;
    RunnerLinks(s, r, now);
    LinksFrame(v, u.tasks, id);
    SameBags(v, u.tasks);
  }

  lemma FinishBags(s: State, r: Runner, pc: Pc)
    requires pc == PcOf(s, r) && pc.Running?
    ensures var v := AtRunner(s, r, Draining(pc.after, pc.rest));
      Waiting(v) == Waiting(s) && Executing(s) == Executing(v) + multiset{pc.id}
  {
    hide Waiting, Executing;
    var now := Draining(pc.after, pc.rest);
    RunnerWaiting(s, r, now);
    RunnerExecuting(s, r, now);
    Cancel(Waiting(AtRunner(s, r, now)), Waiting(s), multiset(pc.rest));
  }

  lemma FinishKeeps(s: State, r: Runner, cpu: Cpu, pc: Pc)
    requires Inv(s) && pc == PcOf(s, r) && pc.Running? && pc.id in s.tasks
    ensures Inv(DoFinish(s, r, cpu, pc))
  {
    hide Inv, Linked, Waiting, Executing;
    var id, t, now := pc.id, s.tasks[pc.id], Draining(pc.after, pc.rest);
    var v := AtRunner(s, r, now);
    var u := DoFinish(s, r, cpu, pc);
    InvIsBooks(s);
    InvIsBooks(u);
    PcIsLinked(s, r);
    FinishBags(s, r, pc);
    assert Waiting(v)[id] == 0;
    RunnerLinks(s, r, now);
    if t.state == 2 && t.enabled {
      QueuedLinks(v, id, cpu, t);
      QueuedBags(v, id, cpu, t);
      assert u == Queued(v, id, cpu, t);
    } else {
      FlagsFrame(v, id, t.(state := 0));
      SameBags(v, v.tasks[id := t.(state := 0)]);
      assert u == v.(tasks := v.tasks[id := t.(state := 0)]);
    }
  }

  lemma LeaveKeeps(s: State, r: Runner)
    requires Inv(s) && PcOf(s, r).Draining? && PcOf(s, r).at.Nil?
    ensures Inv(AtRunner(s, r, Out))
  {
    hide Inv, Linked, Waiting, Executing;
    var u := AtRunner(s, r, Out);
    InvIsBooks(s);
    InvIsBooks(u);
    PcIsLinked(s, r);
    RunnerWaiting(s, r, Out);
    RunnerExecuting(s, r, Out);
    RunnerLinks(s, r, Out);
    Cancel(Waiting(u), Waiting(s), multiset{});
    Cancel(Executing(u), Executing(s), multiset{});
  }

  lemma StepKeeps(s: State, e: Event)
    requires Inv(s)
    ensures Inv(Step(s, e))
  {
    hide Inv, DoRaise, DoFetch, DoFinish;
    match e {
      case Raise(id, cpu) => if id in s.tasks { RaiseKeeps(s, id, cpu); }
      case Begin(r, cpu) => if PcOf(s, r).Out? { BeginKeeps(s, r, cpu); }
      case Fetch(r) =>
        var pc := PcOf(s, r);
        if pc.Draining? && pc.at.To? && pc.at.id in s.tasks && pc.rest != [] { FetchKeeps(s, r, pc); }
      case Finish(r, cpu) =>
        var pc := PcOf(s, r);
        if pc.Running? && pc.id in s.tasks { FinishKeeps(s, r, cpu, pc); }
      case Leave(r) => if PcOf(s, r).Draining? && PcOf(s, r).at.Nil? { LeaveKeeps(s, r); }
      case Enable(id, on) => if id in s.tasks { EnableKeeps(s, id, on); }
    }
  }

  // -------------------------------------------------------------------------- runs

  function Run(s: State, es: seq<Event>): State
    decreases |es|
  {
    if es == [] then s else Run(Step(s, es[0]), es[1..])
  }

  /** Tasklets as they are added: idle and in no list. */
  predicate Added(s: State) {
    && s.head == map[] && s.queue == map[] && s.runners == map[]
    && forall id | id in s.tasks :: s.tasks[id].state == 0 && s.tasks[id].next.Nil? && !s.tasks[id].owed
  }

  lemma {:induction false} RunKeeps(s: State, es: seq<Event>)
    requires Inv(s)
    ensures Inv(Run(s, es))
    decreases |es|
  {
    hide Inv, Step;
    if es != [] {
      StepKeeps(s, es[0]);
      RunKeeps(Step(s, es[0]), es[1..]);
    }
  }

  lemma AddedInv(s: State)
    requires Added(s)
    ensures Inv(s)
  {
  }

  /** In every interleaving, a tasklet is in exactly one list, batch or execution when its state is not
      idle, and nowhere when it is idle. */
  lemma OnePlace(s: State, es: seq<Event>, id: Id)
    requires Added(s)
    ensures var u := Run(s, es); Waiting(u)[id] + Executing(u)[id] == if id in u.tasks && u.tasks[id].state != 0 then 1 else 0
  {
    AddedInv(s);
    RunKeeps(s, es);
  }

  /** No tasklet ever runs on two CPUs at once. */
  lemma NeverTwice(s: State, es: seq<Event>, r1: Runner, r2: Runner)
    requires Added(s) && r1 != r2
    ensures var u := Run(s, es); PcOf(u, r1).Running? && PcOf(u, r2).Running? ==> PcOf(u, r1).id != PcOf(u, r2).id
  {
    var u := Run(s, es);
    if PcOf(u, r1).Running? && PcOf(u, r2).Running? {
      OnePlace(s, es, PcOf(u, r1).id);
      BagSplit(u.runners, RunningBag, r1);
      BagSplit(u.runners - {r1}, RunningBag, r2);
    }
  }

  /** No raise of an enabled tasklet is lost: until a pass starts after it, it waits in a list or a
      batch, or is marked to run once more. */
  lemma RaiseIsNeverLost(s: State, es: seq<Event>, id: Id)
    requires Added(s)
    ensures var u := Run(s, es); id in u.tasks && u.tasks[id].owed ==> Waiting(u)[id] > 0 || u.tasks[id].state == 2
  {
    AddedInv(s);
    RunKeeps(s, es);
  }

  /** In every reachable state a free runner that drains a CPU starts with the tasklet raised last there. */
  lemma QueuedPassStarts(s: State, es: seq<Event>, r: Runner, cpu: Cpu)
    requires Added(s) && PcOf(Run(s, es), r).Out? && QueueOf(Run(s, es), cpu) != []
    ensures var u := Run(s, es); var v := Step(Step(u, Begin(r, cpu)), Fetch(r));
      PcOf(v, r).Running? && PcOf(v, r).id == QueueOf(u, cpu)[0] && PcOf(v, r).rest == QueueOf(u, cpu)[1..]
  {
    hide Inv, Linked, Step;
    AddedInv(s);
    RunKeeps(s, es);
    InvIsBooks(Run(s, es));
    HeadStarts(Run(s, es), r, cpu);
  }

  lemma HeadStarts(s: State, r: Runner, cpu: Cpu)
    requires Linked(s) && PcOf(s, r).Out? && QueueOf(s, cpu) != []
    ensures var v := Step(Step(s, Begin(r, cpu)), Fetch(r));
      PcOf(v, r).Running? && PcOf(v, r).id == QueueOf(s, cpu)[0] && PcOf(v, r).rest == QueueOf(s, cpu)[1..]
  {
    assert Spells(s.tasks, HeadOf(s, cpu), QueueOf(s, cpu));
  }

  // --------------------------------------------------------- no pass without a raise

  /** Passes the raises so far still entitle a tasklet to. */
  ghost function Pending(s: State, id: Id): nat {
    Waiting(s)[id] + if id in s.tasks && s.tasks[id].state == 2 then 1 else 0
  }

  function Raised(e: Event, id: Id): nat {
    if e.Raise? && e.id == id then 1 else 0
  }

  /** The event takes the tasklet up for a pass. */
  function Started(s: State, e: Event, id: Id): nat {
    if e.Fetch? && PcOf(s, e.who).Draining? && PcOf(s, e.who).at == To(id) && id in s.tasks && PcOf(s, e.who).rest != [] then 1 else 0
  }

  function Raises(es: seq<Event>, id: Id): nat {
    if es == [] then 0 else Raised(es[0], id) + Raises(es[1..], id)
  }

  function Starts(s: State, es: seq<Event>, id: Id): nat
    decreases |es|
  {
    if es == [] then 0 else Started(s, es[0], id) + Starts(Step(s, es[0]), es[1..], id)
  }

  lemma BeginWaiting(s: State, r: Runner, cpu: Cpu)
    requires PcOf(s, r).Out?
    ensures Waiting(Step(s, Begin(r, cpu))) == Waiting(s)
  {
    hide Waiting, Executing;
    var v, pc := Detached(s, cpu), Draining(HeadOf(s, cpu), QueueOf(s, cpu));
    DetachedBags(s, cpu);
    RunnerWaiting(v, r, pc);
    var u := AtRunner(v, r, pc);
    assert Waiting(u) + multiset{} == Waiting(u);
  }

  lemma FetchWaiting(s: State, r: Runner, pc: Pc)
    requires Linked(s) && pc == PcOf(s, r) && pc.Draining? && pc.at.To? && pc.at.id in s.tasks && pc.rest != []
    ensures Waiting(s) == Waiting(DoFetch(s, r, pc)) + multiset{pc.at.id}
  {
    hide Waiting, Executing;
    PcIsLinked(s, r);
    var v := AtRunner(s, r, Running(pc.at.id, s.tasks[pc.at.id].next, pc.rest[1..]));
    FetchBags(s, r, pc, pc.at.id, s.tasks[pc.at.id].next);
    SameBags(v, DoFetch(s, r, pc).tasks);
  }

  lemma FinishWaiting(s: State, r: Runner, cpu: Cpu, pc: Pc)
    requires pc == PcOf(s, r) && pc.Running? && pc.id in s.tasks
    ensures var t := s.tasks[pc.id];
      Waiting(DoFinish(s, r, cpu, pc)) == Waiting(s) + if t.state == 2 && t.enabled then multiset{pc.id} else multiset{}
  {
    hide Waiting, Executing;
    var t := s.tasks[pc.id];
    var v, u := AtRunner(s, r, Draining(pc.after, pc.rest)), DoFinish(s, r, cpu, pc);
    FinishBags(s, r, pc);
    if t.state == 2 && t.enabled {
      QueuedBags(v, pc.id, cpu, t);
      assert u == Queued(v, pc.id, cpu, t);
    } else {
      SameBags(v, u.tasks);
      assert u == v.(tasks := u.tasks);
    }
  }

  lemma LeaveWaiting(s: State, r: Runner)
    requires Linked(s) && PcOf(s, r).Draining? && PcOf(s, r).at.Nil?
    ensures Waiting(AtRunner(s, r, Out)) == Waiting(s)
  {
    hide Waiting;
    PcIsLinked(s, r);
    RunnerWaiting(s, r, Out);
    Cancel(Waiting(AtRunner(s, r, Out)), Waiting(s), multiset{});
  }

  lemma RaiseWaiting(s: State, id: Id, cpu: Cpu)
    requires id in s.tasks
    ensures Waiting(DoRaise(s, id, cpu)) == Waiting(s) + if s.tasks[id].state == 0 then multiset{id} else multiset{}
  {
    hide Waiting, Executing;
    var t := s.tasks[id].(owed := s.tasks[id].owed || s.tasks[id].enabled);
    QueuedBags(s, id, cpu, t);
    SameBags(s, s.tasks[id := t.(state := 2)]);
  }

  lemma StepPaysFor(s: State, e: Event, id: Id)
    requires Linked(s)
    ensures Started(s, e, id) + Pending(Step(s, e), id) <= Pending(s, id) + Raised(e, id)
  {
    hide Waiting, Executing, Linked;
    match e {
      case Raise(k, cpu) => if k in s.tasks { RaiseWaiting(s, k, cpu); }
      case Begin(r, cpu) => if PcOf(s, r).Out? { BeginWaiting(s, r, cpu); }
      case Fetch(r) =>
        var pc := PcOf(s, r);
        if pc.Draining? && pc.at.To? && pc.at.id in s.tasks && pc.rest != [] { FetchWaiting(s, r, pc); }
      case Finish(r, cpu) =>
        var pc := PcOf(s, r);
        if pc.Running? && pc.id in s.tasks { FinishWaiting(s, r, cpu, pc); }
      case Leave(r) => if PcOf(s, r).Draining? && PcOf(s, r).at.Nil? { LeaveWaiting(s, r); }
      case Enable(k, on) => if k in s.tasks { SameBags(s, Step(s, e).tasks); }
    }
  }

  lemma {:induction false} StartsArePaid(s: State, es: seq<Event>, id: Id)
    requires Inv(s)
    ensures Starts(s, es, id) + Pending(Run(s, es), id) <= Pending(s, id) + Raises(es, id)
    decreases |es|
  {
    hide Inv, Step, Pending, Started, Raised;
    if es != [] {
      StepKeeps(s, es[0]);
      InvIsBooks(s);
      StepPaysFor(s, es[0], id);
      StartsArePaid(Step(s, es[0]), es[1..], id);
    }
  }

  /** In every interleaving a tasklet is taken up, or waits to be, at most once per raise. */
  lemma NoPassWithoutRaise(s: State, es: seq<Event>, id: Id)
    requires Added(s)
    ensures Starts(s, es, id) + Waiting(Run(s, es))[id] <= Raises(es, id)
  {
    AddedInv(s);
    StartsArePaid(s, es, id);
    assert Waiting(s) == multiset{};
  }

  // ------------------------------------------------------------ links of detached ones

  /** A tasklet in no list and no batch links to nothing. */
  ghost predicate Loose(s: State) {
    forall id | id in s.tasks && Waiting(s)[id] == 0 :: s.tasks[id].next.Nil?
  }

  lemma StepLoose(s: State, e: Event)
    requires Linked(s) && Loose(s)
    ensures Loose(Step(s, e))
  {
    hide Waiting, Executing, Linked;
    match e {
      case Raise(k, cpu) => if k in s.tasks { RaiseWaiting(s, k, cpu); }
      case Begin(r, cpu) => if PcOf(s, r).Out? { BeginWaiting(s, r, cpu); }
      case Fetch(r) =>
        var pc := PcOf(s, r);
        if pc.Draining? && pc.at.To? && pc.at.id in s.tasks && pc.rest != [] { FetchWaiting(s, r, pc); }
      case Finish(r, cpu) =>
        var pc := PcOf(s, r);
        if pc.Running? && pc.id in s.tasks { FinishWaiting(s, r, cpu, pc); }
      case Leave(r) => if PcOf(s, r).Draining? && PcOf(s, r).at.Nil? { LeaveWaiting(s, r); }
      case Enable(k, on) => if k in s.tasks { SameBags(s, Step(s, e).tasks); }
    }
  }

  lemma {:induction false} RunLoose(s: State, es: seq<Event>)
    requires Inv(s) && Loose(s)
    ensures Loose(Run(s, es))
    decreases |es|
  {
    hide Inv, Step, Loose;
    if es != [] {
      InvIsBooks(s);
      StepKeeps(s, es[0]);
      StepLoose(s, es[0]);
      RunLoose(Step(s, es[0]), es[1..]);
    }
  }

  /** In every interleaving a tasklet that is idle or running keeps no link into a list it has left. */
  lemma NoStaleLinks(s: State, es: seq<Event>, id: Id)
    requires Added(s)
    ensures var u := Run(s, es); id in u.tasks && Waiting(u)[id] == 0 ==> u.tasks[id].next.Nil?
  {
    AddedInv(s);
    RunLoose(s, es);
  }

  lemma FinishEnds(u: State, r: Runner, cpu: Cpu)
    requires PcOf(u, r).Running? && PcOf(u, r).id in u.tasks
    ensures var pc := PcOf(u, r); var v, t := Step(u, Finish(r, cpu)), u.tasks[pc.id];
      && PcOf(v, r) == Draining(pc.after, pc.rest) && pc.id in v.tasks
      && v.tasks[pc.id].state == (if t.state == 2 && t.enabled then 1 else 0)
      && QueueOf(v, cpu) == (if t.state == 2 && t.enabled then [pc.id] else []) + QueueOf(u, cpu)
  {
  }

  /** In every reachable state a running pass can end: the runner goes on with its batch, and the tasklet is idle again, or first in
      the CPU's list if it was raised meanwhile and is enabled. */
  lemma PassEnds(s: State, es: seq<Event>, r: Runner, cpu: Cpu)
    requires Added(s) && PcOf(Run(s, es), r).Running?
    ensures var u := Run(s, es); var pc := PcOf(u, r);
      && pc.id in u.tasks
      && var v, t := Step(u, Finish(r, cpu)), u.tasks[pc.id];
      && PcOf(v, r) == Draining(pc.after, pc.rest) && pc.id in v.tasks
      && v.tasks[pc.id].state == (if t.state == 2 && t.enabled then 1 else 0)
      && QueueOf(v, cpu) == (if t.state == 2 && t.enabled then [pc.id] else []) + QueueOf(u, cpu)
  {
    hide Inv, Linked, Step, Books;
    AddedInv(s);
    RunKeeps(s, es);
    InvIsBooks(Run(s, es));
    PcIsLinked(Run(s, es), r);
    FinishEnds(Run(s, es), r, cpu);
  }

  /** A runner whose batch is done can leave. */
  lemma DoneRunnerLeaves(s: State, es: seq<Event>, r: Runner)
    requires Added(s) && PcOf(Run(s, es), r).Draining? && PcOf(Run(s, es), r).rest == []
    ensures PcOf(Step(Run(s, es), Leave(r)), r).Out?
  {
    hide Inv, Linked, Books;
    AddedInv(s);
    RunKeeps(s, es);
    InvIsBooks(Run(s, es));
    PcIsLinked(Run(s, es), r);
  }
}
