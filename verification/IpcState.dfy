/** All processes' tables, all channels and the kernel-wide budgets, between system calls. */
module IpcState {
  import opened CapabilityTable
  import opened CapabilityLaws
  import opened CapabilityBags
  import opened Channel
  import opened Bags

  type Process = nat
  type ChannelId = nat

  /** `queue0` waits for side 0; `kernel0` counts the kernel's own holds on side 0. */
  datatype Chan = Chan(queue0: Queue, queue1: Queue, limits: Limits, kernel0: nat, kernel1: nat)

  datatype System = System(tables: map<Process, Table>, channels: map<ChannelId, Chan>, budget: Budget)

  const BOOT := System(map[], map[], Budget(0, 0, 0))

  function QueueOf(ch: Chan, side: nat): Queue {
    if side == 0 then ch.queue0 else ch.queue1
  }

  function SetQueue(ch: Chan, side: nat, q: Queue): Chan {
    if side == 0 then ch.(queue0 := q) else ch.(queue1 := q)
  }

  // --------------------------------------------------------------------- holdings

  function MessagesBag(ms: seq<Message>): multiset<Object> {
    if ms == [] then multiset{} else ResourceBag(ms[0].resources) + MessagesBag(ms[1..])
  }

  function ChanBag(ch: Chan): multiset<Object> {
    MessagesBag(ch.queue0.items) + MessagesBag(ch.queue1.items)
  }

  /** Every holder of every object: table entries and queued messages. */
  ghost function Holders(s: System): multiset<Object> {
    MapBag(s.tables, TableBag) + MapBag(s.channels, ChanBag)
  }

  /** The owner count of one end of a channel between calls. */
  ghost function Owners(s: System, c: ChannelId, side: nat): nat
    requires c in s.channels
  {
    Holders(s)[RawEndpoint(c, side)] + if side == 0 then s.channels[c].kernel0 else s.channels[c].kernel1
  }

  predicate InQueue(q: Queue, r: Resource) {
    exists m :: m in q.items && r in m.resources
  }

  predicate InChan(ch: Chan, r: Resource) {
    InQueue(ch.queue0, r) || InQueue(ch.queue1, r)
  }

  predicate InSystem(s: System, r: Resource) {
    || (exists p :: p in s.tables && InTable(s.tables[p], r))
    || (exists c :: c in s.channels && InChan(s.channels[c], r))
  }

  /** Every capability of t is at most one that s had, or one of `also`. */
  ghost predicate Derived(t: System, s: System, also: seq<Resource>) {
    forall r | InSystem(t, r) :: exists r0 :: (InSystem(s, r0) || r0 in also) && AtMost(r, r0)
  }

  // -------------------------------------------------------------------- invariants

  /** Between calls no transfer is in progress; entries of dropped batches stay counted. */
  ghost predicate TableOk(t: Table) {
    t.count >= |t.entries| && Valid(t, {}, t.count - |t.entries|)
  }

  ghost predicate ChanOk(ch: Chan) {
    && QueueOk(ch.queue0, ch.limits) && QueueOk(ch.queue1, ch.limits)
    && !ch.queue0.claimed && !ch.queue1.claimed
  }

  function ChanMessages(ch: Chan): nat { |ch.queue0.items| + |ch.queue1.items| }

  function ChanBytes(ch: Chan): nat { ch.queue0.bytes + ch.queue1.bytes }

  function ChanResources(ch: Chan): nat { ch.queue0.resources + ch.queue1.resources }

  /** The global counters are the sums over all channels, and within their limits. */
  ghost predicate BudgetOk(s: System) {
    && s.budget == Budget(MapSum(s.channels, ChanMessages), MapSum(s.channels, ChanBytes), MapSum(s.channels, ChanResources))
    && s.budget.messages <= GLOBAL.messages && s.budget.bytes <= GLOBAL.bytes && s.budget.resources <= GLOBAL.resources
  }

  ghost predicate RawBound(s: System) {
    forall r | InSystem(s, r) && r.obj.RawEndpoint? :: r.meta.binding == BINDING_RAW
  }

  /** A raw endpoint has at most one holder, and its channel exists. */
  ghost predicate Linear(s: System) {
    && (forall o: Object | o.RawEndpoint? :: Holders(s)[o] <= 1)
    && (forall o: Object | o.RawEndpoint? && o in Holders(s) :: o.channel in s.channels && o.side <= 1)
  }

  ghost predicate Sound(s: System) {
    && (forall p | p in s.tables :: TableOk(s.tables[p]))
    && (forall c | c in s.channels :: ChanOk(s.channels[c]))
  }

  ghost predicate Inv(s: System) {
    Sound(s) && BudgetOk(s) && RawBound(s) && Linear(s)
  }

  // ------------------------------------------------------------------------ frames

  /** Table p and channel c change; everything else stays. */
  function Replace(s: System, p: Process, t: Table, c: ChannelId, ch: Chan, b: Budget): System {
    System(s.tables[p := t], s.channels[c := ch], b)
  }

  lemma ReplaceHolders(s: System, p: Process, t: Table, c: ChannelId, ch: Chan, b: Budget)
    requires p in s.tables && c in s.channels
    requires RawAtMost(TableBag(t) + ChanBag(ch), TableBag(s.tables[p]) + ChanBag(s.channels[c]))
    ensures RawAtMost(Holders(Replace(s, p, t, c, ch, b)), Holders(s))
  {
    BagSplit(s.tables, TableBag, p);
    BagUpdate(s.tables, TableBag, p, t);
    BagSplit(s.channels, ChanBag, c);
    BagUpdate(s.channels, ChanBag, c, ch);
    var r1, r2 := MapBag(s.tables - {p}, TableBag), MapBag(s.channels - {c}, ChanBag);
    var u := Holders(Replace(s, p, t, c, ch, b));
    forall o: Object | o.RawEndpoint? ensures u[o] <= Holders(s)[o] {
      assert u[o] == r1[o] + r2[o] + (TableBag(t) + ChanBag(ch))[o];
      assert Holders(s)[o] == r1[o] + r2[o] + (TableBag(s.tables[p]) + ChanBag(s.channels[c]))[o];
    }
  }

  lemma TableHolders(s: System, p: Process, t: Table)
    requires p in s.tables && RawAtMost(TableBag(t), TableBag(s.tables[p]))
    ensures RawAtMost(Holders(s.(tables := s.tables[p := t])), Holders(s))
  {
    BagSplit(s.tables, TableBag, p);
    BagUpdate(s.tables, TableBag, p, t);
  }

  lemma NewTableHolders(s: System, p: Process, t: Table)
    requires p !in s.tables && NoRaw(TableBag(t))
    ensures RawAtMost(Holders(s.(tables := s.tables[p := t])), Holders(s))
  {
    BagFresh(s.tables, TableBag, p, t);
  }

  lemma LessTableHolders(s: System, p: Process)
    requires p in s.tables
    ensures RawAtMost(Holders(s.(tables := s.tables - {p})), Holders(s))
  {
    BagSplit(s.tables, TableBag, p);
  }

  lemma ChanHolders(s: System, c: ChannelId, ch: Chan, b: Budget)
    requires c in s.channels && RawAtMost(ChanBag(ch), ChanBag(s.channels[c]))
    ensures RawAtMost(Holders(s.(channels := s.channels[c := ch], budget := b)), Holders(s))
  {
    BagSplit(s.channels, ChanBag, c);
    BagUpdate(s.channels, ChanBag, c, ch);
  }

  lemma LessChanHolders(s: System, c: ChannelId, b: Budget)
    requires c in s.channels
    ensures RawAtMost(Holders(s.(channels := s.channels - {c}, budget := b)), Holders(s))
  {
    BagSplit(s.channels, ChanBag, c);
  }

  /** Capabilities of a replaced table and channel come from the old ones. */
  ghost predicate WorldDerived(t: Table, ch: Chan, t0: Table, ch0: Chan) {
    forall r | InTable(t, r) || InChan(ch, r) :: exists r0 :: (InTable(t0, r0) || InChan(ch0, r0)) && AtMost(r, r0)
  }

  lemma ReplaceDerived(s: System, p: Process, t: Table, c: ChannelId, ch: Chan, b: Budget)
    requires p in s.tables && c in s.channels && WorldDerived(t, ch, s.tables[p], s.channels[c])
    ensures Derived(Replace(s, p, t, c, ch, b), s, [])
  {
    var u := Replace(s, p, t, c, ch, b);
    forall r | InSystem(u, r) ensures exists r0 :: (InSystem(s, r0) || r0 in []) && AtMost(r, r0) {
      if InTable(t, r) || InChan(ch, r) {
        var r0 :| (InTable(s.tables[p], r0) || InChan(s.channels[c], r0)) && AtMost(r, r0);
        assert InSystem(s, r0);
      } else {
        assert InSystem(s, r) && AtMost(r, r);
      }
    }
  }

  lemma TableDerived(s: System, p: Process, t: Table, also: seq<Resource>)
    requires p in s.tables && NoMoreThan(t, s.tables[p], also)
    ensures Derived(s.(tables := s.tables[p := t]), s, also)
  {
    var u := s.(tables := s.tables[p := t]);
    forall r | InSystem(u, r) ensures exists r0 :: (InSystem(s, r0) || r0 in also) && AtMost(r, r0) {
      if InTable(t, r) {
        var r0 :| (InTable(s.tables[p], r0) || r0 in also) && AtMost(r, r0);
        assert InSystem(s, r0) || r0 in also;
      } else {
        assert InSystem(s, r) && AtMost(r, r);
      }
    }
  }

  /** Nothing is in u that was not in s. */
  lemma FewerDerived(u: System, s: System)
    requires forall r | InSystem(u, r) :: InSystem(s, r)
    ensures Derived(u, s, [])
  {
    forall r | InSystem(u, r) ensures exists r0 :: (InSystem(s, r0) || r0 in []) && AtMost(r, r0) {
      assert AtMost(r, r);
    }
  }

  /** What the raw invariants need of a step that creates no channel. */
  lemma RawKept(u: System, s: System, also: seq<Resource>)
    requires RawBound(s) && Linear(s) && Derived(u, s, also) && RawAtMost(Holders(u), Holders(s))
    requires forall r | r in also :: !r.obj.RawEndpoint?
    requires forall o: Object | o.RawEndpoint? && o in Holders(u) && o.channel in s.channels :: o.channel in u.channels
    ensures RawBound(u) && Linear(u)
  {
    forall r | InSystem(u, r) && r.obj.RawEndpoint? ensures r.meta.binding == BINDING_RAW {
      var r0 :| (InSystem(s, r0) || r0 in also) && AtMost(r, r0);
    }
    forall o: Object | o.RawEndpoint? ensures Holders(u)[o] <= 1 { assert Holders(s)[o] <= 1; }
    forall o: Object | o.RawEndpoint? && o in Holders(u) ensures o.channel in u.channels && o.side <= 1 {
      assert Holders(u)[o] <= Holders(s)[o];
      assert o in Holders(s);
    }
  }

  lemma ReplaceBudget(s: System, p: Process, t: Table, c: ChannelId, ch: Chan, b: Budget)
    requires BudgetOk(s) && c in s.channels
    requires b.messages + ChanMessages(s.channels[c]) == s.budget.messages + ChanMessages(ch)
    requires b.bytes + ChanBytes(s.channels[c]) == s.budget.bytes + ChanBytes(ch)
    requires b.resources + ChanResources(s.channels[c]) == s.budget.resources + ChanResources(ch)
    requires b.messages <= GLOBAL.messages && b.bytes <= GLOBAL.bytes && b.resources <= GLOBAL.resources
    ensures BudgetOk(Replace(s, p, t, c, ch, b))
  {
    SumSplit(s.channels, ChanMessages, c);
    SumUpdate(s.channels, ChanMessages, c, ch);
    SumSplit(s.channels, ChanBytes, c);
    SumUpdate(s.channels, ChanBytes, c, ch);
    SumSplit(s.channels, ChanResources, c);
    SumUpdate(s.channels, ChanResources, c, ch);
  }

  /** A channel's queues never hold more than the global counters say. */
  lemma ChanCovered(s: System, c: ChannelId)
    requires BudgetOk(s) && c in s.channels
    ensures Covers(s.budget, s.channels[c].queue0) && Covers(s.budget, s.channels[c].queue1)
    ensures ChanMessages(s.channels[c]) <= s.budget.messages && ChanBytes(s.channels[c]) <= s.budget.bytes
    ensures ChanResources(s.channels[c]) <= s.budget.resources
  {
    SumSplit(s.channels, ChanMessages, c);
    SumSplit(s.channels, ChanBytes, c);
    SumSplit(s.channels, ChanResources, c);
  }
}
