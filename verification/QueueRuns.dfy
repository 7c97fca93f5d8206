/** One receiving side of a channel under every interleaving of senders, receivers, discards and removals. */
module QueueRuns {
  import opened BoundedQueue

  type Pointer = nat
  type Actor = nat

  /** `sent` lists every message pushed; `queue` and `consumed` hold positions in it.  A receiver that
      claimed the head remembers the message pointer until it commits or cancels. */
  datatype Side = Side(sent: seq<Pointer>, queue: seq<nat>, consumed: seq<nat>, removed: set<nat>, claimed: bool,
                       held: map<Actor, Pointer>)

  datatype Event = Send(message: Pointer) | Claim(who: Actor) | Cancel(who: Actor) | Commit(who: Actor) | Discard
                 | Remove(message: Pointer)

  const NEW := Side([], [], [], {}, false, map[])

  predicate Within(q: seq<nat>, n: nat) {
    forall k | 0 <= k < |q| :: q[k] < n
  }

  predicate InRange(s: Side) {
    Within(s.queue, |s.sent|)
  }

  function Pointers(sent: seq<Pointer>, queue: seq<nat>): (r: seq<Pointer>)
    requires Within(queue, |sent|)
    ensures |r| == |queue|
  {
    seq(|queue|, k requires 0 <= k < |queue| => sent[queue[k]])
  }

  /** A message that is still queued has not been freed, so no other message shares its address. */
  ghost predicate Enabled(s: Side, e: Event)
    requires InRange(s)
  {
    e.Send? ==> e.message !in Pointers(s.sent, s.queue)
  }

  function Pop(s: Side): Side
    requires s.queue != []
  {
    s.(queue := s.queue[1..], consumed := s.consumed + [s.queue[0]], claimed := false)
  }

  ghost predicate HeadIs(s: Side, p: Pointer)
    requires InRange(s)
  {
    s.claimed && s.queue != [] && s.sent[s.queue[0]] == p
  }

  /** What each call does, whether it succeeds or not. */
  ghost function Step(s: Side, e: Event, capacity: nat): Side
    requires InRange(s)
  {
    match e
    case Send(m) => if |s.queue| < capacity then s.(sent := s.sent + [m], queue := s.queue + [|s.sent|]) else s
    case Claim(a) =>
      if s.queue == [] || s.claimed || a in s.held then s
      else s.(claimed := true, held := s.held[a := s.sent[s.queue[0]]])
    case Cancel(a) =>
      if a !in s.held then s
      else (if HeadIs(s, s.held[a]) then s.(claimed := false) else s).(held := s.held - {a})
    case Commit(a) =>
      if a !in s.held then s
      else (if HeadIs(s, s.held[a]) then Pop(s) else s).(held := s.held - {a})
    case Discard => if s.queue == [] || s.claimed then s else Pop(s)
    case Remove(m) =>
      var ps := Pointers(s.sent, s.queue);
      if !Removable(ps, s.claimed, m) then s
      else var k := IndexOf(ps, m); s.(queue := Cut(s.queue, k), removed := s.removed + {s.queue[k]})
  }

  predicate Increasing(q: seq<nat>) {
    forall i, j | 0 <= i < j < |q| :: q[i] < q[j]
  }

  predicate Distinct(sent: seq<Pointer>, q: seq<nat>)
    requires Within(q, |sent|)
  {
    forall i, j | 0 <= i < j < |q| :: sent[q[i]] != sent[q[j]]
  }

  ghost predicate Inv(s: Side) {
    && InRange(s) && Within(s.consumed + s.queue, |s.sent|)
    && Increasing(s.consumed + s.queue)
    && (forall i: nat :: i < |s.sent| <==> (i in s.consumed + s.queue || i in s.removed))
    && (forall i | i in s.consumed + s.queue :: i !in s.removed)
    && Distinct(s.sent, s.queue)
    && (s.claimed <==> s.held != map[]) && (s.claimed ==> s.queue != [])
    && (forall a | a in s.held :: s.held[a] == s.sent[s.queue[0]])
    && (forall a, b | a in s.held && b in s.held :: a == b)
  }

  lemma PopKeeps(s: Side, a: Actor)
    requires Inv(s) && s.queue != [] && s.held.Keys <= {a}
    ensures Inv(Pop(s).(held := s.held - {a}))
  {
    var t := Pop(s).(held := s.held - {a});
    assert t.consumed + t.queue == s.consumed + s.queue;
    assert t.held == map[];
  }

  lemma SendKeeps(s: Side, m: Pointer, capacity: nat)
    requires Inv(s) && Enabled(s, Send(m))
    ensures Inv(Step(s, Send(m), capacity))
  {
    var t := Step(s, Send(m), capacity);
    if t != s {
      assert t.consumed + t.queue == s.consumed + s.queue + [|s.sent|];
      assert forall k | 0 <= k < |s.queue| :: t.queue[k] == s.queue[k] && t.sent[t.queue[k]] == s.sent[s.queue[k]];
      forall i, j | 0 <= i < j < |t.queue| ensures t.sent[t.queue[i]] != t.sent[t.queue[j]] {
        assert j == |s.queue| ==> Pointers(s.sent, s.queue)[i] == t.sent[t.queue[i]];
      }
    }
  }

  function Cut(q: seq<nat>, k: nat): seq<nat>
    requires k < |q|
  {
    q[..k] + q[k + 1..]
  }

  lemma CutIncreasing(q: seq<nat>, k: nat, n: nat)
    requires Increasing(q) && Within(q, n) && k < |q|
    ensures Increasing(Cut(q, k)) && Within(Cut(q, k), n)
    ensures forall i :: i in Cut(q, k) <==> i in q && i != q[k]
  {
    var r := Cut(q, k);
    forall i | i in q && i != q[k] ensures i in r {
      var j :| 0 <= j < |q| && q[j] == i;
      assert if j < k then r[j] == i else r[j - 1] == i;
    }
  }

  lemma CutDistinct(sent: seq<Pointer>, q: seq<nat>, k: nat)
    requires Within(q, |sent|) && k < |q| && Distinct(sent, q)
    ensures Within(Cut(q, k), |sent|) && Distinct(sent, Cut(q, k))
  {
    var r := Cut(q, k);
    forall i, j | 0 <= i < j < |r| ensures sent[r[i]] != sent[r[j]] {
      assert r[i] == (if i < k then q[i] else q[i + 1]) && r[j] == (if j < k then q[j] else q[j + 1]);
    }
  }

  lemma RemoveKeeps(s: Side, m: Pointer, capacity: nat)
    requires Inv(s)
    ensures Inv(Step(s, Remove(m), capacity))
  {
    hide Increasing, Distinct, Cut;
    var t := Step(s, Remove(m), capacity);
    var ps := Pointers(s.sent, s.queue);
    if Removable(ps, s.claimed, m) {
      var k := IndexOf(ps, m);
      var c, all := |s.consumed|, s.consumed + s.queue;
      CutAppend(s.consumed, s.queue, k);
      CutIncreasing(all, c + k, |s.sent|);
      CutDistinct(s.sent, s.queue, k);
    }
  }

  lemma CutAppend(p: seq<nat>, q: seq<nat>, k: nat)
    requires k < |q|
    ensures p + Cut(q, k) == Cut(p + q, |p| + k) && (p + q)[|p| + k] == q[k]
    ensures |Cut(q, k)| == |q| - 1 && (k > 0 ==> Cut(q, k)[0] == q[0])
  {
  }

  lemma ClaimKeeps(s: Side, e: Event, capacity: nat)
    requires Inv(s) && (e.Claim? || e.Cancel?)
    ensures Inv(Step(s, e, capacity))
  {
    var t := Step(s, e, capacity);
    assert t.consumed + t.queue == s.consumed + s.queue;
    if e.Cancel? && e.who in s.held { assert t.held == map[]; }
  }

  lemma StepKeeps(s: Side, e: Event, capacity: nat)
    requires Inv(s) && Enabled(s, e)
    ensures Inv(Step(s, e, capacity))
  {
    match e {
      case Send(m) => SendKeeps(s, m, capacity);
      case Remove(m) => RemoveKeeps(s, m, capacity);
      case Discard =>
        if Step(s, e, capacity) != s {
          PopKeeps(s, 0);
          assert s.held - {0} == s.held;
        }
      case Commit(a) => if a in s.held { PopKeeps(s, a); }
      case _ => ClaimKeeps(s, e, capacity);
    }
  }

  // ------------------------------------------------------------------------- runs

  /** Every event happened in a state where it could. */
  ghost predicate Run(s: Side, es: seq<Event>, capacity: nat, t: Side)
    decreases |es|
  {
    InRange(s) && if es == [] then s == t else Enabled(s, es[0]) && Run(Step(s, es[0], capacity), es[1..], capacity, t)
  }

  lemma {:induction false} RunKeeps(s: Side, es: seq<Event>, capacity: nat, t: Side)
    requires Inv(s) && Run(s, es, capacity, t)
    ensures Inv(t)
    decreases |es|
  {
    hide Inv, Step;
    if es != [] {
      StepKeeps(s, es[0], capacity);
      RunKeeps(Step(s, es[0], capacity), es[1..], capacity, t);
    }
  }

  /** The messages consumed and still queued are the sent ones, each once and in order, less the removed ones. */
  lemma ExactlyOnce(es: seq<Event>, capacity: nat, t: Side)
    requires Run(NEW, es, capacity, t)
    ensures Increasing(t.consumed + t.queue)
    ensures forall i: nat :: i in t.consumed + t.queue <==> i < |t.sent| && i !in t.removed
  {
    RunKeeps(NEW, es, capacity, t);
  }

  lemma {:induction false} NothingRemoved(s: Side, es: seq<Event>, capacity: nat, t: Side)
    requires Run(s, es, capacity, t) && forall e | e in es :: !e.Remove?
    ensures t.removed == s.removed
    decreases |es|
  {
    if es != [] {
      assert es[0] in es;
      NothingRemoved(Step(s, es[0], capacity), es[1..], capacity, t);
    }
  }

  lemma {:induction false} IncreasingSpread(q: seq<nat>, k: nat)
    requires Increasing(q) && k < |q|
    ensures k <= q[k]
  {
    if k > 0 { IncreasingSpread(q, k - 1); }
  }

  /** An increasing list of exactly the numbers below n is 0, 1, .., n - 1. */
  lemma {:induction false} IncreasingAll(q: seq<nat>, n: nat, k: nat)
    requires Increasing(q) && (forall i: nat :: i in q <==> i < n) && k < n
    ensures k < |q| && q[k] == k
    decreases k
  {
    assert k in q;
    var j :| 0 <= j < |q| && q[j] == k;
    IncreasingSpread(q, j);
    if j < k { IncreasingAll(q, n, j); }
  }

  lemma IncreasingLength(q: seq<nat>, n: nat)
    requires Increasing(q) && (forall i: nat :: i in q <==> i < n)
    ensures |q| == n && forall k | 0 <= k < n :: q[k] == k
  {
    forall k: nat | k < n ensures k < |q| && q[k] == k { IncreasingAll(q, n, k); }
    if n > 0 { IncreasingAll(q, n, n - 1); }
    if q != [] {
      IncreasingSpread(q, |q| - 1);
      assert q[|q| - 1] in q;
    }
  }

  /** Without removals, what was sent is what was consumed followed by what is queued. */
  lemma FirstInFirstOut(es: seq<Event>, capacity: nat, t: Side)
    requires Run(NEW, es, capacity, t) && forall e | e in es :: !e.Remove?
    ensures Within(t.consumed, |t.sent|) && Within(t.queue, |t.sent|)
    ensures Pointers(t.sent, t.consumed) + Pointers(t.sent, t.queue) == t.sent
  {
    ExactlyOnce(es, capacity, t);
    NothingRemoved(NEW, es, capacity, t);
    IncreasingLength(t.consumed + t.queue, |t.sent|);
    var all := t.consumed + t.queue;
    assert forall k | 0 <= k < |t.consumed| :: t.consumed[k] == all[k];
    assert forall k | 0 <= k < |t.queue| :: t.queue[k] == all[|t.consumed| + k];
    var ps := Pointers(t.sent, t.consumed) + Pointers(t.sent, t.queue);
    forall i | 0 <= i < |all| ensures ps[i] == t.sent[i] { assert all[i] == i; }
  }

  predicate LeavesAlone(e: Event, a: Actor) {
    !((e.Cancel? || e.Commit?) && e.who == a)
  }

  /** A claim excludes everyone else: until the holder itself commits or cancels, whatever the
      others do, nothing is consumed and the holder keeps the same head. */
  lemma {:induction false} ClaimExcludes(s: Side, es: seq<Event>, capacity: nat, t: Side, a: Actor)
    requires Inv(s) && a in s.held && Run(s, es, capacity, t)
    requires forall e | e in es :: LeavesAlone(e, a)
    ensures a in t.held && t.held[a] == s.held[a] && t.claimed && t.consumed == s.consumed
    ensures t.queue != [] && t.queue[0] == s.queue[0] && t.queue[0] < |t.sent| && t.sent[t.queue[0]] == s.held[a]
    decreases |es|
  {
    if es != [] {
      var e, u := es[0], Step(s, es[0], capacity);
      assert e in es;
      StepKeeps(s, e, capacity);
      if e.Remove? && u != s {
        var k := IndexOf(Pointers(s.sent, s.queue), e.message);
        assert k != 0;
      }
      assert u.held == s.held && u.consumed == s.consumed && u.queue != [] && u.queue[0] == s.queue[0];
      ClaimExcludes(u, es[1..], capacity, t, a);
    }
  }

  /** In every reachable state a holder's commit succeeds and consumes exactly the message it claimed. */
  lemma CommitSucceeds(es: seq<Event>, capacity: nat, t: Side, a: Actor)
    requires Run(NEW, es, capacity, t) && a in t.held
    ensures InRange(t) && HeadIs(t, t.held[a])
    ensures var u := Step(t, Commit(a), capacity);
      u.consumed == t.consumed + [t.queue[0]] && u.queue == t.queue[1..] && !u.claimed && u.held == map[]
  {
    RunKeeps(NEW, es, capacity, t);
    assert t.held - {a} == map[];
  }

  // ---------------------------------------------------------------------- every call acts

  /** Which calls are granted, and what they do: a send if there is room, a claim of an unclaimed head by someone who
      holds none, a discard of an unclaimed head, a removal of what may be removed. */
  lemma CallsAct(s: Side, capacity: nat, m: Pointer, a: Actor)
    requires Inv(s)
    ensures Step(s, Send(m), capacity).sent == if |s.queue| < capacity then s.sent + [m] else s.sent
    ensures |s.queue| < capacity ==> Step(s, Send(m), capacity).queue == s.queue + [|s.sent|]
    ensures a in Step(s, Claim(a), capacity).held <==> a in s.held || (s.queue != [] && !s.claimed)
    ensures a !in s.held && s.queue != [] && !s.claimed ==>
      Step(s, Claim(a), capacity).claimed && Step(s, Claim(a), capacity).held == s.held[a := s.sent[s.queue[0]]]
    ensures Step(s, Discard, capacity).consumed == if s.queue != [] && !s.claimed then s.consumed + [s.queue[0]] else s.consumed
    ensures var ps := Pointers(s.sent, s.queue);
      Step(s, Remove(m), capacity).removed != s.removed <==> m in ps && !(s.claimed && ps[0] == m)
  {
    var ps := Pointers(s.sent, s.queue);
    if Removable(ps, s.claimed, m) {
      FoundIs(ps, m);
      var k := IndexOf(ps, m);
      assert s.queue[k] in s.queue && s.queue[k] in s.consumed + s.queue;
      assert s.queue[k] !in s.removed;
    }
  }
}
