/** Owner and root counters of one counted kernel object (a raw channel endpoint, a terminal's driver control,
    a protocol endpoint), callback by callback, with any number of threads in the middle of table
    operations.  Map updates happen under the table lock; the counters are adjusted by callbacks after
    the lock is released.  Counted objects are unique, so no call duplicates them; only a fork copies an
    entry without asking, and it never copies a raw channel endpoint. */
module OwnerCounts {
  import opened Bags

  type Thread = nat

  /** Where a thread is between its map update and its last callback. */
  datatype Pc =
    | Idle
    | InsertPending                   // entry inserted by a fork or an install, not yet counted
    | ClosePending                    // entry removed, still counted
    | Taken | TakenCounted            // moved out: entry detached; then the transit count is added
    | Carrying                        // holds a transfer record
    | RestoreBegun | RestoreCounted   // entry attached again; then its root is counted
    | ActivateBegun | ActivateCounted // reserved entry filled; then its root is counted
    | DropPending                     // message or record destroyed, still counted
    | RestrictBegun | RestrictCounted // object moved to the weaker entry; then counted twice

  /** `tables` and `queued` are the table entries and queued message slots that hold the object, `kernel` the kernel's
      own hold.  `copyable` says that a fork copies its entries.  `revoked` is set when a release takes the
      counter from one to zero. */
  datatype State = State(copyable: bool, made: bool, tables: nat, queued: nat, kernel: nat, owners: int, roots: int,
                         threads: map<Thread, Pc>, revoked: bool)

  datatype Action = Create | KernelCreate | Insert | Close | Take | Enqueue | Restore | Activate | Receive | Discard | Drop | Restrict
                  | KernelRelease | Callback

  function At(s: State, th: Thread): Pc {
    if th in s.threads then s.threads[th] else Idle
  }

  function Enter(s: State, th: Thread, pc: Pc): State {
    s.(threads := s.threads[th := pc])
  }

  function Acquire(s: State, root: bool): State {
    s.(owners := s.owners + 1, roots := if root then s.roots + 1 else s.roots)
  }

  function Release(s: State, root: bool): State {
    s.(owners := s.owners - 1, roots := if root then s.roots - 1 else s.roots, revoked := s.revoked || s.owners == 1)
  }

  /** The next callback of a thread. */
  function RunCallback(s: State, th: Thread): State {
    match At(s, th)
    case InsertPending => Enter(Acquire(s, true), th, Idle)
    case ClosePending => Enter(Release(s, true), th, Idle)
    case Taken => Enter(Acquire(s, false), th, TakenCounted)
    case TakenCounted => Enter(Release(s, true), th, Carrying)
    case RestoreBegun => Enter(Acquire(s, true), th, RestoreCounted)
    case RestoreCounted => Enter(Release(s, false), th, Idle)
    case ActivateBegun => Enter(Acquire(s, true), th, ActivateCounted)
    case ActivateCounted => Enter(Release(s, false), th, Idle)
    case DropPending => Enter(Release(s, false), th, Idle)
    case RestrictBegun => Enter(Acquire(s, true), th, RestrictCounted)
    case RestrictCounted => Enter(Release(s, true), th, Idle)
    case _ => s
  }

  /** An object is made once: inside a transfer record that counts it, or as a hold of the kernel's own, or, when
      forks copy it, by an install that counts it afterwards. */
  function Step(s: State, th: Thread, a: Action): State {
    var pc := At(s, th);
    match a
    case Callback => RunCallback(s, th)
    case Create => if pc.Idle? && !s.made then Enter(Acquire(s.(made := true), false), th, Carrying) else s
    case KernelCreate => if pc.Idle? && !s.made then Acquire(s.(made := true, kernel := 1), false) else s
    case Insert =>
      if pc.Idle? && s.copyable && (s.tables > 0 || !s.made)
      then Enter(s.(made := true, tables := s.tables + 1), th, InsertPending) else s
    case Enqueue => if pc.Carrying? then Enter(s.(queued := s.queued + 1), th, Idle) else s
    case Restore => if pc.Carrying? then Enter(s.(tables := s.tables + 1), th, RestoreBegun) else s
    case Activate => if pc.Carrying? then Enter(s.(tables := s.tables + 1), th, ActivateBegun) else s
    case Drop => if pc.Carrying? then Enter(s, th, DropPending) else s
    case Close => if pc.Idle? && s.tables > 0 then Enter(s.(tables := s.tables - 1), th, ClosePending) else s
    case Take => if pc.Idle? && s.tables > 0 then Enter(s.(tables := s.tables - 1), th, Taken) else s
    case Restrict => if pc.Idle? && s.tables > 0 then Enter(s, th, RestrictBegun) else s
    case Receive =>
      if pc.Idle? && s.queued > 0 then Enter(s.(queued := s.queued - 1, tables := s.tables + 1), th, ActivateBegun) else s
    case Discard => if pc.Idle? && s.queued > 0 then Enter(s.(queued := s.queued - 1), th, DropPending) else s
    case KernelRelease => if pc.Idle? && s.kernel > 0 then Release(s.(kernel := s.kernel - 1), false) else s
  }

  /** Before the object is made. */
  function Fresh(copyable: bool): State {
    State(copyable, false, 0, 0, 0, 0, 0, map[], false)
  }

  // ----------------------------------------------------------------------- balance

  /** A capability the thread carries between table and queue. */
  function Carried(pc: Pc): nat {
    if pc.Taken? || pc.TakenCounted? || pc.Carrying? then 1 else 0
  }

  /** A new holder that no counter knows yet. */
  function Unpaid(pc: Pc): nat {
    if pc.InsertPending? then 1 else 0
  }

  /** A count that outlives its holder. */
  function Extra(pc: Pc): nat {
    if pc.ClosePending? || pc.TakenCounted? || pc.RestoreCounted? || pc.ActivateCounted? || pc.DropPending? || pc.RestrictCounted?
    then 1 else 0
  }

  function UnpaidRoot(pc: Pc): nat {
    if pc.InsertPending? || pc.RestoreBegun? || pc.ActivateBegun? then 1 else 0
  }

  function ExtraRoot(pc: Pc): nat {
    if pc.ClosePending? || pc.Taken? || pc.TakenCounted? || pc.RestrictCounted? then 1 else 0
  }

  /** Everyone who holds the object. */
  ghost function Live(s: State): nat {
    s.tables + s.queued + s.kernel + MapSum(s.threads, Carried)
  }

  ghost predicate Balanced(s: State) {
    && s.owners + MapSum(s.threads, Unpaid) == Live(s) + MapSum(s.threads, Extra)
    && s.roots + MapSum(s.threads, UnpaidRoot) == s.tables + MapSum(s.threads, ExtraRoot)
    && (!s.made ==> s == Fresh(s.copyable))
  }

  lemma EnterSum(s: State, th: Thread, pc: Pc, f: Pc -> nat)
    requires f(Idle) == 0
    ensures MapSum(s.threads[th := pc], f) + f(At(s, th)) == MapSum(s.threads, f) + f(pc)
  {
    SumUpdate(s.threads, f, th, pc);
    if th in s.threads {
      SumSplit(s.threads, f, th);
    } else {
      assert s.threads - {th} == s.threads;
    }
  }

  lemma EnterSums(s: State, th: Thread, pc: Pc)
    ensures var m := s.threads[th := pc];
      && MapSum(m, Carried) + Carried(At(s, th)) == MapSum(s.threads, Carried) + Carried(pc)
      && MapSum(m, Unpaid) + Unpaid(At(s, th)) == MapSum(s.threads, Unpaid) + Unpaid(pc)
      && MapSum(m, Extra) + Extra(At(s, th)) == MapSum(s.threads, Extra) + Extra(pc)
      && MapSum(m, UnpaidRoot) + UnpaidRoot(At(s, th)) == MapSum(s.threads, UnpaidRoot) + UnpaidRoot(pc)
      && MapSum(m, ExtraRoot) + ExtraRoot(At(s, th)) == MapSum(s.threads, ExtraRoot) + ExtraRoot(pc)
  {
    EnterSum(s, th, pc, Carried);
    EnterSum(s, th, pc, Unpaid);
    EnterSum(s, th, pc, Extra);
    EnterSum(s, th, pc, UnpaidRoot);
    EnterSum(s, th, pc, ExtraRoot);
  }

  /** What a step from `was` to `now` must do to the counters for the books to balance. */
  predicate Even(s: State, u: State, was: Pc, now: Pc) {
    && u.owners - s.owners + Unpaid(now) - Unpaid(was)
       == u.tables - s.tables + u.queued - s.queued + u.kernel - s.kernel + Carried(now) - Carried(was) + Extra(now) - Extra(was)
    && u.roots - s.roots + UnpaidRoot(now) - UnpaidRoot(was) == u.tables - s.tables + ExtraRoot(now) - ExtraRoot(was)
  }

  predicate Pays(s: State, u: State, th: Thread) {
    u.made && u.threads == s.threads[th := At(u, th)] && Even(s, u, At(s, th), At(u, th))
  }

  lemma EnterPays(s: State, v: State, th: Thread, pc: Pc)
    requires v.made && v.threads == s.threads && Even(s, v, At(s, th), pc)
    ensures Pays(s, Enter(v, th, pc), th)
  {
  }

  lemma PaysBalances(s: State, u: State, th: Thread)
    requires Balanced(s) && Pays(s, u, th)
    ensures Balanced(u)
  {
    EnterSums(s, th, At(u, th));
  }

  lemma CallbackPays(s: State, th: Thread)
    requires s.made || At(s, th).Idle?
    ensures RunCallback(s, th) == s || Pays(s, RunCallback(s, th), th)
  {
    hide Pays, Enter;
    match At(s, th) {
      case InsertPending => EnterPays(s, Acquire(s, true), th, Idle);
      case ClosePending => EnterPays(s, Release(s, true), th, Idle);
      case Taken => EnterPays(s, Acquire(s, false), th, TakenCounted);
      case TakenCounted => EnterPays(s, Release(s, true), th, Carrying);
      case RestoreBegun => EnterPays(s, Acquire(s, true), th, RestoreCounted);
      case RestoreCounted => EnterPays(s, Release(s, false), th, Idle);
      case ActivateBegun => EnterPays(s, Acquire(s, true), th, ActivateCounted);
      case ActivateCounted => EnterPays(s, Release(s, false), th, Idle);
      case DropPending => EnterPays(s, Release(s, false), th, Idle);
      case RestrictBegun => EnterPays(s, Acquire(s, true), th, RestrictCounted);
      case RestrictCounted => EnterPays(s, Release(s, true), th, Idle);
      case _ =>
    }
  }

  lemma StepPays(s: State, th: Thread, a: Action)
    requires s.made || s == Fresh(s.copyable)
    ensures Step(s, th, a) == s || Pays(s, Step(s, th, a), th) || a.KernelCreate? || a.KernelRelease?
  {
    hide RunCallback;
    if a.Callback? { CallbackPays(s, th); }
  }

  lemma StepBalances(s: State, th: Thread, a: Action)
    requires Balanced(s)
    ensures Balanced(Step(s, th, a))
  {
    hide RunCallback, Pays, MapSum;
    StepPays(s, th, a);
    if Pays(s, Step(s, th, a), th) { PaysBalances(s, Step(s, th, a), th); }
  }

  // ------------------------------------------------------------------------- runs

  datatype Event = Event(thread: Thread, action: Action)

  function Run(s: State, es: seq<Event>): State
    decreases |es|
  {
    if es == [] then s else Run(Step(s, es[0].thread, es[0].action), es[1..])
  }

  lemma {:induction false} RunBalances(s: State, es: seq<Event>)
    requires Balanced(s)
    ensures Balanced(Run(s, es))
    decreases |es|
  {
    if es != [] {
      StepBalances(s, es[0].thread, es[0].action);
      RunBalances(Step(s, es[0].thread, es[0].action), es[1..]);
    }
  }

  predicate AtRest(s: State) {
    forall th | th in s.threads :: s.threads[th] == Idle
  }

  lemma {:induction false} RestingSum(m: map<Thread, Pc>, f: Pc -> nat)
    requires f(Idle) == 0 && forall th | th in m :: m[th] == Idle
    ensures MapSum(m, f) == 0
    decreases |m|
  {
    if m != map[] {
      var th :| th in m;
      SumSplit(m, f, th);
      RestingSum(m - {th}, f);
    }
  }

  lemma AtRestBalance(s: State)
    requires Balanced(s) && AtRest(s)
    ensures Live(s) == s.tables + s.queued + s.kernel == s.owners && s.roots == s.tables
    ensures MapSum(s.threads, Unpaid) == 0
  {
    RestingSum(s.threads, Carried);
    RestingSum(s.threads, Unpaid);
    RestingSum(s.threads, Extra);
    RestingSum(s.threads, UnpaidRoot);
    RestingSum(s.threads, ExtraRoot);
  }

  /** When no operation is in progress the counters are exact: the owners are the table entries, the
      queued slots and the kernel's hold, the roots are the table entries. */
  lemma CountsAtRest(copyable: bool, es: seq<Event>)
    requires AtRest(Run(Fresh(copyable), es))
    ensures var s := Run(Fresh(copyable), es); s.owners == s.tables + s.queued + s.kernel && s.roots == s.tables
  {
    RunBalances(Fresh(copyable), es);
    AtRestBalance(Run(Fresh(copyable), es));
  }

  // ------------------------------------------------------- objects that are not copied

  /** No entry waits to be counted, and a counter at zero has hung up. */
  ghost predicate Settled(s: State) {
    Balanced(s) && MapSum(s.threads, Unpaid) == 0 && (s.made && s.owners == 0 ==> s.revoked)
  }

  predicate Uncopied(s: State, es: seq<Event>) {
    !s.copyable || forall e | e in es :: !e.action.Insert?
  }

  /** The holders a step leaves are at most those it found, once the object is made; none waits to be counted. */
  predicate Slides(s: State, u: State, was: Pc, now: Pc) {
    && Unpaid(now) <= Unpaid(was)
    && (s.made ==> u.tables + u.queued + u.kernel + Carried(now) <= s.tables + s.queued + s.kernel + Carried(was))
    && (u.owners == 0 ==> u.revoked || s.owners == 0)
    && (s.revoked ==> u.revoked)
  }

  predicate Moves(s: State, u: State, th: Thread) {
    u.threads == s.threads[th := At(u, th)] && Slides(s, u, At(s, th), At(u, th))
  }

  lemma EnterMoves(s: State, v: State, th: Thread, pc: Pc)
    requires v.threads == s.threads && Slides(s, v, At(s, th), pc)
    ensures Moves(s, Enter(v, th, pc), th)
  {
  }

  lemma CallbackMoves(s: State, th: Thread)
    requires Unpaid(At(s, th)) == 0 && s.owners >= 0
    ensures RunCallback(s, th) == s || Moves(s, RunCallback(s, th), th)
  {
    hide Moves, Enter;
    match At(s, th) {
      case ClosePending => EnterMoves(s, Release(s, true), th, Idle);
      case Taken => EnterMoves(s, Acquire(s, false), th, TakenCounted);
      case TakenCounted => EnterMoves(s, Release(s, true), th, Carrying);
      case RestoreBegun => EnterMoves(s, Acquire(s, true), th, RestoreCounted);
      case RestoreCounted => EnterMoves(s, Release(s, false), th, Idle);
      case ActivateBegun => EnterMoves(s, Acquire(s, true), th, ActivateCounted);
      case ActivateCounted => EnterMoves(s, Release(s, false), th, Idle);
      case DropPending => EnterMoves(s, Release(s, false), th, Idle);
      case RestrictBegun => EnterMoves(s, Acquire(s, true), th, RestrictCounted);
      case RestrictCounted => EnterMoves(s, Release(s, true), th, Idle);
      case _ =>
    }
  }

  lemma StepMoves(s: State, th: Thread, a: Action)
    requires Unpaid(At(s, th)) == 0 && !(s.copyable && a.Insert?) && !a.KernelCreate? && !a.KernelRelease?
    requires s.owners >= 0
    ensures Step(s, th, a) == s || Moves(s, Step(s, th, a), th)
  {
    hide RunCallback, Moves, Enter;
    if Step(s, th, a) != s {
      match a {
        case Callback => CallbackMoves(s, th);
        case Create => EnterMoves(s, Acquire(s.(made := true), false), th, Carrying);
        case Enqueue => EnterMoves(s, s.(queued := s.queued + 1), th, Idle);
        case Restore => EnterMoves(s, s.(tables := s.tables + 1), th, RestoreBegun);
        case Activate => EnterMoves(s, s.(tables := s.tables + 1), th, ActivateBegun);
        case Drop => EnterMoves(s, s, th, DropPending);
        case Close => EnterMoves(s, s.(tables := s.tables - 1), th, ClosePending);
        case Take => EnterMoves(s, s.(tables := s.tables - 1), th, Taken);
        case Restrict => EnterMoves(s, s, th, RestrictBegun);
        case Receive => EnterMoves(s, s.(queued := s.queued - 1, tables := s.tables + 1), th, ActivateBegun);
        case Discard => EnterMoves(s, s.(queued := s.queued - 1), th, DropPending);
        case _ =>
      }
    }
  }

  lemma MovesLive(s: State, u: State, th: Thread)
    requires MapSum(s.threads, Unpaid) == 0 && Moves(s, u, th)
    ensures MapSum(u.threads, Unpaid) == 0 && (s.made ==> Live(u) <= Live(s))
  {
    EnterSums(s, th, At(u, th));
  }

  lemma NoUnpaid(s: State, th: Thread)
    requires MapSum(s.threads, Unpaid) == 0
    ensures Unpaid(At(s, th)) == 0
  {
    if th in s.threads { SumSplit(s.threads, Unpaid, th); }
  }

  lemma SettledStep(s: State, th: Thread, a: Action)
    requires Settled(s) && !(s.copyable && a.Insert?)
    ensures Settled(Step(s, th, a))
    ensures s.made ==> Live(Step(s, th, a)) <= Live(s)
    ensures s.revoked ==> Step(s, th, a).revoked
    ensures Step(s, th, a).copyable == s.copyable && (s.made ==> Step(s, th, a).made)
    ensures !s.revoked && Step(s, th, a).revoked ==> Step(s, th, a).owners == 0
  {
    hide Moves, MapSum;
    var u := Step(s, th, a);
    NoUnpaid(s, th);
    StepBalances(s, th, a);
    RevokedAtZero(s, th, a);
    if !a.KernelCreate? && !a.KernelRelease? {
      StepMoves(s, th, a);
      if Moves(s, u, th) {
        MovesLive(s, u, th);
        MovesRevokes(s, u, th);
      }
    }
  }

  lemma MovesRevokes(s: State, u: State, th: Thread)
    requires Moves(s, u, th)
    ensures (u.owners == 0 ==> u.revoked || s.owners == 0) && (s.revoked ==> u.revoked)
  {
  }

  lemma RevokedAtZero(s: State, th: Thread, a: Action)
    ensures var u := Step(s, th, a);
      && (!s.revoked && u.revoked ==> u.owners == 0) && u.copyable == s.copyable && (s.made ==> u.made)
      && (s.revoked ==> u.revoked)
  {
  }

  lemma {:induction false} SettledRun(s: State, es: seq<Event>)
    requires Settled(s) && Uncopied(s, es)
    ensures Settled(Run(s, es))
    ensures s.made ==> Live(Run(s, es)) <= Live(s)
    decreases |es|
  {
    hide Settled;
    if es != [] {
      assert es[0] in es;
      SettledStep(s, es[0].thread, es[0].action);
      SettledRun(Step(s, es[0].thread, es[0].action), es[1..]);
    }
  }

  /** For a raw channel endpoint, over every run of creations, moves, restores, receives, restricts, closes,
      discards and dropped records, at every callback: the count is at least the number of holders, so while
      anyone holds the endpoint no peer sees its channel closed.  The same holds for the other counted objects as
      long as no fork copies them. */
  lemma NeverZeroWhileHeld(copyable: bool, es: seq<Event>)
    requires Uncopied(Fresh(copyable), es)
    ensures var s := Run(Fresh(copyable), es); s.owners >= Live(s) && (Live(s) > 0 ==> s.owners > 0)
  {
    SettledRun(Fresh(copyable), es);
  }

  /** The drop to zero, which revokes a terminal, happens only once the last holder is gone, and it has
      happened by the time everything is at rest without a holder. */
  lemma HungUpExactly(copyable: bool, es: seq<Event>)
    requires Uncopied(Fresh(copyable), es)
    ensures var s := Run(Fresh(copyable), es);
      && (s.revoked ==> Live(s) == 0)
      && (AtRest(s) && s.made ==> (s.revoked <==> s.tables + s.queued + s.kernel == 0))
  {
    var s := Run(Fresh(copyable), es);
    SettledRun(Fresh(copyable), es);
    RevokedIsGone(Fresh(copyable), es);
    if AtRest(s) { AtRestBalance(s); }
  }

  lemma {:induction false} RevokedIsGone(s: State, es: seq<Event>)
    requires Settled(s) && Uncopied(s, es) && (s.revoked ==> s.made && Live(s) == 0)
    ensures Run(s, es).revoked ==> Live(Run(s, es)) == 0
    decreases |es|
  {
    if es != [] {
      assert es[0] in es;
      SettledStep(s, es[0].thread, es[0].action);
      RevokedIsGone(Step(s, es[0].thread, es[0].action), es[1..]);
    }
  }

  // -------------------------------------------------------------------- the fork window

  /** The step takes a holder away: an entry closed, a message or record dropped, the kernel's hold released. */
  function Departs(s: State, th: Thread, a: Action): nat {
    if a.Close? && At(s, th).Idle? && s.tables > 0 then 1
    else if a.Discard? && At(s, th).Idle? && s.queued > 0 then 1
    else if a.Drop? && At(s, th).Carrying? then 1
    else if a.KernelRelease? && At(s, th).Idle? && s.kernel > 0 then 1
    else 0
  }

  /** How many holders go in a run. */
  function Departures(s: State, es: seq<Event>): nat
    decreases |es|
  {
    if es == [] then 0
    else Departs(s, es[0].thread, es[0].action) + Departures(Step(s, es[0].thread, es[0].action), es[1..])
  }

  /** What everyone else does while `th` has inserted a copy and not yet counted it. */
  predicate Window(th: Thread, es: seq<Event>) {
    forall e | e in es :: e.thread != th && !e.action.Insert?
  }

  ghost predicate Waiting(s: State, th: Thread) {
    Balanced(s) && s.made && At(s, th).InsertPending? && MapSum(s.threads, Unpaid) == 1
  }

  predicate Goes(s: State, u: State, th: Thread, gone: nat) {
    u.threads == s.threads[th := At(u, th)] && Passes(s, u, At(s, th), At(u, th), gone)
  }

  /** Holders change places, and `gone` of them go. */
  predicate Passes(s: State, u: State, was: Pc, now: Pc, gone: nat) {
    Unpaid(now) == Unpaid(was) && u.tables + u.queued + u.kernel + Carried(now) + gone == s.tables + s.queued + s.kernel + Carried(was)
  }

  lemma EnterGoes(s: State, v: State, th: Thread, pc: Pc, gone: nat)
    requires v.threads == s.threads && Passes(s, v, At(s, th), pc, gone)
    ensures Goes(s, Enter(v, th, pc), th, gone)
  {
  }

  lemma CallbackGoes(s: State, th: Thread)
    requires !At(s, th).InsertPending?
    ensures RunCallback(s, th) == s || Goes(s, RunCallback(s, th), th, 0)
  {
    hide Goes, Enter;
    match At(s, th) {
      case ClosePending => EnterGoes(s, Release(s, true), th, Idle, 0);
      case Taken => EnterGoes(s, Acquire(s, false), th, TakenCounted, 0);
      case TakenCounted => EnterGoes(s, Release(s, true), th, Carrying, 0);
      case RestoreBegun => EnterGoes(s, Acquire(s, true), th, RestoreCounted, 0);
      case RestoreCounted => EnterGoes(s, Release(s, false), th, Idle, 0);
      case ActivateBegun => EnterGoes(s, Acquire(s, true), th, ActivateCounted, 0);
      case ActivateCounted => EnterGoes(s, Release(s, false), th, Idle, 0);
      case DropPending => EnterGoes(s, Release(s, false), th, Idle, 0);
      case RestrictBegun => EnterGoes(s, Acquire(s, true), th, RestrictCounted, 0);
      case RestrictCounted => EnterGoes(s, Release(s, true), th, Idle, 0);
      case _ =>
    }
  }

  lemma StepGoes(s: State, th: Thread, a: Action)
    requires s.made && !At(s, th).InsertPending? && !a.Insert? && !a.KernelRelease?
    ensures (Step(s, th, a) == s && Departs(s, th, a) == 0) || Goes(s, Step(s, th, a), th, Departs(s, th, a))
  {
    hide RunCallback, Goes, Enter;
    match a {
      case Callback => CallbackGoes(s, th);
      case Enqueue => if At(s, th).Carrying? { EnterGoes(s, s.(queued := s.queued + 1), th, Idle, 0); }
      case Restore => if At(s, th).Carrying? { EnterGoes(s, s.(tables := s.tables + 1), th, RestoreBegun, 0); }
      case Activate => if At(s, th).Carrying? { EnterGoes(s, s.(tables := s.tables + 1), th, ActivateBegun, 0); }
      case Drop => if At(s, th).Carrying? { EnterGoes(s, s, th, DropPending, 1); }
      case Close => if At(s, th).Idle? && s.tables > 0 { EnterGoes(s, s.(tables := s.tables - 1), th, ClosePending, 1); }
      case Take => if At(s, th).Idle? && s.tables > 0 { EnterGoes(s, s.(tables := s.tables - 1), th, Taken, 0); }
      case Restrict => if At(s, th).Idle? && s.tables > 0 { EnterGoes(s, s, th, RestrictBegun, 0); }
      case Receive =>
        if At(s, th).Idle? && s.queued > 0 { EnterGoes(s, s.(queued := s.queued - 1, tables := s.tables + 1), th, ActivateBegun, 0); }
      case Discard => if At(s, th).Idle? && s.queued > 0 { EnterGoes(s, s.(queued := s.queued - 1), th, DropPending, 1); }
      case _ =>
    }
  }

  lemma GoesLive(s: State, u: State, th: Thread, gone: nat)
    requires Goes(s, u, th, gone)
    ensures Live(u) + gone == Live(s) && MapSum(u.threads, Unpaid) == MapSum(s.threads, Unpaid)
    ensures forall t | t != th :: At(u, t) == At(s, t)
  {
    EnterSums(s, th, At(u, th));
  }

  lemma OnlyOneWaits(s: State, th: Thread, other: Thread)
    requires Waiting(s, th) && other != th
    ensures !At(s, other).InsertPending?
  {
    SumSplit(s.threads, Unpaid, th);
    if other in s.threads { SumSplit(s.threads - {th}, Unpaid, other); }
  }

  lemma WindowStep(s: State, th: Thread, e: Event)
    requires Waiting(s, th) && e.thread != th && !e.action.Insert?
    ensures Waiting(Step(s, e.thread, e.action), th)
    ensures Live(Step(s, e.thread, e.action)) + Departs(s, e.thread, e.action) == Live(s)
  {
    hide MapSum, Goes, RunCallback;
    OnlyOneWaits(s, th, e.thread);
    StepBalances(s, e.thread, e.action);
    RevokedAtZero(s, e.thread, e.action);
    if !e.action.KernelRelease? {
      StepGoes(s, e.thread, e.action);
      if Goes(s, Step(s, e.thread, e.action), e.thread, Departs(s, e.thread, e.action)) {
        GoesLive(s, Step(s, e.thread, e.action), e.thread, Departs(s, e.thread, e.action));
      }
    }
  }

  lemma {:induction false} WindowRun(s: State, th: Thread, es: seq<Event>)
    requires Waiting(s, th) && Window(th, es)
    ensures Waiting(Run(s, es), th) && Live(Run(s, es)) + Departures(s, es) == Live(s)
    decreases |es|
  {
    hide Waiting;
    if es != [] {
      assert es[0] in es;
      WindowStep(s, th, es[0]);
      WindowRun(Step(s, es[0].thread, es[0].action), th, es[1..]);
    }
  }

  lemma {:induction false} FewerDepart(s: State, es: seq<Event>, k: nat)
    requires k <= |es|
    ensures Departures(s, es[..k]) <= Departures(s, es)
    decreases |es|
  {
    if k > 0 {
      assert es[..k][0] == es[0] && es[..k][1..] == es[1..][..k - 1];
      FewerDepart(Step(s, es[0].thread, es[0].action), es[1..], k - 1);
    }
  }

  /** Only `th` is in the middle of something. */
  predicate OthersAtRest(s: State, th: Thread) {
    forall t | t in s.threads && t != th :: s.threads[t] == Idle
  }

  lemma QuietWindow(s: State, th: Thread)
    requires Waiting(s, th) && OthersAtRest(s, th)
    ensures s.owners + 1 == Live(s)
  {
    var rest := s.threads - {th};
    SumSplit(s.threads, Extra, th);
    SumSplit(s.threads, Carried, th);
    RestingSum(rest, Extra);
  }

  /** The count of a held object reads zero at step k of the window. */
  ghost predicate ReadsZero(w: State, es: seq<Event>, k: nat)
    requires k <= |es|
  {
    var s := Run(w, es[..k]);
    s.owners == 0 && Live(s) > 0
  }

  /** A fork inserts its copy before counting it.  While that count is outstanding, and the object is still held at the
      end of the window, some step reads a zero count exactly when every holder there was before the fork has gone
      within the window. */
  lemma ForkWindowExact(before: seq<Event>, th: Thread, es: seq<Event>)
    requires var s := Run(Fresh(true), before); AtRest(s) && s.tables > 0 && Window(th, es)
    requires var w := Step(Run(Fresh(true), before), th, Insert); OthersAtRest(Run(w, es), th) && Live(Run(w, es)) > 0
    ensures var s := Run(Fresh(true), before); var w := Step(s, th, Insert);
      (exists k | 0 <= k <= |es| :: ReadsZero(w, es, k)) <==> Departures(w, es) == s.tables + s.queued + s.kernel
  {
    var s := Run(Fresh(true), before);
    var w := Step(s, th, Insert);
    RunBalances(Fresh(true), before);
    StaysCopyable(Fresh(true), before);
    ForkBegins(s, th);
    WindowRun(w, th, es);
    QuietWindow(Run(w, es), th);
    var n := s.tables + s.queued + s.kernel;
    if Departures(w, es) == n {
      assert es[..|es|] == es;
      assert ReadsZero(w, es, |es|);
    } else {
      forall k: nat | k <= |es| ensures !ReadsZero(w, es, k) {
        FewerDepart(w, es, k);
        forall e | e in es[..k] ensures e in es {}
        WindowRun(w, th, es[..k]);
      }
    }
  }

  lemma ForkBegins(s: State, th: Thread)
    requires Balanced(s) && AtRest(s) && s.copyable && s.tables > 0
    ensures var w := Step(s, th, Insert); Waiting(w, th) && Live(w) == s.tables + s.queued + s.kernel + 1
  {
    AtRestBalance(s);
    StepBalances(s, th, Insert);
    EnterSums(s, th, InsertPending);
  }

  lemma {:induction false} StaysCopyable(s: State, es: seq<Event>)
    ensures Run(s, es).copyable == s.copyable
    decreases |es|
  {
    if es != [] {
      RevokedAtZero(s, es[0].thread, es[0].action);
      StaysCopyable(Step(s, es[0].thread, es[0].action), es[1..]);
    }
  }

  lemma {:induction false} RunConcat(s: State, a: seq<Event>, b: seq<Event>)
    ensures Run(s, a + b) == Run(Run(s, a), b)
    decreases |a|
  {
    if a == [] {
      assert a + b == b;
    } else {
      assert (a + b)[1..] == a[1..] + b;
      RunConcat(Step(s, a[0].thread, a[0].action), a[1..], b);
    }
  }

  const MAKE := [Event(0, Create), Event(0, Activate), Event(0, Callback), Event(0, Callback)]
  const RACE := [Event(0, Insert), Event(1, Close), Event(1, Callback)]

  lemma {:induction false} MadeOnce()
    ensures Run(Fresh(true), MAKE) == State(true, true, 1, 0, 0, 1, 1, map[0 := Idle], false)
  {
    var s1 := Step(Fresh(true), 0, Create);
    var s2 := Step(s1, 0, Activate);
    var s3 := Step(s2, 0, Callback);
    var s4 := Step(s3, 0, Callback);
    assert MAKE[1..][1..][1..] == [MAKE[3]] && MAKE[1..][1..] == [MAKE[2], MAKE[3]];
    assert Run(s3, [MAKE[3]]) == Run(s4, []);
    assert Run(s2, [MAKE[2], MAKE[3]]) == Run(s3, [MAKE[3]]);
    assert Run(s1, MAKE[1..]) == Run(s2, MAKE[1..][1..]);
    assert s4.threads == map[0 := Idle];
  }

  lemma {:induction false} Raced(s: State)
    requires s == State(true, true, 1, 0, 0, 1, 1, map[0 := Idle], false)
    ensures var u := Run(s, RACE); u.tables == 1 && u.owners == 0 && u.revoked
  {
    var s5 := Step(s, 0, Insert);
    var s6 := Step(s5, 1, Close);
    var s7 := Step(s6, 1, Callback);
    assert RACE[1..] == [RACE[1], RACE[2]] && RACE[1..][1..] == [RACE[2]];
    assert Run(s6, [RACE[2]]) == Run(s7, []);
    assert Run(s5, RACE[1..]) == Run(s6, [RACE[2]]);
  }

  /** A terminal's driver control, made and delivered, then forked: another thread closes the parent's entry before
      the child's is counted, and the terminal is hung up while the child holds its control. */
  lemma ForkMayHangUp()
    ensures exists es :: var s := Run(Fresh(true), es); s.tables == 1 && s.owners == 0 && s.revoked
  {
    MadeOnce();
    Raced(Run(Fresh(true), MAKE));
    RunConcat(Fresh(true), MAKE, RACE);
    var s := Run(Fresh(true), MAKE + RACE);
    assert s.tables == 1 && s.owners == 0 && s.revoked;
  }

  // -------------------------------------------------------------------- handing on

  /** The state after a thread's next actions. */
  function After(s: State, th: Thread, actions: seq<Action>): State
    decreases |actions|
  {
    if actions == [] then s else After(Step(s, th, actions[0]), th, actions[1..])
  }

  lemma {:induction false} AfterConcat(s: State, th: Thread, a: seq<Action>, b: seq<Action>)
    ensures After(s, th, a + b) == After(After(s, th, a), th, b)
    decreases |a|
  {
    if a == [] {
      assert a + b == b;
    } else {
      assert (a + b)[1..] == a[1..] + b;
      AfterConcat(Step(s, th, a[0]), th, a[1..], b);
    }
  }

  /** A thread that holds nothing takes an entry out and, once its callbacks have run, carries the object, which has one
      owner more in transit and one root less. */
  lemma TakeCarries(s: State, th: Thread)
    requires At(s, th).Idle? && s.tables > 0
    ensures var u := After(s, th, [Take, Callback, Callback]);
      && At(u, th).Carrying? && u.tables == s.tables - 1 && u.queued == s.queued && u.kernel == s.kernel
      && u.owners == s.owners && u.roots == s.roots - 1
  {
    hide After;
    Three(s, th, Take);
  }

  /** What it carries can be queued, */
  lemma CarriedIsQueued(s: State, th: Thread)
    requires At(s, th).Carrying?
    ensures var q := After(s, th, [Enqueue]);
      At(q, th).Idle? && q.queued == s.queued + 1 && q.tables == s.tables && q.owners == s.owners && q.roots == s.roots
  {
    assert [Enqueue][1..] == [];
  }

  /** The two callbacks of an entry just filled. */
  lemma FilledIsCounted(s: State, th: Thread)
    requires At(s, th).RestoreBegun? || At(s, th).ActivateBegun?
    ensures var u := Step(Step(s, th, Callback), th, Callback);
      At(u, th).Idle? && u.tables == s.tables && u.queued == s.queued && u.owners == s.owners && u.roots == s.roots + 1
  {
    var a := RunCallback(s, th);
    assert At(a, th).RestoreCounted? || At(a, th).ActivateCounted?;
    assert a.owners == s.owners + 1 && a.roots == s.roots + 1 && a.tables == s.tables && a.queued == s.queued;
  }

  /** put back or delivered, */
  lemma CarriedIsInstalled(s: State, th: Thread, a: Action)
    requires At(s, th).Carrying? && (a == Restore || a == Activate)
    ensures var r := After(s, th, [a, Callback, Callback]);
      At(r, th).Idle? && r.tables == s.tables + 1 && r.queued == s.queued && r.owners == s.owners && r.roots == s.roots + 1
  {
    hide After, RunCallback;
    Three(s, th, a);
    FilledIsCounted(Step(s, th, a), th);
  }

  /** or dropped: each ends where it says, with exact counts. */
  lemma CarriedIsDropped(s: State, th: Thread)
    requires At(s, th).Carrying?
    ensures var d := After(s, th, [Drop, Callback]); At(d, th).Idle? && d.tables == s.tables && d.queued == s.queued && d.owners == s.owners - 1
  {
    hide After;
    Two(s, th, Drop);
  }

  lemma Two(s: State, th: Thread, a: Action)
    ensures After(s, th, [a, Callback]) == Step(Step(s, th, a), th, Callback)
  {
    hide Step;
    assert [a, Callback][1..] == [Callback] && [Callback][1..] == [];
    assert After(Step(s, th, a), th, [Callback]) == Step(Step(s, th, a), th, Callback);
  }

  lemma Three(s: State, th: Thread, a: Action)
    ensures After(s, th, [a, Callback, Callback]) == Step(Step(Step(s, th, a), th, Callback), th, Callback)
  {
    hide Step;
    var b, c := Step(s, th, a), Step(Step(s, th, a), th, Callback);
    assert [a, Callback, Callback][1..] == [Callback, Callback];
    assert [Callback, Callback][1..] == [Callback] && [Callback][1..] == [];
    assert After(c, th, [Callback]) == Step(c, th, Callback);
    assert After(b, th, [Callback, Callback]) == After(c, th, [Callback]);
  }

  lemma DroppedIsCounted(s: State, th: Thread)
    requires At(s, th).DropPending?
    ensures var u := Step(s, th, Callback); At(u, th).Idle? && u.tables == s.tables && u.queued == s.queued && u.owners == s.owners - 1
  {
  }

  /** A queued object can be received or discarded by a thread that holds nothing. */
  lemma QueuedGoesOn(s: State, th: Thread)
    requires At(s, th).Idle? && s.queued > 0
    ensures var r := After(s, th, [Receive, Callback, Callback]);
      At(r, th).Idle? && r.tables == s.tables + 1 && r.queued == s.queued - 1 && r.owners == s.owners && r.roots == s.roots + 1
    ensures var d := After(s, th, [Discard, Callback]); At(d, th).Idle? && d.tables == s.tables && d.queued == s.queued - 1 && d.owners == s.owners - 1
  {
    Three(s, th, Receive);
    Two(s, th, Discard);
    hide After;
    DroppedIsCounted(Step(s, th, Discard), th);
    hide RunCallback;
    FilledIsCounted(Step(s, th, Receive), th);
  }

  /** Sending and receiving an object gives back every count. */
  lemma TransferRoundTrip(s: State, th: Thread)
    requires At(s, th).Idle? && s.tables > 0
    ensures var u := After(s, th, [Take, Callback, Callback] + ([Enqueue] + [Receive, Callback, Callback]));
      At(u, th).Idle? && u.tables == s.tables && u.queued == s.queued && u.owners == s.owners && u.roots == s.roots
  {
    hide After, Step;
    TakeCarries(s, th);
    var c := After(s, th, [Take, Callback, Callback]);
    CarriedIsQueued(c, th);
    QueuedGoesOn(After(c, th, [Enqueue]), th);
    AfterConcat(s, th, [Take, Callback, Callback], [Enqueue] + [Receive, Callback, Callback]);
    AfterConcat(c, th, [Enqueue], [Receive, Callback, Callback]);
  }
}
