/** Every run of operations on one table, with any number of transfers in progress at once. */
module TableRuns {
  import opened CapabilityTable
  import opened CapabilityLaws
  import opened Bags

  /** `pending` are the batches taken and not yet finished; `gone` their detached handles; `lost` counts
      the detached entries of batches that were dropped; `issued` are the handles given out, in order. */
  datatype State = State(table: Table, pending: map<nat, seq<Record>>, clock: nat, gone: set<Handle>, lost: nat,
                         issued: seq<Handle>)

  datatype Op =
    | DoInstall(obj: Object, meta: Metadata)
    | DoClose(h: Handle)
    | DoDuplicate(h: Handle, rights: Bits)
    | DoPrepareRestrict(h: Handle, restriction: Restriction)
    | DoCommitRestrict(h: Handle, n: Handle)
    | DoRollbackRestrict(h: Handle, n: Handle)
    | DoReserve(size: nat)
    | DoActivate(h: Handle, resource: Resource)
    | DoRollback(hs: seq<Handle>)
    | DoTake(ds: seq<Disposition>, target: Handle)
    | DoRestore(batch: nat)
    | DoCommit(batch: nat)
    | DoDrop(batch: nat)

  function Given(h: Handle): seq<Handle> {
    if h == NO_HANDLE then [] else [h]
  }

  function Begin(s: State, t: Table, rs: seq<Record>): State {
    State(t, s.pending[s.clock := rs], s.clock + 1, s.gone + MovedSources(rs), s.lost, s.issued)
  }

  function Finish(s: State, t: Table, batch: nat, lost: nat): State
    requires batch in s.pending
  {
    State(t, s.pending - {batch}, s.clock, s.gone - MovedSources(s.pending[batch]), lost, s.issued)
  }

  function Step(s: State, op: Op): State {
    match op
    case DoInstall(o, m) => var (h, t) := Install(s.table, o, m); s.(table := t, issued := s.issued + Given(h))
    case DoClose(h) => s.(table := Close(s.table, h).1)
    case DoDuplicate(h, rights) => var (_, n, t) := Duplicate(s.table, h, rights); s.(table := t, issued := s.issued + Given(n))
    case DoPrepareRestrict(h, r) => var (_, n, t) := PrepareRestrict(s.table, h, r); s.(table := t, issued := s.issued + Given(n))
    case DoCommitRestrict(h, n) => s.(table := CommitRestrict(s.table, h, n).1)
    case DoRollbackRestrict(h, n) => s.(table := RollbackRestrict(s.table, h, n).1)
    case DoReserve(n) => var (_, hs, t) := Reserve(s.table, n); s.(table := t, issued := s.issued + hs)
    case DoActivate(h, r) => s.(table := Activate(s.table, h, r).1)
    case DoRollback(hs) => s.(table := Rollback(s.table, hs))
    case DoTake(ds, target) =>
      var (status, rs, t) := Take(s.table, ds, target);
      if status != OK then s else Begin(s, t, rs)
    case DoRestore(b) => if b !in s.pending then s else Finish(s, Restore(s.table, s.pending[b]).1, b, s.lost)
    case DoCommit(b) => if b !in s.pending then s else Finish(s, Commit(s.table, s.pending[b]), b, s.lost)
    case DoDrop(b) => if b !in s.pending then s else Finish(s, s.table, b, s.lost + |MovedSources(s.pending[b])|)
  }

  function Run(s: State, ops: seq<Op>): State
    decreases |ops|
  {
    if ops == [] then s else Run(Step(s, ops[0]), ops[1..])
  }

  const START := State(EMPTY, map[], 0, {}, 0, [])

  // ----------------------------------------------------------------- the invariant

  predicate Increasing(hs: seq<Handle>) {
    forall i, j | 0 <= i < j < |hs| :: hs[i] < hs[j]
  }

  predicate Owns(pending: map<nat, seq<Record>>, b: nat, h: Handle) {
    b in pending && h in MovedSources(pending[b])
  }

  ghost predicate Batches(pending: map<nat, seq<Record>>, clock: nat, gone: set<Handle>) {
    && (forall b | b in pending :: b < clock && Outstanding(gone, pending[b]))
    && (forall b, c, h | Owns(pending, b, h) && Owns(pending, c, h) :: b == c)
    && (forall h | h in gone :: exists b :: Owns(pending, b, h))
  }

  predicate AllIssued(t: Table, hs: seq<Handle>) {
    forall h | h in hs :: Issued(t, h)
  }

  ghost predicate Inv(s: State) {
    && Valid(s.table, s.gone, s.lost)
    && Batches(s.pending, s.clock, s.gone)
    && Increasing(s.issued) && AllIssued(s.table, s.issued)
  }

  /** The table moved on: handles once issued stay issued, and `given` are new. */
  ghost predicate Advances(t: Table, u: Table, given: seq<Handle>) {
    && (forall h | Issued(t, h) :: Issued(u, h))
    && Increasing(given)
    && (forall h | h in given :: Issued(u, h) && !Issued(t, h) && 0 < h < HANDLE_SPACE)
  }

  lemma IssuedGrows(t: Table, u: Table, issued: seq<Handle>, given: seq<Handle>)
    requires Increasing(issued) && AllIssued(t, issued) && Advances(t, u, given)
    ensures Increasing(issued + given) && AllIssued(u, issued + given)
  {
    var all := issued + given;
    forall i, j | 0 <= i < j < |all| ensures all[i] < all[j] {
      if i < |issued| <= j {
        assert all[i] in issued && all[j] in given;
      }
    }
  }

  lemma TableStep(s: State, u: Table, given: seq<Handle>)
    requires Inv(s) && Valid(u, s.gone, s.lost) && Advances(s.table, u, given)
    ensures Inv(s.(table := u, issued := s.issued + given))
  {
    IssuedGrows(s.table, u, s.issued, given);
  }

  lemma QuietStep(s: State, u: Table)
    requires Inv(s) && Valid(u, s.gone, s.lost) && u.next == s.table.next
    ensures Inv(s.(table := u))
  {
    TableStep(s, u, []);
    assert s.issued + [] == s.issued;
  }

  lemma FreshHandle(t: Table, gone: set<Handle>, lost: nat)
    requires Valid(t, gone, lost) && CanAllocate(t)
    ensures forall u: Table | u.next == (t.next + 1) % HANDLE_SPACE :: Advances(t, u, [t.next])
    ensures t.next !in t.entries
  {
    assert t.next in t.entries ==> WellFormed(t, t.next, t.entries[t.next]);
  }

  // ------------------------------------------------------------- one lemma per family

  /** Results of the calls that may give out one handle. */
  ghost predicate Gives(t: Table, u: Table, h: Handle) {
    if h == NO_HANDLE then u.next == t.next
    else CanAllocate(t) && h == t.next && u.next == (t.next + 1) % HANDLE_SPACE
  }

  lemma GivenStep(s: State, u: Table, h: Handle)
    requires Inv(s) && Valid(u, s.gone, s.lost) && Gives(s.table, u, h)
    ensures Inv(s.(table := u, issued := s.issued + Given(h)))
  {
    hide Valid, Inv;
    InvParts(s);
    if h == NO_HANDLE {
      QuietStep(s, u);
      assert s.issued + [] == s.issued;
    } else {
      FreshHandle(s.table, s.gone, s.lost);
      TableStep(s, u, [h]);
    }
  }

  lemma GiveStep(s: State, op: Op)
    requires Inv(s) && (op.DoInstall? || op.DoDuplicate? || op.DoPrepareRestrict?)
    ensures Inv(Step(s, op))
  {
    hide Valid, Inv;
    InvParts(s);
    var t := s.table;
    match op {
      case DoInstall(o, m) =>
        InstallValid(t, s.gone, s.lost, o, m);
        GivenStep(s, Install(t, o, m).1, Install(t, o, m).0);
      case DoDuplicate(c, rights) =>
        DuplicateValid(t, s.gone, s.lost, c, rights);
        GivenStep(s, Duplicate(t, c, rights).2, Duplicate(t, c, rights).1);
      case DoPrepareRestrict(c, r) =>
        PrepareRestrictValid(t, s.gone, s.lost, c, r);
        GivenStep(s, PrepareRestrict(t, c, r).2, PrepareRestrict(t, c, r).1);
      case _ =>
    }
  }

  lemma InvParts(s: State)
    requires Inv(s)
    ensures Valid(s.table, s.gone, s.lost) && Batches(s.pending, s.clock, s.gone)
  {
  }

  lemma ReserveStep(s: State, n: nat)
    requires Inv(s)
    ensures Inv(Step(s, DoReserve(n)))
  {
    var t := s.table;
    var (status, hs, u) := Reserve(t, n);
    ReserveIsAtomic(t, s.gone, s.lost, n);
    forall h | Issued(t, h) ensures Issued(u, h) { ReserveKeepsIssued(t, s.gone, s.lost, n, h); }
    if status == OK {
      forall h | h in hs ensures Issued(u, h) {
        ReserveOntoHas(t.entries, t.next, n, h);
        assert WellFormed(u, h, u.entries[h]);
      }
    }
    TableStep(s, u, hs);
  }

  lemma LocalStep(s: State, op: Op)
    requires Inv(s) && (op.DoClose? || op.DoActivate? || op.DoRollback?)
    ensures Inv(Step(s, op))
  {
    hide Valid, Inv, Rollback, Close, Activate;
    InvParts(s);
    var t := s.table;
    match op {
      case DoClose(h) => CloseValid(t, s.gone, s.lost, h); QuietStep(s, Close(t, h).1);
      case DoActivate(h, r) => ActivateValid(t, s.gone, s.lost, h, r); QuietStep(s, Activate(t, h, r).1);
      case DoRollback(hs) => RollbackValid(t, s.gone, s.lost, hs); QuietStep(s, Rollback(t, hs));
      case _ =>
    }
  }

  lemma RestrictStep(s: State, op: Op)
    requires Inv(s) && (op.DoCommitRestrict? || op.DoRollbackRestrict?)
    ensures Inv(Step(s, op))
  {
    hide Valid, Inv, CommitRestrict, RollbackRestrict;
    InvParts(s);
    var t := s.table;
    match op {
      case DoCommitRestrict(h, n) => CommitRestrictValid(t, s.gone, s.lost, h, n); QuietStep(s, CommitRestrict(t, h, n).1);
      case DoRollbackRestrict(h, n) =>
        RollbackRestrictValid(t, s.gone, s.lost, h, n);
        QuietStep(s, RollbackRestrict(t, h, n).1);
      case _ =>
    }
  }

  lemma BatchAdded(pending: map<nat, seq<Record>>, clock: nat, gone: set<Handle>, rs: seq<Record>)
    requires Batches(pending, clock, gone) && Outstanding(gone + MovedSources(rs), rs) && gone !! MovedSources(rs)
    ensures Batches(pending[clock := rs], clock + 1, gone + MovedSources(rs))
  {
    var p := pending[clock := rs];
    forall b, c, h | Owns(p, b, h) && Owns(p, c, h) ensures b == c {
      if b != clock { assert Owns(pending, b, h) && h in gone; }
      if c != clock { assert Owns(pending, c, h) && h in gone; }
    }
    forall h | h in gone + MovedSources(rs) ensures exists b :: Owns(p, b, h) {
      if h in gone {
        var b :| Owns(pending, b, h);
        assert Owns(p, b, h);
      } else {
        assert Owns(p, clock, h);
      }
    }
    assert clock !in pending;
  }

  lemma BatchRemoved(pending: map<nat, seq<Record>>, clock: nat, gone: set<Handle>, batch: nat)
    requires Batches(pending, clock, gone) && batch in pending
    ensures Batches(pending - {batch}, clock, gone - MovedSources(pending[batch]))
  {
    var p, g := pending - {batch}, gone - MovedSources(pending[batch]);
    forall b | b in p ensures Outstanding(g, p[b]) {
      assert Outstanding(gone, pending[b]);
      forall h | h in MovedSources(p[b]) ensures h in g {
        assert Owns(pending, b, h);
        assert h in MovedSources(pending[batch]) ==> Owns(pending, batch, h);
      }
    }
    forall b, c, h | Owns(p, b, h) && Owns(p, c, h) ensures b == c {
      assert Owns(pending, b, h) && Owns(pending, c, h);
    }
    forall h | h in g ensures exists b :: Owns(p, b, h) {
      var b :| Owns(pending, b, h);
      assert Owns(p, b, h);
    }
  }

  lemma BeginStep(s: State, t: Table, rs: seq<Record>)
    requires Inv(s) && t.next == s.table.next && s.gone !! MovedSources(rs)
    requires Valid(t, s.gone + MovedSources(rs), s.lost) && Outstanding(s.gone + MovedSources(rs), rs)
    ensures Inv(Begin(s, t, rs))
  {
    hide Valid, Batches, Outstanding;
    BatchAdded(s.pending, s.clock, s.gone, rs);
  }

  lemma TakeKeepsNext(t: Table, ds: seq<Disposition>, target: Handle)
    ensures Take(t, ds, target).2.next == t.next
  {
  }

  lemma TakeStep(s: State, ds: seq<Disposition>, target: Handle)
    requires Inv(s)
    ensures Inv(Step(s, DoTake(ds, target)))
  {
    hide Valid, Batches, Outstanding, Take, Inv, Begin, MovedSources;
    InvParts(s);
    var (status, rs, t) := Take(s.table, ds, target);
    if status == OK {
      TakeKeepsNext(s.table, ds, target);
      TakeValid(s.table, s.gone, s.lost, ds, target);
      TakeOutstanding(s.table, s.gone, s.lost, ds, target);
      BeginStep(s, t, rs);
    }
  }

  lemma FinishStep(s: State, t: Table, batch: nat, lost: nat)
    requires Inv(s) && batch in s.pending && t.next == s.table.next
    requires Valid(t, s.gone - MovedSources(s.pending[batch]), lost)
    ensures Inv(Finish(s, t, batch, lost))
  {
    hide Valid, Batches;
    BatchRemoved(s.pending, s.clock, s.gone, batch);
  }

  lemma DropValid(t: Table, gone: set<Handle>, lost: nat, rs: seq<Record>)
    requires Valid(t, gone, lost) && Outstanding(gone, rs)
    ensures Valid(t, gone - MovedSources(rs), lost + |MovedSources(rs)|)
  {
    Difference(gone, MovedSources(rs));
  }

  lemma BatchStep(s: State, op: Op)
    requires Inv(s) && (op.DoRestore? || op.DoCommit? || op.DoDrop?)
    ensures Inv(Step(s, op))
    ensures op.DoRestore? && op.batch in s.pending ==> Restore(s.table, s.pending[op.batch]).0 == OK
  {
    hide Valid, Outstanding, Restore, Commit;
    var b := op.batch;
    if b in s.pending {
      var rs := s.pending[b];
      assert Outstanding(s.gone, rs);
      match op {
        case DoRestore(_) =>
          RestoreSucceeds(s.table, s.gone, s.lost, rs);
          FinishStep(s, Restore(s.table, rs).1, b, s.lost);
        case DoCommit(_) =>
          CommitValid(s.table, s.gone, s.lost, rs);
          FinishStep(s, Commit(s.table, rs), b, s.lost);
        case DoDrop(_) =>
          DropValid(s.table, s.gone, s.lost, rs);
          FinishStep(s, s.table, b, s.lost + |MovedSources(rs)|);
      }
    }
  }

  lemma StepKeeps(s: State, op: Op)
    requires Inv(s)
    ensures Inv(Step(s, op))
  {
    hide Inv, Step;
    match op {
      case DoInstall(_, _) => GiveStep(s, op);
      case DoDuplicate(_, _) => GiveStep(s, op);
      case DoPrepareRestrict(_, _) => GiveStep(s, op);
      case DoCommitRestrict(_, _) => RestrictStep(s, op);
      case DoRollbackRestrict(_, _) => RestrictStep(s, op);
      case DoReserve(n) => ReserveStep(s, n);
      case DoTake(ds, target) => TakeStep(s, ds, target);
      case DoRestore(_) => BatchStep(s, op);
      case DoCommit(_) => BatchStep(s, op);
      case DoDrop(_) => BatchStep(s, op);
      case _ => LocalStep(s, op);
    }
  }

  lemma {:induction false} RunKeeps(s: State, ops: seq<Op>)
    requires Inv(s)
    ensures Inv(Run(s, ops))
    decreases |ops|
  {
    hide Inv, Step;
    if ops != [] {
      StepKeeps(s, ops[0]);
      RunKeeps(Step(s, ops[0]), ops[1..]);
    }
  }

  predicate NeverDrops(ops: seq<Op>) {
    forall op | op in ops :: !op.DoDrop?
  }

  lemma {:induction false} NothingLost(s: State, ops: seq<Op>)
    requires NeverDrops(ops)
    ensures Run(s, ops).lost == s.lost
    decreases |ops|
  {
    if ops != [] {
      assert ops[0] in ops;
      assert Step(s, ops[0]).lost == s.lost;
      NothingLost(Step(s, ops[0]), ops[1..]);
    }
  }

  /** Over every run: the count is the mapped entries plus the detached ones plus those of dropped
      batches, it never passes 4096, and no handle is ever given out twice. */
  lemma CountIsExact(ops: seq<Op>)
    ensures var s := Run(START, ops);
      && s.table.count == |s.table.entries| + |s.gone| + s.lost && s.table.count <= MAX_ENTRIES
      && (NeverDrops(ops) ==> s.table.count == |s.table.entries| + |s.gone|)
      && (forall i, j | 0 <= i < j < |s.issued| :: s.issued[i] != s.issued[j])
  {
    assert Inv(START);
    RunKeeps(START, ops);
    if NeverDrops(ops) { NothingLost(START, ops); }
  }

  /** In every reachable state every unfinished batch can still be restored. */
  lemma AlwaysRestorable(ops: seq<Op>, batch: nat)
    requires batch in Run(START, ops).pending
    ensures var s := Run(START, ops);
      && Restore(s.table, s.pending[batch]).0 == OK
      && forall r | r in s.pending[batch] && Moved(r) ::
           var u := Restore(s.table, s.pending[batch]).1; r.source in u.entries && u.entries[r.source] == Origin(r)
  {
    assert Inv(START);
    RunKeeps(START, ops);
    var s := Run(START, ops);
    assert Outstanding(s.gone, s.pending[batch]);
    RestoreSucceeds(s.table, s.gone, s.lost, s.pending[batch]);
  }

  /** The operation drops a batch that had moved something. */
  predicate Leaks(s: State, op: Op) {
    op.DoDrop? && op.batch in s.pending && MovedSources(s.pending[op.batch]) != {}
  }

  lemma LostGrows(s: State, op: Op)
    ensures Step(s, op).lost >= s.lost && (Step(s, op).lost == s.lost <==> !Leaks(s, op))
  {
  }

  lemma {:induction false} RunTo(s: State, ops: seq<Op>, k: nat)
    requires k < |ops|
    ensures Run(s, ops[..k + 1]) == Step(Run(s, ops[..k]), ops[k])
    decreases k
  {
    hide Step;
    if k == 0 {
      assert ops[..1][1..] == [] && ops[..0] == [];
    } else {
      assert ops[..k + 1][1..] == ops[1..][..k] && ops[..k][1..] == ops[1..][..k - 1];
      RunTo(Step(s, ops[0]), ops[1..], k - 1);
    }
  }

  /** Nothing is lost by the first n operations exactly when none of them leaks. */
  lemma {:induction false} LostUpTo(ops: seq<Op>, n: nat)
    requires n <= |ops|
    ensures Run(START, ops[..n]).lost == 0 <==> forall k | 0 <= k < n :: !Leaks(Run(START, ops[..k]), ops[k])
    decreases n
  {
    hide Step, Leaks;
    if n > 0 {
      LostUpTo(ops, n - 1);
      RunTo(START, ops, n - 1);
      LostGrows(Run(START, ops[..n - 1]), ops[n - 1]);
    }
  }

  /** The count is exactly the mapped and detached entries if and only if no operation of the run dropped a batch that
      had moved something. */
  lemma ExactUnlessDropped(ops: seq<Op>)
    ensures var s := Run(START, ops);
      s.table.count == |s.table.entries| + |s.gone| <==> forall k | 0 <= k < |ops| :: !Leaks(Run(START, ops[..k]), ops[k])
  {
    CountIsExact(ops);
    LostUpTo(ops, |ops|);
    assert ops[..|ops|] == ops;
  }
}
