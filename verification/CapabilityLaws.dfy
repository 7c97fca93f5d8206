/** What every operation on a capability table keeps, and what one operation undoes of another. */
module CapabilityLaws {
  import opened Options
  import opened CapabilityTable
  import opened Bags

  // ------------------------------------------------------------------ invariants

  lemma InsertValid(t: Table, gone: set<Handle>, lost: nat, e: Entry)
    requires Valid(t, gone, lost) && CanAllocate(t)
    requires e.generation == t.next && (e.state == Reserved <==> e.obj.None?)
    ensures Valid(Insert(t, e), gone, lost)
    ensures t.next !in t.entries && t.next !in gone
    ensures forall h | Issued(t, h) :: Issued(Insert(t, e), h) && h != t.next
  {
  }

  lemma RemoveValid(t: Table, gone: set<Handle>, lost: nat, h: Handle)
    requires Valid(t, gone, lost) && h in t.entries
    ensures t.count > 0 && Valid(t.(entries := t.entries - {h}, count := t.count - 1), gone, lost)
  {
    Without(t.entries, {h});
    var u := t.(entries := t.entries - {h}, count := t.count - 1);
    forall k | k in u.entries ensures WellFormed(u, k, u.entries[k]) {
      assert WellFormed(t, k, t.entries[k]);
    }
    forall k | k in gone ensures Issued(u, k) { assert Issued(t, k); }
  }

  lemma CloseValid(t: Table, gone: set<Handle>, lost: nat, h: Handle)
    requires Valid(t, gone, lost)
    ensures Valid(Close(t, h).1, gone, lost) && Close(t, h).1.next == t.next
  {
    if h in t.entries { RemoveValid(t, gone, lost, h); }
  }

  lemma InstallValid(t: Table, gone: set<Handle>, lost: nat, o: Object, m: Metadata)
    requires Valid(t, gone, lost)
    ensures Valid(Install(t, o, m).1, gone, lost)
  {
    if CanAllocate(t) { InsertValid(t, gone, lost, Entry(Some(o), t.next, Active, m)); }
  }

  lemma DuplicateValid(t: Table, gone: set<Handle>, lost: nat, h: Handle, rights: Bits)
    requires Valid(t, gone, lost)
    ensures Valid(Duplicate(t, h, rights).2, gone, lost)
  {
  }

  lemma PrepareRestrictValid(t: Table, gone: set<Handle>, lost: nat, h: Handle, r: Restriction)
    requires Valid(t, gone, lost)
    ensures Valid(PrepareRestrict(t, h, r).2, gone, lost)
  {
    var (status, n, u) := PrepareRestrict(t, h, r);
    if status == OK {
      var pending := Entry(None, t.next, Reserved, Restricted(t.entries[h].meta, r));
      InsertValid(t, gone, lost, pending);
      assert u.entries.Keys == Insert(t, pending).entries.Keys;
    }
  }

  lemma CommitRestrictValid(t: Table, gone: set<Handle>, lost: nat, h: Handle, n: Handle)
    requires Valid(t, gone, lost)
    ensures Valid(CommitRestrict(t, h, n).1, gone, lost) && CommitRestrict(t, h, n).1.next == t.next
  {
    var u := CommitRestrict(t, h, n).1;
    if CommitRestrict(t, h, n).0 == OK {
      Without(t.entries, {h});
      assert u.entries.Keys == (t.entries - {h}).Keys;
    }
  }

  lemma RollbackRestrictValid(t: Table, gone: set<Handle>, lost: nat, h: Handle, n: Handle)
    requires Valid(t, gone, lost)
    ensures Valid(RollbackRestrict(t, h, n).1, gone, lost) && RollbackRestrict(t, h, n).1.next == t.next
  {
    var u := RollbackRestrict(t, h, n).1;
    if RollbackRestrict(t, h, n).0 == OK {
      Without(t.entries, {n});
      assert u.entries.Keys == (t.entries - {n}).Keys;
    }
  }

  lemma ActivateValid(t: Table, gone: set<Handle>, lost: nat, h: Handle, r: Resource)
    requires Valid(t, gone, lost)
    ensures Valid(Activate(t, h, r).1, gone, lost) && Activate(t, h, r).1.next == t.next
  {
    var u := Activate(t, h, r).1;
    assert u.entries.Keys == t.entries.Keys;
  }

  lemma {:induction false} RollbackValid(t: Table, gone: set<Handle>, lost: nat, hs: seq<Handle>)
    requires Valid(t, gone, lost)
    ensures Valid(Rollback(t, hs), gone, lost) && Rollback(t, hs).next == t.next
    decreases |hs|
  {
    hide Valid;
    if hs != [] {
      if hs[0] in t.entries && t.entries[hs[0]].state == Reserved {
        RemoveValid(t, gone, lost, hs[0]);
        RollbackValid(t.(entries := t.entries - {hs[0]}, count := t.count - 1), gone, lost, hs[1..]);
      } else {
        RollbackValid(t, gone, lost, hs[1..]);
      }
    }
  }

  lemma InheritedIs(parent: Table, gone: set<Handle>, lost: nat)
    requires Valid(parent, gone, lost)
    ensures Inherited(parent).Keys <= parent.entries.Keys && |Inherited(parent)| <= MAX_ENTRIES
    ensures forall h | h in Inherited(parent) :: Inherited(parent)[h] == parent.entries[h] && WellFormed(parent, h, parent.entries[h])
  {
    var m := Inherited(parent);
    forall h | h in m ensures m[h] == parent.entries[h] { assert WellFormed(parent, h, parent.entries[h]); }
    Difference(parent.entries.Keys, m.Keys);
  }

  /** A fork always succeeds into a fresh table, gives the child a valid table of its own, and never
      copies a raw channel endpoint. */
  lemma ForkIsSafe(parent: Table, gone: set<Handle>, lost: nat)
    requires Valid(parent, gone, lost) && RawIsRaw(parent.entries)
    ensures CloneFork(EMPTY, parent).0 == OK && Valid(CloneFork(EMPTY, parent).1, {}, 0)
    ensures CloneFork(EMPTY, parent).1.entries == Inherited(parent)
    ensures forall h | h in Inherited(parent) :: Inherited(parent)[h] == parent.entries[h] && !parent.entries[h].obj.value.RawEndpoint?
  {
    InheritedIs(parent, gone, lost);
    ValidNext(parent, gone, lost);
    var m := Inherited(parent);
    forall h | h in m ensures Inheritable(parent.entries[h]) {}
    hide Inherited, Inheritable;
    var u := CloneFork(EMPTY, parent).1;
    assert u.entries == m;
    forall h | h in m ensures !parent.entries[h].obj.value.RawEndpoint? { InheritableIsBound(parent.entries[h]); }
    forall h | h in u.entries ensures WellFormed(u, h, u.entries[h]) { assert WellFormed(parent, h, parent.entries[h]); }
  }

  /** What a child inherits, entry by entry: active kernel views and client ends that may be duplicated, and
      the client ends of terminals in any case; each under its old handle and unchanged. */
  lemma ForkInheritsExactly(parent: Table, gone: set<Handle>, lost: nat, h: Handle)
    requires Valid(parent, gone, lost)
    ensures var (status, child) := CloneFork(EMPTY, parent);
      && status == OK && child.next == parent.next && child.count == |child.entries|
      && (h in child.entries <==>
            && h in parent.entries && parent.entries[h].state == Active && parent.entries[h].obj.Some?
            && var m := parent.entries[h].meta;
            || (m.binding == BINDING_VIEW && RIGHT_DUPLICATE in m.metaRights)
            || (m.binding == BINDING_CLIENT && RIGHT_DUPLICATE in m.metaRights)
            || (m.binding == BINDING_CLIENT && m.scope == SCOPE_TERMINAL_MASTER)
            || (m.binding == BINDING_CLIENT && m.scope == SCOPE_TERMINAL_SLAVE))
      && (h in child.entries ==> child.entries[h] == parent.entries[h])
  {
    InheritedIs(parent, gone, lost);
    var m := Inherited(parent);
    assert EMPTY.entries + m == m;
  }

  lemma InheritableIsBound(e: Entry)
    requires Inheritable(e)
    ensures e.obj.Some? && e.meta.binding != BINDING_RAW
  {
  }

  /** Raw endpoints are always bound as raw endpoints. */
  predicate RawIsRaw(entries: map<Handle, Entry>) {
    forall h | h in entries && entries[h].obj.Some? && entries[h].obj.value.RawEndpoint? :: entries[h].meta.binding == BINDING_RAW
  }

  /** A duplicate is refused without effect, or adds one entry for the same object with exactly the
      requested rights; it succeeds exactly for a sharable object held with the duplicate right. */
  lemma DuplicateIsExact(t: Table, gone: set<Handle>, lost: nat, h: Handle, rights: Bits)
    requires Valid(t, gone, lost)
    ensures var (status, n, u) := Duplicate(t, h, rights);
      && (status == OK <==>
            && h in t.entries && t.entries[h].state == Active && t.entries[h].obj.value.Sharable?
            && {RIGHT_DUPLICATE} + rights <= t.entries[h].meta.metaRights
            && t.count < MAX_ENTRIES && t.next != NO_HANDLE)
      && (status != OK ==> u == t && n == NO_HANDLE)
      && (status == OK ==>
            && !Issued(t, n) && u.entries.Keys == t.entries.Keys + {n} && u.entries - {n} == t.entries
            && u.entries[n].obj == t.entries[h].obj && u.entries[n].state == Active
            && u.entries[n].meta == t.entries[h].meta.(metaRights := if rights == {} then t.entries[h].meta.metaRights else rights))
  {
    assert h in t.entries ==> WellFormed(t, h, t.entries[h]);
    assert t.next in t.entries ==> WellFormed(t, t.next, t.entries[t.next]);
    hide Valid, Duplicate;
    DuplicateVerdict(t, h, rights);
    DuplicateShape(t, h, rights);
  }

  lemma DuplicateVerdict(t: Table, h: Handle, rights: Bits)
    requires h in t.entries && t.entries[h].state == Active ==> t.entries[h].obj.Some?
    ensures Duplicate(t, h, rights).0 == OK <==>
      && h in t.entries && t.entries[h].state == Active && t.entries[h].obj.value.Sharable?
      && {RIGHT_DUPLICATE} + rights <= t.entries[h].meta.metaRights
      && t.count < MAX_ENTRIES && t.next != NO_HANDLE
  {
    hide Insert;
  }

  lemma DuplicateShape(t: Table, h: Handle, rights: Bits)
    requires t.next !in t.entries
    ensures var (status, n, u) := Duplicate(t, h, rights);
      && (status != OK ==> u == t && n == NO_HANDLE)
      && (status == OK ==>
            && n == t.next && h in t.entries && u.entries.Keys == t.entries.Keys + {n} && u.entries - {n} == t.entries
            && u.entries[n].obj == t.entries[h].obj && u.entries[n].state == Active
            && u.entries[n].meta == t.entries[h].meta.(metaRights := if rights == {} then t.entries[h].meta.metaRights else rights))
  {
    var (status, n, u) := Duplicate(t, h, rights);
    if status == OK { assert u.entries - {n} == t.entries; }
  }

  // -------------------------------------------------------------------- restrict

  lemma RestrictShape(t: Table, h: Handle, r: Restriction, written: bool)
    requires t.next !in t.entries && (h in t.entries && t.entries[h].state == Active ==> t.entries[h].obj.Some? && h != NO_HANDLE)
    ensures var (status, n, u) := Restrict(t, h, r, written);
      && u.count == t.count
      && (status != OK ==> u.entries == t.entries)
      && (status == OK ==>
            h in t.entries && n == t.next && CanAllocate(t)
            && MayRestrict(t.entries[h].meta, r)
            && u.entries == (t.entries - {h})[n := t.entries[h].(generation := n, meta := Restricted(t.entries[h].meta, r))])
  {
    hide MayRestrict, Restricted;
    var (status, n, u) := PrepareRestrict(t, h, r);
    if status == OK {
      var e := t.entries[h];
      assert RollbackRestrict(u, h, n).1.entries == t.entries;
      assert CommitRestrict(u, h, n).1.entries
          == (t.entries - {h})[n := e.(generation := n, meta := Restricted(e.meta, r))];
    }
  }

  /** A restriction asks for the value of a field or leaves it alone. */
  predicate Asked<T(==)>(o: Option<T>, was: T, now: T) {
    now == if o.Some? then o.value else was
  }

  /** When a restrict succeeds, and what the weakened capability may do. */
  lemma RestrictIsExact(t: Table, gone: set<Handle>, lost: nat, h: Handle, r: Restriction, written: bool)
    requires Valid(t, gone, lost)
    ensures var (status, n, u) := Restrict(t, h, r, written);
      && (status == OK <==>
            && written && r.known && h in t.entries && t.entries[h].state == Active
            && MayRestrict(t.entries[h].meta, r) && t.count < MAX_ENTRIES && t.next != NO_HANDLE)
      && (status == OK ==>
            && n in u.entries && h !in u.entries && u.entries[n].obj == t.entries[h].obj
            && var was, now := t.entries[h].meta, u.entries[n].meta;
            && Asked(r.metaRights, was.metaRights, now.metaRights) && Asked(r.protocolRights, was.protocolRights, now.protocolRights)
            && Asked(r.features, was.features, now.features) && Asked(r.revision, was.revision, now.revision)
            && now.scope == was.scope && now.binding == was.binding && now.protocol == was.protocol)
  {
    assert t.next in t.entries ==> WellFormed(t, t.next, t.entries[t.next]);
    assert h in t.entries ==> WellFormed(t, h, t.entries[h]);
    RestrictShape(t, h, r, written);
    RestrictVerdict(t, h, r, written);
  }

  /** A restriction is allowed exactly if what it asks for is no stronger than what is there, a scope or
      revision asked for being non-zero. */
  lemma MayRestrictExactly(m: Metadata, r: Restriction)
    ensures MayRestrict(m, r) <==>
      && Weaker(Restricted(m, r), m)
      && (r.scope.Some? ==> r.scope.value != 0) && (r.revision.Some? ==> r.revision.value != 0)
  {
  }

  /** So one that asks for the values an entry has is always granted when there is room. */
  lemma OwnValuesAreGranted(t: Table, gone: set<Handle>, lost: nat, h: Handle)
    requires Valid(t, gone, lost) && Lookup(t, h).Some? && t.count < MAX_ENTRIES && t.next != NO_HANDLE
    requires t.entries[h].meta.scope != 0 && t.entries[h].meta.revision != 0
    ensures var m := t.entries[h].meta;
      var r := Restriction(true, Some(m.scope), Some(m.revision), Some(m.features), Some(m.metaRights), Some(m.protocolRights));
      Restrict(t, h, r, true).0 == OK
  {
    var m := t.entries[h].meta;
    RestrictIsExact(t, gone, lost, h,
                    Restriction(true, Some(m.scope), Some(m.revision), Some(m.features), Some(m.metaRights), Some(m.protocolRights)), true);
  }

  lemma RestrictVerdict(t: Table, h: Handle, r: Restriction, written: bool)
    requires t.next !in t.entries && (h in t.entries && t.entries[h].state == Active ==> t.entries[h].obj.Some? && h != NO_HANDLE)
    ensures Restrict(t, h, r, written).0 == OK <==>
      && written && r.known && h in t.entries && t.entries[h].state == Active
      && MayRestrict(t.entries[h].meta, r) && t.count < MAX_ENTRIES && t.next != NO_HANDLE
  {
    hide MayRestrict, Restricted;
  }

  lemma RestrictValid(t: Table, gone: set<Handle>, lost: nat, h: Handle, r: Restriction, written: bool)
    requires Valid(t, gone, lost)
    ensures Valid(Restrict(t, h, r, written).2, gone, lost)
  {
    hide Valid, CommitRestrict, RollbackRestrict, PrepareRestrict;
    PrepareRestrictValid(t, gone, lost, h, r);
    var (status, n, u) := PrepareRestrict(t, h, r);
    CommitRestrictValid(u, gone, lost, h, n);
    RollbackRestrictValid(u, gone, lost, h, n);
  }

  /** A restrict that fails after its first phase leaves everything but the handle counter as it was;
      one that succeeds replaces the source by a weaker capability to the same object. */
  lemma RestrictIsAtomic(t: Table, gone: set<Handle>, lost: nat, h: Handle, r: Restriction, written: bool)
    requires Valid(t, gone, lost)
    ensures var (status, n, u) := Restrict(t, h, r, written);
      && Valid(u, gone, lost)
      && u.count == t.count
      && (status != OK ==> u.entries == t.entries)
      && (status == OK ==>
            h in t.entries && !Issued(t, n) && Weaker(Restricted(t.entries[h].meta, r), t.entries[h].meta)
            && u.entries == (t.entries - {h})[n := t.entries[h].(generation := n, meta := Restricted(t.entries[h].meta, r))])
  {
    assert t.next in t.entries ==> WellFormed(t, t.next, t.entries[t.next]);
    assert h in t.entries ==> WellFormed(t, h, t.entries[h]);
    RestrictValid(t, gone, lost, h, r, written);
    RestrictShape(t, h, r, written);
  }

  // ----------------------------------------------------------- reserve and activate

  function ReserveOnto(base: map<Handle, Entry>, first: Handle, n: nat): map<Handle, Entry>
    decreases n
  {
    if n == 0 then base else ReserveOnto(base[first := Entry(None, first, Reserved, BLANK)], first + 1, n - 1)
  }

  /** The entries after the handles from `first` on have received a batch. */
  function FillOnto(base: map<Handle, Entry>, first: Handle, rs: seq<Resource>): map<Handle, Entry>
    decreases |rs|
  {
    if rs == [] then base
    else FillOnto(base[first := Entry(Some(rs[0].obj), first, Active, rs[0].meta)], first + 1, rs[1..])
  }

  function Consecutive(first: Handle, n: nat): (hs: seq<Handle>)
    ensures |hs| == n && forall i | 0 <= i < n :: hs[i] == first + i
    decreases n
  {
    if n == 0 then [] else [first] + Consecutive(first + 1, n - 1)
  }

  lemma {:induction false} ReserveEachShape(t: Table, gone: set<Handle>, lost: nat, n: nat)
    requires Valid(t, gone, lost)
    ensures ReserveEach(t, n).Some? <==> n == 0 || (t.next != NO_HANDLE && t.count + n <= MAX_ENTRIES && t.next + n <= HANDLE_SPACE)
    ensures ReserveEach(t, n).Some? ==>
      var (hs, u) := ReserveEach(t, n).value;
      && Valid(u, gone, lost) && hs == Consecutive(t.next, n)
      && u.entries == ReserveOnto(t.entries, t.next, n) && u.count == t.count + n
    decreases n
  {
    hide Valid;
    ValidNext(t, gone, lost);
    if n > 0 && CanAllocate(t) {
      var e := Entry(None, t.next, Reserved, BLANK);
      var u := Insert(t, e);
      InsertValid(t, gone, lost, e);
      assert u.next == if t.next + 1 == HANDLE_SPACE then 0 else t.next + 1;
      ReserveEachShape(u, gone, lost, n - 1);
      assert n == 1 ==> ReserveEach(u, 0) == Some(([], u));
    }
  }

  lemma ValidNext(t: Table, gone: set<Handle>, lost: nat)
    requires Valid(t, gone, lost)
    ensures t.next < HANDLE_SPACE && t.count <= MAX_ENTRIES
  {
  }

  /** A reservation either gives n fresh consecutive handles or changes only the handle counter. */
  lemma ReserveIsAtomic(t: Table, gone: set<Handle>, lost: nat, n: nat)
    requires Valid(t, gone, lost)
    ensures var (status, hs, u) := Reserve(t, n);
      && Valid(u, gone, lost)
      && (status == OK ==> hs == Consecutive(t.next, n) && u.entries == ReserveOnto(t.entries, t.next, n)
                           && u.count == t.count + n && forall h | h in hs :: !Issued(t, h) && h !in t.entries)
      && (status != OK ==> status == RESOURCE_EXHAUSTED && hs == [] && u.entries == t.entries && u.count == t.count)
  {
    ReserveEachShape(t, gone, lost, n);
    NextAfterKeeps(t, gone, lost, n);
    var (status, hs, u) := Reserve(t, n);
    if status == OK {
      forall h | h in hs ensures !Issued(t, h) && h !in t.entries {
        assert h in t.entries ==> WellFormed(t, h, t.entries[h]);
      }
    }
  }

  lemma {:induction false} NextAfterIssued(t: Table, gone: set<Handle>, lost: nat, n: nat, h: Handle)
    requires Valid(t, gone, lost) && Issued(t, h)
    ensures Issued(t.(next := NextAfter(t, n)), h)
    decreases n
  {
    if n > 0 && CanAllocate(t) {
      var e := Entry(None, t.next, Reserved, BLANK);
      InsertValid(t, gone, lost, e);
      NextAfterIssued(Insert(t, e), gone, lost, n - 1, h);
    }
  }

  lemma {:induction false} NextAfterBound(t: Table, gone: set<Handle>, lost: nat, n: nat)
    requires Valid(t, gone, lost)
    ensures NextAfter(t, n) < HANDLE_SPACE
    decreases n
  {
    if n > 0 && CanAllocate(t) {
      var e := Entry(None, t.next, Reserved, BLANK);
      InsertValid(t, gone, lost, e);
      NextAfterBound(Insert(t, e), gone, lost, n - 1);
    }
  }

  function Least(a: nat, b: nat): nat {
    if a < b then a else b
  }

  /** The handle counter after its last value is "no handle". */
  function Wrapped(h: nat): Handle {
    if h == HANDLE_SPACE then NO_HANDLE else h
  }

  lemma FreshCount(t: Table, gone: set<Handle>, lost: nat)
    requires Valid(t, gone, lost)
    ensures t.next < HANDLE_SPACE && t.count <= MAX_ENTRIES
  {
  }

  lemma InsertCounts(t: Table, e: Entry)
    requires CanAllocate(t) && t.next < HANDLE_SPACE
    ensures Insert(t, e).count == t.count + 1 && Insert(t, e).next == if t.next + 1 == HANDLE_SPACE then NO_HANDLE else t.next + 1
  {
  }

  lemma NoneBurnt(next: nat, count: nat, n: nat)
    requires next < HANDLE_SPACE && count <= MAX_ENTRIES && (n == 0 || count == MAX_ENTRIES)
    ensures Wrapped(next + Least(n, Least(MAX_ENTRIES - count, HANDLE_SPACE - next))) == next
  {
  }

  lemma OneBurnt(next: nat, count: nat, n: nat)
    requires 0 < next < HANDLE_SPACE && count < MAX_ENTRIES && n > 0
    ensures Wrapped(next + Least(n, Least(MAX_ENTRIES - count, HANDLE_SPACE - next))) ==
      if next + 1 == HANDLE_SPACE then NO_HANDLE
      else Wrapped(next + 1 + Least(n - 1, Least(MAX_ENTRIES - (count + 1), HANDLE_SPACE - (next + 1))))
  {
  }

  lemma {:induction false} NextAfterIs(t: Table, gone: set<Handle>, lost: nat, n: nat)
    requires Valid(t, gone, lost)
    ensures NextAfter(t, n) ==
      if t.next == NO_HANDLE then NO_HANDLE else Wrapped(t.next + Least(n, Least(MAX_ENTRIES - t.count, HANDLE_SPACE - t.next)))
    decreases n
  {
    hide Valid, Insert, Least, Wrapped;
    FreshCount(t, gone, lost);
    if n > 0 && CanAllocate(t) {
      var e := Entry(None, t.next, Reserved, BLANK);
      InsertValid(t, gone, lost, e);
      InsertCounts(t, e);
      OneBurnt(t.next, t.count, n);
      NextAfterIs(Insert(t, e), gone, lost, n - 1);
    } else if t.next != NO_HANDLE {
      NoneBurnt(t.next, t.count, n);
    }
  }

  /** A reservation that fails half-way has used up as many handles as there was room for. */
  lemma FailedReserveBurns(t: Table, gone: set<Handle>, lost: nat, n: nat)
    requires Valid(t, gone, lost) && t.next != NO_HANDLE && n <= MAX_ENTRIES && Reserve(t, n).0 != OK
    ensures Reserve(t, n).2 == t.(next := Wrapped(t.next + Least(MAX_ENTRIES - t.count, HANDLE_SPACE - t.next)))
  {
    NextAfterIs(t, gone, lost, n);
    ReserveEachShape(t, gone, lost, n);
    hide Valid, ReserveEach, NextAfter;
  }

  lemma NextAfterKeeps(t: Table, gone: set<Handle>, lost: nat, n: nat)
    requires Valid(t, gone, lost)
    ensures Valid(t.(next := NextAfter(t, n)), gone, lost)
  {
    var u := t.(next := NextAfter(t, n));
    NextAfterBound(t, gone, lost, n);
    forall h | Issued(t, h) ensures Issued(u, h) { NextAfterIssued(t, gone, lost, n, h); }
    forall h | h in u.entries ensures WellFormed(u, h, u.entries[h]) {
      assert WellFormed(t, h, t.entries[h]);
    }
  }

  lemma ReserveKeepsIssued(t: Table, gone: set<Handle>, lost: nat, n: nat, h: Handle)
    requires Valid(t, gone, lost) && Issued(t, h)
    ensures Issued(Reserve(t, n).2, h)
  {
    NextAfterIssued(t, gone, lost, n, h);
    NextIsNext(t, n);
  }

  lemma {:induction false} NextIsNext(t: Table, n: nat)
    ensures ReserveEach(t, n).Some? ==> ReserveEach(t, n).value.1.next == NextAfter(t, n)
    decreases n
  {
    if n > 0 && CanAllocate(t) { NextIsNext(Insert(t, Entry(None, t.next, Reserved, BLANK)), n - 1); }
  }

  lemma {:induction false} ReserveOntoUpdate(b: map<Handle, Entry>, first: Handle, n: nat, h: Handle, e: Entry)
    requires h < first
    ensures ReserveOnto(b[h := e], first, n) == ReserveOnto(b, first, n)[h := e]
    decreases n
  {
    if n > 0 {
      var r := Entry(None, first, Reserved, BLANK);
      ReserveOntoUpdate(b[first := r], first + 1, n - 1, h, e);
      assert b[h := e][first := r] == b[first := r][h := e];
    }
  }

  lemma {:induction false} ReserveOntoMinus(b: map<Handle, Entry>, first: Handle, n: nat, h: Handle)
    requires h < first
    ensures ReserveOnto(b - {h}, first, n) == ReserveOnto(b, first, n) - {h}
    decreases n
  {
    if n > 0 {
      var r := Entry(None, first, Reserved, BLANK);
      ReserveOntoMinus(b[first := r], first + 1, n - 1, h);
      assert (b - {h})[first := r] == b[first := r] - {h};
    }
  }

  lemma {:induction false} ReserveOntoAt(b: map<Handle, Entry>, first: Handle, n: nat, h: Handle)
    requires h < first
    ensures h in ReserveOnto(b, first, n) <==> h in b
    ensures h in b ==> ReserveOnto(b, first, n)[h] == b[h]
    decreases n
  {
    if n > 0 { ReserveOntoAt(b[first := Entry(None, first, Reserved, BLANK)], first + 1, n - 1, h); }
  }

  /** Activating the handles of a reservation never fails and installs exactly the batch. */
  lemma {:induction false} ActivateFills(t: Table, base: map<Handle, Entry>, first: Handle, rs: seq<Resource>)
    requires first > 0 && t.entries == ReserveOnto(base, first, |rs|)
    ensures ActivateAll(t, Consecutive(first, |rs|), rs) == t.(entries := FillOnto(base, first, rs))
    ensures rs != [] ==> Activate(t, first, rs[0]).0 == OK
    decreases |rs|
  {
    if rs != [] {
      var r := Entry(None, first, Reserved, BLANK);
      var e := Entry(Some(rs[0].obj), first, Active, rs[0].meta);
      var n := |rs| - 1;
      ReserveOntoAt(base[first := r], first + 1, n, first);
      ReserveOntoUpdate(base[first := r], first + 1, n, first, e);
      assert base[first := r][first := e] == base[first := e];
      ActivateFills(t.(entries := t.entries[first := e]), base[first := e], first + 1, rs[1..]);
      assert Consecutive(first, |rs|)[1..] == Consecutive(first + 1, n);
    }
  }

  lemma {:induction false} FillOntoKeys(b: map<Handle, Entry>, first: Handle, rs: seq<Resource>)
    ensures FillOnto(b, first, rs).Keys == ReserveOnto(b, first, |rs|).Keys
    decreases |rs|
  {
    if rs != [] {
      var r := Entry(None, first, Reserved, BLANK);
      var e := Entry(Some(rs[0].obj), first, Active, rs[0].meta);
      FillOntoKeys(b[first := e], first + 1, rs[1..]);
      ReserveOntoUpdate(b[first := r], first + 1, |rs| - 1, first, e);
      ReserveOntoAt(b[first := r], first + 1, |rs| - 1, first);
      assert b[first := r][first := e] == b[first := e];
    }
  }

  lemma {:induction false} FillOntoFormed(t: Table, b: map<Handle, Entry>, first: Handle, rs: seq<Resource>)
    requires forall h | h in b :: WellFormed(t, h, b[h])
    requires forall h | first <= h < first + |rs| :: Issued(t, h)
    ensures forall h | h in FillOnto(b, first, rs) :: WellFormed(t, h, FillOnto(b, first, rs)[h])
    decreases |rs|
  {
    if rs != [] {
      FillOntoFormed(t, b[first := Entry(Some(rs[0].obj), first, Active, rs[0].meta)], first + 1, rs[1..]);
    }
  }

  /** The table after a batch was received. */
  function Filled(t: Table, rs: seq<Resource>): Table {
    Reserve(t, |rs|).2.(entries := FillOnto(t.entries, t.next, rs))
  }

  lemma FilledValid(t: Table, gone: set<Handle>, lost: nat, rs: seq<Resource>)
    requires Valid(t, gone, lost) && Reserve(t, |rs|).0 == OK
    ensures Valid(Filled(t, rs), gone, lost)
  {
    ReserveIsAtomic(t, gone, lost, |rs|);
    var (_, hs, u) := Reserve(t, |rs|);
    var w := Filled(t, rs);
    FillOntoKeys(t.entries, t.next, rs);
    assert |w.entries.Keys| == |u.entries.Keys|;
    forall h | t.next <= h < t.next + |rs| ensures Issued(u, h) {
      ReserveOntoHas(t.entries, t.next, |rs|, h);
      assert WellFormed(u, h, u.entries[h]);
    }
    forall h | h in t.entries ensures WellFormed(u, h, t.entries[h]) {
      assert WellFormed(t, h, t.entries[h]);
      ReserveOntoAt2(t.entries, t.next, |rs|, h);
      assert WellFormed(u, h, u.entries[h]);
    }
    FillOntoFormed(u, t.entries, t.next, rs);
    forall h | h in w.entries ensures WellFormed(w, h, w.entries[h]) {
      assert WellFormed(u, h, w.entries[h]);
    }
  }

  lemma {:induction false} ReserveOntoHas(b: map<Handle, Entry>, first: Handle, n: nat, h: Handle)
    requires first <= h < first + n
    ensures h in ReserveOnto(b, first, n)
    decreases n
  {
    var r := Entry(None, first, Reserved, BLANK);
    if h == first { ReserveOntoAt(b[first := r], first + 1, n - 1, first); }
    else { ReserveOntoHas(b[first := r], first + 1, n - 1, h); }
  }

  lemma {:induction false} ReserveOntoAt2(b: map<Handle, Entry>, first: Handle, n: nat, h: Handle)
    requires h in b
    ensures h in ReserveOnto(b, first, n)
    decreases n
  {
    if n > 0 { ReserveOntoAt2(b[first := Entry(None, first, Reserved, BLANK)], first + 1, n - 1, h); }
  }

  /** Undoing a reservation gives the table back, apart from the handle counter. */
  lemma ReserveRollback(t: Table, gone: set<Handle>, lost: nat, n: nat)
    requires Valid(t, gone, lost) && Reserve(t, n).0 == OK
    ensures var (_, hs, u) := Reserve(t, n); Rollback(u, hs) == t.(next := u.next)
  {
    ReserveIsAtomic(t, gone, lost, n);
    var (_, hs, u) := Reserve(t, n);
    forall h | t.next <= h < t.next + n ensures h !in t.entries {
      assert hs[h - t.next] == h;
    }
    RollbackClears(u, t.entries, t.next, n);
  }

  lemma {:induction false} RollbackClears(t: Table, base: map<Handle, Entry>, first: Handle, n: nat)
    requires t.entries == ReserveOnto(base, first, n) && t.count >= n
    requires forall h | first <= h < first + n :: h !in base
    ensures Rollback(t, Consecutive(first, n)) == t.(entries := base, count := t.count - n)
    decreases n
  {
    if n > 0 {
      var r := Entry(None, first, Reserved, BLANK);
      ReserveOntoAt(base[first := r], first + 1, n - 1, first);
      ReserveOntoMinus(base[first := r], first + 1, n - 1, first);
      assert base[first := r] - {first} == base;
      assert Consecutive(first, n)[1..] == Consecutive(first + 1, n - 1);
      RollbackClears(t.(entries := t.entries - {first}, count := t.count - 1), base, first + 1, n - 1);
    }
  }

  // ------------------------------------------------------------------ take, restore

  predicate DistinctSources(rs: seq<Record>) {
    forall i, j | 0 <= i < j < |rs| :: rs[i].source != rs[j].source
  }

  lemma AcceptableMeans(t: Table, ds: seq<Disposition>, target: Handle)
    requires Acceptable(t, ds, target)
    ensures forall i | 0 <= i < |ds| :: Check(t, ds, i, target) == OK
    ensures forall i, j | 0 <= i < j < |ds| :: ds[i].handle != ds[j].handle
  {
    forall i | 0 <= i < |ds| ensures Check(t, ds, i, target) == OK {
      ErrorsAbsent(t, ds, target, 0, i);
    }
    forall i, j | 0 <= i < j < |ds| ensures ds[i].handle != ds[j].handle {
      ErrorsAbsent(t, ds, target, 0, j);
    }
  }

  lemma {:induction false} NoErrorIs(t: Table, ds: seq<Disposition>, target: Handle, from: nat)
    requires from <= |ds|
    requires forall k | from <= k < |ds| :: Check(t, ds, k, target) == OK
    ensures FirstError(t, ds, target, from) == OK
    decreases |ds| - from
  {
    if from < |ds| { NoErrorIs(t, ds, target, from + 1); }
  }

  /** What a disposition must meet, whatever else is in its batch. */
  predicate Sendable(t: Table, d: Disposition, target: Handle) {
    && d.handle != NO_HANDLE && d.handle != target && d.flags == 0 && (d.operation == MOVE || d.operation == DUPLICATE)
    && d.handle in t.entries && t.entries[d.handle].state == Active && t.entries[d.handle].obj.Some?
    && {RIGHT_TRANSFER} + d.rights <= t.entries[d.handle].meta.metaRights
    && (d.scope == 0 || d.scope == t.entries[d.handle].meta.scope)
    && (d.operation == DUPLICATE ==> RIGHT_DUPLICATE in t.entries[d.handle].meta.metaRights && t.entries[d.handle].obj.value.Sharable?)
  }

  /** A batch is taken exactly when it is small enough, names no handle twice and each part can be sent. */
  lemma TakeSucceedsExactly(t: Table, ds: seq<Disposition>, target: Handle)
    ensures Take(t, ds, target).0 == OK <==>
      && |ds| <= MAX_TRANSFER
      && (forall i | 0 <= i < |ds| :: Sendable(t, ds[i], target))
      && (forall i, j | 0 <= i < j < |ds| :: ds[i].handle != ds[j].handle)
  {
    if Acceptable(t, ds, target) {
      AcceptableMeans(t, ds, target);
      forall i | 0 <= i < |ds| ensures Sendable(t, ds[i], target) { assert Check(t, ds, i, target) == OK; }
    }
    if |ds| <= MAX_TRANSFER && (forall i | 0 <= i < |ds| :: Sendable(t, ds[i], target))
       && (forall i, j | 0 <= i < j < |ds| :: ds[i].handle != ds[j].handle) {
      forall i | 0 <= i < |ds| ensures Check(t, ds, i, target) == OK { assert Sendable(t, ds[i], target); }
      NoErrorIs(t, ds, target, 0);
    }
    RefusedIsError(t, ds, target);
  }

  /** What is wrong with a refused disposition: the request itself, the handle, or else the authority behind it. */
  lemma CheckTells(t: Table, ds: seq<Disposition>, i: nat, target: Handle)
    requires i < |ds|
    ensures var d, status := ds[i], Check(t, ds, i, target);
      var proper := d.handle != NO_HANDLE && d.flags == 0 && d.handle != target && forall j | 0 <= j < i :: ds[j].handle != d.handle;
      var found := d.handle in t.entries && t.entries[d.handle].state == Active && t.entries[d.handle].obj.Some?;
      && (status == INVALID_HANDLE <==> proper && !found)
      && (status == INVALID_ARGUMENT <==> !proper || (found && d.operation != MOVE && d.operation != DUPLICATE))
      && (status == ACCESS_DENIED <==> proper && found && (d.operation == MOVE || d.operation == DUPLICATE) && !Sendable(t, d, target))
      && (status == OK <==> proper && Sendable(t, d, target))
  {
  }

  /** A refused batch is answered with what is wrong with its first part that is. */
  lemma TakeTells(t: Table, ds: seq<Disposition>, target: Handle)
    requires Take(t, ds, target).0 != OK
    ensures |ds| > MAX_TRANSFER ==> Take(t, ds, target).0 == INVALID_ARGUMENT
    ensures |ds| <= MAX_TRANSFER ==>
      exists i | 0 <= i < |ds| :: Take(t, ds, target).0 == Check(t, ds, i, target) && forall j | 0 <= j < i :: Check(t, ds, j, target) == OK
  {
    if |ds| <= MAX_TRANSFER {
      RefusedIsError(t, ds, target);
      var i := FirstRefused(t, ds, target, 0);
      assert Take(t, ds, target).0 == Check(t, ds, i, target);
    }
  }

  lemma {:induction false} FirstRefused(t: Table, ds: seq<Disposition>, target: Handle, from: nat) returns (i: nat)
    requires from <= |ds| && FirstError(t, ds, target, from) != OK
    ensures from <= i < |ds| && FirstError(t, ds, target, from) == Check(t, ds, i, target) != OK
    ensures forall j | from <= j < i :: Check(t, ds, j, target) == OK
    decreases |ds| - from
  {
    if Check(t, ds, from, target) != OK { i := from; } else { i := FirstRefused(t, ds, target, from + 1); }
  }

  lemma RefusedIsError(t: Table, ds: seq<Disposition>, target: Handle)
    ensures Take(t, ds, target).0 == OK <==> Acceptable(t, ds, target)
  {
  }

  /** What a successful take leaves and what it carries: the moved entries, whole, and weaker authority. */
  lemma TakeShape(t: Table, ds: seq<Disposition>, target: Handle)
    requires Take(t, ds, target).0 == OK
    ensures var (_, rs, u) := Take(t, ds, target);
      && |rs| == |ds| && DistinctSources(rs) && MovedSources(rs) == MovedHandles(ds) && MovedSources(rs) <= t.entries.Keys
      && u == t.(entries := t.entries - MovedSources(rs))
      && target !in MovedSources(rs)
      && (forall r | r in rs :: Faithful(t, r))
  {
    AcceptableMeans(t, ds, target);
    var (_, rs, u) := Take(t, ds, target);
    forall i | 0 <= i < |ds| ensures Carries(t, target, ds[i], rs[i]) { TakenRecord(t, ds, target, i); }
    hide Check, Acceptable, FirstError, Take;
    forall h ensures h in MovedSources(rs) <==> h in MovedHandles(ds) {
      if h in MovedHandles(ds) {
        var i :| 0 <= i < |ds| && ds[i].operation == MOVE && ds[i].handle == h;
        assert Carries(t, target, ds[i], rs[i]) && rs[i] in rs;
      }
      if h in MovedSources(rs) {
        var i :| 0 <= i < |rs| && Moved(rs[i]) && rs[i].source == h;
        assert Carries(t, target, ds[i], rs[i]) && ds[i] in ds;
      }
    }
    forall i, j | 0 <= i < j < |rs| ensures rs[i].source != rs[j].source {
      assert Carries(t, target, ds[i], rs[i]) && Carries(t, target, ds[j], rs[j]);
    }
    forall r | r in rs ensures Faithful(t, r) && r.source != target {
      var i :| 0 <= i < |rs| && rs[i] == r;
      assert Carries(t, target, ds[i], rs[i]);
    }
  }

  /** A record holds the whole entry it came from, and travels with no more authority. */
  predicate Faithful(t: Table, r: Record) {
    && r.source in t.entries && t.entries[r.source].obj == Some(r.resource.obj)
    && Weaker(r.resource.meta, t.entries[r.source].meta)
    && (if Moved(r) then Origin(r) == t.entries[r.source] else r.resource.obj.Sharable?)
  }

  /** The record of a disposition travels with exactly the requested meta rights, all of them when none are named. */
  predicate Carries(t: Table, target: Handle, d: Disposition, r: Record) {
    && r.source == d.handle && Moved(r) == (d.operation == MOVE) && r.source != target && Faithful(t, r)
    && r.resource.meta == t.entries[r.source].meta.(metaRights := if d.rights == {} then t.entries[r.source].meta.metaRights else d.rights)
  }

  lemma TakenRecord(t: Table, ds: seq<Disposition>, target: Handle, i: nat)
    requires Acceptable(t, ds, target) && i < |ds|
    ensures Carries(t, target, ds[i], Records(t, ds, target)[i])
  {
    ErrorsAbsent(t, ds, target, 0, i);
  }

  /** Authority order: every right, feature and revision of `a` was already in `b`. */
  predicate Weaker(a: Metadata, b: Metadata) {
    && a.metaRights <= b.metaRights && a.protocolRights <= b.protocolRights && a.features <= b.features
    && a.revision <= b.revision && a.scope == b.scope && a.binding == b.binding && a.protocol == b.protocol
  }

  lemma {:induction false} MovedCountIsSize(rs: seq<Record>)
    requires DistinctSources(rs)
    ensures MovedCount(rs) == |MovedSources(rs)|
  {
    if rs != [] {
      MovedCountIsSize(rs[1..]);
      MovedSplit(rs);
    }
  }

  lemma MovedSplit(rs: seq<Record>)
    requires rs != [] && DistinctSources(rs)
    ensures MovedSources(rs) == (if Moved(rs[0]) then {rs[0].source} else {}) + MovedSources(rs[1..])
    ensures rs[0].source !in MovedSources(rs[1..])
  {
    assert forall r | r in rs :: r == rs[0] || r in rs[1..];
  }

  lemma TakeValid(t: Table, gone: set<Handle>, lost: nat, ds: seq<Disposition>, target: Handle)
    requires Valid(t, gone, lost)
    ensures var (status, rs, u) := Take(t, ds, target);
      status == OK ==> Valid(u, gone + MovedSources(rs), lost) && gone !! MovedSources(rs)
  {
    var (status, rs, u) := Take(t, ds, target);
    if status == OK {
      TakeShape(t, ds, target);
      Without(t.entries, MovedSources(rs));
      assert u.entries.Keys == t.entries.Keys - MovedSources(rs);
      forall h | h in u.entries ensures WellFormed(u, h, u.entries[h]) {
        assert WellFormed(t, h, t.entries[h]);
      }
      forall h | h in MovedSources(rs) ensures Issued(u, h) {
        assert WellFormed(t, h, t.entries[h]);
      }
    }
  }

  lemma {:induction false} ReattachShape(t: Table, rs: seq<Record>)
    requires DistinctSources(rs)
    ensures Reattach(t, rs) == t.(entries := Reattach(t, rs).entries)
    ensures Reattach(t, rs).entries.Keys == t.entries.Keys + MovedSources(rs)
    ensures forall h | h in t.entries && h !in MovedSources(rs) :: Reattach(t, rs).entries[h] == t.entries[h]
    ensures forall r | r in rs && Moved(r) :: r.source in Reattach(t, rs).entries && Reattach(t, rs).entries[r.source] == Origin(r)
    decreases |rs|
  {
    if rs != [] {
      MovedSplit(rs);
      assert forall r | r in rs :: r == rs[0] || r in rs[1..];
      if Moved(rs[0]) {
        var u := t.(entries := t.entries[rs[0].source := Origin(rs[0])]);
        ReattachShape(u, rs[1..]);
        assert rs[0].source in u.entries;
      } else {
        ReattachShape(t, rs[1..]);
      }
    }
  }

  /** Records that still hold detached entries of a table. */
  ghost predicate Outstanding(gone: set<Handle>, rs: seq<Record>) {
    && DistinctSources(rs) && MovedSources(rs) <= gone
    && forall r | r in rs && Moved(r) :: r.slot.value.generation == r.source
  }

  /** However the table has changed meanwhile, an outstanding batch can be put back: it never
      fails, and every moved handle again names its original entry. */
  lemma RestoreSucceeds(t: Table, gone: set<Handle>, lost: nat, rs: seq<Record>)
    requires Valid(t, gone, lost) && Outstanding(gone, rs)
    ensures Restore(t, rs).0 == OK
    ensures Valid(Restore(t, rs).1, gone - MovedSources(rs), lost)
    ensures Restore(t, rs).1.count == t.count && Restore(t, rs).1.next == t.next
    ensures forall h | h in t.entries :: h in Restore(t, rs).1.entries && Restore(t, rs).1.entries[h] == t.entries[h]
    ensures forall r | r in rs && Moved(r) :: r.source in Restore(t, rs).1.entries && Restore(t, rs).1.entries[r.source] == Origin(r)
  {
    forall r | r in rs && Moved(r) ensures r.source != NO_HANDLE && r.source !in t.entries {
      assert r.source in MovedSources(rs);
      assert Issued(t, r.source);
    }
    ReattachShape(t, rs);
    var u := Reattach(t, rs);
    var s := MovedSources(rs);
    Difference(gone, s);
    assert u.entries.Keys == t.entries.Keys + s && t.entries.Keys !! s;
    forall h | h in u.entries ensures WellFormed(u, h, u.entries[h]) {
      if h in s {
        var r :| r in rs && Moved(r) && r.source == h;
        assert Issued(t, h);
      } else {
        assert WellFormed(t, h, t.entries[h]);
      }
    }
  }

  lemma ReattachUndoes(t: Table, rs: seq<Record>)
    requires DistinctSources(rs) && MovedSources(rs) <= t.entries.Keys
    requires forall r | r in rs :: Faithful(t, r)
    ensures Reattach(t.(entries := t.entries - MovedSources(rs)), rs) == t
  {
    var u := t.(entries := t.entries - MovedSources(rs));
    ReattachShape(u, rs);
    var w := Reattach(u, rs);
    hide Reattach;
    forall h | h in t.entries ensures w.entries[h] == t.entries[h] {
      if h in MovedSources(rs) {
        var r :| r in rs && Moved(r) && r.source == h;
        assert Faithful(t, r);
      }
    }
    assert w.entries == t.entries;
  }

  /** Take then restore is the identity: the same table, with the unreduced authority. */
  lemma TakeRestore(t: Table, gone: set<Handle>, lost: nat, ds: seq<Disposition>, target: Handle)
    requires Valid(t, gone, lost) && Take(t, ds, target).0 == OK
    ensures Restore(Take(t, ds, target).2, Take(t, ds, target).1) == (OK, t)
  {
    hide Take, Valid, Outstanding, Reattach, Faithful, CanRestore;
    var (_, rs, u) := Take(t, ds, target);
    TakeShape(t, ds, target);
    TakeValid(t, gone, lost, ds, target);
    TakeOutstanding(t, gone, lost, ds, target);
    RestoreSucceeds(u, gone + MovedSources(rs), lost, rs);
    ReattachUndoes(t, rs);
  }

  lemma TakeOutstanding(t: Table, gone: set<Handle>, lost: nat, ds: seq<Disposition>, target: Handle)
    requires Valid(t, gone, lost) && Take(t, ds, target).0 == OK
    ensures Outstanding(gone + MovedSources(Take(t, ds, target).1), Take(t, ds, target).1)
  {
    TakeShape(t, ds, target);
    var rs := Take(t, ds, target).1;
    forall r | r in rs && Moved(r) ensures r.slot.value.generation == r.source {
      assert WellFormed(t, r.source, t.entries[r.source]);
      assert Origin(r).generation == r.slot.value.generation;
    }
  }

  lemma CommitValid(t: Table, gone: set<Handle>, lost: nat, rs: seq<Record>)
    requires Valid(t, gone, lost) && Outstanding(gone, rs)
    ensures Valid(Commit(t, rs), gone - MovedSources(rs), lost)
    ensures Commit(t, rs) == t.(count := t.count - |MovedSources(rs)|)
  {
    MovedCountIsSize(rs);
    Difference(gone, MovedSources(rs));
    var u := Commit(t, rs);
    forall h | h in u.entries ensures WellFormed(u, h, u.entries[h]) {
      assert WellFormed(t, h, t.entries[h]);
    }
    forall h | h in gone ensures Issued(u, h) { assert Issued(t, h); }
  }

  // ---------------------------------------------------------------------- refusals

  /** Why a handle is not closed, duplicated or restricted: it names nothing; the authority behind it is too small; or there
      is no room for another entry. */
  lemma HandleCallsTell(t: Table, gone: set<Handle>, lost: nat, h: Handle, rights: Bits, r: Restriction)
    requires Valid(t, gone, lost)
    ensures Close(t, h).0 == if Lookup(t, h).Some? then OK else INVALID_HANDLE
    ensures Duplicate(t, h, rights).0 ==
      if Lookup(t, h).None? then INVALID_HANDLE
      else if !t.entries[h].obj.value.Sharable? || !({RIGHT_DUPLICATE} + rights <= t.entries[h].meta.metaRights) then ACCESS_DENIED
      else if t.count == MAX_ENTRIES || t.next == NO_HANDLE then RESOURCE_EXHAUSTED else OK
    ensures Restrict(t, h, r, true).0 ==
      if !r.known then INVALID_ARGUMENT
      else if Lookup(t, h).None? then INVALID_HANDLE
      else if !MayRestrict(t.entries[h].meta, r) then ACCESS_DENIED
      else if t.count == MAX_ENTRIES || t.next == NO_HANDLE then RESOURCE_EXHAUSTED else OK
  {
    assert h in t.entries ==> WellFormed(t, h, t.entries[h]);
    assert t.next in t.entries ==> WellFormed(t, t.next, t.entries[t.next]);
    assert t.count <= MAX_ENTRIES;
    hide Valid, MayRestrict, Restricted;
    DuplicateVerdict(t, h, rights);
    RestrictVerdict(t, h, r, true);
  }

  /** A batch is put back exactly if each moved entry's handle is free; otherwise nothing is. */
  lemma RestoreTells(t: Table, rs: seq<Record>)
    ensures Restore(t, rs).0 == OK <==> forall r | r in rs && Moved(r) :: r.source != NO_HANDLE && r.source !in t.entries
    ensures Restore(t, rs).0 != OK ==> Restore(t, rs) == (RESOURCE_EXHAUSTED, t)
  {
  }

  /** Only a table that counts no entry can be forked into, and only handles that are reserved can be filled. */
  lemma TargetsTell(child: Table, parent: Table, h: Handle, r: Resource)
    ensures child.count != 0 ==> CloneFork(child, parent) == (INVALID_ARGUMENT, child)
    ensures Activate(child, h, r).0 ==
      if h == NO_HANDLE then INVALID_ARGUMENT else if h in child.entries && child.entries[h].state == Reserved then OK else INVALID_HANDLE
  {
  }
}
