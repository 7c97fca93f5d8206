/** The capability table as the kernel updates it in place. */
module ResourceTable {
  import opened Options
  import opened CapabilityTable
  import opened CapabilityLaws

  lemma {:induction false} FirstErrorIs(t: Table, ds: seq<Disposition>, target: Handle, i: nat, from: nat)
    requires from <= i < |ds| && Check(t, ds, i, target) != OK
    requires forall k | from <= k < i :: Check(t, ds, k, target) == OK
    ensures FirstError(t, ds, target, from) == Check(t, ds, i, target)
    decreases i - from
  {
    if from < i { FirstErrorIs(t, ds, target, i, from + 1); }
  }

  lemma RecordsAre(t: Table, ds: seq<Disposition>, target: Handle, i: nat)
    requires Acceptable(t, ds, target) && i < |ds|
    ensures ds[i].handle in t.entries && t.entries[ds[i].handle].obj.Some?
    ensures Records(t, ds, target)[i] == MakeRecord(t, ds[i])
  {
    ErrorsAbsent(t, ds, target, 0, i);
  }

  lemma FreshHandle(t: Table, gone: set<Handle>, lost: nat)
    requires Valid(t, gone, lost)
    ensures t.next !in t.entries && !Issued(t, t.next) && t.count <= MAX_ENTRIES && t.next < HANDLE_SPACE
  {
    assert t.next in t.entries ==> WellFormed(t, t.next, t.entries[t.next]);
  }

  /** After a first phase that succeeded the second cannot fail. */
  lemma CommitFollows(t: Table, gone: set<Handle>, lost: nat, source: Handle, r: Restriction)
    requires Valid(t, gone, lost)
    ensures var (status, h, u) := PrepareRestrict(t, source, r); status == OK ==> CommitRestrict(u, source, h).0 == OK
  {
    FreshHandle(t, gone, lost);
    assert source in t.entries ==> WellFormed(t, source, t.entries[source]);
    hide Valid, MayRestrict, Restricted;
  }

  lemma NoSuchHandle(t: Table, gone: set<Handle>, lost: nat)
    requires Valid(t, gone, lost)
    ensures NO_HANDLE !in t.entries
  {
    assert NO_HANDLE in t.entries ==> WellFormed(t, NO_HANDLE, t.entries[NO_HANDLE]);
  }

  lemma CountedEntry(t: Table, gone: set<Handle>, lost: nat, h: Handle)
    requires Valid(t, gone, lost)
    ensures h in t.entries ==> t.count > 0 && Issued(t, h)
  {
    assert h in t.entries ==> WellFormed(t, h, t.entries[h]);
    assert h in t.entries ==> |t.entries| > 0;
  }

  class ResourceTable {
    var entries: map<Handle, Entry>
    var next: Handle
    var count: nat

    function View(): Table
      reads this
    {
      Table(entries, next, count)
    }

    constructor ()
      ensures View() == EMPTY
    {
      entries, next, count := map[], 1, 0;
    }

    method AllocateHandle() returns (h: Handle)
      requires next < HANDLE_SPACE
      modifies this`next
      ensures if old(CanAllocate(View())) then h == old(next) && next == (old(next) + 1) % HANDLE_SPACE
              else h == NO_HANDLE && next == old(next)
    {
      if count >= MAX_ENTRIES || next == NO_HANDLE { return NO_HANDLE; }
      h := next;
      next := (next + 1) % HANDLE_SPACE;
    }

    /** Put an object into the table, under a handle never given out before; refused exactly when
        the table is full or out of handles. */
    method InstallNative(o: Object, meta: Metadata, ghost gone: set<Handle>, ghost lost: nat) returns (h: Handle)
      requires Valid(View(), gone, lost)
      modifies this
      ensures (h, View()) == Install(old(View()), o, meta) && Valid(View(), gone, lost)
      ensures h == NO_HANDLE <==> old(count) == MAX_ENTRIES || old(next) == NO_HANDLE
      ensures h == NO_HANDLE ==> View() == old(View())
      ensures h != NO_HANDLE ==> !Issued(old(View()), h) && Issued(View(), h)
      ensures h != NO_HANDLE ==> entries - {h} == old(entries) && Lookup(View(), h) == Some(Entry(Some(o), h, Active, meta))
    {
      InstallValid(View(), gone, lost, o, meta);
      FreshHandle(View(), gone, lost);
      hide Valid;
      h := AllocateHandle();
      if h == NO_HANDLE { return; }
      entries := entries[h := Entry(Some(o), h, Active, meta)];
      count := count + 1;
    }

    /** On failure the handles already reserved are taken back. */
    method ReserveNative(n: nat, ghost gone: set<Handle>, ghost lost: nat) returns (status: Status, handles: seq<Handle>)
      requires Valid(View(), gone, lost)
      modifies this
      ensures (status, handles, View()) == Reserve(old(View()), n)
    {
      hide Valid, ReserveEach, NextAfter;
      if n > MAX_ENTRIES { return RESOURCE_EXHAUSTED, []; }
      handles := ReserveWhilePossible(n, gone, lost);
      if |handles| == n { return OK, handles; }
      ReserveStuck(old(View()), |handles|, n);
      ReserveUndone(old(View()), gone, lost, |handles|);
      Forget(handles);
      count := Minus(count, |handles|);
      return RESOURCE_EXHAUSTED, [];
    }

    method ReserveWhilePossible(n: nat, ghost gone: set<Handle>, ghost lost: nat) returns (handles: seq<Handle>)
      requires Valid(View(), gone, lost)
      modifies this
      ensures |handles| <= n && ReserveEach(old(View()), |handles|) == Some((handles, View()))
      ensures |handles| < n ==> !CanAllocate(View())
    {
      hide Valid, ReserveEach;
      handles := [];
      ghost var t := View();
      ReserveNone(t);
      while |handles| < n
        invariant |handles| <= n && ReserveEach(t, |handles|) == Some((handles, View()))
      {
        ReserveEachShape(t, gone, lost, |handles|);
        ValidNext(View(), gone, lost);
        ReserveLast(t, |handles|);
        var h := AllocateHandle();
        if h == NO_HANDLE { return; }
        entries := entries[h := Entry(None, h, Reserved, BLANK)];
        count := count + 1;
        handles := handles + [h];
      }
    }

    method Forget(hs: seq<Handle>)
      modifies this`entries
      ensures entries == old(entries) - SetOf(hs)
    {
      var i: nat := 0;
      while i < |hs|
        invariant 0 <= i <= |hs| && entries == old(entries) - SetOf(hs[..i])
      {
        assert SetOf(hs[..i + 1]) == SetOf(hs[..i]) + {hs[i]};
        entries := entries - {hs[i]};
        i := i + 1;
      }
      assert hs[..|hs|] == hs;
    }

    method ActivateNative(h: Handle, r: Resource) returns (status: Status)
      modifies this`entries
      ensures (status, View()) == Activate(old(View()), h, r)
    {
      if h == NO_HANDLE { return INVALID_ARGUMENT; }
      if h !in entries || entries[h].state != Reserved { return INVALID_HANDLE; }
      entries := entries[h := entries[h].(obj := Some(r.obj), state := Active, meta := r.meta)];
      status := OK;
    }

    method RollbackNative(hs: seq<Handle>)
      modifies this`entries, this`count
      ensures View() == Rollback(old(View()), hs)
    {
      var i: nat := 0;
      while i < |hs|
        invariant 0 <= i <= |hs|
        invariant Rollback(View(), hs[i..]) == Rollback(old(View()), hs)
      {
        assert hs[i..][1..] == hs[i + 1..] && hs[i..][0] == hs[i];
        if hs[i] in entries && entries[hs[i]].state == Reserved {
          entries := entries - {hs[i]};
          count := Minus(count, 1);
        }
        i := i + 1;
      }
    }

    /** A handle that can be looked up is closed, alone and for good; any other call has no effect. */
    method CloseNative(h: Handle, ghost gone: set<Handle>, ghost lost: nat) returns (status: Status)
      requires Valid(View(), gone, lost)
      modifies this`entries, this`count
      ensures (status, View()) == Close(old(View()), h) && Valid(View(), gone, lost)
      ensures status == OK <==> old(Lookup(View(), h)).Some?
      ensures status == OK ==> entries == old(entries) - {h} && Issued(View(), h) && count + 1 == old(count)
      ensures status != OK ==> View() == old(View())
    {
      CloseValid(View(), gone, lost, h);
      NoSuchHandle(View(), gone, lost);
      CountedEntry(View(), gone, lost, h);
      hide Valid;
      if h == NO_HANDLE { return INVALID_HANDLE; }
      if h !in entries || entries[h].state != Active { return INVALID_HANDLE; }
      entries := entries - {h};
      count := Minus(count, 1);
      status := OK;
    }

    /** A second handle for a sharable object held with the duplicate right, carrying the requested
        rights and no more; anything else is refused without effect. */
    method DuplicateNative(source: Handle, requested: Bits, ghost gone: set<Handle>, ghost lost: nat)
      returns (status: Status, h: Handle)
      requires Valid(View(), gone, lost)
      modifies this
      ensures (status, h, View()) == Duplicate(old(View()), source, requested) && Valid(View(), gone, lost)
      ensures status == OK <==>
        && old(Lookup(View(), source)).Some? && old(entries[source]).obj.value.Sharable?
        && {RIGHT_DUPLICATE} + requested <= old(entries[source]).meta.metaRights
        && old(count) < MAX_ENTRIES && old(next) != NO_HANDLE
      ensures status != OK ==> View() == old(View()) && h == NO_HANDLE
      ensures status == OK ==> !Issued(old(View()), h) && entries - {h} == old(entries) && h in entries
      ensures status == OK ==> entries[h].obj == old(entries[source]).obj && Weaker(entries[h].meta, old(entries[source]).meta)
    {
      DuplicateValid(View(), gone, lost, source, requested);
      DuplicateIsExact(View(), gone, lost, source, requested);
      ValidNext(View(), gone, lost);
      hide Valid, Duplicate;
      h := NO_HANDLE;
      if source !in entries || entries[source].state != Active { return INVALID_HANDLE, h; }
      var found := entries[source];
      if found.obj.None? { return INVALID_HANDLE, h; }
      if RIGHT_DUPLICATE !in found.meta.metaRights || IsUnique(found.obj.value) { return ACCESS_DENIED, h; }
      var rights := if requested == {} then found.meta.metaRights else requested;
      if !(rights <= found.meta.metaRights) { return ACCESS_DENIED, h; }
      h := AllocateHandle();
      if h == NO_HANDLE { return RESOURCE_EXHAUSTED, h; }
      entries := entries[h := found.(meta := found.meta.(metaRights := rights), generation := h)];
      count := count + 1;
      status := OK;
    }

    method RestrictNative(source: Handle, r: Restriction) returns (status: Status, h: Handle)
      requires next < HANDLE_SPACE
      modifies this
      ensures (status, h, View()) == PrepareRestrict(old(View()), source, r)
    {
      h := NO_HANDLE;
      if !r.known { return INVALID_ARGUMENT, h; }
      if source !in entries || entries[source].state != Active { return INVALID_HANDLE, h; }
      var found := entries[source];
      if !(OrElse(r.metaRights, found.meta.metaRights) <= found.meta.metaRights) { return ACCESS_DENIED, h; }
      if !(OrElse(r.protocolRights, found.meta.protocolRights) <= found.meta.protocolRights) { return ACCESS_DENIED, h; }
      if r.scope.Some? && (r.scope.value == 0 || r.scope.value != found.meta.scope) { return ACCESS_DENIED, h; }
      if r.revision.Some? && (r.revision.value == 0 || r.revision.value > found.meta.revision) { return ACCESS_DENIED, h; }
      if r.features.Some? && !(r.features.value <= found.meta.features) { return ACCESS_DENIED, h; }
      h := AllocateHandle();
      if h == NO_HANDLE { return RESOURCE_EXHAUSTED, h; }
      var pending := found.(state := Reserved, obj := None, generation := h, meta := Restricted(found.meta, r));
      entries := entries[h := pending][source := found.(state := Restricting)];
      count := count + 1;
      status := OK;
    }

    method CommitRestriction(source: Handle, h: Handle) returns (status: Status)
      modifies this`entries, this`count
      ensures (status, View()) == CommitRestrict(old(View()), source, h)
    {
      if source == NO_HANDLE || h == NO_HANDLE { return INVALID_ARGUMENT; }
      if source !in entries || entries[source].state != Restricting || entries[source].obj.None?
         || h !in entries || entries[h].state != Reserved { return INVALID_HANDLE; }
      var e := entries[h].(obj := entries[source].obj, state := Active);
      entries := (entries - {source})[h := e];
      count := Minus(count, 1);
      status := OK;
    }

    method RollbackRestriction(source: Handle, h: Handle) returns (status: Status)
      modifies this`entries, this`count
      ensures (status, View()) == RollbackRestrict(old(View()), source, h)
    {
      if source == NO_HANDLE || h == NO_HANDLE { return INVALID_ARGUMENT; }
      if source !in entries || entries[source].state != Restricting || entries[source].obj.None?
         || h !in entries || entries[h].state != Reserved { return INVALID_HANDLE; }
      entries := (entries - {h})[source := entries[source].(state := Active)];
      count := Minus(count, 1);
      status := OK;
    }

    /** The restrict call: weaken a capability, or leave every entry alone when any step fails, the
        copy of the new handle to the caller included. */
    method RestrictHandle(source: Handle, r: Restriction, written: bool, ghost gone: set<Handle>, ghost lost: nat)
      returns (status: Status, h: Handle)
      requires Valid(View(), gone, lost)
      modifies this
      ensures (status, h, View()) == Restrict(old(View()), source, r, written) && Valid(View(), gone, lost)
      ensures status == OK <==>
        && written && r.known && old(Lookup(View(), source)).Some? && MayRestrict(old(entries[source]).meta, r)
        && old(count) < MAX_ENTRIES && old(next) != NO_HANDLE
      ensures count == old(count)
      ensures status != OK ==> entries == old(entries)
      ensures status == OK ==>
        && !Issued(old(View()), h) && h in entries && source !in entries && entries - {h} == old(entries) - {source}
        && entries[h].obj == old(entries[source]).obj && Weaker(entries[h].meta, old(entries[source]).meta)
    {
      RestrictIsAtomic(View(), gone, lost, source, r, written);
      RestrictIsExact(View(), gone, lost, source, r, written);
      ValidNext(View(), gone, lost);
      FreshHandle(View(), gone, lost);
      CommitFollows(View(), gone, lost, source, r);
      hide Valid, PrepareRestrict, CommitRestrict, RollbackRestrict, MayRestrict, Restricted;
      status, h := RestrictNative(source, r);
      if status != OK { return status, NO_HANDLE; }
      if !written {
        var _ := RollbackRestriction(source, h);
        return FAULT, NO_HANDLE;
      }
      status := CommitRestriction(source, h);
      assert status == OK;
    }

    method CloneForkBindings(parent: Table) returns (status: Status)
      requires parent.next < HANDLE_SPACE
      modifies this
      ensures (status, View()) == CloneFork(old(View()), parent)
    {
      if count != 0 { return INVALID_ARGUMENT; }
      var found: map<Handle, Entry> := map[];
      var left := parent.entries.Keys;
      while left != {}
        invariant left <= parent.entries.Keys
        invariant found == Among(parent, parent.entries.Keys - left)
        decreases |left|
      {
        var h: Handle :| h in left;
        var e := parent.entries[h];
        if Inheritable(e) { found := found[h := e.(generation := h)]; }
        assert parent.entries.Keys - (left - {h}) == (parent.entries.Keys - left) + {h};
        left := left - {h};
      }
      assert found == Inherited(parent);
      if |found| > MAX_ENTRIES { return RESOURCE_EXHAUSTED; }
      next := parent.next;
      entries := entries + found;
      count := |found|;
      status := OK;
    }

    /** Validate the whole batch, then detach its moved entries, then build the records. */
    method TakeNativeBatch(ds: seq<Disposition>, target: Handle) returns (status: Status, records: seq<Record>)
      modifies this`entries
      ensures (status, records, View()) == Take(old(View()), ds, target)
    {
      ghost var t := View();
      records := [];
      if |ds| > MAX_TRANSFER { return INVALID_ARGUMENT, []; }
      var i: nat := 0;
      while i < |ds|
        invariant 0 <= i <= |ds| && View() == t
        invariant forall k | 0 <= k < i :: Check(t, ds, k, target) == OK
      {
        status := Judge(ds, i, target);
        if status != OK {
          FirstErrorIs(t, ds, target, i, 0);
          return status, [];
        }
        i := i + 1;
      }
      NoErrorIs(t, ds, target, 0);
      records := Detach(ds, target);
      status := OK;
    }

    method Judge(ds: seq<Disposition>, i: nat, target: Handle) returns (status: Status)
      requires i < |ds|
      ensures status == Check(View(), ds, i, target)
    {
      var d := ds[i];
      if d.handle == NO_HANDLE || d.flags != 0 || d.handle == target { return INVALID_ARGUMENT; }
      var j: nat := 0;
      while j < i
        invariant 0 <= j <= i && forall k | 0 <= k < j :: ds[k].handle != d.handle
      {
        if ds[j].handle == d.handle { return INVALID_ARGUMENT; }
        j := j + 1;
      }
      if d.handle !in entries || entries[d.handle].state != Active { return INVALID_HANDLE; }
      var found := entries[d.handle];
      if found.obj.None? { return INVALID_HANDLE; }
      if d.operation != MOVE && d.operation != DUPLICATE { return INVALID_ARGUMENT; }
      if RIGHT_TRANSFER !in found.meta.metaRights { return ACCESS_DENIED; }
      if d.operation == DUPLICATE && (RIGHT_DUPLICATE !in found.meta.metaRights || IsUnique(found.obj.value)) {
        return ACCESS_DENIED;
      }
      var rights := if d.rights == {} then found.meta.metaRights else d.rights;
      if !(rights <= found.meta.metaRights) { return ACCESS_DENIED; }
      if d.scope != 0 && d.scope != found.meta.scope { return ACCESS_DENIED; }
      status := OK;
    }

    /** No handle of an accepted batch can be missing when its turn comes. */
    method Detach(ds: seq<Disposition>, target: Handle) returns (records: seq<Record>)
      requires Acceptable(View(), ds, target)
      modifies this`entries
      ensures records == Records(old(View()), ds, target)
      ensures View() == old(View()).(entries := old(entries) - MovedHandles(ds))
    {
      ghost var t := View();
      records := [];
      var i: nat := 0;
      AcceptableMeans(t, ds, target);
      while i < |ds|
        invariant 0 <= i <= |ds| && |records| == i
        invariant entries == t.entries - MovedHandles(ds[..i])
        invariant records == Records(t, ds, target)[..i]
      {
        RecordsAre(t, ds, target, i);
        var d := ds[i];
        assert forall c | c in ds[..i] :: c.handle != d.handle;
        assert d.handle in entries;
        var e := entries[d.handle];
        MovedMore(ds, i);
        var slot := None;
        if d.operation == MOVE {
          slot := Some(e.(obj := None));
          entries := entries - {d.handle};
        }
        records := records + [Record(d.handle, Resource(e.obj.value, Attenuated(e, d)), slot)];
        i := i + 1;
      }
      assert ds[..|ds|] == ds;
    }

    method RestoreNativeBatch(records: seq<Record>) returns (status: Status)
      modifies this`entries
      ensures (status, View()) == Restore(old(View()), records)
    {
      ghost var t := View();
      var i: nat := 0;
      while i < |records|
        invariant 0 <= i <= |records| && View() == t
        invariant forall k | 0 <= k < i :: Moved(records[k]) ==> records[k].source != NO_HANDLE && records[k].source !in entries
      {
        if Moved(records[i]) && (records[i].source == NO_HANDLE || records[i].source in entries) {
          assert records[i] in records;
          return RESOURCE_EXHAUSTED;
        }
        i := i + 1;
      }
      i := 0;
      while i < |records|
        invariant 0 <= i <= |records|
        invariant Reattach(View(), records[i..]) == Reattach(t, records)
      {
        assert records[i..][1..] == records[i + 1..] && records[i..][0] == records[i];
        if Moved(records[i]) {
          entries := entries[records[i].source := Origin(records[i])];
        }
        i := i + 1;
      }
      status := OK;
    }

    method CommitNativeBatch(records: seq<Record>)
      requires count < HANDLE_SPACE && |records| < HANDLE_SPACE
      modifies this`count
      ensures View() == Commit(old(View()), records)
    {
      var i: nat := 0;
      MovedAtMost(records);
      while i < |records|
        invariant 0 <= i <= |records| && count < HANDLE_SPACE
        invariant MovedCount(records[i..]) < HANDLE_SPACE
        invariant Minus(count, MovedCount(records[i..])) == Minus(old(count), MovedCount(records))
      {
        assert records[i..][1..] == records[i + 1..] && records[i..][0] == records[i];
        if Moved(records[i]) {
          MinusOne(count, MovedCount(records[i..]));
          count := Minus(count, 1);
        }
        i := i + 1;
      }
    }
  }

  lemma MinusOne(c: nat, k: nat)
    requires c < HANDLE_SPACE && 0 < k < HANDLE_SPACE
    ensures Minus(c, 1) < HANDLE_SPACE && Minus(Minus(c, 1), k - 1) == Minus(c, k)
  {
    assert (0 - 1) % HANDLE_SPACE == HANDLE_SPACE - 1;
    assert c < k ==> (c - k) % HANDLE_SPACE == c - k + HANDLE_SPACE;
  }

  lemma {:induction false} MovedAtMost(records: seq<Record>)
    ensures MovedCount(records) <= |records|
  {
    if records != [] { MovedAtMost(records[1..]); }
  }

  function SetOf(hs: seq<Handle>): set<Handle> {
    set h | h in hs
  }

  function Among(t: Table, some: set<Handle>): map<Handle, Entry> {
    map h | h in t.entries && h in some && Inheritable(t.entries[h]) :: t.entries[h].(generation := h)
  }

  lemma MovedMore(ds: seq<Disposition>, i: nat)
    requires i < |ds|
    ensures MovedHandles(ds[..i + 1]) == MovedHandles(ds[..i]) + if ds[i].operation == MOVE then {ds[i].handle} else {}
  {
    assert ds[..i + 1] == ds[..i] + [ds[i]];
  }

  lemma ReserveNone(t: Table)
    ensures ReserveEach(t, 0) == Some(([], t))
  {
  }

  lemma {:induction false} ReserveLast(t: Table, i: nat)
    requires ReserveEach(t, i).Some?
    ensures var (hs, u) := ReserveEach(t, i).value;
      ReserveEach(t, i + 1) ==
        if CanAllocate(u) then Some((hs + [u.next], Insert(u, Entry(None, u.next, Reserved, BLANK)))) else None
    decreases i
  {
    if i == 0 {
      assert [t.next] + [] == [] + [t.next];
      assert CanAllocate(t) ==> ReserveEach(Insert(t, Entry(None, t.next, Reserved, BLANK)), 0).Some?;
    } else {
      var v := Insert(t, Entry(None, t.next, Reserved, BLANK));
      ReserveLast(v, i - 1);
      var (hs, u) := ReserveEach(v, i - 1).value;
      assert [t.next] + (hs + [u.next]) == [t.next] + hs + [u.next];
    }
  }

  lemma {:induction false} ReserveStuck(t: Table, i: nat, n: nat)
    requires i < n && ReserveEach(t, i).Some? && !CanAllocate(ReserveEach(t, i).value.1)
    ensures ReserveEach(t, n).None? && NextAfter(t, n) == ReserveEach(t, i).value.1.next
    decreases i
  {
    if i > 0 { ReserveStuck(Insert(t, Entry(None, t.next, Reserved, BLANK)), i - 1, n - 1); }
  }

  lemma ReserveUndone(t: Table, gone: set<Handle>, lost: nat, n: nat)
    requires Valid(t, gone, lost) && ReserveEach(t, n).Some?
    ensures var (hs, u) := ReserveEach(t, n).value;
      u.entries - SetOf(hs) == t.entries && u.count == t.count + |hs|
  {
    ReserveEachShape(t, gone, lost, n);
    var (hs, u) := ReserveEach(t, n).value;
    forall h | t.next <= h < t.next + n ensures h !in t.entries {
      assert h in t.entries ==> WellFormed(t, h, t.entries[h]);
    }
    OntoUndone(t.entries, t.next, n);
  }

  lemma {:induction false} OntoUndone(base: map<Handle, Entry>, first: Handle, n: nat)
    requires forall h | first <= h < first + n :: h !in base
    ensures ReserveOnto(base, first, n) - SetOf(Consecutive(first, n)) == base
    decreases n
  {
    if n > 0 {
      var r := Entry(None, first, Reserved, BLANK);
      OntoUndone(base[first := r], first + 1, n - 1);
      assert SetOf(Consecutive(first, n)) == {first} + SetOf(Consecutive(first + 1, n - 1));
      var m := ReserveOnto(base, first, n);
      assert m - SetOf(Consecutive(first, n)) == (m - SetOf(Consecutive(first + 1, n - 1))) - {first};
      assert base[first := r] - {first} == base;
    }
  }
}
