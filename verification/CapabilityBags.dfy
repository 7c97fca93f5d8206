/** Which objects a table or a batch holds, with multiplicity, and which authority over them. */
module CapabilityBags {
  import opened Options
  import opened CapabilityTable
  import opened CapabilityLaws
  import opened Bags

  // --------------------------------------------------------------------- holdings

  function EntryBag(e: Entry): multiset<Object> {
    if e.obj.Some? then multiset{e.obj.value} else multiset{}
  }

  ghost function EntriesBag(m: map<Handle, Entry>): multiset<Object> {
    MapBag(m, EntryBag)
  }

  ghost function TableBag(t: Table): multiset<Object> {
    EntriesBag(t.entries)
  }

  function ResourceBag(rs: seq<Resource>): multiset<Object> {
    if rs == [] then multiset{} else multiset{rs[0].obj} + ResourceBag(rs[1..])
  }

  /** The objects a batch took out of the table, and those it copied. */
  function MovedBag(rs: seq<Record>): multiset<Object> {
    if rs == [] then multiset{}
    else (if Moved(rs[0]) then multiset{rs[0].resource.obj} else multiset{}) + MovedBag(rs[1..])
  }

  function CopiedBag(rs: seq<Record>): multiset<Object> {
    if rs == [] then multiset{}
    else (if Moved(rs[0]) then multiset{} else multiset{rs[0].resource.obj}) + CopiedBag(rs[1..])
  }

  /** No raw endpoint has more holders in a than in b. */
  ghost predicate RawAtMost(a: multiset<Object>, b: multiset<Object>) {
    forall o: Object | o.RawEndpoint? :: a[o] <= b[o]
  }

  ghost predicate NoRaw(a: multiset<Object>) {
    forall o: Object | o.RawEndpoint? :: a[o] == 0
  }

  // ------------------------------------------------------------------------- laws

  lemma InsertBag(t: Table, e: Entry)
    requires CanAllocate(t) && t.next !in t.entries
    ensures TableBag(Insert(t, e)) == EntryBag(e) + TableBag(t)
  {
    BagFresh(t.entries, EntryBag, t.next, e);
  }

  lemma RemoveBag(m: map<Handle, Entry>, h: Handle)
    requires h in m
    ensures EntriesBag(m) == EntryBag(m[h]) + EntriesBag(m - {h})
  {
    BagSplit(m, EntryBag, h);
  }

  /** Replacing one entry by another that holds the same object changes no holding. */
  lemma RenameBag(m: map<Handle, Entry>, h: Handle, n: Handle, e: Entry)
    requires h in m && n !in m && EntryBag(e) == EntryBag(m[h])
    ensures EntriesBag((m - {h})[n := e]) == EntriesBag(m)
  {
    BagSplit(m, EntryBag, h);
    BagFresh(m - {h}, EntryBag, n, e);
  }

  lemma {:induction false} FillBag(m: map<Handle, Entry>, first: Handle, rs: seq<Resource>)
    requires forall h | first <= h < first + |rs| :: h !in m
    ensures EntriesBag(FillOnto(m, first, rs)) == EntriesBag(m) + ResourceBag(rs)
    decreases |rs|
  {
    if rs != [] {
      var e := Entry(Some(rs[0].obj), first, Active, rs[0].meta);
      BagFresh(m, EntryBag, first, e);
      FillBag(m[first := e], first + 1, rs[1..]);
    }
  }

  /** Detaching a batch takes exactly the moved objects out of the table. */
  lemma {:induction false} DetachBag(m: map<Handle, Entry>, rs: seq<Record>)
    requires DistinctSources(rs)
    requires forall r | r in rs && Moved(r) :: r.source in m && m[r.source].obj == Some(r.resource.obj)
    ensures EntriesBag(m) == EntriesBag(m - MovedSources(rs)) + MovedBag(rs)
    decreases |rs|
  {
    hide EntriesBag;
    if rs == [] {
      assert m - MovedSources(rs) == m;
    } else {
      MovedSplit(rs);
      var rest := MovedSources(rs[1..]);
      if Moved(rs[0]) {
        var h := rs[0].source;
        assert rs[0] in rs;
        RemoveBag(m, h);
        forall r | r in rs[1..] && Moved(r) ensures r.source != h { assert r.source in rest; }
        DetachBag(m - {h}, rs[1..]);
        assert m - {h} - rest == m - MovedSources(rs);
        var x, y, z := multiset{rs[0].resource.obj}, EntriesBag(m - MovedSources(rs)), MovedBag(rs[1..]);
        assert x + (y + z) == y + (x + z);
      } else {
        DetachBag(m, rs[1..]);
        assert rest == MovedSources(rs);
      }
    }
  }

  function Resources(rs: seq<Record>): (r: seq<Resource>)
    ensures |r| == |rs| && forall i | 0 <= i < |rs| :: r[i] == rs[i].resource
  {
    if rs == [] then [] else [rs[0].resource] + Resources(rs[1..])
  }

  lemma {:induction false} CarriedBag(rs: seq<Record>)
    ensures ResourceBag(Resources(rs)) == MovedBag(rs) + CopiedBag(rs)
  {
    if rs != [] {
      CarriedBag(rs[1..]);
      assert Resources(rs)[1..] == Resources(rs[1..]);
    }
  }

  lemma {:induction false} CopiesAreShared(t: Table, rs: seq<Record>)
    requires forall r | r in rs :: Faithful(t, r)
    ensures NoRaw(CopiedBag(rs))
  {
    if rs != [] {
      assert rs[0] in rs;
      CopiesAreShared(t, rs[1..]);
    }
  }

  lemma {:induction false} NoRawEntries(m: map<Handle, Entry>)
    requires forall h | h in m && m[h].obj.Some? :: !m[h].obj.value.RawEndpoint?
    ensures NoRaw(EntriesBag(m))
    decreases |m|
  {
    if m != map[] {
      var h :| h in m;
      RemoveBag(m, h);
      NoRawEntries(m - {h});
    }
  }

  // --------------------------------------------------------------------- authority

  /** r could have come from r0 by duplicating, restricting and transferring. */
  predicate AtMost(r: Resource, r0: Resource) {
    r.obj == r0.obj && Weaker(r.meta, r0.meta)
  }

  predicate InTable(t: Table, r: Resource) {
    exists h :: h in t.entries && Holding(t.entries[h], r)
  }

  predicate Holding(e: Entry, r: Resource) {
    e.obj == Some(r.obj) && e.meta == r.meta
  }

  /** Every capability of t is at most one of b's entries or one of `also`. */
  ghost predicate NoMoreThan(t: Table, b: Table, also: seq<Resource>) {
    forall r | InTable(t, r) :: exists r0 :: (InTable(b, r0) || r0 in also) && AtMost(r, r0)
  }

  lemma SubTable(t: Table, b: Table)
    requires forall h | h in t.entries :: h in b.entries && b.entries[h] == t.entries[h]
    ensures NoMoreThan(t, b, [])
  {
    forall r | InTable(t, r) ensures InTable(b, r) {
      var h :| h in t.entries && Holding(t.entries[h], r);
      assert h in b.entries && Holding(b.entries[h], r);
    }
  }

  lemma AddedEntry(t: Table, b: Table, n: Handle, r0: Resource, also: seq<Resource>)
    requires n in t.entries && (InTable(b, r0) || r0 in also)
    requires forall r | Holding(t.entries[n], r) :: AtMost(r, r0)
    requires forall h | h in t.entries && h != n :: h in b.entries && b.entries[h] == t.entries[h]
    ensures NoMoreThan(t, b, also)
  {
    forall r | InTable(t, r) ensures exists r1 :: (InTable(b, r1) || r1 in also) && AtMost(r, r1) {
      var h :| h in t.entries && Holding(t.entries[h], r);
      if h == n {
        assert AtMost(r, r0);
      } else {
        assert h in b.entries && Holding(b.entries[h], r);
        assert InTable(b, r) && AtMost(r, r);
      }
    }
  }

  lemma {:induction false} FilledEntry(m: map<Handle, Entry>, first: Handle, rs: seq<Resource>, h: Handle, r: Resource)
    requires h in FillOnto(m, first, rs) && Holding(FillOnto(m, first, rs)[h], r)
    ensures r in rs || (h in m && Holding(m[h], r))
    decreases |rs|
  {
    if rs != [] {
      FilledEntry(m[first := Entry(Some(rs[0].obj), first, Active, rs[0].meta)], first + 1, rs[1..], h, r);
    }
  }

  lemma FilledTable(t: Table, u: Table, rs: seq<Resource>)
    requires u.entries == FillOnto(t.entries, t.next, rs)
    ensures NoMoreThan(u, t, rs)
  {
    forall r | InTable(u, r) ensures exists r0 :: (InTable(t, r0) || r0 in rs) && AtMost(r, r0) {
      var h :| h in u.entries && Holding(u.entries[h], r);
      FilledEntry(t.entries, t.next, rs, h, r);
      if r !in rs { assert h in t.entries && Holding(t.entries[h], r); assert InTable(t, r); }
      assert AtMost(r, r);
    }
  }

  lemma WeakerTransitive(a: Resource, b: Resource, c: Resource)
    requires AtMost(a, b) && AtMost(b, c)
    ensures AtMost(a, c)
  {
  }
}
