/** `unmap` as functions on the store: what one page's removal frees and keeps, and
    which ranges the loop really covers. */
module PagingUnmap {
  import opened Options
  import opened PagingStore
  import opened PagingMap

  // ----------------------------------------------------- dropping an empty table

  ghost predicate Empty(s: Store, t: Addr, i: nat) {
    && Slot(s, t, i) && IsPresent(s.tables[t].entries[i])
    && Unshared(s, Some(s.tables[t].entries[i].addr))
    && s.tables[s.tables[t].entries[i].addr].counter == 0
  }

  function DropTables(tb: map<Addr, Table>, t: Addr, i: nat): map<Addr, Table>
    requires t in tb && i < |tb[t].entries| && (tb[t].level < 4 ==> tb[t].counter > 0)
  {
    var c := tb[t].entries[i].addr;
    (tb - {c})[t := tb[t].(entries := tb[t].entries[i := Entry(c, {})],
                           counter := if tb[t].level < 4 then tb[t].counter - 1 else tb[t].counter)]
  }

  lemma CounterPositive(s: Store, t: Addr, i: nat)
    requires Slot(s, t, i) && IsPresent(s.tables[t].entries[i]) && s.tables[t].level < 4
    ensures s.tables[t].counter > 0
  {
    PresentCounted(s.tables[t].entries, i);
  }

  /** Free the empty table behind entry i of t and clear the entry.  The counter of a root is
      not kept by the kernel here. */
  ghost function Drop(s: Store, t: Addr, i: nat): Store
    requires Empty(s, t, i)
  {
    var c := s.tables[t].entries[i].addr;
    if s.tables[t].level < 4 then CounterPositive(s, t, i);
    Store(DropTables(s.tables, t, i), s.refs - {c}, s.place - {c})
    else Store(DropTables(s.tables, t, i), s.refs - {c}, s.place - {c})
  }

  lemma NothingPresent(s: Store, c: Addr)
    requires Valid(s) && c in s.tables && s.tables[c].level < 4 && s.tables[c].counter == 0
    ensures forall j | 0 <= j < 512 :: !IsPresent(s.tables[c].entries[j])
  {
    forall j | 0 <= j < 512 ensures !IsPresent(s.tables[c].entries[j]) {
      if IsPresent(s.tables[c].entries[j]) {
        PresentCounted(s.tables[c].entries, j);
      }
    }
  }

  /** The dropped table: no entry but (t, i) points at it and it points nowhere. */
  ghost predicate Droppable(tb: map<Addr, Table>, t: Addr, i: nat) {
    && Shaped(tb) && Linked(tb) && t in tb && tb[t].level > 1 && i < Limit(tb[t].level)
    && IsPresent(tb[t].entries[i]) && (tb[t].level < 4 ==> tb[t].counter > 0)
    && Parents(tb, tb[t].entries[i].addr) == {(t, i as int)}
    && forall j | 0 <= j < 512 :: !IsPresent(tb[tb[t].entries[i].addr].entries[j])
  }

  lemma EmptyDroppable(s: Store, t: Addr, i: nat)
    requires Empty(s, t, i)
    ensures Droppable(s.tables, t, i)
  {
    var c := s.tables[t].entries[i].addr;
    NothingPresent(s, c);
    if s.tables[t].level < 4 { CounterPositive(s, t, i); }
    var ps := Parents(s.tables, c);
    assert (t, i as int) in ps && |ps| == 1;
    forall x | x in ps ensures x == (t, i as int) { OnlyOne(ps, x, (t, i as int)); }
  }

  lemma DropLinks(tb: map<Addr, Table>, t: Addr, i: nat)
    requires Droppable(tb, t, i) && Tallied(tb)
    ensures var tb' := DropTables(tb, t, i); Shaped(tb') && Linked(tb') && Tallied(tb')
  {
    var c := tb[t].entries[i].addr;
    var tb' := DropTables(tb, t, i);
    PresentRemoved(tb[t].entries, i, Entry(c, {}));
    forall x, j | x in tb' && 0 <= j < Limit(tb'[x].level) && IsPresent(tb'[x].entries[j])
      ensures BigPage !in tb'[x].entries[j].flags
      ensures tb'[x].level > 1 ==> tb'[x].entries[j].addr in tb'
                                   && tb'[tb'[x].entries[j].addr].level == tb'[x].level - 1
    {
      assert !(x == t && j == i);
      assert tb'[x].entries[j] == tb[x].entries[j];
      assert tb[x].level > 1 && Points(tb[x].entries[j], c) ==> (x, j as int) in Parents(tb, c);
    }
  }

  lemma DropParents(tb: map<Addr, Table>, t: Addr, i: nat, x: Addr)
    requires Droppable(tb, t, i) && x != tb[t].entries[i].addr
    ensures Parents(DropTables(tb, t, i), x) == Parents(tb, x)
  {
    var c := tb[t].entries[i].addr;
    var tb' := DropTables(tb, t, i);
    forall y, j | y in tb && y != c && 0 <= j < 512 && !(y == t && j == i)
      ensures tb'[y].entries[j] == tb[y].entries[j] && tb'[y].level == tb[y].level {
    }
  }

  lemma DropCounted(tb: map<Addr, Table>, t: Addr, i: nat, refs: map<Addr, nat>)
    requires Droppable(tb, t, i) && Counted(tb, refs)
    ensures Counted(DropTables(tb, t, i), refs - {tb[t].entries[i].addr})
  {
    var c := tb[t].entries[i].addr;
    var tb' := DropTables(tb, t, i);
    forall x | x in tb'
      ensures x in refs - {c} && (tb'[x].level < 4 ==> (refs - {c})[x] == |Parents(tb', x)|) {
      DropParents(tb, t, i, x);
    }
  }

  lemma DropPlaced(tb: map<Addr, Table>, t: Addr, i: nat, place: map<Addr, nat>)
    requires Droppable(tb, t, i) && Placed(tb, place) && Shaped(DropTables(tb, t, i)) && Linked(DropTables(tb, t, i))
    ensures Placed(DropTables(tb, t, i), place - {tb[t].entries[i].addr})
  {
    var tb' := DropTables(tb, t, i);
    forall x, j | x in tb' && tb'[x].level > 1 && 0 <= j < Limit(tb'[x].level) && IsPresent(tb'[x].entries[j])
      ensures tb'[x].entries[j] == tb[x].entries[j] {
      assert !(x == t && j == i);
    }
  }

  lemma DropValid(s: Store, t: Addr, i: nat)
    requires Empty(s, t, i)
    ensures Valid(Drop(s, t, i))
  {
    EmptyDroppable(s, t, i);
    DropLinks(s.tables, t, i);
    DropCounted(s.tables, t, i, s.refs);
    DropPlaced(s.tables, t, i, s.place);
  }

  lemma {:induction false} DropLookup(tb: map<Addr, Table>, t: Addr, i: nat, x: Addr, v: nat)
    requires Droppable(tb, t, i) && x in tb && x != tb[t].entries[i].addr && v < USER_PAGES
    ensures Lookup(DropTables(tb, t, i), x, tb[x].level, v) == Lookup(tb, x, tb[x].level, v)
    decreases tb[x].level
  {
    var c := tb[t].entries[i].addr;
    var tb' := DropTables(tb, t, i);
    var level := tb[x].level;
    var j := Index(level, v);
    if x == t && j == i {
      assert !IsPresent(tb[c].entries[Index(level - 1, v)]);
    } else {
      assert tb'[x].entries[j] == tb[x].entries[j];
      if level > 1 && IsPresent(tb[x].entries[j]) {
        assert Points(tb[x].entries[j], c) ==> (x, j as int) in Parents(tb, c);
        DropLookup(tb, t, i, tb[x].entries[j].addr, v);
      }
    }
  }

  lemma DropKeepsSpaces(s: Store, t: Addr, i: nat)
    requires Empty(s, t, i)
    ensures SameSpaces(s, Drop(s, t, i))
  {
    EmptyDroppable(s, t, i);
    var c := s.tables[t].entries[i].addr;
    var r := Drop(s, t, i);
    assert s.tables[c].level < 4;
    forall o, w: nat | IsRoot(s, o) && w < USER_PAGES ensures SameAt(s, r, o, w) {
      DropLookup(s.tables, t, i, o, w);
    }
  }

  lemma DropKeepsAbove(s: Store, t: Addr, i: nat)
    requires Empty(s, t, i)
    ensures KeepsAbove(s, Drop(s, t, i), t, i)
  {
  }

  // --------------------------------------------------------- removing one page

  ghost predicate Cleared(s: Store, base: Addr, v: nat, n: nat) {
    Valid(s) && IsRoot(s, base) && v < USER_PAGES && OwnFrom(s, base, v, n)
  }

  /** Free the table below level n of the path when nothing is left in it. */
  ghost function Prune(s: Store, base: Addr, v: nat, n: nat): (r: Store)
    requires 2 <= n <= 4 && Cleared(s, base, v, n - 1)
    ensures Cleared(r, base, v, n) && SameSpaces(s, r)
  {
    PathSlot(s, base, v, n);
    var t, i := At(s.tables, base, v, n).value, Index(n, v);
    if s.tables[s.tables[t].entries[i].addr].counter == 0 then PruneDrops(s, base, v, n); Drop(s, t, i)
    else PruneSkips(s, base, v, n); s
  }

  lemma PathSlot(s: Store, base: Addr, v: nat, n: nat)
    requires 2 <= n <= 4 && Cleared(s, base, v, n - 1)
    ensures At(s.tables, base, v, n).Some? && At(s.tables, base, v, n - 1).Some?
    ensures var t, i := At(s.tables, base, v, n).value, Index(n, v);
      && Slot(s, t, i) && IsPresent(s.tables[t].entries[i]) && s.tables[t].level == n
      && s.tables[t].entries[i].addr == At(s.tables, base, v, n - 1).value
      && s.tables[t].entries[i].addr in s.tables && s.tables[s.tables[t].entries[i].addr].level == n - 1
      && Unshared(s, Some(s.tables[t].entries[i].addr))
  {
    assert Unshared(s, At(s.tables, base, v, n - 1));
    WalkStays(s, base, v, n);
    WalkStays(s, base, v, n - 1);
  }

  lemma PruneSkips(s: Store, base: Addr, v: nat, n: nat)
    requires 2 <= n <= 4 && Cleared(s, base, v, n - 1)
    ensures Cleared(s, base, v, n) && SameSpaces(s, s)
  {
    hide Valid;
    forall k | n <= k <= 3 ensures Unshared(s, At(s.tables, base, v, k)) { }
    forall o, w: nat | IsRoot(s, o) && w < USER_PAGES ensures SameAt(s, s, o, w) { }
  }

  lemma PruneDrops(s: Store, base: Addr, v: nat, n: nat)
    requires 2 <= n <= 4 && Cleared(s, base, v, n - 1) && At(s.tables, base, v, n).Some?
    requires Empty(s, At(s.tables, base, v, n).value, Index(n, v))
    ensures var r := Drop(s, At(s.tables, base, v, n).value, Index(n, v));
      Cleared(r, base, v, n) && SameSpaces(s, r)
  {
    hide Valid, Drop, KeepsAbove;
    PathSlot(s, base, v, n);
    var t, i := At(s.tables, base, v, n).value, Index(n, v);
    DropValid(s, t, i);
    DropKeepsSpaces(s, t, i);
    DropKeepsAbove(s, t, i);
    assert SameAt(s, Drop(s, t, i), base, v);
    AboveKeepsOwn(s, Drop(s, t, i), base, v, t, i, n);
  }

  lemma AboveKeepsOwn(s: Store, s': Store, base: Addr, v: nat, t: Addr, i: nat, n: nat)
    requires 2 <= n <= 4 && Cleared(s, base, v, n - 1)
    requires t in s.tables && s.tables[t].level == n && KeepsAbove(s, s', t, i)
    ensures OwnFrom(s', base, v, n)
  {
    forall k | n <= k <= 3 ensures Unshared(s', At(s'.tables, base, v, k)) {
      assert Unshared(s, At(s.tables, base, v, k));
      KeepsWalkTo(s, s', base, v, t, i, n, k);
      WalkStays(s, base, v, k);
    }
  }

  ghost function PruneFrom(s: Store, base: Addr, v: nat, n: nat): (r: Store)
    requires 2 <= n <= 5 && Cleared(s, base, v, n - 1)
    ensures Valid(r) && SameSpaces(s, r)
    decreases 5 - n
  {
    hide Valid, Prune, OwnFrom;
    if n == 5 then
      SameSpacesSelf(s); s
    else
      var q := Prune(s, base, v, n);
      SameSpacesChain(s, q, PruneFrom(q, base, v, n + 1));
      PruneFrom(q, base, v, n + 1)
  }

  lemma SameSpacesSelf(s: Store)
    ensures SameSpaces(s, s)
  {
    forall o, w: nat | IsRoot(s, o) && w < USER_PAGES ensures SameAt(s, s, o, w) { }
  }

  lemma SameSpacesChain(a: Store, b: Store, c: Store)
    requires SameSpaces(a, b) && SameSpaces(b, c)
    ensures SameSpaces(a, c)
  {
    forall o, w: nat | IsRoot(a, o) && w < USER_PAGES ensures SameAt(a, c, o, w) {
      assert SameAt(a, b, o, w);
      assert SameAt(b, c, o, w);
    }
  }

  ghost predicate Mapped(s: Store, base: Addr, v: nat) {
    Valid(s) && IsRoot(s, base) && v < USER_PAGES && Translate(s, base, v).Some?
  }

  lemma MappedLeaf(s: Store, base: Addr, v: nat)
    requires Mapped(s, base, v)
    ensures At(s.tables, base, v, 1).Some?
    ensures var pt := At(s.tables, base, v, 1).value;
      && Leaf(s, pt, Index(1, v)) && IsPresent(s.tables[pt].entries[Index(1, v)])
      && s.tables[pt].counter > 0 && BigPage !in s.tables[pt].entries[Index(1, v)].flags
  {
    LookupFrom(s, base, v, 1);
    WalkStays(s, base, v, 1);
    var pt := At(s.tables, base, v, 1).value;
    PresentCounted(s.tables[pt].entries, Index(1, v));
  }

  function LeafFlags(s: Store, base: Addr, v: nat): Flags {
    match At(s.tables, base, v, 1)
    case None => {}
    case Some(pt) => if pt in s.tables && |s.tables[pt].entries| == 512 then s.tables[pt].entries[Index(1, v)].flags else {}
  }

  /** Clear the leaf of page v; its table counts one page less. */
  ghost function ClearLeaf(s: Store, base: Addr, v: nat): Store
    requires Mapped(s, base, v)
  {
    MappedLeaf(s, base, v);
    var pt, j := At(s.tables, base, v, 1).value, Index(1, v);
    var t := s.tables[pt];
    s.(tables := s.tables[pt := t.(entries := t.entries[j := Entry(t.entries[j].addr, {})], counter := t.counter - 1)])
  }

  lemma ClearLeafValid(s: Store, base: Addr, v: nat)
    requires Mapped(s, base, v)
    ensures Valid(ClearLeaf(s, base, v))
  {
    MappedLeaf(s, base, v);
    var pt, j := At(s.tables, base, v, 1).value, Index(1, v);
    PresentRemoved(s.tables[pt].entries, j, Entry(s.tables[pt].entries[j].addr, {}));
    LeafChangeValid(s, ClearLeaf(s, base, v), pt);
  }

  /** Only page v of the space owning the path loses its translation. */
  lemma ClearLeafSeen(s: Store, base: Addr, v: nat, o: Addr, w: nat)
    requires Mapped(s, base, v) && OwnPath(s, base, v) && IsRoot(s, o) && w < USER_PAGES
    ensures var r := ClearLeaf(s, base, v);
      && Valid(r) && IsRoot(r, o)
      && Translate(r, o, w) == if o == base && w == v then None else Translate(s, o, w)
  {
    hide Valid;
    ClearLeafValid(s, base, v);
    MappedLeaf(s, base, v);
    var pt, j := At(s.tables, base, v, 1).value, Index(1, v);
    var r := ClearLeaf(s, base, v);
    LeafKeepsWalk(s, r, pt, o, w, 1);
    LeafLookup(s, r, base, v, Entry(s.tables[pt].entries[j].addr, {}), o, w);
    if w == v && At(s.tables, o, v, 1) == At(s.tables, base, v, 1) {
      OwnWalk(s, base, v, o, v, 1);
    }
  }

  lemma ClearLeafOwns(s: Store, base: Addr, v: nat)
    requires Mapped(s, base, v) && OwnPath(s, base, v)
    ensures Cleared(ClearLeaf(s, base, v), base, v, 1)
  {
    hide Valid;
    ClearLeafValid(s, base, v);
    MappedLeaf(s, base, v);
    var r := ClearLeaf(s, base, v);
    forall k | 1 <= k <= 3 ensures Unshared(r, At(r.tables, base, v, k)) {
      LeafKeepsWalk(s, r, At(s.tables, base, v, 1).value, base, v, k);
      assert Unshared(s, At(s.tables, base, v, k));
    }
  }

  const COPY_ALL := Actions(true, true, true)

  /** The path made private before a page is removed. */
  ghost function Privatised(s: Store, base: Addr, v: nat): (q: Store)
    requires Mapped(s, base, v)
    ensures Mapped(q, base, v) && OwnPath(q, base, v) && SameSpaces(s, q)
  {
    hide Valid, SameMeaning, OwnPath;
    MappedLeaf(s, base, v);
    EnsureTranslates(s, base, v, LeafFlags(s, base, v), COPY_ALL);
    EnsureUnshares(s, base, v, LeafFlags(s, base, v), COPY_ALL);
    var q := Ensure(s, base, v, LeafFlags(s, base, v), COPY_ALL);
    assert SameAt(s, q, base, v);
    q
  }

  /** Remove one mapped page. */
  ghost function UnmapPage(s: Store, base: Addr, v: nat): Store
    requires Mapped(s, base, v)
  {
    ClearLeafOwns(Privatised(s, base, v), base, v);
    PruneFrom(ClearLeaf(Privatised(s, base, v), base, v), base, v, 2)
  }

  /** Exactly one translation of one space disappears. */
  ghost predicate Removed(s: Store, r: Store, base: Addr, v: nat) {
    forall o, w: nat | IsRoot(s, o) && w < USER_PAGES :: RemovedAt(s, r, base, v, o, w)
  }

  ghost predicate RemovedAt(s: Store, r: Store, base: Addr, v: nat, o: Addr, w: nat) {
    IsRoot(r, o) && Translate(r, o, w) == if o == base && w == v then None else Translate(s, o, w)
  }

  lemma UnmapPageRemoves(s: Store, base: Addr, v: nat)
    requires Mapped(s, base, v)
    ensures Valid(UnmapPage(s, base, v)) && Removed(s, UnmapPage(s, base, v), base, v)
  {
    hide Valid, OwnPath, PruneFrom, ClearLeaf, Privatised, Translate;
    var q := Privatised(s, base, v);
    ClearLeafOwns(q, base, v);
    var c := ClearLeaf(q, base, v);
    var r := UnmapPage(s, base, v);
    assert r == PruneFrom(c, base, v, 2);
    forall o, w: nat | IsRoot(s, o) && w < USER_PAGES ensures RemovedAt(s, r, base, v, o, w) {
      assert SameAt(s, q, o, w);
      ClearLeafSeen(q, base, v, o, w);
      assert SameAt(c, r, o, w);
    }
  }

  /** The tables one removal frees: from the leaf table up, each one left without a page. */
  ghost function Freed(q: Store, base: Addr, v: nat): set<Addr>
    requires Mapped(q, base, v) && OwnPath(q, base, v)
  {
    PathSlot(q, base, v, 2); PathSlot(q, base, v, 3); PathSlot(q, base, v, 4);
    var t1, t2, t3 := At(q.tables, base, v, 1).value, At(q.tables, base, v, 2).value, At(q.tables, base, v, 3).value;
    if q.tables[t1].counter > 1 then {}
    else if q.tables[t2].counter > 1 then {t1}
    else if q.tables[t3].counter > 1 then {t1, t2}
    else {t1, t2, t3}
  }

  lemma PruneTables(s: Store, base: Addr, v: nat, n: nat)
    requires 2 <= n <= 4 && Cleared(s, base, v, n - 1)
    ensures At(s.tables, base, v, n).Some? && At(s.tables, base, v, n - 1).Some?
    ensures var t, c := At(s.tables, base, v, n).value, At(s.tables, base, v, n - 1).value;
      && t in s.tables && c in s.tables
      && var r := Prune(s, base, v, n);
      && t in r.tables
      && r.tables.Keys == s.tables.Keys - (if s.tables[c].counter == 0 then {c} else {})
      && (forall x | x in r.tables && x != t :: r.tables[x] == s.tables[x])
      && (n < 4 ==> r.tables[t].counter == s.tables[t].counter - if s.tables[c].counter == 0 then 1 else 0)
  {
    hide Valid, SameSpaces, OwnFrom;
    PathSlot(s, base, v, n);
  }

  lemma PruneWalk(s: Store, base: Addr, v: nat, n: nat)
    requires 2 <= n <= 4 && Cleared(s, base, v, n - 1)
    ensures forall m | n <= m <= 4 :: At(Prune(s, base, v, n).tables, base, v, m) == At(s.tables, base, v, m)
  {
    hide Valid, Drop, KeepsAbove;
    PathSlot(s, base, v, n);
    var t, i := At(s.tables, base, v, n).value, Index(n, v);
    if s.tables[s.tables[t].entries[i].addr].counter == 0 {
      DropKeepsAbove(s, t, i);
      forall m | n <= m <= 4 ensures At(Drop(s, t, i).tables, base, v, m) == At(s.tables, base, v, m) {
        KeepsWalkTo(s, Drop(s, t, i), base, v, t, i, n, m);
      }
    }
  }

  lemma PathCounters(s: Store, base: Addr, v: nat, n: nat)
    requires 2 <= n <= 3 && Cleared(s, base, v, n - 1)
    ensures At(s.tables, base, v, n).Some? && At(s.tables, base, v, n).value in s.tables
    ensures s.tables[At(s.tables, base, v, n).value].counter > 0
  {
    PathSlot(s, base, v, n);
    CounterPositive(s, At(s.tables, base, v, n).value, Index(n, v));
  }

  lemma ClearLeafTables(q: Store, base: Addr, v: nat)
    requires Mapped(q, base, v)
    ensures At(q.tables, base, v, 1).Some? && At(q.tables, base, v, 1).value in q.tables
    ensures var c, t1 := ClearLeaf(q, base, v), At(q.tables, base, v, 1).value;
      && c.tables.Keys == q.tables.Keys && c.tables[t1].counter == q.tables[t1].counter - 1
      && (forall x | x in q.tables && x != t1 :: c.tables[x] == q.tables[x])
      && (forall m | 1 <= m <= 4 :: At(c.tables, base, v, m) == At(q.tables, base, v, m))
  {
    MappedLeaf(q, base, v);
    var c, t1 := ClearLeaf(q, base, v), At(q.tables, base, v, 1).value;
    forall m | 1 <= m <= 4 ensures At(c.tables, base, v, m) == At(q.tables, base, v, m) {
      LeafKeepsWalk(q, c, t1, base, v, m);
    }
  }

  /** A table goes exactly when its last present entry went, and no other table goes. */
  lemma UnmapPageFrees(s: Store, base: Addr, v: nat)
    requires Mapped(s, base, v)
    ensures UnmapPage(s, base, v).tables.Keys
            == Privatised(s, base, v).tables.Keys - Freed(Privatised(s, base, v), base, v)
  {
    hide Valid, ClearLeaf, Privatised, Prune, SameSpaces;
    var q := Privatised(s, base, v);
    ClearLeafOwns(q, base, v);
    ClearLeafTables(q, base, v);
    var c := ClearLeaf(q, base, v);
    PathSlot(q, base, v, 2); PathSlot(q, base, v, 3); PathSlot(q, base, v, 4);
    PathCounters(q, base, v, 2); PathCounters(q, base, v, 3);
    PruneTables(c, base, v, 2); PruneWalk(c, base, v, 2);
    var s1 := Prune(c, base, v, 2);
    PruneTables(s1, base, v, 3); PruneWalk(s1, base, v, 3);
    var s2 := Prune(s1, base, v, 3);
    PruneTables(s2, base, v, 4);
    assert PruneFrom(s2, base, v, 4) == Prune(s2, base, v, 4);
    assert UnmapPage(s, base, v) == Prune(s2, base, v, 4);
  }

  // ------------------------------------------------------------- the range loop

  /** Pages in one third-level entry (1 GiB) and in one second-level entry (2 MiB). */
  const GIB: nat := 262144

  ghost predicate InRange(s: Store, base: Addr, v: nat, i: nat, pages: nat) {
    Valid(s) && IsRoot(s, base) && (i < pages ==> v + (pages - i) <= USER_PAGES)
  }

  /** The loop from page v, with i pages already accounted for.  An absent root entry ends all
      effect: the loop goes on reading that same entry.  An absent third-level entry advances
      the account by 512 pages more than the page number. */
  ghost function UnmapFrom(s: Store, base: Addr, v: nat, i: nat, pages: nat): Store
    requires InRange(s, base, v, i, pages)
    decreases pages - i
  {
    if i >= pages || At(s.tables, base, v, 3).None? then s
    else if At(s.tables, base, v, 2).None? then
      UnmapFrom(s, base, (v / GIB + 1) * GIB, i + (512 - Index(2, v)) * 512 + (512 - Index(1, v)), pages)
    else if At(s.tables, base, v, 1).None? then
      UnmapFrom(s, base, (v / 512 + 1) * 512, i + (512 - Index(1, v)), pages)
    else if Translate(s, base, v).Some? then
      UnmapPageRemoves(s, base, v);
      assert RemovedAt(s, UnmapPage(s, base, v), base, v, base, v);
      UnmapFrom(UnmapPage(s, base, v), base, v + 1, i + 1, pages)
    else UnmapFrom(s, base, v + 1, i + 1, pages)
  }
}
