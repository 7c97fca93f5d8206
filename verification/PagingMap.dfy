/** Mapping pages: `ensure`, `map_to` and `map` as functions on the store, and what
    they mean for the address space they work on and for every other one. */
module PagingMap {
  import opened Options
  import opened PagingStore

  // --------------------------------------------------------- walks and positions

  lemma {:induction false} WalkStays(s: Store, base: Addr, v: nat, k: nat)
    requires Valid(s) && IsRoot(s, base) && v < USER_PAGES && 1 <= k <= 4
    ensures At(s.tables, base, v, k).Some? ==>
              var t := At(s.tables, base, v, k).value; t in s.tables && s.tables[t].level == k
    decreases 4 - k
  {
    hide Tallied, Counted, Placed, Index;
    if k < 4 { WalkStays(s, base, v, k + 1); }
  }

  /** A walk reads the translation out of the table it arrives at. */
  lemma {:induction false} LookupFrom(s: Store, base: Addr, v: nat, k: nat)
    requires Valid(s) && IsRoot(s, base) && v < USER_PAGES && 1 <= k <= 4
    ensures Translate(s, base, v) == match At(s.tables, base, v, k)
                                     case None => None
                                     case Some(t) => Lookup(s.tables, t, k, v)
    decreases 4 - k
  {
    hide Linked, Tallied, Counted, Placed, Index;
    if k < 4 {
      LookupFrom(s, base, v, k + 1);
      WalkStays(s, base, v, k + 1);
    }
  }

  function Prefix(v: nat, k: nat): nat {
    match k
    case 0 => v
    case 1 => v / 512
    case 2 => v / 262144
    case 3 => v / 134217728
    case _ => 0
  }

  lemma PrefixStep(v: nat, k: nat)
    requires v < USER_PAGES && k < 4
    ensures Prefix(v, k) == Prefix(v, k + 1) * 512 + Index(k + 1, v)
  {
  }

  /** The table a walk visits serves the walked page's own prefix. */
  lemma {:induction false} WalkPlace(s: Store, base: Addr, v: nat, k: nat)
    requires Valid(s) && IsRoot(s, base) && v < USER_PAGES && 1 <= k <= 4
    ensures At(s.tables, base, v, k).Some? ==>
              At(s.tables, base, v, k).value in s.place && s.place[At(s.tables, base, v, k).value] == Prefix(v, k)
    decreases 4 - k
  {
    assert Prefix(v, 4) == 0;
    hide Tallied, Counted, Prefix, Index;
    if k < 4 {
      WalkPlace(s, base, v, k + 1);
      WalkStays(s, base, v, k + 1);
      PrefixStep(v, k);
    }
  }

  /** Page v of `base` is reached through tables nobody else points at. */
  ghost predicate OwnPath(s: Store, base: Addr, v: nat) {
    OwnFrom(s, base, v, 1)
  }

  ghost predicate OwnFrom(s: Store, base: Addr, v: nat, n: nat) {
    forall k | n <= k <= 3 :: Unshared(s, At(s.tables, base, v, k))
  }

  ghost predicate Unshared(s: Store, x: Option<Addr>) {
    x.Some? && x.value in s.refs && s.refs[x.value] == 1
  }

  lemma OneParent(s: Store, x: Addr, p: Addr, i: nat, q: Addr, j: nat)
    requires Valid(s) && x in s.tables && s.tables[x].level < 4 && Unshared(s, Some(x))
    requires p in s.tables && s.tables[p].level > 1 && i < Limit(s.tables[p].level) && Points(s.tables[p].entries[i], x)
    requires q in s.tables && s.tables[q].level > 1 && j < Limit(s.tables[q].level) && Points(s.tables[q].entries[j], x)
    ensures p == q && i == j
  {
    assert (p, i as int) in Parents(s.tables, x) && (q, j as int) in Parents(s.tables, x);
    OnlyOne(Parents(s.tables, x), (p, i as int), (q, j as int));
  }

  /** Walks that meet in a table on an unshared path are walks of the same space. */
  lemma {:induction false} OwnWalk(s: Store, base: Addr, v: nat, o: Addr, w: nat, k: nat)
    requires Valid(s) && IsRoot(s, base) && IsRoot(s, o) && v < USER_PAGES && w < USER_PAGES && 1 <= k <= 4
    requires OwnPath(s, base, v) && At(s.tables, o, w, k) == At(s.tables, base, v, k)
    ensures o == base && Prefix(v, k) == Prefix(w, k)
    decreases 4 - k
  {
    hide Valid;
    if k < 4 {
      WalkStays(s, base, v, k); WalkStays(s, base, v, k + 1); WalkStays(s, o, w, k + 1);
      assert Unshared(s, At(s.tables, base, v, k));
      OneParent(s, At(s.tables, base, v, k).value, At(s.tables, base, v, k + 1).value, Index(k + 1, v),
                At(s.tables, o, w, k + 1).value, Index(k + 1, w));
      OwnWalk(s, base, v, o, w, k + 1);
      PrefixStep(v, k); PrefixStep(w, k);
    }
  }

  // ------------------------------------------------- what an ensure step touches

  lemma NoneBelow(s: Store, c: Addr, x: Addr)
    requires Valid(s) && c in s.tables && x in s.tables && s.tables[c].level < 4
    requires s.tables[x].level >= s.tables[c].level && s.tables[c].level > 1
    ensures Occurrences(s.tables[c].entries, x) == 0
  {
    assert forall j | 0 <= j < 512 :: !Points(s.tables[c].entries[j], x);
    assert (set j | 0 <= j < |s.tables[c].entries| && Points(s.tables[c].entries[j], x)) == {};
  }

  /** Tables at or above the level of t keep their references; all but t keep their entries. */
  ghost predicate KeepsAbove(s: Store, s': Store, t: Addr, i: nat)
    requires t in s.tables
  {
    && (forall x | x in s.tables && s.tables[x].level >= s.tables[t].level ::
          && x in s'.tables && x in s.refs && x in s'.refs && s'.refs[x] == s.refs[x]
          && (x != t ==> s'.tables[x] == s.tables[x]))
    && |s'.tables[t].entries| == |s.tables[t].entries| == 512 && s'.tables[t].level == s.tables[t].level
    && (forall j | 0 <= j < 512 && j != i :: s'.tables[t].entries[j] == s.tables[t].entries[j])
  }

  lemma AboveAt(s: Store, t: Addr, i: nat, flags: Flags, actions: Actions, x: Addr)
    requires Slot(s, t, i) && x in s.tables && s.tables[x].level >= s.tables[t].level
    ensures var s' := EnsureSingle(s, t, i, flags, actions);
      && x in s'.tables && x in s.refs && x in s'.refs && s'.refs[x] == s.refs[x]
      && (x != t ==> s'.tables[x] == s.tables[x])
  {
    hide Tallied, Placed;
    var e := s.tables[t].entries[i];
    if IsPresent(e) && s.tables[e.addr].level > 1 { NoneBelow(s, e.addr, x); }
  }

  lemma EnsureSingleAbove(s: Store, t: Addr, i: nat, flags: Flags, actions: Actions)
    requires Slot(s, t, i) && Present in flags && BigPage !in flags
    ensures KeepsAbove(s, EnsureSingle(s, t, i, flags, actions), t, i)
  {
    var s' := EnsureSingle(s, t, i, flags, actions);
    assert |s'.tables[t].entries| == |s.tables[t].entries| == 512 && s'.tables[t].level == s.tables[t].level;
    assert forall j | 0 <= j < 512 && j != i :: s'.tables[t].entries[j] == s.tables[t].entries[j];
    hide Valid, EnsureSingle;
    forall x | x in s.tables && s.tables[x].level >= s.tables[t].level
      ensures x in s'.tables && x in s.refs && x in s'.refs && s'.refs[x] == s.refs[x] && (x != t ==> s'.tables[x] == s.tables[x])
    {
      AboveAt(s, t, i, flags, actions, x);
    }
  }

  /** The entry leads somewhere afterwards, and to an unshared table when the mapping is writable
      or a copy of everything is asked for. */
  lemma EnsureSingleOwns(s: Store, t: Addr, i: nat, flags: Flags, actions: Actions)
    requires Slot(s, t, i) && Present in flags && BigPage !in flags
    ensures var s' := EnsureSingle(s, t, i, flags, actions);
      && t in s'.tables && |s'.tables[t].entries| == 512
      && IsPresent(s'.tables[t].entries[i])
      && (Writable in flags || actions.copyAll ==>
            s'.tables[t].entries[i].addr in s'.refs && s'.refs[s'.tables[t].entries[i].addr] == 1)
  {
  }

  // ------------------------------------------------------------------- ensure

  ghost predicate MapArgs(s: Store, base: Addr, v: nat, flags: Flags) {
    Valid(s) && IsRoot(s, base) && v < USER_PAGES && Present in flags && BigPage !in flags
  }

  /** One ensure step at level n of the path of v. */
  lemma EnsureStep(q: Store, base: Addr, v: nat, flags: Flags, actions: Actions, n: nat)
    requires MapArgs(q, base, v, flags) && 2 <= n <= 4 && At(q.tables, base, v, n).Some?
    ensures var t := At(q.tables, base, v, n).value;
      && Slot(q, t, Index(n, v))
      && var r := EnsureSingle(q, t, Index(n, v), flags, actions);
      && Valid(r) && SameMeaning(q.tables, r.tables)
      && KeepsAbove(q, r, t, Index(n, v))
      && (forall m | n <= m <= 4 :: At(r.tables, base, v, m) == At(q.tables, base, v, m))
      && At(r.tables, base, v, n - 1).Some?
      && (Writable in flags || actions.copyAll ==> Unshared(r, At(r.tables, base, v, n - 1)))
  {
    WalkStays(q, base, v, n);
    var t := At(q.tables, base, v, n).value;
    var i := Index(n, v);
    EnsureSingleKeeps(q, t, i, flags, actions);
    EnsureSingleAbove(q, t, i, flags, actions);
    EnsureSingleOwns(q, t, i, flags, actions);
    StepKeepsWalk(q, EnsureSingle(q, t, i, flags, actions), base, v, t, i, n);
  }

  /** The first k of the three ensure steps on the path of page v. */
  ghost function EnsureSteps(s: Store, base: Addr, v: nat, flags: Flags, actions: Actions, k: nat): (r: Store)
    requires MapArgs(s, base, v, flags) && k <= 3
    ensures Valid(r) && IsRoot(r, base) && At(r.tables, base, v, 4 - k).Some?
  {
    if k == 0 then s
    else
      var q := EnsureSteps(s, base, v, flags, actions, k - 1);
      EnsureStep(q, base, v, flags, actions, 5 - k);
      EnsureSingle(q, At(q.tables, base, v, 5 - k).value, Index(5 - k, v), flags, actions)
  }

  lemma {:induction false} EnsureStepsKeep(s: Store, base: Addr, v: nat, flags: Flags, actions: Actions, k: nat)
    requires MapArgs(s, base, v, flags) && k <= 3
    ensures SameMeaning(s.tables, EnsureSteps(s, base, v, flags, actions, k).tables)
  {
    if k > 0 {
      var q := EnsureSteps(s, base, v, flags, actions, k - 1);
      EnsureStepsKeep(s, base, v, flags, actions, k - 1);
      EnsureStep(q, base, v, flags, actions, 5 - k);
      MeaningChains(s.tables, q.tables, EnsureSteps(s, base, v, flags, actions, k).tables);
    }
  }

  lemma {:induction false} EnsureStepsOwn(s: Store, base: Addr, v: nat, flags: Flags, actions: Actions, k: nat)
    requires MapArgs(s, base, v, flags) && k <= 3
    requires Writable in flags || actions.copyAll
    ensures OwnFrom(EnsureSteps(s, base, v, flags, actions, k), base, v, 4 - k)
  {
    hide Valid, SameMeaning, KeepsAbove, EnsureSingle;
    if k > 0 {
      var q := EnsureSteps(s, base, v, flags, actions, k - 1);
      EnsureStepsOwn(s, base, v, flags, actions, k - 1);
      EnsureStep(q, base, v, flags, actions, 5 - k);
      WalkStays(q, base, v, 5 - k);
      var t, i := At(q.tables, base, v, 5 - k).value, Index(5 - k, v);
      StepKeepsOwn(q, EnsureSingle(q, t, i, flags, actions), base, v, t, i, 5 - k);
    }
  }

  lemma StepKeepsOwn(s: Store, s': Store, base: Addr, v: nat, t: Addr, i: nat, n: nat)
    requires Valid(s) && IsRoot(s, base) && v < USER_PAGES && 2 <= n <= 4
    requires t in s.tables && s.tables[t].level == n && KeepsAbove(s, s', t, i)
    requires forall m | n <= m <= 4 :: At(s'.tables, base, v, m) == At(s.tables, base, v, m)
    requires OwnFrom(s, base, v, n) && Unshared(s', At(s'.tables, base, v, n - 1))
    ensures OwnFrom(s', base, v, n - 1)
  {
    forall k | n <= k <= 3 ensures Unshared(s', At(s'.tables, base, v, k)) {
      assert Unshared(s, At(s.tables, base, v, k));
      WalkStays(s, base, v, k);
    }
  }

  lemma MeaningChains(a: map<Addr, Table>, b: map<Addr, Table>, c: map<Addr, Table>)
    requires SameMeaning(a, b) && SameMeaning(b, c)
    ensures SameMeaning(a, c)
  {
    forall x, v: nat | x in a && v < USER_PAGES ensures Alike(a, c, x, v) {
      assert Alike(a, b, x, v);
      assert Alike(b, c, x, v);
    }
  }

  /** A step at level n leaves the walk down to level n alone. */
  lemma StepKeepsWalk(s: Store, s': Store, base: Addr, v: nat, t: Addr, i: nat, n: nat)
    requires Valid(s) && IsRoot(s, base) && v < USER_PAGES && 2 <= n <= 4
    requires At(s.tables, base, v, n) == Some(t) && t in s.tables && s.tables[t].level == n
    requires KeepsAbove(s, s', t, i)
    ensures forall m | n <= m <= 4 :: At(s'.tables, base, v, m) == At(s.tables, base, v, m)
  {
    forall m | n <= m <= 4 ensures At(s'.tables, base, v, m) == At(s.tables, base, v, m) {
      KeepsWalkTo(s, s', base, v, t, i, n, m);
    }
  }

  lemma {:induction false} KeepsWalkTo(s: Store, s': Store, base: Addr, v: nat, t: Addr, i: nat, n: nat, m: nat)
    requires Valid(s) && IsRoot(s, base) && v < USER_PAGES && 2 <= n <= m <= 4
    requires t in s.tables && s.tables[t].level == n && KeepsAbove(s, s', t, i)
    ensures At(s'.tables, base, v, m) == At(s.tables, base, v, m)
    decreases 4 - m
  {
    if m < 4 {
      KeepsWalkTo(s, s', base, v, t, i, n, m + 1);
      WalkStays(s, base, v, m + 1);
    }
  }

  ghost function Ensure(s: Store, base: Addr, v: nat, flags: Flags, actions: Actions): Store
    requires MapArgs(s, base, v, flags)
  {
    EnsureSteps(s, base, v, flags, actions, 3)
  }

  /** `ensure` changes no translation of any address space. */
  lemma EnsureTranslates(s: Store, base: Addr, v: nat, flags: Flags, actions: Actions)
    requires MapArgs(s, base, v, flags)
    ensures var r := Ensure(s, base, v, flags, actions);
      && Valid(r) && IsRoot(r, base) && At(r.tables, base, v, 1).Some?
      && SameSpaces(s, r)
  {
    hide Valid, SameMeaning, SameSpaces, EnsureSteps;
    EnsureStepsKeep(s, base, v, flags, actions, 3);
    MeaningOfRoots(s, Ensure(s, base, v, flags, actions));
  }

  /** For a writable mapping, or when everything is to be copied, `ensure` leaves the whole
      path to v unshared. */
  lemma EnsureUnshares(s: Store, base: Addr, v: nat, flags: Flags, actions: Actions)
    requires MapArgs(s, base, v, flags) && (Writable in flags || actions.copyAll)
    ensures OwnPath(Ensure(s, base, v, flags, actions), base, v)
  {
    EnsureStepsOwn(s, base, v, flags, actions, 3);
  }

  lemma MeaningOfRoots(s: Store, r: Store)
    requires SameMeaning(s.tables, r.tables)
    ensures SameSpaces(s, r)
  {
    forall o, w: nat | IsRoot(s, o) && w < USER_PAGES
      ensures SameAt(s, r, o, w) {
      assert Alike(s.tables, r.tables, o, w);
    }
  }

  // ------------------------------------------------------------- writing a leaf

  /** Write an entry of a leaf table; a page that was absent is counted. */
  function WriteLeaf(s: Store, pt: Addr, j: nat, e: Entry): Store
    requires pt in s.tables && j < |s.tables[pt].entries|
  {
    var t := s.tables[pt];
    s.(tables := s.tables[pt := t.(entries := t.entries[j := e],
                                   counter := if IsPresent(t.entries[j]) then t.counter else t.counter + 1)])
  }

  ghost predicate Leaf(s: Store, pt: Addr, j: nat) {
    Valid(s) && pt in s.tables && s.tables[pt].level == 1 && j < 512
  }

  lemma WriteLeafValid(s: Store, pt: Addr, j: nat, e: Entry)
    requires Leaf(s, pt, j) && IsPresent(e) && BigPage !in e.flags
    ensures Valid(WriteLeaf(s, pt, j, e))
  {
    var s' := WriteLeaf(s, pt, j, e);
    if IsPresent(s.tables[pt].entries[j]) {
      SamePresence(s.tables[pt].entries, s'.tables[pt].entries);
    } else {
      PresentAdded(s.tables[pt].entries, j, e);
    }
    LeafChangeValid(s, s', pt);
  }

  /** Replacing one leaf table by another with a right counter keeps the store valid. */
  lemma LeafChangeValid(s: Store, s': Store, pt: Addr)
    requires Valid(s) && pt in s.tables && s.tables[pt].level == 1
    requires s'.tables.Keys == s.tables.Keys && s'.refs == s.refs && s'.place == s.place
    requires forall x | x in s.tables && x != pt :: s'.tables[x] == s.tables[x]
    requires s'.tables[pt].level == 1 && |s'.tables[pt].entries| == 512
    requires s'.tables[pt].counter == PresentCount(s'.tables[pt].entries)
    requires forall j | 0 <= j < 512 :: IsPresent(s'.tables[pt].entries[j]) ==> BigPage !in s'.tables[pt].entries[j].flags
    ensures Valid(s')
  {
    hide Parents;
    LeafChangeLinks(s.tables, s'.tables, pt);
    forall x ensures Parents(s'.tables, x) == Parents(s.tables, x) { LeafChangeParents(s.tables, s'.tables, pt, x); }
    assert Counted(s'.tables, s'.refs);
  }

  /** Entries of a leaf table are nobody's parents. */
  lemma LeafChangeParents(tb: map<Addr, Table>, tb': map<Addr, Table>, pt: Addr, x: Addr)
    requires tb'.Keys == tb.Keys && pt in tb && tb[pt].level == 1 && tb'[pt].level == 1
    requires forall y | y in tb && y != pt :: tb'[y] == tb[y]
    ensures Parents(tb', x) == Parents(tb, x)
  {
  }

  lemma LeafChangeLinks(tb: map<Addr, Table>, tb': map<Addr, Table>, pt: Addr)
    requires Shaped(tb) && Linked(tb) && Tallied(tb) && pt in tb && tb[pt].level == 1 && tb'.Keys == tb.Keys
    requires forall x | x in tb && x != pt :: tb'[x] == tb[x]
    requires tb'[pt].level == 1 && |tb'[pt].entries| == 512 && tb'[pt].counter == PresentCount(tb'[pt].entries)
    requires forall j | 0 <= j < 512 :: IsPresent(tb'[pt].entries[j]) ==> BigPage !in tb'[pt].entries[j].flags
    ensures Shaped(tb') && Linked(tb') && Tallied(tb')
  {
  }

  /** Changes in a leaf table leave every walk as it was. */
  lemma {:induction false} LeafKeepsWalk(s: Store, s': Store, pt: Addr, base: Addr, v: nat, k: nat)
    requires Valid(s) && IsRoot(s, base) && v < USER_PAGES && 1 <= k <= 4
    requires pt in s.tables && s.tables[pt].level == 1 && s'.tables.Keys == s.tables.Keys
    requires forall x | x in s.tables && x != pt :: s'.tables[x] == s.tables[x]
    ensures At(s'.tables, base, v, k) == At(s.tables, base, v, k)
    decreases 4 - k
  {
    hide Valid;
    if k < 4 {
      LeafKeepsWalk(s, s', pt, base, v, k + 1);
      WalkStays(s, base, v, k + 1);
      if At(s.tables, base, v, k + 1).Some? {
        var t := At(s.tables, base, v, k + 1).value;
        assert t != pt && s'.tables[t] == s.tables[t];
      }
    }
  }

  /** Writing the leaf of page v of `base` is seen by exactly those spaces whose walk of that
      very page ends in the same table. */
  lemma WriteLeafSeen(s: Store, base: Addr, v: nat, e: Entry, o: Addr, w: nat)
    requires Valid(s) && IsRoot(s, base) && IsRoot(s, o) && v < USER_PAGES && w < USER_PAGES
    requires At(s.tables, base, v, 1).Some? && IsPresent(e) && BigPage !in e.flags
    ensures var pt := At(s.tables, base, v, 1).value;
      && Leaf(s, pt, Index(1, v))
      && var s' := WriteLeaf(s, pt, Index(1, v), e);
      && Valid(s') && IsRoot(s', o) && At(s'.tables, o, w, 1) == At(s.tables, o, w, 1)
      && Translate(s', o, w) == if w == v && At(s.tables, o, v, 1) == Some(pt) then Some(e.addr) else Translate(s, o, w)
  {
    WalkStays(s, base, v, 1);
    var pt := At(s.tables, base, v, 1).value;
    var s' := WriteLeaf(s, pt, Index(1, v), e);
    WriteLeafValid(s, pt, Index(1, v), e);
    LeafKeepsWalk(s, s', pt, o, w, 1);
    WalkStays(s, o, w, 1);
    LeafLookup(s, s', base, v, e, o, w);
  }

  /** One changed leaf entry is seen at exactly one page, by the walks that end in its table. */
  lemma LeafLookup(s: Store, s': Store, base: Addr, v: nat, e: Entry, o: Addr, w: nat)
    requires Valid(s) && IsRoot(s, base) && IsRoot(s, o) && v < USER_PAGES && w < USER_PAGES
    requires At(s.tables, base, v, 1).Some?
    requires Leaf(s, At(s.tables, base, v, 1).value, Index(1, v))
    requires var pt := At(s.tables, base, v, 1).value;
      && pt in s'.tables && s'.tables[pt].entries == s.tables[pt].entries[Index(1, v) := e]
      && forall x | x in s.tables && x != pt :: x in s'.tables && s'.tables[x] == s.tables[x]
    requires Valid(s') && IsRoot(s', o) && At(s'.tables, o, w, 1) == At(s.tables, o, w, 1)
    ensures Translate(s', o, w) == if w == v && At(s.tables, o, v, 1) == At(s.tables, base, v, 1)
                                   then (if IsPresent(e) then Some(e.addr) else None) else Translate(s, o, w)
  {
    LookupFrom(s, o, w, 1); LookupFrom(s', o, w, 1);
    WalkStays(s, o, w, 1);
    if At(s.tables, o, w, 1) == At(s.tables, base, v, 1) {
      WalkPlace(s, base, v, 1); WalkPlace(s, o, w, 1);
      assert Prefix(v, 1) == Prefix(w, 1);
      PrefixStep(v, 0); PrefixStep(w, 0);
      assert Index(1, w) == Index(1, v) <==> w == v;
    }
  }

  // ------------------------------------------------------------ mapping a range

  /** Pages of one leaf table share their walk. */
  lemma {:induction false} SameWalk(tb: map<Addr, Table>, base: Addr, v: nat, w: nat, k: nat)
    requires v / 512 == w / 512 && 1 <= k <= 4
    ensures At(tb, base, v, k) == At(tb, base, w, k)
    decreases 4 - k
  {
    if k < 4 {
      SameWalk(tb, base, v, w, k + 1);
      assert v / 262144 == v / 512 / 512 && w / 262144 == w / 512 / 512;
      assert v / 134217728 == v / 512 / 262144 && w / 134217728 == w / 512 / 262144;
      assert Index(k + 1, v) == Index(k + 1, w);
    }
  }

  ghost predicate Reachable(s: Store, base: Addr, v: nat, flags: Flags) {
    MapArgs(s, base, v, flags) && At(s.tables, base, v, 1).Some?
  }

  /** One page: write its leaf, its path being in place. */
  ghost function MapLeaf(s: Store, base: Addr, v: nat, frame: Addr, flags: Flags): (r: Store)
    requires Reachable(s, base, v, flags)
    ensures Valid(r) && IsRoot(r, base)
  {
    WriteLeafSeen(s, base, v, Entry(frame, flags), base, v);
    WriteLeaf(s, At(s.tables, base, v, 1).value, Index(1, v), Entry(frame, flags))
  }

  /** Make the path of page v ready after page v - 1 was written: only a carry out of the leaf
      index calls `ensure` again. */
  ghost function Advance(s: Store, base: Addr, v: nat, flags: Flags, actions: Actions): Store
    requires MapArgs(s, base, v, flags)
  {
    if v % 512 == 0 then Ensure(s, base, v, flags, actions) else s
  }

  lemma Advances(s: Store, base: Addr, v: nat, frame: Addr, flags: Flags, actions: Actions)
    requires Reachable(s, base, v, flags) && v + 1 < USER_PAGES
    ensures var s1 := MapLeaf(s, base, v, frame, flags);
      Reachable(Advance(s1, base, v + 1, flags, actions), base, v + 1, flags)
  {
    hide Valid, WriteLeaf;
    var s1 := MapLeaf(s, base, v, frame, flags);
    if (v + 1) % 512 == 0 {
      EnsureTranslates(s1, base, v + 1, flags, actions);
    } else {
      assert v / 512 == (v + 1) / 512;
      SameWalk(s.tables, base, v, v + 1, 1);
      WriteLeafSeen(s, base, v, Entry(frame, flags), base, v + 1);
    }
  }

  ghost function MapFrom(s: Store, base: Addr, v: nat, frames: seq<Addr>, flags: Flags, actions: Actions): (r: Store)
    requires Reachable(s, base, v, flags) && v + |frames| <= USER_PAGES
    ensures Valid(r) && IsRoot(r, base)
    decreases |frames|
  {
    hide Valid, MapLeaf, Advance;
    if frames == [] then s
    else
      var s1 := MapLeaf(s, base, v, frames[0], flags);
      if |frames| == 1 then s1
      else
        Advances(s, base, v, frames[0], flags, actions);
        MapFrom(Advance(s1, base, v + 1, flags, actions), base, v + 1, frames[1..], flags, actions)
  }

  /** `map_to`: frames[i] becomes the frame of page v + i. */
  ghost function MapTo(s: Store, base: Addr, v: nat, frames: seq<Addr>, flags: Flags, actions: Actions): Store
    requires MapArgs(s, base, v, flags + {Present}) && v + |frames| <= USER_PAGES
  {
    var f := flags + {Present};
    EnsureTranslates(s, base, v, f, actions);
    MapFrom(Ensure(s, base, v, f, actions), base, v, frames, f, actions)
  }

  /** r's space `base` is s's with pages v.. overridden by the frames. */
  ghost predicate Overridden(s: Store, r: Store, base: Addr, v: nat, frames: seq<Addr>) {
    forall w: nat | w < USER_PAGES :: OverriddenAt(s, r, base, v, frames, w)
  }

  ghost predicate OverriddenAt(s: Store, r: Store, base: Addr, v: nat, frames: seq<Addr>, w: nat) {
    Translate(r, base, w) == if v <= w < v + |frames| then Some(frames[w - v]) else Translate(s, base, w)
  }

  ghost predicate OthersKept(s: Store, r: Store, base: Addr) {
    forall o, w: nat | IsRoot(s, o) && o != base && w < USER_PAGES :: SameAt(s, r, o, w)
  }

  lemma MapLeafOverrides(s: Store, base: Addr, v: nat, frame: Addr, flags: Flags)
    requires Reachable(s, base, v, flags)
    ensures Overridden(s, MapLeaf(s, base, v, frame, flags), base, v, [frame])
  {
    hide Valid, WriteLeaf;
    var r := MapLeaf(s, base, v, frame, flags);
    forall w: nat | w < USER_PAGES ensures OverriddenAt(s, r, base, v, [frame], w) {
      WriteLeafSeen(s, base, v, Entry(frame, flags), base, w);
    }
  }

  lemma MapLeafIsolated(s: Store, base: Addr, v: nat, frame: Addr, flags: Flags)
    requires Reachable(s, base, v, flags) && OwnPath(s, base, v)
    ensures OthersKept(s, MapLeaf(s, base, v, frame, flags), base)
  {
    hide Valid, WriteLeaf;
    var r := MapLeaf(s, base, v, frame, flags);
    forall o, w: nat | IsRoot(s, o) && o != base && w < USER_PAGES ensures SameAt(s, r, o, w) {
      WriteLeafSeen(s, base, v, Entry(frame, flags), o, w);
      if w == v && At(s.tables, o, v, 1) == At(s.tables, base, v, 1) {
        OwnWalk(s, base, v, o, v, 1);
      }
    }
  }

  /** The path of the next page is unshared too. */
  lemma AdvanceOwns(s: Store, base: Addr, v: nat, frame: Addr, flags: Flags, actions: Actions)
    requires Reachable(s, base, v, flags) && v + 1 < USER_PAGES && OwnPath(s, base, v)
    requires Writable in flags || actions.copyAll
    ensures OwnPath(Advance(MapLeaf(s, base, v, frame, flags), base, v + 1, flags, actions), base, v + 1)
  {
    hide Valid;
    var s1 := MapLeaf(s, base, v, frame, flags);
    if (v + 1) % 512 == 0 {
      EnsureUnshares(s1, base, v + 1, flags, actions);
    } else {
      assert v / 512 == (v + 1) / 512;
      WalkStays(s, base, v, 1);
      var w := v + 1;
      forall k | 1 <= k <= 3 ensures Unshared(s1, At(s1.tables, base, w, k)) {
        SameWalk(s.tables, base, v, w, k);
        LeafKeepsWalk(s, s1, At(s.tables, base, v, 1).value, base, w, k);
        assert Unshared(s, At(s.tables, base, v, k));
      }
    }
  }

  lemma AdvanceKeeps(s: Store, base: Addr, v: nat, flags: Flags, actions: Actions)
    requires MapArgs(s, base, v, flags)
    ensures SameSpaces(s, Advance(s, base, v, flags, actions))
  {
    hide Valid;
    if v % 512 == 0 {
      EnsureTranslates(s, base, v, flags, actions);
    } else {
      forall o, w: nat | IsRoot(s, o) && w < USER_PAGES ensures SameAt(s, s, o, w) { }
    }
  }

  lemma {:induction false} MapFromOverrides(s: Store, base: Addr, v: nat, frames: seq<Addr>, flags: Flags, actions: Actions)
    requires Reachable(s, base, v, flags) && v + |frames| <= USER_PAGES
    ensures Overridden(s, MapFrom(s, base, v, frames, flags, actions), base, v, frames)
    decreases |frames|
  {
    hide Valid, MapLeaf, Advance;
    if frames != [] {
      var r := MapFrom(s, base, v, frames, flags, actions);
      var s1 := MapLeaf(s, base, v, frames[0], flags);
      MapLeafOverrides(s, base, v, frames[0], flags);
      if |frames| == 1 {
        assert frames == [frames[0]];
      } else {
        Advances(s, base, v, frames[0], flags, actions);
        var s2 := Advance(s1, base, v + 1, flags, actions);
        AdvanceKeeps(s1, base, v + 1, flags, actions);
        MapFromOverrides(s2, base, v + 1, frames[1..], flags, actions);
        forall w: nat | w < USER_PAGES ensures OverriddenAt(s, r, base, v, frames, w) {
          assert OverriddenAt(s, s1, base, v, [frames[0]], w);
          assert SameAt(s1, s2, base, w);
          assert OverriddenAt(s2, r, base, v + 1, frames[1..], w);
        }
      }
    }
  }

  lemma {:induction false} MapFromIsolated(s: Store, base: Addr, v: nat, frames: seq<Addr>, flags: Flags, actions: Actions)
    requires Reachable(s, base, v, flags) && v + |frames| <= USER_PAGES && OwnPath(s, base, v)
    requires Writable in flags || actions.copyAll
    ensures OthersKept(s, MapFrom(s, base, v, frames, flags, actions), base)
    decreases |frames|
  {
    hide Valid, MapLeaf, Advance, OwnPath;
    if frames == [] {
      forall o, w: nat | IsRoot(s, o) && o != base && w < USER_PAGES ensures SameAt(s, s, o, w) { }
    } else {
      var r := MapFrom(s, base, v, frames, flags, actions);
      var s1 := MapLeaf(s, base, v, frames[0], flags);
      MapLeafIsolated(s, base, v, frames[0], flags);
      if |frames| > 1 {
        Advances(s, base, v, frames[0], flags, actions);
        var s2 := Advance(s1, base, v + 1, flags, actions);
        AdvanceOwns(s, base, v, frames[0], flags, actions);
        AdvanceKeeps(s1, base, v + 1, flags, actions);
        MapFromIsolated(s2, base, v + 1, frames[1..], flags, actions);
        forall o, w: nat | IsRoot(s, o) && o != base && w < USER_PAGES ensures SameAt(s, r, o, w) {
          assert SameAt(s, s1, o, w);
          assert SameAt(s1, s2, o, w);
          assert SameAt(s2, r, o, w);
        }
      }
    }
  }

  /** `map_to` refines the plain map of the space it works on, whatever the flags. */
  lemma MapToRefines(s: Store, base: Addr, v: nat, frames: seq<Addr>, flags: Flags, actions: Actions)
    requires MapArgs(s, base, v, flags + {Present}) && v + |frames| <= USER_PAGES
    ensures var r := MapTo(s, base, v, frames, flags, actions);
      Valid(r) && Overridden(s, r, base, v, frames)
  {
    hide Valid, Ensure, MapFrom;
    var f := flags + {Present};
    EnsureTranslates(s, base, v, f, actions);
    var q := Ensure(s, base, v, f, actions);
    MapFromOverrides(q, base, v, frames, f, actions);
    var r := MapTo(s, base, v, frames, flags, actions);
    forall w: nat | w < USER_PAGES ensures OverriddenAt(s, r, base, v, frames, w) {
      assert SameAt(s, q, base, w);
      assert OverriddenAt(q, r, base, v, frames, w);
    }
  }

  /** Mapping writable pages, or with a copy of everything, is invisible to every other space. */
  lemma MapToIsolates(s: Store, base: Addr, v: nat, frames: seq<Addr>, flags: Flags, actions: Actions)
    requires MapArgs(s, base, v, flags + {Present}) && v + |frames| <= USER_PAGES
    requires Writable in flags || actions.copyAll
    ensures OthersKept(s, MapTo(s, base, v, frames, flags, actions), base)
  {
    hide Valid, Ensure, MapFrom, OwnPath;
    var f := flags + {Present};
    EnsureTranslates(s, base, v, f, actions);
    EnsureUnshares(s, base, v, f, actions);
    var q := Ensure(s, base, v, f, actions);
    MapFromIsolated(q, base, v, frames, f, actions);
    var r := MapTo(s, base, v, frames, flags, actions);
    forall o, w: nat | IsRoot(s, o) && o != base && w < USER_PAGES ensures SameAt(s, r, o, w) {
      assert SameAt(s, q, o, w);
      assert SameAt(q, r, o, w);
    }
  }
}
