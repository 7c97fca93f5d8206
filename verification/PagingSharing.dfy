/** Who sees a mapping: which tables one request leaves shared, for every valid store. */
module PagingSharing {
  import opened Options
  import opened PagingStore
  import opened PagingMap

  // ----------------------------------------------------------- walks across one step

  /** The table behind entry k of y. */
  function Next(tb: map<Addr, Table>, y: Addr, k: nat): Option<Addr> {
    if y in tb && |tb[y].entries| == 512 && k < 512 && IsPresent(tb[y].entries[k]) then Some(tb[y].entries[k].addr) else None
  }

  lemma WalkNext(tb: map<Addr, Table>, x: Addr, v: nat, j: nat)
    requires 1 <= j < 4
    ensures At(tb, x, v, j) == if At(tb, x, v, j + 1).Some? then Next(tb, At(tb, x, v, j + 1).value, Index(j + 1, v)) else None
  {
  }

  lemma SplitNext(tb: map<Addr, Table>, tb': map<Addr, Table>, t: Addr, i: nat, p: Addr, y: Addr, k: nat)
    requires Shaped(tb) && t in tb && i < 512 && Split(tb, tb', t, i, p) && y in tb && k < 512
    ensures Next(tb', t, i) == Some(p) && Next(tb, t, i) == Some(tb[t].entries[i].addr)
    ensures !(y == t && k == i) ==> Next(tb', y, k) == Next(tb, y, k)
    ensures y == tb[t].entries[i].addr ==> Next(tb', p, k) == Next(tb, y, k)
  {
    assert !(y == t && k == i) ==> SameTarget(tb[y].entries[k], tb'[y].entries[k]);
    assert y == tb[t].entries[i].addr ==> SameTarget(tb[y].entries[k], tb'[p].entries[k]);
  }

  lemma {:induction false} SplitWalk(s: Store, tb': map<Addr, Table>, t: Addr, i: nat, p: Addr, x: Addr, v: nat, n: nat, j: nat)
    requires Valid(s) && IsRoot(s, x) && v < USER_PAGES && 1 <= j <= 4 && 2 <= n <= 4 && i < 512
    requires t in s.tables && s.tables[t].level == n && Split(s.tables, tb', t, i, p)
    ensures At(tb', x, v, j) == if j == n - 1 && At(s.tables, x, v, n) == Some(t) && Index(n, v) == i then Some(p)
                                else At(s.tables, x, v, j)
    decreases 4 - j
  {
    hide Linked, Tallied, Counted, Placed, Index, Split, Next;
    if j < 4 {
      SplitWalk(s, tb', t, i, p, x, v, n, j + 1);
      WalkStays(s, x, v, j + 1);
      WalkNext(s.tables, x, v, j); WalkNext(tb', x, v, j);
      SplitNext(s.tables, tb', t, i, p, t, i);
      if j + 1 == n - 1 { WalkNext(s.tables, x, v, j + 1); }
      var a := At(s.tables, x, v, j + 1);
      if a.Some? { SplitNext(s.tables, tb', t, i, p, a.value, Index(j + 1, v)); }
    }
  }

  lemma {:induction false} GrowWalk(s: Store, t: Addr, i: nat, p: Addr, flags: Flags, x: Addr, v: nat, n: nat, j: nat)
    requires Valid(s) && IsRoot(s, x) && v < USER_PAGES && 1 <= j <= 4 && 2 <= n <= 4 && i < 512 && p !in s.tables
    requires t in s.tables && s.tables[t].level == n && !IsPresent(s.tables[t].entries[i]) && Present in flags
    ensures At(GrowTables(s.tables, t, i, p, flags), x, v, j)
         == if j == n - 1 && At(s.tables, x, v, n) == Some(t) && Index(n, v) == i then Some(p) else At(s.tables, x, v, j)
    decreases 4 - j
  {
    hide Linked, Tallied, Counted, Placed, Index;
    if j < 4 {
      GrowWalk(s, t, i, p, flags, x, v, n, j + 1);
      WalkStays(s, x, v, j + 1);
    }
  }

  lemma {:induction false} RetagWalk(tb: map<Addr, Table>, tb': map<Addr, Table>, x: Addr, v: nat, j: nat)
    requires Retagged(tb, tb') && 1 <= j <= 4
    ensures At(tb', x, v, j) == At(tb, x, v, j)
    decreases 4 - j
  {
    hide Index;
    if j < 4 {
      RetagWalk(tb, tb', x, v, j + 1);
      var a := At(tb, x, v, j + 1);
      if a.Some? && a.value in tb {
        assert SameTarget(tb[a.value].entries[Index(j + 1, v)], tb'[a.value].entries[Index(j + 1, v)]);
      }
    }
  }

  /** The step copies the table behind the entry. */
  ghost predicate Parts(s: Store, t: Addr, i: nat, f: Flags, actions: Actions)
    requires t in s.tables && i < |s.tables[t].entries|
  {
    var e := s.tables[t].entries[i];
    && IsPresent(e) && (Writable in MergedFlags(e.flags, f, actions) || actions.copyAll)
    && e.addr in s.refs && s.refs[e.addr] != 1
  }

  /** One step of `ensure` leads the walks that pass its entry to a new table, if it makes one, and leaves all
      other walks and everything above and below as they were. */
  lemma StepWalks(q: Store, t: Addr, i: nat, f: Flags, actions: Actions, x: Addr, v: nat, n: nat, j: nat)
    requires Slot(q, t, i) && Present in f && BigPage !in f && IsRoot(q, x) && v < USER_PAGES
    requires q.tables[t].level == n && 1 <= j <= 4
    ensures var r := EnsureSingle(q, t, i, f, actions);
      At(r.tables, x, v, j) ==
        if j == n - 1 && At(q.tables, x, v, n) == Some(t) && Index(n, v) == i
           && (!IsPresent(q.tables[t].entries[i]) || Parts(q, t, i, f, actions))
        then Some(Fresh(q)) else At(q.tables, x, v, j)
  {
    hide Index;
    var e := q.tables[t].entries[i];
    if !IsPresent(e) {
      GrowWalk(q, t, i, Fresh(q), f, x, v, n, j);
    } else {
      var m := MergedFlags(e.flags, f, actions);
      if Parts(q, t, i, f, actions) {
        UnshareSplits(q.tables, t, i, Fresh(q), m);
        SplitWalk(q, UnshareTables(q.tables, t, i, Fresh(q), m), t, i, Fresh(q), x, v, n, j);
      } else if Writable in m || actions.copyAll {
        SetFlagsRetags(q.tables, t, i, m);
        RetagWalk(q.tables, SetEntry(q.tables, t, i, Entry(e.addr, m)), x, v, j);
      }
    }
  }

  // ------------------------------------------------------------- below one step

  lemma NoneFar(s: Store, c: Addr, y: Addr)
    requires Valid(s) && c in s.tables && y in s.tables && 1 < s.tables[c].level < 4 && s.tables[y].level != s.tables[c].level - 1
    ensures Occurrences(s.tables[c].entries, y) == 0
  {
    assert forall j | 0 <= j < 512 :: !Points(s.tables[c].entries[j], y);
    assert (set j | 0 <= j < |s.tables[c].entries| && Points(s.tables[c].entries[j], y)) == {};
  }

  /** A table two levels below the entry of a step keeps its contents; only a copying step touches the table behind
      the entry or the references one level further down. */
  lemma StepBelow(q: Store, t: Addr, i: nat, f: Flags, actions: Actions, y: Addr)
    requires Slot(q, t, i) && Present in f && BigPage !in f && y in q.tables && q.tables[y].level < q.tables[t].level
    ensures var r := EnsureSingle(q, t, i, f, actions); var parts := Parts(q, t, i, f, actions); var n := q.tables[t].level;
      && y in r.tables && y in q.refs && y in r.refs
      && (q.tables[y].level < n - 1 || !parts ==> r.tables[y] == q.tables[y])
      && (q.tables[y].level < n - 2 || !parts ==> r.refs[y] == q.refs[y])
  {
    var e := q.tables[t].entries[i];
    if Parts(q, t, i, f, actions) {
      var c := e.addr;
      if q.tables[c].level > 1 && q.tables[y].level != q.tables[c].level - 1 { NoneFar(q, c, y); }
    }
  }

  /** The new table behind a copied entry cannot be written through. */
  lemma CopyIsReadOnly(q: Store, t: Addr, i: nat, f: Flags, actions: Actions, k: nat)
    requires Slot(q, t, i) && Present in f && BigPage !in f && Parts(q, t, i, f, actions) && k < 512
    ensures var r := EnsureSingle(q, t, i, f, actions);
      && Fresh(q) in r.tables && |r.tables[Fresh(q)].entries| == 512
      && Writable !in r.tables[Fresh(q)].entries[k].flags
  {
  }

  // ---------------------------------------------------------- the read-only request

  /** Walks that meet stay together below. */
  lemma {:induction false} Together(tb: map<Addr, Table>, a: Addr, b: Addr, v: nat, k: nat, m: nat)
    requires m <= k <= 4 && At(tb, a, v, k) == At(tb, b, v, k)
    ensures At(tb, a, v, m) == At(tb, b, v, m)
    decreases k - m
  {
    if m < k { Together(tb, a, b, v, k, m + 1); }
  }

  /** The walks of page v from both roots come to the same table at level m. */
  ghost predicate Meet(s: Store, base: Addr, o: Addr, v: nat, m: nat) {
    At(s.tables, base, v, m).Some? && At(s.tables, o, v, m) == At(s.tables, base, v, m)
  }

  /** A read-only request of `base` for page v copies the table behind its level-n entry: that entry grants write
      access the request does not ask for, its flags have to change, the table is shared, and the copy
      one level up has not just taken write access away from the entry. */
  ghost predicate Copies(s: Store, base: Addr, v: nat, f: Flags, actions: Actions, n: nat)
    requires 2 <= n <= 4
    decreases 4 - n
  {
    && At(s.tables, base, v, n).Some?
    && var t := At(s.tables, base, v, n).value;
    && t in s.tables && Index(n, v) < |s.tables[t].entries| && Parts(s, t, Index(n, v), f, actions)
    && !(n < 4 && Copies(s, base, v, f, actions, n + 1))
  }

  /** Some table on both walks is not copied. */
  ghost predicate StaysShared(s: Store, base: Addr, o: Addr, v: nat, f: Flags, actions: Actions, n: nat) {
    exists m | 1 <= m < n <= 4 :: Meet(s, base, o, v, m) && !Copies(s, base, v, f, actions, m + 1)
  }

  /** Before the step at level n the walks are apart; what lies below is as it was at the start. */
  ghost predicate Apart(s: Store, q: Store, base: Addr, o: Addr, v: nat, f: Flags, actions: Actions, n: nat) {
    && 2 <= n <= 4 && Valid(q) && IsRoot(q, base) && IsRoot(q, o)
    && At(q.tables, base, v, n).Some? && At(q.tables, base, v, n) != At(q.tables, o, v, n)
    && (forall j | 1 <= j < n :: At(q.tables, base, v, j) == At(s.tables, base, v, j) && At(q.tables, o, v, j) == At(s.tables, o, v, j))
    && (forall j | 1 <= j < n && At(s.tables, base, v, j).Some? ::
          Kept(s, q, At(s.tables, base, v, j).value, j < n - 1 || !(n < 4 && Copies(s, base, v, f, actions, n + 1))))
    && (At(s.tables, base, v, n - 1).Some? ==>
          SameEntry(s, q, base, v, n, n < 4 && Copies(s, base, v, f, actions, n + 1)))
  }

  ghost predicate Kept(s: Store, q: Store, y: Addr, refs: bool) {
    && y in s.tables && y in q.tables && y in s.refs && y in q.refs && q.tables[y] == s.tables[y]
    && (refs ==> q.refs[y] == s.refs[y])
  }

  ghost predicate SameEntry(s: Store, q: Store, base: Addr, v: nat, n: nat, cleared: bool)
    requires 1 <= n <= 4
  {
    var a, b, k := At(s.tables, base, v, n), At(q.tables, base, v, n), Index(n, v);
    && a.Some? && b.Some? && a.value in s.tables && b.value in q.tables
    && |s.tables[a.value].entries| == 512 && |q.tables[b.value].entries| == 512
    && (if cleared then Writable !in q.tables[b.value].entries[k].flags
        else q.tables[b.value].entries[k] == s.tables[a.value].entries[k])
  }

  ghost predicate Request(s: Store, base: Addr, o: Addr, v: nat, f: Flags, actions: Actions) {
    MapArgs(s, base, v, f) && IsRoot(s, o) && o != base && Writable !in f && !actions.copyAll
  }

  lemma StartsApart(s: Store, base: Addr, o: Addr, v: nat, f: Flags, actions: Actions)
    requires Request(s, base, o, v, f, actions)
    ensures Apart(s, s, base, o, v, f, actions, 4)
  {
    forall j | 1 <= j < 4 && At(s.tables, base, v, j).Some? ensures Kept(s, s, At(s.tables, base, v, j).value, true) {
      WalkStays(s, base, v, j);
    }
  }

  /** Whether the step copies can be read off the store the request started from. */
  lemma CopiesHere(s: Store, q: Store, base: Addr, o: Addr, v: nat, f: Flags, actions: Actions, n: nat)
    requires Request(s, base, o, v, f, actions) && Apart(s, q, base, o, v, f, actions, n)
    ensures var t := At(q.tables, base, v, n).value;
      && t in q.tables && q.tables[t].level == n && Index(n, v) < |q.tables[t].entries|
      && (Parts(q, t, Index(n, v), f, actions) <==> Copies(s, base, v, f, actions, n))
      && (IsPresent(q.tables[t].entries[Index(n, v)]) <==> At(s.tables, base, v, n - 1).Some?)
      && (IsPresent(q.tables[t].entries[Index(n, v)]) ==>
            Some(q.tables[t].entries[Index(n, v)].addr) == At(s.tables, base, v, n - 1))
  {
    hide Index, Valid;
    WalkStays(q, base, v, n);
    WalkStays(s, base, v, n);
    ShapedAt(q, At(q.tables, base, v, n).value);
    if At(s.tables, base, v, n).Some? { ShapedAt(s, At(s.tables, base, v, n).value); }
    assert At(q.tables, base, v, n - 1) == At(s.tables, base, v, n - 1);
    if At(s.tables, base, v, n - 1).Some? {
      assert Kept(s, q, At(s.tables, base, v, n - 1).value, n - 1 < n - 1 || !(n < 4 && Copies(s, base, v, f, actions, n + 1)));
    }
  }

  lemma ShapedAt(s: Store, t: Addr)
    requires Valid(s) && t in s.tables
    ensures |s.tables[t].entries| == 512
  {
  }

  /** The store after the step at level n of the walk of v. */
  ghost function Step(q: Store, base: Addr, v: nat, f: Flags, actions: Actions, n: nat): Store
    requires MapArgs(q, base, v, f) && 2 <= n <= 4 && At(q.tables, base, v, n).Some?
  {
    EnsureStep(q, base, v, f, actions, n);
    EnsureSingle(q, At(q.tables, base, v, n).value, Index(n, v), f, actions)
  }

  /** Where both walks arrive one level down. */
  lemma StepArrives(s: Store, q: Store, base: Addr, o: Addr, v: nat, f: Flags, actions: Actions, n: nat)
    requires Request(s, base, o, v, f, actions) && Apart(s, q, base, o, v, f, actions, n)
    ensures var r := Step(q, base, v, f, actions, n);
      && At(r.tables, o, v, n - 1) == At(s.tables, o, v, n - 1)
      && At(r.tables, base, v, n - 1).Some?
      && (Copies(s, base, v, f, actions, n) || At(s.tables, base, v, n - 1).None? ==>
            At(r.tables, base, v, n - 1) == Some(Fresh(q)) && At(r.tables, o, v, n - 1) != Some(Fresh(q)))
      && (!Copies(s, base, v, f, actions, n) && At(s.tables, base, v, n - 1).Some? ==>
            At(r.tables, base, v, n - 1) == At(s.tables, base, v, n - 1))
  {
    hide Index, Valid, Kept, SameEntry, Parts, EnsureSingle, Copies;
    var t := At(q.tables, base, v, n).value;
    EnsureStep(q, base, v, f, actions, n);
    CopiesHere(s, q, base, o, v, f, actions, n);
    StepWalks(q, t, Index(n, v), f, actions, base, v, n, n - 1);
    StepWalks(q, t, Index(n, v), f, actions, o, v, n, n - 1);
    WalkStays(q, o, v, n - 1);
  }

  /** The step keeps what lies below it. */
  lemma StepKeepsBelow(s: Store, q: Store, base: Addr, o: Addr, v: nat, f: Flags, actions: Actions, n: nat, j: nat)
    requires Request(s, base, o, v, f, actions) && Apart(s, q, base, o, v, f, actions, n) && 1 <= j < n - 1
    ensures var r := Step(q, base, v, f, actions, n);
      && At(r.tables, base, v, j) == At(s.tables, base, v, j) && At(r.tables, o, v, j) == At(s.tables, o, v, j)
      && (At(s.tables, base, v, j).Some? ==>
            Kept(s, r, At(s.tables, base, v, j).value, j < n - 2 || !Copies(s, base, v, f, actions, n)))
  {
    hide Index, Valid, SameEntry, Parts, EnsureSingle, Copies;
    var t := At(q.tables, base, v, n).value;
    EnsureStep(q, base, v, f, actions, n);
    CopiesHere(s, q, base, o, v, f, actions, n);
    StepWalks(q, t, Index(n, v), f, actions, base, v, n, j);
    StepWalks(q, t, Index(n, v), f, actions, o, v, n, j);
    WalkStays(q, base, v, j);
    if At(s.tables, base, v, j).Some? {
      StepBelow(q, t, Index(n, v), f, actions, At(s.tables, base, v, j).value);
    }
  }

  lemma StepKeepsEntry(s: Store, q: Store, base: Addr, o: Addr, v: nat, f: Flags, actions: Actions, n: nat)
    requires Request(s, base, o, v, f, actions) && Apart(s, q, base, o, v, f, actions, n) && 3 <= n
    requires At(s.tables, base, v, n - 1).Some?
    ensures SameEntry(s, Step(q, base, v, f, actions, n), base, v, n - 1, Copies(s, base, v, f, actions, n))
  {
    hide Index, Valid, Parts, EnsureSingle, Copies;
    var t := At(q.tables, base, v, n).value;
    var c := At(s.tables, base, v, n - 1).value;
    EnsureStep(q, base, v, f, actions, n);
    CopiesHere(s, q, base, o, v, f, actions, n);
    StepArrives(s, q, base, o, v, f, actions, n);
    WalkStays(s, base, v, n - 1);
    WalkStays(q, base, v, n - 1);
    ShapedAt(s, c);
    if Copies(s, base, v, f, actions, n) {
      CopyIsReadOnly(q, t, Index(n, v), f, actions, Index(n - 1, v));
    } else {
      StepBelow(q, t, Index(n, v), f, actions, c);
      assert Kept(s, q, c, n - 1 < n - 1 || !(n < 4 && Copies(s, base, v, f, actions, n + 1)));
    }
  }

  /** The walks part for good unless the step finds and leaves them a common table. */
  lemma StepParts(s: Store, q: Store, base: Addr, o: Addr, v: nat, f: Flags, actions: Actions, n: nat)
    requires Request(s, base, o, v, f, actions) && Apart(s, q, base, o, v, f, actions, n)
    ensures var r := Step(q, base, v, f, actions, n);
      && (At(r.tables, base, v, n - 1) == At(r.tables, o, v, n - 1) <==>
          Meet(s, base, o, v, n - 1) && !Copies(s, base, v, f, actions, n))
      && (n > 2 && At(r.tables, base, v, n - 1) != At(r.tables, o, v, n - 1) ==> Apart(s, r, base, o, v, f, actions, n - 1))
  {
    hide Index, Valid, SameEntry, Kept, EnsureSingle, Copies, SameMeaning;
    var r := Step(q, base, v, f, actions, n);
    EnsureStep(q, base, v, f, actions, n);
    WalkStays(q, base, v, n);
    StepArrives(s, q, base, o, v, f, actions, n);
    if n > 2 && At(r.tables, base, v, n - 1) != At(r.tables, o, v, n - 1) {
      forall j | 1 <= j < n - 1
        ensures At(r.tables, base, v, j) == At(s.tables, base, v, j) && At(r.tables, o, v, j) == At(s.tables, o, v, j)
        ensures At(s.tables, base, v, j).Some? ==>
                  Kept(s, r, At(s.tables, base, v, j).value, j < n - 2 || !Copies(s, base, v, f, actions, n))
      {
        StepKeepsBelow(s, q, base, o, v, f, actions, n, j);
      }
      if At(s.tables, base, v, n - 2).Some? {
        StepKeepsEntry(s, q, base, o, v, f, actions, n);
      }
    }
  }

  /** Walks that have met stay together under the remaining steps. */
  lemma {:induction false} MetStayTogether(s: Store, base: Addr, o: Addr, v: nat, f: Flags, actions: Actions, k: nat)
    requires Request(s, base, o, v, f, actions) && k <= 3
    requires var q := EnsureSteps(s, base, v, f, actions, k);
      IsRoot(q, o) && At(q.tables, base, v, 4 - k) == At(q.tables, o, v, 4 - k)
    ensures var r := Ensure(s, base, v, f, actions); At(r.tables, base, v, 1) == At(r.tables, o, v, 1)
    decreases 3 - k
  {
    hide Index, Valid, EnsureSingle, SameMeaning;
    if k < 3 {
      var q := EnsureSteps(s, base, v, f, actions, k);
      var n := 4 - k;
      EnsureStep(q, base, v, f, actions, n);
      WalkStays(q, base, v, n);
      var t := At(q.tables, base, v, n).value;
      var r := EnsureSteps(s, base, v, f, actions, k + 1);
      KeepsWalkTo(q, r, o, v, t, Index(n, v), n, n);
      Together(r.tables, base, o, v, n, n - 1);
      MetStayTogether(s, base, o, v, f, actions, k + 1);
    }
  }

  /** A read-only request ends in a leaf table the other space walks to as well, exactly if both
      walked to some common table that none of its steps copied. */
  lemma {:induction false} LeafStaysShared(s: Store, base: Addr, o: Addr, v: nat, f: Flags, actions: Actions, n: nat)
    requires Request(s, base, o, v, f, actions) && 2 <= n <= 4
    requires Apart(s, EnsureSteps(s, base, v, f, actions, 4 - n), base, o, v, f, actions, n)
    ensures var r := Ensure(s, base, v, f, actions);
      At(r.tables, base, v, 1) == At(r.tables, o, v, 1) <==> StaysShared(s, base, o, v, f, actions, n)
  {
    hide Valid, EnsureSingle, SameMeaning, Apart, Copies, Meet;
    var q := EnsureSteps(s, base, v, f, actions, 4 - n);
    StepParts(s, q, base, o, v, f, actions, n);
    var r := EnsureSteps(s, base, v, f, actions, 5 - n);
    assert r == Step(q, base, v, f, actions, n);
    StepRoots(s, q, base, o, v, f, actions, n);
    if At(r.tables, base, v, n - 1) == At(r.tables, o, v, n - 1) {
      MetStayTogether(s, base, o, v, f, actions, 5 - n);
    } else if n > 2 {
      LeafStaysShared(s, base, o, v, f, actions, n - 1);
    }
  }

  lemma StepRoots(s: Store, q: Store, base: Addr, o: Addr, v: nat, f: Flags, actions: Actions, n: nat)
    requires Request(s, base, o, v, f, actions) && Apart(s, q, base, o, v, f, actions, n)
    ensures IsRoot(Step(q, base, v, f, actions, n), o)
  {
    hide Index, Valid, SameEntry, Kept, EnsureSingle, Copies, SameMeaning;
    EnsureStep(q, base, v, f, actions, n);
    WalkStays(q, base, v, n);
  }

  /** Mapping one page is seen by another space at no other page, and at that page exactly if the
      request is read-only, keeps a common table and brings another frame. */
  lemma PageIsolationExactly(s: Store, base: Addr, o: Addr, v: nat, frame: Addr, flags: Flags, actions: Actions, w: nat)
    requires MapArgs(s, base, v, flags + {Present}) && IsRoot(s, o) && o != base && w < USER_PAGES
    ensures SameAt(s, MapTo(s, base, v, [frame], flags, actions), o, w)
       <==> || w != v || Writable in flags || actions.copyAll || Translate(s, o, v) == Some(frame)
            || !StaysShared(s, base, o, v, flags + {Present}, actions, 4)
  {
    hide Valid, WriteLeaf, Ensure, StaysShared;
    var f := flags + {Present};
    EnsureTranslates(s, base, v, f, actions);
    var q := Ensure(s, base, v, f, actions);
    assert SameAt(s, q, o, w) && SameAt(s, q, o, v);
    WriteLeafSeen(q, base, v, Entry(frame, f), o, w);
    if Writable in flags || actions.copyAll {
      MapToIsolates(s, base, v, [frame], flags, actions);
    } else {
      StartsApart(s, base, o, v, f, actions);
      LeafStaysShared(s, base, o, v, f, actions, 4);
    }
  }

  // ------------------------------------------------- private pages stay private

  /** A table whose only parent is not copied gains no reference. */
  lemma NotCopied(q: Store, c: Addr, x: Addr, p: Addr, j: nat)
    requires Valid(q) && c in q.tables && 1 < q.tables[c].level < 4 && Unshared(q, Some(x)) && x in q.tables && q.tables[x].level < 4
    requires p in q.tables && p != c && q.tables[p].level > 1 && j < Limit(q.tables[p].level) && Points(q.tables[p].entries[j], x)
    ensures Occurrences(q.tables[c].entries, x) == 0
  {
    forall k: nat | k < 512 ensures !Points(q.tables[c].entries[k], x) {
      if Points(q.tables[c].entries[k], x) { OneParent(q, x, p, j, c, k); }
    }
    assert (set k | 0 <= k < |q.tables[c].entries| && Points(q.tables[c].entries[k], x)) == {};
  }

  /** A step changes the references of a table it copies and of those the copy points at, no others. */
  lemma StepReferences(q: Store, t: Addr, i: nat, f: Flags, actions: Actions, x: Addr)
    requires Slot(q, t, i) && x in q.refs
    requires Parts(q, t, i, f, actions) ==>
      var c := q.tables[t].entries[i].addr;
      c in q.tables && x != c && (q.tables[c].level > 1 ==> Occurrences(q.tables[c].entries, x) == 0)
    ensures var r := EnsureSingle(q, t, i, f, actions); x in r.refs && r.refs[x] == q.refs[x]
  {
    hide Tallied, Placed;
  }

  /** One step for any page leaves a private table of the walk of w private. */
  lemma StepKeepsTable(q: Store, t: Addr, i: nat, f: Flags, actions: Actions, base: Addr, w: nat, k: nat)
    requires Slot(q, t, i) && Present in f && BigPage !in f && IsRoot(q, base) && w < USER_PAGES
    requires OwnPath(q, base, w) && 1 <= k <= 3
    ensures Unshared(EnsureSingle(q, t, i, f, actions), At(q.tables, base, w, k))
  {
    hide Index, Valid, EnsureSingle;
    assert Unshared(q, At(q.tables, base, w, k));
    WalkStays(q, base, w, k);
    WalkStays(q, base, w, k + 1);
    var x, p := At(q.tables, base, w, k).value, At(q.tables, base, w, k + 1).value;
    SlotLevel(q, t, i);
    if Parts(q, t, i, f, actions) {
      var c := q.tables[t].entries[i].addr;
      EntryBelow(q, t, i);
      assert k < 3 ==> Unshared(q, At(q.tables, base, w, k + 1));
      if q.tables[c].level > 1 { NotCopied(q, c, x, p, Index(k + 1, w)); }
    }
    StepReferences(q, t, i, f, actions, x);
  }

  lemma EntryBelow(q: Store, t: Addr, i: nat)
    requires Slot(q, t, i) && IsPresent(q.tables[t].entries[i])
    ensures var c := q.tables[t].entries[i].addr; c in q.tables && q.tables[c].level == q.tables[t].level - 1
  {
  }

  lemma StepKeepsPath(q: Store, t: Addr, i: nat, f: Flags, actions: Actions, base: Addr, w: nat)
    requires Slot(q, t, i) && Present in f && BigPage !in f && IsRoot(q, base) && w < USER_PAGES && OwnPath(q, base, w)
    ensures OwnPath(EnsureSingle(q, t, i, f, actions), base, w)
  {
    hide Index, Valid, EnsureSingle;
    var r := EnsureSingle(q, t, i, f, actions);
    var n := q.tables[t].level;
    forall k | 1 <= k <= 3 ensures Unshared(r, At(r.tables, base, w, k)) {
      assert Unshared(q, At(q.tables, base, w, k));
      SlotLevel(q, t, i);
      StepWalks(q, t, i, f, actions, base, w, n, k);
      StepKeepsTable(q, t, i, f, actions, base, w, k);
    }
  }

  lemma SlotLevel(q: Store, t: Addr, i: nat)
    requires Slot(q, t, i)
    ensures 2 <= q.tables[t].level <= 4 && |q.tables[t].entries| == 512
  {
  }

  lemma {:induction false} EnsureKeepsPath(s: Store, base: Addr, v: nat, f: Flags, actions: Actions, k: nat, w: nat)
    requires MapArgs(s, base, v, f) && k <= 3 && w < USER_PAGES && OwnPath(s, base, w)
    ensures OwnPath(EnsureSteps(s, base, v, f, actions, k), base, w)
  {
    hide Valid, SameMeaning, KeepsAbove, EnsureSingle, OwnPath;
    if k > 0 {
      var q := EnsureSteps(s, base, v, f, actions, k - 1);
      EnsureKeepsPath(s, base, v, f, actions, k - 1, w);
      EnsureStep(q, base, v, f, actions, 5 - k);
      StepKeepsPath(q, At(q.tables, base, v, 5 - k).value, Index(5 - k, v), f, actions, base, w);
    }
  }

  lemma LeafKeepsPath(s: Store, base: Addr, v: nat, frame: Addr, f: Flags, w: nat)
    requires Reachable(s, base, v, f) && w < USER_PAGES && OwnPath(s, base, w)
    ensures OwnPath(MapLeaf(s, base, v, frame, f), base, w)
  {
    hide Valid, Index;
    WalkStays(s, base, v, 1);
    var r := MapLeaf(s, base, v, frame, f);
    forall k | 1 <= k <= 3 ensures Unshared(r, At(r.tables, base, w, k)) {
      assert Unshared(s, At(s.tables, base, w, k));
      LeafKeepsWalk(s, r, At(s.tables, base, v, 1).value, base, w, k);
    }
  }

  lemma {:induction false} MapFromKeepsPath(s: Store, base: Addr, v: nat, frames: seq<Addr>, f: Flags, actions: Actions, w: nat)
    requires Reachable(s, base, v, f) && v + |frames| <= USER_PAGES && w < USER_PAGES && OwnPath(s, base, w)
    ensures OwnPath(MapFrom(s, base, v, frames, f, actions), base, w)
    decreases |frames|
  {
    hide Valid, MapLeaf, OwnPath, EnsureSteps;
    if frames != [] {
      var s1 := MapLeaf(s, base, v, frames[0], f);
      LeafKeepsPath(s, base, v, frames[0], f, w);
      if |frames| > 1 {
        Advances(s, base, v, frames[0], f, actions);
        EnsureKeepsPath(s1, base, v + 1, f, actions, 3, w);
        MapFromKeepsPath(Advance(s1, base, v + 1, f, actions), base, v + 1, frames[1..], f, actions, w);
      }
    }
  }

  lemma {:induction false} MapFromOwns(s: Store, base: Addr, v: nat, frames: seq<Addr>, f: Flags, actions: Actions, w: nat)
    requires Reachable(s, base, v, f) && v + |frames| <= USER_PAGES && v <= w < v + |frames|
    requires OwnPath(s, base, v) && (Writable in f || actions.copyAll)
    ensures OwnPath(MapFrom(s, base, v, frames, f, actions), base, w)
    decreases |frames|
  {
    hide Valid, MapLeaf, OwnPath, Advance;
    if w == v {
      MapFromKeepsPath(s, base, v, frames, f, actions, w);
    } else {
      var s1 := MapLeaf(s, base, v, frames[0], f);
      Advances(s, base, v, frames[0], f, actions);
      AdvanceOwns(s, base, v, frames[0], f, actions);
      MapFromOwns(Advance(s1, base, v + 1, f, actions), base, v + 1, frames[1..], f, actions, w);
    }
  }

  /** After a writable mapping, or one that copies everything, every page of the range is reached
      through tables of its space alone, and so is every page that was before. */
  lemma MapToOwns(s: Store, base: Addr, v: nat, frames: seq<Addr>, flags: Flags, actions: Actions, w: nat)
    requires MapArgs(s, base, v, flags + {Present}) && v + |frames| <= USER_PAGES && w < USER_PAGES
    requires || OwnPath(s, base, w)
             || (v <= w < v + |frames| && (Writable in flags || actions.copyAll))
    ensures OwnPath(MapTo(s, base, v, frames, flags, actions), base, w)
  {
    hide Valid, EnsureSteps, MapFrom, OwnPath;
    var f := flags + {Present};
    EnsureTranslates(s, base, v, f, actions);
    var q := Ensure(s, base, v, f, actions);
    if OwnPath(s, base, w) {
      EnsureKeepsPath(s, base, v, f, actions, 3, w);
      MapFromKeepsPath(q, base, v, frames, f, actions, w);
    } else {
      EnsureUnshares(s, base, v, f, actions);
      MapFromOwns(q, base, v, frames, f, actions, w);
    }
  }
}
