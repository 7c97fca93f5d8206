/** The present-entry counter of a root.  Tables below a root always count exactly; a root does
    until a removal frees one of its tables. */
module PagingCounters {
  import opened Options
  import opened PagingStore
  import opened PagingMap
  import opened PagingUnmap
  import opened PagingSharing
  import opened PagingFork
  import PagingCoverage

  /** How far the counter of a root is ahead of its present entries. */
  ghost function RootGap(s: Store, o: Addr): int
    requires o in s.tables
  {
    s.tables[o].counter - PresentCount(s.tables[o].entries)
  }

  /** The assertion after a new table is hung under entry i of t. */
  ghost predicate CountsMatch(s: Store, t: Addr, i: nat, flags: Flags)
    requires Slot(s, t, i)
  {
    var r := Grow(s, t, i, flags);
    t in r.tables && r.tables[t].counter == PresentCount(r.tables[t].entries)
  }

  lemma GrowGap(s: Store, t: Addr, i: nat, flags: Flags, o: Addr)
    requires Slot(s, t, i) && !IsPresent(s.tables[t].entries[i]) && Present in flags && o in s.tables
    ensures var r := Grow(s, t, i, flags); o in r.tables && RootGap(r, o) == RootGap(s, o)
  {
    PresentAdded(s.tables[t].entries, i, Entry(Fresh(s), flags));
  }

  lemma StepGap(q: Store, t: Addr, i: nat, f: Flags, actions: Actions, o: Addr)
    requires Slot(q, t, i) && Present in f && BigPage !in f && IsRoot(q, o)
    ensures var r := EnsureSingle(q, t, i, f, actions); IsRoot(r, o) && RootGap(r, o) == RootGap(q, o)
  {
    EnsureSingleAbove(q, t, i, f, actions);
    EnsureSingleOwns(q, t, i, f, actions);
    var r := EnsureSingle(q, t, i, f, actions);
    if !IsPresent(q.tables[t].entries[i]) {
      GrowGap(q, t, i, f, o);
    } else if o == t {
      SamePresence(q.tables[t].entries, r.tables[t].entries);
    }
  }

  lemma {:induction false} EnsureGap(s: Store, base: Addr, v: nat, f: Flags, actions: Actions, k: nat, o: Addr)
    requires MapArgs(s, base, v, f) && k <= 3 && IsRoot(s, o)
    ensures var r := EnsureSteps(s, base, v, f, actions, k); IsRoot(r, o) && RootGap(r, o) == RootGap(s, o)
  {
    hide Valid, SameMeaning, KeepsAbove, EnsureSingle, PresentCount;
    if k > 0 {
      var q := EnsureSteps(s, base, v, f, actions, k - 1);
      EnsureGap(s, base, v, f, actions, k - 1, o);
      EnsureStep(q, base, v, f, actions, 5 - k);
      StepGap(q, At(q.tables, base, v, 5 - k).value, Index(5 - k, v), f, actions, o);
    }
  }

  lemma {:induction false} MapFromGap(s: Store, base: Addr, v: nat, frames: seq<Addr>, f: Flags, actions: Actions, o: Addr)
    requires Reachable(s, base, v, f) && v + |frames| <= USER_PAGES && IsRoot(s, o)
    ensures var r := MapFrom(s, base, v, frames, f, actions); IsRoot(r, o) && RootGap(r, o) == RootGap(s, o)
    decreases |frames|
  {
    hide Valid, EnsureSteps, PresentCount;
    if frames != [] {
      WalkStays(s, base, v, 1);
      var s1 := MapLeaf(s, base, v, frames[0], f);
      assert s1.tables[o] == s.tables[o];
      if |frames| > 1 {
        Advances(s, base, v, frames[0], f, actions);
        EnsureGap(s1, base, v + 1, f, actions, 3, o);
        MapFromGap(Advance(s1, base, v + 1, f, actions), base, v + 1, frames[1..], f, actions, o);
      }
    }
  }

  /** Mapping keeps the counters of all roots as exact as they were. */
  lemma MapKeepsRootCounters(s: Store, base: Addr, v: nat, frames: seq<Addr>, flags: Flags, actions: Actions, o: Addr)
    requires MapArgs(s, base, v, flags + {Present}) && v + |frames| <= USER_PAGES && IsRoot(s, o)
    ensures var r := MapTo(s, base, v, frames, flags, actions); IsRoot(r, o) && RootGap(r, o) == RootGap(s, o)
  {
    hide Valid, EnsureSteps, MapFrom;
    var f := flags + {Present};
    EnsureTranslates(s, base, v, f, actions);
    EnsureGap(s, base, v, f, actions, 3, o);
    MapFromGap(Ensure(s, base, v, f, actions), base, v, frames, f, actions, o);
  }

  lemma PruneGap(s: Store, base: Addr, v: nat, n: nat, o: Addr)
    requires 2 <= n <= 4 && Cleared(s, base, v, n - 1) && IsRoot(s, o)
    ensures var r := Prune(s, base, v, n);
      && IsRoot(r, o)
      && RootGap(r, o) == RootGap(s, o) + (if n == 4 && o == base && At(r.tables, base, v, 3).None? then 1 else 0)
      && (n < 4 ==> r.tables[o] == s.tables[o])
  {
    PathSlot(s, base, v, n);
    var t, i := At(s.tables, base, v, n).value, Index(n, v);
    var r := Prune(s, base, v, n);
    if n == 4 && s.tables[s.tables[t].entries[i].addr].counter == 0 {
      PresentRemoved(s.tables[t].entries, i, Entry(s.tables[t].entries[i].addr, {}));
    }
  }

  lemma PrivatisedGap(s: Store, base: Addr, v: nat, o: Addr)
    requires Mapped(s, base, v) && IsRoot(s, o)
    ensures var q := Privatised(s, base, v); IsRoot(q, o) && RootGap(q, o) == RootGap(s, o)
  {
    hide Valid, SameSpaces, PresentCount, EnsureSteps, OwnPath;
    MappedLeaf(s, base, v);
    EnsureGap(s, base, v, LeafFlags(s, base, v), COPY_ALL, 3, o);
  }

  lemma ClearLeafGap(q: Store, base: Addr, v: nat, o: Addr)
    requires Mapped(q, base, v) && IsRoot(q, o)
    ensures var c := ClearLeaf(q, base, v); IsRoot(c, o) && RootGap(c, o) == RootGap(q, o)
  {
    hide Valid, PresentCount;
    MappedLeaf(q, base, v);
  }

  /** Removing a page lets the counter of its root run ahead exactly if it frees the root's table
      of that page; no other root is touched. */
  lemma UnmapMovesRootCounter(s: Store, base: Addr, v: nat, o: Addr)
    requires Mapped(s, base, v) && IsRoot(s, o)
    ensures var r := UnmapPage(s, base, v);
      && IsRoot(r, o)
      && RootGap(r, o) == RootGap(s, o) + (if o == base && At(r.tables, base, v, 3).None? then 1 else 0)
  {
    hide Valid, ClearLeaf, Prune, SameSpaces, PresentCount, Privatised, OwnFrom, At;
    PrivatisedGap(s, base, v, o);
    var q := Privatised(s, base, v);
    ClearLeafOwns(q, base, v);
    ClearLeafGap(q, base, v, o);
    var c := ClearLeaf(q, base, v);
    PruneGap(c, base, v, 2, o);
    var s1 := Prune(c, base, v, 2);
    PruneGap(s1, base, v, 3, o);
    var s2 := Prune(s1, base, v, 3);
    PruneGap(s2, base, v, 4, o);
    assert PruneFrom(s2, base, v, 4) == Prune(s2, base, v, 4);
  }

  // ------------------------------------------------- when a root table is freed

  /** The table of level k on the way to a mapped page has c present entries. */
  ghost predicate CountAt(s: Store, base: Addr, v: nat, k: nat, c: nat) {
    At(s.tables, base, v, k).Some? && At(s.tables, base, v, k).value in s.tables
    && s.tables[At(s.tables, base, v, k).value].counter == c
  }

  lemma StepCounter(q: Store, t: Addr, i: nat, f: Flags, actions: Actions, x: Addr)
    requires Slot(q, t, i) && IsPresent(q.tables[t].entries[i]) && x in q.tables
    ensures var r, e := EnsureSingle(q, t, i, f, actions), q.tables[t].entries[i];
      && x in r.tables && r.tables[x].counter == q.tables[x].counter
      && (Parts(q, t, i, f, actions) ==> e.addr in q.tables && Fresh(q) in r.tables && r.tables[Fresh(q)].counter == q.tables[e.addr].counter)
  {
    hide Tallied, Placed;
  }

  /** A step on the path of a mapped page keeps what its tables count, copied or not. */
  lemma StepCountAt(q: Store, base: Addr, v: nat, f: Flags, actions: Actions, n: nat, k: nat, c: nat)
    requires MapArgs(q, base, v, f) && 2 <= n <= 4 && 1 <= k <= 3
    requires At(q.tables, base, v, n - 1).Some? && At(q.tables, base, v, n).Some? && CountAt(q, base, v, k, c)
    ensures CountAt(Step(q, base, v, f, actions, n), base, v, k, c)
  {
    hide Valid, EnsureSingle, Index, Parts;
    EnsureStep(q, base, v, f, actions, n);
    WalkStays(q, base, v, n);
    var t := At(q.tables, base, v, n).value;
    SlotLevel(q, t, Index(n, v));
    StepWalks(q, t, Index(n, v), f, actions, base, v, n, k);
    StepCounter(q, t, Index(n, v), f, actions, At(q.tables, base, v, k).value);
  }

  lemma {:induction false} EnsureCountAt(s: Store, base: Addr, v: nat, f: Flags, actions: Actions, j: nat, k: nat, c: nat)
    requires MapArgs(s, base, v, f) && j <= 3 && 1 <= k <= 3 && At(s.tables, base, v, 1).Some? && CountAt(s, base, v, k, c)
    ensures CountAt(EnsureSteps(s, base, v, f, actions, j), base, v, k, c)
    ensures At(EnsureSteps(s, base, v, f, actions, j).tables, base, v, 1).Some?
  {
    hide Valid, EnsureSingle, Index, SameMeaning, KeepsAbove, CountAt;
    if j > 0 {
      var q := EnsureSteps(s, base, v, f, actions, j - 1);
      EnsureCountAt(s, base, v, f, actions, j - 1, k, c);
      WalkAbove(q.tables, base, v, 1, 4 - j); WalkAbove(q.tables, base, v, 1, 5 - j);
      EnsureStep(q, base, v, f, actions, 5 - j);
      StepCountAt(q, base, v, f, actions, 5 - j, k, c);
      StepReaches(q, base, v, f, actions, 5 - j);
    }
  }

  lemma StepReaches(q: Store, base: Addr, v: nat, f: Flags, actions: Actions, n: nat)
    requires MapArgs(q, base, v, f) && 2 <= n <= 4 && At(q.tables, base, v, n).Some? && At(q.tables, base, v, 1).Some?
    ensures At(Step(q, base, v, f, actions, n).tables, base, v, 1).Some?
  {
    hide Valid, EnsureSingle, Index;
    EnsureStep(q, base, v, f, actions, n);
    WalkStays(q, base, v, n);
    StepWalks(q, At(q.tables, base, v, n).value, Index(n, v), f, actions, base, v, n, 1);
  }

  lemma {:induction false} WalkAbove(tb: map<Addr, Table>, base: Addr, v: nat, j: nat, k: nat)
    requires j <= k && At(tb, base, v, j).Some?
    ensures At(tb, base, v, k).Some?
    decreases k - j
  {
    if j < k && j < 4 { WalkAbove(tb, base, v, j + 1, k); }
  }

  lemma PrivatisedCountAt(s: Store, base: Addr, v: nat, k: nat, c: nat)
    requires Mapped(s, base, v) && 1 <= k <= 3 && CountAt(s, base, v, k, c)
    ensures CountAt(Privatised(s, base, v), base, v, k, c)
  {
    hide Valid, EnsureSteps, CountAt, SameSpaces, OwnPath;
    MappedLeaf(s, base, v);
    EnsureCountAt(s, base, v, LeafFlags(s, base, v), COPY_ALL, 3, k, c);
  }

  /** The page is the last one of all three of its tables. */
  ghost predicate LastPage(s: Store, base: Addr, v: nat) {
    forall k | 1 <= k <= 3 :: CountAt(s, base, v, k, 1)
  }

  lemma PathCounts(s: Store, base: Addr, v: nat, k: nat) returns (c: nat)
    requires Mapped(s, base, v) && 1 <= k <= 3
    ensures CountAt(s, base, v, k, c)
  {
    hide Valid;
    MappedLeaf(s, base, v);
    WalkAbove(s.tables, base, v, 1, k);
    WalkStays(s, base, v, k);
    c := s.tables[At(s.tables, base, v, k).value].counter;
  }

  lemma PruneTop(s: Store, base: Addr, v: nat)
    requires Cleared(s, base, v, 3)
    ensures At(Prune(s, base, v, 4).tables, base, v, 3).None? <==> CountAt(s, base, v, 3, 0)
  {
    hide SameSpaces, OwnFrom;
    PathSlot(s, base, v, 4);
  }

  lemma ClearedCountAt(q: Store, base: Addr, v: nat, k: nat, c: nat)
    requires Mapped(q, base, v) && 1 <= k <= 3 && CountAt(q, base, v, k, c)
    ensures k == 1 ==> c > 0
    ensures CountAt(ClearLeaf(q, base, v), base, v, k, if k == 1 && c > 0 then c - 1 else c)
  {
    hide Valid, ClearLeaf;
    MappedLeaf(q, base, v);
    ClearLeafTables(q, base, v);
    WalkStays(q, base, v, k);
  }

  lemma PruneCountAt(s: Store, base: Addr, v: nat, n: nat, c: nat, k: nat, d: nat)
    requires 2 <= n <= k <= 3 && Cleared(s, base, v, n - 1) && CountAt(s, base, v, n - 1, c) && CountAt(s, base, v, k, d)
    ensures d > 0
    ensures CountAt(Prune(s, base, v, n), base, v, k, if k == n && c == 0 && d > 0 then d - 1 else d)
  {
    hide Valid, Prune;
    PruneTables(s, base, v, n);
    PruneWalk(s, base, v, n);
    ClearedAbove(s, base, v, n, k);
    PathCounters(s, base, v, k);
    WalkStays(s, base, v, n - 1); WalkStays(s, base, v, n); WalkStays(s, base, v, k);
  }

  lemma ClearedAbove(s: Store, base: Addr, v: nat, n: nat, k: nat)
    requires 2 <= n <= k <= 3 && Cleared(s, base, v, n - 1)
    ensures Cleared(s, base, v, k - 1)
  {
    hide Valid;
    forall j | k - 1 <= j <= 3 ensures Unshared(s, At(s.tables, base, v, j)) { }
  }

  /** One removal frees the root's table exactly if the page was the last one in it. */
  lemma UnmapFreesRootTable(s: Store, base: Addr, v: nat)
    requires Mapped(s, base, v)
    ensures At(UnmapPage(s, base, v).tables, base, v, 3).None? <==> LastPage(s, base, v)
  {
    hide Valid, ClearLeaf, Privatised, Prune, SameSpaces, CountAt, OwnFrom, At, Translate;
    var c1 := PathCounts(s, base, v, 1);
    var c2 := PathCounts(s, base, v, 2);
    var c3 := PathCounts(s, base, v, 3);
    PrivatisedCountAt(s, base, v, 1, c1); PrivatisedCountAt(s, base, v, 2, c2); PrivatisedCountAt(s, base, v, 3, c3);
    var q := Privatised(s, base, v);
    ClearedCountAt(q, base, v, 1, c1); ClearedCountAt(q, base, v, 2, c2); ClearedCountAt(q, base, v, 3, c3);
    ClearLeafOwns(q, base, v);
    var c := ClearLeaf(q, base, v);
    PruneCountAt(c, base, v, 2, c1 - 1, 2, c2); PruneCountAt(c, base, v, 2, c1 - 1, 3, c3);
    var s1, d2 := Prune(c, base, v, 2), if c1 == 1 then c2 - 1 else c2;
    PruneCountAt(s1, base, v, 3, d2, 3, c3);
    var s2, d3 := Prune(s1, base, v, 3), if d2 == 0 then c3 - 1 else c3;
    PruneTop(s2, base, v);
    assert PruneFrom(s2, base, v, 4) == Prune(s2, base, v, 4);
    CountsOnce(s2, base, v, 3, d3, 0);
    CountsOnce(s, base, v, 1, c1, 1); CountsOnce(s, base, v, 2, c2, 1); CountsOnce(s, base, v, 3, c3, 1);
  }

  lemma CountsOnce(s: Store, base: Addr, v: nat, k: nat, c: nat, d: nat)
    requires CountAt(s, base, v, k, c)
    ensures CountAt(s, base, v, k, d) <==> c == d
  {
  }

  /** A removal keeps an exact root counter exact if and only if its page was not the last one
      under the root entry; then mapping there again trips the assertion. */
  lemma UnmapKeepsExactly(s: Store, base: Addr, v: nat, flags: Flags)
    requires Mapped(s, base, v) && RootGap(s, base) == 0 && Present in flags && BigPage !in flags
    ensures var r := UnmapPage(s, base, v);
      && Valid(r) && IsRoot(r, base) && Slot(r, base, Index(4, v))
      && (RootGap(r, base) == 0 <==> !LastPage(s, base, v))
      && (LastPage(s, base, v) ==> !CountsMatch(r, base, Index(4, v), flags))
  {
    hide Valid, UnmapPage, LastPage, PresentCount;
    var r := UnmapPage(s, base, v);
    UnmapPageRemoves(s, base, v);
    assert RemovedAt(s, r, base, v, base, v);
    UnmapMovesRootCounter(s, base, v, base);
    UnmapFreesRootTable(s, base, v);
    ShapedAt(r, base);
    if LastPage(s, base, v) {
      assert At(r.tables, base, v, 4) == Some(base);
      EnsureAssertsExactly(r, base, Index(4, v), flags);
    }
  }

  /** A space with a single page is one where removing it does that. */
  lemma LoneIsLast(w: nat)
    requires w < USER_PAGES
    ensures var s := PagingCoverage.Lone(w); Mapped(s, 0, w) && RootGap(s, 0) == 0 && LastPage(s, 0, w)
  {
    hide Valid, PresentCount, Lookup, Index, Prefix;
    var s := PagingCoverage.Lone(w);
    PagingCoverage.LoneValid(w);
    PagingCoverage.LoneFrame(w);
    PagingCoverage.SingleCount(4, Index(4, w), 1);
    var tb := s.tables;
    assert At(tb, 0, w, 4) == Some(0);
    assert At(tb, 0, w, 3) == Some(1);
    assert At(tb, 0, w, 2) == Some(2);
    assert At(tb, 0, w, 1) == Some(3);
  }

  /** The assertion of `ensure_single` holds at every table below a root, and at a root exactly if
      its counter is exact. */
  lemma EnsureAssertsExactly(s: Store, t: Addr, i: nat, flags: Flags)
    requires Slot(s, t, i) && !IsPresent(s.tables[t].entries[i]) && Present in flags
    ensures CountsMatch(s, t, i, flags) <==> s.tables[t].level < 4 || RootGap(s, t) == 0
  {
    GrowGap(s, t, i, flags, t);
  }

  /** Forking keeps the counters of all roots as exact as they were. */
  lemma {:induction false} CloneKeepsRootCounters(s: Store, from: Addr, to: Addr, i: nat, rounds: nat, o: Addr)
    requires Blank(s, from, to, i) && IsRoot(s, o)
    ensures var r := CloneFrom(s, from, to, i, rounds); IsRoot(r, o) && RootGap(r, o) == RootGap(s, o)
    decreases rounds
  {
    hide Valid, PresentCount;
    if rounds > 0 && i < 256 {
      if IsPresent(s.tables[from].entries[i]) {
        CloneValid(s, from, to, i);
        CloneEntryGap(s, from, to, i, o);
        CloneKeepsRootCounters(CloneEntry(s, from, to, i), from, to, i + 1, rounds - 1, o);
      } else {
        CloneKeepsRootCounters(s, from, to, i, rounds - 1, o);
      }
    }
  }

  lemma CloneEntryGap(s: Store, from: Addr, to: Addr, i: nat, o: Addr)
    requires Blank(s, from, to, i) && i < 256 && IsPresent(s.tables[from].entries[i]) && IsRoot(s, o)
    ensures var r := CloneEntry(s, from, to, i); IsRoot(r, o) && RootGap(r, o) == RootGap(s, o)
  {
    hide Valid;
    var r := CloneEntry(s, from, to, i);
    if o == to {
      PresentAdded(s.tables[to].entries, i, r.tables[to].entries[i]);
    } else if o == from {
      SamePresence(s.tables[from].entries, r.tables[from].entries);
    }
  }
}
