/** What a whole `unmap` call does: nothing outside its range ever changes, and the
    range is cleared for every store exactly when it stays inside one 1 GiB region. */
module PagingCoverage {
  import opened Options
  import opened PagingStore
  import opened PagingMap
  import opened PagingUnmap

  ghost function Unmap(s: Store, base: Addr, v: nat, pages: nat): Store
    requires InRange(s, base, v, 0, pages)
  {
    UnmapFrom(s, base, v, 0, pages)
  }

  /** Only pages lo..hi of `base` may have lost their translation; nothing else changed anywhere. */
  ghost predicate LostWithin(s: Store, r: Store, base: Addr, lo: nat, hi: nat) {
    forall o, w: nat | IsRoot(s, o) && w < USER_PAGES :: LostAt(s, r, base, lo, hi, o, w)
  }

  ghost predicate LostAt(s: Store, r: Store, base: Addr, lo: nat, hi: nat, o: Addr, w: nat) {
    && IsRoot(r, o)
    && (Translate(r, o, w) == Translate(s, o, w) || (o == base && lo <= w < hi && Translate(r, o, w) == None))
  }

  /** Skipping a region accounts for 512 pages more than it passes. */
  lemma SkipOvercounts(v: nat)
    ensures (512 - Index(2, v)) * 512 + (512 - Index(1, v)) == (v / GIB + 1) * GIB - v + 512
    ensures (512 - Index(1, v)) == (v / 512 + 1) * 512 - v
    ensures v < (v / GIB + 1) * GIB && v < (v / 512 + 1) * 512
  {
    assert v / GIB == v / 512 / 512;
  }

  lemma NoLoss(s: Store, base: Addr, lo: nat, hi: nat)
    ensures LostWithin(s, s, base, lo, hi)
  {
    forall o, w: nat | IsRoot(s, o) && w < USER_PAGES ensures LostAt(s, s, base, lo, hi, o, w) { }
  }

  lemma WiderLoss(s: Store, r: Store, base: Addr, lo: nat, hi: nat, lo': nat, hi': nat)
    requires LostWithin(s, r, base, lo, hi) && lo' <= lo && hi <= hi'
    ensures LostWithin(s, r, base, lo', hi')
  {
    forall o, w: nat | IsRoot(s, o) && w < USER_PAGES ensures LostAt(s, r, base, lo', hi', o, w) {
      assert LostAt(s, r, base, lo, hi, o, w);
    }
  }

  lemma RemovalThenLoss(s: Store, q: Store, r: Store, base: Addr, v: nat, hi: nat)
    requires Removed(s, q, base, v) && v < hi && LostWithin(q, r, base, v + 1, hi)
    ensures LostWithin(s, r, base, v, hi)
  {
    forall o, w: nat | IsRoot(s, o) && w < USER_PAGES ensures LostAt(s, r, base, v, hi, o, w) {
      var lo := v + 1;
      assert RemovedAt(s, q, base, v, o, w);
      assert LostAt(q, r, base, lo, hi, o, w);
    }
  }

  lemma {:induction false} UnmapFromWithin(s: Store, base: Addr, v: nat, i: nat, pages: nat)
    requires InRange(s, base, v, i, pages)
    ensures Valid(UnmapFrom(s, base, v, i, pages))
    ensures LostWithin(s, UnmapFrom(s, base, v, i, pages), base, v, if i < pages then v + (pages - i) else v)
    decreases pages - i
  {
    hide Valid, UnmapPage, Translate, LostWithin, Removed, At, Index;
    SkipOvercounts(v);
    if i >= pages || At(s.tables, base, v, 3).None? {
      NoLoss(s, base, v, if i < pages then v + (pages - i) else v);
    } else if At(s.tables, base, v, 2).None? {
      var v', i' := (v / GIB + 1) * GIB, i + (512 - Index(2, v)) * 512 + (512 - Index(1, v));
      UnmapFromWithin(s, base, v', i', pages);
      if i' < pages {
        WiderLoss(s, UnmapFrom(s, base, v', i', pages), base, v', v' + (pages - i'), v, v + (pages - i));
      } else {
        NoLoss(s, base, v, v + (pages - i));
      }
    } else if At(s.tables, base, v, 1).None? {
      var v', i' := (v / 512 + 1) * 512, i + (512 - Index(1, v));
      UnmapFromWithin(s, base, v', i', pages);
      if i' < pages {
        WiderLoss(s, UnmapFrom(s, base, v', i', pages), base, v', v' + (pages - i'), v, v + (pages - i));
      } else {
        NoLoss(s, base, v, v + (pages - i));
      }
    } else if Translate(s, base, v).Some? {
      UnmapPageWithin(s, base, v, i, pages);
    } else {
      UnmapFromWithin(s, base, v + 1, i + 1, pages);
      WiderLoss(s, UnmapFrom(s, base, v + 1, i + 1, pages), base, v + 1, v + 1 + (pages - i - 1), v, v + (pages - i));
    }
  }

  lemma {:induction false} UnmapPageWithin(s: Store, base: Addr, v: nat, i: nat, pages: nat)
    requires InRange(s, base, v, i, pages) && i < pages && Mapped(s, base, v)
    ensures InRange(UnmapPage(s, base, v), base, v + 1, i + 1, pages)
    ensures var r := UnmapFrom(UnmapPage(s, base, v), base, v + 1, i + 1, pages);
      Valid(r) && LostWithin(s, r, base, v, v + (pages - i))
    decreases pages - i, 0
  {
    hide Valid, UnmapPage, Translate, LostWithin, At, UnmapFrom;
    UnmapPageRemoves(s, base, v);
    var q := UnmapPage(s, base, v);
    assert RemovedAt(s, q, base, v, base, v);
    UnmapFromWithin(q, base, v + 1, i + 1, pages);
    RemovalThenLoss(s, q, UnmapFrom(q, base, v + 1, i + 1, pages), base, v, v + (pages - i));
  }

  /** `unmap` keeps the store valid (counters and references included) and never removes a
      translation outside the requested range, in this or any other space. */
  lemma UnmapStaysInRange(s: Store, base: Addr, v: nat, pages: nat)
    requires InRange(s, base, v, 0, pages)
    ensures Valid(Unmap(s, base, v, pages)) && LostWithin(s, Unmap(s, base, v, pages), base, v, v + pages)
  {
    hide Valid, Translate, UnmapFrom;
    UnmapFromWithin(s, base, v, 0, pages);
  }

  // ------------------------------------------------------------------- coverage

  /** Pages of one 1 GiB region share their walk down to level 2. */
  lemma SameRegion(tb: map<Addr, Table>, base: Addr, v: nat, w: nat)
    requires v / GIB == w / GIB
    ensures At(tb, base, v, 3) == At(tb, base, w, 3) && At(tb, base, v, 2) == At(tb, base, w, 2)
  {
    assert v / 134217728 == v / GIB / 512 && w / 134217728 == w / GIB / 512;
    assert Index(4, v) == Index(4, w) && Index(3, v) == Index(3, w);
    assert At(tb, base, v, 4) == At(tb, base, w, 4);
    assert At(tb, base, v, 3) == At(tb, base, w, 3);
  }

  lemma NoWalkNoPage(s: Store, base: Addr, w: nat, k: nat)
    requires Valid(s) && IsRoot(s, base) && w < USER_PAGES && 1 <= k <= 3 && At(s.tables, base, w, k).None?
    ensures Translate(s, base, w) == None
  {
    LookupFrom(s, base, w, k);
  }

  lemma NoneStaysNone(s: Store, r: Store, base: Addr, lo: nat, hi: nat, w: nat)
    requires LostWithin(s, r, base, lo, hi) && IsRoot(s, base) && w < USER_PAGES
    ensures Translate(s, base, w) == None ==> Translate(r, base, w) == None
  {
    assert LostAt(s, r, base, lo, hi, base, w);
  }

  lemma PageGone(s: Store, base: Addr, v: nat)
    requires Mapped(s, base, v)
    ensures var q := UnmapPage(s, base, v); Valid(q) && IsRoot(q, base) && Translate(q, base, v) == None
  {
    hide Valid, UnmapPage, Translate;
    UnmapPageRemoves(s, base, v);
    assert RemovedAt(s, UnmapPage(s, base, v), base, v, base, v);
  }

  /** Page w is not mapped after the loop. */
  lemma {:induction false} RegionCovered(s: Store, base: Addr, v: nat, i: nat, pages: nat, w: nat)
    requires InRange(s, base, v, i, pages) && i < pages
    requires v / GIB == (v + (pages - i) - 1) / GIB && v <= w < v + (pages - i)
    ensures Translate(UnmapFrom(s, base, v, i, pages), base, w) == None
    decreases pages - i
  {
    hide Valid, UnmapPage, Translate, Index, At, LostWithin, Removed;
    SkipOvercounts(v);
    assert v / GIB == w / GIB;
    SameRegion(s.tables, base, v, w);
    UnmapFromWithin(s, base, v, i, pages);
    NoneStaysNone(s, UnmapFrom(s, base, v, i, pages), base, v, v + (pages - i), w);
    if At(s.tables, base, v, 3).None? {
      NoWalkNoPage(s, base, w, 3);
    } else if At(s.tables, base, v, 2).None? {
      NoWalkNoPage(s, base, w, 2);
    } else if At(s.tables, base, v, 1).None? {
      var v' := (v / 512 + 1) * 512;
      if w < v' {
        assert v / 512 == w / 512;
        SameWalk(s.tables, base, v, w, 1);
        NoWalkNoPage(s, base, w, 1);
      } else {
        assert v' / GIB == w / GIB;
        RegionCovered(s, base, v', i + (512 - Index(1, v)), pages, w);
      }
    } else if Translate(s, base, v).Some? {
      PageGone(s, base, v);
      var q := UnmapPage(s, base, v);
      if w == v {
        UnmapFromWithin(q, base, v + 1, i + 1, pages);
        NoneStaysNone(q, UnmapFrom(q, base, v + 1, i + 1, pages), base, v + 1, v + 1 + (pages - i - 1), w);
      } else {
        RegionCovered(q, base, v + 1, i + 1, pages, w);
      }
    } else if w > v {
      RegionCovered(s, base, v + 1, i + 1, pages, w);
    }
  }

  // ------------------------------------------------ ranges that are not covered

  function Single(level: nat, i: nat, next: Addr): (t: Table)
    ensures |t.entries| == 512
  {
    Table(level, seq(512, j => if j == i then Entry(next, {Present}) else EMPTY), 1)
  }

  /** One address space, rooted at 0, in which w is the only mapped page. */
  function Lone(w: nat): Store {
    Store(map[0 := Single(4, Index(4, w), 1), 1 := Single(3, Index(3, w), 2),
              2 := Single(2, Index(2, w), 3), 3 := Single(1, Index(1, w), 0)],
          map[0 := 1, 1 := 1, 2 := 1, 3 := 1],
          map[0 := 0, 1 := Prefix(w, 3), 2 := Prefix(w, 2), 3 := Prefix(w, 1)])
  }

  lemma SingleCount(level: nat, i: nat, next: Addr)
    requires i < 512
    ensures PresentCount(Single(level, i, next).entries) == 1
  {
    var es := Single(level, i, next).entries;
    assert (set j | 0 <= j < |es| && IsPresent(es[j])) == {i as int};
  }

  lemma LoneParents(w: nat)
    requires w < USER_PAGES
    ensures Parents(Lone(w).tables, 1) == {(0, Index(4, w) as int)}
    ensures Parents(Lone(w).tables, 2) == {(1, Index(3, w) as int)}
    ensures Parents(Lone(w).tables, 3) == {(2, Index(2, w) as int)}
  {
  }

  lemma LoneLinks(w: nat)
    requires w < USER_PAGES
    ensures Shaped(Lone(w).tables) && Linked(Lone(w).tables) && Tallied(Lone(w).tables)
  {
    SingleCount(3, Index(3, w), 2); SingleCount(2, Index(2, w), 3); SingleCount(1, Index(1, w), 0);
  }

  lemma LonePlaced(w: nat)
    requires w < USER_PAGES && Shaped(Lone(w).tables)
    ensures Placed(Lone(w).tables, Lone(w).place)
  {
    PrefixStep(w, 3); PrefixStep(w, 2); PrefixStep(w, 1);
  }

  lemma LoneValid(w: nat)
    requires w < USER_PAGES
    ensures Valid(Lone(w)) && IsRoot(Lone(w), 0)
  {
    LoneLinks(w);
    LonePlaced(w);
    LoneParents(w);
    assert Counted(Lone(w).tables, Lone(w).refs) by { LoneParents(w); }
  }

  lemma LoneWalk(w: nat, v: nat)
    requires w < USER_PAGES && v < USER_PAGES
    ensures At(Lone(w).tables, 0, v, 3).Some? ==> Prefix(v, 3) == Prefix(w, 3)
    ensures At(Lone(w).tables, 0, v, 2).Some? ==> Prefix(v, 2) == Prefix(w, 2)
    ensures Translate(Lone(w), 0, v).Some? <==> v == w
  {
    var tb := Lone(w).tables;
    PrefixStep(w, 3); PrefixStep(w, 2); PrefixStep(w, 1); PrefixStep(w, 0);
    PrefixStep(v, 3); PrefixStep(v, 2); PrefixStep(v, 1); PrefixStep(v, 0);
    assert At(tb, 0, v, 4) == Some(0);
    assert At(tb, 0, v, 3) == if Index(4, v) == Index(4, w) then Some(1) else None;
    assert Translate(Lone(w), 0, v) == if Index(4, v) != Index(4, w) then None else Lookup(tb, 1, 3, v);
    assert Lookup(tb, 1, 3, v) == if Index(3, v) != Index(3, w) then None else Lookup(tb, 2, 2, v);
    assert Lookup(tb, 2, 2, v) == if Index(2, v) != Index(2, w) then None else Lookup(tb, 3, 1, v);
    assert Lookup(tb, 3, 1, v) == if Index(1, v) != Index(1, w) then None else Some(0);
  }

  lemma LoneFrame(w: nat)
    requires w < USER_PAGES
    ensures Translate(Lone(w), 0, w) == Some(0)
  {
    var tb := Lone(w).tables;
    assert Lookup(tb, 3, 1, w) == Some(0);
    assert Lookup(tb, 2, 2, w) == Some(0);
    assert Lookup(tb, 1, 3, w) == Some(0);
  }

  /** Once the account runs ahead of the page number, the last page is never reached. */
  lemma {:induction false} LoneSkipped(w: nat, v: nat, i: nat, pages: nat)
    requires w < USER_PAGES && InRange(Lone(w), 0, v, i, pages) && (i < pages ==> v + (pages - i) <= w)
    ensures UnmapFrom(Lone(w), 0, v, i, pages) == Lone(w)
    decreases pages - i
  {
    hide Valid, Lone, Translate, At, Index, Prefix;
    SkipOvercounts(v);
    if i < pages && At(Lone(w).tables, 0, v, 3).Some? {
      LoneWalk(w, v);
      if At(Lone(w).tables, 0, v, 2).None? {
        LoneSkipped(w, (v / GIB + 1) * GIB, i + (512 - Index(2, v)) * 512 + (512 - Index(1, v)), pages);
      } else if At(Lone(w).tables, 0, v, 1).None? {
        LoneSkipped(w, (v / 512 + 1) * 512, i + (512 - Index(1, v)), pages);
      } else {
        LoneSkipped(w, v + 1, i + 1, pages);
      }
    }
  }

  /** The call leaves no page of its range mapped. */
  ghost predicate Covers(s: Store, base: Addr, v: nat, pages: nat)
    requires InRange(s, base, v, 0, pages)
  {
    forall w: nat | v <= w < v + pages :: Translate(Unmap(s, base, v, pages), base, w) == None
  }

  lemma CrossingMisses(v: nat, pages: nat)
    requires 0 < pages && v + pages <= USER_PAGES && v / GIB != (v + pages - 1) / GIB
    ensures var s := Lone(v + pages - 1); InRange(s, 0, v, 0, pages) && !Covers(s, 0, v, pages)
  {
    hide Valid, Lone, Translate, At, Index, UnmapFrom;
    var w := v + pages - 1;
    LoneValid(w);
    LoneWalk(w, w);
    LoneMissed(v, pages);
    assert Translate(Unmap(Lone(w), 0, v, pages), 0, w).Some?;
  }

  lemma LoneMissed(v: nat, pages: nat)
    requires 0 < pages && v + pages <= USER_PAGES && v / GIB != (v + pages - 1) / GIB
    requires InRange(Lone(v + pages - 1), 0, v, 0, pages)
    ensures UnmapFrom(Lone(v + pages - 1), 0, v, 0, pages) == Lone(v + pages - 1)
  {
    hide Valid, Lone, Translate, At, Index;
    var w := v + pages - 1;
    SkipOvercounts(v);
    LoneWalk(w, v);
    if At(Lone(w).tables, 0, v, 3).Some? {
      assert At(Lone(w).tables, 0, v, 2).None?;
      LoneSkipped(w, (v / GIB + 1) * GIB, (512 - Index(2, v)) * 512 + (512 - Index(1, v)), pages);
    }
  }

  /** `unmap` clears its range in every store if and only if the range lies inside one 1 GiB
      region (or is empty). */
  lemma UnmapCoversExactly(v: nat, pages: nat)
    requires v + pages <= USER_PAGES
    ensures (forall s, base | InRange(s, base, v, 0, pages) :: Covers(s, base, v, pages))
            <==> pages == 0 || v / GIB == (v + pages - 1) / GIB
  {
    hide Valid, Translate, UnmapFrom, Lone;
    if pages > 0 && v / GIB == (v + pages - 1) / GIB {
      forall s, base | InRange(s, base, v, 0, pages) ensures Covers(s, base, v, pages) {
        forall w: nat | v <= w < v + pages ensures Translate(Unmap(s, base, v, pages), base, w) == None {
          RegionCovered(s, base, v, 0, pages, w);
        }
      }
    } else if pages > 0 {
      CrossingMisses(v, pages);
    }
  }
}
