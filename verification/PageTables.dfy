/** The page tables in memory and the operations that rewrite them in place.  Every
    operation is proved against its function on the store. */
module PageTables {
  import opened Options
  import opened PagingStore
  import opened PagingMap
  import opened PagingUnmap
  import opened PagingFork
  import PagingCoverage

  // ------------------------------------------------------ counting a prefix

  lemma PresentPrefix(es: seq<Entry>, j: nat)
    requires j < |es|
    ensures PresentCount(es[..j + 1]) == PresentCount(es[..j]) + if IsPresent(es[j]) then 1 else 0
  {
    var p, q := es[..j], es[..j + 1];
    var a, b := set i | 0 <= i < |p| && IsPresent(p[i]), set i | 0 <= i < |q| && IsPresent(q[i]);
    assert b == if IsPresent(es[j]) then a + {j as int} else a;
  }

  lemma PointsPrefix(es: seq<Entry>, j: nat, x: Addr)
    requires j < |es|
    ensures Occurrences(es[..j + 1], x) == Occurrences(es[..j], x) + if Points(es[j], x) then 1 else 0
  {
    var p, q := es[..j], es[..j + 1];
    var a, b := set i | 0 <= i < |p| && Points(p[i], x), set i | 0 <= i < |q| && Points(q[i], x);
    assert b == if Points(es[j], x) then a + {j as int} else a;
  }

  lemma NothingCounted(es: seq<Entry>)
    ensures PresentCount(es[..0]) == 0
  {
    assert es[..0] == [];
  }

  /** A prefix with as many present entries as the whole leaves none behind. */
  lemma {:induction false} NonePresentAfter(es: seq<Entry>, j: nat, k: nat)
    requires j <= |es| && PresentCount(es[..j]) == PresentCount(es)
    requires j <= k < |es|
    ensures !IsPresent(es[k])
  {
    var a := set i | 0 <= i < |es[..j]| && IsPresent(es[..j][i]);
    var b := set i | 0 <= i < |es| && IsPresent(es[i]);
    assert a <= b && |a| == |b|;
    SubsetEqual(a, b);
    assert k !in a;
  }

  lemma SubsetEqual<T>(a: set<T>, b: set<T>)
    requires a <= b && |a| == |b|
    ensures a == b
  {
    assert |b - a| == 0;
  }

  /** References after the first j entries of a child table have been counted. */
  ghost function PartReferences(refs: map<Addr, nat>, child: Table, j: nat): map<Addr, nat>
    requires j <= |child.entries|
  {
    if child.level > 1 then map a | a in refs :: refs[a] + Occurrences(child.entries[..j], a) else refs
  }

  lemma PartStep(refs: map<Addr, nat>, child: Table, j: nat)
    requires j < |child.entries|
    ensures !IsPresent(child.entries[j]) || child.level <= 1 ==>
              PartReferences(refs, child, j + 1) == PartReferences(refs, child, j)
    ensures IsPresent(child.entries[j]) && child.level > 1 && child.entries[j].addr in refs ==>
              var part := PartReferences(refs, child, j); var a := child.entries[j].addr;
              a in part && PartReferences(refs, child, j + 1) == part[a := part[a] + 1]
  {
    forall a | a in refs
      ensures Occurrences(child.entries[..j + 1], a)
              == Occurrences(child.entries[..j], a) + if Points(child.entries[j], a) then 1 else 0 {
      PointsPrefix(child.entries, j, a);
    }
  }

  lemma PartWhole(refs: map<Addr, nat>, child: Table, j: nat)
    requires j <= |child.entries| && forall k | j <= k < |child.entries| :: !IsPresent(child.entries[k])
    ensures PartReferences(refs, child, j) == AddReferences(refs, child)
  {
    forall a ensures Occurrences(child.entries[..j], a) == Occurrences(child.entries, a) {
      var part := child.entries[..j];
      assert (set i | 0 <= i < |part| && Points(part[i], a))
          == (set i | 0 <= i < |child.entries| && Points(child.entries[i], a));
    }
  }

  /** The first j entries are copied, the rest untouched. */
  ghost predicate CopiedTo(es: seq<Entry>, ro: Flags, here: seq<Entry>, there: seq<Entry>, j: nat) {
    && |es| == |here| == |there| == 512
    && (forall k | 0 <= k < 512 :: here[k] == if k < j && IsPresent(es[k]) then Entry(es[k].addr, ro) else es[k])
    && (forall k | 0 <= k < 512 :: there[k] == if k < j && IsPresent(es[k]) then Entry(es[k].addr, ro) else EMPTY)
  }

  lemma CopyComplete(es: seq<Entry>, ro: Flags, here: seq<Entry>, there: seq<Entry>, j: nat)
    requires CopiedTo(es, ro, here, there, j) && forall k | j <= k < 512 :: !IsPresent(es[k])
    ensures here == ReadOnlyInPlace(es, ro) && there == ReadOnlyCopy(es, ro)
  {
  }

  lemma PartNone(refs: map<Addr, nat>, child: Table)
    ensures PartReferences(refs, child, 0) == refs
  {
    var none := child.entries[..0];
    forall a ensures Occurrences(none, a) == 0 {
      assert (set i | 0 <= i < |none| && Points(none[i], a)) == {};
    }
  }

  // ----------------------------------------------------------- page indices

  /** `from_pack`, for indices that may have run one past their table. */
  function Pack(i4: nat, i3: nat, i2: nat, i1: nat): nat {
    i4 * 134217728 + i3 * 262144 + i2 * 512 + i1
  }

  /** `unpack` is the inverse of packing proper indices. */
  lemma Unpacked(i4: nat, i3: nat, i2: nat, i1: nat)
    requires i4 < 512 && i3 < 512 && i2 < 512 && i1 < 512
    ensures var v := Pack(i4, i3, i2, i1);
      Index(4, v) == i4 && Index(3, v) == i3 && Index(2, v) == i2 && Index(1, v) == i1
  {
    var v := Pack(i4, i3, i2, i1);
    var a2, a3 := (i4 * 512 + i3) * 512 + i2, i4 * 512 + i3;
    assert v == a2 * 512 + i1;
    Digit(a2, i1); Digit(a3, i2); Digit(i4, i3);
    Shifts(v);
  }

  lemma Digit(a: nat, r: nat)
    requires r < 512
    ensures (a * 512 + r) / 512 == a && (a * 512 + r) % 512 == r
  {
  }

  lemma Shifts(v: nat)
    ensures v / 262144 == v / 512 / 512 && v / 134217728 == v / 512 / 512 / 512
  {
  }

  lemma Repacked(v: nat)
    requires v < USER_PAGES
    ensures Pack(Index(4, v), Index(3, v), Index(2, v), Index(1, v)) == v
  {
    PrefixStep(v, 0); PrefixStep(v, 1); PrefixStep(v, 2); PrefixStep(v, 3);
  }

  /** At most one index stands one past the end, and only where the next can take the carry. */
  predicate Carriable(i3: nat, i2: nat, i1: nat) {
    && i1 <= 512 && i2 <= 512 && i3 <= 512
    && (i1 == 512 ==> i2 < 512 && i3 < 512)
    && (i2 == 512 ==> i3 < 512)
  }

  /** `normalize_index`: push a carry up; the page meant stays the same. */
  method NormalizeIndex(i4: nat, i3: nat, i2: nat, i1: nat)
    returns (n4: nat, n3: nat, n2: nat, n1: nat, carried: bool)
    requires Carriable(i3, i2, i1)
    ensures n3 < 512 && n2 < 512 && n1 < 512 && Pack(n4, n3, n2, n1) == Pack(i4, i3, i2, i1)
    ensures carried <==> i1 == 512 || i2 == 512 || i3 == 512
    ensures !carried ==> n4 == i4 && n3 == i3 && n2 == i2 && n1 == i1
  {
    n4, n3, n2, n1, carried := i4, i3, i2, i1, false;
    if n1 >= 512 { n1, n2, carried := 0, n2 + 1, true; }
    if n2 >= 512 { n2, n3, carried := 0, n3 + 1, true; }
    if n3 >= 512 { n3, n4, carried := 0, n4 + 1, true; }
  }

  lemma ChildFacts(s: Store, c: Addr)
    requires Valid(s) && c in s.tables && s.tables[c].level < 4
    ensures |s.tables[c].entries| == 512 && s.tables[c].counter == PresentCount(s.tables[c].entries)
    ensures s.tables[c].level > 1 ==>
              forall j | 0 <= j < 512 && IsPresent(s.tables[c].entries[j]) :: s.tables[c].entries[j].addr in s.refs
  {
  }

  lemma EntryTarget(s: Store, t: Addr, i: nat)
    requires Slot(s, t, i) && IsPresent(s.tables[t].entries[i])
    ensures var next := s.tables[t].entries[i].addr;
      && next in s.tables && s.tables[next].level < 4 && next in s.refs && s.refs[next] > 0 && next != t
      && next in s.place && (s.tables[next].level > 1 ==> Occurrences(s.tables[next].entries, next) == 0)
  {
    if s.tables[s.tables[t].entries[i].addr].level > 1 { NoLoop(s.tables, s.tables[t].entries[i].addr); }
    assert (t, i as int) in Parents(s.tables, s.tables[t].entries[i].addr);
  }

  lemma LeafShape(s: Store, pt: Addr, j: nat)
    requires Valid(s) && pt in s.tables && s.tables[pt].level == 1 && j < 512
    ensures Leaf(s, pt, j) && |s.tables[pt].entries| == 512
  {
  }

  /** What is left to do at page w to reach the goal, before (due) or after the path is ready. */
  ghost predicate Remaining(s: Store, goal: Store, base: Addr, w: nat, frames: seq<Addr>, f: Flags, actions: Actions,
                            due: bool)
    requires MapArgs(s, base, w, f)
  {
    var q := if due then Ensure(s, base, w, f, actions) else s;
    Reachable(q, base, w, f) && w + |frames| <= USER_PAGES && goal == MapFrom(q, base, w, frames, f, actions)
  }

  lemma UserIndex(i4: nat, i3: nat, i2: nat, i1: nat)
    requires Pack(i4, i3, i2, i1) < USER_PAGES
    ensures i4 < 256
  {
  }

  lemma NothingToMap(s: Store, base: Addr, v: nat, frames: seq<Addr>, f: Flags, actions: Actions)
    requires Reachable(s, base, v, f) && frames == []
    ensures MapFrom(s, base, v, frames, f, actions) == s
  {
  }

  /** Writing page w either finishes or leaves the rest to do. */
  lemma PageDone(s: Store, goal: Store, base: Addr, w: nat, frames: seq<Addr>, f: Flags, actions: Actions)
    requires Reachable(s, base, w, f) && frames != [] && w + |frames| <= USER_PAGES
    requires goal == MapFrom(s, base, w, frames, f, actions)
    ensures |frames| == 1 ==> MapLeaf(s, base, w, frames[0], f) == goal
    ensures |frames| > 1 ==>
              && MapArgs(MapLeaf(s, base, w, frames[0], f), base, w + 1, f)
              && Remaining(MapLeaf(s, base, w, frames[0], f), goal, base, w + 1, frames[1..], f, actions,
                           Index(1, w) + 1 == 512)
  {
    hide Valid, MapLeaf, Ensure, At;
    NextCarries(w);
    if |frames| > 1 {
      Advances(s, base, w, frames[0], f, actions);
      var s1 := MapLeaf(s, base, w, frames[0], f);
      assert goal == MapFrom(Advance(s1, base, w + 1, f, actions), base, w + 1, frames[1..], f, actions);
    }
  }

  lemma NextCarries(w: nat)
    ensures (w + 1) % 512 == 0 <==> Index(1, w) + 1 == 512
  {
  }

  /** A page `map` may be asked for: overriding is allowed if it is there, and it is there if a
      copy-on-write is asked for. */
  ghost predicate Mappable(s: Store, base: Addr, w: nat, actions: Actions) {
    if Translate(s, base, w).Some? then actions.override else !actions.cow
  }

  lemma AllMappable(s: Store, base: Addr, v: nat, n: nat, actions: Actions)
    requires forall w: nat | v <= w < v + n :: Mappable(s, base, w, actions)
    ensures forall w: nat | v <= w < v + n :: if Translate(s, base, w).Some? then actions.override else !actions.cow
  {
    forall w: nat | v <= w < v + n ensures if Translate(s, base, w).Some? then actions.override else !actions.cow {
      assert Mappable(s, base, w, actions);
    }
  }

  lemma Unmappable(s: Store, base: Addr, v: nat, n: nat, w: nat, actions: Actions)
    requires v <= w < v + n && !Mappable(s, base, w, actions)
    ensures !forall w: nat | v <= w < v + n :: if Translate(s, base, w).Some? then actions.override else !actions.cow
  {
    assert !(if Translate(s, base, w).Some? then actions.override else !actions.cow);
  }

  lemma SameMappable(s: Store, r: Store, base: Addr, v: nat, frames: seq<Addr>, w: nat, actions: Actions)
    requires Overridden(s, r, base, v, frames) && v + |frames| <= w < USER_PAGES
    ensures Mappable(r, base, w, actions) <==> Mappable(s, base, w, actions)
  {
    assert OverriddenAt(s, r, base, v, frames, w);
  }

  lemma SameOverrides(s: Store, r: Store, base: Addr, v: nat)
    requires SameSpaces(s, r) && IsRoot(s, base)
    ensures Overridden(s, r, base, v, [])
  {
    forall w: nat | w < USER_PAGES ensures OverriddenAt(s, r, base, v, [], w) {
      assert SameAt(s, r, base, w);
    }
  }

  lemma SameThenOverrides(s: Store, q: Store, r: Store, base: Addr, v: nat, frames: seq<Addr>)
    requires Overridden(s, q, base, v, frames) && SameSpaces(q, r) && IsRoot(q, base)
    ensures Overridden(s, r, base, v, frames)
  {
    forall w: nat | w < USER_PAGES ensures OverriddenAt(s, r, base, v, frames, w) {
      assert OverriddenAt(s, q, base, v, frames, w);
      assert SameAt(q, r, base, w);
    }
  }

  lemma OneMoreOverride(s: Store, q: Store, base: Addr, v: nat, frames: seq<Addr>, frame: Addr, f: Flags)
    requires Overridden(s, q, base, v, frames) && Reachable(q, base, v + |frames|, f)
    ensures Overridden(s, MapLeaf(q, base, v + |frames|, frame, f), base, v, frames + [frame])
  {
    hide Valid, MapLeaf, Translate, At;
    var u := v + |frames|;
    var r := MapLeaf(q, base, u, frame, f);
    MapLeafOverrides(q, base, u, frame, f);
    var all := frames + [frame];
    forall w: nat | w < USER_PAGES ensures OverriddenAt(s, r, base, v, all, w) {
      assert OverriddenAt(s, q, base, v, frames, w);
      assert OverriddenAt(q, r, base, u, [frame], w);
    }
  }

  lemma SlotFacts(s: Store, t: Addr, i: nat)
    requires Slot(s, t, i)
    ensures |s.tables[t].entries| == 512 && t in s.place
    ensures IsPresent(s.tables[t].entries[i]) ==> BigPage !in s.tables[t].entries[i].flags
  {
  }

  lemma SingleKeepsSpaces(s: Store, t: Addr, i: nat, flags: Flags, actions: Actions)
    requires Slot(s, t, i) && Present in flags && BigPage !in flags
    ensures var r := EnsureSingle(s, t, i, flags, actions); Valid(r) && SameSpaces(s, r)
  {
    hide Valid, SameMeaning, SameSpaces;
    EnsureSingleKeeps(s, t, i, flags, actions);
    MeaningOfRoots(s, EnsureSingle(s, t, i, flags, actions));
  }

  lemma RootTarget(s: Store, from: Addr, k: nat)
    requires Valid(s) && IsRoot(s, from) && k < 256 && k < |s.tables[from].entries| && IsPresent(s.tables[from].entries[k])
    ensures s.tables[from].entries[k].addr in s.refs
  {
  }

  /** Rounds the cloning loop has left after i pages. */
  function RoundsLeft(pages: nat, i: nat): nat {
    if i >= pages then 0 else (pages - i + GIB - 1) / GIB
  }

  lemma OneRound(pages: nat, i: nat)
    requires i < pages
    ensures RoundsLeft(pages, i) == RoundsLeft(pages, i + GIB) + 1
  {
  }

  lemma PrivatePath(q: Store, base: Addr, v: nat)
    requires Mapped(q, base, v) && OwnPath(q, base, v)
    ensures forall k | 1 <= k <= 4 :: At(q.tables, base, v, k).Some? && At(q.tables, base, v, k).value in q.tables
                                      && |q.tables[At(q.tables, base, v, k).value].entries| == 512
  {
    forall k | 1 <= k <= 4
      ensures At(q.tables, base, v, k).Some? && At(q.tables, base, v, k).value in q.tables
      ensures |q.tables[At(q.tables, base, v, k).value].entries| == 512 {
      if k < 4 { PathSlot(q, base, v, k + 1); }
    }
  }

  lemma PruneAll(c: Store, base: Addr, v: nat)
    requires Cleared(c, base, v, 1)
    ensures PruneFrom(c, base, v, 2) == Prune(Prune(Prune(c, base, v, 2), base, v, 3), base, v, 4)
  {
    hide Valid, Prune, SameSpaces, OwnFrom;
    var c2 := Prune(c, base, v, 2);
    var c3 := Prune(c2, base, v, 3);
    assert PruneFrom(c3, base, v, 4) == Prune(c3, base, v, 4);
    assert PruneFrom(c2, base, v, 3) == PruneFrom(c3, base, v, 4);
  }

  // ----------------------------------------------- the unmap loop, case by case

  ghost predicate At4(s: Store, base: Addr, i4: nat, i3: nat, i2: nat, i1: nat, i: nat, pages: nat) {
    i3 < 512 && i2 < 512 && i1 < 512 && i < pages && InRange(s, base, Pack(i4, i3, i2, i1), i, pages)
  }

  lemma InRangeMeans(s: Store, base: Addr, v: nat, i: nat, pages: nat)
    requires InRange(s, base, v, i, pages)
    ensures Valid(s) && IsRoot(s, base)
  {
  }

  lemma RootEntry(s: Store, base: Addr, i4: nat, i3: nat, i2: nat, i1: nat, i: nat, pages: nat)
    requires At4(s, base, i4, i3, i2, i1, i, pages)
    ensures i4 < 256 && |s.tables[base].entries| == 512 && Pack(i4, i3, i2, i1) < USER_PAGES
  {
  }

  lemma NoRootEntry(s: Store, base: Addr, i4: nat, i3: nat, i2: nat, i1: nat, i: nat, pages: nat)
    requires At4(s, base, i4, i3, i2, i1, i, pages) && i4 < 256 && |s.tables[base].entries| == 512
    requires !IsPresent(s.tables[base].entries[i4])
    ensures UnmapFrom(s, base, Pack(i4, i3, i2, i1), i, pages) == s
  {
    hide Valid, Pack;
    Unpacked(i4, i3, i2, i1);
    assert At(s.tables, base, Pack(i4, i3, i2, i1), 4) == Some(base);
  }

  lemma SecondEntry(s: Store, base: Addr, w: nat)
    requires Valid(s) && IsRoot(s, base) && w < USER_PAGES && |s.tables[base].entries| == 512
    requires IsPresent(s.tables[base].entries[Index(4, w)])
    ensures var t3 := s.tables[base].entries[Index(4, w)].addr;
      && At(s.tables, base, w, 3) == Some(t3) && t3 in s.tables && |s.tables[t3].entries| == 512
      && (At(s.tables, base, w, 2).None? <==> !IsPresent(s.tables[t3].entries[Index(3, w)]))
  {
    assert At(s.tables, base, w, 4) == Some(base);
    WalkStays(s, base, w, 3);
  }

  lemma ThirdEntry(s: Store, base: Addr, w: nat)
    requires Valid(s) && IsRoot(s, base) && w < USER_PAGES && At(s.tables, base, w, 3).Some?
    requires At(s.tables, base, w, 2).Some?
    ensures var t3 := At(s.tables, base, w, 3).value;
      && t3 in s.tables && |s.tables[t3].entries| == 512
      && var t2 := s.tables[t3].entries[Index(3, w)].addr;
      && At(s.tables, base, w, 2) == Some(t2) && t2 in s.tables && |s.tables[t2].entries| == 512
      && (At(s.tables, base, w, 1).None? <==> !IsPresent(s.tables[t2].entries[Index(2, w)]))
  {
    WalkStays(s, base, w, 2);
  }

  lemma LastEntry(s: Store, base: Addr, w: nat)
    requires At(s.tables, base, w, 1).Some?
    ensures At(s.tables, base, w, 2).Some? && At(s.tables, base, w, 3).Some?
  {
  }

  lemma SkipRegion(s: Store, base: Addr, i4: nat, i3: nat, i2: nat, i1: nat, i: nat, pages: nat)
    requires At4(s, base, i4, i3, i2, i1, i, pages) && i4 < 256
    requires At(s.tables, base, Pack(i4, i3, i2, i1), 3).Some? && At(s.tables, base, Pack(i4, i3, i2, i1), 2).None?
    ensures var w', i' := Pack(i4, i3 + 1, 0, 0), i + (512 - i2) * 512 + (512 - i1);
      && InRange(s, base, w', i', pages)
      && UnmapFrom(s, base, Pack(i4, i3, i2, i1), i, pages) == UnmapFrom(s, base, w', i', pages)
  {
    hide Valid, At;
    Unpacked(i4, i3, i2, i1);
    var w := Pack(i4, i3, i2, i1);
    assert (w / GIB + 1) * GIB == Pack(i4, i3 + 1, 0, 0);
  }

  lemma SkipTable(s: Store, base: Addr, i4: nat, i3: nat, i2: nat, i1: nat, i: nat, pages: nat)
    requires At4(s, base, i4, i3, i2, i1, i, pages) && i4 < 256
    requires At(s.tables, base, Pack(i4, i3, i2, i1), 3).Some? && At(s.tables, base, Pack(i4, i3, i2, i1), 2).Some?
    requires At(s.tables, base, Pack(i4, i3, i2, i1), 1).None?
    ensures var w', i' := Pack(i4, i3, i2 + 1, 0), i + (512 - i1);
      && InRange(s, base, w', i', pages)
      && UnmapFrom(s, base, Pack(i4, i3, i2, i1), i, pages) == UnmapFrom(s, base, w', i', pages)
  {
    hide Valid, At, Index;
    Unpacked(i4, i3, i2, i1);
    NextTable(i4, i3, i2, i1);
  }

  lemma NextTable(i4: nat, i3: nat, i2: nat, i1: nat)
    requires i1 < 512
    ensures (Pack(i4, i3, i2, i1) / 512 + 1) * 512 == Pack(i4, i3, i2 + 1, 0)
  {
    Digit((i4 * 512 + i3) * 512 + i2, i1);
  }

  lemma StepPage(s: Store, base: Addr, i4: nat, i3: nat, i2: nat, i1: nat, i: nat, pages: nat)
    requires At4(s, base, i4, i3, i2, i1, i, pages) && i4 < 256
    requires var w := Pack(i4, i3, i2, i1);
      At(s.tables, base, w, 3).Some? && At(s.tables, base, w, 2).Some? && At(s.tables, base, w, 1).Some?
    ensures Pack(i4, i3, i2, i1) < USER_PAGES
    ensures var w := Pack(i4, i3, i2, i1);
      && (Translate(s, base, w).Some? ==> Mapped(s, base, w))
      && var r := if Translate(s, base, w).Some? then UnmapPage(s, base, w) else s;
      && InRange(r, base, Pack(i4, i3, i2, i1 + 1), i + 1, pages)
      && UnmapFrom(s, base, w, i, pages) == UnmapFrom(r, base, Pack(i4, i3, i2, i1 + 1), i + 1, pages)
  {
    hide Valid, At, UnmapPage, Translate;
    var w := Pack(i4, i3, i2, i1);
    if Translate(s, base, w).Some? {
      UnmapPageRemoves(s, base, w);
      assert RemovedAt(s, UnmapPage(s, base, w), base, w, base, w);
    }
  }

  lemma UnmapDone(s: Store, base: Addr, w: nat, i: nat, pages: nat)
    requires InRange(s, base, w, i, pages) && i >= pages
    ensures UnmapFrom(s, base, w, i, pages) == s
  {
  }

  class PhysicalMemory {
    var tables: map<Addr, Table>
    var refs: map<Addr, nat>
    ghost var place: map<Addr, nat>

    ghost function View(): Store
      reads this
    {
      Store(tables, refs, place)
    }

    /** Copy the present entries of the table behind an entry into a new table p, read-only on
        both sides, and count a reference for each. */
    method CopyTable(next: Addr, p: Addr, ro: Flags)
      requires Valid(View()) && next in tables && tables[next].level < 4 && p !in tables && p !in refs
      modifies this
      ensures tables == old(tables)[next := old(tables)[next].(entries := ReadOnlyInPlace(old(tables)[next].entries, ro))]
                                   [p := Table(old(tables)[next].level, ReadOnlyCopy(old(tables)[next].entries, ro),
                                               old(tables)[next].counter)]
      ensures refs == AddReferences(old(refs), old(tables)[next]) && place == old(place)
    {
      hide Valid, PresentCount, PartReferences, AddReferences, ReadOnlyCopy, ReadOnlyInPlace;
      ghost var refs0 := refs;
      ChildFacts(View(), next);
      var child := tables[next];
      var here, there, copied, j := child.entries, NewTable(child.level).entries, 0, 0;
      PartNone(refs0, child);
      NothingCounted(child.entries);
      while j < 512 && copied < child.counter
        invariant 0 <= j <= 512
        invariant tables == old(tables) && place == old(place)
        invariant copied == PresentCount(child.entries[..j]) <= child.counter
        invariant refs == PartReferences(refs0, child, j)
        invariant CopiedTo(child.entries, ro, here, there, j)
      {
        PartStep(refs0, child, j);
        PresentPrefix(child.entries, j);
        if IsPresent(here[j]) {
          if child.level > 1 {
            refs := refs[here[j].addr := refs[here[j].addr] + 1];
          }
          here := here[j := Entry(here[j].addr, ro)];
          there := there[j := here[j]];
          copied := copied + 1;
        }
        j := j + 1;
      }
      assert child.entries[..512] == child.entries;
      forall k | j <= k < 512 ensures !IsPresent(child.entries[k]) {
        NonePresentAfter(child.entries, j, k);
      }
      PartWhole(refs0, child, j);
      CopyComplete(child.entries, ro, here, there, j);
      tables := tables[next := child.(entries := here)][p := Table(child.level, there, copied)];
    }

    /** `share_page_entry`: un-share the table behind a present entry before it is written through. */
    method SharePageEntry(t: Addr, i: nat, flags: Flags, copyAll: bool) returns (copied: bool)
      requires Slot(View(), t, i) && IsPresent(tables[t].entries[i]) && Present in flags && BigPage !in flags
      modifies this
      ensures View() == ShareEntry(old(View()), t, i, flags, copyAll)
      ensures copied <==> (Writable in flags || copyAll) && old(refs[tables[t].entries[i].addr]) != 1
    {
      hide Linked, Tallied, Counted, Placed;
      ghost var s0 := View();
      if Writable !in flags && !copyAll {
        return false;
      }
      var next := tables[t].entries[i].addr;
      EntryTarget(View(), t, i);
      if refs[next] == 1 {
        tables := SetEntry(tables, t, i, Entry(next, flags));
        return false;
      }
      var p := FirstFree(refs.Keys + tables.Keys, 0);
      CopyTable(next, p, flags - {Writable});
      refs := refs[next := refs[next] - 1][p := 1];
      tables := SetEntry(tables, t, i, Entry(p, flags));
      place := place[p := place[next]];
      assert tables == UnshareTables(s0.tables, t, i, p, flags);
      return true;
    }

    /** `ensure_single`: one level of the path. */
    method EnsureSingleEntry(t: Addr, i: nat, flags: Flags, actions: Actions)
      requires Slot(View(), t, i) && Present in flags && BigPage !in flags
      modifies this
      ensures View() == EnsureSingle(old(View()), t, i, flags, actions)
      ensures Valid(View()) && SameSpaces(old(View()), View())
    {
      hide Valid, SameSpaces;
      SingleKeepsSpaces(View(), t, i, flags, actions);
      SlotFacts(View(), t, i);
      var e := tables[t].entries[i];
      if IsPresent(e) {
        var _ := SharePageEntry(t, i, MergedFlags(e.flags, flags, actions), actions.copyAll);
      } else {
        var p := FirstFree(refs.Keys + tables.Keys, 0);
        tables := tables[p := NewTable(tables[t].level - 1)];
        refs := refs[p := 1];
        tables := tables[t := tables[t].(entries := tables[t].entries[i := Entry(p, flags)],
                                         counter := tables[t].counter + 1)];
        place := place[p := place[t] * 512 + i];
      }
    }

    /** `ensure`: make the path of page v ready, three levels down. */
    method EnsurePath(base: Addr, i4: nat, i3: nat, i2: nat, ghost v: nat, flags: Flags, actions: Actions)
      requires MapArgs(View(), base, v, flags)
      requires i4 == Index(4, v) && i3 == Index(3, v) && i2 == Index(2, v)
      modifies this
      ensures View() == Ensure(old(View()), base, v, flags, actions)
    {
      hide Valid, EnsureSingle, SameMeaning, KeepsAbove;
      ghost var s0 := View();
      assert At(s0.tables, base, v, 4) == Some(base);
      EnsureStep(s0, base, v, flags, actions, 4);
      EnsureSingleEntry(base, i4, flags, actions);
      ghost var s1 := View();
      assert s1 == EnsureSteps(s0, base, v, flags, actions, 1) by {
        assert EnsureSteps(s0, base, v, flags, actions, 0) == s0;
      }
      EnsureStep(s1, base, v, flags, actions, 3);
      EnsureSingleEntry(tables[base].entries[i4].addr, i3, flags, actions);
      ghost var s2 := View();
      assert s2 == EnsureSteps(s0, base, v, flags, actions, 2);
      EnsureStep(s2, base, v, flags, actions, 2);
      assert At(s2.tables, base, v, 3) == Some(tables[base].entries[i4].addr);
      var t3 := tables[base].entries[i4].addr;
      assert At(s2.tables, base, v, 2) == Some(tables[t3].entries[i3].addr);
      EnsureSingleEntry(tables[t3].entries[i3].addr, i2, flags, actions);
    }

    /** `clone_readonly_to`: share the tables behind the present root entries from v's on, up to
        the first absent one. */
    method CloneReadonlyTo(from: Addr, v: nat, pages: nat, to: Addr)
      requires v < USER_PAGES && Blank(View(), from, to, Index(4, v))
      modifies this
      ensures View() == CloneFrom(old(View()), from, to, Index(4, v), RoundsLeft(pages, 0))
      ensures Valid(View())
    {
      hide Valid, Index;
      ghost var goal := CloneFrom(View(), from, to, Index(4, v), RoundsLeft(pages, 0));
      var k: nat, i: nat := Index(4, v), 0;
      while i < pages
        invariant Blank(View(), from, to, k)
        invariant CloneFrom(View(), from, to, k, RoundsLeft(pages, i)) == goal
      {
        OneRound(pages, i);
        if k < 256 && IsPresent(tables[from].entries[k]) {
          CloneValid(View(), from, to, k);
          var c := tables[from].entries[k].addr;
          ghost var s := View();
          RootTarget(s, from, k);
          refs := refs[c := refs[c] + 1];
          tables := SetEntry(tables, from, k, Entry(c, tables[from].entries[k].flags - {Writable}));
          tables := tables[to := tables[to].(entries := tables[to].entries[k := tables[from].entries[k]],
                                             counter := tables[to].counter + 1)];
          assert View() == CloneEntry(s, from, to, k);
          k := k + 1;
        }
        i := i + GIB;
      }
    }

    /** `get_map`: the hardware walk. */
    method GetMap(base: Addr, v: nat) returns (frame: Option<Addr>)
      requires Valid(View()) && IsRoot(View(), base) && v < USER_PAGES
      ensures frame == Translate(View(), base, v)
    {
      var pml4e := tables[base].entries[Index(4, v)];
      if !IsPresent(pml4e) { return None; }
      var pdpe := tables[pml4e.addr].entries[Index(3, v)];
      if !IsPresent(pdpe) { return None; }
      var pde := tables[pdpe.addr].entries[Index(2, v)];
      if !IsPresent(pde) { return None; }
      var pte := tables[pde.addr].entries[Index(1, v)];
      if !IsPresent(pte) { return None; }
      return Some(pte.addr);
    }

    /** The leaf table of page v, found through its path. */
    method LeafTable(base: Addr, i4: nat, i3: nat, i2: nat, ghost v: nat) returns (pt: Addr)
      requires Valid(View()) && IsRoot(View(), base) && v < USER_PAGES && At(tables, base, v, 1).Some?
      requires i4 == Index(4, v) && i3 == Index(3, v) && i2 == Index(2, v)
      ensures At(tables, base, v, 1) == Some(pt) && Leaf(View(), pt, Index(1, v))
    {
      hide Valid;
      WalkStays(View(), base, v, 3); WalkStays(View(), base, v, 2); WalkStays(View(), base, v, 1);
      assert At(tables, base, v, 4) == Some(base);
      assert At(tables, base, v, 3).Some? && At(tables, base, v, 2).Some?;
      var t3 := tables[base].entries[i4].addr;
      assert At(tables, base, v, 3) == Some(t3);
      var t2 := tables[t3].entries[i3].addr;
      assert At(tables, base, v, 2) == Some(t2);
      pt := tables[t2].entries[i2].addr;
      LeafShape(View(), pt, Index(1, v));
    }

    /** Write one leaf of a ready path. */
    method WritePage(base: Addr, i4: nat, i3: nat, i2: nat, i1: nat, ghost v: nat, frame: Addr, flags: Flags)
      requires Reachable(View(), base, v, flags)
      requires i4 == Index(4, v) && i3 == Index(3, v) && i2 == Index(2, v) && i1 == Index(1, v)
      modifies this
      ensures View() == MapLeaf(old(View()), base, v, frame, flags)
    {
      hide Valid;
      var pt := LeafTable(base, i4, i3, i2, v);
      LeafShape(View(), pt, i1);
      if !IsPresent(tables[pt].entries[i1]) {
        tables := tables[pt := tables[pt].(counter := tables[pt].counter + 1)];
      }
      tables := SetEntry(tables, pt, i1, Entry(frame, flags));
    }

    /** `map_to`: frame phys + i for page v + i. */
    method MapPagesTo(base: Addr, v: nat, pages: nat, phys: Addr, flags: Flags, actions: Actions)
      requires MapArgs(View(), base, v, flags + {Present}) && v + pages <= USER_PAGES
      modifies this
      ensures View() == MapTo(old(View()), base, v, seq(pages, i requires 0 <= i => phys + i), flags, actions)
    {
      hide Valid, Ensure, MapLeaf, Translate, MapFrom, At, Index;
      var f := flags + {Present};
      ghost var frames := seq(pages, i requires 0 <= i => phys + i);
      ghost var goal := MapTo(View(), base, v, frames, flags, actions);
      EnsureTranslates(View(), base, v, f, actions);
      var i4: nat, i3: nat, i2: nat, i1: nat := Index(4, v), Index(3, v), Index(2, v), Index(1, v);
      Repacked(v);
      EnsurePath(base, i4, i3, i2, v, f, actions);
      if pages == 0 { NothingToMap(View(), base, v, frames, f, actions); }
      var i := 0;
      assert frames[0..] == frames;
      while i < pages
        invariant 0 <= i <= pages && i1 <= 512 && i2 < 512 && i3 < 512
        invariant Pack(i4, i3, i2, i1) == v + i
        invariant i == pages ==> View() == goal
        invariant i < pages ==> MapArgs(View(), base, v + i, f)
        invariant i < pages ==> Remaining(View(), goal, base, v + i, frames[i..], f, actions, i1 == 512)
      {
        ghost var q := if i1 == 512 then Ensure(View(), base, v + i, f, actions) else View();
        i4, i3, i2, i1 := MapOneTo(base, i4, i3, i2, i1, v + i, phys + i, f, actions);
        PageDone(q, goal, base, v + i, frames[i..], f, actions);
        assert frames[i..][1..] == frames[i + 1..];
        i1 := i1 + 1;
        i := i + 1;
      }
    }

    /** One page of `map_to`: ready its path after a carry, then write its entry. */
    method MapOneTo(base: Addr, i4: nat, i3: nat, i2: nat, i1: nat, ghost w: nat, frame: Addr, f: Flags, actions: Actions)
      returns (n4: nat, n3: nat, n2: nat, n1: nat)
      requires MapArgs(View(), base, w, f) && i1 <= 512 && i2 < 512 && i3 < 512 && Pack(i4, i3, i2, i1) == w
      requires Reachable(if i1 == 512 then Ensure(View(), base, w, f, actions) else View(), base, w, f)
      modifies this
      ensures Pack(n4, n3, n2, n1) == w && n3 < 512 && n2 < 512 && n1 < 512 && n1 == Index(1, w)
      ensures View() == MapLeaf(if i1 == 512 then Ensure(old(View()), base, w, f, actions) else old(View()), base, w, frame, f)
    {
      hide Valid, Ensure, MapLeaf, At, Reachable;
      var carried;
      n4, n3, n2, n1, carried := NormalizeIndex(i4, i3, i2, i1);
      UserIndex(n4, n3, n2, n1);
      Unpacked(n4, n3, n2, n1);
      if carried { EnsurePath(base, n4, n3, n2, w, f, actions); }
      WritePage(base, n4, n3, n2, n1, w, frame, f);
    }

    /** One page of `map`: ready its path after a carry, check it, give it a frame. */
    method MapNext(base: Addr, i4: nat, i3: nat, i2: nat, i1: nat, ghost w: nat, frame: Addr, f: Flags, actions: Actions)
      returns (ok: bool, n4: nat, n3: nat, n2: nat, n1: nat)
      requires MapArgs(View(), base, w, f) && i1 <= 512 && i2 < 512 && i3 < 512 && Pack(i4, i3, i2, i1) == w
      requires i1 == 512 || At(tables, base, w, 1).Some?
      modifies this
      ensures Pack(n4, n3, n2, n1) == w && n3 < 512 && n2 < 512 && n1 < 512 && n1 == Index(1, w)
      ensures ok <==> Mappable(old(View()), base, w, actions)
      ensures ok ==>
                var q := if i1 == 512 then Ensure(old(View()), base, w, f, actions) else old(View());
                Reachable(q, base, w, f) && SameSpaces(old(View()), q) && View() == MapLeaf(q, base, w, frame, f)
    {
      hide Valid, Ensure, MapLeaf, Translate, MapFrom, At;
      ghost var s := View();
      var carried;
      n4, n3, n2, n1, carried := NormalizeIndex(i4, i3, i2, i1);
      UserIndex(n4, n3, n2, n1);
      Unpacked(n4, n3, n2, n1);
      if carried {
        EnsureTranslates(s, base, w, f, actions);
        EnsurePath(base, n4, n3, n2, w, f, actions);
      } else {
        SameSpacesSelf(s);
      }
      assert SameAt(s, View(), base, w);
      var present := PagePresent(base, n4, n3, n2, n1, w);
      ok := if present then actions.override else !actions.cow;
      if ok {
        WritePage(base, n4, n3, n2, n1, w, frame, f);
      }
    }

    /** `map`: page v + i gets a frame of its own, frames[i] being what the allocator hands out.
        False stands for the kernel panic on a page that is mapped and may not be overridden, or
        on a copy-on-write of a page that is not mapped. */
    method MapPages(base: Addr, v: nat, frames: seq<Addr>, flags: Flags, actions: Actions) returns (ok: bool)
      requires MapArgs(View(), base, v, flags + {Present}) && v + |frames| <= USER_PAGES
      modifies this
      ensures ok <==> forall w: nat | v <= w < v + |frames| ::
        if Translate(old(View()), base, w).Some? then actions.override else !actions.cow
      ensures ok ==> View() == MapTo(old(View()), base, v, frames, flags, actions)
    {
      hide Valid, Translate, MapTo;
      ghost var s := View();
      ok := MapWhilePossible(base, v, frames, flags, actions);
      if forall w: nat | v <= w < v + |frames| :: Mappable(s, base, w, actions) {
        AllMappable(s, base, v, |frames|, actions);
      } else {
        ghost var w: nat :| v <= w < v + |frames| && !Mappable(s, base, w, actions);
        Unmappable(s, base, v, |frames|, w, actions);
      }
    }

    method MapWhilePossible(base: Addr, v: nat, frames: seq<Addr>, flags: Flags, actions: Actions) returns (ok: bool)
      requires MapArgs(View(), base, v, flags + {Present}) && v + |frames| <= USER_PAGES
      modifies this
      ensures ok <==> forall w: nat | v <= w < v + |frames| :: Mappable(old(View()), base, w, actions)
      ensures ok ==> View() == MapTo(old(View()), base, v, frames, flags, actions)
    {
      hide Valid, Ensure, MapLeaf, Translate, MapFrom, At, Overridden, SameSpaces, Mappable;
      var f := flags + {Present};
      ghost var s0 := View();
      ghost var goal := MapTo(s0, base, v, frames, flags, actions);
      EnsureTranslates(s0, base, v, f, actions);
      var i4: nat, i3: nat, i2: nat, i1: nat := Index(4, v), Index(3, v), Index(2, v), Index(1, v);
      Repacked(v);
      EnsurePath(base, i4, i3, i2, v, f, actions);
      SameOverrides(s0, View(), base, v);
      if frames == [] { NothingToMap(View(), base, v, frames, f, actions); }
      var i := 0;
      assert frames[0..] == frames && frames[..0] == [];
      while i < |frames|
        invariant 0 <= i <= |frames| && i1 <= 512 && i2 < 512 && i3 < 512
        invariant Pack(i4, i3, i2, i1) == v + i
        invariant i == |frames| ==> View() == goal
        invariant i < |frames| ==> MapArgs(View(), base, v + i, f)
        invariant i < |frames| ==> Remaining(View(), goal, base, v + i, frames[i..], f, actions, i1 == 512)
        invariant i < |frames| ==> Overridden(s0, View(), base, v, frames[..i])
        invariant forall w: nat | v <= w < v + i :: Mappable(s0, base, w, actions)
      {
        ghost var s := View();
        ghost var q := if i1 == 512 then Ensure(s, base, v + i, f, actions) else s;
        SameMappable(s0, s, base, v, frames[..i], v + i, actions);
        ok, i4, i3, i2, i1 := MapNext(base, i4, i3, i2, i1, v + i, frames[i], f, actions);
        if !ok { return; }
        SameThenOverrides(s0, s, q, base, v, frames[..i]);
        OneMoreOverride(s0, q, base, v, frames[..i], frames[i], f);
        PageDone(q, goal, base, v + i, frames[i..], f, actions);
        assert frames[i..][1..] == frames[i + 1..] && frames[..i] + [frames[i]] == frames[..i + 1];
        i1 := i1 + 1;
        i := i + 1;
      }
      return true;
    }

    method PagePresent(base: Addr, i4: nat, i3: nat, i2: nat, i1: nat, ghost v: nat) returns (present: bool)
      requires Valid(View()) && IsRoot(View(), base) && v < USER_PAGES && At(tables, base, v, 1).Some?
      requires i4 == Index(4, v) && i3 == Index(3, v) && i2 == Index(2, v) && i1 == Index(1, v)
      ensures present <==> Translate(View(), base, v).Some?
    {
      hide Valid;
      var pt := LeafTable(base, i4, i3, i2, v);
      LeafShape(View(), pt, i1);
      LookupFrom(View(), base, v, 1);
      present := IsPresent(tables[pt].entries[i1]);
    }

    /** Free the table behind entry i of t when its counter says it is empty. */
    method FreeIfEmpty(t: Addr, i: nat, ghost base: Addr, ghost v: nat, ghost n: nat)
      requires 2 <= n <= 4 && Cleared(View(), base, v, n - 1)
      requires At(tables, base, v, n) == Some(t) && i == Index(n, v)
      modifies this
      ensures View() == Prune(old(View()), base, v, n)
      ensures Valid(View()) && SameSpaces(old(View()), View())
      ensures old(At(tables, base, v, n - 1)).Some? && old(At(tables, base, v, n - 1)).value in old(tables)
      ensures var c := old(At(tables, base, v, n - 1)).value;
        tables.Keys == old(tables).Keys - (if old(tables)[c].counter == 0 then {c} else {})
    {
      hide SameSpaces;
      PathSlot(View(), base, v, n);
      var c := tables[t].entries[i].addr;
      if tables[c].counter == 0 {
        if tables[t].level < 4 { CounterPositive(View(), t, i); }
        var counter := if tables[t].level < 4 then tables[t].counter - 1 else tables[t].counter;
        refs := refs - {c};
        tables := tables - {c};
        tables := tables[t := tables[t].(entries := tables[t].entries[i := Entry(c, {})], counter := counter)];
        place := place - {c};
      }
    }

    /** Remove one mapped page: privatise its path, clear the leaf, free what became empty. */
    method UnmapOne(base: Addr, i4: nat, i3: nat, i2: nat, i1: nat, ghost v: nat)
      requires Mapped(View(), base, v)
      requires i4 == Index(4, v) && i3 == Index(3, v) && i2 == Index(2, v) && i1 == Index(1, v)
      modifies this
      ensures View() == UnmapPage(old(View()), base, v)
    {
      hide Valid, Prune, Ensure, SameSpaces, Translate, OwnPath;
      ghost var s0 := View();
      MappedLeaf(s0, base, v);
      var pt := LeafTable(base, i4, i3, i2, v);
      LeafShape(s0, pt, i1);
      var leafFlags := tables[pt].entries[i1].flags;
      assert leafFlags == LeafFlags(s0, base, v);
      EnsurePath(base, i4, i3, i2, v, leafFlags, COPY_ALL);
      ghost var q := View();
      assert q == Privatised(s0, base, v);
      PrivatePath(q, base, v);
      ClearLeafOwns(q, base, v);
      ClearLeafTables(q, base, v);
      assert At(q.tables, base, v, 4) == Some(base);
      var t3 := tables[base].entries[i4].addr;
      assert At(q.tables, base, v, 3) == Some(t3);
      var t2 := tables[t3].entries[i3].addr;
      assert At(q.tables, base, v, 2) == Some(t2);
      var t1 := tables[t2].entries[i2].addr;
      assert At(q.tables, base, v, 1) == Some(t1);
      MappedLeaf(q, base, v);
      tables := tables[t1 := tables[t1].(entries := tables[t1].entries[i1 := Entry(tables[t1].entries[i1].addr, {})],
                                         counter := tables[t1].counter - 1)];
      ghost var c := View();
      assert c == ClearLeaf(q, base, v);
      PruneWalk(c, base, v, 2);
      FreeIfEmpty(t2, i2, base, v, 2);
      ghost var c2 := View();
      PruneWalk(c2, base, v, 3);
      FreeIfEmpty(t3, i3, base, v, 3);
      ghost var c3 := View();
      FreeIfEmpty(base, i4, base, v, 4);
      PruneAll(c, base, v);
    }

    /** `unmap`.  The root entry is read through a pointer that only a carry or a removal
        refreshes, so after an absent root entry the loop keeps seeing that entry. */
    method UnmapPages(base: Addr, v: nat, pages: nat)
      requires InRange(View(), base, v, 0, pages) && v < USER_PAGES
      modifies this
      ensures View() == PagingCoverage.Unmap(old(View()), base, v, pages)
    {
      hide Valid, UnmapPage, Translate, UnmapFrom, Pack, InRange, At;
      ghost var goal := UnmapFrom(View(), base, v, 0, pages);
      var i4: nat, i3: nat, i2: nat, i1: nat := Index(4, v), Index(3, v), Index(2, v), Index(1, v);
      Repacked(v);
      InRangeMeans(View(), base, v, 0, pages);
      var pml4e: nat := i4;
      var i := 0;
      ghost var stale := false;
      while i < pages
        invariant Carriable(i3, i2, i1) && Valid(View()) && IsRoot(View(), base)
        invariant stale ==> i3 == 0 && i2 == 0 && i1 == 0 && goal == View() && pml4e < 256
                            && |tables[base].entries| == 512 && !IsPresent(tables[base].entries[pml4e])
        invariant !stale ==> pml4e == i4 && InRange(View(), base, Pack(i4, i3, i2, i1), i, pages)
                             && goal == UnmapFrom(View(), base, Pack(i4, i3, i2, i1), i, pages)
        decreases pages - i
      {
        var carried;
        i4, i3, i2, i1, carried := NormalizeIndex(i4, i3, i2, i1);
        if carried { pml4e := i4; }
        if !stale { RootEntry(View(), base, i4, i3, i2, i1, i, pages); }
        if !IsPresent(tables[base].entries[pml4e]) {
          if !stale { NoRootEntry(View(), base, i4, i3, i2, i1, i, pages); }
          stale := true;
          i := i + (512 - i3) * 512 * 512 + (512 - i2) * 512 + (512 - i1);
          i4, i3, i2, i1 := i4 + 1, 0, 0, 0;
        } else {
          ghost var w := Pack(i4, i3, i2, i1);
          Unpacked(i4, i3, i2, i1);
          var t3 := tables[base].entries[pml4e].addr;
          SecondEntry(View(), base, w);
          if !IsPresent(tables[t3].entries[i3]) {
            SkipRegion(View(), base, i4, i3, i2, i1, i, pages);
            i := i + (512 - i2) * 512 + (512 - i1);
            i3, i2, i1 := i3 + 1, 0, 0;
          } else {
            var t2 := tables[t3].entries[i3].addr;
            ThirdEntry(View(), base, w);
            if !IsPresent(tables[t2].entries[i2]) {
              SkipTable(View(), base, i4, i3, i2, i1, i, pages);
              i := i + (512 - i1);
              i2, i1 := i2 + 1, 0;
            } else {
              LastEntry(View(), base, w);
              var present := PagePresent(base, i4, i3, i2, i1, w);
              StepPage(View(), base, i4, i3, i2, i1, i, pages);
              if present {
                UnmapOne(base, i4, i3, i2, i1, w);
                InRangeMeans(View(), base, Pack(i4, i3, i2, i1 + 1), i + 1, pages);
                pml4e := i4;
              }
              i := i + 1;
              i1 := i1 + 1;
            }
          }
        }
      }
      if !stale { UnmapDone(View(), base, Pack(i4, i3, i2, i1), i, pages); }
    }
  }
}
