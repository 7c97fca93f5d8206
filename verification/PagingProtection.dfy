/** Copy on write: an entry that lets a space write leads to a table no other entry leads to, after
    every run of the operations on page tables. */
module PagingProtection {
  import opened Options
  import opened PagingStore
  import opened PagingMap
  import opened PagingSharing
  import opened PagingUnmap
  import opened PagingFork
  import PagingCoverage

  // ----------------------------------------------------------- what a copy leaves behind

  /** Splitting a shared table leaves its old and its new copy with the same present entries, all of them
      with the requested flags less write access. */
  lemma BothCopiesReadOnly(s: Store, t: Addr, i: nat, flags: Flags, copyAll: bool, k: nat)
    requires Slot(s, t, i) && IsPresent(s.tables[t].entries[i]) && Present in flags && BigPage !in flags && k < 512
    requires (Writable in flags || copyAll) && s.tables[t].entries[i].addr in s.refs && s.refs[s.tables[t].entries[i].addr] != 1
    ensures var r := ShareEntry(s, t, i, flags, copyAll); var next := s.tables[t].entries[i].addr;
      && next in s.tables && next in r.tables && Fresh(s) in r.tables && t in r.tables
      && |s.tables[next].entries| == |r.tables[next].entries| == |r.tables[Fresh(s)].entries| == |r.tables[t].entries| == 512
      && var was, here, there := s.tables[next].entries[k], r.tables[next].entries[k], r.tables[Fresh(s)].entries[k];
      && IsPresent(here) == IsPresent(there) == IsPresent(was)
      && (IsPresent(was) ==> here.addr == there.addr == was.addr && here.flags == there.flags == flags - {Writable})
      && r.tables[t].entries[i] == Entry(Fresh(s), flags)
  {
    hide Tallied, Counted, Placed;
  }

  // ------------------------------------------------------------------- the invariant

  ghost predicate PrivateEntry(s: Store, t: Addr, i: nat)
    requires t in s.tables && i < |s.tables[t].entries|
  {
    var e := s.tables[t].entries[i];
    IsPresent(e) && Writable in e.flags ==> e.addr in s.refs && s.refs[e.addr] == 1
  }

  /** Every present entry above the leaf level that holds Writable is the only reference to its table. */
  ghost predicate Private(s: Store) {
    forall t, i | t in s.tables && s.tables[t].level > 1 && 0 <= i < Limit(s.tables[t].level) && i < |s.tables[t].entries| ::
      PrivateEntry(s, t, i)
  }

  /** The step leaves entries other than its own, in tables it does not copy, alone. */
  lemma StepKeepsEntries(s: Store, t: Addr, i: nat, flags: Flags, actions: Actions, x: Addr, j: nat)
    requires Slot(s, t, i) && Present in flags && BigPage !in flags && x in s.tables && j < 512 && !(x == t && j == i)
    requires Parts(s, t, i, flags, actions) ==> x != s.tables[t].entries[i].addr
    ensures var r := EnsureSingle(s, t, i, flags, actions);
      && x in r.tables && r.tables[x].level == s.tables[x].level && |s.tables[x].entries| == |r.tables[x].entries| == 512
      && r.tables[x].entries[j] == s.tables[x].entries[j]
  {
    hide Tallied, Placed;
  }

  lemma StepOwnEntry(s: Store, t: Addr, i: nat, flags: Flags, actions: Actions)
    requires Slot(s, t, i) && Present in flags && BigPage !in flags
    requires PrivateEntry(s, t, i)
    ensures var r := EnsureSingle(s, t, i, flags, actions);
      t in r.tables && |r.tables[t].entries| == 512 && PrivateEntry(r, t, i)
  {
    hide Tallied, Placed;
  }

  lemma StepNewTables(s: Store, t: Addr, i: nat, flags: Flags, actions: Actions, x: Addr)
    requires Slot(s, t, i) && Present in flags && BigPage !in flags && x in EnsureSingle(s, t, i, flags, actions).tables
    ensures x in s.tables || x == Fresh(s)
    ensures var r := EnsureSingle(s, t, i, flags, actions);
      x == Fresh(s) || (Parts(s, t, i, flags, actions) && x == s.tables[t].entries[i].addr) ==>
        |r.tables[x].entries| == 512 && forall j | 0 <= j < 512 :: IsPresent(r.tables[x].entries[j]) ==> Writable !in r.tables[x].entries[j].flags
  {
    hide Tallied, Placed;
  }

  lemma StepPrivateEntry(s: Store, t: Addr, i: nat, flags: Flags, actions: Actions, x: Addr, j: nat)
    requires Slot(s, t, i) && Present in flags && BigPage !in flags && Private(s)
    requires var r := EnsureSingle(s, t, i, flags, actions);
      x in r.tables && r.tables[x].level > 1 && j < Limit(r.tables[x].level) && j < |r.tables[x].entries|
    ensures PrivateEntry(EnsureSingle(s, t, i, flags, actions), x, j)
  {
    hide Valid, EnsureSingle;
    var r := EnsureSingle(s, t, i, flags, actions);
    SlotLevel(s, t, i);
    StepNewTables(s, t, i, flags, actions, x);
    if x == t && j == i {
      assert PrivateEntry(s, t, i);
      StepOwnEntry(s, t, i, flags, actions);
    } else if x != Fresh(s) && !(Parts(s, t, i, flags, actions) && x == s.tables[t].entries[i].addr) {
      StepKeepsEntries(s, t, i, flags, actions, x, j);
      var e := s.tables[x].entries[j];
      if IsPresent(e) && Writable in e.flags {
        assert PrivateEntry(s, x, j);
        EntryBelow(s, x, j);
        SlotLevel(s, x, j);
        if Parts(s, t, i, flags, actions) {
          var c := s.tables[t].entries[i].addr;
          EntryBelow(s, t, i);
          if s.tables[c].level > 1 { NotCopied(s, c, e.addr, x, j); }
        }
        StepReferences(s, t, i, flags, actions, e.addr);
      }
    }
  }

  lemma StepPrivate(s: Store, t: Addr, i: nat, flags: Flags, actions: Actions)
    requires Slot(s, t, i) && Present in flags && BigPage !in flags && Private(s)
    ensures Private(EnsureSingle(s, t, i, flags, actions))
  {
    hide Valid, EnsureSingle, PrivateEntry;
    var r := EnsureSingle(s, t, i, flags, actions);
    forall x, j | x in r.tables && r.tables[x].level > 1 && 0 <= j < Limit(r.tables[x].level) && j < |r.tables[x].entries|
      ensures PrivateEntry(r, x, j)
    {
      StepPrivateEntry(s, t, i, flags, actions, x, j);
    }
  }

  // ------------------------------------------------------------------ every operation

  lemma {:induction false} EnsurePrivate(s: Store, base: Addr, v: nat, f: Flags, actions: Actions, k: nat)
    requires MapArgs(s, base, v, f) && k <= 3 && Private(s)
    ensures Private(EnsureSteps(s, base, v, f, actions, k))
  {
    hide Valid, SameMeaning, KeepsAbove, EnsureSingle, Private;
    if k > 0 {
      var q := EnsureSteps(s, base, v, f, actions, k - 1);
      EnsurePrivate(s, base, v, f, actions, k - 1);
      EnsureStep(q, base, v, f, actions, 5 - k);
      StepPrivate(q, At(q.tables, base, v, 5 - k).value, Index(5 - k, v), f, actions);
    }
  }

  /** Changes within one leaf table. */
  lemma LeafPrivate(s: Store, r: Store, pt: Addr)
    requires Private(s) && pt in s.tables && s.tables[pt].level == 1
    requires r.tables.Keys == s.tables.Keys && r.refs == s.refs && r.tables[pt].level == 1
    requires forall x | x in s.tables && x != pt :: r.tables[x] == s.tables[x]
    ensures Private(r)
  {
    forall t, i | t in r.tables && r.tables[t].level > 1 && 0 <= i < Limit(r.tables[t].level) && i < |r.tables[t].entries|
      ensures PrivateEntry(r, t, i)
    {
      assert PrivateEntry(s, t, i);
    }
  }

  lemma {:induction false} MapFromPrivate(s: Store, base: Addr, v: nat, frames: seq<Addr>, f: Flags, actions: Actions)
    requires Reachable(s, base, v, f) && v + |frames| <= USER_PAGES && Private(s)
    ensures Private(MapFrom(s, base, v, frames, f, actions))
    decreases |frames|
  {
    hide Valid, EnsureSteps, Private;
    if frames != [] {
      WalkStays(s, base, v, 1);
      var s1 := MapLeaf(s, base, v, frames[0], f);
      LeafPrivate(s, s1, At(s.tables, base, v, 1).value);
      if |frames| > 1 {
        Advances(s, base, v, frames[0], f, actions);
        EnsurePrivate(s1, base, v + 1, f, actions, 3);
        MapFromPrivate(Advance(s1, base, v + 1, f, actions), base, v + 1, frames[1..], f, actions);
      }
    }
  }

  lemma MapPrivate(s: Store, base: Addr, v: nat, frames: seq<Addr>, flags: Flags, actions: Actions)
    requires MapArgs(s, base, v, flags + {Present}) && v + |frames| <= USER_PAGES && Private(s)
    ensures Private(MapTo(s, base, v, frames, flags, actions))
  {
    hide Valid, EnsureSteps, MapFrom, Private;
    var f := flags + {Present};
    EnsureTranslates(s, base, v, f, actions);
    EnsurePrivate(s, base, v, f, actions, 3);
    MapFromPrivate(Ensure(s, base, v, f, actions), base, v, frames, f, actions);
  }

  lemma DropPrivate(s: Store, t: Addr, i: nat)
    requires Empty(s, t, i) && Private(s)
    ensures Private(Drop(s, t, i))
  {
    EmptyDroppable(s, t, i);
    hide Valid, Parents, Linked;
    var r, c := Drop(s, t, i), s.tables[t].entries[i].addr;
    forall x, j | x in r.tables && r.tables[x].level > 1 && 0 <= j < Limit(r.tables[x].level) && j < |r.tables[x].entries|
      ensures PrivateEntry(r, x, j)
    {
      assert PrivateEntry(s, x, j);
      if !(x == t && j == i) { NoOtherParent(s.tables, t, i, x, j); }
    }
  }

  lemma NoOtherParent(tb: map<Addr, Table>, t: Addr, i: nat, x: Addr, j: nat)
    requires Droppable(tb, t, i) && x in tb && tb[x].level > 1 && j < Limit(tb[x].level) && !(x == t && j == i)
    ensures !Points(tb[x].entries[j], tb[t].entries[i].addr)
  {
    var c := tb[t].entries[i].addr;
    assert (x, j as int) in Parents(tb, c) <==> Points(tb[x].entries[j], c);
  }

  lemma PrunePrivate(s: Store, base: Addr, v: nat, n: nat)
    requires 2 <= n <= 4 && Cleared(s, base, v, n - 1) && Private(s)
    ensures Private(Prune(s, base, v, n))
  {
    hide Valid, Private, Drop, SameSpaces;
    PathSlot(s, base, v, n);
    var t, i := At(s.tables, base, v, n).value, Index(n, v);
    if s.tables[s.tables[t].entries[i].addr].counter == 0 { DropPrivate(s, t, i); }
  }

  lemma {:induction false} PruneFromPrivate(s: Store, base: Addr, v: nat, n: nat)
    requires 2 <= n <= 5 && Cleared(s, base, v, n - 1) && Private(s)
    ensures Private(PruneFrom(s, base, v, n))
    decreases 5 - n
  {
    hide Valid, Private, Prune, OwnFrom, SameSpaces;
    if n < 5 {
      PrunePrivate(s, base, v, n);
      PruneFromPrivate(Prune(s, base, v, n), base, v, n + 1);
    }
  }

  lemma PrivatisedPrivate(s: Store, base: Addr, v: nat)
    requires Mapped(s, base, v) && Private(s)
    ensures Private(Privatised(s, base, v))
  {
    hide Valid, Private, EnsureSteps, SameSpaces, OwnPath;
    MappedLeaf(s, base, v);
    EnsurePrivate(s, base, v, LeafFlags(s, base, v), COPY_ALL, 3);
  }

  lemma UnmapPagePrivate(s: Store, base: Addr, v: nat)
    requires Mapped(s, base, v) && Private(s)
    ensures Private(UnmapPage(s, base, v))
  {
    hide Valid, Private, Privatised, PruneFrom, OwnFrom, SameSpaces;
    PrivatisedPrivate(s, base, v);
    var q := Privatised(s, base, v);
    MappedLeaf(q, base, v);
    LeafPrivate(q, ClearLeaf(q, base, v), At(q.tables, base, v, 1).value);
    ClearLeafOwns(q, base, v);
    PruneFromPrivate(ClearLeaf(q, base, v), base, v, 2);
  }

  lemma {:induction false} UnmapFromPrivate(s: Store, base: Addr, v: nat, i: nat, pages: nat)
    requires InRange(s, base, v, i, pages) && Private(s)
    ensures Private(UnmapFrom(s, base, v, i, pages))
    decreases pages - i
  {
    hide Valid, Private, UnmapPage;
    if i < pages && At(s.tables, base, v, 3).Some? {
      if At(s.tables, base, v, 2).None? {
        UnmapFromPrivate(s, base, (v / GIB + 1) * GIB, i + (512 - Index(2, v)) * 512 + (512 - Index(1, v)), pages);
      } else if At(s.tables, base, v, 1).None? {
        UnmapFromPrivate(s, base, (v / 512 + 1) * 512, i + (512 - Index(1, v)), pages);
      } else if Translate(s, base, v).Some? {
        UnmapPageRemoves(s, base, v);
        assert RemovedAt(s, UnmapPage(s, base, v), base, v, base, v);
        UnmapPagePrivate(s, base, v);
        UnmapFromPrivate(UnmapPage(s, base, v), base, v + 1, i + 1, pages);
      } else {
        UnmapFromPrivate(s, base, v + 1, i + 1, pages);
      }
    }
  }

  lemma CloneEntryPrivate(s: Store, from: Addr, to: Addr, i: nat)
    requires Blank(s, from, to, i) && i < 256 && IsPresent(s.tables[from].entries[i]) && Private(s)
    ensures Private(CloneEntry(s, from, to, i))
  {
    hide Tallied, Placed;
    var r, c := CloneEntry(s, from, to, i), s.tables[from].entries[i].addr;
    EntryBelow(s, from, i);
    forall x, j | x in r.tables && r.tables[x].level > 1 && 0 <= j < Limit(r.tables[x].level) && j < |r.tables[x].entries|
      ensures PrivateEntry(r, x, j)
    {
      if !((x == from || x == to) && j == i) {
        assert PrivateEntry(s, x, j);
        if Points(s.tables[x].entries[j], c) && Writable in s.tables[x].entries[j].flags { OneParent(s, c, x, j, from, i); }
      }
    }
  }

  lemma {:induction false} ClonePrivate(s: Store, from: Addr, to: Addr, i: nat, rounds: nat)
    requires Blank(s, from, to, i) && Private(s)
    ensures Private(CloneFrom(s, from, to, i, rounds))
    decreases rounds
  {
    hide Valid, Private, CloneEntry;
    if rounds > 0 && i < 256 {
      if IsPresent(s.tables[from].entries[i]) {
        CloneValid(s, from, to, i);
        CloneEntryPrivate(s, from, to, i);
        ClonePrivate(CloneEntry(s, from, to, i), from, to, i + 1, rounds - 1);
      } else {
        ClonePrivate(s, from, to, i, rounds - 1);
      }
    }
  }

  lemma NewSpacePrivate(s: Store)
    requires Private(s)
    ensures Private(NewSpace(s))
  {
    var r := NewSpace(s);
    forall x, j | x in r.tables && r.tables[x].level > 1 && 0 <= j < Limit(r.tables[x].level) && j < |r.tables[x].entries|
      ensures PrivateEntry(r, x, j)
    {
      if x != Fresh(s) { assert PrivateEntry(s, x, j); }
    }
  }

  // ------------------------------------------------------- what a mapped page allows

  /** The leaf entry of page w of a space. */
  ghost function LeafEntry(s: Store, base: Addr, w: nat): Option<Entry> {
    match At(s.tables, base, w, 1)
    case None => None
    case Some(y) => if y in s.tables && Index(1, w) < |s.tables[y].entries| then Some(s.tables[y].entries[Index(1, w)]) else None
  }

  /** A step for a page of another leaf table does not reach the one of w. */
  lemma StepKeepsLeaf(q: Store, base: Addr, v: nat, f: Flags, actions: Actions, n: nat, w: nat)
    requires MapArgs(q, base, v, f) && 2 <= n <= 4 && At(q.tables, base, v, n).Some?
    requires w < USER_PAGES && w / 512 != v / 512 && At(q.tables, base, w, 1).Some?
    ensures LeafEntry(PagingSharing.Step(q, base, v, f, actions, n), base, w) == LeafEntry(q, base, w)
    ensures At(PagingSharing.Step(q, base, v, f, actions, n).tables, base, w, 1).Some?
  {
    hide Valid, EnsureSingle, Index;
    EnsureStep(q, base, v, f, actions, n);
    WalkStays(q, base, v, n); WalkStays(q, base, w, 1);
    var t, y, i := At(q.tables, base, v, n).value, At(q.tables, base, w, 1).value, Index(n, v);
    StepWalks(q, t, i, f, actions, base, w, n, 1);
    WalkPlace(q, base, w, 1);
    if n == 2 {
      WalkPlace(q, base, v, 2); WalkPlace(q, base, w, 2);
      PrefixStep(v, 1); PrefixStep(w, 1);
      assert Prefix(v, 1) != Prefix(w, 1);
      SlotLevel(q, t, i);
      OtherLeaf(q, t, i, f, actions, y);
    } else {
      StepBelow(q, t, i, f, actions, y);
    }
  }

  lemma OtherLeaf(q: Store, t: Addr, i: nat, f: Flags, actions: Actions, y: Addr)
    requires Slot(q, t, i) && Present in f && BigPage !in f && q.tables[t].level == 2 && y in q.tables && q.tables[y].level == 1
    requires t in q.place && y in q.place && q.place[y] != q.place[t] * 512 + i
    ensures var r := EnsureSingle(q, t, i, f, actions); y in r.tables && r.tables[y] == q.tables[y]
  {
    hide Tallied, Counted;
  }

  lemma {:induction false} EnsureKeepsLeaf(s: Store, base: Addr, v: nat, f: Flags, actions: Actions, k: nat, w: nat)
    requires MapArgs(s, base, v, f) && k <= 3
    requires w < USER_PAGES && w / 512 != v / 512 && At(s.tables, base, w, 1).Some?
    ensures var r := EnsureSteps(s, base, v, f, actions, k);
      LeafEntry(r, base, w) == LeafEntry(s, base, w) && At(r.tables, base, w, 1).Some?
  {
    hide Valid, EnsureSingle, LeafEntry, SameMeaning, KeepsAbove;
    if k > 0 {
      var q := EnsureSteps(s, base, v, f, actions, k - 1);
      EnsureKeepsLeaf(s, base, v, f, actions, k - 1, w);
      EnsureStep(q, base, v, f, actions, 5 - k);
      StepKeepsLeaf(q, base, v, f, actions, 5 - k, w);
    }
  }

  lemma MapLeafWrites(s: Store, base: Addr, v: nat, frame: Addr, f: Flags, w: nat)
    requires Reachable(s, base, v, f) && w < USER_PAGES && At(s.tables, base, w, 1).Some?
    ensures var r := MapLeaf(s, base, v, frame, f);
      && At(r.tables, base, w, 1).Some?
      && LeafEntry(r, base, w) == if w == v then Some(Entry(frame, f)) else LeafEntry(s, base, w)
  {
    hide Valid, Index, At;
    WalkStays(s, base, v, 1); WalkStays(s, base, w, 1);
    var y := At(s.tables, base, v, 1).value;
    ShapedAt(s, y); ShapedAt(s, At(s.tables, base, w, 1).value);
    LeafKeepsWalk(s, MapLeaf(s, base, v, frame, f), y, base, w, 1);
    SameLeafSlot(s, base, v, w);
  }

  /** No two pages of a space have the same leaf entry. */
  lemma SameLeafSlot(s: Store, base: Addr, v: nat, w: nat)
    requires Valid(s) && IsRoot(s, base) && v < USER_PAGES && w < USER_PAGES
    requires At(s.tables, base, v, 1).Some? && At(s.tables, base, w, 1).Some?
    ensures At(s.tables, base, v, 1) == At(s.tables, base, w, 1) && Index(1, v) == Index(1, w) ==> v == w
  {
    hide Valid, At, Index;
    WalkPlace(s, base, v, 1); WalkPlace(s, base, w, 1);
    PrefixStep(v, 0); PrefixStep(w, 0);
    assert Prefix(v, 0) == v && Prefix(w, 0) == w;
  }

  lemma {:induction false} MapFromKeepsLeaf(s: Store, base: Addr, v: nat, frames: seq<Addr>, f: Flags, actions: Actions, w: nat)
    requires Reachable(s, base, v, f) && v + |frames| <= USER_PAGES && w < v && At(s.tables, base, w, 1).Some?
    ensures LeafEntry(MapFrom(s, base, v, frames, f, actions), base, w) == LeafEntry(s, base, w)
    decreases |frames|
  {
    hide Valid, MapLeaf, EnsureSteps, LeafEntry, Index, At;
    if frames != [] {
      var s1 := MapLeaf(s, base, v, frames[0], f);
      MapLeafWrites(s, base, v, frames[0], f, w);
      if |frames| > 1 {
        Advances(s, base, v, frames[0], f, actions);
        var u := v + 1;
        if u % 512 == 0 { EnsureKeepsLeaf(s1, base, u, f, actions, 3, w); }
        MapFromKeepsLeaf(Advance(s1, base, u, f, actions), base, u, frames[1..], f, actions, w);
      }
    }
  }

  lemma {:induction false} MapFromWrites(s: Store, base: Addr, v: nat, frames: seq<Addr>, f: Flags, actions: Actions, w: nat)
    requires Reachable(s, base, v, f) && v + |frames| <= USER_PAGES && v <= w < v + |frames|
    ensures LeafEntry(MapFrom(s, base, v, frames, f, actions), base, w) == Some(Entry(frames[w - v], f))
    decreases |frames|
  {
    hide Valid, MapLeaf, EnsureSteps, LeafEntry, Index, At;
    var s1 := MapLeaf(s, base, v, frames[0], f);
    MapLeafWrites(s, base, v, frames[0], f, v);
    if |frames| > 1 {
      Advances(s, base, v, frames[0], f, actions);
      var u := v + 1;
      var s2 := Advance(s1, base, u, f, actions);
      if w == v {
        if u % 512 == 0 { EnsureKeepsLeaf(s1, base, u, f, actions, 3, w); }
        MapFromKeepsLeaf(s2, base, u, frames[1..], f, actions, w);
      } else {
        MapFromWrites(s2, base, u, frames[1..], f, actions, w);
      }
    }
  }

  /** Every page of a mapped range ends with exactly its frame and the flags asked for. */
  lemma MapToWrites(s: Store, base: Addr, v: nat, frames: seq<Addr>, flags: Flags, actions: Actions, w: nat)
    requires MapArgs(s, base, v, flags + {Present}) && v + |frames| <= USER_PAGES && v <= w < v + |frames|
    ensures LeafEntry(MapTo(s, base, v, frames, flags, actions), base, w) == Some(Entry(frames[w - v], flags + {Present}))
  {
    hide Valid, EnsureSteps, MapFrom, LeafEntry;
    var f := flags + {Present};
    EnsureTranslates(s, base, v, f, actions);
    MapFromWrites(Ensure(s, base, v, f, actions), base, v, frames, f, actions, w);
  }

  // ------------------------------------------------------- what the path to it allows

  /** What a rewritten entry grants: never Accessed or Dirty, everything else that was asked for, and what it granted
      before exactly if something asked for was missing and the request may override or copy on write. */
  lemma MergedGrants(held: Flags, flags: Flags, actions: Actions, x: Flag)
    ensures x in MergedFlags(held, flags, actions) <==>
      && x != Accessed && x != Dirty
      && (x in flags || (x in held && (actions.cow || actions.override) && exists y :: y in flags && y !in held))
  {
    assert flags <= held <==> !exists y :: y in flags && y !in held;
  }

  /** The flags a step leaves in its entry: those asked for in a new one; in an old one the merged flags, if they
      include write access or everything is copied, and otherwise what was there. */
  lemma StepFlags(q: Store, t: Addr, i: nat, f: Flags, actions: Actions)
    requires Slot(q, t, i) && Present in f && BigPage !in f
    ensures var r, e := EnsureSingle(q, t, i, f, actions), q.tables[t].entries[i];
      && t in r.tables && |r.tables[t].entries| == 512
      && r.tables[t].entries[i].flags ==
           if !IsPresent(e) then f
           else if Writable in MergedFlags(e.flags, f, actions) || actions.copyAll then MergedFlags(e.flags, f, actions)
           else e.flags
  {
    hide Tallied, Placed, Counted;
  }

  lemma StepGrantsWrite(q: Store, base: Addr, v: nat, f: Flags, actions: Actions, n: nat)
    requires MapArgs(q, base, v, f) && Writable in f && 2 <= n <= 4 && At(q.tables, base, v, n).Some?
    ensures WritableAt(PagingSharing.Step(q, base, v, f, actions, n), base, v, n)
  {
    hide Valid, EnsureSingle, Index;
    EnsureStep(q, base, v, f, actions, n);
    WalkStays(q, base, v, n);
    StepFlags(q, At(q.tables, base, v, n).value, Index(n, v), f, actions);
  }

  /** A step of a writable request takes write access from no private path. */
  lemma StepKeepsWrite(q: Store, t: Addr, i: nat, f: Flags, actions: Actions, base: Addr, w: nat, k: nat)
    requires Slot(q, t, i) && Present in f && Writable in f && BigPage !in f && IsRoot(q, base) && w < USER_PAGES
    requires 2 <= k <= 4 && WritableAt(q, base, w, k) && (forall j | k <= j <= 3 :: Unshared(q, At(q.tables, base, w, j)))
    requires k < 4 ==> At(q.tables, base, w, k).Some?
    ensures WritableAt(EnsureSingle(q, t, i, f, actions), base, w, k)
  {
    hide Valid, EnsureSingle, Index;
    var r, n := EnsureSingle(q, t, i, f, actions), q.tables[t].level;
    SlotLevel(q, t, i);
    StepWalks(q, t, i, f, actions, base, w, n, k);
    WalkStays(q, base, w, k);
    var x := At(q.tables, base, w, k).value;
    ShapedAt(q, x);
    if k < 4 { assert Unshared(q, At(q.tables, base, w, k)); }
    if k == 4 { RootIsNobodys(q, t, i, x); }
    if x == t && Index(k, w) == i {
      StepFlags(q, t, i, f, actions);
    } else {
      StepKeepsEntries(q, t, i, f, actions, x, Index(k, w));
    }
  }

  lemma {:induction false} EnsureGrantsWrite(s: Store, base: Addr, v: nat, f: Flags, actions: Actions, k: nat, m: nat)
    requires MapArgs(s, base, v, f) && Writable in f && k <= 3 && 5 - k <= m <= 4
    ensures WritableAt(EnsureSteps(s, base, v, f, actions, k), base, v, m)
  {
    hide Valid, EnsureSingle, Index, SameMeaning;
    if k > 0 {
      var q, n := EnsureSteps(s, base, v, f, actions, k - 1), 5 - k;
      EnsureStep(q, base, v, f, actions, n);
      if m == n {
        StepGrantsWrite(q, base, v, f, actions, n);
      } else {
        EnsureGrantsWrite(s, base, v, f, actions, k - 1, m);
        WalkStays(q, base, v, n); WalkStays(q, base, v, m);
      }
    }
  }

  lemma {:induction false} EnsureKeepsWrite(s: Store, base: Addr, v: nat, f: Flags, actions: Actions, k: nat, w: nat)
    requires MapArgs(s, base, v, f) && Writable in f && k <= 3 && w < USER_PAGES && OwnPath(s, base, w) && WritableWalk(s, base, w)
    ensures var r := EnsureSteps(s, base, v, f, actions, k); OwnPath(r, base, w) && WritableWalk(r, base, w)
  {
    hide Valid, SameMeaning, KeepsAbove, EnsureSingle;
    if k > 0 {
      var q, r := EnsureSteps(s, base, v, f, actions, k - 1), EnsureSteps(s, base, v, f, actions, k);
      EnsureKeepsWrite(s, base, v, f, actions, k - 1, w);
      EnsureStep(q, base, v, f, actions, 5 - k);
      var t, i := At(q.tables, base, v, 5 - k).value, Index(5 - k, v);
      StepKeepsPath(q, t, i, f, actions, base, w);
      forall m | 2 <= m <= 4 ensures WritableAt(r, base, w, m) {
        assert WritableAt(q, base, w, m);
        StepKeepsWrite(q, t, i, f, actions, base, w, m);
      }
      assert Unshared(r, At(r.tables, base, w, 1));
    }
  }

  lemma LeafKeepsWrite(s: Store, base: Addr, v: nat, frame: Addr, f: Flags, w: nat)
    requires Reachable(s, base, v, f) && w < USER_PAGES && WritableWalk(s, base, w)
    ensures WritableWalk(MapLeaf(s, base, v, frame, f), base, w)
  {
    hide Valid, Index;
    WalkStays(s, base, v, 1);
    var r, y := MapLeaf(s, base, v, frame, f), At(s.tables, base, v, 1).value;
    LeafKeepsWalk(s, r, y, base, w, 1);
    forall m | 2 <= m <= 4 ensures WritableAt(r, base, w, m) {
      assert WritableAt(s, base, w, m);
      LeafKeepsWalk(s, r, y, base, w, m);
      WalkStays(s, base, w, m);
    }
  }

  /** Page w is private and open for writing. */
  ghost predicate Open(s: Store, base: Addr, w: nat) {
    OwnPath(s, base, w) && WritableWalk(s, base, w)
  }

  lemma {:induction false} MapFromKeepsWrite(s: Store, base: Addr, v: nat, frames: seq<Addr>, f: Flags, actions: Actions, w: nat)
    requires Reachable(s, base, v, f) && Writable in f && v + |frames| <= USER_PAGES && w < USER_PAGES && Open(s, base, w)
    ensures Open(MapFrom(s, base, v, frames, f, actions), base, w)
    decreases |frames|
  {
    hide Valid, MapLeaf, EnsureSteps, OwnPath, WritableWalk;
    if frames != [] {
      var s1 := MapLeaf(s, base, v, frames[0], f);
      LeafKeepsPath(s, base, v, frames[0], f, w);
      LeafKeepsWrite(s, base, v, frames[0], f, w);
      if |frames| > 1 {
        Advances(s, base, v, frames[0], f, actions);
        EnsureKeepsWrite(s1, base, v + 1, f, actions, 3, w);
        MapFromKeepsWrite(Advance(s1, base, v + 1, f, actions), base, v + 1, frames[1..], f, actions, w);
      }
    }
  }

  lemma EnsureOpens(s: Store, base: Addr, v: nat, f: Flags, actions: Actions)
    requires MapArgs(s, base, v, f) && Writable in f
    ensures Open(Ensure(s, base, v, f, actions), base, v)
  {
    hide Valid, EnsureSteps, OwnPath, WritableAt;
    EnsureUnshares(s, base, v, f, actions);
    EnsureTranslates(s, base, v, f, actions);
    forall m | 2 <= m <= 4 ensures WritableAt(Ensure(s, base, v, f, actions), base, v, m) { EnsureGrantsWrite(s, base, v, f, actions, 3, m); }
  }

  lemma NextOpens(s: Store, base: Addr, v: nat, frame: Addr, f: Flags, actions: Actions)
    requires Reachable(s, base, v, f) && v + 1 < USER_PAGES && Writable in f && Open(s, base, v)
    ensures Open(Advance(MapLeaf(s, base, v, frame, f), base, v + 1, f, actions), base, v + 1)
  {
    hide Valid, MapLeaf, Ensure, OwnPath, Index;
    var s1, u := MapLeaf(s, base, v, frame, f), v + 1;
    if u % 512 == 0 {
      EnsureOpens(s1, base, u, f, actions);
    } else {
      AdvanceOwns(s, base, v, frame, f, actions);
      LeafKeepsWrite(s, base, v, frame, f, v);
      assert v / 512 == u / 512;
      SameWalk(s1.tables, base, v, u, 1);
      forall m | 2 <= m <= 4 ensures WritableAt(s1, base, u, m) {
        assert WritableAt(s1, base, v, m);
        SameWalk(s1.tables, base, v, u, m);
        SameIndex(v, u, m);
      }
    }
  }

  lemma SameIndex(v: nat, w: nat, m: nat)
    requires v / 512 == w / 512 && 2 <= m <= 4
    ensures Index(m, v) == Index(m, w)
  {
    assert v / 262144 == v / 512 / 512 && w / 262144 == w / 512 / 512;
    assert v / 134217728 == v / 512 / 262144 && w / 134217728 == w / 512 / 262144;
  }

  lemma {:induction false} MapFromOpens(s: Store, base: Addr, v: nat, frames: seq<Addr>, f: Flags, actions: Actions, w: nat)
    requires Reachable(s, base, v, f) && Writable in f && v + |frames| <= USER_PAGES && v <= w < v + |frames| && Open(s, base, v)
    ensures Open(MapFrom(s, base, v, frames, f, actions), base, w)
    decreases |frames|
  {
    hide Valid, MapLeaf, Advance, Open;
    if w == v {
      MapFromKeepsWrite(s, base, v, frames, f, actions, w);
    } else {
      var s1 := MapLeaf(s, base, v, frames[0], f);
      Advances(s, base, v, frames[0], f, actions);
      NextOpens(s, base, v, frames[0], f, actions);
      MapFromOpens(Advance(s1, base, v + 1, f, actions), base, v + 1, frames[1..], f, actions, w);
    }
  }

  /** After a writable mapping every page of the range can be written: each entry on the way to it, and its own, grants
      that, through tables of its space alone. */
  lemma MapToOpens(s: Store, base: Addr, v: nat, frames: seq<Addr>, flags: Flags, actions: Actions, w: nat)
    requires MapArgs(s, base, v, flags + {Present}) && Writable in flags && v + |frames| <= USER_PAGES && v <= w < v + |frames|
    ensures var r := MapTo(s, base, v, frames, flags, actions);
      && OwnPath(r, base, w) && WritableWalk(r, base, w)
      && LeafEntry(r, base, w).Some? && Writable in LeafEntry(r, base, w).value.flags
  {
    hide Valid, EnsureSteps, MapFrom, LeafEntry, OwnPath, WritableWalk;
    var f := flags + {Present};
    EnsureTranslates(s, base, v, f, actions);
    EnsureOpens(s, base, v, f, actions);
    MapFromOpens(Ensure(s, base, v, f, actions), base, v, frames, f, actions, w);
    MapToWrites(s, base, v, frames, flags, actions, w);
  }

  /** The root entry on the way to a page about to be removed: its flags merged with the page's own. */
  lemma UnmapRootFlags(s: Store, base: Addr, v: nat)
    requires Mapped(s, base, v)
    ensures var q, i := Privatised(s, base, v), Index(4, v);
      && base in q.tables && base in s.tables && i < |q.tables[base].entries| && i < |s.tables[base].entries|
      && q.tables[base].entries[i].flags == MergedFlags(s.tables[base].entries[i].flags, LeafFlags(s, base, v), Actions(true, true, true))
  {
    hide Valid, SameMeaning, SameSpaces, OwnPath, EnsureSingle;
    MappedLeaf(s, base, v);
    var f := LeafFlags(s, base, v);
    var q0, q1, q2 := EnsureSteps(s, base, v, f, COPY_ALL, 0), EnsureSteps(s, base, v, f, COPY_ALL, 1), EnsureSteps(s, base, v, f, COPY_ALL, 2);
    ReachesDown(s.tables, base, v, 1, 3);
    ShapedAt(s, base);
    EnsureStep(s, base, v, f, COPY_ALL, 4);
    StepFlags(s, base, Index(4, v), f, COPY_ALL);
    EnsureStep(q1, base, v, f, COPY_ALL, 3); WalkStays(q1, base, v, 3);
    EnsureStep(q2, base, v, f, COPY_ALL, 2); WalkStays(q2, base, v, 2);
  }

  lemma RootIsNobodys(q: Store, t: Addr, i: nat, x: Addr)
    requires Slot(q, t, i) && IsRoot(q, x)
    ensures IsPresent(q.tables[t].entries[i]) ==> q.tables[t].entries[i].addr != x
  {
  }

  // ----------------------------------------------------------------------- every run

  datatype Event =
    | NewRoot
    | Map(base: Addr, v: nat, frames: seq<Addr>, flags: Flags, actions: Actions)
    | Unmap(base: Addr, v: nat, pages: nat)
    | Fork(from: Addr)

  const NOTHING := Store(map[], map[], map[])

  ghost predicate Good(s: Store) {
    Valid(s) && Private(s)
  }

  /** An operation on a root that does not exist, or on pages outside the user half, does not occur. */
  ghost function Step(s: Store, e: Event): Store
    requires Valid(s)
  {
    match e
    case NewRoot => NewSpace(s)
    case Map(base, v, frames, flags, actions) =>
      if MapArgs(s, base, v, flags + {Present}) && v + |frames| <= USER_PAGES then MapTo(s, base, v, frames, flags, actions) else s
    case Unmap(base, v, pages) => if InRange(s, base, v, 0, pages) then PagingCoverage.Unmap(s, base, v, pages) else s
    case Fork(from) =>
      if !IsRoot(s, from) then s
      else
        NewSpaceBlank(s, from);
        CloneFrom(NewSpace(s), from, Fresh(s), 0, REGIONS)
  }

  lemma StepGood(s: Store, e: Event)
    requires Good(s)
    ensures Good(Step(s, e))
  {
    hide Valid, Private, MapTo, PagingCoverage.Unmap, CloneFrom, NewSpace;
    match e {
      case NewRoot =>
        NewSpaceValid(s);
        NewSpacePrivate(s);
      case Map(base, v, frames, flags, actions) =>
        if MapArgs(s, base, v, flags + {Present}) && v + |frames| <= USER_PAGES {
          MapToRefines(s, base, v, frames, flags, actions);
          MapPrivate(s, base, v, frames, flags, actions);
        }
      case Unmap(base, v, pages) =>
        if InRange(s, base, v, 0, pages) { UnmapGood(s, base, v, pages); }
      case Fork(from) =>
        if IsRoot(s, from) {
          NewSpaceBlank(s, from);
          NewSpacePrivate(s);
          ForkCopiesExactly(NewSpace(s), from, Fresh(s));
          ClonePrivate(NewSpace(s), from, Fresh(s), 0, REGIONS);
        }
    }
  }

  lemma UnmapGood(s: Store, base: Addr, v: nat, pages: nat)
    requires Good(s) && InRange(s, base, v, 0, pages)
    ensures Good(PagingCoverage.Unmap(s, base, v, pages))
  {
    hide Valid, Private, UnmapFrom;
    PagingCoverage.UnmapStaysInRange(s, base, v, pages);
    UnmapFromPrivate(s, base, v, 0, pages);
  }

  ghost function Run(s: Store, es: seq<Event>): (r: Store)
    requires Good(s)
    ensures Good(r)
    decreases |es|
  {
    if es == [] then s
    else
      StepGood(s, es[0]);
      Run(Step(s, es[0]), es[1..])
  }

  lemma NothingGood()
    ensures Good(NOTHING)
  {
  }

  /** What a run from the empty store leads to. */
  ghost function Reached(es: seq<Event>): Store {
    NothingGood();
    Run(NOTHING, es)
  }

  /** The hardware lets `base` write at page v as far as the tables above the leaf decide. */
  ghost predicate WritableWalk(s: Store, base: Addr, v: nat) {
    && At(s.tables, base, v, 1).Some?
    && forall k | 2 <= k <= 4 :: WritableAt(s, base, v, k)
  }

  ghost predicate WritableAt(s: Store, base: Addr, v: nat, k: nat) {
    && At(s.tables, base, v, k).Some? && At(s.tables, base, v, k).value in s.tables
    && Index(k, v) < |s.tables[At(s.tables, base, v, k).value].entries|
    && Writable in s.tables[At(s.tables, base, v, k).value].entries[Index(k, v)].flags
  }

  lemma WritableWalkOwns(s: Store, base: Addr, v: nat)
    requires Good(s) && IsRoot(s, base) && v < USER_PAGES && WritableWalk(s, base, v)
    ensures OwnPath(s, base, v)
  {
    hide Valid, Index;
    forall k | 1 <= k <= 3 ensures Unshared(s, At(s.tables, base, v, k)) {
      var n := k + 1;
      assert WritableAt(s, base, v, n);
      WalkStays(s, base, v, n);
      ReachesDown(s.tables, base, v, 1, k);
      assert PrivateEntry(s, At(s.tables, base, v, n).value, Index(n, v));
    }
  }

  lemma {:induction false} ReachesDown(tb: map<Addr, Table>, base: Addr, v: nat, j: nat, k: nat)
    requires 1 <= j <= k <= 4 && At(tb, base, v, j).Some?
    ensures At(tb, base, v, k).Some?
    decreases k - j
  {
    if j < k { ReachesDown(tb, base, v, j + 1, k); }
  }

  /** After every run of new spaces, mappings, removals and forks, every entry that lets a space write is the
      only one that leads to its table. */
  lemma WritableIsUnshared(es: seq<Event>, t: Addr, i: nat)
    requires var s := Reached(es); t in s.tables && s.tables[t].level > 1 && i < Limit(s.tables[t].level) && i < |s.tables[t].entries|
    ensures var s := Reached(es); var e := s.tables[t].entries[i];
      IsPresent(e) && Writable in e.flags ==> e.addr in s.refs && s.refs[e.addr] == 1
  {
    assert PrivateEntry(Reached(es), t, i);
  }

  /** So where the tables let a space write, no other space's walk of any page ends in the same leaf table. */
  lemma WritersAreAlone(es: seq<Event>, base: Addr, v: nat, o: Addr, w: nat)
    requires var s := Reached(es); IsRoot(s, base) && IsRoot(s, o) && WritableWalk(s, base, v)
    requires v < USER_PAGES && w < USER_PAGES
    requires At(Reached(es).tables, o, w, 1) == At(Reached(es).tables, base, v, 1)
    ensures o == base && w / 512 == v / 512
  {
    hide Valid, Private, WritableWalk, OwnPath;
    var s := Reached(es);
    WritableWalkOwns(s, base, v);
    OwnWalk(s, base, v, o, w, 1);
  }
}
