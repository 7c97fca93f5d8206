/** Forking an address space: `clone_readonly_to` shares the tables behind root entries with
    another root, read-only on both sides. */
module PagingFork {
  import opened Options
  import opened PagingStore
  import opened PagingMap
  import opened PagingSharing
  import PagingCoverage

  /** Two roots, the second one without user entries from i on. */
  ghost predicate Blank(s: Store, from: Addr, to: Addr, i: nat) {
    && Valid(s) && IsRoot(s, from) && IsRoot(s, to) && from != to
    && |s.tables[from].entries| == |s.tables[to].entries| == 512
    && forall j | i <= j < 256 :: !IsPresent(s.tables[to].entries[j])
  }

  function CloneTables(tb: map<Addr, Table>, from: Addr, to: Addr, i: nat): map<Addr, Table>
    requires from in tb && to in tb && i < |tb[from].entries| && i < |tb[to].entries|
  {
    var e := Entry(tb[from].entries[i].addr, tb[from].entries[i].flags - {Writable});
    SetEntry(tb, from, i, e)
    [to := tb[to].(entries := tb[to].entries[i := e], counter := tb[to].counter + 1)]
  }

  /** Both roots lead to the table behind entry i of the first, and neither can write through it. */
  ghost function CloneEntry(s: Store, from: Addr, to: Addr, i: nat): Store
    requires Blank(s, from, to, i) && i < 256 && IsPresent(s.tables[from].entries[i])
  {
    var c := s.tables[from].entries[i].addr;
    s.(tables := CloneTables(s.tables, from, to, i), refs := s.refs[c := s.refs[c] + 1])
  }

  lemma CloneParents(tb: map<Addr, Table>, from: Addr, to: Addr, i: nat, x: Addr)
    requires Shaped(tb) && from in tb && to in tb && from != to && tb[from].level == 4 && tb[to].level == 4 && i < 256
    requires IsPresent(tb[from].entries[i]) && !IsPresent(tb[to].entries[i])
    ensures Parents(CloneTables(tb, from, to, i), x)
         == Parents(tb, x) + if x == tb[from].entries[i].addr then {(to, i as int)} else {}
  {
    var tb' := CloneTables(tb, from, to, i);
    forall y, j | y in tb && 0 <= j < 512 && !(y == to && j == i)
      ensures Points(tb'[y].entries[j], x) == Points(tb[y].entries[j], x) && tb'[y].level == tb[y].level {
    }
  }

  lemma CloneLinks(tb: map<Addr, Table>, from: Addr, to: Addr, i: nat)
    requires Shaped(tb) && Linked(tb) && Tallied(tb)
    requires from in tb && to in tb && from != to && tb[from].level == 4 && tb[to].level == 4 && i < 256
    requires IsPresent(tb[from].entries[i]) && !IsPresent(tb[to].entries[i])
    ensures var tb' := CloneTables(tb, from, to, i); Shaped(tb') && Linked(tb') && Tallied(tb')
  {
    var tb' := CloneTables(tb, from, to, i);
    forall x, j | x in tb' && 0 <= j < Limit(tb'[x].level) && IsPresent(tb'[x].entries[j])
      ensures BigPage !in tb'[x].entries[j].flags
      ensures tb'[x].level > 1 ==> tb'[x].entries[j].addr in tb'
                                   && tb'[tb'[x].entries[j].addr].level == tb'[x].level - 1
    {
      if j != i { assert tb'[x].entries[j] == tb[x].entries[j]; }
    }
  }

  lemma CloneCounted(s: Store, from: Addr, to: Addr, i: nat)
    requires Blank(s, from, to, i) && i < 256 && IsPresent(s.tables[from].entries[i])
    ensures var r := CloneEntry(s, from, to, i); Counted(r.tables, r.refs)
  {
    hide Parents, Linked, Tallied, Placed;
    var r := CloneEntry(s, from, to, i);
    forall x | x in r.tables ensures x in r.refs && (r.tables[x].level < 4 ==> r.refs[x] == |Parents(r.tables, x)|) {
      CloneParents(s.tables, from, to, i, x);
      NotParent(s.tables, to, i, x);
    }
  }

  lemma NotParent(tb: map<Addr, Table>, t: Addr, i: nat, x: Addr)
    requires t in tb && i < |tb[t].entries| && !IsPresent(tb[t].entries[i])
    ensures (t, i as int) !in Parents(tb, x)
  {
  }

  lemma ClonePlaced(s: Store, from: Addr, to: Addr, i: nat)
    requires Blank(s, from, to, i) && i < 256 && IsPresent(s.tables[from].entries[i])
    requires Shaped(CloneEntry(s, from, to, i).tables)
    ensures Placed(CloneEntry(s, from, to, i).tables, s.place)
  {
    hide Counted, Tallied;
    var tb' := CloneEntry(s, from, to, i).tables;
    forall x, j | x in tb' && tb'[x].level > 1 && 0 <= j < Limit(tb'[x].level) && IsPresent(tb'[x].entries[j])
      ensures tb'[x].entries[j].addr in s.place && s.place[tb'[x].entries[j].addr] == s.place[x] * 512 + j
    {
      if j != i { assert tb'[x].entries[j] == s.tables[x].entries[j]; }
    }
  }

  lemma CloneValid(s: Store, from: Addr, to: Addr, i: nat)
    requires Blank(s, from, to, i) && i < 256 && IsPresent(s.tables[from].entries[i])
    ensures Blank(CloneEntry(s, from, to, i), from, to, i + 1)
  {
    CloneLinks(s.tables, from, to, i);
    CloneCounted(s, from, to, i);
    ClonePlaced(s, from, to, i);
    hide Counted, Placed, Linked, Tallied;
  }

  /** The walks of the second root follow those of the first below entry i; all others stay. */
  lemma {:induction false} CloneLookup(s: Store, from: Addr, to: Addr, i: nat, x: Addr, v: nat)
    requires Blank(s, from, to, i) && i < 256 && IsPresent(s.tables[from].entries[i])
    requires x in s.tables && v < USER_PAGES
    ensures Lookup(CloneEntry(s, from, to, i).tables, x, s.tables[x].level, v)
         == Lookup(s.tables, if x == to && Index(4, v) == i then from else x, s.tables[x].level, v)
    decreases s.tables[x].level
  {
    var r := CloneEntry(s, from, to, i);
    var y := if x == to && Index(4, v) == i then from else x;
    var j := Index(s.tables[x].level, v);
    assert SameTarget(s.tables[y].entries[j], r.tables[x].entries[j]);
    if s.tables[x].level > 1 && IsPresent(s.tables[y].entries[j]) {
      CloneLookup(s, from, to, i, s.tables[y].entries[j].addr, v);
    }
  }

  /** The loop over `rounds` third-level regions, at root entry i: an absent entry is looked at
      again in every later round. */
  ghost function CloneFrom(s: Store, from: Addr, to: Addr, i: nat, rounds: nat): Store
    requires Blank(s, from, to, i)
    decreases rounds
  {
    if rounds == 0 || i >= 256 then s
    else if !IsPresent(s.tables[from].entries[i]) then CloneFrom(s, from, to, i, rounds - 1)
    else
      CloneValid(s, from, to, i);
      CloneFrom(CloneEntry(s, from, to, i), from, to, i + 1, rounds - 1)
  }

  /** Root entries i..k are all present. */
  ghost predicate AllPresent(s: Store, from: Addr, i: nat, k: nat)
    requires from in s.tables && |s.tables[from].entries| == 512
  {
    forall j | i <= j <= k < 512 :: IsPresent(s.tables[from].entries[j])
  }

  /** What the second root translates afterwards: the pages of the leading run of present entries. */
  ghost function Shared(s: Store, from: Addr, to: Addr, i: nat, rounds: nat, w: nat): Option<Addr>
    requires Blank(s, from, to, i)
  {
    if i <= Index(4, w) < i + rounds && AllPresent(s, from, i, Index(4, w)) then Translate(s, from, w)
    else Translate(s, to, w)
  }

  lemma {:induction false} CloneTranslates(s: Store, from: Addr, to: Addr, i: nat, rounds: nat, o: Addr, w: nat)
    requires Blank(s, from, to, i) && IsRoot(s, o) && w < USER_PAGES
    ensures var r := CloneFrom(s, from, to, i, rounds);
      && Valid(r) && IsRoot(r, o)
      && Translate(r, o, w) == if o == to then Shared(s, from, to, i, rounds, w) else Translate(s, o, w)
    decreases rounds
  {
    hide Valid, Index, CloneEntry, Lookup;
    if rounds > 0 && i < 256 {
      if IsPresent(s.tables[from].entries[i]) {
        var q := CloneEntry(s, from, to, i);
        CloneValid(s, from, to, i);
        CloneShape(s, from, to, i, o);
        CloneLookup(s, from, to, i, o, w);
        CloneLookup(s, from, to, i, from, w);
        CloneLookup(s, from, to, i, to, w);
        CloneTranslates(q, from, to, i + 1, rounds - 1, o, w);
      } else {
        CloneTranslates(s, from, to, i, rounds - 1, o, w);
      }
    }
  }

  lemma CloneShape(s: Store, from: Addr, to: Addr, i: nat, o: Addr)
    requires Blank(s, from, to, i) && i < 256 && IsPresent(s.tables[from].entries[i]) && IsRoot(s, o)
    ensures var q := CloneEntry(s, from, to, i);
      && IsRoot(q, o) && IsRoot(q, from) && |q.tables[from].entries| == 512 && |s.tables[from].entries| == 512
      && forall j | 0 <= j < 512 :: IsPresent(q.tables[from].entries[j]) == IsPresent(s.tables[from].entries[j])
  {
  }

  /** Third-level regions in the user half: the rounds a fork asks for. */
  const REGIONS: nat := 131072

  /** Forking into a new address space changes no translation of any space there was, and the new
      one translates as the old one exactly if every root entry up to its last mapped page is present. */
  lemma ForkCopiesExactly(s: Store, from: Addr, to: Addr)
    requires Blank(s, from, to, 0)
    ensures var r := CloneFrom(s, from, to, 0, REGIONS);
      && Valid(r) && OthersKept(s, r, to) && IsRoot(r, to)
      && ((forall w: nat | w < USER_PAGES :: Translate(r, to, w) == Translate(s, from, w)) <==>
          (forall w: nat | w < USER_PAGES && Translate(s, from, w).Some? :: AllPresent(s, from, 0, Index(4, w))))
  {
    hide Valid, Index, CloneEntry, Lookup, CloneFrom;
    var r := CloneFrom(s, from, to, 0, REGIONS);
    CloneTranslates(s, from, to, 0, REGIONS, from, 0);
    CloneTranslates(s, from, to, 0, REGIONS, to, 0);
    forall o, w: nat | IsRoot(s, o) && o != to && w < USER_PAGES ensures SameAt(s, r, o, w) {
      CloneTranslates(s, from, to, 0, REGIONS, o, w);
    }
    forall w: nat | w < USER_PAGES
      ensures Translate(r, to, w) == if AllPresent(s, from, 0, Index(4, w)) then Translate(s, from, w) else None
    {
      CloneTranslates(s, from, to, 0, REGIONS, to, w);
      BlankTranslates(s, from, to, w);
    }
  }

  lemma BlankTranslates(s: Store, from: Addr, to: Addr, w: nat)
    requires Blank(s, from, to, 0) && w < USER_PAGES
    ensures Translate(s, to, w) == None
  {
  }

  // ----------------------------------------------------- mapping after a fork

  /** Root entry j of both spaces leads to one table, and neither can write through it. */
  ghost predicate Cloned(s: Store, from: Addr, to: Addr, j: nat) {
    && from in s.tables && to in s.tables && j < |s.tables[from].entries| == |s.tables[to].entries|
    && IsPresent(s.tables[from].entries[j]) && Writable !in s.tables[from].entries[j].flags
    && s.tables[to].entries[j] == s.tables[from].entries[j]
  }

  lemma {:induction false} CloneStays(s: Store, from: Addr, to: Addr, i: nat, rounds: nat, j: nat)
    requires Blank(s, from, to, i) && j < i && Cloned(s, from, to, j)
    ensures Cloned(CloneFrom(s, from, to, i, rounds), from, to, j)
    decreases rounds
  {
    hide Valid;
    if rounds > 0 && i < 256 {
      if IsPresent(s.tables[from].entries[i]) {
        CloneValid(s, from, to, i);
        CloneStays(CloneEntry(s, from, to, i), from, to, i + 1, rounds - 1, j);
      } else {
        CloneStays(s, from, to, i, rounds - 1, j);
      }
    }
  }

  lemma {:induction false} CloneReaches(s: Store, from: Addr, to: Addr, i: nat, rounds: nat, j: nat)
    requires Blank(s, from, to, i) && i <= j < i + rounds && j < 256 && AllPresent(s, from, i, j)
    ensures Cloned(CloneFrom(s, from, to, i, rounds), from, to, j)
    decreases rounds
  {
    hide Valid;
    CloneValid(s, from, to, i);
    CloneShape(s, from, to, i, from);
    var q := CloneEntry(s, from, to, i);
    if i == j {
      assert Cloned(q, from, to, j);
      CloneStays(q, from, to, i + 1, rounds - 1, j);
    } else {
      CloneReaches(q, from, to, i + 1, rounds - 1, j);
    }
  }

  /** The old root's entries afterwards: those of the leading run lose write access and nothing else, all others are
      as they were. */
  lemma {:induction false} CloneFlags(s: Store, from: Addr, to: Addr, i: nat, rounds: nat, j: nat)
    requires Blank(s, from, to, i) && j < 256
    ensures var r := CloneFrom(s, from, to, i, rounds); var e := s.tables[from].entries[j];
      && from in r.tables && |r.tables[from].entries| == 512
      && r.tables[from].entries[j] ==
           if i <= j < i + rounds && AllPresent(s, from, i, j) then Entry(e.addr, e.flags - {Writable}) else e
    decreases rounds
  {
    hide Valid;
    if rounds > 0 && i < 256 {
      if IsPresent(s.tables[from].entries[i]) {
        CloneValid(s, from, to, i);
        CloneShape(s, from, to, i, from);
        CloneFlags(CloneEntry(s, from, to, i), from, to, i + 1, rounds - 1, j);
      } else {
        CloneFlags(s, from, to, i, rounds - 1, j);
      }
    }
  }

  /** A read-only request through a cloned root entry copies nothing on the way. */
  lemma ClonedStaysShared(r: Store, from: Addr, to: Addr, v: nat, f: Flags, actions: Actions, a: Addr, b: Addr)
    requires Valid(r) && Cloned(r, from, to, Index(4, v)) && v < USER_PAGES && {a, b} == {from, to}
    requires |r.tables[from].entries| == 512 && Writable !in f && !actions.copyAll
    ensures StaysShared(r, a, b, v, f, actions, 4)
  {
    hide Valid, Index;
    assert At(r.tables, a, v, 4) == Some(a) && At(r.tables, b, v, 4) == Some(b);
    assert At(r.tables, a, v, 3) == Some(r.tables[from].entries[Index(4, v)].addr);
    assert Meet(r, a, b, v, 3);
    assert !Copies(r, a, v, f, actions, 4);
  }

  /** After a fork, mapping a page of the cloned run in either space is kept from the other exactly
      if the mapping is writable, copies everything or brings the frame that was there. */
  lemma ForkedPageIsolation(s: Store, from: Addr, to: Addr, v: nat, frame: Addr, flags: Flags, actions: Actions, a: Addr, b: Addr)
    requires Blank(s, from, to, 0) && v < USER_PAGES && {a, b} == {from, to} && BigPage !in flags
    requires AllPresent(s, from, 0, Index(4, v))
    ensures var r := CloneFrom(s, from, to, 0, REGIONS);
      && Valid(r) && IsRoot(r, a) && IsRoot(r, b)
      && (SameAt(r, MapTo(r, a, v, [frame], flags, actions), b, v) <==>
          Writable in flags || actions.copyAll || Translate(s, from, v) == Some(frame))
  {
    hide Valid, CloneFrom, Lookup, StaysShared, MapTo;
    var r := CloneFrom(s, from, to, 0, REGIONS);
    CloneTranslates(s, from, to, 0, REGIONS, from, v);
    CloneTranslates(s, from, to, 0, REGIONS, to, v);
    CloneReaches(s, from, to, 0, REGIONS, Index(4, v));
    ShapedAt(r, from);
    PageIsolationExactly(r, a, b, v, frame, flags, actions, v);
    if Writable !in flags && !actions.copyAll {
      ClonedStaysShared(r, from, to, v, flags + {Present}, actions, a, b);
    }
  }

  // ------------------------------------------------------------ a new space

  /** A new root, without user entries. */
  function NewSpace(s: Store): Store {
    Store(s.tables[Fresh(s) := NewTable(4)], s.refs[Fresh(s) := 1], s.place[Fresh(s) := 0])
  }

  lemma NewSpaceParents(s: Store, x: Addr)
    ensures Parents(NewSpace(s).tables, x) == Parents(s.tables, x)
  {
    var tb, tb' := s.tables, NewSpace(s).tables;
    forall y | y in tb ensures tb'[y] == tb[y] { }
  }

  lemma {:induction false} NewSpaceLookup(s: Store, x: Addr, v: nat)
    requires Valid(s) && x in s.tables && v < USER_PAGES
    ensures Lookup(NewSpace(s).tables, x, s.tables[x].level, v) == Lookup(s.tables, x, s.tables[x].level, v)
    decreases s.tables[x].level
  {
    hide Counted, Tallied, Placed, Index;
    var e := s.tables[x].entries[Index(s.tables[x].level, v)];
    if s.tables[x].level > 1 && IsPresent(e) { NewSpaceLookup(s, e.addr, v); }
  }

  lemma NewSpaceValid(s: Store)
    requires Valid(s)
    ensures Valid(NewSpace(s))
  {
    hide Parents;
    var r := NewSpace(s);
    forall x ensures Parents(r.tables, x) == Parents(s.tables, x) { NewSpaceParents(s, x); }
    assert Counted(r.tables, r.refs) by { hide Linked, Tallied, Placed; }
    NewSpaceLinks(s);
  }

  lemma NewSpaceLinks(s: Store)
    requires Valid(s)
    ensures var r := NewSpace(s); Shaped(r.tables) && Linked(r.tables) && Tallied(r.tables) && Placed(r.tables, r.place)
  {
    hide Counted, PresentCount;
  }

  /** A new space is ready to be forked into and disturbs nobody. */
  lemma NewSpaceBlank(s: Store, from: Addr)
    requires Valid(s) && IsRoot(s, from)
    ensures Blank(NewSpace(s), from, Fresh(s), 0) && SameSpaces(s, NewSpace(s))
  {
    hide Valid;
    NewSpaceValid(s);
    ShapedAt(s, from);
    forall o, w: nat | IsRoot(s, o) && w < USER_PAGES ensures SameAt(s, NewSpace(s), o, w) { NewSpaceLookup(s, o, w); }
  }

  /** The space that maps page w alone, forked. */
  ghost function Forked(w: nat): Store
    requires w < USER_PAGES
  {
    var s := PagingCoverage.Lone(w);
    PagingCoverage.LoneValid(w);
    NewSpaceBlank(s, 0);
    CloneFrom(NewSpace(s), 0, Fresh(s), 0, REGIONS)
  }

  lemma LonePresent(w: nat)
    requires w < USER_PAGES
    ensures var s := PagingCoverage.Lone(w);
      && Valid(s) && Blank(NewSpace(s), 0, Fresh(s), 0)
      && Translate(s, 0, w) == Some(0) && Translate(NewSpace(s), 0, w) == Some(0)
      && (AllPresent(NewSpace(s), 0, 0, Index(4, w)) <==> Index(4, w) == 0)
  {
    hide Valid, Lookup, Index;
    var s := PagingCoverage.Lone(w);
    PagingCoverage.LoneValid(w);
    PagingCoverage.LoneFrame(w);
    NewSpaceBlank(s, 0);
    assert SameAt(s, NewSpace(s), 0, w);
    SingleLeading(NewSpace(s), Index(4, w));
  }

  lemma SingleLeading(s: Store, k: nat)
    requires k < 512 && 0 in s.tables && s.tables[0] == PagingCoverage.Single(4, k, 1)
    ensures AllPresent(s, 0, 0, k) <==> k == 0
  {
    assert k > 0 ==> !IsPresent(s.tables[0].entries[0]);
  }

  /** Two forks that go wrong: a read-only mapping of the new space shows up in the old one, and
      a page behind an absent root entry is not inherited. */
  lemma ForkWitnesses(w: nat)
    requires w < USER_PAGES
    ensures var r, to := Forked(w), Fresh(PagingCoverage.Lone(w));
      && Valid(r) && IsRoot(r, to)
      && Translate(r, 0, w) == Some(0)
      && (Index(4, w) > 0 ==> Translate(r, to, w) == None)
      && (Index(4, w) == 0 ==> !SameAt(r, MapTo(r, to, w, [1], {}, Actions(true, false, false)), 0, w))
  {
    hide Valid, Translate, CloneFrom, MapTo, SameAt;
    var s := PagingCoverage.Lone(w);
    var n, to := NewSpace(s), Fresh(s);
    LonePresent(w);
    CloneTranslates(n, 0, to, 0, REGIONS, 0, w);
    CloneTranslates(n, 0, to, 0, REGIONS, to, w);
    BlankTranslates(n, 0, to, w);
    if Index(4, w) == 0 {
      ForkedPageIsolation(n, 0, to, w, 1, {}, Actions(true, false, false), to, 0);
    }
  }
}
