/** Page-table memory: the tables of every address space, kept in one store so
    that address spaces can share sub-tables.

    A table is 512 entries, its level (4 for a root, 1 for a table of leaves) and
    the present-entry counter the kernel keeps beside the page.  `refs` is the
    page reference count of each allocated table.  Only the user half of a root
    (256 entries) takes part. */
module PagingStore {
  import opened Options

  type Addr = nat

  datatype Flag = Present | Writable | User | WriteThrough | CacheDisable | Accessed | Dirty | BigPage

  type Flags = set<Flag>

  datatype Entry = Entry(addr: Addr, flags: Flags)

  datatype Table = Table(level: nat, entries: seq<Entry>, counter: nat)

  /** `place` is kept by the model alone: the page-number prefix a table serves. */
  datatype Store = Store(tables: map<Addr, Table>, refs: map<Addr, nat>, place: map<Addr, nat>)

  const EMPTY := Entry(0, {})

  /** Pages of the user half: 256 root entries of 512^3 pages each. */
  const USER_PAGES: nat := 34359738368

  predicate IsPresent(e: Entry) {
    Present in e.flags
  }

  predicate Points(e: Entry, x: Addr) {
    IsPresent(e) && e.addr == x
  }

  function Limit(level: nat): nat {
    if level == 4 then 256 else 512
  }

  /** The index a page number selects in a table of the given level. */
  function Index(level: nat, v: nat): (i: nat)
    ensures i < 512
    ensures level == 4 && v < USER_PAGES ==> i < 256
  {
    match level
    case 1 => v % 512
    case 2 => v / 512 % 512
    case 3 => v / 262144 % 512
    case _ => v / 134217728 % 512
  }

  ghost function PresentCount(es: seq<Entry>): nat {
    |set i | 0 <= i < |es| && IsPresent(es[i])|
  }

  /** How many entries of a table point at x. */
  ghost function Occurrences(es: seq<Entry>, x: Addr): nat {
    |set i | 0 <= i < |es| && Points(es[i], x)|
  }

  /** The table entries, in tables above the leaf level, that point at x. */
  ghost function Parents(tb: map<Addr, Table>, x: Addr): set<(Addr, int)> {
    set t, i | t in tb && tb[t].level > 1 && 0 <= i < Limit(tb[t].level) && i < |tb[t].entries|
               && Points(tb[t].entries[i], x) :: (t, i)
  }

  ghost predicate Shaped(tb: map<Addr, Table>) {
    forall t | t in tb :: |tb[t].entries| == 512 && 1 <= tb[t].level <= 4
  }

  /** A present entry above the leaf level leads to a table one level down and is no large page. */
  ghost predicate Linked(tb: map<Addr, Table>)
    requires Shaped(tb)
  {
    forall t, i | t in tb && 0 <= i < Limit(tb[t].level) && IsPresent(tb[t].entries[i]) ::
      && BigPage !in tb[t].entries[i].flags
      && (tb[t].level > 1 ==> tb[t].entries[i].addr in tb && tb[tb[t].entries[i].addr].level == tb[t].level - 1)
  }

  /** Every table below a root has as many references as entries pointing at it. */
  ghost predicate Counted(tb: map<Addr, Table>, refs: map<Addr, nat>) {
    forall t | t in tb :: t in refs && (tb[t].level < 4 ==> refs[t] == |Parents(tb, t)|)
  }

  /** Every table below a root has a counter equal to its number of present entries. */
  ghost predicate Tallied(tb: map<Addr, Table>) {
    forall t | t in tb && tb[t].level < 4 :: tb[t].counter == PresentCount(tb[t].entries)
  }

  /** A table is only ever reached at one position of the address space. */
  ghost predicate Placed(tb: map<Addr, Table>, place: map<Addr, nat>)
    requires Shaped(tb)
  {
    && (forall t | t in tb :: t in place && (tb[t].level == 4 ==> place[t] == 0))
    && (forall t, i | t in tb && tb[t].level > 1 && 0 <= i < Limit(tb[t].level) && IsPresent(tb[t].entries[i]) ::
          tb[t].entries[i].addr in place && place[tb[t].entries[i].addr] == place[t] * 512 + i)
  }

  ghost predicate Valid(s: Store) {
    && Shaped(s.tables) && Linked(s.tables) && Tallied(s.tables)
    && Counted(s.tables, s.refs) && Placed(s.tables, s.place)
  }

  ghost predicate IsRoot(s: Store, base: Addr) {
    base in s.tables && s.tables[base].level == 4
  }

  /** The plain meaning of a table: the frame behind page v, if any. */
  function Lookup(tb: map<Addr, Table>, t: Addr, level: nat, v: nat): Option<Addr>
    decreases level
  {
    if level == 0 || t !in tb || |tb[t].entries| != 512 then None
    else
      var e := tb[t].entries[Index(level, v)];
      if !IsPresent(e) then None
      else if level == 1 then Some(e.addr)
      else Lookup(tb, e.addr, level - 1, v)
  }

  function Translate(s: Store, base: Addr, v: nat): Option<Addr> {
    Lookup(s.tables, base, 4, v)
  }

  /** The table of level k on the walk of page v from the root `base`. */
  function At(tb: map<Addr, Table>, base: Addr, v: nat, k: nat): Option<Addr>
    decreases 4 - k
  {
    if k >= 4 then Some(base)
    else
      match At(tb, base, v, k + 1)
      case None => None
      case Some(t) =>
        if t in tb && |tb[t].entries| == 512 && IsPresent(tb[t].entries[Index(k + 1, v)])
        then Some(tb[t].entries[Index(k + 1, v)].addr) else None
  }

  // ---------------------------------------------------------------- allocator

  function FirstFree(used: set<Addr>, a: Addr): (r: Addr)
    ensures r !in used && r >= a
    decreases |used|
  {
    if a !in used then a else FirstFree(used - {a}, a + 1)
  }

  /** The buddy allocator hands out a page nobody holds a reference to. */
  function Fresh(s: Store): (r: Addr)
    ensures r !in s.refs && r !in s.tables
  {
    FirstFree(s.refs.Keys + s.tables.Keys, 0)
  }

  function NewTable(level: nat): (t: Table)
    ensures |t.entries| == 512 && forall i | 0 <= i < 512 :: !IsPresent(t.entries[i])
  {
    Table(level, seq(512, _ => EMPTY), 0)
  }

  // ---------------------------------------------------------- one level down

  function ReadOnlyCopy(es: seq<Entry>, ro: Flags): (r: seq<Entry>)
    ensures |r| == |es|
  {
    seq(|es|, i requires 0 <= i < |es| => if IsPresent(es[i]) then Entry(es[i].addr, ro) else EMPTY)
  }

  function ReadOnlyInPlace(es: seq<Entry>, ro: Flags): (r: seq<Entry>)
    ensures |r| == |es|
  {
    seq(|es|, i requires 0 <= i < |es| => if IsPresent(es[i]) then Entry(es[i].addr, ro) else es[i])
  }

  ghost function AddReferences(refs: map<Addr, nat>, child: Table): map<Addr, nat> {
    if child.level > 1 then map a | a in refs :: refs[a] + Occurrences(child.entries, a) else refs
  }

  function SetEntry(tb: map<Addr, Table>, t: Addr, i: nat, e: Entry): map<Addr, Table>
    requires t in tb && i < |tb[t].entries|
  {
    tb[t := tb[t].(entries := tb[t].entries[i := e])]
  }

  ghost predicate Slot(s: Store, t: Addr, i: nat) {
    && Valid(s)
    && t in s.tables && s.tables[t].level > 1 && i < Limit(s.tables[t].level)
  }

  function UnshareTables(tb: map<Addr, Table>, t: Addr, i: nat, p: Addr, flags: Flags): map<Addr, Table>
    requires t in tb && i < |tb[t].entries| && tb[t].entries[i].addr in tb
  {
    var next := tb[t].entries[i].addr;
    var ro := flags - {Writable};
    tb[next := tb[next].(entries := ReadOnlyInPlace(tb[next].entries, ro))]
    [p := Table(tb[next].level, ReadOnlyCopy(tb[next].entries, ro), tb[next].counter)]
    [t := tb[t].(entries := tb[t].entries[i := Entry(p, flags)])]
  }

  /** Give the table behind a shared entry its own copy; both copies lose write access to
      the level below. */
  ghost function Unshare(s: Store, t: Addr, i: nat, flags: Flags): Store
    requires Slot(s, t, i) && IsPresent(s.tables[t].entries[i])
  {
    var next := s.tables[t].entries[i].addr;
    assert s.refs[next] > 0 by { assert (t, i) in Parents(s.tables, next); }
    Store(UnshareTables(s.tables, t, i, Fresh(s), flags),
          AddReferences(s.refs, s.tables[next])[next := s.refs[next] - 1][Fresh(s) := 1],
          s.place[Fresh(s) := s.place[next]])
  }

  ghost function ShareEntry(s: Store, t: Addr, i: nat, flags: Flags, copyAll: bool): Store
    requires Slot(s, t, i) && IsPresent(s.tables[t].entries[i])
  {
    var e := s.tables[t].entries[i];
    if Writable !in flags && !copyAll then s
    else if s.refs[e.addr] == 1 then s.(tables := SetEntry(s.tables, t, i, Entry(e.addr, flags)))
    else Unshare(s, t, i, flags)
  }

  function GrowTables(tb: map<Addr, Table>, t: Addr, i: nat, p: Addr, flags: Flags): map<Addr, Table>
    requires t in tb && tb[t].level > 0 && i < |tb[t].entries|
  {
    tb[p := NewTable(tb[t].level - 1)]
    [t := tb[t].(entries := tb[t].entries[i := Entry(p, flags)], counter := tb[t].counter + 1)]
  }

  /** Hang an empty table under an absent entry. */
  ghost function Grow(s: Store, t: Addr, i: nat, flags: Flags): Store
    requires Slot(s, t, i)
  {
    Store(GrowTables(s.tables, t, i, Fresh(s), flags), s.refs[Fresh(s) := 1],
          s.place[Fresh(s) := s.place[t] * 512 + i])
  }

  datatype Actions = Actions(override: bool, cow: bool, copyAll: bool)

  /** The flags an existing entry ends up with. */
  function MergedFlags(held: Flags, flags: Flags, actions: Actions): Flags {
    (if !(flags <= held) && (actions.cow || actions.override) then flags + held else flags) - {Accessed, Dirty}
  }

  // ------------------------------------------------------------- set counting

  ghost function Tag<T>(m: set<T>, p: Addr): set<(Addr, T)> {
    set j | j in m :: (p, j)
  }

  lemma {:induction false} TagCount<T>(m: set<T>, p: Addr)
    ensures |Tag(m, p)| == |m|
    decreases |m|
  {
    if |m| > 0 {
      var k :| k in m;
      TagCount(m - {k}, p);
      assert Tag(m, p) == Tag(m - {k}, p) + {(p, k)};
    }
  }

  /** The entries of a copy at p that point at x are as many as in the original. */
  lemma CopyCount(es: seq<Entry>, p: Addr, x: Addr)
    requires |es| == 512
    ensures |set j | 0 <= j < 512 && Points(es[j], x) :: (p, j)| == Occurrences(es, x)
  {
    var mine := set j: int | 0 <= j < 512 && Points(es[j], x);
    TagCount(mine, p);
    assert (set j | 0 <= j < 512 && Points(es[j], x) :: (p, j)) == Tag(mine, p);
    assert mine == set j | 0 <= j < |es| && Points(es[j], x);
  }

  lemma OnlyOne<A>(s: set<A>, a: A, b: A)
    requires |s| == 1 && a in s && b in s
    ensures a == b
  {
    assert |s - {a}| == 0;
  }

  lemma SamePresence(a: seq<Entry>, b: seq<Entry>)
    requires |a| == |b| && forall i | 0 <= i < |a| :: IsPresent(a[i]) == IsPresent(b[i])
    ensures PresentCount(a) == PresentCount(b)
  {
    assert (set i | 0 <= i < |a| && IsPresent(a[i])) == (set i | 0 <= i < |b| && IsPresent(b[i]));
  }

  lemma PresentCounted(es: seq<Entry>, j: nat)
    requires j < |es| && IsPresent(es[j])
    ensures PresentCount(es) > 0
  {
    var ps := set i | 0 <= i < |es| && IsPresent(es[i]);
    assert j in ps && PresentCount(es) == |ps|;
  }

  lemma PresentAdded(a: seq<Entry>, i: nat, e: Entry)
    requires i < |a| && !IsPresent(a[i]) && IsPresent(e)
    ensures PresentCount(a[i := e]) == PresentCount(a) + 1
  {
    var b := a[i := e];
    assert (set j | 0 <= j < |b| && IsPresent(b[j])) == (set j | 0 <= j < |a| && IsPresent(a[j])) + {i};
  }

  lemma PresentRemoved(a: seq<Entry>, i: nat, e: Entry)
    requires i < |a| && IsPresent(a[i]) && !IsPresent(e)
    ensures PresentCount(a) == PresentCount(a[i := e]) + 1
  {
    var b := a[i := e];
    assert (set j | 0 <= j < |a| && IsPresent(a[j])) == (set j | 0 <= j < |b| && IsPresent(b[j])) + {i};
  }

  // --------------------------------------------------------- Unshare is valid

  /** tb' is tb with entry i of t moved from table `next` to a copy p of it; entries keep what
      they point at and tables their level and counter. */
  ghost predicate Split(tb: map<Addr, Table>, tb': map<Addr, Table>, t: Addr, i: nat, p: Addr)
    requires Shaped(tb) && t in tb && i < 512
  {
    var next := tb[t].entries[i].addr;
    && next in tb && p !in tb && tb'.Keys == tb.Keys + {p}
    && Shaped(tb') && tb[next].level < tb[t].level
    && (forall x | x in tb :: tb'[x].level == tb[x].level && tb'[x].counter == tb[x].counter)
    && tb'[p].level == tb[next].level && tb'[p].counter == tb[next].counter
    && Points(tb[t].entries[i], next) && Points(tb'[t].entries[i], p)
    && (forall x, j | x in tb && 0 <= j < 512 && !(x == t && j == i) ::
          SameTarget(tb[x].entries[j], tb'[x].entries[j]))
    && (forall j | 0 <= j < 512 :: SameTarget(tb[next].entries[j], tb'[p].entries[j]))
    && BigPage !in tb'[t].entries[i].flags
  }

  /** Present or absent alike, and present entries lead to the same place. */
  predicate SameTarget(a: Entry, b: Entry) {
    && IsPresent(a) == IsPresent(b)
    && (IsPresent(a) ==> a.addr == b.addr && (BigPage in b.flags ==> BigPage in a.flags))
  }

  lemma UnshareSplits(tb: map<Addr, Table>, t: Addr, i: nat, p: Addr, flags: Flags)
    requires Shaped(tb) && t in tb && i < 512 && p !in tb
    requires Points(tb[t].entries[i], tb[t].entries[i].addr) && tb[t].entries[i].addr in tb
    requires tb[tb[t].entries[i].addr].level < tb[t].level
    requires Present in flags && BigPage !in flags
    ensures Split(tb, UnshareTables(tb, t, i, p, flags), t, i, p)
  {
    var next := tb[t].entries[i].addr;
    var tb' := UnshareTables(tb, t, i, p, flags);
    var ro := flags - {Writable};
    assert tb'[next].entries == ReadOnlyInPlace(tb[next].entries, ro);
    assert tb'[p].entries == ReadOnlyCopy(tb[next].entries, ro);
    forall x, j | x in tb && 0 <= j < 512 && !(x == t && j == i)
      ensures SameTarget(tb[x].entries[j], tb'[x].entries[j])
    {
      if x == t {
        assert tb'[t].entries[j] == tb[t].entries[j];
      } else if x != next {
        assert tb'[x] == tb[x];
      }
    }
  }

  lemma SplitLinks(tb: map<Addr, Table>, tb': map<Addr, Table>, t: Addr, i: nat, p: Addr)
    requires Shaped(tb) && Linked(tb) && Tallied(tb) && t in tb && tb[t].level > 1 && i < Limit(tb[t].level)
    requires Split(tb, tb', t, i, p)
    ensures Linked(tb') && Tallied(tb')
  {
    var next := tb[t].entries[i].addr;
    forall x, j | x in tb' && 0 <= j < Limit(tb'[x].level) && IsPresent(tb'[x].entries[j])
      ensures BigPage !in tb'[x].entries[j].flags
      ensures tb'[x].level > 1 ==> tb'[x].entries[j].addr in tb'
                                   && tb'[tb'[x].entries[j].addr].level == tb'[x].level - 1
    {
      if x == p {
        assert SameTarget(tb[next].entries[j], tb'[p].entries[j]);
      } else if !(x == t && j == i) {
        assert SameTarget(tb[x].entries[j], tb'[x].entries[j]);
      }
    }
    forall x | x in tb' && tb'[x].level < 4
      ensures tb'[x].counter == PresentCount(tb'[x].entries)
    {
      var o := if x == p then next else x;
      forall j | 0 <= j < 512 ensures IsPresent(tb[o].entries[j]) == IsPresent(tb'[x].entries[j]) {
        if x == p {
          assert SameTarget(tb[next].entries[j], tb'[p].entries[j]);
        } else if !(x == t && j == i) {
          assert SameTarget(tb[x].entries[j], tb'[x].entries[j]);
        }
      }
      SamePresence(tb[o].entries, tb'[x].entries);
    }
  }

  /** Only the moved entry and the entries of the copy change who points at x. */
  lemma SplitParents(tb: map<Addr, Table>, tb': map<Addr, Table>, t: Addr, i: nat, p: Addr, x: Addr)
    requires Shaped(tb) && Linked(tb) && t in tb && tb[t].level > 1 && i < Limit(tb[t].level)
    requires Split(tb, tb', t, i, p)
    ensures var next := tb[t].entries[i].addr;
      Parents(tb', x) == Parents(tb, x)
        - (if x == next then {(t, i as int)} else {})
        + (if x == p then {(t, i as int)} else {})
        + (if tb[next].level > 1 then set j | 0 <= j < 512 && Points(tb[next].entries[j], x) :: (p, j) else {})
  {
    var next := tb[t].entries[i].addr;
    forall y, j | y in tb && 0 <= j < 512 && !(y == t && j == i)
      ensures Points(tb[y].entries[j], x) == Points(tb'[y].entries[j], x)
    {
      assert SameTarget(tb[y].entries[j], tb'[y].entries[j]);
    }
    forall j | 0 <= j < 512 ensures Points(tb[next].entries[j], x) == Points(tb'[p].entries[j], x) {
      assert SameTarget(tb[next].entries[j], tb'[p].entries[j]);
    }
  }

  /** The three references an unsharing changes, for a table x that is none of the new one. */
  lemma CopiedParents(tb: map<Addr, Table>, tb': map<Addr, Table>, t: Addr, i: nat, p: Addr, x: Addr)
    requires Shaped(tb) && Linked(tb) && t in tb && tb[t].level > 1 && i < Limit(tb[t].level)
    requires Split(tb, tb', t, i, p) && x in tb
    ensures var next := tb[t].entries[i].addr;
      |Parents(tb', x)| == |Parents(tb, x)| + (if tb[next].level > 1 then Occurrences(tb[next].entries, x) else 0)
                           - (if x == next then 1 else 0)
  {
    var next := tb[t].entries[i].addr;
    SplitParents(tb, tb', t, i, p, x);
    assert (t, i as int) in Parents(tb, next);
    CopyCount(tb[next].entries, p, x);
    var copied := set j | 0 <= j < 512 && Points(tb[next].entries[j], x) :: (p, j);
    assert Parents(tb, x) !! copied;
  }

  lemma NewParents(tb: map<Addr, Table>, tb': map<Addr, Table>, t: Addr, i: nat, p: Addr)
    requires Shaped(tb) && Linked(tb) && t in tb && tb[t].level > 1 && i < Limit(tb[t].level)
    requires Split(tb, tb', t, i, p)
    ensures Parents(tb', p) == {(t, i as int)}
  {
    var next := tb[t].entries[i].addr;
    SplitParents(tb, tb', t, i, p, p);
    NoParents(tb, p);
    assert forall j | 0 <= j < 512 :: !(tb[next].level > 1 && Points(tb[next].entries[j], p));
  }

  /** A table never points at itself. */
  lemma NoLoop(tb: map<Addr, Table>, x: Addr)
    requires Shaped(tb) && Linked(tb) && x in tb && 1 < tb[x].level < 4
    ensures Occurrences(tb[x].entries, x) == 0
  {
    assert forall j | 0 <= j < 512 :: !Points(tb[x].entries[j], x);
    assert (set j | 0 <= j < |tb[x].entries| && Points(tb[x].entries[j], x)) == {};
  }

  lemma UnshareCounted(s: Store, t: Addr, i: nat, flags: Flags, x: Addr)
    requires Slot(s, t, i) && IsPresent(s.tables[t].entries[i])
    requires Split(s.tables, Unshare(s, t, i, flags).tables, t, i, Fresh(s))
    requires x in Unshare(s, t, i, flags).tables && Unshare(s, t, i, flags).tables[x].level < 4
    ensures var s' := Unshare(s, t, i, flags); x in s'.refs && s'.refs[x] == |Parents(s'.tables, x)|
  {
    var next := s.tables[t].entries[i].addr;
    var p := Fresh(s);
    var tb' := Unshare(s, t, i, flags).tables;
    if x == p {
      NewParents(s.tables, tb', t, i, p);
    } else {
      CopiedParents(s.tables, tb', t, i, p, x);
      if x == next && s.tables[next].level > 1 {
        NoLoop(s.tables, next);
      }
    }
  }

  lemma NoParents(tb: map<Addr, Table>, x: Addr)
    requires Shaped(tb) && Linked(tb) && x !in tb
    ensures Parents(tb, x) == {}
  {
  }

  lemma SplitPlaced(tb: map<Addr, Table>, tb': map<Addr, Table>, t: Addr, i: nat, p: Addr, place: map<Addr, nat>)
    requires Shaped(tb) && Linked(tb) && Placed(tb, place) && t in tb && tb[t].level > 1 && i < Limit(tb[t].level)
    requires Split(tb, tb', t, i, p)
    ensures Placed(tb', place[p := place[tb[t].entries[i].addr]])
  {
    var next := tb[t].entries[i].addr;
    var place' := place[p := place[next]];
    forall x, j | x in tb' && tb'[x].level > 1 && 0 <= j < Limit(tb'[x].level) && IsPresent(tb'[x].entries[j])
      ensures tb'[x].entries[j].addr in place' && place'[tb'[x].entries[j].addr] == place'[x] * 512 + j
    {
      if x == p {
        assert SameTarget(tb[next].entries[j], tb'[p].entries[j]);
      } else if !(x == t && j == i) {
        assert SameTarget(tb[x].entries[j], tb'[x].entries[j]);
      }
    }
  }

  lemma UnshareValid(s: Store, t: Addr, i: nat, flags: Flags)
    requires Slot(s, t, i) && IsPresent(s.tables[t].entries[i])
    requires Present in flags && BigPage !in flags
    ensures Valid(Unshare(s, t, i, flags))
  {
    UnshareSplits(s.tables, t, i, Fresh(s), flags);
    SplitLinks(s.tables, Unshare(s, t, i, flags).tables, t, i, Fresh(s));
    SplitPlaced(s.tables, Unshare(s, t, i, flags).tables, t, i, Fresh(s), s.place);
    forall x | x in Unshare(s, t, i, flags).tables && Unshare(s, t, i, flags).tables[x].level < 4
      ensures var s' := Unshare(s, t, i, flags); x in s'.refs && s'.refs[x] == |Parents(s'.tables, x)|
    {
      UnshareCounted(s, t, i, flags, x);
    }
  }

  // ------------------------------------------------------------ meaning is kept

  /** Every table of tb still exists at its level and translates every page as before. */
  ghost predicate SameMeaning(tb: map<Addr, Table>, tb': map<Addr, Table>) {
    forall x, v: nat | x in tb && v < USER_PAGES :: Alike(tb, tb', x, v)
  }

  ghost predicate Alike(tb: map<Addr, Table>, tb': map<Addr, Table>, x: Addr, v: nat)
    requires x in tb
  {
    x in tb' && tb'[x].level == tb[x].level && Lookup(tb', x, tb[x].level, v) == Lookup(tb, x, tb[x].level, v)
  }

  lemma {:induction false} SplitLookup(tb: map<Addr, Table>, tb': map<Addr, Table>, t: Addr, i: nat, p: Addr,
                                       x: Addr, v: nat)
    requires Shaped(tb) && Linked(tb) && t in tb && tb[t].level > 1 && i < Limit(tb[t].level)
    requires Split(tb, tb', t, i, p) && x in tb && v < USER_PAGES
    ensures Lookup(tb', x, tb[x].level, v) == Lookup(tb, x, tb[x].level, v)
    decreases tb[x].level
  {
    var next := tb[t].entries[i].addr;
    var level := tb[x].level;
    var j := Index(level, v);
    if x == t && j == i {
      var j' := Index(level - 1, v);
      assert SameTarget(tb[next].entries[j'], tb'[p].entries[j']);
      if level - 1 > 1 && IsPresent(tb[next].entries[j']) {
        SplitLookup(tb, tb', t, i, p, tb[next].entries[j'].addr, v);
      }
    } else {
      assert SameTarget(tb[x].entries[j], tb'[x].entries[j]);
      if level > 1 && IsPresent(tb[x].entries[j]) {
        SplitLookup(tb, tb', t, i, p, tb[x].entries[j].addr, v);
      }
    }
  }

  lemma {:induction false} GrowLookup(tb: map<Addr, Table>, t: Addr, i: nat, p: Addr, flags: Flags, x: Addr, v: nat)
    requires Shaped(tb) && Linked(tb) && t in tb && tb[t].level > 1 && i < 512 && p !in tb
    requires !IsPresent(tb[t].entries[i]) && Present in flags
    requires x in tb && v < USER_PAGES
    ensures Lookup(GrowTables(tb, t, i, p, flags), x, tb[x].level, v) == Lookup(tb, x, tb[x].level, v)
    decreases tb[x].level
  {
    var tb' := GrowTables(tb, t, i, p, flags);
    var level := tb[x].level;
    var j := Index(level, v);
    if x == t && j == i {
      assert tb'[p] == NewTable(level - 1);
      assert !IsPresent(tb'[p].entries[Index(level - 1, v)]);
    } else {
      assert tb'[x].entries[j] == tb[x].entries[j];
      if level > 1 && IsPresent(tb[x].entries[j]) {
        GrowLookup(tb, t, i, p, flags, tb[x].entries[j].addr, v);
      }
    }
  }

  lemma GrowLinks(tb: map<Addr, Table>, t: Addr, i: nat, p: Addr, flags: Flags)
    requires Shaped(tb) && Linked(tb) && Tallied(tb) && t in tb && tb[t].level > 1 && i < Limit(tb[t].level) && p !in tb
    requires !IsPresent(tb[t].entries[i]) && Present in flags && BigPage !in flags
    ensures var tb' := GrowTables(tb, t, i, p, flags); Shaped(tb') && Linked(tb') && Tallied(tb')
  {
    var tb' := GrowTables(tb, t, i, p, flags);
    PresentAdded(tb[t].entries, i, Entry(p, flags));
    assert (set j | 0 <= j < |tb'[p].entries| && IsPresent(tb'[p].entries[j])) == {};
    forall x, j | x in tb' && 0 <= j < Limit(tb'[x].level) && IsPresent(tb'[x].entries[j])
      ensures BigPage !in tb'[x].entries[j].flags
      ensures tb'[x].level > 1 ==> tb'[x].entries[j].addr in tb'
                                   && tb'[tb'[x].entries[j].addr].level == tb'[x].level - 1
    {
      if x != p && !(x == t && j == i) {
        assert tb'[x].entries[j] == tb[x].entries[j];
      }
    }
  }

  lemma GrowParents(tb: map<Addr, Table>, t: Addr, i: nat, p: Addr, flags: Flags, x: Addr)
    requires Shaped(tb) && Linked(tb) && t in tb && tb[t].level > 1 && i < Limit(tb[t].level) && p !in tb
    requires !IsPresent(tb[t].entries[i]) && Present in flags
    ensures Parents(GrowTables(tb, t, i, p, flags), x) == if x == p then {(t, i as int)} else Parents(tb, x)
  {
    var tb' := GrowTables(tb, t, i, p, flags);
    if x == p { NoParents(tb, p); }
    forall y, j | y in tb && 0 <= j < 512 && !(y == t && j == i)
      ensures tb'[y].entries[j] == tb[y].entries[j] && tb'[y].level == tb[y].level {
    }
  }

  lemma GrowValid(s: Store, t: Addr, i: nat, flags: Flags)
    requires Slot(s, t, i) && !IsPresent(s.tables[t].entries[i])
    requires Present in flags && BigPage !in flags
    ensures Valid(Grow(s, t, i, flags))
  {
    var p := Fresh(s);
    var s' := Grow(s, t, i, flags);
    GrowLinks(s.tables, t, i, p, flags);
    GrowCounted(s.tables, t, i, p, flags, s.refs);
    GrowPlaced(s.tables, t, i, p, flags, s.place);
    assert s' == Store(GrowTables(s.tables, t, i, p, flags), s.refs[p := 1], s.place[p := s.place[t] * 512 + i]);
  }

  lemma GrowCounted(tb: map<Addr, Table>, t: Addr, i: nat, p: Addr, flags: Flags, refs: map<Addr, nat>)
    requires Shaped(tb) && Linked(tb) && Counted(tb, refs)
    requires t in tb && tb[t].level > 1 && i < Limit(tb[t].level) && p !in tb
    requires !IsPresent(tb[t].entries[i]) && Present in flags
    ensures Counted(GrowTables(tb, t, i, p, flags), refs[p := 1])
  {
    var tb' := GrowTables(tb, t, i, p, flags);
    forall x | x in tb'
      ensures x in refs[p := 1] && (tb'[x].level < 4 ==> refs[p := 1][x] == |Parents(tb', x)|)
    {
      GrowParents(tb, t, i, p, flags, x);
    }
  }

  lemma GrowPlaced(tb: map<Addr, Table>, t: Addr, i: nat, p: Addr, flags: Flags, place: map<Addr, nat>)
    requires Shaped(tb) && Linked(tb) && Placed(tb, place)
    requires t in tb && tb[t].level > 1 && i < Limit(tb[t].level) && p !in tb
    ensures Shaped(GrowTables(tb, t, i, p, flags))
    ensures Placed(GrowTables(tb, t, i, p, flags), place[p := place[t] * 512 + i])
  {
    var tb' := GrowTables(tb, t, i, p, flags);
    var place' := place[p := place[t] * 512 + i];
    forall x, j | x in tb' && tb'[x].level > 1 && 0 <= j < Limit(tb'[x].level) && IsPresent(tb'[x].entries[j])
      ensures tb'[x].entries[j].addr in place' && place'[tb'[x].entries[j].addr] == place'[x] * 512 + j
    {
      if x != p && !(x == t && j == i) {
        assert tb'[x].entries[j] == tb[x].entries[j];
      }
    }
  }

  // ------------------------------------------- changing the flags of one entry

  ghost predicate Retagged(tb: map<Addr, Table>, tb': map<Addr, Table>) {
    && tb'.Keys == tb.Keys && Shaped(tb) && Shaped(tb')
    && (forall x | x in tb :: tb'[x].level == tb[x].level && tb'[x].counter == tb[x].counter)
    && (forall x, j | x in tb && 0 <= j < 512 :: SameTarget(tb[x].entries[j], tb'[x].entries[j]))
  }

  lemma RetagLinks(tb: map<Addr, Table>, tb': map<Addr, Table>)
    requires Retagged(tb, tb') && Linked(tb) && Tallied(tb)
    ensures Linked(tb') && Tallied(tb')
  {
    forall x, j | x in tb' && 0 <= j < Limit(tb'[x].level) && IsPresent(tb'[x].entries[j])
      ensures BigPage !in tb'[x].entries[j].flags
      ensures tb'[x].level > 1 ==> tb'[x].entries[j].addr in tb'
                                   && tb'[tb'[x].entries[j].addr].level == tb'[x].level - 1
    {
      assert SameTarget(tb[x].entries[j], tb'[x].entries[j]);
    }
    forall x | x in tb && tb[x].level < 4 ensures PresentCount(tb'[x].entries) == PresentCount(tb[x].entries) {
      forall j | 0 <= j < 512 ensures IsPresent(tb[x].entries[j]) == IsPresent(tb'[x].entries[j]) {
        assert SameTarget(tb[x].entries[j], tb'[x].entries[j]);
      }
      SamePresence(tb[x].entries, tb'[x].entries);
    }
  }

  lemma RetagParents(tb: map<Addr, Table>, tb': map<Addr, Table>, x: Addr)
    requires Retagged(tb, tb')
    ensures Parents(tb', x) == Parents(tb, x)
  {
    forall y, j | y in tb && 0 <= j < 512 ensures Points(tb[y].entries[j], x) == Points(tb'[y].entries[j], x) {
      assert SameTarget(tb[y].entries[j], tb'[y].entries[j]);
    }
  }

  lemma RetagValid(s: Store, s': Store)
    requires Valid(s) && Retagged(s.tables, s'.tables) && s'.refs == s.refs && s'.place == s.place
    ensures Valid(s')
  {
    RetagLinks(s.tables, s'.tables);
    forall x ensures Parents(s'.tables, x) == Parents(s.tables, x) {
      RetagParents(s.tables, s'.tables, x);
    }
    assert Counted(s'.tables, s'.refs);
    forall x, j | x in s'.tables && s'.tables[x].level > 1 && 0 <= j < Limit(s'.tables[x].level)
                  && IsPresent(s'.tables[x].entries[j])
      ensures s'.tables[x].entries[j].addr in s'.place
      ensures s'.place[s'.tables[x].entries[j].addr] == s'.place[x] * 512 + j
    {
      assert SameTarget(s.tables[x].entries[j], s'.tables[x].entries[j]);
    }
  }

  lemma {:induction false} RetagLookup(tb: map<Addr, Table>, tb': map<Addr, Table>, x: Addr, v: nat)
    requires Retagged(tb, tb') && Linked(tb) && x in tb && v < USER_PAGES
    ensures Lookup(tb', x, tb[x].level, v) == Lookup(tb, x, tb[x].level, v)
    decreases tb[x].level
  {
    var j := Index(tb[x].level, v);
    assert SameTarget(tb[x].entries[j], tb'[x].entries[j]);
    if tb[x].level > 1 && IsPresent(tb[x].entries[j]) {
      RetagLookup(tb, tb', tb[x].entries[j].addr, v);
    }
  }

  // -------------------------------------------------------------- one ensure step

  ghost function EnsureSingle(s: Store, t: Addr, i: nat, flags: Flags, actions: Actions): Store
    requires Slot(s, t, i)
  {
    var e := s.tables[t].entries[i];
    if IsPresent(e) then ShareEntry(s, t, i, MergedFlags(e.flags, flags, actions), actions.copyAll)
    else Grow(s, t, i, flags)
  }

  lemma RetagKeeps(s: Store, s': Store)
    requires Valid(s) && Retagged(s.tables, s'.tables) && s'.refs == s.refs && s'.place == s.place
    ensures Valid(s') && SameMeaning(s.tables, s'.tables)
  {
    RetagValid(s, s');
    forall x, v: nat | x in s.tables && v < USER_PAGES ensures Alike(s.tables, s'.tables, x, v) {
      RetagLookup(s.tables, s'.tables, x, v);
    }
  }

  lemma UnshareKeeps(s: Store, t: Addr, i: nat, flags: Flags)
    requires Slot(s, t, i) && IsPresent(s.tables[t].entries[i]) && Present in flags && BigPage !in flags
    ensures var s' := Unshare(s, t, i, flags); Valid(s') && SameMeaning(s.tables, s'.tables)
  {
    UnshareSplits(s.tables, t, i, Fresh(s), flags);
    UnshareValid(s, t, i, flags);
    SplitMeaning(s.tables, Unshare(s, t, i, flags).tables, t, i, Fresh(s));
  }

  lemma SplitMeaning(tb: map<Addr, Table>, tb': map<Addr, Table>, t: Addr, i: nat, p: Addr)
    requires Shaped(tb) && Linked(tb) && t in tb && tb[t].level > 1 && i < Limit(tb[t].level)
    requires Split(tb, tb', t, i, p)
    ensures SameMeaning(tb, tb')
  {
    forall x, v: nat | x in tb && v < USER_PAGES ensures Alike(tb, tb', x, v) {
      SplitLookup(tb, tb', t, i, p, x, v);
    }
  }

  lemma GrowMeaning(tb: map<Addr, Table>, t: Addr, i: nat, p: Addr, flags: Flags)
    requires Shaped(tb) && Linked(tb) && t in tb && tb[t].level > 1 && i < 512 && p !in tb
    requires !IsPresent(tb[t].entries[i]) && Present in flags
    ensures SameMeaning(tb, GrowTables(tb, t, i, p, flags))
  {
    forall x, v: nat | x in tb && v < USER_PAGES ensures Alike(tb, GrowTables(tb, t, i, p, flags), x, v) {
      GrowLookup(tb, t, i, p, flags, x, v);
    }
  }

  lemma SetFlagsRetags(tb: map<Addr, Table>, t: Addr, i: nat, flags: Flags)
    requires Shaped(tb) && t in tb && i < 512 && IsPresent(tb[t].entries[i]) && Present in flags && BigPage !in flags
    ensures Retagged(tb, SetEntry(tb, t, i, Entry(tb[t].entries[i].addr, flags)))
  {
  }

  lemma SameMeaningSelf(tb: map<Addr, Table>)
    ensures SameMeaning(tb, tb)
  {
  }

  lemma ShareEntryKeeps(s: Store, t: Addr, i: nat, flags: Flags, copyAll: bool)
    requires Slot(s, t, i) && IsPresent(s.tables[t].entries[i]) && Present in flags && BigPage !in flags
    ensures var s' := ShareEntry(s, t, i, flags, copyAll); Valid(s') && SameMeaning(s.tables, s'.tables)
  {
    hide Tallied, Placed, SameMeaning;
    var s' := ShareEntry(s, t, i, flags, copyAll);
    var e := s.tables[t].entries[i];
    if Writable !in flags && !copyAll {
      SameMeaningSelf(s.tables);
    } else if s.refs[e.addr] == 1 {
      SetFlagsRetags(s.tables, t, i, flags);
      RetagKeeps(s, s');
    } else {
      UnshareKeeps(s, t, i, flags);
    }
  }

  /** One step keeps the store valid and every translation of every address space. */
  lemma EnsureSingleKeeps(s: Store, t: Addr, i: nat, flags: Flags, actions: Actions)
    requires Slot(s, t, i) && Present in flags && BigPage !in flags
    ensures var s' := EnsureSingle(s, t, i, flags, actions); Valid(s') && SameMeaning(s.tables, s'.tables)
  {
    var e := s.tables[t].entries[i];
    if IsPresent(e) {
      ShareEntryKeeps(s, t, i, MergedFlags(e.flags, flags, actions), actions.copyAll);
    } else {
      GrowValid(s, t, i, flags);
      GrowMeaning(s.tables, t, i, Fresh(s), flags);
    }
  }

  /** Every address space of s is one of r and translates every page alike. */
  ghost predicate SameSpaces(s: Store, r: Store) {
    forall o, w: nat | IsRoot(s, o) && w < USER_PAGES :: SameAt(s, r, o, w)
  }

  ghost predicate SameAt(s: Store, r: Store, o: Addr, w: nat) {
    IsRoot(r, o) && Translate(r, o, w) == Translate(s, o, w)
  }
}
