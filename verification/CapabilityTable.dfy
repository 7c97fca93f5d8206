/** One process's table of capabilities: entries by handle, the next handle to issue and
    the entry count the kernel keeps.  Operations are functions from table to table. */
module CapabilityTable {
  import opened Options

  type Handle = nat
  type Bits = set<nat>

  datatype Status = OK | INVALID_HANDLE | WRONG_BINDING | ACCESS_DENIED | INVALID_ARGUMENT | INVALID_MESSAGE
                  | BUFFER_TOO_SMALL | WOULD_BLOCK | RESOURCE_EXHAUSTED | FAULT | PEER_CLOSED

  const NO_HANDLE: Handle := 0
  /** Handles and counters are 64-bit and wrap. */
  const HANDLE_SPACE: nat := 18446744073709551616
  const MAX_ENTRIES: nat := 4096
  const MAX_TRANSFER: nat := 64

  const RIGHT_DUPLICATE: nat := 0
  const RIGHT_TRANSFER: nat := 1

  const BINDING_RAW: nat := 1
  const BINDING_CLIENT: nat := 2
  const BINDING_VIEW: nat := 4

  /** Kernel objects; raw channel endpoints and some others may have only one holder. */
  datatype Object = RawEndpoint(channel: nat, side: nat) | Unique(id: nat) | Sharable(id: nat)

  predicate IsUnique(o: Object) {
    !o.Sharable?
  }

  datatype Metadata = Metadata(binding: nat, protocol: nat, scope: nat, revision: nat, features: Bits,
                               metaRights: Bits, protocolRights: Bits)

  datatype EntryState = Reserved | Active | Restricting

  datatype Entry = Entry(obj: Option<Object>, generation: nat, state: EntryState, meta: Metadata)

  datatype Table = Table(entries: map<Handle, Entry>, next: Handle, count: nat)

  const BLANK := Metadata(0, 0, 0, 0, {}, {1, 2}, {})

  const EMPTY := Table(map[], 1, 0)

  /** What a transfer carries: an object and the authority it travels with. */
  datatype Resource = Resource(obj: Object, meta: Metadata)

  /** One transferred item of a batch: its old handle and, when it was moved out of the table, the
      detached entry with its original authority. */
  datatype Record = Record(source: Handle, resource: Resource, slot: Option<Entry>)

  predicate Moved(r: Record) {
    r.slot.Some?
  }

  /** The entry a moved record came from. */
  function Origin(r: Record): Entry
    requires Moved(r)
  {
    r.slot.value.(obj := Some(r.resource.obj), state := Active)
  }

  const MOVE: nat := 1
  const DUPLICATE: nat := 2

  datatype Disposition = Disposition(handle: Handle, operation: nat, rights: Bits, scope: nat, flags: nat)

  // ----------------------------------------------------------------- invariants

  /** A handle value this table has given out before. */
  predicate Issued(t: Table, h: Handle) {
    0 < h < HANDLE_SPACE && (t.next == NO_HANDLE || h < t.next)
  }

  predicate WellFormed(t: Table, h: Handle, e: Entry) {
    && Issued(t, h) && e.generation == h
    && (e.state == Reserved <==> e.obj.None?)
  }

  /** `gone` are the handles whose entries an unfinished transfer has detached, `lost` the number of
      detached entries whose transfer was dropped unfinished. */
  ghost predicate Valid(t: Table, gone: set<Handle>, lost: nat) {
    && t.next < HANDLE_SPACE
    && t.count == |t.entries| + |gone| + lost && t.count <= MAX_ENTRIES
    && gone !! t.entries.Keys
    && (forall h | h in t.entries :: WellFormed(t, h, t.entries[h]))
    && (forall h | h in gone :: Issued(t, h))
  }

  function Lookup(t: Table, h: Handle): Option<Entry> {
    if h in t.entries && t.entries[h].state == Active then Some(t.entries[h]) else None
  }

  // ---------------------------------------------------------------- single entries

  /** Unsigned 64-bit subtraction. */
  function Minus(a: nat, b: nat): nat {
    if b <= a then a - b else (a - b) % HANDLE_SPACE
  }

  predicate CanAllocate(t: Table) {
    t.count < MAX_ENTRIES && t.next != NO_HANDLE
  }

  /** Issue the next handle for an entry. */
  function Insert(t: Table, e: Entry): Table
    requires CanAllocate(t)
  {
    Table(t.entries[t.next := e], (t.next + 1) % HANDLE_SPACE, t.count + 1)
  }

  function Install(t: Table, o: Object, meta: Metadata): (r: (Handle, Table)) {
    if CanAllocate(t) then (t.next, Insert(t, Entry(Some(o), t.next, Active, meta))) else (NO_HANDLE, t)
  }

  function Close(t: Table, h: Handle): (r: (Status, Table)) {
    if h == NO_HANDLE || Lookup(t, h).None? then (INVALID_HANDLE, t)
    else (OK, t.(entries := t.entries - {h}, count := Minus(t.count, 1)))
  }

  function Duplicate(t: Table, source: Handle, requested: Bits): (r: (Status, Handle, Table)) {
    match Lookup(t, source)
    case None => (INVALID_HANDLE, NO_HANDLE, t)
    case Some(e) =>
      if e.obj.None? then (INVALID_HANDLE, NO_HANDLE, t)
      else if RIGHT_DUPLICATE !in e.meta.metaRights || IsUnique(e.obj.value) then (ACCESS_DENIED, NO_HANDLE, t)
      else
        var rights := if requested == {} then e.meta.metaRights else requested;
        if !(rights <= e.meta.metaRights) then (ACCESS_DENIED, NO_HANDLE, t)
        else if !CanAllocate(t) then (RESOURCE_EXHAUSTED, NO_HANDLE, t)
        else (OK, t.next, Insert(t, e.(meta := e.meta.(metaRights := rights), generation := t.next)))
  }

  /** A request to weaken a capability; an absent field is left as it is.  `known` says that the
      request has the expected size and no unknown flag. */
  datatype Restriction = Restriction(known: bool, scope: Option<nat>, revision: Option<nat>, features: Option<Bits>,
                                     metaRights: Option<Bits>, protocolRights: Option<Bits>)

  function OrElse<T>(o: Option<T>, d: T): T {
    if o.Some? then o.value else d
  }

  function Restricted(m: Metadata, r: Restriction): Metadata {
    m.(metaRights := OrElse(r.metaRights, m.metaRights), protocolRights := OrElse(r.protocolRights, m.protocolRights),
       scope := OrElse(r.scope, m.scope), revision := OrElse(r.revision, m.revision),
       features := OrElse(r.features, m.features))
  }

  predicate MayRestrict(m: Metadata, r: Restriction) {
    && OrElse(r.metaRights, m.metaRights) <= m.metaRights
    && OrElse(r.protocolRights, m.protocolRights) <= m.protocolRights
    && (r.scope.Some? ==> r.scope.value != 0 && r.scope.value == m.scope)
    && (r.revision.Some? ==> r.revision.value != 0 && r.revision.value <= m.revision)
    && (r.features.Some? ==> r.features.value <= m.features)
  }

  /** First phase: the source can no longer be looked up and a reserved entry waits with the
      weakened authority. */
  function PrepareRestrict(t: Table, source: Handle, r: Restriction): (res: (Status, Handle, Table)) {
    if !r.known then (INVALID_ARGUMENT, NO_HANDLE, t)
    else match Lookup(t, source)
    case None => (INVALID_HANDLE, NO_HANDLE, t)
    case Some(e) =>
      if !MayRestrict(e.meta, r) then (ACCESS_DENIED, NO_HANDLE, t)
      else if !CanAllocate(t) then (RESOURCE_EXHAUSTED, NO_HANDLE, t)
      else
        var pending := Entry(None, t.next, Reserved, Restricted(e.meta, r));
        var u := Insert(t, pending);
        (OK, t.next, u.(entries := u.entries[source := e.(state := Restricting)]))
  }

  /** Second phase: the object moves to the weakened entry and the source handle dies. */
  function CommitRestrict(t: Table, source: Handle, restricted: Handle): (res: (Status, Table)) {
    if source == NO_HANDLE || restricted == NO_HANDLE then (INVALID_ARGUMENT, t)
    else if source !in t.entries || t.entries[source].state != Restricting || t.entries[source].obj.None?
            || restricted !in t.entries || t.entries[restricted].state != Reserved then (INVALID_HANDLE, t)
    else
      var e := t.entries[restricted].(obj := t.entries[source].obj, state := Active);
      (OK, t.(entries := (t.entries - {source})[restricted := e], count := Minus(t.count, 1)))
  }

  function RollbackRestrict(t: Table, source: Handle, restricted: Handle): (res: (Status, Table)) {
    if source == NO_HANDLE || restricted == NO_HANDLE then (INVALID_ARGUMENT, t)
    else if source !in t.entries || t.entries[source].state != Restricting || t.entries[source].obj.None?
            || restricted !in t.entries || t.entries[restricted].state != Reserved then (INVALID_HANDLE, t)
    else
      (OK, t.(entries := (t.entries - {restricted})[source := t.entries[source].(state := Active)],
              count := Minus(t.count, 1)))
  }

  /** The whole restrict call; `written` says whether the new handle could be copied out. */
  function Restrict(t: Table, source: Handle, r: Restriction, written: bool): (res: (Status, Handle, Table)) {
    var (status, h, u) := PrepareRestrict(t, source, r);
    if status != OK then (status, NO_HANDLE, u)
    else if !written then (FAULT, NO_HANDLE, RollbackRestrict(u, source, h).1)
    else var (s2, w) := CommitRestrict(u, source, h); (s2, h, w)
  }

  // ------------------------------------------------------------------------ fork

  const SCOPE_TERMINAL_MASTER: nat := 6
  const SCOPE_TERMINAL_SLAVE: nat := 11

  /** Entries a forked child inherits. */
  predicate Inheritable(e: Entry) {
    && e.state == Active && e.obj.Some?
    && (e.meta.binding == BINDING_VIEW || e.meta.binding == BINDING_CLIENT)
    && (RIGHT_DUPLICATE in e.meta.metaRights
        || (e.meta.binding == BINDING_CLIENT
            && (e.meta.scope == SCOPE_TERMINAL_MASTER || e.meta.scope == SCOPE_TERMINAL_SLAVE)))
  }

  function Inherited(t: Table): map<Handle, Entry> {
    map h | h in t.entries && Inheritable(t.entries[h]) :: t.entries[h].(generation := h)
  }

  function CloneFork(child: Table, parent: Table): (r: (Status, Table)) {
    if child.count != 0 then (INVALID_ARGUMENT, child)
    else if |Inherited(parent)| > MAX_ENTRIES then (RESOURCE_EXHAUSTED, child)
    else (OK, Table(child.entries + Inherited(parent), parent.next, |Inherited(parent)|))
  }

  // -------------------------------------------------------------------- batches

  /** Handles n fresh reserved entries would get. */
  function ReserveEach(t: Table, n: nat): (r: Option<(seq<Handle>, Table)>)
    decreases n
  {
    if n == 0 then Some(([], t))
    else if !CanAllocate(t) then None
    else
      match ReserveEach(Insert(t, Entry(None, t.next, Reserved, BLANK)), n - 1)
      case None => None
      case Some(p) => Some(([t.next] + p.0, p.1))
  }

  /** How far the handle counter runs before n reservations succeed or get stuck. */
  function NextAfter(t: Table, n: nat): Handle
    decreases n
  {
    if n == 0 || !CanAllocate(t) then t.next
    else NextAfter(Insert(t, Entry(None, t.next, Reserved, BLANK)), n - 1)
  }

  function Reserve(t: Table, n: nat): (r: (Status, seq<Handle>, Table)) {
    if n > MAX_ENTRIES then (RESOURCE_EXHAUSTED, [], t)
    else
      match ReserveEach(t, n)
      case None => (RESOURCE_EXHAUSTED, [], t.(next := NextAfter(t, n)))
      case Some(p) => (OK, p.0, p.1)
  }

  function Activate(t: Table, h: Handle, r: Resource): (res: (Status, Table)) {
    if h == NO_HANDLE then (INVALID_ARGUMENT, t)
    else if h !in t.entries || t.entries[h].state != Reserved then (INVALID_HANDLE, t)
    else (OK, t.(entries := t.entries[h := t.entries[h].(obj := Some(r.obj), state := Active, meta := r.meta)]))
  }

  function ActivateAll(t: Table, hs: seq<Handle>, rs: seq<Resource>): Table
    requires |hs| == |rs|
    decreases |hs|
  {
    if hs == [] then t else ActivateAll(Activate(t, hs[0], rs[0]).1, hs[1..], rs[1..])
  }

  /** Remove the handles of a batch that are still reserved. */
  function Rollback(t: Table, hs: seq<Handle>): Table
    decreases |hs|
  {
    if hs == [] then t
    else if hs[0] in t.entries && t.entries[hs[0]].state == Reserved then
      Rollback(t.(entries := t.entries - {hs[0]}, count := Minus(t.count, 1)), hs[1..])
    else Rollback(t, hs[1..])
  }

  // ------------------------------------------------------------------ take batch

  /** The verdict on disposition i of a batch. */
  function Check(t: Table, ds: seq<Disposition>, i: nat, target: Handle): Status
    requires i < |ds|
  {
    var d := ds[i];
    if d.handle == NO_HANDLE || d.flags != 0 || d.handle == target then INVALID_ARGUMENT
    else if exists j :: 0 <= j < i && ds[j].handle == d.handle then INVALID_ARGUMENT
    else
      match Lookup(t, d.handle)
      case None => INVALID_HANDLE
      case Some(e) =>
        if e.obj.None? then INVALID_HANDLE
        else if d.operation != MOVE && d.operation != DUPLICATE then INVALID_ARGUMENT
        else if RIGHT_TRANSFER !in e.meta.metaRights then ACCESS_DENIED
        else if d.operation == DUPLICATE && (RIGHT_DUPLICATE !in e.meta.metaRights || IsUnique(e.obj.value)) then ACCESS_DENIED
        else if !((if d.rights == {} then e.meta.metaRights else d.rights) <= e.meta.metaRights) then ACCESS_DENIED
        else if d.scope != 0 && d.scope != e.meta.scope then ACCESS_DENIED
        else OK
  }

  function FirstError(t: Table, ds: seq<Disposition>, target: Handle, i: nat): Status
    requires i <= |ds|
    decreases |ds| - i
  {
    if i == |ds| then OK
    else if Check(t, ds, i, target) != OK then Check(t, ds, i, target) else FirstError(t, ds, target, i + 1)
  }

  function Attenuated(e: Entry, d: Disposition): Metadata {
    e.meta.(metaRights := if d.rights == {} then e.meta.metaRights else d.rights,
            scope := if d.scope != 0 then d.scope else e.meta.scope)
  }

  predicate Acceptable(t: Table, ds: seq<Disposition>, target: Handle) {
    |ds| <= MAX_TRANSFER && FirstError(t, ds, target, 0) == OK
  }

  function TakeError(t: Table, ds: seq<Disposition>, target: Handle): Status {
    if |ds| > MAX_TRANSFER then INVALID_ARGUMENT else FirstError(t, ds, target, 0)
  }

  function MakeRecord(t: Table, d: Disposition): Record
    requires d.handle in t.entries && t.entries[d.handle].obj.Some?
  {
    var e := t.entries[d.handle];
    Record(d.handle, Resource(e.obj.value, Attenuated(e, d)), if d.operation == MOVE then Some(e.(obj := None)) else None)
  }

  lemma {:induction false} ErrorsAbsent(t: Table, ds: seq<Disposition>, target: Handle, i: nat, j: nat)
    requires i <= j < |ds| && FirstError(t, ds, target, i) == OK
    ensures Check(t, ds, j, target) == OK
    decreases j - i
  {
    if i < j { ErrorsAbsent(t, ds, target, i + 1, j); }
  }

  function Records(t: Table, ds: seq<Disposition>, target: Handle): (r: seq<Record>)
    requires Acceptable(t, ds, target)
    ensures |r| == |ds|
  {
    seq(|ds|, i requires 0 <= i < |ds| =>
      ErrorsAbsent(t, ds, target, 0, i);
      MakeRecord(t, ds[i]))
  }

  function MovedHandles(ds: seq<Disposition>): set<Handle> {
    set d | d in ds && d.operation == MOVE :: d.handle
  }

  /** Take a batch out of the table: moved entries are detached but still counted. */
  function Take(t: Table, ds: seq<Disposition>, target: Handle): (r: (Status, seq<Record>, Table)) {
    if Acceptable(t, ds, target) then (OK, Records(t, ds, target), t.(entries := t.entries - MovedHandles(ds)))
    else (TakeError(t, ds, target), [], t)
  }

  function MovedSources(rs: seq<Record>): set<Handle> {
    set r | r in rs && Moved(r) :: r.source
  }

  function MovedCount(rs: seq<Record>): nat {
    if rs == [] then 0 else (if Moved(rs[0]) then 1 else 0) + MovedCount(rs[1..])
  }

  predicate CanRestore(t: Table, rs: seq<Record>) {
    forall r | r in rs && Moved(r) :: r.source != NO_HANDLE && r.source !in t.entries
  }

  /** Put the moved entries of a batch back, with their original authority. */
  function Reattach(t: Table, rs: seq<Record>): Table
    decreases |rs|
  {
    if rs == [] then t
    else if Moved(rs[0]) then
      Reattach(t.(entries := t.entries[rs[0].source := Origin(rs[0])]), rs[1..])
    else Reattach(t, rs[1..])
  }

  function Restore(t: Table, rs: seq<Record>): (r: (Status, Table)) {
    if CanRestore(t, rs) then (OK, Reattach(t, rs)) else (RESOURCE_EXHAUSTED, t)
  }

  /** The batch was handed over: its detached entries are gone for good. */
  function Commit(t: Table, rs: seq<Record>): Table {
    t.(count := Minus(t.count, MovedCount(rs)))
  }
}
