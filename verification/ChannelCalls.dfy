/** The send and receive calls as they work through the table, the queue and the budgets step by step. */
module ChannelCalls {
  import opened Options
  import opened CapabilityTable
  import opened CapabilityLaws
  import opened CapabilityBags
  import opened Channel
  import opened Transfer
  import opened ResourceTable

  function WorldOf(table: ResourceTable, queue: ReceiveQueue): World
    reads table, queue, queue.budgets
  {
    World(table.View(), queue.queue, queue.budgets.View())
  }

  method Send(table: ResourceTable, queue: ReceiveQueue, open: bool, endpoint: Handle, payload: seq<Byte>, ds: seq<Disposition>,
              ghost gone: set<Handle>, ghost lost: nat) returns (status: Status)
    requires queue.Valid() && Valid(table.View(), gone, lost)
    modifies table, queue`queue, queue.budgets
    ensures queue.Valid()
    ensures (status, WorldOf(table, queue)) == SendRaw(old(WorldOf(table, queue)), queue.limits, open, endpoint, payload, ds)
  {
    hide Valid, QueueOk, Take, Restore, Commit, Push, Outstanding;
    ghost var before := table.View();
    if |payload| > MAX_MESSAGE_BYTES || |ds| > MAX_TRANSFER { return INVALID_MESSAGE; }
    var records;
    status, records := table.TakeNativeBatch(ds, endpoint);
    TakeIs(before, ds, endpoint);
    if status != OK { return; }
    TakenBatch(before, ds, endpoint, gone, lost);
    ValidNext(table.View(), gone + MovedHandles(ds), lost);
    status := EnqueueBatch(table, queue, open, payload, records);
  }

  method EnqueueBatch(table: ResourceTable, queue: ReceiveQueue, open: bool, payload: seq<Byte>, records: seq<Record>)
    returns (status: Status)
    requires queue.Valid() && table.count < HANDLE_SPACE && |records| < HANDLE_SPACE
    modifies table, queue`queue, queue.budgets
    ensures queue.Valid()
    ensures (status, WorldOf(table, queue)) == Enqueue(old(WorldOf(table, queue)), queue.limits, open, payload, records)
  {
    hide QueueOk, Restore, Commit, Push;
    if |records| > queue.limits.resources { return INVALID_ARGUMENT; }
    if |payload| > queue.limits.bytes { return INVALID_MESSAGE; }
    var m := Message(payload, Resources(records));
    status := queue.Enqueue(m, open, 0);
    if status != OK {
      var restored := table.RestoreNativeBatch(records);
      if restored != OK { status := restored; }
    } else {
      table.CommitNativeBatch(records);
    }
  }

  /** The loop that fills the reserved handles never meets a handle it cannot fill, and the claimed
      message is still the head when the receive commits it. */
  method Receive(table: ResourceTable, queue: ReceiveQueue, open: bool, f: Frame, ghost gone: set<Handle>, ghost lost: nat)
    returns (status: Status, payload: seq<Byte>, handles: seq<Handle>)
    requires queue.Valid() && Valid(table.View(), gone, lost)
    modifies table, queue`queue, queue.budgets
    ensures queue.Valid()
    ensures Received(status, WorldOf(table, queue), payload, handles) == ReceiveInto(old(WorldOf(table, queue)), open, f)
  {
    hide Valid, Reserve, Rollback, ActivateAll, ReserveOnto;
    payload, handles := [], [];
    ghost var before := table.View();
    var head;
    status, head := queue.Claim(open);
    if status != OK { return; }
    var m := head.value;
    if f.bytes < |m.payload| || f.resources < |m.resources| {
      var _ := queue.Cancel(m);
      return if f.memory == CopyFails then FAULT else BUFFER_TOO_SMALL, [], [];
    }
    if f.memory == BadRange {
      var _ := queue.Cancel(m);
      return FAULT, [], [];
    }
    if f.memory == Overlapping {
      var _ := queue.Cancel(m);
      return INVALID_ARGUMENT, [], [];
    }
    var reserved;
    status, reserved := table.ReserveNative(|m.resources|, gone, lost);
    if status != OK {
      ReserveIsAtomic(before, gone, lost, |m.resources|);
      var _ := queue.Cancel(m);
      return status, [], [];
    }
    if f.memory == CopyFails {
      table.RollbackNative(reserved);
      var _ := queue.Cancel(m);
      return FAULT, [], [];
    }
    ReserveIsAtomic(before, gone, lost, |m.resources|);
    NextPositive(before, gone, lost, |m.resources|);
    FillHandles(table, reserved, m.resources, before);
    var committed := queue.Commit(m);
    if !committed { assert false; }
    return OK, m.payload, reserved;
  }

  method FillHandles(table: ResourceTable, handles: seq<Handle>, resources: seq<Resource>, ghost before: Table)
    requires handles == Consecutive(before.next, |resources|) && (resources == [] || before.next > 0)
    requires table.entries == ReserveOnto(before.entries, before.next, |resources|)
    modifies table`entries
    ensures table.View() == ActivateAll(old(table.View()), handles, resources)
  {
    hide ReserveOnto, ActivateAll, Activate, Consecutive;
    var i: nat := 0;
    ghost var base: map<Handle, Entry> := before.entries;
    ghost var start := table.View();
    while i < |resources|
      invariant 0 <= i <= |resources|
      invariant ActivateAll(table.View(), handles[i..], resources[i..]) == ActivateAll(start, handles, resources)
      invariant table.entries == ReserveOnto(base, before.next + i, |resources| - i)
    {
      ghost var here := table.View();
      ActivateFills(here, base, before.next + i, resources[i..]);
      ActivateHead(here, base, before.next + i, resources[i..], handles[i..]);
      var status := table.ActivateNative(handles[i], resources[i]);
      if status != OK { assert false; }
      assert resources[i..][1..] == resources[i + 1..] && handles[i..][1..] == handles[i + 1..];
      base := base[before.next + i := Entry(Some(resources[i].obj), before.next + i, Active, resources[i].meta)];
      i := i + 1;
    }
    ActivateNone(table.View());
    assert handles[i..] == [] && resources[i..] == [];
  }

  lemma ActivateNone(t: Table)
    ensures ActivateAll(t, [], []) == t
  {
  }

  lemma ActivateHead(t: Table, base: map<Handle, Entry>, first: Handle, rs: seq<Resource>, hs: seq<Handle>)
    requires first > 0 && rs != [] && |hs| == |rs| && hs[0] == first && t.entries == ReserveOnto(base, first, |rs|)
    ensures Activate(t, first, rs[0]).0 == OK
    ensures ActivateAll(t, hs, rs) == ActivateAll(Activate(t, first, rs[0]).1, hs[1..], rs[1..])
    ensures Activate(t, first, rs[0]).1.entries
         == ReserveOnto(base[first := Entry(Some(rs[0].obj), first, Active, rs[0].meta)], first + 1, |rs| - 1)
  {
    var r := Entry(None, first, Reserved, BLANK);
    var e := Entry(Some(rs[0].obj), first, Active, rs[0].meta);
    ReserveOntoAt(base[first := r], first + 1, |rs| - 1, first);
    ReserveOntoUpdate(base[first := r], first + 1, |rs| - 1, first, e);
    assert base[first := r][first := e] == base[first := e];
  }
}
