/** The fixed-storage FIFO with a claim on its head. */
module BoundedQueue {

  /** First position of v in s, or |s| when absent. */
  function IndexOf<T(==)>(s: seq<T>, v: T): (k: nat)
    ensures k <= |s| && (k < |s| ==> s[k] == v) && forall i | 0 <= i < k :: s[i] != v
    decreases |s|
  {
    if s == [] || s[0] == v then 0 else 1 + IndexOf(s[1..], v)
  }

  predicate Removable<T(==)>(s: seq<T>, claimed: bool, v: T) {
    v in s && !(claimed && s[0] == v)
  }

  /** s without its first v. */
  function Without<T(==)>(s: seq<T>, v: T): seq<T>
    requires v in s
  {
    var k := IndexOf(s, v);
    s[..k] + s[k + 1..]
  }

  lemma FoundIs<T>(s: seq<T>, v: T)
    ensures var k := IndexOf(s, v); (v in s <==> k < |s|) && (k < |s| ==> Without(s, v) == s[..k] + s[k + 1..] && (k == 0 <==> s[0] == v))
  {
    hide IndexOf;
  }

  function Slot(head: nat, i: nat, capacity: nat): nat
    requires capacity > 0
  {
    (head + i) % capacity
  }

  lemma Quotient(x: nat, c: nat)
    requires 0 < c && x < 2 * c
    ensures x / c == if x < c then 0 else 1
  {
    var q := x / c;
    assert x == q * c + x % c;
    assert q >= 2 ==> q * c >= 2 * c;
    assert q == 0 ==> q * c == 0;
  }

  lemma SlotIs(head: nat, i: nat, capacity: nat)
    requires head < capacity && i <= capacity
    ensures Slot(head, i, capacity) == if head + i < capacity then head + i else head + i - capacity
  {
    Quotient(head + i, capacity);
    assert head + i == ((head + i) / capacity) * capacity + (head + i) % capacity;
  }

  lemma SlotsDiffer(head: nat, i: nat, j: nat, capacity: nat)
    requires head < capacity && i < capacity && j < capacity && i != j
    ensures Slot(head, i, capacity) != Slot(head, j, capacity)
  {
    SlotIs(head, i, capacity);
    SlotIs(head, j, capacity);
  }

  lemma SlotNext(head: nat, i: nat, capacity: nat)
    requires head < capacity && i < capacity
    ensures Slot(head, 1, capacity) < capacity
    ensures Slot(Slot(head, 1, capacity), i, capacity) == Slot(head, i + 1, capacity)
  {
    SlotIs(head, 1, capacity);
    SlotIs(Slot(head, 1, capacity), i, capacity);
    SlotIs(head, i + 1, capacity);
  }

  /** The queue while everything behind `offset` moves up one place, `current` being next. */
  function Shifted<T>(s: seq<T>, offset: nat, current: nat): (r: seq<T>)
    requires offset <= current < |s|
    ensures |r| == |s|
  {
    s[..offset] + s[offset + 1..current + 1] + s[current..]
  }

  lemma ShiftedStart<T>(s: seq<T>, offset: nat)
    requires offset < |s|
    ensures Shifted(s, offset, offset) == s
  {
  }

  lemma ShiftedStep<T>(s: seq<T>, offset: nat, current: nat)
    requires offset <= current < |s| - 1
    ensures Shifted(s, offset, current)[current + 1] == s[current + 1]
    ensures Shifted(s, offset, current)[current := s[current + 1]] == Shifted(s, offset, current + 1)
  {
    assert s[offset + 1..current + 2] == s[offset + 1..current + 1] + [s[current + 1]];
    assert s[current..] == [s[current]] + s[current + 1..];
  }

  lemma ShiftedEnd<T>(s: seq<T>, offset: nat, last: T)
    requires offset < |s|
    ensures Shifted(s, offset, |s| - 1)[|s| - 1 := last][..|s| - 1] == s[..offset] + s[offset + 1..]
  {
  }

  class Queue<T(==)> {
    const storage: array<T>
    const blank: T
    var head: nat
    var count: nat
    var claimed: bool

    ghost predicate Valid()
      reads this
    {
      && count <= storage.Length && (storage.Length > 0 ==> head < storage.Length) && (claimed ==> count > 0)
    }

    ghost function Contents(): (s: seq<T>)
      requires Valid()
      reads this, storage
      ensures |s| == count
    {
      seq(count, i requires 0 <= i < count && Valid() reads this, storage =>
        SlotIs(head, i, storage.Length); storage[Slot(head, i, storage.Length)])
    }

    constructor (capacity: nat, empty: T)
      ensures Valid() && fresh(storage) && storage.Length == capacity && Contents() == [] && !claimed
    {
      storage := new T[capacity](_ => empty);
      blank := empty;
      head, count, claimed := 0, 0, false;
    }

    method TryPush(value: T) returns (ok: bool)
      requires Valid()
      modifies this`count, storage
      ensures Valid() && ok == (old(count) < storage.Length)
      ensures Contents() == if ok then old(Contents()) + [value] else old(Contents())
    {
      hide Slot;
      if storage.Length == 0 || count == storage.Length { return false; }
      ghost var before := Contents();
      SlotIs(head, count, storage.Length);
      storage[Slot(head, count, storage.Length)] := value;
      forall i | 0 <= i < count
        ensures Slot(head, i, storage.Length) < storage.Length && storage[Slot(head, i, storage.Length)] == before[i]
      {
        SlotsDiffer(head, i, count, storage.Length);
        SlotIs(head, i, storage.Length);
      }
      count := count + 1;
      assert Contents() == before + [value];
      return true;
    }

    method ClaimFront() returns (ok: bool)
      requires Valid()
      modifies this`claimed
      ensures Valid() && Contents() == old(Contents())
      ensures ok == (old(Contents()) != [] && !old(claimed)) && claimed == (ok || old(claimed))
    {
      if count == 0 || claimed { return false; }
      claimed := true;
      return true;
    }

    method At(offset: nat) returns (value: T)
      requires Valid() && offset < count
      ensures value == Contents()[offset]
    {
      SlotIs(head, offset, storage.Length);
      value := storage[Slot(head, offset, storage.Length)];
    }

    /** Only a claimed head can leave the queue. */
    method CommitClaim()
      requires Valid()
      modifies this`head, this`count, this`claimed
      ensures Valid() && (old(claimed) ==> !claimed) && (!old(claimed) ==> claimed == old(claimed))
      ensures Contents() == if old(claimed) then old(Contents())[1..] else old(Contents())
    {
      hide Slot;
      if !claimed || count == 0 { return; }
      ghost var before := Contents();
      var n := storage.Length;
      SlotIs(head, 1, n);
      forall i | 0 <= i < count - 1
        ensures Slot(Slot(head, 1, n), i, n) == Slot(head, i + 1, n) && Slot(head, i + 1, n) < n
      {
        SlotNext(head, i, n);
        SlotIs(head, i + 1, n);
      }
      ghost var start := head;
      head := Slot(head, 1, n);
      count := count - 1;
      claimed := false;
      forall i | 0 <= i < count ensures Contents()[i] == before[i + 1] {
        assert Slot(head, i, n) == Slot(start, i + 1, n);
      }
      assert Contents() == before[1..];
    }

    method Find(value: T) returns (offset: nat)
      requires Valid()
      ensures offset == IndexOf(Contents(), value)
    {
      hide Slot;
      offset := 0;
      ghost var all := Contents();
      while offset < count
        invariant offset <= count && forall i | 0 <= i < offset :: all[i] != value
      {
        var here := At(offset);
        if here == value { return; }
        offset := offset + 1;
      }
    }

    method Put(offset: nat, value: T)
      requires Valid() && offset < count
      modifies storage
      ensures Valid() && Contents() == old(Contents())[offset := value]
    {
      hide Slot;
      ghost var was := Contents();
      SlotIs(head, offset, storage.Length);
      storage[Slot(head, offset, storage.Length)] := value;
      forall i | 0 <= i < count && i != offset ensures Contents()[i] == was[i] {
        SlotsDiffer(head, i, offset, storage.Length);
        SlotIs(head, i, storage.Length);
      }
    }

    /** Take the first `value` out of the middle, unless it is the claimed head; the rest keeps its order. */
    method Remove(value: T) returns (ok: bool)
      requires Valid()
      modifies this`count, storage
      ensures Valid() && claimed == old(claimed)
      ensures ok == Removable(old(Contents()), claimed, value)
      ensures Contents() == if ok then Without(old(Contents()), value) else old(Contents())
    {
      hide Slot, Shifted, IndexOf, Without;
      if count == 0 { return false; }
      ghost var before := Contents();
      var offset := Find(value);
      FoundIs(before, value);
      if offset == count || (claimed && offset == 0) { return false; }
      var current := offset;
      ShiftedStart(before, offset);
      while current + 1 < count
        invariant offset <= current < count && Valid() && |before| == count
        invariant Contents() == Shifted(before, offset, current)
      {
        ShiftedStep(before, offset, current);
        var following := At(current + 1);
        Put(current, following);
        current := current + 1;
      }
      Put(count - 1, blank);
      ShiftedEnd(before, offset, blank);
      ghost var shifted := Contents();
      count := count - 1;
      assert Contents() == shifted[..count];
      return true;
    }
  }
}
