/** The ring as the program has it: a byte array updated in place, one critical section per operation. */
module RingBuffer {
  import opened BoundedQueue
  import opened RingBytes

  /** Values of `sch_overflow_mode_t`; anything else is rejected at initialisation. */
  const DROP_NEWEST: int := 0
  const DROP_OLDEST: int := 1

  class RingBuffer {
    var storage: array?<Byte>
    var elementSize: nat
    var capacity: nat
    var head: nat
    var tail: nat
    var count: nat
    var drops: nat
    var overflow: Overflow

    /** Everything offered, accepted and popped since initialisation or the last reset. */
    ghost var history: History<seq<Byte>>

    /** `sch_ring_valid`. */
    predicate Configured()
      reads this
    {
      storage != null && capacity > 0 && elementSize > 0
    }

    ghost function Value(): Ring
      requires storage != null
      reads this, storage
    {
      Ring(storage[..], elementSize, capacity, head, tail, count, drops, overflow)
    }

    ghost predicate Valid()
      reads this, storage
    {
      Configured() ==> Refines(Value(), history) && Accounted(history)
    }

    constructor ()
      ensures Valid() && !Configured()
    {
      storage := null;
      elementSize, capacity, head, tail, count, drops := 0, 0, 0, 0, 0, 0;
      overflow := DropNewest;
      history := Start(0, DropNewest);
    }

    /** `sch_spsc_ring_init`. The caller promises `capacity * elementSize` bytes of storage. */
    method Init(storage: array?<Byte>, capacity: nat, elementSize: nat, mode: int) returns (ok: bool)
      requires storage != null ==> capacity * elementSize <= storage.Length
      modifies this
      ensures ok <==> storage != null && capacity != 0 && elementSize != 0 && mode in {DROP_NEWEST, DROP_OLDEST}
      ensures ok ==> Valid() && Configured() && this.storage == storage && this.elementSize == elementSize
      ensures ok ==> history == Start(capacity, if mode == DROP_NEWEST then DropNewest else DropOldest)
      ensures !ok ==> unchanged(this)
    {
      hide Refines, Accounted;
      if storage == null || capacity == 0 || elementSize == 0 {
        return false;
      }
      if mode != DROP_NEWEST && mode != DROP_OLDEST {
        return false;
      }
      this.storage := storage;
      this.elementSize := elementSize;
      this.capacity := capacity;
      this.head := 0;
      this.tail := 0;
      this.count := 0;
      this.drops := 0;
      this.overflow := if mode == DROP_NEWEST then DropNewest else DropOldest;
      history := Start(capacity, this.overflow);
      EmptyRefines(storage[..], elementSize, capacity, this.overflow);
      StartAccounted<seq<Byte>>(capacity, this.overflow);
      ok := true;
    }

    /** `sch_spsc_ring_reset`. */
    method Reset()
      requires Valid()
      modifies this
      ensures Valid() && storage == old(storage) && elementSize == old(elementSize)
      ensures Configured() == old(Configured())
      ensures Configured() ==> history == Start(old(history).q.capacity, old(history).q.overflow)
      ensures !Configured() ==> unchanged(this)
    {
      hide Accounted;
      if !Configured() {
        return;
      }
      head := 0;
      tail := 0;
      count := 0;
      drops := 0;
      history := Start(capacity, overflow);
      EmptyRefines(storage[..], elementSize, capacity, overflow);
      StartAccounted<seq<Byte>>(capacity, overflow);
    }

    /** `memcpy` of one element into cell `i`. */
    method CopyIn(i: nat, item: seq<Byte>)
      requires Configured() && Value().Configured() && i < capacity && |item| == elementSize
      modifies storage
      ensures storage[..] == Written(old(storage[..]), capacity, elementSize, i, item)
    {
      hide Copying, Written;
      CellInside(i, capacity, elementSize);
      var dst := i * elementSize;
      ghost var bytes := storage[..];
      CopyingFromTo(bytes, capacity, elementSize, i, item);
      for k := 0 to elementSize
        invariant storage[..] == Copying(bytes, dst, item, k)
      {
        CopyStep(bytes, dst, item, k);
        storage[dst + k] := item[k];
      }
    }

    /** `memcpy` of cell `i` into a buffer of the caller. */
    method CopyOut(i: nat) returns (item: seq<Byte>)
      requires Configured() && Value().Configured() && i < capacity
      ensures item == Cell(storage[..], capacity, elementSize, i)
    {
      CellInside(i, capacity, elementSize);
      var src := i * elementSize;
      item := [];
      for k := 0 to elementSize
        invariant item == storage[src..src + k]
      {
        item := item + [storage[src + k]];
      }
    }

    /** `sch_spsc_ring_push_isr`. */
    method Push(item: seq<Byte>) returns (status: PushStatus)
      requires Valid() && (Configured() ==> |item| == elementSize)
      modifies this, storage
      ensures Valid() && storage == old(storage) && elementSize == old(elementSize)
      ensures Configured() == old(Configured())
      ensures old(Configured()) ==>
                && (Value(), status) == PushBytes(old(Value()), item)
                && history == Do(old(history), PushOp(item))
                && status == BoundedQueue.Push(old(history).q, item).1
      ensures !old(Configured()) ==> status == DroppedNewest && unchanged(this)
    {
      hide Refines, Accounted, Do, PushBytes, BoundedQueue.Push;
      if !Configured() {
        return DroppedNewest;
      }
      RefinesOk(Value(), history);
      PushRefines(Value(), history, item);
      StepAccounted(history, PushOp(item));
      history := Do(history, PushOp(item));
      status := Put(item);
    }

    /** The critical section of a push. */
    method Put(item: seq<Byte>) returns (status: PushStatus)
      requires Configured() && Value().Ok() && |item| == elementSize
      modifies this`head, this`tail, this`count, this`drops, storage
      ensures Configured() && (Value(), status) == PushBytes(old(Value()), item)
    {
      hide Index, Counter, Written;
      var droppedOldest := false;
      if count == capacity {
        CountDrop();
        if overflow == DropNewest {
          return DroppedNewest;
        }
        ForgetOldest();
        droppedOldest := true;
      }
      StoreAtHead(item);
      status := if droppedOldest then DroppedOldest else PushOk;
    }

    /** Count one dropped element. */
    method CountDrop()
      requires storage != null
      modifies this`drops
      ensures Value() == old(Value()).(drops := Counter(old(drops) + 1))
    {
      drops := (drops + 1) % SIZE_WRAP;
    }

    /** Step the tail over the oldest element. */
    method ForgetOldest()
      requires Configured() && count > 0
      modifies this`tail, this`count
      ensures Value() == var r := old(Value()); r.(tail := Index(r.tail + 1, r.capacity), count := r.count - 1)
    {
      hide Index;
      tail := NextIndexOf(tail);
      count := count - 1;
    }

    /** Copy the item into the head cell and step the head. */
    method StoreAtHead(item: seq<Byte>)
      requires Configured() && Value().Configured() && head < capacity && |item| == elementSize
      modifies this`head, this`count, storage
      ensures Configured()
      ensures Value() == var r := old(Value());
                         r.(storage := Written(r.storage, r.capacity, r.elementSize, r.head, item),
                            head := Index(r.head + 1, r.capacity), count := r.count + 1)
    {
      hide Index, Written;
      CopyIn(head, item);
      head := NextIndexOf(head);
      count := count + 1;
    }

    /** `(i + 1u) % capacity`. */
    method NextIndexOf(i: nat) returns (next: nat)
      requires capacity > 0
      ensures next == Index(i + 1, capacity)
    {
      next := (i + 1) % capacity;
    }

    /** `sch_spsc_ring_pop_task`. */
    method Pop() returns (item: Option<seq<Byte>>)
      requires Valid()
      modifies this
      ensures Valid() && storage == old(storage) && elementSize == old(elementSize)
      ensures Configured() == old(Configured())
      ensures old(Configured()) ==>
                && (Value(), item) == PopBytes(old(Value()))
                && history == Do(old(history), PopOp)
                && item == BoundedQueue.Pop(old(history).q).1
      ensures !old(Configured()) ==> item == None && unchanged(this)
    {
      if !Configured() {
        return None;
      }
      ghost var before, h := Value(), history;
      PopRefines(before, h);
      StepAccounted(h, PopOp);
      history := Do(h, PopOp);
      hide Refines, Accounted, Do, Index, Cell;
      if count == 0 {
        return None;
      }
      var bytes := CopyOut(tail);
      tail := NextIndexOf(tail);
      count := count - 1;
      item := Some(bytes);
    }

    /** `sch_spsc_ring_size`. */
    method Size() returns (n: nat)
      requires Valid()
      ensures n == if Configured() then |history.q.items| else 0
    {
      if !Configured() {
        return 0;
      }
      n := count;
    }

    /** `sch_spsc_ring_drop_count`. */
    method DropCount() returns (n: nat)
      requires Valid()
      ensures n == if Configured() then Counter(history.q.drops) else 0
    {
      if !Configured() {
        return 0;
      }
      n := drops;
    }

    /** `sch_spsc_ring_is_empty`. */
    method IsEmpty() returns (empty: bool)
      requires Valid()
      ensures empty <==> Configured() ==> history.q.items == []
    {
      var n := Size();
      empty := n == 0;
    }

    /** `sch_spsc_ring_is_full`. */
    method IsFull() returns (full: bool)
      requires Valid()
      ensures full <==> Configured() && |history.q.items| == history.q.capacity
    {
      if !Configured() {
        return false;
      }
      full := count == capacity;
    }
  }

  /** `bytes` with the first `k` bytes of `item` copied to `at`. */
  ghost function Copying(bytes: seq<Byte>, at: nat, item: seq<Byte>, k: nat): (s: seq<Byte>)
    requires k <= |item| && at + |item| <= |bytes|
    ensures |s| == |bytes|
  {
    bytes[..at] + item[..k] + bytes[at + k..]
  }

  lemma CopyStep(bytes: seq<Byte>, at: nat, item: seq<Byte>, k: nat)
    requires k < |item| && at + |item| <= |bytes|
    ensures Copying(bytes, at, item, k)[at + k := item[k]] == Copying(bytes, at, item, k + 1)
  {
  }

  lemma CopyingFromTo(bytes: seq<Byte>, capacity: nat, elementSize: nat, i: nat, item: seq<Byte>)
    requires capacity * elementSize <= |bytes| && i < capacity && |item| == elementSize
    ensures 0 <= i * elementSize && i * elementSize + elementSize <= |bytes|
    ensures Copying(bytes, i * elementSize, item, 0) == bytes
    ensures Copying(bytes, i * elementSize, item, elementSize) == Written(bytes, capacity, elementSize, i, item)
  {
    CellInside(i, capacity, elementSize);
    assert item[..elementSize] == item;
  }
}
