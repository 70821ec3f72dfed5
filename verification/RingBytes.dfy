/**
 * The ring over raw bytes, as a value: head, tail, count, drops, and a storage of
 * `capacity * elementSize` bytes. It refines the bounded queue of byte strings.
 */
module RingBytes {
  import opened Arithmetic
  import opened BoundedQueue

  type Byte = b: int | 0 <= b < 256

  /** Modulus of the program's `size_t` counters. */
  const SIZE_WRAP: int := 0x1_0000_0000

  /** The value of a `size_t` counter after `n` increments. */
  function Counter(n: nat): nat {
    n % SIZE_WRAP
  }

  /** The ring index after `n` steps from zero. */
  function Index(n: nat, capacity: nat): (i: nat)
    requires capacity > 0
    ensures i < capacity
  {
    n % capacity
  }

  datatype Ring = Ring(
    storage: seq<Byte>, elementSize: nat, capacity: nat,
    head: nat, tail: nat, count: nat, drops: nat, overflow: Overflow)
  {
    /** What every operation checks first, with the storage the caller promised. */
    predicate Configured() {
      capacity > 0 && elementSize > 0 && capacity * elementSize <= |storage|
    }

    predicate Ok() {
      && Configured()
      && head < capacity && tail < capacity && count <= capacity
      && head == Index(tail + count, capacity)
    }
  }

  // ------------------------------------------------------------------
  // Cells
  // ------------------------------------------------------------------

  lemma CellInside(i: nat, capacity: nat, elementSize: nat)
    requires i < capacity
    ensures 0 <= i * elementSize
    ensures (i + 1) * elementSize == i * elementSize + elementSize <= capacity * elementSize
  {
    ProductOrder(i + 1, capacity, elementSize);
  }

  lemma CellsDisjoint(i: nat, j: nat, elementSize: nat)
    requires i < j
    ensures i * elementSize + elementSize <= j * elementSize
  {
    ProductOrder(i + 1, j, elementSize);
  }

  /** The bytes of cell `i`. */
  function Cell(storage: seq<Byte>, capacity: nat, elementSize: nat, i: nat): (cell: seq<Byte>)
    requires capacity * elementSize <= |storage| && i < capacity
    ensures |cell| == elementSize
  {
    CellInside(i, capacity, elementSize);
    storage[i * elementSize..i * elementSize + elementSize]
  }

  /** Storage after copying `item` into cell `i`. */
  function Written(storage: seq<Byte>, capacity: nat, elementSize: nat, i: nat, item: seq<Byte>): (s: seq<Byte>)
    requires capacity * elementSize <= |storage| && i < capacity && |item| == elementSize
    ensures |s| == |storage|
  {
    CellInside(i, capacity, elementSize);
    storage[..i * elementSize] + item + storage[i * elementSize + elementSize..]
  }

  // ------------------------------------------------------------------
  // A write touches one cell
  // ------------------------------------------------------------------

  /** Copying in one cell leaves the bytes of every other cell, and all bytes outside it, as they were. */
  lemma WriteOneCell(storage: seq<Byte>, capacity: nat, elementSize: nat, i: nat, item: seq<Byte>, j: nat)
    requires capacity * elementSize <= |storage| && i < capacity && j < capacity && |item| == elementSize
    ensures var s := Written(storage, capacity, elementSize, i, item);
            Cell(s, capacity, elementSize, j) == if j == i then item else Cell(storage, capacity, elementSize, j)
  {
    CellInside(i, capacity, elementSize);
    CellInside(j, capacity, elementSize);
    if j < i {
      CellsDisjoint(j, i, elementSize);
    } else if i < j {
      CellsDisjoint(i, j, elementSize);
    }
    SpliceAt(storage, i * elementSize, item, j * elementSize);
  }

  /** Overwriting `|item|` bytes at `at` leaves an equally long slice elsewhere alone. */
  lemma SpliceAt(storage: seq<Byte>, at: nat, item: seq<Byte>, from: nat)
    requires at + |item| <= |storage| && from + |item| <= |storage|
    requires from == at || from + |item| <= at || at + |item| <= from
    ensures (storage[..at] + item + storage[at + |item|..])[from..from + |item|] ==
            if from == at then item else storage[from..from + |item|]
  {
    var s := storage[..at] + item + storage[at + |item|..];
    var slice := if from == at then item else storage[from..from + |item|];
    forall k | 0 <= k < |item|
      ensures s[from..from + |item|][k] == slice[k]
    {
      assert s[from..from + |item|][k] == s[from + k];
    }
  }

  // ------------------------------------------------------------------
  // Cyclic positions
  // ------------------------------------------------------------------

  /** The cell `k` places after `tail`. */
  function Position(tail: nat, k: nat, capacity: nat): (p: nat)
    requires tail < capacity && k <= capacity
    ensures p < capacity
    ensures p == Index(tail + k, capacity)
  {
    if tail + k < capacity then
      ModuloOf(tail + k, 0, tail + k, capacity);
      tail + k
    else
      ModuloOf(tail + k, 1, tail + k - capacity, capacity);
      tail + k - capacity
  }

  /** Stored elements, oldest first. */
  function Items(r: Ring): (items: seq<seq<Byte>>)
    requires r.Ok()
    ensures |items| == r.count
    ensures forall k :: 0 <= k < r.count ==>
              items[k] == Cell(r.storage, r.capacity, r.elementSize, Position(r.tail, k, r.capacity))
  {
    seq(r.count, k requires 0 <= k < r.count =>
      Cell(r.storage, r.capacity, r.elementSize, Position(r.tail, k, r.capacity)))
  }

  // ------------------------------------------------------------------
  // Moving the indices
  // ------------------------------------------------------------------

  lemma NextIndex(a: nat, capacity: nat)
    requires capacity > 0
    ensures var i := Index(a, capacity);
            && Index(i + 1, capacity) == Index(a + 1, capacity)
            && Index(i + 1, capacity) == if i + 1 == capacity then 0 else i + 1
  {
    var i := a % capacity;
    QuotientStep(a, capacity);
    if i + 1 < capacity {
      ModuloOf(i + 1, 0, i + 1, capacity);
    } else {
      ModuloOf(i + 1, 1, 0, capacity);
    }
  }

  lemma IndexInRange(i: nat, capacity: nat)
    requires i < capacity
    ensures Index(i, capacity) == i
  {
    ModuloOf(i, 0, i, capacity);
  }

  lemma NextCounter(n: nat)
    ensures Counter(Counter(n) + 1) == Counter(n + 1)
  {
  }

  /** Dropping the oldest element moves the tail and nothing else. */
  lemma TailStep(r: Ring)
    requires r.Ok() && r.count > 0
    ensures var r' := r.(tail := Index(r.tail + 1, r.capacity), count := r.count - 1);
            r'.Ok() && Items(r') == Items(r)[1..]
  {
    var r' := r.(tail := Index(r.tail + 1, r.capacity), count := r.count - 1);
    IndexInRange(r.tail, r.capacity);
    NextIndex(r.tail, r.capacity);
    hide Index;
    assert r.head == Position(r.tail, r.count, r.capacity);
    assert r'.head == Position(r'.tail, r'.count, r'.capacity);
    forall k | 0 <= k < r'.count
      ensures Items(r')[k] == Items(r)[k + 1]
    {
      assert Position(r'.tail, k, r.capacity) == Position(r.tail, k + 1, r.capacity);
    }
  }

  /** Copying into the head cell of a ring with room appends the item and disturbs no other element. */
  lemma HeadStep(r: Ring, item: seq<Byte>)
    requires r.Ok() && r.count < r.capacity && |item| == r.elementSize
    ensures var r' := r.(storage := Written(r.storage, r.capacity, r.elementSize, r.head, item),
                         head := Index(r.head + 1, r.capacity), count := r.count + 1);
            r'.Ok() && Items(r') == Items(r) + [item]
  {
    var r' := r.(storage := Written(r.storage, r.capacity, r.elementSize, r.head, item),
                 head := Index(r.head + 1, r.capacity), count := r.count + 1);
    IndexInRange(r.head, r.capacity);
    NextIndex(r.head, r.capacity);
    assert r.head == Position(r.tail, r.count, r.capacity);
    assert r'.head == Position(r'.tail, r'.count, r'.capacity);
    hide Written, Cell, Index;
    forall k | 0 <= k < r'.count
      ensures Items(r')[k] == (Items(r) + [item])[k]
    {
      var p := Position(r.tail, k, r.capacity);
      WriteOneCell(r.storage, r.capacity, r.elementSize, r.head, item, p);
    }
  }

  // ------------------------------------------------------------------
  // Operations
  // ------------------------------------------------------------------

  predicate SameConfiguration(r: Ring, r': Ring) {
    && r'.elementSize == r.elementSize && r'.capacity == r.capacity && r'.overflow == r.overflow
    && |r'.storage| == |r.storage|
  }

  function PushBytes(r: Ring, item: seq<Byte>): (out: (Ring, PushStatus))
    requires r.Ok() && |item| == r.elementSize
    ensures out.0.Ok() && SameConfiguration(r, out.0)
  {
    if r.count == r.capacity && r.overflow.DropNewest? then
      (r.(drops := Counter(r.drops + 1)), DroppedNewest)
    else
      var full := r.count == r.capacity;
      var r1 := if full then
                  TailStep(r.(drops := Counter(r.drops + 1)));
                  r.(drops := Counter(r.drops + 1), tail := Index(r.tail + 1, r.capacity), count := r.count - 1)
                else r;
      HeadStep(r1, item);
      (r1.(storage := Written(r1.storage, r1.capacity, r1.elementSize, r1.head, item),
           head := Index(r1.head + 1, r1.capacity),
           count := r1.count + 1),
       if full then DroppedOldest else PushOk)
  }

  function PopBytes(r: Ring): (out: (Ring, Option<seq<Byte>>))
    requires r.Ok()
    ensures out.0.Ok() && SameConfiguration(r, out.0)
  {
    if r.count == 0 then (r, None)
    else
      TailStep(r);
      (r.(tail := Index(r.tail + 1, r.capacity), count := r.count - 1),
       Some(Cell(r.storage, r.capacity, r.elementSize, r.tail)))
  }

  // ------------------------------------------------------------------
  // Refinement
  // ------------------------------------------------------------------

  /**
   * The ring holds the contents of `h`, its indices are the numbers of accepted and of
   * consumed-or-dropped elements modulo the capacity, and its drop counter is the number of
   * drops modulo the counter width.
   */
  ghost predicate Refines(r: Ring, h: History<seq<Byte>>) {
    && r.Ok() && h.q.Ok()
    && r.capacity == h.q.capacity && r.overflow == h.q.overflow
    && Items(r) == h.q.items
    && r.drops == Counter(h.q.drops)
    && |h.q.items| <= |h.accepted|
    && r.head == Index(|h.accepted|, r.capacity)
    && r.tail == Index(|h.accepted| - |h.q.items|, r.capacity)
  }

  lemma DropsIgnored(r: Ring, drops: nat)
    requires r.Ok()
    ensures r.(drops := drops).Ok() && Items(r.(drops := drops)) == Items(r)
  {
  }

  lemma RefinesOk(r: Ring, h: History<seq<Byte>>)
    requires Refines(r, h)
    ensures r.Ok() && h.q.Ok()
  {
  }

  /** What a push does to the stored elements, the indices and the drop counter. */
  lemma PushEffect(r: Ring, item: seq<Byte>)
    requires r.Ok() && |item| == r.elementSize
    ensures var (r', status) := PushBytes(r, item);
            var full := r.count == r.capacity;
            var kept := full && r.overflow.DropNewest?;
            && Items(r') == (if kept then Items(r) else (if full then Items(r)[1..] else Items(r)) + [item])
            && r'.head == (if kept then r.head else Index(r.head + 1, r.capacity))
            && r'.tail == (if full && !kept then Index(r.tail + 1, r.capacity) else r.tail)
            && r'.drops == (if full then Counter(r.drops + 1) else r.drops)
            && status == (if kept then DroppedNewest else if full then DroppedOldest else PushOk)
  {
    hide Index, Counter, Items, Written;
    if r.count < r.capacity {
      HeadStep(r, item);
    } else {
      var r1 := r.(drops := Counter(r.drops + 1));
      DropsIgnored(r, Counter(r.drops + 1));
      if r.overflow.DropOldest? {
        TailStep(r1);
        HeadStep(r1.(tail := Index(r.tail + 1, r.capacity), count := r.count - 1), item);
      }
    }
  }

  lemma PushRefines(r: Ring, h: History<seq<Byte>>, item: seq<Byte>)
    requires Refines(r, h) && |item| == r.elementSize
    ensures Refines(PushBytes(r, item).0, Do(h, PushOp(item)))
    ensures PushBytes(r, item).1 == Push(h.q, item).1
  {
    hide Index, Counter, Items, PushBytes;
    NextCounter(h.q.drops);
    NextIndex(|h.accepted|, r.capacity);
    NextIndex(|h.accepted| - |h.q.items|, r.capacity);
    PushEffect(r, item);
  }

  /** What a pop does to the stored elements and the indices. */
  lemma PopEffect(r: Ring)
    requires r.Ok()
    ensures var (r', item) := PopBytes(r);
            && Items(r') == (if r.count == 0 then [] else Items(r)[1..])
            && item == (if r.count == 0 then None else Some(Items(r)[0]))
            && r'.head == r.head && r'.drops == r.drops
            && r'.tail == (if r.count == 0 then r.tail else Index(r.tail + 1, r.capacity))
  {
    hide Index, Cell;
    if r.count > 0 {
      TailStep(r);
      FirstItem(r);
    }
    hide Items;
  }

  lemma FirstItem(r: Ring)
    requires r.Ok() && r.count > 0
    ensures Items(r)[0] == Cell(r.storage, r.capacity, r.elementSize, r.tail)
  {
    IndexInRange(r.tail, r.capacity);
    hide Index, Cell;
    assert Position(r.tail, 0, r.capacity) == r.tail;
  }

  lemma PopRefines(r: Ring, h: History<seq<Byte>>)
    requires Refines(r, h)
    ensures Refines(PopBytes(r).0, Do(h, PopOp))
    ensures PopBytes(r).1 == Pop(h.q).1
  {
    hide Index, Counter, Items, PopBytes;
    NextIndex(|h.accepted| - |h.q.items|, r.capacity);
    PopEffect(r);
  }

  // ------------------------------------------------------------------
  // Whole histories of critical sections
  // ------------------------------------------------------------------

  function EmptyRing(storage: seq<Byte>, elementSize: nat, capacity: nat, overflow: Overflow): Ring {
    Ring(storage, elementSize, capacity, 0, 0, 0, 0, overflow)
  }

  predicate Fits(op: Op<seq<Byte>>, elementSize: nat) {
    op.PushOp? ==> |op.item| == elementSize
  }

  function DoBytes(r: Ring, op: Op<seq<Byte>>): (r': Ring)
    requires r.Ok() && Fits(op, r.elementSize)
    ensures r'.Ok() && SameConfiguration(r, r')
  {
    match op
    case PushOp(item) => PushBytes(r, item).0
    case PopOp => PopBytes(r).0
  }

  /** The ring after any history of operations whose items have the element size. */
  function DoAllBytes(r: Ring, ops: seq<Op<seq<Byte>>>): (r': Ring)
    requires r.Ok() && forall k :: 0 <= k < |ops| ==> Fits(ops[k], r.elementSize)
    ensures r'.Ok() && SameConfiguration(r, r')
    decreases |ops|
  {
    if ops == [] then r else DoAllBytes(DoBytes(r, ops[0]), ops[1..])
  }

  lemma EmptyRefines(storage: seq<Byte>, elementSize: nat, capacity: nat, overflow: Overflow)
    requires EmptyRing(storage, elementSize, capacity, overflow).Configured()
    ensures Refines(EmptyRing(storage, elementSize, capacity, overflow), Start(capacity, overflow))
  {
    IndexInRange(0, capacity);
  }

  lemma StepRefines(r: Ring, h: History<seq<Byte>>, op: Op<seq<Byte>>)
    requires Refines(r, h) && Fits(op, r.elementSize)
    ensures Refines(DoBytes(r, op), BoundedQueue.Do(h, op))
  {
    hide PushBytes, PopBytes;
    match op
    case PushOp(item) => PushRefines(r, h, item);
    case PopOp => PopRefines(r, h);
  }

  lemma {:induction false} HistoryRefines(r: Ring, h: History<seq<Byte>>, ops: seq<Op<seq<Byte>>>)
    requires Refines(r, h) && forall k :: 0 <= k < |ops| ==> Fits(ops[k], r.elementSize)
    ensures Refines(DoAllBytes(r, ops), BoundedQueue.DoAll(h, ops))
    decreases |ops|
  {
    if ops != [] {
      StepRefines(r, h, ops[0]);
      hide Refines, DoBytes;
      HistoryRefines(DoBytes(r, ops[0]), BoundedQueue.Do(h, ops[0]), ops[1..]);
    }
  }

  /**
   * Over every interleaving of pushes and pops since initialisation: the bytes stored are
   * those of the bounded queue, the indices count what was accepted and what left, modulo the
   * capacity, and pushes are pops plus contents plus drops.
   */
  lemma RingHistory(r: Ring, ops: seq<Op<seq<Byte>>>)
    requires r.Configured() && r == EmptyRing(r.storage, r.elementSize, r.capacity, r.overflow)
    requires forall k :: 0 <= k < |ops| ==> Fits(ops[k], r.elementSize)
    ensures r.Ok()
    ensures var h := BoundedQueue.DoAll(Start(r.capacity, r.overflow), ops);
            var r' := DoAllBytes(r, ops);
            && r'.Ok()
            && Items(r') == h.q.items
            && r'.drops == Counter(h.q.drops)
            && |h.offered| == |h.popped| + r'.count + h.q.drops
            && (r.overflow.DropOldest? ==>
                  && Items(r') == h.offered[|h.popped| + h.q.drops..]
                  && r'.head == Index(|h.offered|, r.capacity)
                  && r'.tail == Index(|h.popped| + h.q.drops, r.capacity))
            && (r.overflow.DropNewest? ==>
                  && h.popped + Items(r') == h.accepted
                  && r'.head == Index(|h.accepted|, r.capacity)
                  && r'.tail == Index(|h.popped|, r.capacity))
  {
    hide Index, Counter, Subsequence, DoAllBytes, Items;
    EmptyRefines(r.storage, r.elementSize, r.capacity, r.overflow);
    HistoryRefines(r, Start(r.capacity, r.overflow), ops);
    StartAccounted<seq<Byte>>(r.capacity, r.overflow);
    EveryHistoryAccounted(Start<seq<Byte>>(r.capacity, r.overflow), ops);
    KeepsConfiguration(Start<seq<Byte>>(r.capacity, r.overflow), ops);
  }

  lemma {:induction false} KeepsConfiguration<T>(h: History<T>, ops: seq<Op<T>>)
    requires h.q.Ok()
    ensures BoundedQueue.DoAll(h, ops).q.capacity == h.q.capacity
    ensures BoundedQueue.DoAll(h, ops).q.overflow == h.q.overflow
    decreases |ops|
  {
    if ops != [] {
      KeepsConfiguration(BoundedQueue.Do(h, ops[0]), ops[1..]);
    }
  }

  /** A push changes no byte outside the head cell. */
  lemma PushWritesOneCell(r: Ring, item: seq<Byte>, b: nat)
    requires r.Ok() && |item| == r.elementSize && b < |r.storage|
    requires b < r.head * r.elementSize || r.head * r.elementSize + r.elementSize <= b
    ensures var r' := PushBytes(r, item).0;
            |r'.storage| == |r.storage| && r'.storage[b] == r.storage[b]
  {
    CellInside(r.head, r.capacity, r.elementSize);
    hide Index, Counter;
  }
}
