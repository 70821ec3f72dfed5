/** The FSI service as the program has it: a byte ring, event bits and a budgeted drain loop. */
module FsiService {
  import opened BoundedQueue
  import opened RingBytes
  import opened RingBuffer
  import opened TypedRing
  import opened Codec
  import opened FsiModel

  class FsiService {
    const irqRecords: TypedRing<Record>
    var eventBits: bv32
    var maxRecordsPerRun: nat
    var hooks: Hooks

    /** The machine state that the fields represent. */
    ghost var m: Fsi

    ghost predicate Valid()
      reads this, irqRecords, irqRecords.ring, irqRecords.ring.storage
    {
      && irqRecords.Valid() && irqRecords.queue == m.queue
      && m.bits == eventBits && m.budget == maxRecordsPerRun && m.hooks == hooks
    }

    constructor ()
      ensures fresh(irqRecords) && fresh(irqRecords.ring) && irqRecords.layout == RecordLayout()
    {
      irqRecords := new TypedRing(RecordLayout());
      eventBits, maxRecordsPerRun := 0, 0;
      hooks := Hooks(false, false, false);
      m := Initial(0, DropNewest, 0, Hooks(false, false, false));
    }

    /** `sch_fsi_service_init`, given a HAL table. */
    method Init(hooks: Hooks, storage: array?<Byte>, capacity: nat, maxRecordsPerRun: nat, mode: int)
      returns (ok: bool)
      requires irqRecords.layout == RecordLayout()
      requires storage != null ==> capacity * RECORD_SIZE <= storage.Length
      modifies this, irqRecords, irqRecords.ring
      ensures ok <==> maxRecordsPerRun != 0 && storage != null && capacity != 0 && mode in {DROP_NEWEST, DROP_OLDEST}
      ensures ok ==>
                && Valid() && irqRecords.ring.storage == storage
                && m == Initial(capacity, if mode == DROP_NEWEST then DropNewest else DropOldest,
                                maxRecordsPerRun, hooks)
    {
      if maxRecordsPerRun == 0 {
        return false;
      }
      this.hooks := hooks;
      eventBits := 0;
      this.maxRecordsPerRun := maxRecordsPerRun;
      RecordLayoutSound();
      ok := irqRecords.Init(storage, capacity, mode);
      m := Initial(capacity, if mode == DROP_NEWEST then DropNewest else DropOldest, maxRecordsPerRun, hooks);
    }

    /** `sch_fsi_isr_push`, behind the three interrupt hooks. */
    method Isr(irq: Irq)
      requires Valid()
      modifies this`eventBits, this`m, irqRecords, irqRecords.ring, irqRecords.ring.storage
      ensures Valid() && irqRecords.ring.storage == old(irqRecords.ring.storage)
      ensures m == Interrupt(old(m), irq)
    {
      hide Refines, Accounted, Mapped, Sound;
      var record := Captured(irq);
      var _ := irqRecords.Push(record);
      m := FsiModel.Do(m, Capture(irq));
      eventBits := eventBits | EventBit(irq);
      m := FsiModel.Do(m, Flag(irq));
    }

    /** Interrupts that fire in a row before the task's next atomic step. */
    method Interrupts(irqs: seq<Irq>)
      requires Valid()
      modifies this`eventBits, this`m, irqRecords, irqRecords.ring, irqRecords.ring.storage
      ensures Valid() && irqRecords.ring.storage == old(irqRecords.ring.storage)
      ensures m == Arrive(old(m), irqs)
    {
      for k := 0 to |irqs|
        invariant Valid() && irqRecords.ring.storage == old(irqRecords.ring.storage)
        invariant Arrive(old(m), irqs) == Arrive(m, irqs[k..])
      {
        assert irqs[k..][1..] == irqs[k + 1..];
        Isr(irqs[k]);
      }
    }

    /** First critical section of a run: take the event bits. */
    method TakeEventBits() returns (pending: bv32)
      requires Valid() && m.pc.Idle?
      modifies this`eventBits, this`m
      ensures Valid() && m == TaskStep(old(m)) && m.pc == Check(pending != 0) && m.budget == old(m.budget)
    {
      pending := eventBits;
      eventBits := 0;
      m := TaskStep(m);
    }

    /** Pop one record: the next step of a run whose budget is not used up. */
    method Fetch(ghost i: nat) returns (record: Option<Record>)
      requires Valid() && m.pc == FsiModel.Fetch(i) && i < m.budget
      modifies this`m, irqRecords, irqRecords.ring
      ensures Valid() && irqRecords.ring.storage == old(irqRecords.ring.storage)
      ensures m == TaskStep(old(m))
      ensures m.budget == old(m.budget)
      ensures match record case None => m.pc.Idle? case Some(r) => m.pc == Handle(i, r)
    {
      record := irqRecords.Pop();
      m := TaskStep(m);
    }

    /** Work check of a run: return early only without event bits and without records. */
    method CheckForWork(pending: bv32) returns (done: bool)
      requires Valid() && m.pc == Check(pending != 0)
      modifies this`m
      ensures Valid() && m == TaskStep(old(m))
      ensures m.budget == old(m.budget)
      ensures m.pc == if done then Idle else FsiModel.Fetch(0)
    {
      var empty := irqRecords.IsEmpty();
      m := TaskStep(m);
      done := pending == 0 && empty;
    }

    /** Dispatch one record by its tag; the calls made are recorded in the machine's call logs. */
    method Dispatch(ghost i: nat, record: Record)
      requires Valid() && m.pc == Handle(i, record)
      modifies this`m
      ensures Valid() && m == TaskStep(old(m)) && m.pc == FsiModel.Fetch(i + 1) && m.budget == old(m.budget)
    {
      hide Deliver, Refines, Accounted, Mapped, Sound;
      DeliverEffect(m, record);
      var called := CallHandler(hooks, record);
      m := m.(consumed := m.consumed + [record], pc := FsiModel.Fetch(i + 1),
              rxCalls := if called.RxHandler? then m.rxCalls + [record] else m.rxCalls,
              txCalls := if called.TxHandler? then m.txCalls + [record] else m.txCalls,
              errorCalls := if called.ErrorHandler? then m.errorCalls + [record] else m.errorCalls);
    }

    /** One turn of the drain loop: pop a record and dispatch it, or find the ring empty. */
    method DrainOne(irqs: nat -> seq<Irq>, k: nat, ghost i: nat) returns (more: bool)
      requires Valid() && m.pc == FsiModel.Fetch(i) && i < m.budget
      modifies this`eventBits, this`m, irqRecords, irqRecords.ring, irqRecords.ring.storage
      ensures Valid() && irqRecords.ring.storage == old(irqRecords.ring.storage) && m.budget == old(m.budget)
      ensures more ==> m.pc == FsiModel.Fetch(i + 1) && Continue(old(m), irqs, k) == Continue(m, irqs, k + 2)
      ensures !more ==> m == Continue(old(m), irqs, k)
    {
      hide Arrive, TaskStep, Continue, Refines, Accounted, Mapped, Sound;
      ContinueUnfolds(m, irqs, k);
      Interrupts(irqs(k));
      var record := Fetch(i);
      if record.None? {
        ContinueEnds(m, irqs, k + 1);
        return false;
      }
      ContinueUnfolds(m, irqs, k + 1);
      Interrupts(irqs(k + 1));
      Dispatch(i, record.value);
      more := true;
    }

    /** The drain loop of a run, from its k-th atomic step on. */
    method Drain(irqs: nat -> seq<Irq>, first: nat)
      requires Valid() && m.pc == FsiModel.Fetch(0)
      modifies this`eventBits, this`m, irqRecords, irqRecords.ring, irqRecords.ring.storage
      ensures Valid() && irqRecords.ring.storage == old(irqRecords.ring.storage)
      ensures m == Continue(old(m), irqs, first)
    {
      hide Arrive, TaskStep, Continue, Refines, Accounted, Mapped, Sound;
      var i := 0;
      while i < maxRecordsPerRun
        invariant Valid() && irqRecords.ring.storage == old(irqRecords.ring.storage)
        invariant maxRecordsPerRun == old(maxRecordsPerRun)
        invariant i <= m.budget && m.pc == FsiModel.Fetch(i)
        invariant Continue(old(m), irqs, first) == Continue(m, irqs, first + 2 * i)
      {
        var more := DrainOne(irqs, first + 2 * i, i);
        if !more {
          return;
        }
        i := i + 1;
      }
      var k := first + 2 * i;
      ContinueUnfolds(m, irqs, k);
      Interrupts(irqs(k));
      BudgetUsedUp(m);
      m := TaskStep(m);
      ContinueEnds(m, irqs, k + 1);
    }

    /** `sch_fsi_service_run`, with the interrupts `irqs(k)` before its k-th atomic step. */
    method Run(irqs: nat -> seq<Irq>)
      requires Valid() && m.pc.Idle?
      modifies this`eventBits, this`m, irqRecords, irqRecords.ring, irqRecords.ring.storage
      ensures Valid() && irqRecords.ring.storage == old(irqRecords.ring.storage)
      ensures m == FsiModel.Run(old(m), irqs)
    {
      hide Arrive, TaskStep, Continue, Refines, Accounted, Mapped, Sound;
      Interrupts(irqs(0));
      var pending := TakeEventBits();
      ContinueUnfolds(m, irqs, 1);
      Interrupts(irqs(1));
      var done := CheckForWork(pending);
      if done {
        ContinueEnds(m, irqs, 2);
        return;
      }
      Drain(irqs, 2);
    }

    /** `sch_fsi_service_drop_count`. */
    method DropCount() returns (n: nat)
      requires Valid()
      ensures n == Counter(m.queue.drops)
    {
      n := irqRecords.DropCount();
    }
  }

  datatype Handler = NoHandler | RxHandler | TxHandler | ErrorHandler

  /** The tag switch of a run, on a HAL with the given handlers: which of them it calls. */
  method CallHandler(hooks: Hooks, record: Record) returns (called: Handler)
    ensures called == RxHandler <==> record.irqTag == TAG_RX && hooks.rx
    ensures called == TxHandler <==> record.irqTag == TAG_TX && hooks.tx
    ensures called == ErrorHandler <==> record.irqTag == TAG_ERROR && hooks.error
  {
    called := NoHandler;
    if record.irqTag == TAG_RX {
      if hooks.rx {
        called := RxHandler;
      }
    } else if record.irqTag == TAG_TX {
      if hooks.tx {
        called := TxHandler;
      }
    } else if record.irqTag == TAG_ERROR {
      if hooks.error {
        called := ErrorHandler;
      }
    }
  }

  lemma ContinueEnds(m: Fsi, irqs: nat -> seq<Irq>, k: nat)
    requires m.queue.Ok() && m.pc.Idle?
    ensures Continue(m, irqs, k) == m
  {
  }

  lemma BudgetUsedUp(m: Fsi)
    requires m.queue.Ok() && m.pc == FsiModel.Fetch(m.budget)
    ensures TaskStep(m) == m.(pc := Idle)
  {
  }
}
