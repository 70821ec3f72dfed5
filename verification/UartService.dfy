/** The UART service as the program has it: receive and send rings, wake hints, budgeted loops. */
module UartService {
  import opened BoundedQueue
  import opened RingBytes
  import opened RingBuffer
  import opened TypedRing
  import opened Codec
  import opened UartModel

  class UartService {
    const rxRing: TypedRing<U16>
    const txRing: TypedRing<U16>
    var rxHint: bool
    var txHint: bool
    var maxRxItemsPerRun: nat
    var maxTxItemsPerRun: nat

    /** The machine state that the fields represent, with the bytes accepted and written so far. */
    ghost var m: Uart

    ghost predicate Separate()
      reads this, rxRing.ring, txRing.ring
    {
      && rxRing != txRing
      && rxRing.ring != txRing.ring
      && rxRing.ring.storage != txRing.ring.storage
    }

    ghost predicate Valid()
      reads this, rxRing, rxRing.ring, rxRing.ring.storage, txRing, txRing.ring, txRing.ring.storage
    {
      && Separate()
      && rxRing.Valid() && txRing.Valid() && txRing.queue.overflow.DropNewest?
      && m == Uart(rxRing.queue, txRing.queue, rxHint, txHint, maxRxItemsPerRun, maxTxItemsPerRun,
                   m.accepted, m.written)
    }

    constructor ()
      ensures fresh(rxRing) && fresh(txRing) && fresh(rxRing.ring) && fresh(txRing.ring)
      ensures rxRing.layout == WordLayout() && txRing.layout == WordLayout()
      ensures rxRing != txRing && rxRing.ring != txRing.ring
    {
      rxRing := new TypedRing(WordLayout());
      txRing := new TypedRing(WordLayout());
      rxHint, txHint, maxRxItemsPerRun, maxTxItemsPerRun := false, false, 0, 0;
      m := UartModel.Initial(0, 0, 0, 0);
    }

    /** The ring part of `sch_uart_service_init`: receiving drops the oldest byte, sending the newest. */
    method InitRings(rxStorage: array?<Byte>, rxCapacity: nat, txStorage: array?<Byte>, txCapacity: nat)
      returns (ok: bool)
      requires rxRing.layout == WordLayout() && txRing.layout == WordLayout()
      requires rxRing != txRing && rxRing.ring != txRing.ring
      requires rxStorage != null ==> rxStorage != txStorage && rxCapacity * 2 <= rxStorage.Length
      requires txStorage != null ==> txCapacity * 2 <= txStorage.Length
      modifies rxRing, rxRing.ring, txRing, txRing.ring
      ensures ok <==> rxStorage != null && rxCapacity != 0 && txStorage != null && txCapacity != 0
      ensures ok ==> Separate() && rxRing.Valid() && txRing.Valid()
      ensures ok ==> rxRing.queue == EmptyQueue(rxCapacity, DropOldest)
      ensures ok ==> txRing.queue == EmptyQueue(txCapacity, DropNewest)
    {
      hide Refines, Accounted, Mapped, Sound;
      WordLayoutSound();
      var okRx := rxRing.Init(rxStorage, rxCapacity, DROP_OLDEST);
      var okTx := txRing.Init(txStorage, txCapacity, DROP_NEWEST);
      ok := okRx && okTx;
    }

    /** `sch_uart_service_init`, given a complete HAL table. */
    method Init(rxStorage: array?<Byte>, rxCapacity: nat, txStorage: array?<Byte>, txCapacity: nat,
                maxRx: nat, maxTx: nat) returns (ok: bool)
      requires rxRing.layout == WordLayout() && txRing.layout == WordLayout()
      requires rxRing != txRing && rxRing.ring != txRing.ring
      requires rxStorage != null ==> rxStorage != txStorage && rxCapacity * 2 <= rxStorage.Length
      requires txStorage != null ==> txCapacity * 2 <= txStorage.Length
      modifies this, rxRing, rxRing.ring, txRing, txRing.ring
      ensures ok <==> && maxRx != 0 && maxTx != 0
                      && rxStorage != null && rxCapacity != 0 && txStorage != null && txCapacity != 0
      ensures ok ==> Valid() && m == UartModel.Initial(rxCapacity, txCapacity, maxRx, maxTx)
    {
      if maxRx == 0 || maxTx == 0 {
        return false;
      }
      hide Refines, Accounted, Mapped, Sound;
      rxHint := false;
      txHint := false;
      maxRxItemsPerRun := maxRx;
      maxTxItemsPerRun := maxTx;
      ok := InitRings(rxStorage, rxCapacity, txStorage, txCapacity);
      m := UartModel.Initial(rxCapacity, txCapacity, maxRx, maxTx);
    }

    /** `sch_uart_service_queue_tx`. */
    method QueueTx(byte: U16) returns (ok: bool)
      requires Valid()
      modifies this`m, txRing, txRing.ring, txRing.ring.storage
      ensures Valid() && (m, ok) == Send(old(m), byte)
      ensures txRing.ring.storage == old(txRing.ring.storage)
    {
      hide Refines, Accounted, Mapped, Sound;
      var status := txRing.Push(byte);
      ok := status == PushOk;
      m := Send(m, byte).0;
    }

    /** `sch_uart_isr_rx`; `received` is what the hardware had to read, if anything. */
    method IsrRx(received: Option<U16>)
      requires Valid()
      modifies this, rxRing, rxRing.ring, rxRing.ring.storage
      ensures Valid() && m == UartModel.Do(old(m), RxIrq(received))
      ensures rxRing.ring.storage == old(rxRing.ring.storage)
    {
      hide Refines, Accounted, Mapped, Sound, Push;
      if received.Some? {
        var _ := rxRing.Push(received.value);
        rxHint := true;
      }
      m := UartModel.Do(m, RxIrq(received));
    }

    /** `sch_uart_isr_tx_ready`. */
    method IsrTxReady()
      requires Valid()
      modifies this
      ensures Valid() && m == UartModel.Do(old(m), TxReadyIrq)
    {
      hide Refines, Accounted, Mapped, Sound;
      txHint := true;
      m := UartModel.Do(m, TxReadyIrq);
    }

    /** The hint and queue check that opens a run. */
    method TakeHints() returns (work: bool)
      requires Valid()
      modifies this
      ensures Valid() && m == old(m).(rxHint := false, txHint := false) && work == HasWork(old(m))
    {
      hide Refines, Accounted, Mapped, Sound;
      var hadRxHint, hadTxHint := rxHint, txHint;
      rxHint := false;
      txHint := false;
      m := m.(rxHint := false, txHint := false);
      var noRx := rxRing.IsEmpty();
      var noTx := txRing.IsEmpty();
      work := hadRxHint || hadTxHint || !noRx || !noTx;
    }

    /** One turn of the send loop; `accept` is the hardware's answer to the write. */
    method SendOne(accept: bool) returns (more: bool)
      requires Valid()
      modifies this`m, txRing, txRing.ring, txRing.ring.storage
      ensures Valid() && txRing.ring.storage == old(txRing.ring.storage)
      ensures more == (old(m).tx.items != [] && accept)
      ensures m == if old(m).tx.items == [] then old(m)
                   else
                     var byte := old(m).tx.items[0];
                     var popped := old(m).(tx := Pop(old(m).tx).0);
                     if accept then popped.(written := popped.written + [byte])
                     else popped.(tx := Push(popped.tx, byte).0)
    {
      hide Refines, Accounted, Mapped, Sound;
      var byte := txRing.Pop();
      if byte.None? {
        return false;
      }
      m := m.(tx := Pop(m.tx).0);
      if !accept {
        var _ := txRing.Push(byte.value);
        m := m.(tx := Push(m.tx, byte.value).0);
        return false;
      }
      m := m.(written := m.written + [byte.value]);
      more := true;
    }

    /** The send loop of a run. */
    method SendLoop(accepts: nat -> bool)
      requires Valid()
      modifies this`m, txRing, txRing.ring, txRing.ring.storage
      ensures Valid() && m == DrainTx(old(m), accepts, 0, old(m).maxTx)
      ensures txRing.ring.storage == old(txRing.ring.storage)
    {
      hide Refines, Accounted, Mapped, Sound, DrainTx;
      var i := 0;
      while i < maxTxItemsPerRun
        invariant Valid() && i <= maxTxItemsPerRun
        invariant txRing.ring.storage == old(txRing.ring.storage)
        invariant m.maxTx == old(m).maxTx
        invariant DrainTx(old(m), accepts, 0, old(m).maxTx) == DrainTx(m, accepts, i, m.maxTx - i)
      {
        DrainTxUnfolds(m, accepts, i, m.maxTx - i);
        var more := SendOne(accepts(i));
        if !more {
          return;
        }
        i := i + 1;
      }
      DrainTxUnfolds(m, accepts, i, 0);
    }

    /** The receive loop of a run; bytes are popped and left to an extension. */
    method ReceiveLoop()
      requires Valid()
      modifies this`m, rxRing, rxRing.ring
      ensures Valid() && m == DrainRx(old(m), old(m).maxRx)
      ensures rxRing.ring.storage == old(rxRing.ring.storage)
    {
      hide Refines, Accounted, Mapped, Sound, DrainRx;
      var i := 0;
      while i < maxRxItemsPerRun
        invariant Valid() && i <= maxRxItemsPerRun
        invariant rxRing.ring.storage == old(rxRing.ring.storage)
        invariant m.maxRx == old(m).maxRx
        invariant DrainRx(old(m), old(m).maxRx) == DrainRx(m, m.maxRx - i)
      {
        DrainRxUnfolds(m, m.maxRx - i);
        var byte := rxRing.Pop();
        if byte.None? {
          return;
        }
        m := m.(rx := Pop(m.rx).0);
        i := i + 1;
      }
      DrainRxUnfolds(m, 0);
    }

    /** `sch_uart_service_run`, with the hardware's answers to its writes. */
    method Run(accepts: nat -> bool)
      requires Valid()
      modifies this, rxRing, rxRing.ring, txRing, txRing.ring, txRing.ring.storage
      ensures Valid() && m == UartModel.Do(old(m), RunOnce(accepts))
      ensures rxRing.ring.storage == old(rxRing.ring.storage)
      ensures txRing.ring.storage == old(txRing.ring.storage)
    {
      hide Refines, Accounted, Mapped, Sound, DrainTx, DrainRx;
      var work := TakeHints();
      if !work {
        return;
      }
      ghost var start := m;
      SendLoop(accepts);
      SendKeepsBudgets(start, accepts);
      ReceiveLoop();
    }
  }

  lemma SendKeepsBudgets(m: Uart, accepts: nat -> bool)
    requires m.Ok()
    ensures DrainTx(m, accepts, 0, m.maxTx).maxRx == m.maxRx
  {
    DrainTxSends(m, accepts, 0, m.maxTx);
  }

  /** One turn of the send loop. */
  lemma DrainTxUnfolds(m: Uart, accepts: nat -> bool, k: nat, n: nat)
    requires m.Ok()
    ensures DrainTx(m, accepts, k, n) ==
            if n == 0 || m.tx.items == [] then m
            else
              var popped := m.(tx := Pop(m.tx).0);
              if accepts(k)
              then DrainTx(popped.(written := popped.written + [m.tx.items[0]]), accepts, k + 1, n - 1)
              else popped.(tx := Push(popped.tx, m.tx.items[0]).0)
  {
  }

  /** One turn of the receive loop. */
  lemma DrainRxUnfolds(m: Uart, n: nat)
    requires m.Ok()
    ensures DrainRx(m, n) ==
            if n == 0 || m.rx.items == [] then m else DrainRx(m.(rx := Pop(m.rx).0), n - 1)
  {
  }
}
