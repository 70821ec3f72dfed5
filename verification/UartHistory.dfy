/**
 * The UART service from initialisation on: the bytes received against those taken, queued and
 * dropped, the bytes offered for sending against those accepted and refused, and the hints.
 */
module UartHistory {
  import opened Arithmetic
  import opened Codec
  import opened UartModel

  // ------------------------------------------------------------------
  // Read off a history
  // ------------------------------------------------------------------

  function ReceivedBy(op: Op): seq<U16> {
    if op.RxIrq? && op.received.Some? then [op.received.value] else []
  }

  /** The bytes that receive interrupts read. */
  function Received(ops: seq<Op>): seq<U16> {
    if ops == [] then [] else ReceivedBy(ops[0]) + Received(ops[1..])
  }

  function OfferedBy(op: Op): seq<U16> {
    if op.QueueTx? then [op.byte] else []
  }

  /** The bytes offered for sending. */
  function Offered(ops: seq<Op>): seq<U16> {
    if ops == [] then [] else OfferedBy(ops[0]) + Offered(ops[1..])
  }

  /** The bytes taken from the receive ring by the runs of a history: each time the oldest, up to the budget. */
  function BytesTaken(m: Uart, ops: seq<Op>): seq<U16>
    requires m.Ok()
    decreases |ops|
  {
    if ops == [] then []
    else TakenBy(m, ops[0]) + BytesTaken(Do(m, ops[0]), ops[1..])
  }

  function TakenBy(m: Uart, op: Op): seq<U16> {
    if op.RunOnce? then m.rx.items[..Min(m.maxRx, |m.rx.items|)] else []
  }

  function RxHintAfter(hint: bool, op: Op): bool {
    if op.RunOnce? then false else hint || (op.RxIrq? && op.received.Some?)
  }

  /** Whether a byte was received since the last run, or, without a run, `hint` at first. */
  function RxHinted(hint: bool, ops: seq<Op>): bool
    decreases |ops|
  {
    if ops == [] then hint else RxHinted(RxHintAfter(hint, ops[0]), ops[1..])
  }

  function TxHintAfter(hint: bool, op: Op): bool {
    if op.RunOnce? then false else hint || op.TxReadyIrq?
  }

  /** Whether the transmitter became ready since the last run, or, without a run, `hint` at first. */
  function TxHinted(hint: bool, ops: seq<Op>): bool
    decreases |ops|
  {
    if ops == [] then hint else TxHinted(TxHintAfter(hint, ops[0]), ops[1..])
  }

  // ------------------------------------------------------------------
  // Accounting
  // ------------------------------------------------------------------

  /** Offered bytes are accepted or counted as dropped; those accepted are in order. */
  ghost predicate AllOffered(m: Uart, offered: seq<U16>) {
    && |offered| == |m.accepted| + m.tx.drops
    && BoundedQueue.Subsequence(m.accepted, offered)
  }

  ghost predicate Accounts(m: Uart, received: seq<U16>, taken: seq<U16>, offered: seq<U16>) {
    m.Ok() && BoundedQueue.NewestKept(m.rx, received, taken) && AllOffered(m, offered)
  }

  ghost predicate SameConfiguration(m: Uart, m': Uart) {
    && m'.rx.capacity == m.rx.capacity && m'.tx.capacity == m.tx.capacity
    && m'.maxRx == m.maxRx && m'.maxTx == m.maxTx
  }

  /** A byte offered for sending is accepted, behind all others, exactly when the send ring has room. */
  lemma SendEffect(m: Uart, byte: U16)
    requires m.Ok()
    ensures var (m', ok) := Send(m, byte);
            && ok == (|m.tx.items| < m.tx.capacity)
            && m' == if ok then m.(tx := m.tx.(items := m.tx.items + [byte]), accepted := m.accepted + [byte])
                     else m.(tx := m.tx.(drops := m.tx.drops + 1))
  {
  }

  lemma OfferAccounts(m: Uart, offered: seq<U16>, byte: U16)
    requires m.Ok() && AllOffered(m, offered)
    ensures AllOffered(Do(m, QueueTx(byte)), offered + [byte])
  {
    hide BoundedQueue.Subsequence;
    SendEffect(m, byte);
    BoundedQueue.SubsequenceAppend(m.accepted, offered, byte);
  }

  lemma RunAccounts(m: Uart, accepts: nat -> bool, received: seq<U16>, taken: seq<U16>, offered: seq<U16>)
    requires Accounts(m, received, taken, offered)
    ensures Accounts(Run(m, accepts), received, taken + m.rx.items[..Min(m.maxRx, |m.rx.items|)], offered)
    ensures SameConfiguration(m, Run(m, accepts)) && !Run(m, accepts).rxHint && !Run(m, accepts).txHint
  {
    hide Run, BoundedQueue.NewestKept, BoundedQueue.Subsequence, Written, Rotated;
    RunEffect(m, accepts);
    BoundedQueue.NewestKeptTake(m.rx, received, taken, Min(m.maxRx, |m.rx.items|));
  }

  lemma StepAccounts(m: Uart, op: Op, received: seq<U16>, taken: seq<U16>, offered: seq<U16>)
    requires Accounts(m, received, taken, offered)
    ensures var m' := Do(m, op);
            && Accounts(m', received + ReceivedBy(op), taken + TakenBy(m, op), offered + OfferedBy(op))
            && SameConfiguration(m, m')
            && m'.rxHint == RxHintAfter(m.rxHint, op) && m'.txHint == TxHintAfter(m.txHint, op)
  {
    hide BoundedQueue.NewestKept, BoundedQueue.Subsequence, BoundedQueue.Push, Run;
    assert received + [] == received && taken + [] == taken && offered + [] == offered;
    match op {
      case QueueTx(byte) =>
        OfferAccounts(m, offered, byte);
        SendEffect(m, byte);
      case RxIrq(byte) =>
        if byte.Some? {
          BoundedQueue.NewestKeptPush(m.rx, received, taken, byte.value);
        }
      case TxReadyIrq =>
      case RunOnce(accepts) =>
        RunAccounts(m, accepts, received, taken, offered);
    }
  }

  lemma {:induction false} HistoryAccounts(m: Uart, ops: seq<Op>, received: seq<U16>, taken: seq<U16>,
                                           offered: seq<U16>)
    requires Accounts(m, received, taken, offered)
    ensures var m' := DoAll(m, ops);
            && Accounts(m', received + Received(ops), taken + BytesTaken(m, ops), offered + Offered(ops))
            && SameConfiguration(m, m')
            && m'.rxHint == RxHinted(m.rxHint, ops) && m'.txHint == TxHinted(m.txHint, ops)
    decreases |ops|
  {
    hide Do, BoundedQueue.NewestKept, AllOffered, ReceivedBy, TakenBy, OfferedBy, RxHintAfter, TxHintAfter;
    if ops == [] {
      assert received + [] == received && taken + [] == taken && offered + [] == offered;
    } else {
      var op, rest := ops[0], ops[1..];
      StepAccounts(m, op, received, taken, offered);
      HistoryAccounts(Do(m, op), rest, received + ReceivedBy(op), taken + TakenBy(m, op), offered + OfferedBy(op));
      assert received + ReceivedBy(op) + Received(rest) == received + Received(ops);
      assert taken + TakenBy(m, op) + BytesTaken(Do(m, op), rest) == taken + BytesTaken(m, ops);
      assert offered + OfferedBy(op) + Offered(rest) == offered + Offered(ops);
    }
  }

  /**
   * Over every history from initialisation and every behaviour of the hardware: each byte
   * received was taken by a run, is queued, or was dropped and counted, the queued ones being
   * the newest, all in order; each byte offered for sending was accepted, in order, or counted
   * as dropped; and each hint tells of its interrupt since the last run.
   */
  lemma EveryHistoryAccounts(rxCapacity: nat, txCapacity: nat, maxRx: nat, maxTx: nat, ops: seq<Op>)
    requires rxCapacity > 0 && txCapacity > 0
    ensures var m0 := Initial(rxCapacity, txCapacity, maxRx, maxTx);
            var m := DoAll(m0, ops);
            && BoundedQueue.NewestKept(m.rx, Received(ops), BytesTaken(m0, ops))
            && AllOffered(m, Offered(ops))
            && m.rxHint == RxHinted(false, ops) && m.txHint == TxHinted(false, ops)
            && m.rx.capacity == rxCapacity && m.tx.capacity == txCapacity && m.maxRx == maxRx && m.maxTx == maxTx
  {
    hide DoAll, Received, BytesTaken, Offered, BoundedQueue.NewestKept;
    var m0 := Initial(rxCapacity, txCapacity, maxRx, maxTx);
    BoundedQueue.NewestKeptStart<U16>(rxCapacity);
    assert BoundedQueue.Embeds<U16>([], [], []);
    HistoryAccounts(m0, ops, [], [], []);
    assert [] + Received(ops) == Received(ops) && [] + BytesTaken(m0, ops) == BytesTaken(m0, ops);
    assert [] + Offered(ops) == Offered(ops);
  }
}
