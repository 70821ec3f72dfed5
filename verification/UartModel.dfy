/**
 * The UART service: received bytes are captured by interrupt, bytes to send are queued and
 * written out within a budget; a byte the hardware refuses goes back to the queue.
 */
module UartModel {
  import opened Arithmetic
  import opened BoundedQueue
  import opened Codec

  datatype Uart = Uart(
    rx: Queue<U16>, tx: Queue<U16>, rxHint: bool, txHint: bool, maxRx: nat, maxTx: nat,
    accepted: seq<U16>, written: seq<U16>)
  {
    predicate Ok() {
      rx.Ok() && tx.Ok() && tx.overflow.DropNewest?
    }
  }

  function Initial(rxCapacity: nat, txCapacity: nat, maxRx: nat, maxTx: nat): Uart {
    Uart(EmptyQueue(rxCapacity, DropOldest), EmptyQueue(txCapacity, DropNewest), false, false, maxRx, maxTx, [], [])
  }

  /** One step: a run is given what the hardware answers to its k-th write. */
  datatype Op =
    | QueueTx(byte: U16)
    | RxIrq(received: Option<U16>)
    | TxReadyIrq
    | RunOnce(accepts: nat -> bool)

  /** The answers of a hardware that never refuses. */
  function Always(k: nat): bool {
    true
  }

  function Send(m: Uart, byte: U16): (out: (Uart, bool))
    requires m.Ok()
    ensures out.0.Ok()
  {
    var (q, status) := Push(m.tx, byte);
    (m.(tx := q, accepted := if status.PushOk? then m.accepted + [byte] else m.accepted), status.PushOk?)
  }

  /** The send loop from its k-th iteration on, at most `n` more. */
  function DrainTx(m: Uart, accepts: nat -> bool, k: nat, n: nat): (m': Uart)
    requires m.Ok()
    ensures m'.Ok()
    decreases n
  {
    if n == 0 || m.tx.items == [] then m
    else
      var byte := m.tx.items[0];
      var popped := m.(tx := Pop(m.tx).0);
      if accepts(k) then DrainTx(popped.(written := popped.written + [byte]), accepts, k + 1, n - 1)
      else popped.(tx := Push(popped.tx, byte).0)
  }

  function DrainRx(m: Uart, n: nat): (m': Uart)
    requires m.Ok()
    ensures m'.Ok()
    decreases n
  {
    if n == 0 || m.rx.items == [] then m else DrainRx(m.(rx := Pop(m.rx).0), n - 1)
  }

  predicate HasWork(m: Uart) {
    m.rxHint || m.txHint || m.rx.items != [] || m.tx.items != []
  }

  function Run(m: Uart, accepts: nat -> bool): (m': Uart)
    requires m.Ok()
    ensures m'.Ok()
  {
    var m1 := m.(rxHint := false, txHint := false);
    if !HasWork(m) then m1 else DrainRx(DrainTx(m1, accepts, 0, m.maxTx), m.maxRx)
  }

  function Do(m: Uart, op: Op): (m': Uart)
    requires m.Ok()
    ensures m'.Ok()
  {
    match op
    case QueueTx(byte) => Send(m, byte).0
    case RxIrq(received) =>
      if received.Some? then m.(rx := Push(m.rx, received.value).0, rxHint := true) else m
    case TxReadyIrq => m.(txHint := true)
    case RunOnce(accepts) => Run(m, accepts)
  }

  function DoAll(m: Uart, ops: seq<Op>): (m': Uart)
    requires m.Ok()
    ensures m'.Ok()
    decreases |ops|
  {
    if ops == [] then m else DoAll(Do(m, ops[0]), ops[1..])
  }

  // ------------------------------------------------------------------
  // One run of the send loop
  // ------------------------------------------------------------------

  /** How many bytes are written before the budget ends, the queue empties, or a write is refused. */
  function Written(accepts: nat -> bool, k: nat, n: nat): (w: nat)
    ensures w <= n
    ensures forall j :: k <= j < k + w ==> accepts(j)
    ensures w < n ==> !accepts(k + w)
    decreases n
  {
    if n == 0 || !accepts(k) then 0 else 1 + Written(accepts, k + 1, n - 1)
  }

  /** `q` with its first element moved to the back. */
  function Rotated<T>(q: seq<T>): seq<T> {
    if q == [] then q else q[1..] + [q[0]]
  }

  /** What `m'` is after writing `w` bytes of `m`, and putting the next one back if it was refused. */
  ghost predicate Sent(m: Uart, w: nat, refused: bool, m': Uart) {
    && w <= |m.tx.items|
    && m'.written == m.written + m.tx.items[..w]
    && m'.tx == m.tx.(items := if refused then Rotated(m.tx.items[w..]) else m.tx.items[w..])
    && m'.accepted == m.accepted && m'.rx == m.rx
    && m'.rxHint == m.rxHint && m'.txHint == m.txHint && m'.maxRx == m.maxRx && m'.maxTx == m.maxTx
  }

  /** One byte written, then `w` more. */
  lemma SentOneMore(m: Uart, w: nat, refused: bool, m': Uart)
    requires m.Ok() && m.tx.items != []
    requires Sent(m.(tx := Pop(m.tx).0, written := m.written + [m.tx.items[0]]), w, refused, m')
    ensures Sent(m, w + 1, refused, m')
  {
    hide Rotated;
    var byte, rest := m.tx.items[0], m.tx.items[1..];
    TakeDropShift(m.tx.items, w);
    assert m.written + ([byte] + rest[..w]) == m.written + [byte] + rest[..w];
  }

  lemma TakeDropShift<T>(q: seq<T>, w: nat)
    requires w < |q|
    ensures q[..w + 1] == [q[0]] + q[1..][..w]
    ensures q[w + 1..] == q[1..][w..]
  {
  }

  lemma SentNone(m: Uart)
    requires m.Ok()
    ensures Sent(m, 0, false, m)
    ensures m.tx.items != [] ==>
              var popped := m.(tx := Pop(m.tx).0);
              Sent(m, 0, true, popped.(tx := Push(popped.tx, m.tx.items[0]).0))
  {
    assert m.tx.items[0..] == m.tx.items;
    assert m.written + m.tx.items[..0] == m.written;
  }

  /**
   * The send loop writes the oldest bytes up to its budget; after a refusal the refused byte,
   * and no other, goes to the back of the queue, and nothing is dropped.
   */
  lemma {:induction false} DrainTxSends(m: Uart, accepts: nat -> bool, k: nat, n: nat)
    requires m.Ok()
    ensures var want := Min(n, |m.tx.items|);
            var w := Written(accepts, k, want);
            Sent(m, w, w < want, DrainTx(m, accepts, k, n))
    decreases n
  {
    hide Sent, DrainTx, Written;
    if n == 0 || m.tx.items == [] || !accepts(k) {
      DrainTxStops(m, accepts, k, n);
    } else {
      var next := m.(tx := Pop(m.tx).0, written := m.written + [m.tx.items[0]]);
      var want := Min(n - 1, |next.tx.items|);
      var w := Written(accepts, k + 1, want);
      DrainTxSends(next, accepts, k + 1, n - 1);
      SentOneMore(m, w, w < want, DrainTx(next, accepts, k + 1, n - 1));
      DrainTxAccepted(m, accepts, k, n);
      WrittenAccepted(accepts, k, want + 1);
    }
  }

  lemma DrainTxStops(m: Uart, accepts: nat -> bool, k: nat, n: nat)
    requires m.Ok() && (n == 0 || m.tx.items == [] || !accepts(k))
    ensures Written(accepts, k, Min(n, |m.tx.items|)) == 0
    ensures Sent(m, 0, 0 < Min(n, |m.tx.items|), DrainTx(m, accepts, k, n))
  {
    hide Sent, Rotated;
    SentNone(m);
  }

  lemma DrainTxAccepted(m: Uart, accepts: nat -> bool, k: nat, n: nat)
    requires m.Ok() && n > 0 && m.tx.items != [] && accepts(k)
    ensures DrainTx(m, accepts, k, n) ==
            DrainTx(m.(tx := Pop(m.tx).0, written := m.written + [m.tx.items[0]]), accepts, k + 1, n - 1)
  {
  }

  lemma WrittenAccepted(accepts: nat -> bool, k: nat, n: nat)
    requires n > 0 && accepts(k)
    ensures Written(accepts, k, n) == 1 + Written(accepts, k + 1, n - 1)
  {
  }

  lemma {:induction false} DrainRxOnly(m: Uart, n: nat)
    requires m.Ok()
    ensures DrainRx(m, n) == m.(rx := m.rx.(items := m.rx.items[Min(n, |m.rx.items|)..]))
    decreases n
  {
    if n > 0 && m.rx.items != [] {
      DrainRxOnly(m.(rx := Pop(m.rx).0), n - 1);
    }
  }

  /** A run as a whole: what it sends, what it takes from the receive ring, and both hints cleared. */
  lemma RunEffect(m: Uart, accepts: nat -> bool)
    requires m.Ok()
    ensures var want := Min(m.maxTx, |m.tx.items|);
            var w := Written(accepts, 0, want);
            var m1 := m.(rxHint := false, txHint := false,
                         rx := m.rx.(items := m.rx.items[Min(m.maxRx, |m.rx.items|)..]));
            Sent(m1, w, w < want, Run(m, accepts))
  {
    hide DrainTx, DrainRx, Written;
    var m1 := m.(rxHint := false, txHint := false);
    DrainTxSends(m1, accepts, 0, m.maxTx);
    DrainRxOnly(DrainTx(m1, accepts, 0, m.maxTx), m.maxRx);
  }

  /**
   * Wake hints are advisory: two uninterrupted runs that differ only in them, given the same
   * answers by the hardware, end in the same state, with the same bytes written.
   */
  lemma HintsAreAdvisory(m: Uart, rxHint: bool, txHint: bool, accepts: nat -> bool)
    requires m.Ok()
    ensures Run(m, accepts) == Run(m.(rxHint := rxHint, txHint := txHint), accepts)
    ensures !Run(m, accepts).rxHint && !Run(m, accepts).txHint
  {
    hide Run, Written;
    RunEffect(m, accepts);
    RunEffect(m.(rxHint := rxHint, txHint := txHint), accepts);
  }

  // ------------------------------------------------------------------
  // Conservation
  // ------------------------------------------------------------------

  /** Bytes accepted for sending are, counted with multiplicity, those written and those still queued. */
  ghost predicate Conserved(m: Uart) {
    && m.Ok()
    && multiset(m.accepted) == multiset(m.written) + multiset(m.tx.items)
  }

  lemma RotatedSame<T>(q: seq<T>)
    ensures multiset(Rotated(q)) == multiset(q)
    ensures |Rotated(q)| == |q|
  {
    if q != [] {
      assert q == [q[0]] + q[1..];
    }
  }

  lemma SplitMultiset<T>(q: seq<T>, w: nat)
    requires w <= |q|
    ensures multiset(q) == multiset(q[..w]) + multiset(q[w..])
  {
    assert q == q[..w] + q[w..];
  }

  lemma RunConserves(m: Uart, accepts: nat -> bool)
    requires Conserved(m)
    ensures Conserved(Run(m, accepts))
  {
    hide Run, Written;
    var w := Written(accepts, 0, Min(m.maxTx, |m.tx.items|));
    RunEffect(m, accepts);
    SplitMultiset(m.tx.items, w);
    RotatedSame(m.tx.items[w..]);
  }

  lemma DoConserves(m: Uart, op: Op)
    requires Conserved(m)
    ensures Conserved(Do(m, op))
  {
    hide Run;
    match op
    case QueueTx(_) =>
    case RxIrq(_) =>
    case TxReadyIrq =>
    case RunOnce(accepts) => RunConserves(m, accepts);
  }

  /** Over every history and every behaviour of the hardware, no accepted byte is lost or duplicated. */
  lemma {:induction false} EveryHistoryConserves(m: Uart, ops: seq<Op>)
    requires Conserved(m)
    ensures Conserved(DoAll(m, ops))
    decreases |ops|
  {
    if ops != [] {
      DoConserves(m, ops[0]);
      EveryHistoryConserves(Do(m, ops[0]), ops[1..]);
    }
  }

  // ------------------------------------------------------------------
  // Order
  // ------------------------------------------------------------------

  ghost predicate InOrder(m: Uart) {
    m.Ok() && m.written + m.tx.items == m.accepted
  }

  ghost predicate NeverRefuses(op: Op) {
    op.RunOnce? ==> forall k :: op.accepts(k)
  }

  /** Over histories without refusals, bytes leave in the order in which they were accepted. */
  lemma {:induction false} NoRefusalKeepsOrder(m: Uart, ops: seq<Op>)
    requires InOrder(m) && forall k :: 0 <= k < |ops| ==> NeverRefuses(ops[k])
    ensures InOrder(DoAll(m, ops))
    decreases |ops|
  {
    if ops != [] {
      hide Do, NeverRefuses;
      assert InOrder(Do(m, ops[0])) by {
        assert NeverRefuses(ops[0]);
        StepKeepsOrder(m, ops[0]);
      }
      NoRefusalKeepsOrder(Do(m, ops[0]), ops[1..]);
    }
  }

  lemma StepKeepsOrder(m: Uart, op: Op)
    requires InOrder(m) && NeverRefuses(op)
    ensures InOrder(Do(m, op))
  {
    hide Run;
    match op
    case QueueTx(byte) =>
      assert m.written + (m.tx.items + [byte]) == m.written + m.tx.items + [byte];
    case RxIrq(_) =>
    case TxReadyIrq =>
    case RunOnce(accepts) =>
      RunEffect(m, accepts);
      RunOrderIff(m, accepts);
      var w := Written(accepts, 0, Min(m.maxTx, |m.tx.items|));
      assert accepts(0 + w);
  }

  ghost predicate AllEqual<T(!new)>(q: seq<T>) {
    forall i :: 0 <= i < |q| ==> q[i] == q[0]
  }

  lemma RotationFixesIff<T(!new)>(q: seq<T>)
    ensures Rotated(q) == q <==> AllEqual(q)
  {
    if Rotated(q) == q {
      forall i | 0 <= i < |q|
        ensures q[i] == q[0]
      {
        RotationFixed(q, i);
      }
    }
  }

  lemma {:induction false} RotationFixed<T(!new)>(q: seq<T>, i: nat)
    requires i < |q| && Rotated(q) == q
    ensures q[i] == q[0]
  {
    if i > 0 {
      RotationFixed(q, i - 1);
      assert Rotated(q)[i - 1] == q[i];
    }
  }

  /**
   * When a run keeps the order of the bytes: exactly when no write was refused, or the
   * refused byte equals every byte queued behind it, for then moving it to the back shows
   * nothing. A refusal in front of a different byte always reorders.
   */
  lemma RunOrderIff(m: Uart, accepts: nat -> bool)
    requires m.Ok()
    ensures var want := Min(m.maxTx, |m.tx.items|);
            var w := Written(accepts, 0, want);
            var m' := Run(m, accepts);
            m'.written + m'.tx.items == m.written + m.tx.items <==> w == want || AllEqual(m.tx.items[w..])
  {
    hide Run, Written;
    var want := Min(m.maxTx, |m.tx.items|);
    var w := Written(accepts, 0, want);
    var q := m.tx.items;
    var m' := Run(m, accepts);
    RunEffect(m, accepts);
    RotationFixesIff(q[w..]);
    assert q == q[..w] + q[w..];
    var front := m.written + q[..w];
    assert m.written + q == front + q[w..];
    if m'.tx.items != q[w..] {
      RotatedSame(q[w..]);
      assert (front + m'.tx.items)[|front|..] == m'.tx.items;
      assert (front + q[w..])[|front|..] == q[w..];
    }
  }

  /** Two different bytes queued and the first write refused: they leave in the opposite order. */
  lemma RefusalReorders()
    ensures var m := Do(Do(Initial(1, 2, 1, 2), QueueTx(1)), QueueTx(2));
            var after := Run(Run(m, k => false), Always);
            after.accepted == [1, 2] && after.written == [2, 1]
  {
    var m := Do(Do(Initial(1, 2, 1, 2), QueueTx(1)), QueueTx(2));
    assert m.tx.items == [1, 2] && m.accepted == [1, 2] && m.written == [];
    hide Do, Run;
    RefusedTwo(m);
    AcceptedTwo(Run(m, k => false));
  }

  lemma RefusedTwo(m: Uart)
    requires m.Ok() && m.maxTx == 2 && m.tx.items == [1, 2] && m.written == []
    ensures var m' := Run(m, k => false);
            m'.maxTx == 2 && m'.tx.items == [2, 1] && m'.written == [] && m'.accepted == m.accepted
  {
    hide Run;
    RunEffect(m, k => false);
  }

  lemma AcceptedTwo(m: Uart)
    requires m.Ok() && m.maxTx == 2 && m.tx.items == [2, 1] && m.written == []
    ensures Run(m, Always).written == [2, 1] && Run(m, Always).accepted == m.accepted
  {
    hide Run;
    RunEffect(m, Always);
  }

  lemma InitialConserved(rxCapacity: nat, txCapacity: nat, maxRx: nat, maxTx: nat)
    requires rxCapacity > 0 && txCapacity > 0
    ensures Conserved(Initial(rxCapacity, txCapacity, maxRx, maxTx))
    ensures InOrder(Initial(rxCapacity, txCapacity, maxRx, maxTx))
  {
  }
}
