/**
 * The FSI service as a machine of atomic steps: interrupt handlers capture records into a
 * bounded queue, the task drains it within a budget and dispatches by tag.
 */
module FsiModel {
  import opened BoundedQueue
  import opened Codec

  const TAG_RX: U16 := 1
  const TAG_TX: U16 := 2
  const TAG_ERROR: U16 := 3

  const BIT_RX: bv32 := 1
  const BIT_TX: bv32 := 2
  const BIT_ERROR: bv32 := 4

  /** An interrupt, with what its handler is given. */
  datatype Irq =
    | RxIrq(channel: U16, frameIndex: U16, status: U16)
    | TxIrq(channel: U16, frameIndex: U16, status: U16)
    | ErrorIrq(channel: U16, status: U16)

  function Captured(irq: Irq): Record {
    match irq
    case RxIrq(c, f, st) => Record(c, f, TAG_RX, st)
    case TxIrq(c, f, st) => Record(c, f, TAG_TX, st)
    case ErrorIrq(c, st) => Record(c, 0, TAG_ERROR, st)
  }

  function EventBit(irq: Irq): bv32 {
    match irq
    case RxIrq(_, _, _) => BIT_RX
    case TxIrq(_, _, _) => BIT_TX
    case ErrorIrq(_, _) => BIT_ERROR
  }

  /** Which optional handlers the HAL provides. */
  datatype Hooks = Hooks(rx: bool, tx: bool, error: bool)

  /** Where the task is: outside a run, about to check for work, about to pop, or handling a record. */
  datatype Pc = Idle | Check(hadBits: bool) | Fetch(i: nat) | Handle(i: nat, record: Record)

  datatype Fsi = Fsi(
    queue: Queue<Record>, bits: bv32, budget: nat, hooks: Hooks, pc: Pc,
    captured: seq<Record>, consumed: seq<Record>,
    rxCalls: seq<Record>, txCalls: seq<Record>, errorCalls: seq<Record>)

  function Initial(capacity: nat, overflow: Overflow, budget: nat, hooks: Hooks): Fsi {
    Fsi(EmptyQueue(capacity, overflow), 0, budget, hooks, Idle, [], [], [], [], [])
  }

  datatype Step = Task | Capture(irq: Irq) | Flag(irq: Irq)

  /** Hand `r` to the handler of its tag, if there is one. */
  function Deliver(m: Fsi, r: Record): Fsi {
    var m1 := m.(consumed := m.consumed + [r]);
    if r.irqTag == TAG_RX then
      if m.hooks.rx then m1.(rxCalls := m1.rxCalls + [r]) else m1
    else if r.irqTag == TAG_TX then
      if m.hooks.tx then m1.(txCalls := m1.txCalls + [r]) else m1
    else if r.irqTag == TAG_ERROR then
      if m.hooks.error then m1.(errorCalls := m1.errorCalls + [r]) else m1
    else m1
  }

  function TaskStep(m: Fsi): (m': Fsi)
    requires m.queue.Ok()
    ensures m'.queue.Ok()
  {
    match m.pc
    case Idle => m.(bits := 0, pc := Check(m.bits != 0))
    case Check(had) => m.(pc := if !had && m.queue.items == [] then Idle else Fetch(0))
    case Fetch(i) =>
      if i == m.budget || m.queue.items == [] then m.(pc := Idle)
      else m.(queue := Pop(m.queue).0, pc := Handle(i, m.queue.items[0]))
    case Handle(i, r) => Deliver(m, r).(pc := Fetch(i + 1))
  }

  function Do(m: Fsi, step: Step): (m': Fsi)
    requires m.queue.Ok()
    ensures m'.queue.Ok()
  {
    match step
    case Task => TaskStep(m)
    case Capture(irq) =>
      m.(queue := Push(m.queue, Captured(irq)).0, captured := m.captured + [Captured(irq)])
    case Flag(irq) => m.(bits := m.bits | EventBit(irq))
  }

  /** Any interleaving of task and interrupt steps. */
  function Exec(m: Fsi, steps: seq<Step>): (m': Fsi)
    requires m.queue.Ok()
    ensures m'.queue.Ok()
    decreases |steps|
  {
    if steps == [] then m else Exec(Do(m, steps[0]), steps[1..])
  }

  // ------------------------------------------------------------------
  // What every interleaving keeps
  // ------------------------------------------------------------------

  function InFlight(m: Fsi): (r: seq<Record>)
    ensures |r| <= 1
  {
    if m.pc.Handle? then [m.pc.record] else []
  }

  function ByTag(records: seq<Record>, tag: U16): seq<Record> {
    if records == [] then []
    else
      var last := |records| - 1;
      ByTag(records[..last], tag) + (if records[last].irqTag == tag then [records[last]] else [])
  }

  function Called(hook: bool, records: seq<Record>, tag: U16): seq<Record> {
    if hook then ByTag(records, tag) else []
  }

  ghost predicate Conserved(m: Fsi) {
    && m.queue.Ok()
    && |m.captured| == |m.consumed| + |InFlight(m)| + |m.queue.items| + m.queue.drops
    && Subsequence(m.consumed + InFlight(m) + m.queue.items, m.captured)
  }

  ghost predicate CallsMatch(m: Fsi) {
    && m.rxCalls == Called(m.hooks.rx, m.consumed, TAG_RX)
    && m.txCalls == Called(m.hooks.tx, m.consumed, TAG_TX)
    && m.errorCalls == Called(m.hooks.error, m.consumed, TAG_ERROR)
  }

  /** A run never goes past its budget. */
  ghost predicate WithinBudget(m: Fsi) {
    match m.pc
    case Idle => true
    case Check(_) => true
    case Fetch(i) => i <= m.budget
    case Handle(i, _) => i < m.budget
  }

  ghost predicate Inv(m: Fsi) {
    Conserved(m) && CallsMatch(m) && WithinBudget(m)
  }

  lemma ByTagAppend(records: seq<Record>, r: Record, tag: U16)
    ensures ByTag(records + [r], tag) == ByTag(records, tag) + (if r.irqTag == tag then [r] else [])
  {
    assert (records + [r])[..|records|] == records;
  }

  lemma CaptureConserves(m: Fsi, irq: Irq)
    requires Conserved(m)
    ensures Conserved(Do(m, Capture(irq)))
  {
    hide Subsequence, Captured;
    var m' := Do(m, Capture(irq));
    var r := Captured(irq);
    var front := m.consumed + InFlight(m);
    SubsequenceAppend(front + m.queue.items, m.captured, r);
    assert front + m.queue.items + [r] == front + (m.queue.items + [r]);
    if Push(m.queue, r).1.DroppedOldest? {
      SubsequenceDelete(front + (m.queue.items + [r]), |front|, m'.captured);
      assert (front + (m.queue.items + [r]))[..|front|] + (front + (m.queue.items + [r]))[|front| + 1..]
             == front + m'.queue.items;
    }
  }

  /** The call log `calls` after `r` was delivered to the handler of `tag`, if the HAL has it. */
  function CallsAfter(calls: seq<Record>, hook: bool, tag: U16, r: Record): seq<Record> {
    if hook && r.irqTag == tag then calls + [r] else calls
  }

  /**
   * Delivery consumes the record and calls exactly the handler of its tag, with this record,
   * if the HAL has that handler; every other call log, and the rest of the service, stays.
   */
  lemma DeliverEffect(m: Fsi, r: Record)
    ensures Deliver(m, r) == m.(consumed := m.consumed + [r],
                                rxCalls := CallsAfter(m.rxCalls, m.hooks.rx, TAG_RX, r),
                                txCalls := CallsAfter(m.txCalls, m.hooks.tx, TAG_TX, r),
                                errorCalls := CallsAfter(m.errorCalls, m.hooks.error, TAG_ERROR, r))
    ensures CallsMatch(m) ==> CallsMatch(Deliver(m, r))
  {
    ByTagAppend(m.consumed, r, TAG_RX);
    ByTagAppend(m.consumed, r, TAG_TX);
    ByTagAppend(m.consumed, r, TAG_ERROR);
    hide ByTag;
  }

  lemma TaskConserves(m: Fsi)
    requires Conserved(m)
    ensures Conserved(TaskStep(m))
  {
    hide Subsequence, Deliver;
    var m' := TaskStep(m);
    if m.pc.Handle? {
      DeliverEffect(m, m.pc.record);
    }
    assert m'.consumed + InFlight(m') + m'.queue.items == m.consumed + InFlight(m) + m.queue.items;
  }

  lemma TaskCallsMatch(m: Fsi)
    requires m.queue.Ok() && CallsMatch(m)
    ensures CallsMatch(TaskStep(m))
  {
    hide Deliver, ByTag;
    if m.pc.Handle? {
      DeliverEffect(m, m.pc.record);
    }
  }

  lemma StepWithinBudget(m: Fsi)
    requires m.queue.Ok() && WithinBudget(m)
    ensures WithinBudget(TaskStep(m))
  {
    hide Deliver;
    if m.pc.Handle? {
      DeliverEffect(m, m.pc.record);
    }
  }

  lemma StepKeepsInv(m: Fsi, step: Step)
    requires Inv(m)
    ensures Inv(Do(m, step))
  {
    hide Subsequence, Deliver, ByTag;
    match step
    case Task =>
      TaskConserves(m);
      TaskCallsMatch(m);
      StepWithinBudget(m);
    case Capture(irq) =>
      CaptureConserves(m, irq);
    case Flag(irq) =>
  }

  /**
   * At every point of every interleaving of interrupts with the task: what was captured is
   * what was consumed, is in flight (at most one record), is queued, or was counted as
   * dropped; the first three follow each other in the order of capture; each handler present
   * was called exactly with the consumed records of its tag, in order, once each; and no run
   * exceeds its budget.
   */
  lemma {:induction false} EveryInterleavingConserves(m: Fsi, steps: seq<Step>)
    requires Inv(m)
    ensures Inv(Exec(m, steps))
    decreases |steps|
  {
    if steps != [] {
      StepKeepsInv(m, steps[0]);
      EveryInterleavingConserves(Do(m, steps[0]), steps[1..]);
    }
  }

  /** The initialised service is at rest with nothing queued, counted or flagged, as configured. */
  lemma InitialInv(capacity: nat, overflow: Overflow, budget: nat, hooks: Hooks)
    requires capacity > 0
    ensures var m := Initial(capacity, overflow, budget, hooks);
            && Inv(m)
            && m.pc.Idle? && m.bits == 0 && m.budget == budget && m.hooks == hooks
            && m.queue == Queue([], capacity, overflow, 0)
  {
    assert Embeds<Record>([], [], []);
    var m := Initial(capacity, overflow, budget, hooks);
    assert m.consumed + InFlight(m) + m.queue.items == [];
  }

  // ------------------------------------------------------------------
  // Runs, interrupted or not
  // ------------------------------------------------------------------

  /** One whole interrupt handler. */
  function Interrupt(m: Fsi, irq: Irq): (m': Fsi)
    requires m.queue.Ok()
    ensures m'.queue.Ok() && m'.pc == m.pc && m'.budget == m.budget
  {
    Do(Do(m, Capture(irq)), Flag(irq))
  }

  function Arrive(m: Fsi, irqs: seq<Irq>): (m': Fsi)
    requires m.queue.Ok()
    ensures m'.queue.Ok() && m'.pc == m.pc && m'.budget == m.budget
    decreases |irqs|
  {
    if irqs == [] then m else Arrive(Interrupt(m, irqs[0]), irqs[1..])
  }

  function Remaining(m: Fsi): int {
    match m.pc
    case Idle => 0
    case Check(_) => 2 * m.budget + 3
    case Fetch(i) => 2 * (m.budget - i) + 2
    case Handle(i, _) => 2 * (m.budget - i) + 1
  }

  /** The rest of a run, with the interrupts `irqs(k)` before its k-th atomic step. */
  function Continue(m: Fsi, irqs: nat -> seq<Irq>, k: nat): (m': Fsi)
    requires m.queue.Ok() && WithinBudget(m)
    ensures m'.queue.Ok() && m'.pc.Idle? && m'.budget == m.budget
    decreases Remaining(m)
  {
    if m.pc.Idle? then m else Continue(TaskStep(Arrive(m, irqs(k))), irqs, k + 1)
  }

  /** A run of the service from its first critical section to its return. */
  function Run(m: Fsi, irqs: nat -> seq<Irq>): (m': Fsi)
    requires m.queue.Ok() && m.pc.Idle?
    ensures m'.queue.Ok() && m'.pc.Idle? && m'.budget == m.budget
  {
    Continue(TaskStep(Arrive(m, irqs(0))), irqs, 1)
  }

  /** The steps of interrupt handlers firing in a row. */
  function Handlers(irqs: seq<Irq>): seq<Step> {
    if irqs == [] then [] else [Capture(irqs[0]), Flag(irqs[0])] + Handlers(irqs[1..])
  }

  lemma {:induction false} ExecAppend(m: Fsi, a: seq<Step>, b: seq<Step>)
    requires m.queue.Ok()
    ensures Exec(m, a + b) == Exec(Exec(m, a), b)
    decreases |a|
  {
    if a == [] {
      assert a + b == b;
    } else {
      assert (a + b)[1..] == a[1..] + b;
      ExecAppend(Do(m, a[0]), a[1..], b);
    }
  }

  lemma InterruptIsExec(m: Fsi, irq: Irq)
    requires m.queue.Ok()
    ensures Exec(m, [Capture(irq), Flag(irq)]) == Interrupt(m, irq)
  {
    hide Do;
    var one := [Capture(irq), Flag(irq)];
    var m1 := Do(m, Capture(irq));
    assert one[1..] == [Flag(irq)];
    assert Exec(m1, [Flag(irq)]) == Exec(Do(m1, Flag(irq)), []);
  }

  lemma {:induction false} ArriveIsExec(m: Fsi, irqs: seq<Irq>)
    requires m.queue.Ok()
    ensures Arrive(m, irqs) == Exec(m, Handlers(irqs))
    decreases |irqs|
  {
    if irqs != [] {
      hide Do;
      var one := [Capture(irqs[0]), Flag(irqs[0])];
      ExecAppend(m, one, Handlers(irqs[1..]));
      InterruptIsExec(m, irqs[0]);
      ArriveIsExec(Interrupt(m, irqs[0]), irqs[1..]);
    }
  }

  lemma ExecNothing(m: Fsi)
    requires m.queue.Ok()
    ensures Exec(m, []) == m
  {
  }

  /** `n` atomic steps of the task, each after the interrupt handlers that fire before it. */
  function Interleaved(irqs: nat -> seq<Irq>, k: nat, n: nat): seq<Step>
    decreases n
  {
    if n == 0 then [] else Handlers(irqs(k)) + [Task] + Interleaved(irqs, k + 1, n - 1)
  }

  /** Records that a run may still consume, the one in flight included. */
  function Left(m: Fsi): int {
    match m.pc
    case Idle => 0
    case Check(_) => m.budget
    case Fetch(i) => m.budget - i
    case Handle(i, _) => m.budget - i
  }

  /** A step of a run comes to rest only at an empty ring or with the budget used up. */
  lemma StepUsesBudget(m: Fsi)
    requires m.queue.Ok() && WithinBudget(m) && !m.pc.Idle?
    ensures var m' := TaskStep(m);
            if m'.pc.Idle? then |m'.consumed| == |m.consumed| && (m.queue.items == [] || Left(m) == 0)
            else |m'.consumed| + Left(m') == |m.consumed| + Left(m)
  {
    hide Deliver;
    if m.pc.Handle? {
      DeliverEffect(m, m.pc.record);
    }
  }

  lemma {:induction false} ArriveOnlyCaptures(m: Fsi, irqs: seq<Irq>)
    requires m.queue.Ok()
    ensures Arrive(m, irqs).consumed == m.consumed && Left(Arrive(m, irqs)) == Left(m)
    decreases |irqs|
  {
    if irqs != [] {
      ArriveOnlyCaptures(Interrupt(m, irqs[0]), irqs[1..]);
    }
  }

  /** The state in which the n-th task step from `k` on is taken. */
  function BeforeStep(m: Fsi, irqs: nat -> seq<Irq>, k: nat, n: nat): (m': Fsi)
    requires m.queue.Ok() && n > 0
    ensures m'.queue.Ok()
  {
    Exec(m, Interleaved(irqs, k, n - 1) + Handlers(irqs(k + n - 1)))
  }

  lemma BeforeFirst(m: Fsi, irqs: nat -> seq<Irq>, k: nat)
    requires m.queue.Ok()
    ensures BeforeStep(m, irqs, k, 1) == Arrive(m, irqs(k))
  {
    hide Exec, Interleaved, Arrive, Handlers;
    InterleavedNone(irqs, k);
    assert [] + Handlers(irqs(k)) == Handlers(irqs(k));
    ArriveIsExec(m, irqs(k));
  }

  lemma BeforeNext(m: Fsi, irqs: nat -> seq<Irq>, k: nat, n: nat)
    requires m.queue.Ok() && n > 0
    ensures BeforeStep(m, irqs, k, n + 1) == BeforeStep(TaskStep(Arrive(m, irqs(k))), irqs, k + 1, n)
  {
    hide Exec, Interleaved, Arrive, Handlers, TaskStep;
    InterleavedFirst(m, irqs, k, n - 1);
    ExecAppend(m, Interleaved(irqs, k, n), Handlers(irqs(k + n)));
    ExecAppend(TaskStep(Arrive(m, irqs(k))), Interleaved(irqs, k + 1, n - 1), Handlers(irqs(k + n)));
  }

  /**
   * The rest of a run, however interrupted, is the interleaving that first brings the task to
   * rest, and that happens at an empty ring or with the budget used up.
   */
  lemma {:induction false} ContinueIsExec(m: Fsi, irqs: nat -> seq<Irq>, k: nat) returns (n: nat)
    requires m.queue.Ok() && WithinBudget(m)
    ensures Continue(m, irqs, k) == Exec(m, Interleaved(irqs, k, n))
    ensures forall j :: 0 <= j < n ==> !Exec(m, Interleaved(irqs, k, j)).pc.Idle?
    ensures n > 0 <==> !m.pc.Idle?
    ensures n > 0 ==>
              || BeforeStep(m, irqs, k, n).queue.items == []
              || |Continue(m, irqs, k).consumed| == |m.consumed| + Left(m)
    decreases Remaining(m)
  {
    hide Do, Exec, Arrive, TaskStep, Interleaved, Handlers, Left, BeforeStep;
    ExecNothing(m);
    InterleavedNone(irqs, k);
    if m.pc.Idle? {
      n := 0;
    } else {
      ContinueUnfolds(m, irqs, k);
      var here := Arrive(m, irqs(k));
      var next := TaskStep(here);
      n := ContinueIsExec(next, irqs, k + 1);
      ArriveOnlyCaptures(m, irqs(k));
      BudgetSame(m, here);
      StepUsesBudget(here);
      BeforeFirst(m, irqs, k);
      if n > 0 {
        BeforeNext(m, irqs, k, n);
      }
      InterleavedFirst(m, irqs, k, n);
      forall j | 0 <= j < n + 1
        ensures !Exec(m, Interleaved(irqs, k, j)).pc.Idle?
      {
        if j > 0 {
          InterleavedFirst(m, irqs, k, j - 1);
        }
      }
      n := n + 1;
    }
  }

  lemma InterleavedNone(irqs: nat -> seq<Irq>, k: nat)
    ensures Interleaved(irqs, k, 0) == []
  {
  }

  lemma InterleavedFirst(m: Fsi, irqs: nat -> seq<Irq>, k: nat, n: nat)
    requires m.queue.Ok()
    ensures Exec(m, Interleaved(irqs, k, n + 1)) ==
            Exec(TaskStep(Arrive(m, irqs(k))), Interleaved(irqs, k + 1, n))
  {
    hide Exec, Arrive, TaskStep, Handlers;
    InterruptedStep(m, irqs(k));
    ExecAppend(m, Handlers(irqs(k)) + [Task], Interleaved(irqs, k + 1, n));
  }

  lemma InterruptedStep(m: Fsi, irqs: seq<Irq>)
    requires m.queue.Ok()
    ensures Exec(m, Handlers(irqs) + [Task]) == TaskStep(Arrive(m, irqs))
  {
    ArriveIsExec(m, irqs);
    ExecAppend(m, Handlers(irqs), [Task]);
    var m1 := Arrive(m, irqs);
    assert [Task][1..] == [];
    assert Exec(m1, [Task]) == Exec(Do(m1, Task), []);
  }

  lemma ContinueUnfolds(m: Fsi, irqs: nat -> seq<Irq>, k: nat)
    requires m.queue.Ok() && WithinBudget(m) && !m.pc.Idle?
    ensures WithinBudget(TaskStep(Arrive(m, irqs(k))))
    ensures Continue(m, irqs, k) == Continue(TaskStep(Arrive(m, irqs(k))), irqs, k + 1)
    ensures Remaining(TaskStep(Arrive(m, irqs(k)))) < Remaining(m)
  {
    hide Arrive, TaskStep, WithinBudget, Remaining;
    BudgetSame(m, Arrive(m, irqs(k)));
    StepWithinBudget(Arrive(m, irqs(k)));
    StepApproachesRest(Arrive(m, irqs(k)));
  }

  lemma BudgetSame(m: Fsi, m': Fsi)
    requires WithinBudget(m) && m'.pc == m.pc && m'.budget == m.budget
    ensures WithinBudget(m') && Remaining(m') == Remaining(m)
  {
  }

  lemma StepApproachesRest(m: Fsi)
    requires m.queue.Ok() && WithinBudget(m) && !m.pc.Idle?
    ensures Remaining(TaskStep(m)) < Remaining(m)
  {
    hide Deliver;
    if m.pc.Handle? {
      DeliverEffect(m, m.pc.record);
    }
  }

  /**
   * A run, with any interrupts before each of its atomic steps, is exactly that interleaving
   * of handlers and task steps, up to the first step that brings the task to rest; that step
   * finds the ring empty or the budget used up.
   */
  lemma RunIsInterleaving(m: Fsi, irqs: nat -> seq<Irq>) returns (n: nat)
    requires m.queue.Ok() && m.pc.Idle?
    ensures n > 0 && Run(m, irqs) == Exec(m, Interleaved(irqs, 0, n))
    ensures forall j :: 0 < j < n ==> !Exec(m, Interleaved(irqs, 0, j)).pc.Idle?
    ensures BeforeStep(m, irqs, 0, n).queue.items == [] || |Run(m, irqs).consumed| == |m.consumed| + m.budget
  {
    hide Exec, Arrive, TaskStep, Continue, Interleaved, Handlers, BeforeStep, Left;
    var m1 := TaskStep(Arrive(m, irqs(0)));
    ArriveOnlyCaptures(m, irqs(0));
    FirstStepBudget(Arrive(m, irqs(0)));
    n := ContinueIsExec(m1, irqs, 1);
    BeforeNext(m, irqs, 0, n);
    InterleavedFirst(m, irqs, 0, n);
    forall j | 0 < j < n + 1
      ensures !Exec(m, Interleaved(irqs, 0, j)).pc.Idle?
    {
      InterleavedFirst(m, irqs, 0, j - 1);
    }
    n := n + 1;
  }

  /**
   * A run gives up after its work check exactly when no event bit was set as it began and
   * the ring is empty at the check; interrupts before and between the two steps count.
   */
  lemma ReturnsEarlyIff(m: Fsi, irqs: nat -> seq<Irq>)
    requires m.queue.Ok() && m.pc.Idle?
    ensures var began := Exec(m, Handlers(irqs(0)));
            var checked := Exec(m, Interleaved(irqs, 0, 1) + Handlers(irqs(1)));
            Exec(m, Interleaved(irqs, 0, 2)).pc.Idle? <==> began.bits == 0 && checked.queue.items == []
  {
    hide Exec, Arrive, Handlers, Interleaved;
    var m1 := TaskStep(Arrive(m, irqs(0)));
    ArriveIsExec(m, irqs(0));
    InterleavedFirst(m, irqs, 0, 0);
    InterleavedFirst(m, irqs, 0, 1);
    InterleavedFirst(m1, irqs, 1, 0);
    InterleavedNone(irqs, 1);
    InterleavedNone(irqs, 2);
    ExecNothing(m1);
    ExecNothing(TaskStep(Arrive(m1, irqs(1))));
    ExecAppend(m, Interleaved(irqs, 0, 1), Handlers(irqs(1)));
    ArriveIsExec(m1, irqs(1));
  }

  lemma RunKeepsInv(m: Fsi, irqs: nat -> seq<Irq>)
    requires Inv(m) && m.pc.Idle?
    ensures Inv(Run(m, irqs))
  {
    hide Exec, Run, CallsMatch, Subsequence;
    var n := RunIsInterleaving(m, irqs);
    EveryInterleavingConserves(m, Interleaved(irqs, 0, n));
  }

  lemma FirstStepBudget(m: Fsi)
    requires m.queue.Ok() && m.pc.Idle?
    ensures WithinBudget(TaskStep(m)) && TaskStep(m).queue.Ok() && !TaskStep(m).pc.Idle?
    ensures TaskStep(m).consumed == m.consumed && Left(TaskStep(m)) == m.budget
  {
  }
}
