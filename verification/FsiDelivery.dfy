/** The FSI service end to end: the handlers see exactly what the interrupts were given. */
module FsiDelivery {
  import opened BoundedQueue
  import opened Codec
  import opened FsiModel
  import opened FsiThroughput

  // ------------------------------------------------------------------
  // Read off the interrupts
  // ------------------------------------------------------------------

  /** What the handler for received frames is to be given, for the interrupts `irqs`; 1 is the tag of a receive. */
  function RxFrames(irqs: seq<Irq>): seq<Record> {
    if irqs == [] then []
    else
      (match irqs[0]
       case RxIrq(channel, frameIndex, status) => [Record(channel, frameIndex, 1, status)]
       case _ => []) + RxFrames(irqs[1..])
  }

  /** The same for completed transmissions, with tag 2. */
  function TxFrames(irqs: seq<Irq>): seq<Record> {
    if irqs == [] then []
    else
      (match irqs[0]
       case TxIrq(channel, frameIndex, status) => [Record(channel, frameIndex, 2, status)]
       case _ => []) + TxFrames(irqs[1..])
  }

  /** The same for errors, with tag 3 and frame index 0. */
  function ErrorFrames(irqs: seq<Irq>): seq<Record> {
    if irqs == [] then []
    else
      (match irqs[0]
       case ErrorIrq(channel, status) => [Record(channel, 0, 3, status)]
       case _ => []) + ErrorFrames(irqs[1..])
  }

  /** The interrupts captured along an interleaving. */
  function CapturesOf(steps: seq<Step>): seq<Irq> {
    if steps == [] then []
    else (if steps[0].Capture? then [steps[0].irq] else []) + CapturesOf(steps[1..])
  }

  // ------------------------------------------------------------------
  // From interrupts to records
  // ------------------------------------------------------------------

  lemma {:induction false} ByTagSplit(a: seq<Record>, b: seq<Record>, tag: U16)
    ensures ByTag(a + b, tag) == ByTag(a, tag) + ByTag(b, tag)
    decreases |b|
  {
    if b == [] {
      assert a + b == a;
      assert ByTag(a, tag) + [] == ByTag(a, tag);
    } else {
      var last := |b| - 1;
      assert a + b == a + b[..last] + [b[last]] && b == b[..last] + [b[last]];
      ByTagSplit(a, b[..last], tag);
      ByTagAppend(a + b[..last], b[last], tag);
      ByTagAppend(b[..last], b[last], tag);
      hide ByTag;
    }
  }

  lemma ByTagOne(r: Record, tag: U16)
    ensures ByTag([r], tag) == if r.irqTag == tag then [r] else []
  {
    assert [] + [r] == [r];
    ByTagAppend([], r, tag);
  }

  /** Capture tags each interrupt by its kind and keeps what it was given. */
  lemma {:induction false} RecordsByKind(irqs: seq<Irq>)
    ensures ByTag(Records(irqs), TAG_RX) == RxFrames(irqs)
    ensures ByTag(Records(irqs), TAG_TX) == TxFrames(irqs)
    ensures ByTag(Records(irqs), TAG_ERROR) == ErrorFrames(irqs)
  {
    if irqs != [] {
      hide ByTag;
      var r := Captured(irqs[0]);
      RecordsByKind(irqs[1..]);
      forall tag: U16
        ensures ByTag(Records(irqs), tag) == (if r.irqTag == tag then [r] else []) + ByTag(Records(irqs[1..]), tag)
      {
        ByTagSplit([r], Records(irqs[1..]), tag);
        ByTagOne(r, tag);
      }
    }
  }

  lemma StepCaptures(m: Fsi, step: Step)
    requires m.queue.Ok()
    ensures FsiModel.Do(m, step).captured == m.captured + Records(if step.Capture? then [step.irq] else [])
    ensures FsiModel.Do(m, step).hooks == m.hooks && FsiModel.Do(m, step).budget == m.budget
  {
    if step.Capture? {
      assert [step.irq][1..] == [];
    }
    assert m.captured + [] == m.captured;
  }

  lemma {:induction false} RecordsSplit(a: seq<Irq>, b: seq<Irq>)
    ensures Records(a + b) == Records(a) + Records(b)
  {
    if a == [] {
      assert a + b == b;
    } else {
      assert (a + b)[1..] == a[1..] + b;
      RecordsSplit(a[1..], b);
    }
  }

  lemma {:induction false} CapturedAlong(m: Fsi, steps: seq<Step>)
    requires m.queue.Ok()
    ensures Exec(m, steps).captured == m.captured + Records(CapturesOf(steps))
    ensures Exec(m, steps).hooks == m.hooks && Exec(m, steps).budget == m.budget
    decreases |steps|
  {
    if steps == [] {
      assert m.captured + [] == m.captured;
    } else {
      hide FsiModel.Do, Records;
      var here, rest := if steps[0].Capture? then [steps[0].irq] else [], CapturesOf(steps[1..]);
      StepCaptures(m, steps[0]);
      CapturedAlong(FsiModel.Do(m, steps[0]), steps[1..]);
      RecordsSplit(here, rest);
      assert m.captured + Records(here) + Records(rest) == m.captured + (Records(here) + Records(rest));
    }
  }

  // ------------------------------------------------------------------
  // Subsequences by tag
  // ------------------------------------------------------------------

  lemma {:induction false} TaggedSubsequence(a: seq<Record>, b: seq<Record>, tag: U16)
    requires Subsequence(a, b)
    ensures Subsequence(ByTag(a, tag), ByTag(b, tag))
    decreases |b|
  {
    hide Subsequence, ByTag;
    if b == [] {
      SubsequenceLength(a, b);
      assert a == b;
      SubsequenceItself(ByTag(a, tag));
    } else {
      var m, n := |a| - 1, |b| - 1;
      var used := SubsequenceLast(a, b);
      ByTagAppend(b[..n], b[n], tag);
      assert b[..n] + [b[n]] == b;
      if used {
        TaggedSubsequence(a[..m], b[..n], tag);
        ByTagAppend(a[..m], a[m], tag);
        assert a[..m] + [a[m]] == a;
        SubsequenceAppend(ByTag(a[..m], tag), ByTag(b[..n], tag), b[n]);
      } else {
        TaggedSubsequence(a, b[..n], tag);
        SubsequenceAppend(ByTag(a, tag), ByTag(b[..n], tag), b[n]);
      }
      assert ByTag(b[..n], tag) + [] == ByTag(b[..n], tag);
      if used {
        assert ByTag(a[..m], tag) + [] == ByTag(a[..m], tag);
      }
    }
  }

  // ------------------------------------------------------------------
  // What the handlers see
  // ------------------------------------------------------------------

  /** A handler that is there was called with some of `frames` in order, and with all of them if `all`. */
  ghost predicate Saw(hook: bool, calls: seq<Record>, frames: seq<Record>, all: bool) {
    && (!hook ==> calls == [])
    && (hook ==> Subsequence(calls, frames) && (all ==> calls == frames))
  }

  /** Everything captured so far has been handled. */
  predicate Served(m: Fsi) {
    m.queue.items == [] && m.queue.drops == 0 && !m.pc.Handle?
  }

  lemma SawByTag(m: Fsi, hook: bool, tag: U16, all: bool)
    requires Subsequence(m.consumed, m.captured) && (all ==> m.consumed == m.captured)
    ensures Saw(hook, Called(hook, m.consumed, tag), ByTag(m.captured, tag), all)
  {
    hide ByTag, Subsequence;
    TaggedSubsequence(m.consumed, m.captured, tag);
  }

  lemma ConsumedInOrder(m: Fsi)
    requires Conserved(m)
    ensures Subsequence(m.consumed, m.captured)
    ensures Served(m) ==> m.consumed == m.captured
  {
    hide Subsequence;
    var all := m.consumed + InFlight(m) + m.queue.items;
    PrefixOfSubsequence(all, |m.consumed|, m.captured);
    assert all[..|m.consumed|] == m.consumed;
    if Served(m) {
      SubsequenceOfSameLength(m.consumed, m.captured);
    }
  }

  /**
   * At every point of every interleaving since initialisation, each handler that the HAL has
   * was called, in order, only with what interrupts of its own kind were given: channel, frame
   * index and status, tagged by the kind; an error has frame index 0. Once nothing is queued,
   * in flight or dropped, it was called with all of them.
   */
  lemma HandlersSeeInterrupts(capacity: nat, overflow: Overflow, budget: nat, hooks: Hooks, steps: seq<Step>)
    requires capacity > 0
    ensures var m := Exec(Initial(capacity, overflow, budget, hooks), steps);
            var irqs := CapturesOf(steps);
            && Saw(hooks.rx, m.rxCalls, RxFrames(irqs), Served(m))
            && Saw(hooks.tx, m.txCalls, TxFrames(irqs), Served(m))
            && Saw(hooks.error, m.errorCalls, ErrorFrames(irqs), Served(m))
  {
    hide Exec, Subsequence, ByTag, Served, Saw, Records;
    var m0 := Initial(capacity, overflow, budget, hooks);
    var m := Exec(m0, steps);
    InitialInv(capacity, overflow, budget, hooks);
    EveryInterleavingConserves(m0, steps);
    CapturedAlong(m0, steps);
    RecordsByKind(CapturesOf(steps));
    assert [] + Records(CapturesOf(steps)) == Records(CapturesOf(steps));
    ConsumedInOrder(m);
    SawByTag(m, hooks.rx, TAG_RX, Served(m));
    SawByTag(m, hooks.tx, TAG_TX, Served(m));
    SawByTag(m, hooks.error, TAG_ERROR, Served(m));
  }

  lemma {:induction false} RunsKeepInv(m: Fsi, n: nat)
    requires Inv(m) && m.queue.Ok() && m.pc.Idle?
    ensures Inv(Runs(m, n)) && Runs(m, n).captured == m.captured && Runs(m, n).hooks == m.hooks
    ensures Runs(m, n).queue.drops == m.queue.drops
  {
    hide Run, Inv;
    if n > 0 {
      RunsKeepInv(m, n - 1);
      RunKeepsInv(Runs(m, n - 1), Quiet);
      QuietRunDrains(Runs(m, n - 1));
    }
  }

  /**
   * Interrupts that fit into the empty ring of an initialised service, followed by enough
   * uninterrupted runs: each handler present is called with exactly what the interrupts of its
   * kind were given, in order, once each.
   */
  lemma InterruptsReachHandlers(capacity: nat, overflow: Overflow, budget: nat, hooks: Hooks, irqs: seq<Irq>, n: nat)
    requires capacity > 0 && budget > 0 && |irqs| <= capacity && CeilDiv(|irqs|, budget) <= n
    ensures var m := Runs(Arrive(Initial(capacity, overflow, budget, hooks), irqs), n);
            && m.rxCalls == (if hooks.rx then RxFrames(irqs) else [])
            && m.txCalls == (if hooks.tx then TxFrames(irqs) else [])
            && m.errorCalls == (if hooks.error then ErrorFrames(irqs) else [])
            && m.queue.items == [] && m.queue.drops == 0
  {
    hide Arrive, Runs, Exec, Records, ByTag, Subsequence, CeilDiv;
    var m0 := Initial(capacity, overflow, budget, hooks);
    var m1 := Arrive(m0, irqs);
    InitialInv(capacity, overflow, budget, hooks);
    ArriveKeepsInv(m0, irqs);
    ArrivalsThatFit(m0, irqs);
    RecordsCount(irqs);
    ArriveIsExec(m0, irqs);
    CapturedAlong(m0, Handlers(irqs));
    HandlersCapture(irqs);
    assert [] + Records(irqs) == Records(irqs);
    RunsKeepInv(m1, n);
    BacklogDrainsInExactly(m1, n);
    var m := Runs(m1, n);
    ConsumedInOrder(m);
    RecordsByKind(irqs);
  }

  lemma {:induction false} HandlersCapture(irqs: seq<Irq>)
    ensures CapturesOf(Handlers(irqs)) == irqs
  {
    if irqs != [] {
      var steps := Handlers(irqs);
      HandlersCapture(irqs[1..]);
      assert steps[1..][1..] == Handlers(irqs[1..]);
      assert steps[0] == Capture(irqs[0]) && steps[1..][0] == Flag(irqs[0]);
      assert CapturesOf(steps[1..]) == [] + CapturesOf(Handlers(irqs[1..]));
    }
  }

  // ------------------------------------------------------------------
  // Overflow
  // ------------------------------------------------------------------

  lemma StepKeepsNewest(m: Fsi, step: Step)
    requires NewestKept(m.queue, m.captured, m.consumed + InFlight(m))
    ensures var m' := FsiModel.Do(m, step);
            NewestKept(m'.queue, m'.captured, m'.consumed + InFlight(m'))
  {
    hide Subsequence, Deliver, Captured;
    match step
    case Task =>
      if m.pc.Handle? {
        DeliverEffect(m, m.pc.record);
        assert m.consumed + [m.pc.record] + [] == m.consumed + [m.pc.record];
      } else if m.pc.Fetch? && m.queue.items != [] {
        NewestKeptTake(m.queue, m.captured, m.consumed + InFlight(m), 1);
        assert m.consumed + [] + m.queue.items[..1] == m.consumed + [m.queue.items[0]];
      }
    case Capture(irq) =>
      NewestKeptPush(m.queue, m.captured, m.consumed + InFlight(m), Captured(irq));
    case Flag(_) =>
  }

  lemma {:induction false} KeepsNewest(m: Fsi, steps: seq<Step>)
    requires NewestKept(m.queue, m.captured, m.consumed + InFlight(m))
    ensures var m' := Exec(m, steps);
            NewestKept(m'.queue, m'.captured, m'.consumed + InFlight(m'))
    decreases |steps|
  {
    if steps != [] {
      hide FsiModel.Do, Subsequence;
      StepKeepsNewest(m, steps[0]);
      KeepsNewest(FsiModel.Do(m, steps[0]), steps[1..]);
    }
  }

  /** A service that drops the oldest records holds the newest, at every point of every interleaving. */
  lemma NewestRecordsQueued(capacity: nat, budget: nat, hooks: Hooks, steps: seq<Step>)
    requires capacity > 0
    ensures var m := Exec(Initial(capacity, DropOldest, budget, hooks), steps);
            NewestKept(m.queue, Records(CapturesOf(steps)), m.consumed + InFlight(m))
  {
    hide Exec, NewestKept, Records;
    var m := Initial(capacity, DropOldest, budget, hooks);
    NewestKeptStart<Record>(capacity);
    assert m.consumed + InFlight(m) == [];
    KeepsNewest(m, steps);
    CapturedAlong(m, steps);
    assert [] + Records(CapturesOf(steps)) == Records(CapturesOf(steps));
  }

  // ------------------------------------------------------------------
  // Event bits
  // ------------------------------------------------------------------

  /** Which kinds of event bits 0, 1 and 2 of the service tell of. */
  datatype Flags = Flags(rx: bool, tx: bool, error: bool)

  function FlagsOf(bits: bv32): Flags {
    Flags(bits & 1 != 0, bits & 2 != 0, bits & 4 != 0)
  }

  function Flagged(f: Flags, irq: Irq): Flags {
    match irq
    case RxIrq(_, _, _) => f.(rx := true)
    case TxIrq(_, _, _) => f.(tx := true)
    case ErrorIrq(_, _) => f.(error := true)
  }

  lemma SetLowBit(bits: bv32)
    ensures (bits | 1) & 1 != 0 && (bits | 1) & 2 == bits & 2 && (bits | 1) & 4 == bits & 4
  {
  }

  lemma SetMiddleBit(bits: bv32)
    ensures (bits | 2) & 1 == bits & 1 && (bits | 2) & 2 != 0 && (bits | 2) & 4 == bits & 4
  {
  }

  lemma SetHighBit(bits: bv32)
    ensures (bits | 4) & 1 == bits & 1 && (bits | 4) & 2 == bits & 2 && (bits | 4) & 4 != 0
  {
  }

  lemma FlagSets(bits: bv32, irq: Irq)
    ensures FlagsOf(bits | EventBit(irq)) == Flagged(FlagsOf(bits), irq)
  {
    match irq
    case RxIrq(_, _, _) => SetLowBit(bits);
    case TxIrq(_, _, _) => SetMiddleBit(bits);
    case ErrorIrq(_, _) => SetHighBit(bits);
  }

  lemma NoFlags()
    ensures FlagsOf(0) == Flags(false, false, false)
  {
  }

  function FlagsAfter(f: Flags, m: Fsi, step: Step): Flags {
    match step
    case Task => if m.pc.Idle? then Flags(false, false, false) else f
    case Capture(_) => f
    case Flag(irq) => Flagged(f, irq)
  }

  /** The kinds flagged since a run last began, or, without one, since `f`. */
  function FlagsAlong(f: Flags, m: Fsi, steps: seq<Step>): Flags
    requires m.queue.Ok()
    decreases |steps|
  {
    if steps == [] then f else FlagsAlong(FlagsAfter(f, m, steps[0]), FsiModel.Do(m, steps[0]), steps[1..])
  }

  lemma TaskBits(m: Fsi)
    requires m.queue.Ok()
    ensures TaskStep(m).bits == if m.pc.Idle? then 0 else m.bits
  {
    hide Deliver;
    if m.pc.Handle? {
      DeliverEffect(m, m.pc.record);
    }
  }

  lemma StepFlags(m: Fsi, step: Step)
    requires m.queue.Ok()
    ensures FlagsOf(FsiModel.Do(m, step).bits) == FlagsAfter(FlagsOf(m.bits), m, step)
  {
    hide FlagsOf, EventBit, TaskStep, Flagged;
    match step
    case Task =>
      TaskBits(m);
      NoFlags();
    case Capture(_) =>
    case Flag(irq) =>
      FlagSets(m.bits, irq);
  }

  /** The event bits tell exactly which kinds of interrupt were flagged since a run last began. */
  lemma {:induction false} EventBitsTell(m: Fsi, steps: seq<Step>)
    requires m.queue.Ok()
    ensures FlagsOf(Exec(m, steps).bits) == FlagsAlong(FlagsOf(m.bits), m, steps)
    decreases |steps|
  {
    hide FsiModel.Do, FlagsOf, FlagsAfter;
    if steps != [] {
      StepFlags(m, steps[0]);
      EventBitsTell(FsiModel.Do(m, steps[0]), steps[1..]);
    }
  }

  /** From initialisation on. */
  lemma EventBitsFromInitialisation(capacity: nat, overflow: Overflow, budget: nat, hooks: Hooks, steps: seq<Step>)
    requires capacity > 0
    ensures var m := Initial(capacity, overflow, budget, hooks);
            FlagsOf(Exec(m, steps).bits) == FlagsAlong(Flags(false, false, false), m, steps)
  {
    hide FlagsOf, Exec, FlagsAlong;
    NoFlags();
    EventBitsTell(Initial(capacity, overflow, budget, hooks), steps);
  }
}
