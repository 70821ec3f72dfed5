/**
 * Motor supervision from initialisation on: what the interrupts and the caller put in, against
 * what is consumed, queued and dropped, and the latency from a fault interrupt to the disable.
 */
module MotorHistory {
  import opened Arithmetic
  import opened Codec
  import opened MotorModel
  import opened MotorLatency

  // ------------------------------------------------------------------
  // Read off a history
  // ------------------------------------------------------------------

  function SampleOf(op: Op): seq<Feedback> {
    if op.FeedbackIrq? && op.sample.Some? then [op.sample.value] else []
  }

  /** The samples that feedback interrupts read. */
  function Samples(ops: seq<Op>): seq<Feedback> {
    if ops == [] then [] else SampleOf(ops[0]) + Samples(ops[1..])
  }

  function RaisedBy(op: Op): seq<U16> {
    if op.FeedbackIrq? then [1] else if op.FaultIrq? then [2] else []
  }

  /** One event per interrupt: 1 for feedback, 2 for a fault. */
  function Raised(ops: seq<Op>): seq<U16> {
    if ops == [] then [] else RaisedBy(ops[0]) + Raised(ops[1..])
  }

  function CommandOf(op: Op): seq<(bool, U16)> {
    if op.SetCommand? then [(op.enable, op.rpm)] else []
  }

  /** What the caller commanded. */
  function Commands(ops: seq<Op>): seq<(bool, U16)> {
    if ops == [] then [] else CommandOf(ops[0]) + Commands(ops[1..])
  }

  function WokenBy(hint: bool, op: Op): bool {
    if op.RunOnce? then false else hint || op.FeedbackIrq? || op.FaultIrq?
  }

  /** Whether an interrupt came since the last run, or, without a run, `hint` at first. */
  function Woken(hint: bool, ops: seq<Op>): bool
    decreases |ops|
  {
    if ops == [] then hint else Woken(WokenBy(hint, ops[0]), ops[1..])
  }

  /** The samples taken by the runs of a history: each time the oldest queued, up to the budget. */
  function SamplesTaken(m: Motor, ops: seq<Op>): seq<Feedback>
    requires m.Ok()
    decreases |ops|
  {
    if ops == [] then []
    else
      (if ops[0].RunOnce? then m.feedback.items[..Min(m.maxFeedback, |m.feedback.items|)] else [])
      + SamplesTaken(Do(m, ops[0]), ops[1..])
  }

  /** The commands recorded along a trace. */
  function CommandedIn(trace: seq<Event>): seq<(bool, U16)> {
    if trace == [] then []
    else (if trace[0].Commanded? then [(trace[0].enable, trace[0].rpm)] else []) + CommandedIn(trace[1..])
  }

  lemma CommandedPrepend(e: Event, trace: seq<Event>)
    ensures CommandedIn([e] + trace) == (if e.Commanded? then [(e.enable, e.rpm)] else []) + CommandedIn(trace)
  {
    assert ([e] + trace)[1..] == trace;
  }

  lemma {:induction false} CommandedAppend(a: seq<Event>, b: seq<Event>)
    ensures CommandedIn(a + b) == CommandedIn(a) + CommandedIn(b)
  {
    hide CommandedIn;
    if a == [] {
      assert a + b == b && a == [];
      CommandedNone();
      assert [] + CommandedIn(b) == CommandedIn(b);
    } else {
      var head := if a[0].Commanded? then [(a[0].enable, a[0].rpm)] else [];
      CommandedAppend(a[1..], b);
      CommandedPrepend(a[0], a[1..] + b);
      CommandedPrepend(a[0], a[1..]);
      assert [a[0]] + a[1..] == a;
      assert [a[0]] + (a[1..] + b) == a + b;
      assert head + (CommandedIn(a[1..]) + CommandedIn(b)) == head + CommandedIn(a[1..]) + CommandedIn(b);
    }
  }

  lemma CommandedNone()
    ensures CommandedIn([]) == []
  {
  }

  lemma {:induction false} NothingCommanded(trace: seq<Event>)
    requires forall k :: 0 <= k < |trace| ==> !trace[k].Commanded?
    ensures CommandedIn(trace) == []
  {
    if trace != [] {
      NothingCommanded(trace[1..]);
    }
  }

  lemma {:induction false} ReactionsCommandNothing(ids: seq<U16>)
    ensures CommandedIn(Reactions(ids)) == []
  {
    if ids != [] {
      NothingCommanded(Reaction(ids[0]));
      ReactionsCommandNothing(ids[1..]);
      CommandedAppend(Reaction(ids[0]), Reactions(ids[1..]));
    }
  }

  // ------------------------------------------------------------------
  // Accounting
  // ------------------------------------------------------------------

  /**
   * The state after `samples`, `raised` and `commands` went in and `taken` came out of the
   * feedback ring: both queues account for all of it, oldest dropped first, and the trace
   * records the commands in order.
   */
  ghost predicate Accounts(m: Motor, samples: seq<Feedback>, taken: seq<Feedback>, raised: seq<U16>,
                           commands: seq<(bool, U16)>)
  {
    && BoundedQueue.NewestKept(m.feedback, samples, taken)
    && BoundedQueue.NewestKept(m.events, raised, ConsumedIds(m.trace))
    && CommandedIn(m.trace) == commands
  }

  ghost predicate SameConfiguration(m: Motor, m': Motor) {
    && m'.feedback.capacity == m.feedback.capacity && m'.events.capacity == m.events.capacity
    && m'.maxFeedback == m.maxFeedback && m'.maxEvents == m.maxEvents
  }

  lemma CommandAccounts(m: Motor, samples: seq<Feedback>, taken: seq<Feedback>, raised: seq<U16>,
                        commands: seq<(bool, U16)>, enable: bool, rpm: U16)
    requires m.Ok() && Accounts(m, samples, taken, raised, commands)
    ensures Accounts(Do(m, SetCommand(enable, rpm)), samples, taken, raised, commands + [(enable, rpm)])
  {
    hide BoundedQueue.NewestKept, ConsumedIds, CommandedIn;
    var e := Commanded(enable, rpm);
    ConsumedAppend(m.trace, [e]);
    ConsumedOne(e);
    CommandedAppend(m.trace, [e]);
    CommandedOne(enable, rpm);
    assert ConsumedIds(m.trace) + [] == ConsumedIds(m.trace);
  }

  lemma CommandedOne(enable: bool, rpm: U16)
    ensures CommandedIn([Commanded(enable, rpm)]) == [(enable, rpm)]
  {
    assert [Commanded(enable, rpm)][1..] == [];
  }

  lemma RunAccounts(m: Motor, samples: seq<Feedback>, taken: seq<Feedback>, raised: seq<U16>,
                    commands: seq<(bool, U16)>)
    requires m.Ok() && Accounts(m, samples, taken, raised, commands)
    ensures var now := m.feedback.items[..Min(m.maxFeedback, |m.feedback.items|)];
            Accounts(Run(m), samples, taken + now, raised, commands)
  {
    hide Run, BoundedQueue.NewestKept, ConsumedIds, CommandedIn, Reactions, Command;
    RunEffect(m);
    BoundedQueue.NewestKeptTake(m.feedback, samples, taken, Min(m.maxFeedback, |m.feedback.items|));
    BoundedQueue.NewestKeptTake(m.events, raised, ConsumedIds(m.trace), |Taken(m)|);
    RunTrace(m);
    assert Rest(m.feedback.items, m.maxFeedback) == m.feedback.items[Min(m.maxFeedback, |m.feedback.items|)..];
    assert Rest(m.events.items, m.maxEvents) == m.events.items[|Taken(m)|..];
  }

  /** What a run adds to the trace consumes the events it takes and records no command. */
  lemma RunTrace(m: Motor)
    requires m.Ok()
    ensures ConsumedIds(Run(m).trace) == ConsumedIds(m.trace) + m.events.items[..|Taken(m)|]
    ensures CommandedIn(Run(m).trace) == CommandedIn(m.trace)
  {
    hide Run, ConsumedIds, CommandedIn, Reactions;
    RunEffect(m);
    var work := m.hint || m.feedback.items != [] || m.events.items != [];
    if work {
      var added := Command(m.enabled, m.target) + Reactions(Taken(m));
      ConsumedAppend(m.trace, added);
      ConsumedAppend(Command(m.enabled, m.target), Reactions(Taken(m)));
      CommandConsumesNothing(m.enabled, m.target);
      ReactionsConsume(Taken(m));
      CommandedAppend(m.trace, added);
      CommandedAppend(Command(m.enabled, m.target), Reactions(Taken(m)));
      NothingCommanded(Command(m.enabled, m.target));
      ReactionsCommandNothing(Taken(m));
      assert [] + Taken(m) == Taken(m);
    } else {
      assert m.trace + [] == m.trace;
      assert ConsumedIds(m.trace) + [] == ConsumedIds(m.trace);
    }
    assert CommandedIn(m.trace) + [] == CommandedIn(m.trace);
  }

  /**
   * What an interrupt does at once: a fault interrupt queues event 2 and a feedback interrupt
   * event 1, behind all others; a sample that was read is queued behind all others; the hint
   * is set, and nothing is sent.
   */
  lemma InterruptEffect(m: Motor, op: Op)
    requires m.Ok() && (op.FeedbackIrq? || op.FaultIrq?)
    ensures var m' := Do(m, op);
            && m'.events == BoundedQueue.Push(m.events, if op.FaultIrq? then 2 else 1).0
            && m'.feedback == (if op.FeedbackIrq? && op.sample.Some?
                               then BoundedQueue.Push(m.feedback, op.sample.value).0 else m.feedback)
            && m' == m.(events := m'.events, feedback := m'.feedback, hint := true)
  {
  }

  lemma StepAccounts(m: Motor, op: Op, samples: seq<Feedback>, taken: seq<Feedback>, raised: seq<U16>,
                     commands: seq<(bool, U16)>)
    requires m.Ok() && Accounts(m, samples, taken, raised, commands)
    ensures var now := if op.RunOnce? then m.feedback.items[..Min(m.maxFeedback, |m.feedback.items|)] else [];
            && Accounts(Do(m, op), samples + SampleOf(op), taken + now, raised + RaisedBy(op),
                        commands + CommandOf(op))
            && SameConfiguration(m, Do(m, op))
            && Do(m, op).hint == WokenBy(m.hint, op)
  {
    hide BoundedQueue.NewestKept, ConsumedIds, CommandedIn, BoundedQueue.Push, Run;
    assert samples + [] == samples && taken + [] == taken;
    assert raised + [] == raised && commands + [] == commands;
    match op {
      case SetCommand(enable, rpm) =>
        CommandAccounts(m, samples, taken, raised, commands, enable, rpm);
      case FeedbackIrq(sample) =>
        InterruptEffect(m, op);
        BoundedQueue.NewestKeptPush(m.events, raised, ConsumedIds(m.trace), 1);
        if sample.Some? {
          BoundedQueue.NewestKeptPush(m.feedback, samples, taken, sample.value);
        }
      case FaultIrq =>
        InterruptEffect(m, op);
        BoundedQueue.NewestKeptPush(m.events, raised, ConsumedIds(m.trace), 2);
      case RunOnce =>
        RunAccounts(m, samples, taken, raised, commands);
        RunEffect(m);
    }
  }

  lemma {:induction false} HistoryAccounts(m: Motor, ops: seq<Op>, samples: seq<Feedback>, taken: seq<Feedback>,
                                           raised: seq<U16>, commands: seq<(bool, U16)>)
    requires m.Ok() && Accounts(m, samples, taken, raised, commands)
    ensures var m' := DoAll(m, ops);
            && Accounts(m', samples + Samples(ops), taken + SamplesTaken(m, ops), raised + Raised(ops),
                        commands + Commands(ops))
            && SameConfiguration(m, m')
            && m'.hint == Woken(m.hint, ops)
    decreases |ops|
  {
    hide Do, Accounts, SampleOf, RaisedBy, CommandOf, WokenBy;
    if ops == [] {
      assert samples + [] == samples && taken + [] == taken;
    assert raised + [] == raised && commands + [] == commands;
    } else {
      var op, rest := ops[0], ops[1..];
      var now := if op.RunOnce? then m.feedback.items[..Min(m.maxFeedback, |m.feedback.items|)] else [];
      StepAccounts(m, op, samples, taken, raised, commands);
      HistoryAccounts(Do(m, op), rest, samples + SampleOf(op), taken + now, raised + RaisedBy(op),
                      commands + CommandOf(op));
      assert samples + SampleOf(op) + Samples(rest) == samples + Samples(ops);
      assert taken + now + SamplesTaken(Do(m, op), rest) == taken + SamplesTaken(m, ops);
      assert raised + RaisedBy(op) + Raised(rest) == raised + Raised(ops);
      assert commands + CommandOf(op) + Commands(rest) == commands + Commands(ops);
    }
  }

  /**
   * Over every history from initialisation: the samples that interrupts read are those taken
   * by runs, those queued and those dropped; one event per interrupt is consumed, queued or
   * dropped; in both, order is kept and the queue holds the newest. The commands that the
   * fault latch speaks of are exactly those of the caller. The hint tells of an interrupt
   * since the last run.
   */
  lemma EveryHistoryAccounts(
    feedbackCapacity: nat, eventCapacity: nat, maxFeedback: nat, maxEvents: nat, ops: seq<Op>)
    requires feedbackCapacity > 0 && eventCapacity > 0
    ensures var m0 := Initial(feedbackCapacity, eventCapacity, maxFeedback, maxEvents);
            var m := DoAll(m0, ops);
            && BoundedQueue.NewestKept(m.feedback, Samples(ops), SamplesTaken(m0, ops))
            && BoundedQueue.NewestKept(m.events, Raised(ops), ConsumedIds(m.trace))
            && CommandedIn(m.trace) == Commands(ops)
            && m.hint == Woken(false, ops)
            && m.feedback.capacity == feedbackCapacity && m.events.capacity == eventCapacity
            && m.maxFeedback == maxFeedback && m.maxEvents == maxEvents
  {
    hide DoAll, BoundedQueue.NewestKept, Samples, Raised, Commands, SamplesTaken;
    var m0 := Initial(feedbackCapacity, eventCapacity, maxFeedback, maxEvents);
    BoundedQueue.NewestKeptStart<Feedback>(feedbackCapacity);
    BoundedQueue.NewestKeptStart<U16>(eventCapacity);
    HistoryAccounts(m0, ops, [], [], [], []);
    assert [] + Samples(ops) == Samples(ops) && [] + Raised(ops) == Raised(ops);
    assert [] + Commands(ops) == Commands(ops) && [] + SamplesTaken(m0, ops) == SamplesTaken(m0, ops);
  }

  // ------------------------------------------------------------------
  // Without faults
  // ------------------------------------------------------------------

  /** The enable state last commanded, or `enabled` if there was no command. */
  function LastEnable(enabled: bool, ops: seq<Op>): bool
    decreases |ops|
  {
    if ops == [] then enabled
    else LastEnable(if ops[0].SetCommand? then ops[0].enable else enabled, ops[1..])
  }

  ghost predicate NoFaultQueued(m: Motor) {
    m.Ok() && EVENT_FAULT !in m.events.items
  }

  lemma {:induction false} StaysEnabled(m: Motor, ops: seq<Op>)
    requires NoFaultQueued(m) && FaultIrq !in ops
    ensures DoAll(m, ops).enabled == LastEnable(m.enabled, ops)
    decreases |ops|
  {
    hide Do;
    if ops != [] {
      StepStaysEnabled(m, ops[0]);
      StaysEnabled(Do(m, ops[0]), ops[1..]);
    }
  }

  lemma StepStaysEnabled(m: Motor, op: Op)
    requires NoFaultQueued(m) && op != FaultIrq
    ensures NoFaultQueued(Do(m, op))
    ensures Do(m, op).enabled == if op.SetCommand? then op.enable else m.enabled
  {
    hide Run;
    if op.RunOnce? {
      RunEffect(m);
    }
  }

  /** Only faults disable: without a fault interrupt the motor is enabled exactly as last commanded. */
  lemma OnlyFaultsDisable(feedbackCapacity: nat, eventCapacity: nat, maxFeedback: nat, maxEvents: nat, ops: seq<Op>)
    requires feedbackCapacity > 0 && eventCapacity > 0 && FaultIrq !in ops
    ensures DoAll(Initial(feedbackCapacity, eventCapacity, maxFeedback, maxEvents), ops).enabled
            == LastEnable(false, ops)
  {
    StaysEnabled(Initial(feedbackCapacity, eventCapacity, maxFeedback, maxEvents), ops);
  }

  // ------------------------------------------------------------------
  // From the fault interrupt to the disable
  // ------------------------------------------------------------------

  lemma {:induction false} DoAllAppend(m: Motor, a: seq<Op>, b: seq<Op>)
    requires m.Ok()
    ensures DoAll(m, a + b) == DoAll(DoAll(m, a), b)
    decreases |a|
  {
    if a == [] {
      assert a + b == b;
    } else {
      hide Do;
      assert (a + b)[1..] == a[1..] + b;
      DoAllAppend(Do(m, a[0]), a[1..], b);
    }
  }

  /** Right after a fault interrupt its event is the last one queued, with all that still fit before it. */
  lemma FaultIrqQueues(m: Motor)
    requires m.Ok() && m.events.overflow.DropOldest?
    ensures var m' := Do(m, FaultIrq);
            && FaultAt(m', 0) && AheadOf(m', 0) == Min(|m.events.items|, m.events.capacity - 1)
            && m'.maxEvents == m.maxEvents
            && m'.events.capacity == m.events.capacity && m'.events.overflow.DropOldest?
  {
  }

  /**
   * Fault latency from initialisation: whatever came before a fault interrupt, if fewer
   * interrupts than the event capacity follow it meanwhile, then one of the next
   * ceil((p + 1) / budget) runs, p events being queued ahead of it, consumes that very fault
   * and disables the motor.
   */
  lemma FaultInterruptDisablesInTime(
    feedbackCapacity: nat, eventCapacity: nat, maxFeedback: nat, maxEvents: nat, before: seq<Op>, after: seq<Op>)
    returns (j: nat)
    requires feedbackCapacity > 0 && eventCapacity > 0 && maxEvents > 0
    requires var m := DoAll(Initial(feedbackCapacity, eventCapacity, maxFeedback, maxEvents), before);
             RunsNeeded(Min(|m.events.items|, eventCapacity - 1), maxEvents) <= Runs(after)
    requires Pushes(after) < eventCapacity
    ensures j < |after| && after[j].RunOnce?
    ensures var m0 := Initial(feedbackCapacity, eventCapacity, maxFeedback, maxEvents);
            var p := Min(|DoAll(m0, before).events.items|, eventCapacity - 1);
            var m := DoAll(m0, before + [FaultIrq] + after[..j]);
            var m' := DoAll(m0, before + [FaultIrq] + after[..j + 1]);
            && Runs(after[..j]) + 1 <= RunsNeeded(p, maxEvents)
            && FaultAt(m, Pushes(after[..j])) && TookFault(m, Pushes(after[..j]), m')
            && !m'.enabled
  {
    hide DoAll, Do, RunsNeeded, TookFault, BoundedQueue.NewestKept;
    var m0 := Initial(feedbackCapacity, eventCapacity, maxFeedback, maxEvents);
    var m := DoAll(m0, before);
    EveryHistoryAccounts(feedbackCapacity, eventCapacity, maxFeedback, maxEvents, before);
    NewestKeptDropsOldest(m.events, Raised(before), ConsumedIds(m.trace));
    FaultIrqQueues(m);
    var m1 := Do(m, FaultIrq);
    j := FaultDisablesInTime(m1, after, 0);
    AfterIrq(m0, before, after[..j]);
    AfterIrq(m0, before, after[..j + 1]);
    DisabledBy(DoAll(m1, after[..j]), Pushes(after[..j]), DoAll(m1, after[..j + 1]));
  }

  lemma NewestKeptDropsOldest(q: BoundedQueue.Queue<U16>, offered: seq<U16>, taken: seq<U16>)
    requires BoundedQueue.NewestKept(q, offered, taken)
    ensures q.overflow.DropOldest?
  {
  }

  lemma AfterIrq(m0: Motor, before: seq<Op>, after: seq<Op>)
    requires m0.Ok()
    ensures DoAll(m0, before + [FaultIrq] + after) == DoAll(Do(DoAll(m0, before), FaultIrq), after)
  {
    hide Do;
    DoAllAppend(m0, before + [FaultIrq], after);
    DoAllAppend(m0, before, [FaultIrq]);
    var m := DoAll(m0, before);
    assert [FaultIrq][1..] == [];
    assert DoAll(Do(m, FaultIrq), []) == Do(m, FaultIrq);
  }

  lemma DisabledBy(m: Motor, behind: nat, m': Motor)
    requires FaultAt(m, behind) && TookFault(m, behind, m')
    ensures !m'.enabled
  {
  }
}
