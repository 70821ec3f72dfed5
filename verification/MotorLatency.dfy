/** What a run of the motor service consumes and commands, and how soon a queued fault is answered. */
module MotorLatency {
  import opened Arithmetic
  import opened Codec
  import opened MotorModel

  // ------------------------------------------------------------------
  // The trace of a run
  // ------------------------------------------------------------------

  /** The latest command, as sent to the hardware. */
  function Command(enabled: bool, target: U16): seq<Event> {
    [SetEnable(enabled)] + (if enabled then [SetSpeed(target)] else [])
  }

  /** A consumed event with the answer it gets. */
  function Reaction(id: U16): seq<Event> {
    [Consumed(id)] + (if id == EVENT_FAULT then [SetEnable(false)] else [])
  }

  function Reactions(ids: seq<U16>): seq<Event> {
    if ids == [] then [] else Reaction(ids[0]) + Reactions(ids[1..])
  }

  /** The events consumed along a trace, in order. */
  function ConsumedIds(trace: seq<Event>): seq<U16> {
    if trace == [] then []
    else (if trace[0].Consumed? then [trace[0].id] else []) + ConsumedIds(trace[1..])
  }

  lemma ConsumedPrepend(e: Event, trace: seq<Event>)
    ensures ConsumedIds([e] + trace) == (if e.Consumed? then [e.id] else []) + ConsumedIds(trace)
  {
    assert ([e] + trace)[1..] == trace;
  }

  lemma {:induction false} ConsumedAppend(a: seq<Event>, b: seq<Event>)
    ensures ConsumedIds(a + b) == ConsumedIds(a) + ConsumedIds(b)
  {
    hide ConsumedIds;
    if a == [] {
      assert a + b == b && a == [];
      assert ConsumedIds([]) == [] by {
        ConsumedNone();
      }
    } else {
      var head := if a[0].Consumed? then [a[0].id] else [];
      ConsumedAppend(a[1..], b);
      ConsumedPrepend(a[0], a[1..] + b);
      ConsumedPrepend(a[0], a[1..]);
      assert [a[0]] + a[1..] == a;
      assert [a[0]] + (a[1..] + b) == a + b;
      assert head + (ConsumedIds(a[1..]) + ConsumedIds(b)) == head + ConsumedIds(a[1..]) + ConsumedIds(b);
    }
  }

  lemma ConsumedNone()
    ensures ConsumedIds([]) == []
  {
  }

  lemma ConsumedOne(e: Event)
    ensures ConsumedIds([e]) == if e.Consumed? then [e.id] else []
  {
    assert [e][1..] == [];
  }

  lemma ReactionConsumes(id: U16)
    ensures ConsumedIds(Reaction(id)) == [id]
  {
    ConsumedOne(Consumed(id));
    ConsumedOne(SetEnable(false));
    ConsumedAppend([Consumed(id)], if id == EVENT_FAULT then [SetEnable(false)] else []);
  }

  lemma CommandConsumesNothing(enabled: bool, target: U16)
    ensures ConsumedIds(Command(enabled, target)) == []
  {
    ConsumedOne(SetEnable(enabled));
    ConsumedOne(SetSpeed(target));
    ConsumedAppend([SetEnable(enabled)], if enabled then [SetSpeed(target)] else []);
  }

  lemma {:induction false} ReactionsConsume(ids: seq<U16>)
    ensures ConsumedIds(Reactions(ids)) == ids
  {
    if ids != [] {
      ReactionConsumes(ids[0]);
      ReactionsConsume(ids[1..]);
      ConsumedAppend(Reaction(ids[0]), Reactions(ids[1..]));
    }
  }

  lemma {:induction false} ReactionsSplit(ids: seq<U16>, q: nat)
    requires q < |ids|
    ensures Reactions(ids) == Reactions(ids[..q]) + Reaction(ids[q]) + Reactions(ids[q + 1..])
  {
    if q == 0 {
      assert ids[..0] == [];
      assert [] + Reaction(ids[0]) == Reaction(ids[0]);
    } else {
      var rest := ids[1..];
      ReactionsSplit(rest, q - 1);
      assert ids[..q][1..] == rest[..q - 1] && ids[..q][0] == ids[0];
      assert rest[q..] == ids[q + 1..];
      var a, b, c, d := Reaction(ids[0]), Reactions(rest[..q - 1]), Reaction(ids[q]), Reactions(ids[q + 1..]);
      assert a + (b + c + d) == a + b + c + d;
    }
  }

  /** The fields that draining events leaves alone. */
  ghost predicate OnlyEvents(m: Motor, m': Motor) {
    && m'.feedback == m.feedback && m'.target == m.target && m'.hint == m.hint
    && m'.maxEvents == m.maxEvents && m'.maxFeedback == m.maxFeedback
  }

  /** `m'` is `m` after consuming and answering the oldest events `taken`. */
  ghost predicate Drained(m: Motor, taken: seq<U16>, m': Motor) {
    && OnlyEvents(m, m')
    && taken <= m.events.items
    && m'.events == m.events.(items := m.events.items[|taken|..])
    && m'.trace == m.trace + Reactions(taken)
    && m'.enabled == (m.enabled && EVENT_FAULT !in taken)
  }

  lemma DrainedPrepend(m: Motor, taken: seq<U16>, m': Motor)
    requires m.Ok() && m.events.items != []
    requires var id := m.events.items[0];
             Drained(ConsumeEvent(m.(events := BoundedQueue.Pop(m.events).0), id), taken, m')
    ensures Drained(m, [m.events.items[0]] + taken, m')
  {
    hide ConsumeEvent;
    var id := m.events.items[0];
    var all := [id] + taken;
    ConsumeKeepsQueues(m.(events := BoundedQueue.Pop(m.events).0), id);
    assert all[1..] == taken;
    assert m.events.items == [id] + m.events.items[1..];
    assert m'.trace == m.trace + Reaction(id) + Reactions(taken);
  }

  lemma {:induction false} DrainedOldest(m: Motor, n: nat)
    requires m.Ok()
    ensures Drained(m, m.events.items[..Min(n, |m.events.items|)], DrainEvents(m, n))
    decreases n
  {
    hide Drained, ConsumeEvent;
    var taken := m.events.items[..Min(n, |m.events.items|)];
    if taken == [] {
      assert taken == [];
      DrainedNone(m);
    } else {
      var id := m.events.items[0];
      var m1 := ConsumeEvent(m.(events := BoundedQueue.Pop(m.events).0), id);
      ConsumeKeepsQueues(m.(events := BoundedQueue.Pop(m.events).0), id);
      DrainedOldest(m1, n - 1);
      var rest := m1.events.items[..Min(n - 1, |m1.events.items|)];
      DrainedPrepend(m, rest, DrainEvents(m1, n - 1));
      assert taken == [id] + rest;
    }
  }

  lemma DrainedNone(m: Motor)
    ensures Drained(m, [], m)
  {
    assert m.trace + [] == m.trace;
    assert m.events.items[0..] == m.events.items;
  }

  /**
   * The event loop takes the oldest events up to its budget, consumes each of them in order,
   * answers each fault, and no other event, by a disable, and leaves the motor enabled
   * exactly if it was and no fault was among them.
   */
  lemma DrainEffect(m: Motor, n: nat)
    requires m.Ok()
    ensures var m' := DrainEvents(m, n);
            var taken := m.events.items[..Min(n, |m.events.items|)];
            && OnlyEvents(m, m')
            && m'.events == m.events.(items := m.events.items[|taken|..])
            && m'.trace == m.trace + Reactions(taken)
            && ConsumedIds(m'.trace) == ConsumedIds(m.trace) + taken
            && m'.enabled == (m.enabled && EVENT_FAULT !in taken)
  {
    hide DrainEvents, ConsumedIds, Reactions;
    var taken := m.events.items[..Min(n, |m.events.items|)];
    DrainedOldest(m, n);
    ConsumedAppend(m.trace, Reactions(taken));
    ReactionsConsume(taken);
  }

  /** What is queued after the oldest `n` elements of `items`, or all of them, were taken. */
  function Rest<T>(items: seq<T>, n: nat): seq<T> {
    if n <= |items| then items[n..] else []
  }

  /** The events that a run takes from the queue. */
  function Taken(m: Motor): seq<U16> {
    m.events.items[..Min(m.maxEvents, |m.events.items|)]
  }

  /**
   * A whole run: what it leaves in both queues, and exactly what it consumes and commands. It
   * does nothing but clear the hint when there is neither a hint, a sample nor an event.
   */
  lemma RunEffect(m: Motor)
    requires m.Ok()
    ensures var m' := Run(m);
            var work := m.hint || m.feedback.items != [] || m.events.items != [];
            && !m'.hint && m'.maxEvents == m.maxEvents && m'.maxFeedback == m.maxFeedback && m'.target == m.target
            && m'.events == m.events.(items := Rest(m.events.items, m.maxEvents))
            && m'.feedback == m.feedback.(items := Rest(m.feedback.items, m.maxFeedback))
            && m'.enabled == (m.enabled && EVENT_FAULT !in Taken(m))
            && m'.trace == m.trace + (if work then Command(m.enabled, m.target) + Reactions(Taken(m)) else [])
  {
    hide DrainEvents, DrainFeedback, Reactions, Command, ConsumedIds;
    if HasWork(m) {
      var m1 := ApplyCommand(m.(hint := false));
      CommandSent(m.(hint := false));
      hide ApplyCommand;
      DrainEffect(m1, m.maxEvents);
      FeedbackOnlyDrains(DrainEvents(m1, m.maxEvents), m.maxFeedback);
      assert m1.trace + Reactions(Taken(m)) == m.trace + (Command(m.enabled, m.target) + Reactions(Taken(m)));
    } else {
      assert m.trace + [] == m.trace;
      assert m.events.items[0..] == m.events.items;
      assert m.feedback.items[0..] == m.feedback.items;
    }
  }

  lemma CommandSent(m: Motor)
    ensures ApplyCommand(m) == m.(trace := m.trace + Command(m.enabled, m.target))
  {
    assert m.trace + [SetEnable(m.enabled)] + [SetSpeed(m.target)]
           == m.trace + ([SetEnable(m.enabled)] + [SetSpeed(m.target)]);
  }

  /** Right after `before`, the trace sends the command: the enable state, and the speed exactly when enabled. */
  ghost predicate SendsCommand(before: seq<Event>, enabled: bool, target: U16, after: seq<Event>) {
    var at := |before|;
    && at < |after| && after[..at] == before
    && after[at] == SetEnable(enabled)
    && (if enabled then at + 1 < |after| && after[at + 1] == SetSpeed(target)
        else at + 1 < |after| ==> !after[at + 1].SetSpeed?)
  }

  /**
   * A run applies the latest command exactly when there was a hint or something queued, and
   * otherwise sends nothing at all; either way it clears the hint.
   */
  lemma RunActsIffWork(m: Motor)
    requires m.Ok()
    ensures var work := m.hint || m.feedback.items != [] || m.events.items != [];
            && (work <==> SendsCommand(m.trace, m.enabled, m.target, Run(m).trace))
            && (!work ==> Run(m) == m.(hint := false))
            && !Run(m).hint
  {
    RunEffect(m);
    if HasWork(m) {
      hide Run;
      var c, r := Command(m.enabled, m.target), Reactions(Taken(m));
      var t := m.trace + (c + r);
      var at := |m.trace|;
      assert t[at..] == c + r;
      assert t[at] == (c + r)[0] == SetEnable(m.enabled);
      if m.enabled {
        assert t[at + 1] == (c + r)[1] == SetSpeed(m.target);
      } else if at + 1 < |t| {
        assert t[at + 1] == (c + r)[1] == r[0];
        assert r[0].Consumed?;
      }
      assert t[..at] == m.trace;
    }
  }

  /** The motor is commanded to run, then a run with neither hint nor queued work sends nothing. */
  lemma CommandNotApplied()
    ensures Do(Do(Initial(1, 1, 1, 1), SetCommand(true, 100)), RunOnce).trace == [Commanded(true, 100)]
  {
    var m := Do(Initial(1, 1, 1, 1), SetCommand(true, 100));
    assert m.trace == [] + [Commanded(true, 100)];
    RunEffect(m);
  }

  // ------------------------------------------------------------------
  // Latency of one particular fault
  // ------------------------------------------------------------------

  function Runs(ops: seq<Op>): nat {
    if ops == [] then 0 else (if ops[0].RunOnce? then 1 else 0) + Runs(ops[1..])
  }

  function Pushes(ops: seq<Op>): nat {
    if ops == [] then 0
    else (if ops[0].FeedbackIrq? || ops[0].FaultIrq? then 1 else 0) + Pushes(ops[1..])
  }

  /**
   * A fault with `behind` events queued after it. Pops and drops take from the other end, so
   * along a history the number behind, grown by each push, tells one fault from another.
   */
  ghost predicate FaultAt(m: Motor, behind: nat) {
    && behind < |m.events.items|
    && m.events.items[|m.events.items| - 1 - behind] == EVENT_FAULT
  }

  /** How many events are ahead of the one with `behind` events after it. */
  function AheadOf(m: Motor, behind: nat): int {
    |m.events.items| - 1 - behind
  }

  /** The next run takes that very fault. */
  ghost predicate FaultDueNow(m: Motor, behind: nat) {
    FaultAt(m, behind) && AheadOf(m, behind) < m.maxEvents
  }

  /** ceil((p + 1) / budget). */
  function RunsNeeded(p: nat, budget: nat): int
    requires budget > 0
  {
    p / budget + 1
  }

  lemma RunsNeededSteps(p: nat, p': nat, budget: nat)
    requires 0 < budget && p' <= p
    ensures 1 <= RunsNeeded(p', budget) <= RunsNeeded(p, budget)
    ensures p' + budget == p ==> RunsNeeded(p', budget) == RunsNeeded(p, budget) - 1
  {
    QuotientSmall(p', budget);
    QuotientMonotone(p', p, budget);
    QuotientShift(p, budget, 1);
  }

  lemma RunsNeededIsCeiling(p: nat, budget: nat, k: nat)
    requires budget > 0
    ensures RunsNeeded(p, budget) <= k <==> p + 1 <= k * budget
  {
    DivStep(p, budget);
    var n := RunsNeeded(p, budget);
    assert n * budget == p - p % budget + budget;
    assert (k + 1) * budget == k * budget + budget;
    if n <= k {
      ProductOrder(n, k, budget);
    } else {
      ProductOrder(k + 1, n, budget);
    }
  }

  /** A run that does not take the fault brings it nearer by its whole budget. */
  lemma RunApproaches(m: Motor, behind: nat)
    requires m.Ok() && FaultAt(m, behind) && !FaultDueNow(m, behind)
    ensures var m' := Run(m);
            && FaultAt(m', behind) && AheadOf(m', behind) == AheadOf(m, behind) - m.maxEvents
            && m'.maxEvents == m.maxEvents
            && m'.events.capacity == m.events.capacity && m'.events.overflow == m.events.overflow
  {
    RunEffect(m);
  }

  /** Any other step keeps the fault as long as the ring has room for what is pushed behind it. */
  lemma OtherStepKeepsFault(m: Motor, op: Op, behind: nat)
    requires m.Ok() && !op.RunOnce? && FaultAt(m, behind) && m.events.overflow.DropOldest?
    requires behind + Pushes([op]) < m.events.capacity
    ensures var m' := Do(m, op);
            && FaultAt(m', behind + Pushes([op]))
            && 0 <= AheadOf(m', behind + Pushes([op])) <= AheadOf(m, behind)
            && m'.maxEvents == m.maxEvents
            && m'.events.capacity == m.events.capacity && m'.events.overflow == m.events.overflow
  {
    assert Pushes([op]) == (if op.FeedbackIrq? || op.FaultIrq? then 1 else 0) by {
      assert [op][1..] == [];
    }
  }

  /** The run `ops[j]` comes within the bound and takes the fault that had `behind` events after it. */
  ghost predicate TakenBy(m: Motor, ops: seq<Op>, behind: nat, bound: int, j: nat)
    requires m.Ok()
  {
    && j < |ops| && ops[j].RunOnce?
    && Runs(ops[..j]) + 1 <= bound
    && FaultDueNow(DoAll(m, ops[..j]), behind + Pushes(ops[..j]))
  }

  lemma TakenByLater(m: Motor, ops: seq<Op>, behind: nat, bound: int, j: nat)
    requires m.Ok() && ops != []
    requires var op := ops[0];
             TakenBy(Do(m, op), ops[1..], behind + Pushes([op]), bound - Runs([op]), j)
    ensures TakenBy(m, ops, behind, bound, j + 1)
  {
    var op, rest, front := ops[0], ops[1..], ops[..j + 1];
    assert front[0] == op && front[1..] == rest[..j];
    assert [op][1..] == [];
    assert Pushes(front) == Pushes([op]) + Pushes(rest[..j]);
    assert Runs(front) == Runs([op]) + Runs(rest[..j]);
    assert DoAll(m, front) == DoAll(Do(m, op), rest[..j]);
  }

  /**
   * Fault latency: the fault with p events ahead of it is the one taken, by one of the next
   * ceil((p + 1) / budget) runs, provided fewer events than the capacity are queued behind it
   * meanwhile.
   */
  lemma {:induction false} FaultConsumedInTime(m: Motor, ops: seq<Op>, behind: nat) returns (j: nat)
    requires m.Ok() && m.maxEvents > 0 && m.events.overflow.DropOldest? && FaultAt(m, behind)
    requires behind + Pushes(ops) < m.events.capacity
    requires RunsNeeded(AheadOf(m, behind), m.maxEvents) <= Runs(ops)
    ensures TakenBy(m, ops, behind, RunsNeeded(AheadOf(m, behind), m.maxEvents), j)
    decreases |ops|
  {
    hide Do, RunsNeeded, TakenBy;
    var p := AheadOf(m, behind);
    RunsNeededSteps(p, p, m.maxEvents);
    var op, rest := ops[0], ops[1..];
    CountOne(ops);
    if op.RunOnce? && FaultDueNow(m, behind) {
      j := 0;
      TakenNow(m, ops, behind, RunsNeeded(p, m.maxEvents));
    } else {
      var behind' := behind + Pushes([op]);
      if op.RunOnce? {
        RunApproaches(m, behind);
        RunIsDo(m);
      } else {
        OtherStepKeepsFault(m, op, behind);
      }
      var p' := AheadOf(Do(m, op), behind');
      RunsNeededSteps(p, p', m.maxEvents);
      j := FaultConsumedInTime(Do(m, op), rest, behind');
      TakenByWeaken(Do(m, op), rest, behind', RunsNeeded(p', m.maxEvents),
                    RunsNeeded(p, m.maxEvents) - Runs([op]), j);
      TakenByLater(m, ops, behind, RunsNeeded(p, m.maxEvents), j);
      j := j + 1;
    }
  }

  lemma CountOne(ops: seq<Op>)
    requires ops != []
    ensures Pushes(ops) == Pushes([ops[0]]) + Pushes(ops[1..]) && Runs(ops) == Runs([ops[0]]) + Runs(ops[1..])
    ensures Runs([ops[0]]) == if ops[0].RunOnce? then 1 else 0
    ensures ops[0].RunOnce? ==> Pushes([ops[0]]) == 0
  {
    assert [ops[0]][1..] == [];
  }

  lemma TakenNow(m: Motor, ops: seq<Op>, behind: nat, bound: int)
    requires m.Ok() && ops != [] && ops[0].RunOnce? && FaultDueNow(m, behind) && 1 <= bound
    ensures TakenBy(m, ops, behind, bound, 0)
  {
    assert ops[..0] == [];
  }

  lemma TakenByWeaken(m: Motor, ops: seq<Op>, behind: nat, bound: int, bound': int, j: nat)
    requires m.Ok() && TakenBy(m, ops, behind, bound, j) && bound <= bound'
    ensures TakenBy(m, ops, behind, bound', j)
  {
  }

  lemma RunIsDo(m: Motor)
    requires m.Ok()
    ensures Do(m, RunOnce) == Run(m)
  {
  }

  /**
   * From `m` to `m'` the fault with `behind` events after it was consumed: after the command
   * and the answers to the events ahead of it, none of which is this one, it is consumed and
   * answered by a disable; no more than the events behind it stay queued, and the motor is off.
   */
  ghost predicate TookFault(m: Motor, behind: nat, m': Motor)
    requires FaultAt(m, behind)
  {
    var ahead := m.events.items[..AheadOf(m, behind)];
    var at := |m.trace| + |Command(m.enabled, m.target)| + |Reactions(ahead)|;
    && |m'.events.items| <= behind
    && at + 1 < |m'.trace|
    && ConsumedIds(m'.trace[..at]) == ConsumedIds(m.trace) + ahead
    && m'.trace[at] == Consumed(EVENT_FAULT) && m'.trace[at + 1] == SetEnable(false)
    && !m'.enabled
  }

  /** Where a trace consumes the q-th of the events taken. */
  lemma FaultInTrace(trace: seq<Event>, command: seq<Event>, taken: seq<U16>, q: nat)
    requires q < |taken| && taken[q] == EVENT_FAULT && ConsumedIds(command) == []
    ensures var t := trace + (command + Reactions(taken));
            var at := |trace| + |command| + |Reactions(taken[..q])|;
            && at + 1 < |t|
            && ConsumedIds(t[..at]) == ConsumedIds(trace) + taken[..q]
            && t[at] == Consumed(EVENT_FAULT) && t[at + 1] == SetEnable(false)
  {
    hide ConsumedIds, Reactions;
    var ahead, rest := Reactions(taken[..q]), Reactions(taken[q + 1..]);
    ReactionsSplit(taken, q);
    SpliceTrace(trace, command, ahead, Reaction(EVENT_FAULT), rest);
    var before := trace + command + ahead;
    assert (before + Reaction(EVENT_FAULT) + rest)[..|before|] == before;
    ConsumedAppend(trace + command, ahead);
    ConsumedAppend(trace, command);
    ReactionsConsume(taken[..q]);
    assert ConsumedIds(trace) + [] == ConsumedIds(trace);
  }

  lemma DueFaultDisables(m: Motor, behind: nat)
    requires m.Ok() && FaultDueNow(m, behind)
    ensures TookFault(m, behind, Run(m))
  {
    hide Run, ConsumedIds, Reactions, Taken, Command;
    var q := AheadOf(m, behind);
    RunEffect(m);
    TakenAt(m, q);
    CommandConsumesNothing(m.enabled, m.target);
    FaultInTrace(m.trace, Command(m.enabled, m.target), Taken(m), q);
  }

  lemma {:induction false} DoAllSnoc(m: Motor, ops: seq<Op>, j: nat)
    requires m.Ok() && j < |ops|
    ensures DoAll(m, ops[..j + 1]) == Do(DoAll(m, ops[..j]), ops[j])
    decreases j
  {
    hide Do;
    var front := ops[..j + 1];
    assert front[0] == ops[0];
    if j == 0 {
      assert front[1..] == [] && ops[..0] == [];
    } else {
      var rest := ops[1..];
      assert front[1..] == rest[..j] && ops[..j][1..] == rest[..j - 1];
      DoAllSnoc(Do(m, ops[0]), rest, j - 1);
    }
  }

  /**
   * Fault latency up to the hardware: within ceil((p + 1) / budget) runs one of them consumes
   * that fault, with p events ahead of it at first, and disables the motor.
   */
  lemma FaultDisablesInTime(m: Motor, ops: seq<Op>, behind: nat) returns (j: nat)
    requires m.Ok() && m.maxEvents > 0 && m.events.overflow.DropOldest? && FaultAt(m, behind)
    requires behind + Pushes(ops) < m.events.capacity
    requires RunsNeeded(AheadOf(m, behind), m.maxEvents) <= Runs(ops)
    ensures TakenBy(m, ops, behind, RunsNeeded(AheadOf(m, behind), m.maxEvents), j)
    ensures TookFault(DoAll(m, ops[..j]), behind + Pushes(ops[..j]), DoAll(m, ops[..j + 1]))
  {
    hide RunsNeeded, DoAll, TookFault;
    j := FaultConsumedInTime(m, ops, behind);
    DoAllSnoc(m, ops, j);
    DueFaultDisables(DoAll(m, ops[..j]), behind + Pushes(ops[..j]));
  }

  lemma TakenAt(m: Motor, q: nat)
    requires q < |m.events.items| && q < m.maxEvents
    ensures q < |Taken(m)| && Taken(m)[..q] == m.events.items[..q] && Taken(m)[q] == m.events.items[q]
    ensures Taken(m) <= m.events.items
  {
  }

  lemma SpliceTrace(a: seq<Event>, b: seq<Event>, c: seq<Event>, d: seq<Event>, e: seq<Event>)
    ensures a + (b + (c + d + e)) == a + b + c + d + e
  {
  }
}
