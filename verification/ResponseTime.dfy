/**
 * Response-time analysis of the cooperative scheduler: with bounded callbacks, every
 * executed release completes within a bound, and below the period there is no overrun.
 */
module ResponseTime {
  import opened Arithmetic
  import opened Ticks
  import opened SchedulerModel
  import opened CycleOrder
  import opened TickRefinement
  import opened ReleaseAccounting

  // ------------------------------------------------------------------
  // Work of a set of slots
  // ------------------------------------------------------------------

  /** Worst-case ticks of one execution, per slot. */
  type Cost = nat -> nat

  ghost function Total(slots: set<nat>, cost: Cost, n: nat): nat {
    if n == 0 then 0
    else Total(slots, cost, n - 1) + (if n - 1 in slots then cost(n - 1) else 0)
  }

  lemma {:induction false} TotalMonotone(a: set<nat>, b: set<nat>, cost: Cost, n: nat)
    requires a <= b
    ensures Total(a, cost, n) <= Total(b, cost, n)
  {
    if n > 0 {
      TotalMonotone(a, b, cost, n - 1);
    }
  }

  lemma {:induction false} TotalSplit(slots: set<nat>, i: nat, cost: Cost, n: nat)
    requires i in slots
    ensures Total(slots, cost, n) == Total(slots - {i}, cost, n) + (if i < n then cost(i) else 0)
  {
    if n > 0 {
      TotalSplit(slots, i, cost, n - 1);
    }
  }

  ghost function PeriodicSlots(tasks: seq<Task>): set<nat> {
    set i: nat | 0 <= i < |tasks| && tasks[i].Periodic()
  }

  /** The members of `slots` dispatched no later than `i`. */
  ghost function UpTo(tasks: seq<Task>, slots: set<nat>, i: nat): set<nat>
    requires i < |tasks| && forall j :: j in slots ==> j < |tasks|
  {
    set j | j in slots && (j == i || Before(tasks, j, i))
  }

  // ------------------------------------------------------------------
  // One periodic phase
  // ------------------------------------------------------------------

  ghost predicate WithinCost(log: seq<Entry>, cost: Cost) {
    forall k :: 0 <= k < |log| && log[k].periodic ==>
      log[k].completed - log[k].dispatched <= cost(log[k].slot)
  }

  /** Every execution in `log` completes within the work of the waiting slots up to its own. */
  ghost predicate CompletesBy(tasks: seq<Task>, slots: set<nat>, begin: int, cost: Cost, log: seq<Entry>)
    requires forall j :: j in slots ==> j < |tasks|
  {
    forall k :: 0 <= k < |log| ==>
      && log[k].slot < |tasks|
      && log[k].completed <= begin + Total(UpTo(tasks, slots, log[k].slot), cost, |tasks|)
  }

  ghost predicate PhaseInTime(s: State, cost: Cost, out: Outcome) {
    && out.s.now <= s.now + Total(WaitingSlots(s.tasks), cost, |s.tasks|)
    && CompletesBy(s.tasks, WaitingSlots(s.tasks), s.now, cost, out.log)
  }

  lemma {:induction false} PhaseResponse(c: Clock, s: State, snapshot: nat, calls: nat -> Call, k: nat, cost: Cost)
    requires Valid(s) && k <= MAX_TASKS && snapshot <= s.now && |WaitingSlots(s.tasks)| + k <= MAX_TASKS
    requires WithinCost(PeriodicPhase(c, s, snapshot, calls, k).log, cost)
    ensures PhaseInTime(s, cost, PeriodicPhase(c, s, snapshot, calls, k))
    decreases MAX_TASKS - k
  {
    hide Dispatch, SelectPending, PhaseInTime, RanWaiting, WithinCost, WaitingSlots, Ordered, Slots;
    var i := SelectPending(s.tasks, MAX_TASKS);
    if k == MAX_TASKS || i == INVALID_TASK_ID {
      EmptyPhaseInTime(s, cost);
    } else {
      var (s1, e) := Dispatch(c, s, snapshot, i, calls(k));
      var rest := PeriodicPhase(c, s1, snapshot, calls, k + 1);
      DispatchEffect(c, s, snapshot, i, calls(k));
      WaitingAfterDispatch(c, s, snapshot, i, s1);
      WithinCostRest(e, rest.log, cost);
      PhaseResponse(c, s1, snapshot, calls, k + 1, cost);
      PeriodicPhaseRunsWaiting(c, s1, snapshot, calls, k + 1);
      PhaseResponsePrepend(c, s, snapshot, i, s1, e, rest, cost);
    }
  }

  lemma EmptyPhaseInTime(s: State, cost: Cost)
    ensures PhaseInTime(s, cost, Outcome(s, []))
  {
  }

  lemma WithinCostRest(e: Entry, log: seq<Entry>, cost: Cost)
    requires WithinCost([e] + log, cost)
    ensures WithinCost(log, cost)
    ensures e.periodic ==> e.completed - e.dispatched <= cost(e.slot)
  {
    var all := [e] + log;
    assert all[0] == e;
    forall k | 0 <= k < |log| && log[k].periodic
      ensures log[k].completed - log[k].dispatched <= cost(log[k].slot)
    {
      assert all[k + 1] == log[k];
    }
  }

  lemma PhaseResponsePrepend(
    c: Clock, s: State, snapshot: nat, i: nat, s1: State, e: Entry, rest: Outcome, cost: Cost)
    requires Valid(s) && s1.Shape() && rest.s.Shape() && i < MAX_TASKS && s.tasks[i].Waiting()
    requires forall j :: 0 <= j < MAX_TASKS && j != i && s.tasks[j].Waiting() ==> Before(s.tasks, i, j)
    requires Dispatched(c, s, snapshot, i, s1, e)
    requires e.completed - e.dispatched <= cost(i)
    requires RanWaiting(c, s1, snapshot, rest)
    requires PhaseInTime(s1, cost, rest)
    ensures PhaseInTime(s, cost, Outcome(rest.s, [e] + rest.log))
  {
    var waiting := WaitingSlots(s.tasks);
    WaitingAfterDispatch(c, s, snapshot, i, s1);
    TotalSplit(waiting, i, cost, MAX_TASKS);
    var all := [e] + rest.log;
    forall k | 0 <= k < |all|
      ensures all[k].slot < MAX_TASKS
      ensures all[k].completed <= s.now + Total(UpTo(s.tasks, waiting, all[k].slot), cost, MAX_TASKS)
    {
      if k == 0 {
        TotalSplit(UpTo(s.tasks, waiting, i), i, cost, MAX_TASKS);
      } else {
        var f := rest.log[k - 1];
        assert f.slot in Slots(rest.log);
        UpToAfterDispatch(s, s1, i, f.slot);
        TotalSplit(UpTo(s.tasks, waiting, f.slot), i, cost, MAX_TASKS);
      }
    }
  }

  lemma UpToAfterDispatch(s: State, s1: State, i: nat, j: nat)
    requires Valid(s) && s1.Shape() && i < s.count
    requires WaitingSlots(s1.tasks) == WaitingSlots(s.tasks) - {i} && i in WaitingSlots(s.tasks)
    requires j in WaitingSlots(s1.tasks) && Before(s.tasks, i, j)
    requires forall m :: 0 <= m < MAX_TASKS && m < s.count ==> s1.tasks[m].priority == s.tasks[m].priority
    ensures i in UpTo(s.tasks, WaitingSlots(s.tasks), j)
    ensures UpTo(s1.tasks, WaitingSlots(s1.tasks), j) == UpTo(s.tasks, WaitingSlots(s.tasks), j) - {i}
  {
    forall m | m in WaitingSlots(s.tasks)
      ensures m < s.count
    {
      assert SlotOk(s.tasks[m], m < s.count);
    }
  }

  // ------------------------------------------------------------------
  // One cycle
  // ------------------------------------------------------------------

  /** Ticks that can pass from one snapshot to the next: all periodic work, plus `other`. */
  ghost function CycleSpan(tasks: seq<Task>, cost: Cost, other: nat): nat {
    Total(PeriodicSlots(tasks), cost, |tasks|) + other
  }

  /** Work of slot `i` and of every periodic slot dispatched before it. */
  ghost function Interference(tasks: seq<Task>, cost: Cost, i: nat): nat
    requires i < |tasks|
  {
    Total(UpTo(tasks, PeriodicSlots(tasks), i), cost, |tasks|)
  }

  /** One cycle span plus the work dispatched up to task `i` fits in its period. */
  ghost predicate Schedulable(tasks: seq<Task>, cost: Cost, other: nat, i: nat)
    requires i < |tasks|
  {
    CycleSpan(tasks, cost, other) + Interference(tasks, cost, i) <= tasks[i].period
  }

  lemma CycleResponse(s: State, script: Script, cost: Cost)
    requires AtBoundary(s)
    requires WithinCost(PeriodicPart(Unbounded, s, script).log, cost)
    ensures var p := PeriodicPart(Unbounded, s, script);
            var snapshot := s.now + script.arrival;
            && p.s.now <= snapshot + Total(PeriodicSlots(s.tasks), cost, MAX_TASKS)
            && CompletedWithin(s.tasks, snapshot, cost, p.log)
  {
    var m := Snapshot(Unbounded, s, script);
    SnapshotMarksDue(Unbounded, s, script);
    hide PeriodicPhase, Snapshot;
    PhaseResponse(Unbounded, m, m.now, script.calls, 0, cost);
    MarkedInTime(s, m, cost, PeriodicPart(Unbounded, s, script));
  }

  lemma MarkedInTime(s: State, m: State, cost: Cost, out: Outcome)
    requires AtBoundary(s) && m.Shape()
    requires forall i :: 0 <= i < MAX_TASKS ==>
               m.tasks[i] == s.tasks[i].(pending := Due(Unbounded, s.tasks[i], m.now))
    requires PhaseInTime(m, cost, out)
    ensures out.s.now <= m.now + Total(PeriodicSlots(s.tasks), cost, MAX_TASKS)
    ensures CompletedWithin(s.tasks, m.now, cost, out.log)
  {
    assert WaitingSlots(m.tasks) <= PeriodicSlots(s.tasks);
    TotalMonotone(WaitingSlots(m.tasks), PeriodicSlots(s.tasks), cost, MAX_TASKS);
    forall k | 0 <= k < |out.log|
      ensures out.log[k].slot < MAX_TASKS
      ensures out.log[k].completed <= m.now + Interference(s.tasks, cost, out.log[k].slot)
    {
      var j := out.log[k].slot;
      var mine, all := UpTo(m.tasks, WaitingSlots(m.tasks), j), UpTo(s.tasks, PeriodicSlots(s.tasks), j);
      forall x | x in mine
        ensures x in all
      {
        assert m.tasks[x].priority == s.tasks[x].priority;
      }
      TotalMonotone(mine, all, cost, MAX_TASKS);
    }
  }

  // ------------------------------------------------------------------
  // Whole histories
  // ------------------------------------------------------------------

  /**
   * A history with fixed periodic tasks in which every periodic execution stays within its cost
   * and at most `other` ticks pass between the end of a periodic phase and the next snapshot
   * (background work, idling, the main line). `phaseEnd` is when the last phase ended.
   */
  ghost predicate Budgeted(s: State, phaseEnd: int, ops: seq<Op>, cost: Cost, other: nat)
    requires s.Shape()
    decreases |ops|
  {
    ops != [] ==>
      var first := Do(Unbounded, s, ops[0]);
      && PeriodicSlots(first.s.tasks) == PeriodicSlots(s.tasks)
      && (ops[0].Cycle? ==>
            && s.now + ops[0].script.arrival <= phaseEnd + other
            && WithinCost(first.log, cost))
      && Budgeted(first.s, PhaseEndNext(s, phaseEnd, ops[0]), ops[1..], cost, other)
  }

  /** Every planned release is after `seen`, and the next snapshot comes within one cycle span of it. */
  ghost predicate Caught(s: State, seen: int, phaseEnd: int, cost: Cost)
  {
    && (forall i :: 0 <= i < |s.tasks| && s.tasks[i].Periodic() ==> seen < s.tasks[i].nextRelease)
    && phaseEnd <= seen + Total(PeriodicSlots(s.tasks), cost, |s.tasks|)
  }

  /** The response-time bound for one log entry. */
  ghost predicate InTime(tasks: seq<Task>, cost: Cost, other: nat, e: Entry) {
    e.periodic ==>
      && e.slot < |tasks| && tasks[e.slot].Periodic()
      && e.release <= e.dispatched
      && e.completed < e.release + CycleSpan(tasks, cost, other) + Interference(tasks, cost, e.slot)
      && (Schedulable(tasks, cost, other, e.slot) ==> !e.overrun && e.next == e.release + tasks[e.slot].period)
  }

  ghost predicate AllInTime(tasks: seq<Task>, cost: Cost, other: nat, log: seq<Entry>) {
    forall k :: 0 <= k < |log| ==> InTime(tasks, cost, other, log[k])
  }

  lemma EntryInTime(tasks: seq<Task>, snapshot: int, seen: int, e: Entry, cost: Cost, other: nat)
    requires Executed(Unbounded, tasks, snapshot, e) && tasks[e.slot].Periodic()
    requires seen < e.release <= snapshot <= seen + CycleSpan(tasks, cost, other)
    requires e.completed <= snapshot + Interference(tasks, cost, e.slot)
    ensures InTime(tasks, cost, other, e)
  {
    var p := tasks[e.slot].period;
    AdvanceIsFirstAfter(snapshot, e.release, p);
    if Schedulable(tasks, cost, other, e.slot) {
      QuotientSmall(snapshot - e.release, p);
    }
  }

  ghost predicate CompletedWithin(tasks: seq<Task>, snapshot: int, cost: Cost, log: seq<Entry>) {
    forall k :: 0 <= k < |log| ==>
      log[k].slot < |tasks| && log[k].completed <= snapshot + Interference(tasks, cost, log[k].slot)
  }

  lemma PeriodicLogInTime(
    tasks: seq<Task>, snapshot: int, seen: int, log: seq<Entry>, cost: Cost, other: nat)
    requires AllExecuted(Unbounded, tasks, snapshot, log)
    requires Slots(log) == DueSlots(Unbounded, tasks, snapshot)
    requires CompletedWithin(tasks, snapshot, cost, log)
    requires forall i :: 0 <= i < |tasks| && tasks[i].Periodic() ==> seen < tasks[i].nextRelease
    requires snapshot <= seen + CycleSpan(tasks, cost, other)
    ensures AllInTime(tasks, cost, other, log)
  {
    hide CycleSpan, Interference;
    forall k | 0 <= k < |log|
      ensures InTime(tasks, cost, other, log[k])
    {
      var e := log[k];
      assert Executed(Unbounded, tasks, snapshot, e);
      assert e.slot in Slots(log);
      EntryInTime(tasks, snapshot, seen, e, cost, other);
    }
  }

  lemma InTimeAppend(tasks: seq<Task>, cost: Cost, other: nat, a: seq<Entry>, b: seq<Entry>)
    requires AllInTime(tasks, cost, other, a)
    requires AllInTime(tasks, cost, other, b) || forall k :: 0 <= k < |b| ==> !b[k].periodic
    ensures AllInTime(tasks, cost, other, a + b)
  {
    hide CycleSpan, Interference;
    forall k | 0 <= k < |a + b|
      ensures InTime(tasks, cost, other, (a + b)[k])
    {
      if k < |a| {
        assert (a + b)[k] == a[k];
      } else {
        assert (a + b)[k] == b[k - |a|];
      }
    }
  }

  lemma CycleInTime(s: State, script: Script, seen: int, phaseEnd: int, cost: Cost, other: nat)
    requires AtBoundary(s) && Caught(s, seen, phaseEnd, cost)
    requires s.now + script.arrival <= phaseEnd + other
    requires WithinCost(RunCycle(Unbounded, s, script).log, cost)
    ensures AllInTime(s.tasks, cost, other, RunCycle(Unbounded, s, script).log)
    ensures PeriodicPart(Unbounded, s, script).s.now <=
            s.now + script.arrival + Total(PeriodicSlots(s.tasks), cost, MAX_TASKS)
  {
    hide RunCycle, BackgroundStep, PeriodicPart, AllInTime, WithinCost, Total, AllExecuted, Interference;
    hide CompletedWithin, Ordered, Slots, DueSlots, SlotOk;
    var p := PeriodicPart(Unbounded, s, script);
    var b := BackgroundStep(Unbounded, p.s, script.background, script.idle);
    CycleLog(Unbounded, s, script);
    WithinCostPrefix(p.log, b.log, cost);
    CycleResponse(s, script, cost);
    CycleRunsExactlyDue(Unbounded, s, script);
    BackgroundStepEffect(Unbounded, p.s, script.background, script.idle);
    PeriodicLogInTime(s.tasks, s.now + script.arrival, seen, p.log, cost, other);
    InTimeAppend(s.tasks, cost, other, p.log, b.log);
  }

  lemma WithinCostPrefix(a: seq<Entry>, b: seq<Entry>, cost: Cost)
    requires WithinCost(a + b, cost)
    ensures WithinCost(a, cost)
  {
    forall k | 0 <= k < |a| && a[k].periodic
      ensures a[k].completed - a[k].dispatched <= cost(a[k].slot)
    {
      assert (a + b)[k] == a[k];
    }
  }

  /** What a step with fixed periodic tasks leaves of them: everything but the releases. */
  ghost predicate SameTasks(tasks: seq<Task>, tasks': seq<Task>) {
    && |tasks| == |tasks'|
    && forall i :: 0 <= i < |tasks| ==>
         && tasks'[i].Periodic() == tasks[i].Periodic()
         && (tasks[i].Periodic() ==> tasks'[i].priority == tasks[i].priority && tasks'[i].period == tasks[i].period)
  }

  lemma StepSameTasks(s: State, op: Op)
    requires AtBoundary(s) && PeriodicSlots(Do(Unbounded, s, op).s.tasks) == PeriodicSlots(s.tasks)
    ensures SameTasks(s.tasks, Do(Unbounded, s, op).s.tasks)
    ensures op.Main? ==> forall i :: 0 <= i < MAX_TASKS && s.tasks[i].Periodic() ==>
              Do(Unbounded, s, op).s.tasks[i] == s.tasks[i]
    ensures op.Cycle? ==> forall i :: 0 <= i < MAX_TASKS && s.tasks[i].Periodic() ==>
              s.now + op.script.arrival < Do(Unbounded, s, op).s.tasks[i].nextRelease
  {
    hide RunCycle, Act;
    var s' := Do(Unbounded, s, op).s;
    DoKeepsBoundary(Unbounded, s, op);
    match op {
      case Main(a) => ActGrows(Unbounded, s, a);
      case Cycle(script) => CycleEffect(Unbounded, s, script);
    }
    forall i | 0 <= i < MAX_TASKS
      ensures s'.tasks[i].Periodic() == s.tasks[i].Periodic()
      ensures s.tasks[i].Periodic() ==>
                && s'.tasks[i].priority == s.tasks[i].priority && s'.tasks[i].period == s.tasks[i].period
                && (op.Cycle? ==> s.now + op.script.arrival < s'.tasks[i].nextRelease)
    {
      assert SlotOk(s.tasks[i], i < s.count);
      assert i in PeriodicSlots(s'.tasks) <==> i in PeriodicSlots(s.tasks);
      if op.Cycle? && s.tasks[i].Periodic() {
        AdvanceIsFirstAfter(s.now + op.script.arrival, s.tasks[i].nextRelease, s.tasks[i].period);
      }
    }
  }

  lemma SameTasksSameBounds(tasks: seq<Task>, tasks': seq<Task>, cost: Cost, other: nat)
    requires SameTasks(tasks, tasks')
    ensures PeriodicSlots(tasks) == PeriodicSlots(tasks')
    ensures CycleSpan(tasks, cost, other) == CycleSpan(tasks', cost, other)
    ensures forall i :: 0 <= i < |tasks| && tasks[i].Periodic() ==>
              Interference(tasks, cost, i) == Interference(tasks', cost, i)
  {
    forall i | 0 <= i < |tasks| && tasks[i].Periodic()
      ensures Interference(tasks, cost, i) == Interference(tasks', cost, i)
    {
      assert UpTo(tasks, PeriodicSlots(tasks), i) == UpTo(tasks', PeriodicSlots(tasks'), i);
    }
  }

  lemma InTimeTransfers(tasks: seq<Task>, tasks': seq<Task>, cost: Cost, other: nat, log: seq<Entry>)
    requires SameTasks(tasks, tasks') && AllInTime(tasks', cost, other, log)
    ensures AllInTime(tasks, cost, other, log)
  {
    SameTasksSameBounds(tasks, tasks', cost, other);
    hide CycleSpan, Interference;
    forall k | 0 <= k < |log|
      ensures InTime(tasks, cost, other, log[k])
    {
      assert InTime(tasks', cost, other, log[k]);
    }
  }

  /** Where the observation and the end of the last phase are after a step. */
  ghost function SeenNext(s: State, seen: int, op: Op): int {
    if op.Cycle? then s.now + op.script.arrival else seen
  }

  ghost function PhaseEndNext(s: State, phaseEnd: int, op: Op): int
    requires s.Shape()
  {
    if op.Cycle? then PeriodicPart(Unbounded, s, op.script).s.now else phaseEnd
  }

  lemma StepInTime(s: State, seen: int, phaseEnd: int, op: Op, cost: Cost, other: nat)
    requires AtBoundary(s) && Caught(s, seen, phaseEnd, cost)
    requires PeriodicSlots(Do(Unbounded, s, op).s.tasks) == PeriodicSlots(s.tasks)
    requires op.Cycle? ==> s.now + op.script.arrival <= phaseEnd + other
    requires op.Cycle? ==> WithinCost(Do(Unbounded, s, op).log, cost)
    ensures var first := Do(Unbounded, s, op);
            && AtBoundary(first.s)
            && SameTasks(s.tasks, first.s.tasks)
            && AllInTime(s.tasks, cost, other, first.log)
            && Caught(first.s, SeenNext(s, seen, op), PhaseEndNext(s, phaseEnd, op), cost)
  {
    hide RunCycle, PeriodicPart, Total, AllInTime, WithinCost;
    DoKeepsBoundary(Unbounded, s, op);
    StepSameTasks(s, op);
    SameTasksSameBounds(s.tasks, Do(Unbounded, s, op).s.tasks, cost, other);
    if op.Cycle? {
      CycleInTime(s, op.script, seen, phaseEnd, cost, other);
    } else {
      assert AllInTime(s.tasks, cost, other, []) by {
        NothingLate(s.tasks, cost, other);
      }
    }
  }

  lemma NothingLate(tasks: seq<Task>, cost: Cost, other: nat)
    ensures AllInTime(tasks, cost, other, [])
  {
  }

  /**
   * The response-time bound, over every history with fixed periodic tasks and bounded work: each
   * execution completes before its release plus one cycle span plus the work dispatched up
   * to it; if that stays within the period, it never overruns and skips no release.
   */
  lemma {:induction false} EveryExecutionInTime(
    s: State, seen: int, phaseEnd: int, ops: seq<Op>, cost: Cost, other: nat)
    requires AtBoundary(s) && Caught(s, seen, phaseEnd, cost) && Budgeted(s, phaseEnd, ops, cost, other)
    ensures AllInTime(s.tasks, cost, other, DoAll(Unbounded, s, ops).log)
    decreases |ops|
  {
    hide Do, AllInTime, Caught, SameTasks;
    if ops == [] {
      NothingLate(s.tasks, cost, other);
    } else {
      var op := ops[0];
      var first := Do(Unbounded, s, op);
      var rest := DoAll(Unbounded, first.s, ops[1..]);
      StepInTime(s, seen, phaseEnd, op, cost, other);
      EveryExecutionInTime(first.s, SeenNext(s, seen, op), PhaseEndNext(s, phaseEnd, op), ops[1..], cost, other);
      InTimeTransfers(s.tasks, first.s.tasks, cost, other, rest.log);
      InTimeAppend(s.tasks, cost, other, first.log, rest.log);
    }
  }

  /** Under a budget, snapshots follow each other within one cycle span. */
  lemma {:induction false} BudgetedSnapshotsSpaced(
    s: State, seen: int, phaseEnd: int, ops: seq<Op>, cost: Cost, other: nat, gap: int)
    requires AtBoundary(s) && Caught(s, seen, phaseEnd, cost) && Budgeted(s, phaseEnd, ops, cost, other)
    requires CycleSpan(s.tasks, cost, other) <= gap
    ensures Spaced(seen, Snapshots(s, ops), gap)
    decreases |ops|
  {
    hide Do, PeriodicPart, WithinCost, AllInTime, SameTasks, Caught, CycleSpan, SlotOk, Spaced;
    if ops == [] {
      NothingSpaced(seen, gap);
    } else {
      var op := ops[0];
      var first := Do(Unbounded, s, op);
      StepInTime(s, seen, phaseEnd, op, cost, other);
      SameTasksSameBounds(s.tasks, first.s.tasks, cost, other);
      BudgetedSnapshotsSpaced(first.s, SeenNext(s, seen, op), PhaseEndNext(s, phaseEnd, op), ops[1..],
                              cost, other, gap);
      if op.Cycle? {
        NextSnapshotInTime(s, seen, phaseEnd, cost, other);
        SpacedPrepend(seen, s.now + op.script.arrival, Snapshots(first.s, ops[1..]), gap);
      }
    }
  }

  lemma NothingSpaced(seen: int, gap: int)
    ensures Spaced(seen, [], gap)
  {
  }

  lemma NextSnapshotInTime(s: State, seen: int, phaseEnd: int, cost: Cost, other: nat)
    requires s.Shape() && Caught(s, seen, phaseEnd, cost)
    ensures phaseEnd + other <= seen + CycleSpan(s.tasks, cost, other)
  {
  }

  lemma SpacedPrepend(seen: int, snap: nat, rest: seq<nat>, gap: int)
    requires snap <= seen + gap && Spaced(snap, rest, gap)
    ensures Spaced(seen, [snap] + rest, gap)
  {
    var all := [snap] + rest;
    forall j | 0 <= j < |all|
      ensures all[j] <= ObservedBefore(seen, all, j) + gap
    {
      if j > 0 {
        assert all[j] == rest[j - 1] <= ObservedBefore(snap, rest, j - 1) + gap;
      }
    }
  }

  /**
   * Schedulability: over every budgeted history, each nominal release of a schedulable task
   * up to the last snapshot is executed, exactly once.
   */
  lemma SchedulableTaskServesEveryRelease(
    s: State, seen: int, phaseEnd: int, ops: seq<Op>, cost: Cost, other: nat, i: nat)
    requires AtBoundary(s) && Caught(s, seen, phaseEnd, cost) && Budgeted(s, phaseEnd, ops, cost, other)
    requires i < s.count && s.tasks[i].Periodic()
    requires Schedulable(s.tasks, cost, other, i)
    ensures var t := s.tasks[i];
            var snaps := Snapshots(s, ops);
            Runs(DoAll(Unbounded, s, ops).log, i) == ReleasesBefore(t.nextRelease, t.period, snaps, |snaps|)
  {
    hide DoAll, Budgeted, CycleSpan, Interference;
    var t := s.tasks[i];
    BudgetedSnapshotsSpaced(s, seen, phaseEnd, ops, cost, other, t.period);
    SnapshotsAscend(s, ops);
    FrequentObservationsSkipNothing(t.nextRelease, t.period, seen, Snapshots(s, ops));
    ExecutionsVersusReleases(s, ops, i);
  }

  /**
   * On 32-bit ticks: whatever set the tasks up, if the history keeps the half-range rule and
   * is budgeted from then on, no execution of a schedulable task is ever
   * judged an overrun.
   */
  lemma SchedulableTaskNeverOverrunsOnTicks(
    start: nat, setup: seq<Op>, seen: int, phaseEnd: int, ops: seq<Op>, cost: Cost, other: nat)
    requires HistoryOk(Fresh(start), start, setup + ops)
    requires var s := DoAll(Unbounded, Fresh(start), setup).s;
             Caught(s, seen, phaseEnd, cost) && Budgeted(s, phaseEnd, ops, cost, other)
    ensures var first := DoAll(Unbounded, Fresh(start), setup);
            var log := DoAll(Wrapped, Fresh(start), setup + ops).log;
            && |first.log| <= |log|
            && forall k :: |first.log| <= k < |log| && log[k].periodic ==>
                 && log[k].slot < |first.s.tasks|
                 && (Schedulable(first.s.tasks, cost, other, log[k].slot) ==> !log[k].overrun)
  {
    hide DoAll, Budgeted, Caught, HistoryOk, CycleSpan, Interference;
    TicksRefineUnboundedTime(start, setup + ops);
    FreshIsBoundary(start);
    DoAllAppend(Unbounded, Fresh(start), setup, ops);
    ReachableAtBoundary(Unbounded, Fresh(start), setup);
    var first := DoAll(Unbounded, Fresh(start), setup);
    var rest := DoAll(Unbounded, first.s, ops);
    EveryExecutionInTime(first.s, seen, phaseEnd, ops, cost, other);
    var log := WrapLog(first.log + rest.log);
    forall k | |first.log| <= k < |log| && log[k].periodic
      ensures log[k].slot < |first.s.tasks|
      ensures Schedulable(first.s.tasks, cost, other, log[k].slot) ==> !log[k].overrun
    {
      assert InTime(first.s.tasks, cost, other, rest.log[k - |first.log|]);
    }
  }
}
