/**
 * The scheduler on wrapping 32-bit ticks makes the same decisions as the scheduler on
 * unbounded time, over whole histories, as long as the half-range rule is respected.
 */
module TickRefinement {
  import opened Ticks
  import opened SchedulerModel
  import opened CycleOrder

  // ------------------------------------------------------------------
  // The abstraction: forget the high part of every release time
  // ------------------------------------------------------------------

  function WrapTask(t: Task): Task {
    t.(nextRelease := Wrap(t.nextRelease))
  }

  function WrapTasks(tasks: seq<Task>): (w: seq<Task>)
    ensures |w| == |tasks|
    ensures forall i :: 0 <= i < |tasks| ==> w[i] == WrapTask(tasks[i])
  {
    seq(|tasks|, i requires 0 <= i < |tasks| => WrapTask(tasks[i]))
  }

  function WrapState(s: State): (w: State)
    ensures s.Shape() <==> w.Shape()
  {
    s.(tasks := WrapTasks(s.tasks))
  }

  function WrapEntry(e: Entry): Entry {
    e.(release := Wrap(e.release), next := Wrap(e.next))
  }

  function WrapLog(log: seq<Entry>): (w: seq<Entry>)
    ensures |w| == |log|
    ensures forall k :: 0 <= k < |log| ==> w[k] == WrapEntry(log[k])
  {
    seq(|log|, k requires 0 <= k < |log| => WrapEntry(log[k]))
  }

  function WrapOutcome(out: Outcome): Outcome {
    Outcome(WrapState(out.s), WrapLog(out.log))
  }

  lemma WrapLogAppend(a: seq<Entry>, b: seq<Entry>)
    ensures WrapLog(a + b) == WrapLog(a) + WrapLog(b)
  {
  }

  // ------------------------------------------------------------------
  // Choices that never look at a release time
  // ------------------------------------------------------------------

  lemma {:induction false} FirstFreeWraps(tasks: seq<Task>, i: nat)
    requires i <= |tasks|
    ensures FirstFree(WrapTasks(tasks), i) == FirstFree(tasks, i)
    decreases |tasks| - i
  {
    if i < |tasks| {
      FirstFreeWraps(tasks, i + 1);
    }
  }

  lemma {:induction false} SelectPendingWraps(tasks: seq<Task>, n: nat)
    requires n <= |tasks|
    ensures SelectPending(WrapTasks(tasks), n) == SelectPending(tasks, n)
  {
    if n > 0 {
      SelectPendingWraps(tasks, n - 1);
    }
  }

  lemma {:induction false} SelectBackgroundWraps(tasks: seq<Task>, start: nat, offset: nat)
    requires |tasks| == MAX_TASKS && offset <= MAX_TASKS
    ensures SelectBackground(WrapTasks(tasks), start, offset) == SelectBackground(tasks, start, offset)
    decreases MAX_TASKS - offset
  {
    if offset < MAX_TASKS {
      SelectBackgroundWraps(tasks, start, offset + 1);
    }
  }

  lemma ActWraps(s: State, a: Action)
    requires s.Shape()
    ensures Act(Wrapped, WrapState(s), a) == WrapState(Act(Unbounded, s, a))
  {
    if a.Register? {
      FirstFreeWraps(s.tasks, 0);
      var k := FirstFree(s.tasks, 0);
      if k < MAX_TASKS {
        var t := NewTask(Unbounded, s.now, a.request);
        assert NewTask(Wrapped, s.now, a.request) == WrapTask(t);
        assert WrapTasks(s.tasks)[k := WrapTask(t)] == WrapTasks(s.tasks[k := t]);
      }
    }
  }

  lemma {:induction false} PerformWraps(s: State, actions: seq<Action>)
    requires s.Shape()
    ensures Perform(Wrapped, WrapState(s), actions) == WrapState(Perform(Unbounded, s, actions))
    decreases |actions|
  {
    if actions != [] {
      ActWraps(s, actions[0]);
      PerformWraps(Act(Unbounded, s, actions[0]), actions[1..]);
    }
  }

  lemma InvokeWraps(s: State, i: nat, call: Call)
    requires s.Shape() && i < MAX_TASKS
    ensures Invoke(Wrapped, WrapState(s), i, call) == WrapState(Invoke(Unbounded, s, i, call))
  {
    var s1 := s.(now := s.now + call.before);
    var s2 := s1.(stats := s1.stats[i := StartStats(s1.stats[i], s1.now)]);
    PerformWraps(s2, call.actions);
  }

  // ------------------------------------------------------------------
  // One dispatch
  // ------------------------------------------------------------------

  /** A periodic task whose release the half-range comparison can judge at `now`. */
  predicate Judgeable(t: Task, now: int) {
    t.period <= HALF && HalfRange(now, t.nextRelease)
  }

  lemma ReleaseWraps(s: State, snapshot: nat, i: nat)
    requires s.Shape() && i < MAX_TASKS && s.tasks[i].period != 0
    requires Judgeable(s.tasks[i], snapshot)
    ensures Release(Wrapped, WrapState(s), snapshot, i) == WrapState(Release(Unbounded, s, snapshot, i))
    ensures snapshot < Release(Unbounded, s, snapshot, i).tasks[i].nextRelease <= snapshot + HALF
  {
    var t := s.tasks[i];
    AdvanceWraps(snapshot, t.nextRelease, t.period);
    AdvanceIsFirstAfter(snapshot, t.nextRelease, t.period);
    var t' := t.(pending := false, nextRelease := NextRelease(Unbounded, snapshot, t.nextRelease, t.period));
    assert WrapTasks(s.tasks)[i := WrapTask(t')] == WrapTasks(s.tasks[i := t']);
    WrapCongruent(t.nextRelease, 0);
    assert Wrap(Wrap(t.nextRelease)) == Wrap(t.nextRelease);
  }

  lemma ReachedWraps(now: int, target: int)
    requires HalfRange(now, target)
    ensures Reached(Wrapped, now, Wrap(target)) == Reached(Unbounded, now, target)
  {
    WrapCongruent(target, 0);
    ReachedIsOrder(now, target);
  }

  lemma DispatchWraps(s: State, snapshot: nat, i: nat, call: Call)
    requires Valid(s) && i < MAX_TASKS && s.tasks[i].Waiting() && snapshot <= s.now
    requires Judgeable(s.tasks[i], snapshot)
    requires Dispatch(Unbounded, s, snapshot, i, call).0.now < snapshot + HALF
    ensures var (s', e) := Dispatch(Unbounded, s, snapshot, i, call);
            Dispatch(Wrapped, WrapState(s), snapshot, i, call) == (WrapState(s'), WrapEntry(e))
  {
    hide Invoke, Reached, NextRelease, Wrap, SlotOk, OverrunStats;
    var s1 := Release(Unbounded, s, snapshot, i);
    ReleaseWraps(s, snapshot, i);
    InvokeWraps(s1, i, call);
    var s2 := Invoke(Unbounded, s1, i, call);
    DispatchEffect(Unbounded, s, snapshot, i, call);
    var (s', e) := Dispatch(Unbounded, s, snapshot, i, call);
    assert s2.tasks[i] == s1.tasks[i] by {
      assert s'.tasks == s2.tasks;
    }
    ReachedWraps(e.completed, s2.tasks[i].nextRelease);
  }

  // ------------------------------------------------------------------
  // The periodic phase
  // ------------------------------------------------------------------

  predicate WaitingJudgeable(s: State, snapshot: nat) {
    forall i :: 0 <= i < |s.tasks| && s.tasks[i].Waiting() ==> Judgeable(s.tasks[i], snapshot)
  }

  lemma {:induction false} PhaseClockGrows(c: Clock, s: State, snapshot: nat, calls: nat -> Call, k: nat)
    requires Valid(s) && k <= MAX_TASKS
    ensures s.now <= PeriodicPhase(c, s, snapshot, calls, k).s.now
    decreases MAX_TASKS - k
  {
    hide Dispatch, SelectPending;
    var i := SelectPending(s.tasks, MAX_TASKS);
    if k < MAX_TASKS && i != INVALID_TASK_ID {
      DispatchEffect(c, s, snapshot, i, calls(k));
      PhaseClockGrows(c, Dispatch(c, s, snapshot, i, calls(k)).0, snapshot, calls, k + 1);
    }
  }

  lemma WaitingStaysJudgeable(c: Clock, s: State, snapshot: nat, i: nat, s1: State, e: Entry)
    requires Valid(s) && i < MAX_TASKS && s.tasks[i].Waiting() && WaitingJudgeable(s, snapshot)
    requires s1.Shape() && Dispatched(c, s, snapshot, i, s1, e)
    ensures WaitingJudgeable(s1, snapshot)
  {
    forall j | 0 <= j < MAX_TASKS && s1.tasks[j].Waiting()
      ensures Judgeable(s1.tasks[j], snapshot)
    {
      if j < s.count && j != i {
        assert s1.tasks[j] == s.tasks[j];
      }
    }
  }

  lemma {:induction false} PhaseWraps(s: State, snapshot: nat, calls: nat -> Call, k: nat)
    requires Valid(s) && k <= MAX_TASKS && snapshot <= s.now
    requires WaitingJudgeable(s, snapshot)
    requires PeriodicPhase(Unbounded, s, snapshot, calls, k).s.now < snapshot + HALF
    ensures PeriodicPhase(Wrapped, WrapState(s), snapshot, calls, k) ==
            WrapOutcome(PeriodicPhase(Unbounded, s, snapshot, calls, k))
    decreases MAX_TASKS - k
  {
    hide Dispatch, SelectPending;
    SelectPendingWraps(s.tasks, MAX_TASKS);
    var i := SelectPending(s.tasks, MAX_TASKS);
    if k < MAX_TASKS && i != INVALID_TASK_ID {
      var (s1, e) := Dispatch(Unbounded, s, snapshot, i, calls(k));
      DispatchEffect(Unbounded, s, snapshot, i, calls(k));
      PhaseClockGrows(Unbounded, s1, snapshot, calls, k + 1);
      DispatchWraps(s, snapshot, i, calls(k));
      WaitingStaysJudgeable(Unbounded, s, snapshot, i, s1, e);
      PhaseWraps(s1, snapshot, calls, k + 1);
      WrapLogAppend([e], PeriodicPhase(Unbounded, s1, snapshot, calls, k + 1).log);
      assert WrapLog([e]) == [WrapEntry(e)];
    } else {
      assert WrapLog([]) == [];
    }
  }

  // ------------------------------------------------------------------
  // One cycle
  // ------------------------------------------------------------------

  predicate AllJudgeable(s: State, now: int) {
    forall i :: 0 <= i < |s.tasks| && s.tasks[i].Periodic() ==> Judgeable(s.tasks[i], now)
  }

  lemma SnapshotWraps(s: State, script: Script)
    requires AtBoundary(s) && AllJudgeable(s, s.now + script.arrival)
    ensures Snapshot(Wrapped, WrapState(s), script) == WrapState(Snapshot(Unbounded, s, script))
    ensures WaitingJudgeable(Snapshot(Unbounded, s, script), s.now + script.arrival)
  {
    var now := s.now + script.arrival;
    var w := Snapshot(Wrapped, WrapState(s), script);
    var u := Snapshot(Unbounded, s, script);
    forall i | 0 <= i < MAX_TASKS
      ensures w.tasks[i] == WrapTask(u.tasks[i]) && w.stats[i] == u.stats[i]
    {
      if s.tasks[i].Periodic() {
        ReachedWraps(now, s.tasks[i].nextRelease);
      }
    }
    assert w.tasks == WrapTasks(u.tasks);
    assert w.stats == u.stats;
  }

  lemma BackgroundWraps(s: State, call: Call, idle: nat)
    requires s.Shape()
    ensures BackgroundStep(Wrapped, WrapState(s), call, idle) ==
            WrapOutcome(BackgroundStep(Unbounded, s, call, idle))
  {
    hide Invoke, SelectBackground;
    SelectBackgroundWraps(s.tasks, s.cursor, 0);
    var i := SelectBackground(s.tasks, s.cursor, 0);
    var out := BackgroundStep(Unbounded, s, call, idle);
    if i != INVALID_TASK_ID && !s.tasks[i].fn.Null? {
      var s1 := s.(cursor := (i + 1) % MAX_TASKS);
      InvokeWraps(s1, i, call);
      assert WrapLog(out.log) == [WrapEntry(out.log[0])];
    }
    assert BackgroundStep(Wrapped, WrapState(s), call, idle).log == WrapLog(out.log);
  }

  lemma CycleWraps(s: State, script: Script)
    requires AtBoundary(s) && AllJudgeable(s, s.now + script.arrival)
    requires RunCycle(Unbounded, s, script).s.now < s.now + script.arrival + HALF
    ensures RunCycle(Wrapped, WrapState(s), script) == WrapOutcome(RunCycle(Unbounded, s, script))
  {
    var m := Snapshot(Unbounded, s, script);
    SnapshotWraps(s, script);
    SnapshotMarksDue(Unbounded, s, script);
    CycleEffect(Unbounded, s, script);
    PhaseWraps(m, m.now, script.calls, 0);
    var p := PeriodicPart(Unbounded, s, script);
    BackgroundWraps(p.s, script.background, script.idle);
    WrapLogAppend(p.log, BackgroundStep(Unbounded, p.s, script.background, script.idle).log);
  }

  // ------------------------------------------------------------------
  // Whole histories
  // ------------------------------------------------------------------

  /** What the half-range rule asks of a registration. */
  predicate RequestOk(r: Request) {
    r.period <= HALF && r.delay <= HALF
  }

  predicate ActionsOk(actions: seq<Action>) {
    forall k :: 0 <= k < |actions| && actions[k].Register? ==> RequestOk(actions[k].request)
  }

  predicate ScriptOk(script: Script) {
    && ActionsOk(script.background.actions)
    && (forall k: nat :: k < MAX_TASKS ==> ActionsOk(script.calls(k).actions))
  }

  /**
   * The half-range rule for one step: requests stay within 2^31 ticks, once a task is
   * registered a snapshot comes less than 2^31 ticks after the previous observation, and a
   * cycle ends less than 2^31 ticks after its snapshot.
   */
  predicate StepOk(s: State, seen: int, op: Op)
    requires s.Shape()
  {
    match op
    case Main(a) => a.Register? ==> RequestOk(a.request)
    case Cycle(script) =>
      var snapshot := s.now + script.arrival;
      && ScriptOk(script)
      && (s.count > 0 ==> snapshot < seen + HALF)
      && RunCycle(Unbounded, s, script).s.now < snapshot + HALF
  }

  /** The last observation: the last snapshot, or the clock while the table is empty. */
  function SeenAfter(s: State, seen: int, op: Op): int {
    match op
    case Main(a) => if s.count == 0 then s.now else seen
    case Cycle(script) => s.now + script.arrival
  }

  predicate HistoryOk(s: State, seen: int, ops: seq<Op>)
    requires s.Shape()
    decreases |ops|
  {
    ops != [] ==>
      StepOk(s, seen, ops[0]) &&
      HistoryOk(Do(Unbounded, s, ops[0]).s, SeenAfter(s, seen, ops[0]), ops[1..])
  }

  /** From slot `lo` on, each release lies between the last observation and 2^31 ticks from now. */
  ghost predicate WindowFrom(lo: nat, s: State, seen: int) {
    forall i :: lo <= i < |s.tasks| && s.tasks[i].Periodic() ==>
      s.tasks[i].period <= HALF && seen <= s.tasks[i].nextRelease <= s.now + HALF
  }

  lemma ActKeepsWindow(lo: nat, s: State, a: Action, seen: int)
    requires Valid(s) && WindowFrom(lo, s, seen) && seen <= s.now
    requires a.Register? ==> RequestOk(a.request)
    ensures WindowFrom(lo, Act(Unbounded, s, a), seen)
  {
    if a.Register? {
      AddTaskIsDense(Unbounded, s, a.request);
    }
  }

  lemma {:induction false} PerformKeepsWindow(lo: nat, s: State, actions: seq<Action>, seen: int)
    requires Valid(s) && WindowFrom(lo, s, seen) && seen <= s.now && ActionsOk(actions)
    ensures WindowFrom(lo, Perform(Unbounded, s, actions), seen)
    decreases |actions|
  {
    if actions != [] {
      ActKeepsWindow(lo, s, actions[0], seen);
      ActGrows(Unbounded, s, actions[0]);
      PerformKeepsWindow(lo, Act(Unbounded, s, actions[0]), actions[1..], seen);
    }
  }

  lemma InvokeKeepsWindow(lo: nat, s: State, i: nat, call: Call, seen: int)
    requires Valid(s) && i < MAX_TASKS && WindowFrom(lo, s, seen) && seen <= s.now && ActionsOk(call.actions)
    ensures WindowFrom(lo, Invoke(Unbounded, s, i, call), seen)
  {
    var s1 := s.(now := s.now + call.before);
    var s2 := s1.(stats := s1.stats[i := StartStats(s1.stats[i], s1.now)]);
    forall j | 0 <= j < MAX_TASKS
      ensures SlotOk(s2.tasks[j], j < s2.count)
    {
      assert SlotOk(s.tasks[j], j < s.count);
    }
    PerformKeepsWindow(lo, s2, call.actions, seen);
  }

  lemma DispatchKeepsWindow(lo: nat, s: State, snapshot: nat, i: nat, call: Call)
    requires Valid(s) && i < MAX_TASKS && i < lo && s.tasks[i].Waiting()
    requires WindowFrom(lo, s, snapshot) && snapshot <= s.now && ActionsOk(call.actions)
    ensures WindowFrom(lo, Dispatch(Unbounded, s, snapshot, i, call).0, snapshot)
  {
    var s1 := Release(Unbounded, s, snapshot, i);
    forall j | 0 <= j < MAX_TASKS
      ensures SlotOk(s1.tasks[j], j < s1.count)
    {
      assert SlotOk(s.tasks[j], j < s.count);
    }
    InvokeKeepsWindow(lo, s1, i, call, snapshot);
  }

  lemma {:induction false} PhaseKeepsWindow(lo: nat, s: State, snapshot: nat, calls: nat -> Call, k: nat)
    requires Valid(s) && k <= MAX_TASKS && lo <= s.count && snapshot <= s.now
    requires forall i :: lo <= i < MAX_TASKS ==> !s.tasks[i].pending
    requires forall j: nat :: j < MAX_TASKS ==> ActionsOk(calls(j).actions)
    requires WindowFrom(lo, s, snapshot)
    ensures WindowFrom(lo, PeriodicPhase(Unbounded, s, snapshot, calls, k).s, snapshot)
    decreases MAX_TASKS - k
  {
    hide Dispatch, SelectPending;
    var i := SelectPending(s.tasks, MAX_TASKS);
    if k < MAX_TASKS && i != INVALID_TASK_ID {
      assert i < lo;
      var (s1, e) := Dispatch(Unbounded, s, snapshot, i, calls(k));
      DispatchEffect(Unbounded, s, snapshot, i, calls(k));
      DispatchKeepsWindow(lo, s, snapshot, i, calls(k));
      NewSlotsIdle(lo, s, snapshot, i, s1, e);
      PhaseKeepsWindow(lo, s1, snapshot, calls, k + 1);
    }
  }

  lemma NewSlotsIdle(lo: nat, s: State, snapshot: nat, i: nat, s1: State, e: Entry)
    requires s.Shape() && s1.Shape() && i < lo <= s.count && i < MAX_TASKS
    requires Dispatched(Unbounded, s, snapshot, i, s1, e)
    requires forall j :: lo <= j < MAX_TASKS ==> !s.tasks[j].pending
    ensures forall j :: lo <= j < MAX_TASKS ==> !s1.tasks[j].pending
  {
    forall j | lo <= j < MAX_TASKS
      ensures !s1.tasks[j].pending
    {
      assert j < s.count ==> s1.tasks[j] == s.tasks[j];
    }
  }

  lemma BackgroundKeepsWindow(lo: nat, s: State, call: Call, idle: nat, seen: int)
    requires AtBoundary(s) && WindowFrom(lo, s, seen) && seen <= s.now && ActionsOk(call.actions)
    ensures WindowFrom(lo, BackgroundStep(Unbounded, s, call, idle).s, seen)
  {
    var i := SelectBackground(s.tasks, s.cursor, 0);
    if i != INVALID_TASK_ID && !s.tasks[i].fn.Null? {
      var s1 := s.(cursor := (i + 1) % MAX_TASKS);
      forall j | 0 <= j < MAX_TASKS
        ensures SlotOk(s1.tasks[j], j < s1.count)
      {
        assert SlotOk(s.tasks[j], j < s.count);
      }
      InvokeKeepsWindow(lo, s1, i, call, seen);
    }
  }

  /** Slots registered during the cycle are planned after its snapshot. */
  lemma CycleNewSlotsWindow(s: State, script: Script)
    requires AtBoundary(s) && ScriptOk(script)
    ensures WindowFrom(s.count, RunCycle(Unbounded, s, script).s, s.now + script.arrival)
  {
    var m := Snapshot(Unbounded, s, script);
    SnapshotMarksDue(Unbounded, s, script);
    CycleRunsExactlyDue(Unbounded, s, script);
    forall i | s.count <= i < MAX_TASKS
      ensures !m.tasks[i].pending && !m.tasks[i].Periodic()
    {
      assert SlotOk(m.tasks[i], i < m.count);
    }
    PhaseKeepsWindow(s.count, m, m.now, script.calls, 0);
    BackgroundKeepsWindow(s.count, PeriodicPart(Unbounded, s, script).s, script.background, script.idle, m.now);
  }

  lemma CycleTableWindow(s: State, seen: int, snapshot: int, s': State)
    requires AtBoundary(s) && s'.Shape() && WindowFrom(0, s, seen)
    requires CycleTable(Unbounded, s, snapshot, s')
    requires WindowFrom(s.count, s', snapshot)
    ensures WindowFrom(0, s', snapshot)
  {
    forall i | 0 <= i < MAX_TASKS && s'.tasks[i].Periodic()
      ensures s'.tasks[i].period <= HALF && snapshot <= s'.tasks[i].nextRelease <= s'.now + HALF
    {
      if i < s.count {
        AdvanceIsFirstAfter(snapshot, s.tasks[i].nextRelease, s.tasks[i].period);
      }
    }
  }

  lemma CycleKeepsWindow(s: State, script: Script, seen: int)
    requires AtBoundary(s) && WindowFrom(0, s, seen) && ScriptOk(script)
    ensures WindowFrom(0, RunCycle(Unbounded, s, script).s, s.now + script.arrival)
  {
    hide RunCycle;
    CycleNewSlotsWindow(s, script);
    CycleEffect(Unbounded, s, script);
    CycleTableWindow(s, seen, s.now + script.arrival, RunCycle(Unbounded, s, script).s);
  }

  lemma WindowIsJudgeable(s: State, seen: int, now: int)
    requires Valid(s) && WindowFrom(0, s, seen) && s.now <= now
    requires s.count > 0 ==> now < seen + HALF
    ensures AllJudgeable(s, now)
  {
    forall i | 0 <= i < MAX_TASKS && s.tasks[i].Periodic()
      ensures Judgeable(s.tasks[i], now)
    {
      assert SlotOk(s.tasks[i], i < s.count);
    }
  }

  lemma EmptyWindow(s: State, seen: int)
    requires Valid(s) && s.count == 0
    ensures WindowFrom(0, s, seen)
  {
    forall i | 0 <= i < MAX_TASKS
      ensures !s.tasks[i].Periodic()
    {
      assert SlotOk(s.tasks[i], i < s.count);
    }
  }

  lemma StepWraps(s: State, seen: int, op: Op)
    requires AtBoundary(s) && seen <= s.now && WindowFrom(0, s, seen) && StepOk(s, seen, op)
    ensures Do(Wrapped, WrapState(s), op) == WrapOutcome(Do(Unbounded, s, op))
    ensures WindowFrom(0, Do(Unbounded, s, op).s, SeenAfter(s, seen, op))
    ensures SeenAfter(s, seen, op) <= Do(Unbounded, s, op).s.now
  {
    match op
    case Main(a) =>
      ActWraps(s, a);
      assert WrapLog([]) == [];
      if s.count == 0 {
        EmptyWindow(s, s.now);
      }
      ActKeepsWindow(0, s, a, SeenAfter(s, seen, op));
      ActGrows(Unbounded, s, a);
    case Cycle(script) =>
      WindowIsJudgeable(s, seen, s.now + script.arrival);
      CycleWraps(s, script);
      CycleKeepsWindow(s, script, seen);
      CycleEffect(Unbounded, s, script);
  }

  /**
   * Along every history that keeps the half-range rule, the 32-bit scheduler and the one on
   * unbounded time take the same steps: same executions in the same order at the same times,
   * same overrun verdicts, same statistics, same table; each 32-bit release is the unbounded
   * one modulo 2^32.
   */
  lemma {:induction false} HistoryWraps(s: State, seen: int, ops: seq<Op>)
    requires AtBoundary(s) && seen <= s.now && WindowFrom(0, s, seen)
    requires HistoryOk(s, seen, ops)
    ensures DoAll(Wrapped, WrapState(s), ops) == WrapOutcome(DoAll(Unbounded, s, ops))
    decreases |ops|
  {
    if ops == [] {
      assert WrapLog([]) == [];
    } else {
      var first := Do(Unbounded, s, ops[0]);
      var rest := DoAll(Unbounded, first.s, ops[1..]);
      DoKeepsBoundary(Unbounded, s, ops[0]);
      StepWraps(s, seen, ops[0]);
      HistoryWraps(first.s, SeenAfter(s, seen, ops[0]), ops[1..]);
      WrapLogAppend(first.log, rest.log);
    }
  }

  /** The refinement from initialisation on. */
  lemma TicksRefineUnboundedTime(start: nat, ops: seq<Op>)
    requires HistoryOk(Fresh(start), start, ops)
    ensures DoAll(Wrapped, Fresh(start), ops) == WrapOutcome(DoAll(Unbounded, Fresh(start), ops))
  {
    var s := Fresh(start);
    FreshIsBoundary(start);
    assert WrapState(s) == s by {
      assert WrapTasks(s.tasks) == s.tasks;
    }
    HistoryWraps(s, start, ops);
  }
}
