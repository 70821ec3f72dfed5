/**
 * The slot table in every reachable state, and what one cycle executes: exactly the tasks
 * due at its snapshot, each once, in dispatch order. Both hold for either clock.
 */
module CycleOrder {
  import opened SchedulerModel

  // ------------------------------------------------------------------
  // Slot table invariant
  // ------------------------------------------------------------------

  ghost predicate SlotOk(t: Task, registered: bool) {
    && t.inUse == registered
    && (registered ==> t.enabled && !t.fn.Null?)
    && (t.pending ==> t.Periodic())
  }

  /** Registered slots form a dense prefix; only periodic slots can be pending. */
  ghost predicate Valid(s: State) {
    && s.Shape()
    && s.count <= MAX_TASKS
    && s.cursor < MAX_TASKS
    && forall i :: 0 <= i < MAX_TASKS ==> SlotOk(s.tasks[i], i < s.count)
  }

  /** A state between two cycles: valid, and nothing is pending. */
  ghost predicate AtBoundary(s: State) {
    && Valid(s)
    && forall i :: 0 <= i < MAX_TASKS ==> !s.tasks[i].pending
  }

  /** `s'` differs from `s` only by later time, further registered slots and statistics. */
  ghost predicate Grows(s: State, s': State)
    requires s.Shape() && s'.Shape()
  {
    && s.count <= s'.count
    && s.now <= s'.now
    && s.cursor == s'.cursor
    && (forall i :: 0 <= i < MAX_TASKS && i < s.count ==> s'.tasks[i] == s.tasks[i])
    && (forall i :: 0 <= i < MAX_TASKS && s.count <= i ==> !s'.tasks[i].pending)
  }

  /** Initialisation frees every slot, clears every statistic and puts the cursor at the first slot. */
  lemma FreshIsBoundary(now: nat)
    ensures AtBoundary(Fresh(now))
    ensures Fresh(now).count == 0 && Fresh(now).cursor == 0 && Fresh(now).now == now
    ensures forall i :: 0 <= i < MAX_TASKS ==>
              && Fresh(now).tasks[i] == Task(Null, 0, 0, 0, 65535, false, false, false)
              && Fresh(now).stats[i] == Stats(0, 0, 0, 0, 0, 0, 0, 0)
  {
  }

  /**
   * Registration hands out dense ids: it fails only for a null callback or a full table,
   * and the search for a free slot never comes back empty-handed.
   */
  lemma AddTaskIsDense(c: Clock, s: State, r: Request)
    requires Valid(s)
    ensures var (s', id) := AddTask(c, s, r);
            && Valid(s')
            && Grows(s, s')
            && id == (if r.fn.Null? then ERR_INVALID_ARG
                      else if s.count == MAX_TASKS then ERR_NO_SPACE
                      else s.count)
            && (id < 0 ==> s' == s)
            && (0 <= id ==> id == s.count && s'.count == s.count + 1 &&
                            s'.tasks == s.tasks[id := Task(r.fn, r.ctx, r.period, Stamp(c, s.now + r.delay),
                                                           r.priority, true, false, true)] &&
                            s'.stats == s.stats[id := EMPTY_STATS])
  {
    var k := FirstFree(s.tasks, 0);
    assert s.count < MAX_TASKS ==> SlotOk(s.tasks[s.count], false);
    assert k < MAX_TASKS ==> SlotOk(s.tasks[k], k < s.count);
    var s' := AddTask(c, s, r).0;
    forall i | 0 <= i < MAX_TASKS
      ensures SlotOk(s'.tasks[i], i < s'.count)
    {
      assert SlotOk(s.tasks[i], i < s.count);
    }
  }

  lemma ActGrows(c: Clock, s: State, a: Action)
    requires Valid(s)
    ensures Valid(Act(c, s, a)) && Grows(s, Act(c, s, a))
  {
    if a.Register? {
      AddTaskIsDense(c, s, a.request);
    } else {
      var s' := Act(c, s, a);
      forall i | 0 <= i < MAX_TASKS
        ensures SlotOk(s'.tasks[i], i < s'.count)
      {
        assert SlotOk(s.tasks[i], i < s.count);
      }
    }
  }

  lemma {:induction false} PerformGrows(c: Clock, s: State, actions: seq<Action>)
    requires Valid(s)
    ensures Valid(Perform(c, s, actions)) && Grows(s, Perform(c, s, actions))
    decreases |actions|
  {
    if actions == [] {
      forall i | 0 <= i < MAX_TASKS && s.count <= i
        ensures !s.tasks[i].pending
      {
        assert SlotOk(s.tasks[i], false);
      }
    } else {
      ActGrows(c, s, actions[0]);
      PerformGrows(c, Act(c, s, actions[0]), actions[1..]);
    }
  }

  lemma InvokeGrows(c: Clock, s: State, i: nat, call: Call)
    requires Valid(s) && i < MAX_TASKS
    ensures Valid(Invoke(c, s, i, call)) && Grows(s, Invoke(c, s, i, call))
    ensures s.now + call.before <= Invoke(c, s, i, call).now
  {
    var s1 := s.(now := s.now + call.before);
    var s2 := s1.(stats := s1.stats[i := StartStats(s1.stats[i], s1.now)]);
    assert Valid(s2) by {
      forall j | 0 <= j < MAX_TASKS
        ensures SlotOk(s2.tasks[j], j < s2.count)
      {
        assert SlotOk(s.tasks[j], j < s.count);
      }
    }
    PerformGrows(c, s2, call.actions);
    var s3 := Perform(c, s2, call.actions);
    var s4 := Invoke(c, s, i, call);
    assert s4.tasks == s3.tasks;
    forall j | 0 <= j < MAX_TASKS
      ensures SlotOk(s4.tasks[j], j < s4.count)
    {
      assert SlotOk(s3.tasks[j], j < s3.count);
    }
  }

  // ------------------------------------------------------------------
  // One dispatch
  // ------------------------------------------------------------------

  function ReleasedTask(c: Clock, t: Task, snapshot: nat): Task {
    t.(pending := false, nextRelease := NextRelease(c, snapshot, t.nextRelease, t.period))
  }

  /** Slot `i` of `s` was released and executed, giving `s1` and the log entry `e`. */
  ghost predicate Dispatched(c: Clock, s: State, snapshot: nat, i: nat, s1: State, e: Entry)
    requires s.Shape() && s1.Shape() && i < MAX_TASKS
  {
    && Valid(s1)
    && i < s.count
    && Grows(s.(tasks := s.tasks[i := ReleasedTask(c, s.tasks[i], snapshot)]), s1)
    && e.periodic && e.slot == i && e.fn == s.tasks[i].fn && e.ctx == s.tasks[i].ctx
    && e.release == s.tasks[i].nextRelease
    && e.next == NextRelease(c, snapshot, e.release, s.tasks[i].period)
    && e.dispatched == s.now && e.completed == s1.now
    && e.dispatched <= e.started <= e.ended <= e.completed
    && e.overrun == Reached(c, e.completed, e.next)
  }

  lemma DispatchEffect(c: Clock, s: State, snapshot: nat, i: nat, call: Call)
    requires Valid(s) && i < MAX_TASKS && s.tasks[i].Waiting()
    ensures Dispatched(c, s, snapshot, i, Dispatch(c, s, snapshot, i, call).0, Dispatch(c, s, snapshot, i, call).1)
  {
    assert SlotOk(s.tasks[i], i < s.count);
    var s1 := Release(c, s, snapshot, i);
    forall j | 0 <= j < MAX_TASKS
      ensures SlotOk(s1.tasks[j], j < s1.count)
    {
      assert SlotOk(s.tasks[j], j < s.count);
    }
    InvokeGrows(c, s1, i, call);
    var s2 := Invoke(c, s1, i, call);
    var s' := Dispatch(c, s, snapshot, i, call).0;
    forall j | 0 <= j < MAX_TASKS
      ensures SlotOk(s'.tasks[j], j < s'.count)
    {
      assert SlotOk(s2.tasks[j], j < s2.count);
    }
  }

  // ------------------------------------------------------------------
  // The periodic phase
  // ------------------------------------------------------------------

  ghost function WaitingSlots(tasks: seq<Task>): set<nat> {
    set i: nat | 0 <= i < |tasks| && tasks[i].Waiting()
  }

  ghost function Slots(log: seq<Entry>): set<nat> {
    set k | 0 <= k < |log| :: log[k].slot
  }

  ghost predicate Ordered(tasks: seq<Task>, log: seq<Entry>) {
    && (forall k :: 0 <= k < |log| ==> log[k].slot < |tasks|)
    && forall j, k :: 0 <= j < k < |log| ==> Before(tasks, log[j].slot, log[k].slot)
  }

  lemma {:induction false} SlotSetBound(n: nat, slots: set<nat>)
    requires forall i :: i in slots ==> i < n
    ensures |slots| <= n
  {
    if n > 0 {
      SlotSetBound(n - 1, slots - {n - 1});
    } else {
      assert slots == {};
    }
  }

  /** `s'` is `s` with exactly the waiting slots released, plus growth. */
  ghost predicate AllReleased(c: Clock, s: State, snapshot: nat, s': State)
    requires s.Shape() && s'.Shape()
  {
    && s.count <= s'.count
    && s.now <= s'.now
    && s.cursor == s'.cursor
    && (forall i :: 0 <= i < MAX_TASKS && i < s.count ==>
          s'.tasks[i] == if s.tasks[i].Waiting() then ReleasedTask(c, s.tasks[i], snapshot) else s.tasks[i])
  }

  /** A log entry tells the execution of its slot: callback, context, the release served and the one planned. */
  ghost predicate Executed(c: Clock, tasks: seq<Task>, snapshot: int, e: Entry) {
    && e.periodic && e.slot < |tasks| && e.fn == tasks[e.slot].fn && e.ctx == tasks[e.slot].ctx
    && e.release == tasks[e.slot].nextRelease
    && e.next == NextRelease(c, snapshot, e.release, tasks[e.slot].period)
    && snapshot <= e.dispatched <= e.started <= e.ended <= e.completed
    && e.overrun == Reached(c, e.completed, e.next)
  }

  ghost predicate AllExecuted(c: Clock, tasks: seq<Task>, snapshot: int, log: seq<Entry>) {
    forall k :: 0 <= k < |log| ==> Executed(c, tasks, snapshot, log[k])
  }

  lemma ExecutedPrepend(c: Clock, s: State, snapshot: nat, i: nat, s1: State, e: Entry, log: seq<Entry>)
    requires Valid(s) && s1.Shape() && i < MAX_TASKS && snapshot <= s.now
    requires Dispatched(c, s, snapshot, i, s1, e)
    requires Slots(log) == WaitingSlots(s.tasks) - {i}
    requires AllExecuted(c, s1.tasks, snapshot, log)
    ensures AllExecuted(c, s.tasks, snapshot, [e] + log)
  {
    var all := [e] + log;
    forall k | 0 <= k < |all|
      ensures Executed(c, s.tasks, snapshot, all[k])
    {
      if k > 0 {
        assert all[k] == log[k - 1];
        var j := all[k].slot;
        assert j in Slots(log);
        assert SlotOk(s.tasks[j], j < s.count);
        assert s1.tasks[j] == s.tasks[j];
      }
    }
  }

  /** The phase's result, from a state with some slots waiting. */
  ghost predicate RanWaiting(c: Clock, s: State, snapshot: nat, out: Outcome)
    requires s.Shape() && out.s.Shape()
  {
    && AtBoundary(out.s)
    && AllReleased(c, s, snapshot, out.s)
    && Ordered(s.tasks, out.log)
    && Slots(out.log) == WaitingSlots(s.tasks)
    && AllExecuted(c, s.tasks, snapshot, out.log)
  }

  lemma RanWaitingPrepend(c: Clock, s: State, snapshot: nat, i: nat, s1: State, e: Entry, rest: Outcome)
    requires Valid(s) && s1.Shape() && rest.s.Shape() && i < MAX_TASKS && s.tasks[i].Waiting()
    requires snapshot <= s.now
    requires forall j :: 0 <= j < MAX_TASKS && j != i && s.tasks[j].Waiting() ==> Before(s.tasks, i, j)
    requires Dispatched(c, s, snapshot, i, s1, e)
    requires RanWaiting(c, s1, snapshot, rest)
    ensures RanWaiting(c, s, snapshot, Outcome(rest.s, [e] + rest.log))
  {
    WaitingAfterDispatch(c, s, snapshot, i, s1);
    assert Slots([e] + rest.log) == WaitingSlots(s.tasks) by {
      PrependSlots(e, rest.log);
    }
    assert Ordered(s.tasks, [e] + rest.log) by {
      OrderedPrepend(s, s1, i, e, rest.log);
    }
    assert AllReleased(c, s, snapshot, rest.s) by {
      ReleasedPrepend(c, s, snapshot, i, s1, rest.s);
    }
    assert AllExecuted(c, s.tasks, snapshot, [e] + rest.log) by {
      ExecutedPrepend(c, s, snapshot, i, s1, e, rest.log);
    }
  }

  /**
   * However the callbacks behave, the dispatch loop runs each waiting slot exactly once, in
   * dispatch order, and stops with nothing pending: as long as the iterations left cover the
   * waiting slots, the bound of the loop is never what stops it.
   */
  lemma {:induction false} PeriodicPhaseRunsWaiting(c: Clock, s: State, snapshot: nat, calls: nat -> Call, k: nat)
    requires Valid(s) && k <= MAX_TASKS && snapshot <= s.now
    requires |WaitingSlots(s.tasks)| + k <= MAX_TASKS
    ensures RanWaiting(c, s, snapshot, PeriodicPhase(c, s, snapshot, calls, k))
    decreases MAX_TASKS - k
  {
    hide Dispatch, SelectPending, RanWaiting;
    var i := SelectPending(s.tasks, MAX_TASKS);
    if i == INVALID_TASK_ID {
      NothingWaiting(c, s, snapshot);
    } else {
      assert i in WaitingSlots(s.tasks);
      var (s1, e) := Dispatch(c, s, snapshot, i, calls(k));
      DispatchEffect(c, s, snapshot, i, calls(k));
      WaitingAfterDispatch(c, s, snapshot, i, s1);
      PeriodicPhaseRunsWaiting(c, s1, snapshot, calls, k + 1);
      RanWaitingPrepend(c, s, snapshot, i, s1, e, PeriodicPhase(c, s1, snapshot, calls, k + 1));
    }
  }

  lemma NothingWaiting(c: Clock, s: State, snapshot: nat)
    requires Valid(s) && forall i :: 0 <= i < MAX_TASKS ==> !s.tasks[i].Waiting()
    ensures RanWaiting(c, s, snapshot, Outcome(s, []))
  {
    assert WaitingSlots(s.tasks) == {};
    assert Slots([]) == {};
    forall j | 0 <= j < MAX_TASKS
      ensures !s.tasks[j].pending
    {
      assert SlotOk(s.tasks[j], j < s.count);
    }
  }

  lemma ReleasedPrepend(c: Clock, s: State, snapshot: nat, i: nat, s1: State, s': State)
    requires Valid(s) && Valid(s1) && s'.Shape() && i < s.count && s.tasks[i].Waiting()
    requires Grows(s.(tasks := s.tasks[i := ReleasedTask(c, s.tasks[i], snapshot)]), s1)
    requires AllReleased(c, s1, snapshot, s')
    ensures AllReleased(c, s, snapshot, s')
  {
  }

  lemma WaitingAfterDispatch(c: Clock, s: State, snapshot: nat, i: nat, s1: State)
    requires Valid(s) && Valid(s1) && i < s.count && s.tasks[i].Waiting()
    requires Grows(s.(tasks := s.tasks[i := ReleasedTask(c, s.tasks[i], snapshot)]), s1)
    ensures WaitingSlots(s1.tasks) == WaitingSlots(s.tasks) - {i} && i in WaitingSlots(s.tasks)
  {
    forall j: nat | j < MAX_TASKS
      ensures s1.tasks[j].Waiting() <==> j != i && s.tasks[j].Waiting()
    {
      assert SlotOk(s.tasks[j], j < s.count);
    }
    assert i in WaitingSlots(s.tasks);
  }

  lemma PrependSlots(e: Entry, log: seq<Entry>)
    ensures Slots([e] + log) == {e.slot} + Slots(log)
  {
    var all := [e] + log;
    assert all[0] == e;
    forall k | 0 <= k < |log|
      ensures log[k].slot in Slots(all)
    {
      assert all[k + 1] == log[k];
    }
  }

  lemma OrderedPrepend(s: State, s1: State, i: nat, e: Entry, log: seq<Entry>)
    requires Valid(s) && s1.Shape() && i < MAX_TASKS && e.slot == i
    requires forall j :: 0 <= j < MAX_TASKS && j < s.count ==> s1.tasks[j].priority == s.tasks[j].priority
    requires Ordered(s1.tasks, log)
    requires Slots(log) == WaitingSlots(s.tasks) - {i}
    requires forall j :: 0 <= j < MAX_TASKS && j != i && s.tasks[j].Waiting() ==> Before(s.tasks, i, j)
    ensures Ordered(s.tasks, [e] + log)
  {
    var all := [e] + log;
    forall k | 0 <= k < |log|
      ensures log[k].slot < s.count && log[k].slot != i && Before(s.tasks, i, log[k].slot)
    {
      assert log[k].slot in Slots(log);
      assert SlotOk(s.tasks[log[k].slot], log[k].slot < s.count);
    }
    forall j, k | 0 <= j < k < |all|
      ensures Before(s.tasks, all[j].slot, all[k].slot)
    {
      assert all[k] == log[k - 1];
      if j > 0 {
        assert all[j] == log[j - 1];
        assert Before(s1.tasks, log[j - 1].slot, log[k - 1].slot);
      }
    }
  }

  // ------------------------------------------------------------------
  // The cycle
  // ------------------------------------------------------------------

  ghost function DueSlots(c: Clock, tasks: seq<Task>, now: int): set<nat> {
    set i: nat | 0 <= i < |tasks| && Due(c, tasks[i], now)
  }

  lemma SnapshotMarksDue(c: Clock, s: State, script: Script)
    requires AtBoundary(s)
    ensures var m := Snapshot(c, s, script);
            && Valid(m)
            && m.stats == s.stats && m.count == s.count && m.cursor == s.cursor
            && WaitingSlots(m.tasks) == DueSlots(c, s.tasks, m.now)
            && |WaitingSlots(m.tasks)| <= MAX_TASKS
            && forall i :: 0 <= i < MAX_TASKS ==>
                 m.tasks[i] == s.tasks[i].(pending := Due(c, s.tasks[i], m.now))
  {
    var m := Snapshot(c, s, script);
    forall i | 0 <= i < MAX_TASKS
      ensures SlotOk(m.tasks[i], i < m.count)
    {
      assert SlotOk(s.tasks[i], i < s.count);
    }
    SlotSetBound(MAX_TASKS, WaitingSlots(m.tasks));
  }

  /** The periodic part of a cycle's log, and the state it leaves to the background step. */
  function PeriodicPart(c: Clock, s: State, script: Script): (out: Outcome)
    requires s.Shape()
    ensures out.s.Shape()
  {
    var m := Snapshot(c, s, script);
    PeriodicPhase(c, m, m.now, script.calls, 0)
  }

  lemma CycleLog(c: Clock, s: State, script: Script)
    requires s.Shape()
    ensures var p := PeriodicPart(c, s, script);
            RunCycle(c, s, script).log == p.log + BackgroundStep(c, p.s, script.background, script.idle).log
  {
    hide PeriodicPhase, BackgroundStep;
  }

  /**
   * One cycle, from any state between cycles and for any behaviour of the callbacks: the
   * periodic executions are exactly the tasks due at the snapshot, each once, in strictly
   * increasing (priority, slot) order; each entry names the release it served and judges its
   * overrun against the one planned; and the table changes in those releases only.
   */
  lemma CycleRunsExactlyDue(c: Clock, s: State, script: Script)
    requires AtBoundary(s)
    ensures var p := PeriodicPart(c, s, script);
            var snapshot := s.now + script.arrival;
            && AtBoundary(p.s)
            && Slots(p.log) == DueSlots(c, s.tasks, snapshot)
            && Ordered(s.tasks, p.log)
            && s.count <= p.s.count && s.cursor == p.s.cursor && snapshot <= p.s.now
            && AllExecuted(c, s.tasks, snapshot, p.log)
            && (forall i :: 0 <= i < MAX_TASKS && i < s.count ==>
                  p.s.tasks[i] == if Due(c, s.tasks[i], snapshot) then ReleasedTask(c, s.tasks[i], snapshot)
                                  else s.tasks[i])
  {
    hide PeriodicPhase, MarkReady;
    SnapshotMarksDue(c, s, script);
    var m := Snapshot(c, s, script);
    PeriodicPhaseRunsWaiting(c, m, m.now, script.calls, 0);
    var p := PeriodicPart(c, s, script);
    ReleasedFromMarked(c, s, m, p.s);
    OrderTransfers(m.tasks, s.tasks, p.log);
    assert AllExecuted(c, s.tasks, m.now, p.log) by {
      ExecutedTransfers(c, m.tasks, s.tasks, m.now, p.log);
    }
  }

  lemma ReleasedFromMarked(c: Clock, s: State, m: State, s': State)
    requires AtBoundary(s) && m.Shape() && s'.Shape() && m.count == s.count
    requires forall i :: 0 <= i < MAX_TASKS ==>
               m.tasks[i] == s.tasks[i].(pending := Due(c, s.tasks[i], m.now))
    requires AllReleased(c, m, m.now, s')
    ensures forall i :: 0 <= i < MAX_TASKS && i < s.count ==>
              s'.tasks[i] == if Due(c, s.tasks[i], m.now) then ReleasedTask(c, s.tasks[i], m.now)
                             else s.tasks[i]
  {
    forall i | 0 <= i < MAX_TASKS && i < s.count
      ensures s'.tasks[i] == if Due(c, s.tasks[i], m.now) then ReleasedTask(c, s.tasks[i], m.now)
                             else s.tasks[i]
    {
      assert !s.tasks[i].pending;
    }
  }

  lemma ExecutedTransfers(c: Clock, tasks: seq<Task>, tasks': seq<Task>, snapshot: int, log: seq<Entry>)
    requires |tasks| == |tasks'|
    requires forall i :: 0 <= i < |tasks| ==>
               tasks'[i] == tasks[i].(pending := tasks'[i].pending)
    requires AllExecuted(c, tasks, snapshot, log)
    ensures AllExecuted(c, tasks', snapshot, log)
  {
    forall k | 0 <= k < |log|
      ensures Executed(c, tasks', snapshot, log[k])
    {
      assert Executed(c, tasks, snapshot, log[k]);
    }
  }

  lemma OrderTransfers(tasks: seq<Task>, tasks': seq<Task>, log: seq<Entry>)
    requires |tasks| == |tasks'|
    requires forall i :: 0 <= i < |tasks| ==> tasks[i].priority == tasks'[i].priority
    requires Ordered(tasks, log)
    ensures Ordered(tasks', log)
  {
    forall j, k | 0 <= j < k < |log|
      ensures Before(tasks', log[j].slot, log[k].slot)
    {
      assert Before(tasks, log[j].slot, log[k].slot);
    }
  }

  /** No slot occurs twice among the periodic executions of one cycle. */
  lemma CycleRunsEachOnce(c: Clock, s: State, script: Script)
    requires AtBoundary(s)
    ensures var log := PeriodicPart(c, s, script).log;
            forall j, k :: 0 <= j < k < |log| ==> log[j].slot != log[k].slot
  {
    CycleRunsExactlyDue(c, s, script);
    var log := PeriodicPart(c, s, script).log;
    forall j, k | 0 <= j < k < |log|
      ensures log[j].slot != log[k].slot
    {
      assert Before(s.tasks, log[j].slot, log[k].slot);
    }
  }

  /** The task table and the clock after the background step. */
  ghost predicate OnlyGrew(s: State, s': State)
    requires s.Shape() && s'.Shape()
  {
    && s.count <= s'.count
    && s.now <= s'.now
    && (forall i :: 0 <= i < MAX_TASKS && i < s.count ==> s'.tasks[i] == s.tasks[i])
  }

  /** A log entry of a background execution. */
  ghost predicate BackgroundEntry(tasks: seq<Task>, e: Entry) {
    && !e.periodic && !e.overrun && e.release == 0 && e.next == 0
    && e.slot < |tasks| && tasks[e.slot].Background() && e.fn == tasks[e.slot].fn && e.ctx == tasks[e.slot].ctx
    && e.dispatched <= e.started <= e.ended <= e.completed
  }

  /** The background step executes at most one task, a background task, and only lets the table grow. */
  lemma BackgroundStepEffect(c: Clock, s: State, call: Call, idle: nat)
    requires AtBoundary(s)
    ensures var out := BackgroundStep(c, s, call, idle);
            && AtBoundary(out.s)
            && OnlyGrew(s, out.s)
            && |out.log| <= 1
            && (forall j :: 0 <= j < |out.log| ==> BackgroundEntry(s.tasks, out.log[j]))
  {
    hide Invoke, SelectBackground;
    var i := SelectBackground(s.tasks, s.cursor, 0);
    var out := BackgroundStep(c, s, call, idle);
    if i != INVALID_TASK_ID && !s.tasks[i].fn.Null? {
      var s1 := s.(cursor := (i + 1) % MAX_TASKS);
      forall j | 0 <= j < MAX_TASKS
        ensures SlotOk(s1.tasks[j], j < s1.count)
      {
        assert SlotOk(s.tasks[j], j < s.count);
      }
      InvokeGrows(c, s1, i, call);
      var s2 := Invoke(c, s1, i, call);
      forall j | 0 <= j < MAX_TASKS
        ensures SlotOk(out.s.tasks[j], j < out.s.count) && !out.s.tasks[j].pending
      {
        assert SlotOk(s2.tasks[j], j < s2.count);
        assert j < s.count ==> s2.tasks[j] == s.tasks[j];
      }
    } else {
      forall j | 0 <= j < MAX_TASKS
        ensures SlotOk(out.s.tasks[j], j < out.s.count)
      {
        assert SlotOk(s.tasks[j], j < s.count);
      }
    }
  }

  /** The task table of `s'` is that of `s` with exactly the tasks due at `snapshot` released, plus growth. */
  ghost predicate CycleTable(c: Clock, s: State, snapshot: int, s': State)
    requires s.Shape() && s'.Shape()
  {
    && AtBoundary(s')
    && 0 <= s.now <= snapshot <= s'.now
    && s.count <= s'.count
    && (forall i :: 0 <= i < MAX_TASKS && i < s.count ==>
          s'.tasks[i] == if Due(c, s.tasks[i], snapshot) then ReleasedTask(c, s.tasks[i], snapshot)
                         else s.tasks[i])
  }

  /** A cycle as a whole, seen from the task table. */
  lemma CycleEffect(c: Clock, s: State, script: Script)
    requires AtBoundary(s)
    ensures CycleTable(c, s, s.now + script.arrival, RunCycle(c, s, script).s)
    ensures PeriodicPart(c, s, script).s.now <= RunCycle(c, s, script).s.now
  {
    CycleRunsExactlyDue(c, s, script);
    BackgroundStepEffect(c, PeriodicPart(c, s, script).s, script.background, script.idle);
  }

  lemma DoKeepsBoundary(c: Clock, s: State, op: Op)
    requires AtBoundary(s)
    ensures AtBoundary(Do(c, s, op).s)
    ensures s.count <= Do(c, s, op).s.count && s.now <= Do(c, s, op).s.now
  {
    match op
    case Main(a) =>
      ActGrows(c, s, a);
      forall i | 0 <= i < MAX_TASKS
        ensures !Act(c, s, a).tasks[i].pending
      {
        assert i < s.count ==> Act(c, s, a).tasks[i] == s.tasks[i];
      }
    case Cycle(script) =>
      CycleEffect(c, s, script);
  }

  /** Every state reached between cycles has a dense slot prefix, a cursor in range and nothing pending. */
  lemma {:induction false} ReachableAtBoundary(c: Clock, s: State, ops: seq<Op>)
    requires AtBoundary(s)
    ensures AtBoundary(DoAll(c, s, ops).s)
    ensures s.count <= DoAll(c, s, ops).s.count && s.now <= DoAll(c, s, ops).s.now
    decreases |ops|
  {
    if ops != [] {
      DoKeepsBoundary(c, s, ops[0]);
      ReachableAtBoundary(c, Do(c, s, ops[0]).s, ops[1..]);
    }
  }
}
