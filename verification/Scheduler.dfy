/**
 * The scheduler as the program has it: slots and statistics updated in place, selection and
 * dispatch loops, 32-bit ticks read from a port. Each method is the corresponding step of
 * `SchedulerModel` on the `Wrapped` clock.
 */
module Scheduler {
  import opened Ticks
  import opened SchedulerModel

  /** The platform's tick source. Time passes by any amount between two readings. */
  class Port {
    var now: nat

    constructor (start: nat)
      ensures now == start
    {
      now := start;
    }

    method NowTicks() returns (t: Tick)
      ensures t == Wrap(now)
    {
      t := now % WRAP;
    }

    method Elapse(ticks: nat)
      modifies this
      ensures now == old(now) + ticks
    {
      now := now + ticks;
    }
  }

  class Scheduler {
    const tasks: array<Task>
    const stats: array<Stats>
    var taskCount: nat
    var nextBackgroundIdx: nat
    const port: Port

    ghost predicate Valid()
      reads this, tasks
    {
      && tasks.Length == MAX_TASKS
      && stats.Length == MAX_TASKS
      && nextBackgroundIdx < MAX_TASKS
      && forall i :: 0 <= i < MAX_TASKS ==> 0 <= tasks[i].nextRelease < WRAP
    }

    /** The state as a value. */
    ghost function Value(): (s: State)
      requires Valid()
      reads this, tasks, stats, port
      ensures s.Shape()
    {
      State(tasks[..], stats[..], taskCount, nextBackgroundIdx, port.now)
    }

    constructor (port: Port)
      ensures fresh(tasks) && fresh(stats) && this.port == port
      ensures tasks.Length == MAX_TASKS && stats.Length == MAX_TASKS
    {
      tasks := new Task[MAX_TASKS](_ => EMPTY_TASK);
      stats := new Stats[MAX_TASKS](_ => EMPTY_STATS);
      taskCount := 0;
      nextBackgroundIdx := 0;
      this.port := port;
    }

    /** `sch_init`. */
    method Init()
      requires tasks.Length == MAX_TASKS && stats.Length == MAX_TASKS
      modifies this, tasks, stats
      ensures Valid() && Value() == Fresh(port.now)
    {
      for i := 0 to MAX_TASKS
        invariant forall j :: 0 <= j < i ==> tasks[j] == EMPTY_TASK
      {
        tasks[i] := Task(Null, 0, 0, 0, LOWEST_PRIORITY, false, false, false);
      }
      taskCount := 0;
      nextBackgroundIdx := 0;
      for i := 0 to MAX_TASKS
        invariant taskCount == 0 && nextBackgroundIdx == 0
        invariant forall j :: 0 <= j < MAX_TASKS ==> tasks[j] == EMPTY_TASK
        invariant forall j :: 0 <= j < i ==> stats[j] == EMPTY_STATS
      {
        stats[i] := EMPTY_STATS;
      }
      assert Value().tasks == Fresh(port.now).tasks;
      assert Value().stats == Fresh(port.now).stats;
    }

    /** `sch_add_task`. */
    method AddTask(fn: Fn, ctx: nat, period: Tick, startDelay: Tick, priority: Priority) returns (id: int)
      requires Valid()
      modifies this, tasks, stats
      ensures Valid()
      ensures (Value(), id) ==
              SchedulerModel.AddTask(Wrapped, old(Value()), Request(fn, ctx, period, startDelay, priority))
    {
      if fn.Null? {
        return ERR_INVALID_ARG;
      }
      if taskCount >= MAX_TASKS {
        return ERR_NO_SPACE;
      }
      var now := port.NowTicks();
      for i := 0 to MAX_TASKS
        invariant Valid() && Value() == old(Value())
        invariant FirstFree(tasks[..], 0) == FirstFree(tasks[..], i)
      {
        if !tasks[i].inUse {
          WrapCongruent(port.now, startDelay);
          tasks[i] := Task(fn, ctx, period, (now + startDelay) % WRAP, priority, true, false, true);
          stats[i] := EMPTY_STATS;
          taskCount := taskCount + 1;
          return i;
        }
      }
      return ERR_NO_SPACE;
    }

    /** `sch_reset_stats`. */
    method ResetStats()
      requires Valid()
      modifies stats
      ensures Valid() && Value() == Act(Wrapped, old(Value()), SchedulerModel.ResetStats)
    {
      for i := 0 to MAX_TASKS
        invariant forall j :: 0 <= j < i ==> stats[j] == EMPTY_STATS
      {
        stats[i] := EMPTY_STATS;
      }
      assert stats[..] == seq(MAX_TASKS, _ => EMPTY_STATS);
    }

    /** `sch_mark_periodic_ready`, with the snapshot just read from the port. */
    method MarkPeriodicReady(now: Tick)
      requires Valid() && now == Wrap(port.now)
      modifies tasks, stats
      ensures Valid() && Value() == MarkReady(Wrapped, old(Value()))
    {
      hide MarkedTask, MarkedStats, TimeReached, Wrap;
      for i := 0 to MAX_TASKS
        invariant Valid()
        invariant forall j :: 0 <= j < i ==>
          tasks[j] == old(MarkedTask(Wrapped, tasks[j], port.now)) &&
          stats[j] == old(MarkedStats(Wrapped, tasks[j], stats[j], port.now))
        invariant forall j :: i <= j < MAX_TASKS ==> tasks[j] == old(tasks[j]) && stats[j] == old(stats[j])
      {
        var task := tasks[i];
        MarkedWrapped(task, stats[i], port.now);
        if !task.inUse || !task.enabled || task.period == 0 {
          continue;
        }
        if TimeReached(now, task.nextRelease) {
          if task.pending {
            stats[i] := stats[i].(missCount := Wrap(stats[i].missCount + 1));
          }
          tasks[i] := task.(pending := true);
        }
      }
      assert Value().tasks == MarkReady(Wrapped, old(Value())).tasks;
      assert Value().stats == MarkReady(Wrapped, old(Value())).stats;
    }

    /** `sch_select_pending_task`. */
    method SelectPendingTask() returns (selected: int)
      requires Valid()
      ensures selected == SelectPending(tasks[..], MAX_TASKS)
    {
      selected := INVALID_TASK_ID;
      var bestPriority := LOWEST_PRIORITY;
      for i := 0 to MAX_TASKS
        invariant selected == SelectPending(tasks[..], i)
        invariant selected != INVALID_TASK_ID ==> bestPriority == tasks[selected].priority
      {
        var task := tasks[i];
        if !task.inUse || !task.enabled || !task.pending || task.period == 0 {
          continue;
        }
        if selected == INVALID_TASK_ID || task.priority < bestPriority
           || (task.priority == bestPriority && i < selected) {
          selected := i;
          bestPriority := task.priority;
        }
      }
    }

    /** `sch_select_background_task`. */
    method SelectBackgroundTask() returns (id: int)
      requires Valid()
      modifies this`nextBackgroundIdx
      ensures Valid()
      ensures id == SelectBackground(tasks[..], old(nextBackgroundIdx), 0)
      ensures nextBackgroundIdx ==
              if id == INVALID_TASK_ID then old(nextBackgroundIdx) else (id + 1) % MAX_TASKS
    {
      var start := nextBackgroundIdx;
      for offset := 0 to MAX_TASKS
        invariant nextBackgroundIdx == start
        invariant SelectBackground(tasks[..], start, 0) == SelectBackground(tasks[..], start, offset)
      {
        var idx := (start + offset) % MAX_TASKS;
        if tasks[idx].inUse && tasks[idx].enabled && tasks[idx].period == 0 {
          nextBackgroundIdx := (idx + 1) % MAX_TASKS;
          return idx;
        }
      }
      return INVALID_TASK_ID;
    }

    /** A callback: what it does to the scheduler and the clock is given by its actions. */
    method Callback(actions: seq<Action>)
      requires Valid()
      modifies this, tasks, stats, port
      ensures Valid() && Value() == Perform(Wrapped, old(Value()), actions)
    {
      for k := 0 to |actions|
        invariant Valid()
        invariant Perform(Wrapped, old(Value()), actions) == Perform(Wrapped, Value(), actions[k..])
      {
        ghost var before := Value();
        match actions[k] {
          case Elapse(ticks) =>
            port.Elapse(ticks);
          case Register(r) =>
            var _ := AddTask(r.fn, r.ctx, r.period, r.delay, r.priority);
          case ResetStats =>
            ResetStats();
        }
        assert Value() == Act(Wrapped, before, actions[k]);
        assert actions[k..][1..] == actions[k + 1..];
      }
    }

    /** Run the callback of slot `id` between its two time stamps. */
    method Execute(id: nat, call: Call)
      requires Valid() && id < MAX_TASKS
      modifies this, tasks, stats, port
      ensures Valid() && Value() == Invoke(Wrapped, old(Value()), id, call)
    {
      hide Perform, Wrap;
      port.Elapse(call.before);
      var execStart := port.NowTicks();
      stats[id] := stats[id].(lastStart := execStart);
      ghost var started := Value();
      Callback(call.actions);
      ghost var returned := Value();
      var execEnd := port.NowTicks();
      var st := stats[id];
      var execTicks := Wrap(execEnd - st.lastStart);
      st := st.(runCount := Wrap(st.runCount + 1), lastEnd := execEnd, lastExec := execTicks,
                totalExec := Wrap(st.totalExec + execTicks));
      if execTicks > st.maxExec {
        st := st.(maxExec := execTicks);
      }
      stats[id] := st;
      assert Value() == returned.(stats := returned.stats[id := EndStats(returned.stats[id], returned.now)]);
    }

    /** Clear slot `id`'s pending flag and plan its next release, in one critical section. */
    method ReleaseTask(now: Tick, ghost snapshot: nat, id: nat) returns (fn: Fn, ctx: nat, period: Tick)
      requires Valid() && id < MAX_TASKS && now == Wrap(snapshot)
      modifies tasks
      ensures Valid() && Value() == Release(Wrapped, old(Value()), snapshot, id)
      ensures fn == old(tasks[id].fn) && ctx == old(tasks[id].ctx) && period == old(tasks[id].period)
    {
      hide AdvanceNextRelease, Wrap;
      var task := tasks[id];
      fn, ctx, period := task.fn, task.ctx, task.period;
      WrapNear(task.nextRelease);
      tasks[id] := task.(pending := false, nextRelease := AdvanceNextRelease(now, task.nextRelease, period));
      assert Value().tasks == Release(Wrapped, old(Value()), snapshot, id).tasks;
    }

    /** Compare completion time with the release planned when the execution began. */
    method JudgeOverrun(id: nat, period: Tick, after: nat) returns (ghost overrun: bool)
      requires Valid() && id < MAX_TASKS
      modifies stats, port
      ensures Valid() && port.now == old(port.now) + after
      ensures overrun == (period != 0 && Reached(Wrapped, port.now, tasks[id].nextRelease))
      ensures Value() == var s := old(Value());
                         s.(now := port.now, stats := s.stats[id := OverrunStats(s.stats[id], overrun)])
    {
      port.Elapse(after);
      var completedAt := port.NowTicks();
      overrun := false;
      if period != 0 {
        if TimeReached(completedAt, tasks[id].nextRelease) {
          stats[id] := stats[id].(overrunCount := Wrap(stats[id].overrunCount + 1));
          overrun := true;
        }
      }
      assert Value().stats == old(Value()).stats[id := OverrunStats(old(stats[id]), overrun)];
    }

    /** One iteration of the dispatch loop: release slot `id`, run it, judge its overrun. */
    method DispatchTask(now: Tick, ghost snapshot: nat, id: nat, call: Call) returns (ghost e: Entry)
      requires Valid() && id < MAX_TASKS && now == Wrap(snapshot)
      modifies this, tasks, stats, port
      ensures Valid() && (Value(), e) == Dispatch(Wrapped, old(Value()), snapshot, id, call)
    {
      hide Invoke, OverrunStats, NextRelease, Reached;
      ghost var s := Value();
      var fn, ctx, period := ReleaseTask(now, snapshot, id);
      ghost var released := Value();
      Execute(id, call);
      ghost var executed := Value();
      ghost var overrun := JudgeOverrun(id, period, call.after);
      e := Entry(true, id, fn, ctx, s.tasks[id].nextRelease, released.tasks[id].nextRelease,
                 s.now, s.now + call.before, executed.now, port.now, overrun);
    }

    /** The dispatch loop of `sch_run`. */
    method RunPeriodic(now: Tick, ghost snapshot: nat, calls: nat -> Call) returns (ghost log: seq<Entry>)
      requires Valid() && now == Wrap(snapshot)
      modifies this, tasks, stats, port
      ensures Valid() && Outcome(Value(), log) == PeriodicPhase(Wrapped, old(Value()), snapshot, calls, 0)
    {
      hide PeriodicPhase, Dispatch, SelectPending;
      log := [];
      var executed := 0;
      while executed < MAX_TASKS
        invariant executed <= MAX_TASKS && Valid()
        invariant PeriodicPhase(Wrapped, old(Value()), snapshot, calls, 0) ==
                  var rest := PeriodicPhase(Wrapped, Value(), snapshot, calls, executed);
                  Outcome(rest.s, log + rest.log)
      {
        var selected := SelectPendingTask();
        if selected == INVALID_TASK_ID {
          break;
        }
        ghost var before, done := Value(), log;
        ghost var e := DispatchTask(now, snapshot, selected, calls(executed));
        log := log + [e];
        executed := executed + 1;
        PhaseUnfolds(before, snapshot, calls, executed - 1, selected, Value(), e, done);
      }
      PhaseStops(Value(), snapshot, calls, executed, log);
    }

    /** The background step of `sch_run`. */
    method RunBackground(call: Call, idle: nat) returns (ghost log: seq<Entry>)
      requires Valid()
      modifies this, tasks, stats, port
      ensures Valid() && Outcome(Value(), log) == BackgroundStep(Wrapped, old(Value()), call, idle)
    {
      hide SelectBackground, Invoke;
      ghost var s := Value();
      var id := SelectBackgroundTask();
      var fn, ctx := Null, 0;
      if id != INVALID_TASK_ID {
        fn, ctx := tasks[id].fn, tasks[id].ctx;
      }
      if !fn.Null? {
        Execute(id, call);
        ghost var ended := port.now;
        port.Elapse(call.after);
        log := [Entry(false, id, fn, ctx, 0, 0, s.now, s.now + call.before, ended, port.now, false)];
      } else {
        port.Elapse(idle);
        log := [];
      }
    }

    /** `sch_run`. The script decides when time passes and what the callbacks do. */
    method Run(script: Script) returns (ghost log: seq<Entry>)
      requires Valid()
      modifies this, tasks, stats, port
      ensures Valid() && Outcome(Value(), log) == RunCycle(Wrapped, old(Value()), script)
    {
      hide MarkReady, PeriodicPhase, BackgroundStep;
      port.Elapse(script.arrival);
      var now := port.NowTicks();
      ghost var snapshot := port.now;
      MarkPeriodicReady(now);
      ghost var periodic := RunPeriodic(now, snapshot, script.calls);
      ghost var background := RunBackground(script.background, script.idle);
      log := periodic + background;
    }
  }

  /** Marking a slot whose release is a tick already. */
  lemma MarkedWrapped(t: Task, st: Stats, now: nat)
    requires 0 <= t.nextRelease < WRAP
    ensures var due := t.inUse && t.enabled && t.period != 0 && TimeReached(Wrap(now), t.nextRelease);
            && MarkedTask(Wrapped, t, now) == (if due then t.(pending := true) else t)
            && MarkedStats(Wrapped, t, st, now) ==
               (if due && t.pending then st.(missCount := Wrap(st.missCount + 1)) else st)
  {
    hide TimeReached;
  }

  /** One turn of the dispatch loop is one unfolding of the phase. */
  lemma PhaseUnfolds(
    s: State, snapshot: nat, calls: nat -> Call, k: nat, i: nat, s1: State, e: Entry, log: seq<Entry>)
    requires s.Shape() && s1.Shape() && k < MAX_TASKS && i < MAX_TASKS
    requires i == SelectPending(s.tasks, MAX_TASKS)
    requires (s1, e) == Dispatch(Wrapped, s, snapshot, i, calls(k))
    ensures var here := PeriodicPhase(Wrapped, s, snapshot, calls, k);
            var rest := PeriodicPhase(Wrapped, s1, snapshot, calls, k + 1);
            Outcome(here.s, log + here.log) == Outcome(rest.s, log + [e] + rest.log)
  {
    hide Dispatch, SelectPending;
    var rest := PeriodicPhase(Wrapped, s1, snapshot, calls, k + 1);
    assert log + ([e] + rest.log) == log + [e] + rest.log;
  }

  lemma PhaseStops(s: State, snapshot: nat, calls: nat -> Call, k: nat, log: seq<Entry>)
    requires s.Shape() && k <= MAX_TASKS
    requires k == MAX_TASKS || SelectPending(s.tasks, MAX_TASKS) == INVALID_TASK_ID
    ensures PeriodicPhase(Wrapped, s, snapshot, calls, k) == Outcome(s, [])
    ensures log + [] == log
  {
    hide Dispatch, SelectPending;
  }
}
