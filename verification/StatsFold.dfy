/** The per-task statistics are folds of the execution log since initialisation or the last reset. */
module StatsFold {
  import opened Ticks
  import opened SchedulerModel
  import opened CycleOrder
  import opened Callbacks

  // ------------------------------------------------------------------
  // Folds of the log
  // ------------------------------------------------------------------

  /** Duration of one execution, as far as 32 bits can tell. */
  function Duration(e: Entry): Tick {
    Wrap(e.ended - e.started)
  }

  function Of(log: seq<Entry>, i: nat): (mine: seq<Entry>)
    ensures forall k :: 0 <= k < |mine| ==> mine[k].slot == i
  {
    if log == [] then []
    else
      var last := |log| - 1;
      Of(log[..last], i) + (if log[last].slot == i then [log[last]] else [])
  }

  function Sum(log: seq<Entry>): nat {
    if log == [] then 0 else Sum(log[..|log| - 1]) + Duration(log[|log| - 1])
  }

  function Longest(log: seq<Entry>): Tick {
    if log == [] then 0
    else
      var before := Longest(log[..|log| - 1]);
      var last := Duration(log[|log| - 1]);
      if last > before then last else before
  }

  function Overruns(log: seq<Entry>): nat {
    if log == [] then 0 else Overruns(log[..|log| - 1]) + (if log[|log| - 1].overrun then 1 else 0)
  }

  /** The statistics slot that the executions `log` of one task amount to. */
  function Summary(log: seq<Entry>): Stats {
    var last := |log| - 1;
    Stats(Wrap(|log|), 0, Wrap(Overruns(log)),
          if log == [] then 0 else Wrap(log[last].started),
          if log == [] then 0 else Wrap(log[last].ended),
          if log == [] then 0 else Duration(log[last]),
          Longest(log), Wrap(Sum(log)))
  }

  /** All statistics of `s` sum up `log`. */
  ghost predicate StatsMatch(s: State, log: seq<Entry>)
    requires s.Shape()
  {
    && (forall k :: 0 <= k < |log| ==> log[k].slot < s.count)
    && (forall i :: 0 <= i < MAX_TASKS ==> s.stats[i] == Summary(Of(log, i)))
  }

  lemma OfAppend(log: seq<Entry>, e: Entry, i: nat)
    ensures Of(log + [e], i) == Of(log, i) + (if e.slot == i then [e] else [])
  {
    assert (log + [e])[..|log|] == log;
  }

  lemma {:induction false} OfUnregistered(log: seq<Entry>, i: nat)
    requires forall k :: 0 <= k < |log| ==> log[k].slot < i
    ensures Of(log, i) == []
  {
    if log != [] {
      OfUnregistered(log[..|log| - 1], i);
    }
  }

  /** One more execution, accounted for the way the scheduler does it. */
  lemma SummaryAppend(log: seq<Entry>, e: Entry)
    ensures var started := Summary(log).(lastStart := Wrap(e.started));
            Summary(log + [e]) == OverrunStats(EndStats(started, e.ended), e.overrun)
  {
    hide Wrap;
    assert (log + [e])[..|log|] == log;
    WrapCongruent(e.ended, e.started);
    WrapCongruent(|log|, 1);
    WrapCongruent(Sum(log), Duration(e));
    WrapCongruent(Overruns(log), 1);
  }

  // ------------------------------------------------------------------
  // Callbacks without resets leave statistics alone
  // ------------------------------------------------------------------

  predicate NoResets(actions: seq<Action>) {
    forall k :: 0 <= k < |actions| ==> !actions[k].ResetStats?
  }

  ghost predicate StatsKept(s: State, s': State)
    requires s.Shape() && s'.Shape()
  {
    && s.count <= s'.count
    && forall i :: 0 <= i < MAX_TASKS ==>
         s'.stats[i] == s.stats[i] || (s.count <= i && s'.stats[i] == EMPTY_STATS)
  }

  lemma PerformKeepsStats(c: Clock, s: State, actions: seq<Action>)
    requires Valid(s) && NoResets(actions)
    ensures StatsKept(s, Perform(c, s, actions))
  {
    hide Perform;
    PerformGrows(c, s, actions);
    PerformEffect(c, s, actions);
  }

  lemma StatsKeptMatch(s: State, s': State, log: seq<Entry>)
    requires s.Shape() && s'.Shape() && StatsKept(s, s') && StatsMatch(s, log)
    ensures StatsMatch(s', log)
  {
    forall i | 0 <= i < MAX_TASKS
      ensures s'.stats[i] == Summary(Of(log, i))
    {
      if s.count <= i {
        OfUnregistered(log, i);
      }
    }
  }

  /** The callback of slot `i` from a valid state, up to the statistics update at its end. */
  lemma InvokeStats(c: Clock, s: State, i: nat, call: Call)
    requires Valid(s) && i < s.count && NoResets(call.actions)
    ensures var s' := Invoke(c, s, i, call);
            var kept := s'.(stats := s'.stats[i := s.stats[i]]);
            && Valid(s')
            && StatsKept(s, kept)
            && s'.stats[i] == EndStats(StartStats(s.stats[i], s.now + call.before), s'.now)
  {
    var s1 := s.(now := s.now + call.before);
    var s2 := s1.(stats := s1.stats[i := StartStats(s1.stats[i], s1.now)]);
    forall j | 0 <= j < MAX_TASKS
      ensures SlotOk(s2.tasks[j], j < s2.count)
    {
      assert SlotOk(s.tasks[j], j < s.count);
    }
    PerformKeepsStats(c, s2, call.actions);
    InvokeGrows(c, s, i, call);
  }

  lemma StatsAppend(s: State, s': State, log: seq<Entry>, e: Entry)
    requires s.Shape() && s'.Shape() && StatsMatch(s, log) && e.slot < s.count && e.slot < MAX_TASKS
    requires StatsKept(s, s'.(stats := s'.stats[e.slot := s.stats[e.slot]]))
    requires s'.stats[e.slot] ==
             OverrunStats(EndStats(StartStats(s.stats[e.slot], e.started), e.ended), e.overrun)
    ensures StatsMatch(s', log + [e])
  {
    var kept := s'.(stats := s'.stats[e.slot := s.stats[e.slot]]);
    StatsKeptMatch(s, kept, log);
    hide Summary, EndStats;
    forall i | 0 <= i < MAX_TASKS
      ensures s'.stats[i] == Summary(Of(log + [e], i))
    {
      OfAppend(log, e, i);
      if i == e.slot {
        SummaryAppend(Of(log, i), e);
      } else {
        assert kept.stats[i] == s'.stats[i];
        assert Of(log, i) + [] == Of(log, i);
      }
    }
  }

  // ------------------------------------------------------------------
  // One cycle
  // ------------------------------------------------------------------

  lemma DispatchStats(c: Clock, s: State, snapshot: nat, i: nat, call: Call, log: seq<Entry>)
    requires Valid(s) && i < MAX_TASKS && s.tasks[i].Waiting() && NoResets(call.actions)
    requires StatsMatch(s, log)
    ensures var (s', e) := Dispatch(c, s, snapshot, i, call);
            StatsMatch(s', log + [e])
  {
    assert SlotOk(s.tasks[i], i < s.count);
    var s1 := Release(c, s, snapshot, i);
    forall j | 0 <= j < MAX_TASKS
      ensures SlotOk(s1.tasks[j], j < s1.count)
    {
      assert SlotOk(s.tasks[j], j < s.count);
    }
    InvokeStats(c, s1, i, call);
    hide Invoke, Reached, NextRelease, EndStats, Summary;
    var (s', e) := Dispatch(c, s, snapshot, i, call);
    StatsAppend(s, s', log, e);
  }

  lemma {:induction false} PhaseStats(
    c: Clock, s: State, snapshot: nat, calls: nat -> Call, k: nat, log: seq<Entry>)
    requires Valid(s) && k <= MAX_TASKS && StatsMatch(s, log)
    requires forall j: nat :: j < MAX_TASKS ==> NoResets(calls(j).actions)
    ensures StatsMatch(PeriodicPhase(c, s, snapshot, calls, k).s,
                       log + PeriodicPhase(c, s, snapshot, calls, k).log)
    decreases MAX_TASKS - k
  {
    hide Dispatch, SelectPending, StatsMatch, NoResets;
    var i := SelectPending(s.tasks, MAX_TASKS);
    if k == MAX_TASKS || i == INVALID_TASK_ID {
      assert log + [] == log;
    } else {
      var (s1, e) := Dispatch(c, s, snapshot, i, calls(k));
      DispatchEffect(c, s, snapshot, i, calls(k));
      DispatchStats(c, s, snapshot, i, calls(k), log);
      PhaseStats(c, s1, snapshot, calls, k + 1, log + [e]);
      var rest := PeriodicPhase(c, s1, snapshot, calls, k + 1);
      assert log + [e] + rest.log == log + ([e] + rest.log);
    }
  }

  lemma BackgroundStats(c: Clock, s: State, call: Call, idle: nat, log: seq<Entry>)
    requires AtBoundary(s) && StatsMatch(s, log) && NoResets(call.actions)
    ensures StatsMatch(BackgroundStep(c, s, call, idle).s, log + BackgroundStep(c, s, call, idle).log)
  {
    hide SelectBackground, Invoke, EndStats, Summary;
    var i := SelectBackground(s.tasks, s.cursor, 0);
    var out := BackgroundStep(c, s, call, idle);
    if i == INVALID_TASK_ID || s.tasks[i].fn.Null? {
      assert log + [] == log;
    } else {
      assert SlotOk(s.tasks[i], i < s.count);
      var s1 := s.(cursor := (i + 1) % MAX_TASKS);
      forall j | 0 <= j < MAX_TASKS
        ensures SlotOk(s1.tasks[j], j < s1.count)
      {
        assert SlotOk(s.tasks[j], j < s.count);
      }
      InvokeStats(c, s1, i, call);
      StatsAppend(s, out.s, log, out.log[0]);
      assert log + out.log == log + [out.log[0]];
    }
  }

  predicate ScriptKeepsStats(script: Script) {
    && NoResets(script.background.actions)
    && forall j: nat :: j < MAX_TASKS ==> NoResets(script.calls(j).actions)
  }

  lemma StatsMatchTransfers(s: State, s': State, log: seq<Entry>)
    requires s.Shape() && s'.Shape() && StatsMatch(s, log) && s'.stats == s.stats && s'.count == s.count
    ensures StatsMatch(s', log)
  {
  }

  lemma CycleStats(c: Clock, s: State, script: Script, log: seq<Entry>)
    requires AtBoundary(s) && StatsMatch(s, log) && ScriptKeepsStats(script)
    ensures StatsMatch(RunCycle(c, s, script).s, log + RunCycle(c, s, script).log)
  {
    hide MarkReady, PeriodicPhase, BackgroundStep, NoResets, StatsMatch, SlotOk;
    var m := Snapshot(c, s, script);
    SnapshotMarksDue(c, s, script);
    StatsMatchTransfers(s, m, log);
    PhaseStats(c, m, m.now, script.calls, 0, log);
    var p := PeriodicPart(c, s, script);
    CycleRunsExactlyDue(c, s, script);
    BackgroundStats(c, p.s, script.background, script.idle, log + p.log);
    var b := BackgroundStep(c, p.s, script.background, script.idle);
    assert log + p.log + b.log == log + (p.log + b.log);
  }

  // ------------------------------------------------------------------
  // Whole histories
  // ------------------------------------------------------------------

  predicate OpKeepsStats(op: Op) {
    op.Cycle? ==> ScriptKeepsStats(op.script)
  }

  /** The log since the last statistics reset, given the log `before` of what went before. */
  function LogSince(c: Clock, s: State, before: seq<Entry>, ops: seq<Op>): seq<Entry>
    requires s.Shape()
    decreases |ops|
  {
    if ops == [] then before
    else
      var first := Do(c, s, ops[0]);
      LogSince(c, first.s, if ops[0] == Main(ResetStats) then [] else before + first.log, ops[1..])
  }

  lemma StepStats(c: Clock, s: State, op: Op, log: seq<Entry>)
    requires AtBoundary(s) && StatsMatch(s, log) && OpKeepsStats(op)
    ensures StatsMatch(Do(c, s, op).s, if op == Main(ResetStats) then [] else log + Do(c, s, op).log)
  {
    match op
    case Main(a) =>
      if a.ResetStats? {
        forall i | 0 <= i < MAX_TASKS
          ensures Do(c, s, op).s.stats[i] == Summary(Of([], i))
        {
        }
      } else {
        assert Perform(c, s, [a]) == Act(c, s, a) by {
          assert Perform(c, Act(c, s, a), [a][1..]) == Act(c, s, a);
        }
        PerformKeepsStats(c, s, [a]);
        StatsKeptMatch(s, Act(c, s, a), log);
        assert log + [] == log;
      }
    case Cycle(script) =>
      CycleStats(c, s, script, log);
  }

  /**
   * Over every history in which no callback resets statistics, each slot holds the summary of
   * its task's executions since initialisation or the last reset: the count, the sum of
   * durations and the number of overruns modulo 2^32, the longest duration, the stamps of the
   * last execution, and a miss count of zero.
   */
  lemma {:induction false} StatisticsAreFolds(c: Clock, s: State, ops: seq<Op>, log: seq<Entry>)
    requires AtBoundary(s) && StatsMatch(s, log)
    requires forall k :: 0 <= k < |ops| ==> OpKeepsStats(ops[k])
    ensures StatsMatch(DoAll(c, s, ops).s, LogSince(c, s, log, ops))
    decreases |ops|
  {
    hide Do, StatsMatch, OpKeepsStats;
    if ops != [] {
      var op := ops[0];
      DoKeepsBoundary(c, s, op);
      StepStats(c, s, op, log);
      StatisticsAreFolds(c, Do(c, s, op).s, ops[1..],
                         if op == Main(ResetStats) then [] else log + Do(c, s, op).log);
    }
  }

  /** The same from initialisation on. */
  lemma StatisticsFromInitialisation(c: Clock, start: nat, ops: seq<Op>)
    requires forall k :: 0 <= k < |ops| ==> OpKeepsStats(ops[k])
    ensures StatsMatch(DoAll(c, Fresh(start), ops).s, LogSince(c, Fresh(start), [], ops))
  {
    FreshIsBoundary(start);
    hide DoAll, LogSince, OpKeepsStats;
    StatisticsAreFolds(c, Fresh(start), ops, []);
  }

  // ------------------------------------------------------------------
  // Resets inside a callback
  // ------------------------------------------------------------------

  /**
   * The duration recorded for an execution is the real one exactly when its callback did not
   * reset the statistics, or had started at tick zero: a reset also clears the start stamp
   * that the scheduler reads back after the callback.
   */
  lemma DurationRecordedIff(c: Clock, s: State, i: nat, call: Call)
    requires Valid(s) && i < s.count
    ensures var s' := Invoke(c, s, i, call);
            var started := s.now + call.before;
            s'.stats[i].lastExec == Wrap(s'.now - started) <==>
            !HasReset(call.actions) || Wrap(started) == 0
  {
    hide Invoke, HasReset;
    InvokeEffect(c, s, i, call);
    RecordedDuration(Invoke(c, s, i, call).now, s.now + call.before);
  }

  /** A callback from tick 5 to tick 8 that resets the statistics: 8 ticks are recorded for its 3. */
  lemma ResetInCallbackMisrecords()
    ensures var s := AddTask(Wrapped, Fresh(5), Request(Fn(0), 0, 10, 10, 0)).0;
            var s' := Invoke(Wrapped, s, 0, Call(0, [ResetStats, Elapse(3)], 0));
            s.now == 5 && s'.now == 8 && s'.stats[0].lastExec == 8
  {
    var s := AddTask(Wrapped, Fresh(5), Request(Fn(0), 0, 10, 10, 0)).0;
    var s2 := s.(stats := s.stats[0 := StartStats(s.stats[0], 5)]);
    var s3 := Act(Wrapped, s2, ResetStats);
    assert [ResetStats, Elapse(3)][1..] == [Elapse(3)];
    assert Perform(Wrapped, s3, [Elapse(3)]) == Act(Wrapped, s3, Elapse(3)) by {
      assert [Elapse(3)][1..] == [];
    }
  }

  lemma RecordedDuration(ended: int, started: int)
    ensures Wrap(Wrap(ended) - Wrap(started)) == Wrap(ended - started)
    ensures Wrap(Wrap(ended) - 0) == Wrap(ended - started) <==> Wrap(started) == 0
  {
    WrapCongruent(ended, started);
    hide Wrap;
    WrapNear(Wrap(ended) - 0);
    WrapNear(Wrap(ended) - Wrap(started));
  }

  // ------------------------------------------------------------------
  // Misses
  // ------------------------------------------------------------------

  /** `n` ready markings in a row, with no dispatch between them. */
  function Marked(c: Clock, s: State, n: nat): (s': State)
    requires s.Shape()
    ensures s'.Shape()
  {
    if n == 0 then s else MarkReady(c, Marked(c, s, n - 1))
  }

  /** A due task that is marked again and again without being dispatched has missed all but the first. */
  lemma {:induction false} UndispatchedMarksAreMisses(c: Clock, s: State, n: nat, i: nat)
    requires s.Shape() && i < MAX_TASKS && !s.tasks[i].pending
    ensures var s' := Marked(c, s, n + 1);
            && s'.now == s.now
            && s'.tasks[i] == s.tasks[i].(pending := Due(c, s.tasks[i], s.now))
            && s'.stats[i] == (if Due(c, s.tasks[i], s.now)
                               then s.stats[i].(missCount := if n == 0 then s.stats[i].missCount
                                                             else Wrap(s.stats[i].missCount + n))
                               else s.stats[i])
  {
    hide Reached, Wrap;
    if n == 0 {
      assert Marked(c, s, 0) == s;
    } else {
      UndispatchedMarksAreMisses(c, s, n - 1, i);
      WrapCongruent(s.stats[i].missCount + (n - 1), 1);
    }
  }

  ghost predicate NoMisses(s: State) {
    forall i :: 0 <= i < |s.stats| ==> s.stats[i].missCount == 0
  }

  lemma {:induction false} PerformNoMisses(c: Clock, s: State, actions: seq<Action>)
    requires s.Shape() && NoMisses(s)
    ensures NoMisses(Perform(c, s, actions))
    decreases |actions|
  {
    if actions != [] {
      PerformNoMisses(c, Act(c, s, actions[0]), actions[1..]);
    }
  }

  lemma InvokeNoMisses(c: Clock, s: State, i: nat, call: Call)
    requires s.Shape() && i < MAX_TASKS && NoMisses(s)
    ensures NoMisses(Invoke(c, s, i, call))
  {
    var s1 := s.(now := s.now + call.before);
    var s2 := s1.(stats := s1.stats[i := StartStats(s1.stats[i], s1.now)]);
    PerformNoMisses(c, s2, call.actions);
  }

  lemma {:induction false} PhaseNoMisses(c: Clock, s: State, snapshot: nat, calls: nat -> Call, k: nat)
    requires s.Shape() && k <= MAX_TASKS && NoMisses(s)
    ensures NoMisses(PeriodicPhase(c, s, snapshot, calls, k).s)
    decreases MAX_TASKS - k
  {
    hide Invoke, SelectPending, NextRelease, Reached;
    var i := SelectPending(s.tasks, MAX_TASKS);
    if k < MAX_TASKS && i != INVALID_TASK_ID {
      InvokeNoMisses(c, Release(c, s, snapshot, i), i, calls(k));
      PhaseNoMisses(c, Dispatch(c, s, snapshot, i, calls(k)).0, snapshot, calls, k + 1);
    }
  }

  lemma DoNoMisses(c: Clock, s: State, op: Op)
    requires AtBoundary(s) && NoMisses(s)
    ensures NoMisses(Do(c, s, op).s)
  {
    hide MarkReady, PeriodicPhase, Invoke, SelectBackground;
    match op
    case Main(a) =>
    case Cycle(script) =>
      var m := Snapshot(c, s, script);
      SnapshotMarksDue(c, s, script);
      PhaseNoMisses(c, m, m.now, script.calls, 0);
      var p := PeriodicPart(c, s, script).s;
      var i := SelectBackground(p.tasks, p.cursor, 0);
      if i != INVALID_TASK_ID {
        InvokeNoMisses(c, p.(cursor := (i + 1) % MAX_TASKS), i, script.background);
      }
  }

  /** A cycle leaves nothing pending, so the next one never finds a task still pending: no miss is ever counted. */
  lemma {:induction false} MissCountStaysZero(c: Clock, s: State, ops: seq<Op>)
    requires AtBoundary(s) && NoMisses(s)
    ensures NoMisses(DoAll(c, s, ops).s)
    decreases |ops|
  {
    hide Do, NoMisses;
    if ops != [] {
      DoNoMisses(c, s, ops[0]);
      DoKeepsBoundary(c, s, ops[0]);
      MissCountStaysZero(c, Do(c, s, ops[0]).s, ops[1..]);
    }
  }
}
