/**
 * Registration: the slots a step fills, whether its request comes from the main line or from
 * a callback, and the release grid of a registered task from its registration on.
 */
module Registration {
  import opened Ticks
  import opened SchedulerModel
  import opened CycleOrder
  import opened TickRefinement
  import opened Callbacks
  import opened ReleaseAccounting

  // ------------------------------------------------------------------
  // New slots
  // ------------------------------------------------------------------

  /** What the main line, or a callback that the step executes, registers. */
  ghost predicate Requests(c: Clock, s: State, op: Op, r: Request)
    requires s.Shape()
  {
    match op
    case Main(a) => a == Register(r)
    case Cycle(script) =>
      || Register(r) in script.background.actions
      || exists k: nat :: k < |PeriodicPart(c, s, script).log| && Register(r) in script.calls(k).actions
  }

  lemma {:induction false} JoinsAreRequests(actions: seq<Action>, at: nat, k: nat)
    requires k < |Joins(actions, at)|
    ensures var j := Joins(actions, at)[k];
            && Register(j.request) in actions && !j.request.fn.Null?
            && at <= j.at <= at + Elapsed(actions)
    decreases |actions|
  {
    match actions[0]
    case Elapse(ticks) => JoinsAreRequests(actions[1..], at + ticks, k);
    case Register(r) =>
      if r.fn.Null? {
        JoinsAreRequests(actions[1..], at, k);
      } else if k > 0 {
        JoinsAreRequests(actions[1..], at, k - 1);
      }
    case ResetStats => JoinsAreRequests(actions[1..], at, k);
  }

  lemma {:induction false} PhaseJoinsAreRequests(calls: nat -> Call, first: nat, n: nat, at: nat, k: nat)
    returns (i: nat)
    requires k < |PhaseJoins(calls, first, n, at)|
    ensures var j := PhaseJoins(calls, first, n, at)[k];
            && first <= i < first + n && Register(j.request) in calls(i).actions && !j.request.fn.Null?
            && at <= j.at <= at + Spans(calls, first, n)
    decreases n
  {
    var here := CallJoins(calls(first), at);
    if k < |here| {
      i := first;
      JoinsAreRequests(calls(first).actions, at + calls(first).before, k);
    } else {
      i := PhaseJoinsAreRequests(calls, first + 1, n - 1, at + Span(calls(first)), k - |here|);
    }
  }

  lemma CycleJoinsAreRequests(c: Clock, s: State, script: Script, k: nat)
    requires AtBoundary(s) && k < |CycleJoins(c, s, script)|
    ensures var j := CycleJoins(c, s, script)[k];
            && Requests(c, s, Cycle(script), j.request) && !j.request.fn.Null?
            && s.now + script.arrival <= j.at <= RunCycle(c, s, script).s.now
  {
    hide RunCycle, PeriodicPart, BackgroundFairness.Pick;
    CycleCarriesOut(c, s, script);
    var n, begin := |PeriodicPart(c, s, script).log|, s.now + script.arrival;
    var phase := PhaseJoins(script.calls, 0, n, begin);
    if k < |phase| {
      var _ := PhaseJoinsAreRequests(script.calls, 0, n, begin, k);
    } else {
      JoinsAreRequests(script.background.actions, begin + Spans(script.calls, 0, n) + script.background.before,
                       k - |phase|);
    }
  }

  /**
   * Every slot filled by a step holds one of the requests made in it, the first in the first
   * slot and so on, with its first release at the time of the request plus the start delay.
   */
  lemma StepNewSlot(c: Clock, s: State, op: Op, id: nat)
    requires AtBoundary(s) && s.count <= id < Do(c, s, op).s.count
    ensures id < MAX_TASKS && id - s.count < |StepJoins(c, s, op)|
    ensures var j := StepJoins(c, s, op)[id - s.count];
            && Requests(c, s, op, j.request) && !j.request.fn.Null?
            && (if op.Cycle? then s.now + op.script.arrival else s.now) <= j.at <= Do(c, s, op).s.now
            && Do(c, s, op).s.tasks[id] == NewTask(c, j.at, j.request)
  {
    hide RunCycle, Act, PeriodicPart, CycleJoins;
    StepCarriesOut(c, s, op);
    match op
    case Main(a) =>
      MainCarriesOut(c, s, a);
      JoinsAreRequests([a], s.now, id - s.count);
    case Cycle(script) =>
      CycleJoinsAreRequests(c, s, script, id - s.count);
  }

  // ------------------------------------------------------------------
  // From registration on
  // ------------------------------------------------------------------

  /** A slot that is still free has no executions. */
  lemma {:induction false} FreeSlotNeverRan(s: State, ops: seq<Op>, i: nat)
    requires AtBoundary(s) && i < MAX_TASKS && DoAll(Unbounded, s, ops).s.count <= i
    ensures Runs(DoAll(Unbounded, s, ops).log, i) == 0
    decreases |ops|
  {
    if ops != [] {
      var first := Do(Unbounded, s, ops[0]);
      DoKeepsBoundary(Unbounded, s, ops[0]);
      ReachableAtBoundary(Unbounded, first.s, ops[1..]);
      FreeSlotNeverRan(first.s, ops[1..], i);
      RunsAppend(first.log, DoAll(Unbounded, first.s, ops[1..]).log, i);
      if ops[0].Cycle? {
        CycleRunsOf(s, ops[0].script, i);
        assert SlotOk(s.tasks[i], i < s.count);
      }
    }
  }

  lemma {:induction false} RunsWrap(log: seq<Entry>, i: nat)
    ensures Runs(WrapLog(log), i) == Runs(log, i)
  {
    if log != [] {
      assert WrapLog(log)[1..] == WrapLog(log[1..]);
      RunsWrap(log[1..], i);
    }
  }

  lemma StepRunsOnlyRegistered(s: State, op: Op, i: nat)
    requires AtBoundary(s) && s.count <= i < MAX_TASKS
    ensures Runs(Do(Unbounded, s, op).log, i) == 0
  {
    hide RunCycle;
    assert SlotOk(s.tasks[i], false);
    if op.Cycle? {
      CycleRunsOf(s, op.script, i);
    }
  }

  lemma OnGridIgnores(t: Task, snaps: seq<nat>, i: nat, log: seq<Entry>, out: Outcome)
    requires OnGrid(t, snaps, i, out.s, out.log) && Runs(log, i) == 0
    ensures OnGrid(t, snaps, i, out.s, log + out.log)
  {
    RunsAppend(log, out.log, i);
  }

  /** A history with a step that fills slot `id` with a periodic task, seen by that task. */
  lemma NewTaskOnGrid(s: State, before: seq<Op>, op: Op, after: seq<Op>, id: nat)
    requires AtBoundary(s)
    requires var at := DoAll(Unbounded, s, before).s;
             var added := Do(Unbounded, at, op).s;
             at.count <= id < added.count && id < MAX_TASKS && added.tasks[id].period > 0
    ensures var added := Do(Unbounded, DoAll(Unbounded, s, before).s, op).s;
            var out := DoAll(Unbounded, s, before + ([op] + after));
            && OnGrid(added.tasks[id], Snapshots(added, after), id, out.s, out.log)
            && Ascending(Snapshots(added, after))
  {
    hide Do, OnGrid, Snapshots;
    var first := DoAll(Unbounded, s, before);
    ReachableAtBoundary(Unbounded, s, before);
    FreeSlotNeverRan(s, before, id);
    hide DoAll;
    var step := Do(Unbounded, first.s, op);
    DoKeepsBoundary(Unbounded, first.s, op);
    assert SlotOk(step.s.tasks[id], true);
    StepRunsOnlyRegistered(first.s, op, id);
    ReleaseTimeline(step.s, after, id);
    SnapshotsAscend(step.s, after);
    var rest := DoAll(Unbounded, step.s, after);
    DoAllAppend(Unbounded, s, before, [op] + after);
    DoAllStep(Unbounded, first.s, op, after);
    OnGridIgnores(step.s.tasks[id], Snapshots(step.s, after), id, step.log, rest);
    OnGridIgnores(step.s.tasks[id], Snapshots(step.s, after), id, first.log, Outcome(rest.s, step.log + rest.log));
  }

  lemma DoAllStep(c: Clock, s: State, op: Op, after: seq<Op>)
    requires s.Shape()
    ensures var first := Do(c, s, op);
            var rest := DoAll(c, first.s, after);
            DoAll(c, s, [op] + after) == Outcome(rest.s, first.log + rest.log)
  {
    hide Do;
    assert ([op] + after)[1..] == after;
  }

  /**
   * The 32-bit scheduler's slot `id` after the snapshots `snaps`, for a periodic request `r`
   * registered at time `t`. Its `next_release` is its first release plus a whole number of
   * periods, that number being the nominal releases up to the last snapshot; nothing else in
   * the slot has changed; it has executed at most once per nominal release, and exactly once
   * iff no snapshot found two new releases. That is so when the first snapshot comes before
   * the second release and the others at most one period apart.
   */
  ghost predicate NeverDrifts(t: nat, r: Request, snaps: seq<nat>, id: nat, out: Outcome)
    requires r.period > 0
  {
    var first := t + r.delay;
    var released := ReleasesBefore(first, r.period, snaps, |snaps|);
    && id < |out.s.tasks|
    && out.s.tasks[id] == NewTask(Wrapped, t, r).(nextRelease := Wrap(first + released * r.period))
    && Runs(out.log, id) <= released
    && (Runs(out.log, id) == released <==> NoneSkipped(first, r.period, snaps))
    && (Spaced(first - 1, snaps, r.period) ==> Runs(out.log, id) == released)
  }

  lemma OnGridMeans(t: nat, r: Request, snaps: seq<nat>, id: nat, out: Outcome)
    requires r.period > 0 && OnGrid(NewTask(Unbounded, t, r), snaps, id, out.s, out.log) && Ascending(snaps)
    ensures NeverDrifts(t, r, snaps, id, WrapOutcome(out))
  {
    hide Spaced, NoneSkipped, Ascending;
    var first := t + r.delay;
    RunsWrap(out.log, id);
    RunsOnGrid(first, r.period, snaps);
  }

  lemma RunsOnGrid(first: int, period: int, snaps: seq<nat>)
    requires period > 0 && Ascending(snaps)
    ensures var released := ReleasesBefore(first, period, snaps, |snaps|);
            var n := NewReleaseSnapshots(first, period, snaps, 0);
            && n <= released
            && (n == released <==> NoneSkipped(first, period, snaps))
            && (Spaced(first - 1, snaps, period) ==> n == released)
  {
    NewReleasesBound(first, period, snaps, 0);
    if Spaced(first - 1, snaps, period) {
      FrequentObservationsSkipNothing(first, period, first - 1, snaps);
    }
  }

  /** The step `op` from `at` filled slot `id` with one of `joins`, which governs the slot's releases ever after. */
  ghost predicate Governed(
    at: State, op: Op, end: nat, joins: seq<Joining>, id: nat, snaps: seq<nat>, out: Outcome)
    requires at.Shape()
  {
    && at.count <= id < at.count + |joins|
    && var j := joins[id - at.count];
       && Requests(Unbounded, at, op, j.request) && !j.request.fn.Null? && j.request.period > 0
       && (if op.Cycle? then at.now + op.script.arrival else at.now) <= j.at <= end
       && NeverDrifts(j.at, j.request, snaps, id, out)
  }

  /**
   * No drift for any task, on 32-bit ticks: take any history that keeps the half-range rule,
   * any step of it, and any slot the step fills with a periodic task, whether the main line
   * registered it or a callback in the middle of a cycle. The request that got the slot, with
   * the time at which it was made, governs that slot for ever after.
   */
  lemma NewTaskNeverDrifts(start: nat, before: seq<Op>, op: Op, after: seq<Op>, id: nat)
    requires HistoryOk(Fresh(start), start, before + ([op] + after))
    requires var at := DoAll(Unbounded, Fresh(start), before).s;
             var added := Do(Unbounded, at, op).s;
             at.count <= id < added.count && id < MAX_TASKS && added.tasks[id].period > 0
    ensures var at := DoAll(Unbounded, Fresh(start), before).s;
            var added := Do(Unbounded, at, op).s;
            Governed(at, op, added.now, StepJoins(Unbounded, at, op), id, Snapshots(added, after),
                     DoAll(Wrapped, Fresh(start), before + ([op] + after)))
  {
    hide Do, DoAll, Snapshots, OnGrid, WrapOutcome, HistoryOk, NeverDrifts, SlotOk, StepJoins, Requests;
    var ops := before + ([op] + after);
    TicksRefineUnboundedTime(start, ops);
    FreshIsBoundary(start);
    ReachableAtBoundary(Unbounded, Fresh(start), before);
    var at := DoAll(Unbounded, Fresh(start), before).s;
    StepNewSlot(Unbounded, at, op, id);
    var j := StepJoins(Unbounded, at, op)[id - at.count];
    NewTaskOnGrid(Fresh(start), before, op, after, id);
    OnGridMeans(j.at, j.request, Snapshots(Do(Unbounded, at, op).s, after), id, DoAll(Unbounded, Fresh(start), ops));
  }

  /** The main line's request takes the next slot at once, unless the table is full. */
  lemma RegisteredTaskNeverDrifts(start: nat, before: seq<Op>, r: Request, after: seq<Op>)
    requires HistoryOk(Fresh(start), start, before + ([Main(Register(r))] + after))
    requires !r.fn.Null? && r.period > 0
    requires DoAll(Unbounded, Fresh(start), before).s.count < MAX_TASKS
    ensures var registered := DoAll(Unbounded, Fresh(start), before).s;
            var snaps := Snapshots(AddTask(Unbounded, registered, r).0, after);
            var out := DoAll(Wrapped, Fresh(start), before + ([Main(Register(r))] + after));
            NeverDrifts(registered.now, r, snaps, registered.count, out)
  {
    hide DoAll, Snapshots, NeverDrifts, HistoryOk;
    FreshIsBoundary(start);
    ReachableAtBoundary(Unbounded, Fresh(start), before);
    var registered := DoAll(Unbounded, Fresh(start), before).s;
    AddTaskIsDense(Unbounded, registered, r);
    assert Joins([Register(r)], registered.now) == [Joining(registered.now, r)] by {
      assert [Register(r)][1..] == [];
    }
    NewTaskNeverDrifts(start, before, Main(Register(r)), after, registered.count);
  }
}
