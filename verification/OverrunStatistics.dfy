/** The overrun counter of a schedulable task: the response-time bound seen in the statistics. */
module OverrunStatistics {
  import opened SchedulerModel
  import opened CycleOrder
  import opened TickRefinement
  import opened ReleaseAccounting
  import opened ResponseTime
  import opened StatsFold

  /** No entry of slot `i` is judged an overrun. */
  ghost predicate NoOverrunOf(log: seq<Entry>, i: nat) {
    forall k :: 0 <= k < |log| && log[k].slot == i ==> !log[k].overrun
  }

  lemma NoOverrunOfParts(a: seq<Entry>, b: seq<Entry>, i: nat)
    ensures NoOverrunOf(a + b, i) <==> NoOverrunOf(a, i) && NoOverrunOf(b, i)
  {
    if NoOverrunOf(a + b, i) {
      forall k | 0 <= k < |a|
        ensures a[k].slot == i ==> !a[k].overrun
      {
        assert (a + b)[k] == a[k];
      }
      forall k | 0 <= k < |b|
        ensures b[k].slot == i ==> !b[k].overrun
      {
        assert (a + b)[|a| + k] == b[k];
      }
    }
  }

  lemma {:induction false} OverrunsAppend(a: seq<Entry>, b: seq<Entry>, i: nat)
    requires NoOverrunOf(b, i)
    ensures Overruns(Of(a + b, i)) == Overruns(Of(a, i))
    decreases |b|
  {
    if b == [] {
      assert a + b == a;
    } else {
      var last := |b| - 1;
      assert a + b == a + b[..last] + [b[last]];
      OfAppend(a + b[..last], b[last], i);
      OverrunsAppend(a, b[..last], i);
      OverrunsOneMore(Of(a + b[..last], i), b[last]);
      assert Of(a + b[..last], i) + [] == Of(a + b[..last], i);
    }
  }

  lemma OverrunsOneMore(log: seq<Entry>, e: Entry)
    ensures Overruns(log + [e]) == Overruns(log) + (if e.overrun then 1 else 0)
  {
    assert (log + [e])[..|log|] == log;
  }

  ghost predicate HasMainReset(ops: seq<Op>) {
    Main(ResetStats) in ops
  }

  /** Entries without an overrun add nothing to the overruns since the last reset. */
  lemma {:induction false} OverrunsSince(c: Clock, s: State, before: seq<Entry>, ops: seq<Op>, i: nat)
    requires s.Shape() && NoOverrunOf(DoAll(c, s, ops).log, i)
    ensures Overruns(Of(LogSince(c, s, before, ops), i)) ==
            if HasMainReset(ops) then 0 else Overruns(Of(before, i))
    decreases |ops|
  {
    hide Do, NoOverrunOf, Overruns, Of;
    if ops != [] {
      var first := Do(c, s, ops[0]);
      var rest := DoAll(c, first.s, ops[1..]);
      NoOverrunOfParts(first.log, rest.log, i);
      if ops[0] == Main(ResetStats) {
        OverrunsSince(c, first.s, [], ops[1..], i);
        NothingOverran(i);
      } else {
        OverrunsSince(c, first.s, before + first.log, ops[1..], i);
        OverrunsAppend(before, first.log, i);
      }
    }
  }

  lemma NothingOverran(i: nat)
    ensures Overruns(Of([], i)) == 0
  {
  }

  /** Background executions are never judged overruns. */
  lemma {:induction false} OnlyPeriodicOverruns(c: Clock, s: State, ops: seq<Op>, k: nat)
    requires AtBoundary(s) && k < |DoAll(c, s, ops).log|
    ensures var e := DoAll(c, s, ops).log[k]; e.overrun ==> e.periodic
    decreases |ops|
  {
    hide Do, SlotOk;
    var first := Do(c, s, ops[0]);
    DoKeepsBoundary(c, s, ops[0]);
    if k < |first.log| {
      StepOnlyPeriodicOverruns(c, s, ops[0], k);
    } else {
      OnlyPeriodicOverruns(c, first.s, ops[1..], k - |first.log|);
    }
  }

  lemma StepOnlyPeriodicOverruns(c: Clock, s: State, op: Op, k: nat)
    requires AtBoundary(s) && k < |Do(c, s, op).log|
    ensures var e := Do(c, s, op).log[k]; e.overrun ==> e.periodic
  {
    hide RunCycle, PeriodicPart, BackgroundStep, SlotOk;
    if op.Cycle? {
      var p := PeriodicPart(c, s, op.script);
      var b := BackgroundStep(c, p.s, op.script.background, op.script.idle);
      CycleLog(c, s, op.script);
      CycleRunsExactlyDue(c, s, op.script);
      BackgroundStepEffect(c, p.s, op.script.background, op.script.idle);
      if k < |p.log| {
        assert Executed(c, s.tasks, s.now + op.script.arrival, p.log[k]);
      } else {
        assert BackgroundEntry(p.s.tasks, b.log[k - |p.log|]);
      }
    }
  }

  lemma {:induction false} HistoryOkPrefix(s: State, seen: int, a: seq<Op>, b: seq<Op>)
    requires s.Shape() && HistoryOk(s, seen, a + b)
    ensures HistoryOk(s, seen, a)
    decreases |a|
  {
    if a != [] {
      hide Do, StepOk;
      assert (a + b)[1..] == a[1..] + b;
      HistoryOkPrefix(Do(Unbounded, s, a[0]).s, SeenAfter(s, seen, a[0]), a[1..], b);
    }
  }

  /**
   * On 32-bit ticks, whatever set the tasks up: over a budgeted history without resets inside
   * callbacks, the overrun counter of a schedulable task never moves. It stays what it was
   * after the setup, or is zero once the main line has reset the statistics.
   */
  lemma SchedulableTaskCountsNoOverrun(
    start: nat, setup: seq<Op>, seen: int, phaseEnd: int, ops: seq<Op>, cost: Cost, other: nat, i: nat)
    requires HistoryOk(Fresh(start), start, setup + ops)
    requires forall k :: 0 <= k < |setup + ops| ==> OpKeepsStats((setup + ops)[k])
    requires var s := DoAll(Unbounded, Fresh(start), setup).s;
             && Caught(s, seen, phaseEnd, cost) && Budgeted(s, phaseEnd, ops, cost, other)
             && i < s.count && i < MAX_TASKS && Schedulable(s.tasks, cost, other, i)
    ensures var before := DoAll(Wrapped, Fresh(start), setup).s.stats;
            var after := DoAll(Wrapped, Fresh(start), setup + ops).s.stats;
            after[i].overrunCount == if HasMainReset(ops) then 0 else before[i].overrunCount
  {
    hide DoAll, LogSince, Budgeted, Caught, HistoryOk, OpKeepsStats, Schedulable, AllInTime, Overruns, Of;
    HistoryOkPrefix(Fresh(start), start, setup, ops);
    TicksRefineUnboundedTime(start, setup);
    TicksRefineUnboundedTime(start, setup + ops);
    FreshIsBoundary(start);
    ReachableAtBoundary(Unbounded, Fresh(start), setup);
    DoAllAppend(Unbounded, Fresh(start), setup, ops);
    var s := DoAll(Unbounded, Fresh(start), setup).s;
    var all := setup + ops;
    assert forall k :: 0 <= k < |setup| ==> OpKeepsStats(all[k]) && setup[k] == all[k];
    assert forall k :: 0 <= k < |ops| ==> OpKeepsStats(all[|setup| + k]) && ops[k] == all[|setup| + k];
    StatisticsFromInitialisation(Unbounded, start, setup);
    var log := LogSince(Unbounded, Fresh(start), [], setup);
    StatisticsAreFolds(Unbounded, s, ops, log);
    ScheduledNeverOverruns(s, seen, phaseEnd, ops, cost, other, i);
    OverrunsSince(Unbounded, s, log, ops, i);
  }

  lemma ScheduledNeverOverruns(
    s: State, seen: int, phaseEnd: int, ops: seq<Op>, cost: Cost, other: nat, i: nat)
    requires AtBoundary(s) && Caught(s, seen, phaseEnd, cost) && Budgeted(s, phaseEnd, ops, cost, other)
    requires i < s.count && i < MAX_TASKS && Schedulable(s.tasks, cost, other, i)
    ensures NoOverrunOf(DoAll(Unbounded, s, ops).log, i)
  {
    hide DoAll, Budgeted, Caught, CycleSpan, Interference, Schedulable;
    EveryExecutionInTime(s, seen, phaseEnd, ops, cost, other);
    var log := DoAll(Unbounded, s, ops).log;
    forall k | 0 <= k < |log| && log[k].slot == i
      ensures !log[k].overrun
    {
      OnlyPeriodicOverruns(Unbounded, s, ops, k);
      assert InTime(s.tasks, cost, other, log[k]);
    }
  }
}
