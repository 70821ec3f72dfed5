/**
 * Release accounting: over any history a periodic task's release never drifts from its
 * nominal grid, and its executions are exactly the snapshots that found a new release.
 */
module ReleaseAccounting {
  import opened Arithmetic
  import opened Ticks
  import opened SchedulerModel
  import opened CycleOrder

  // ------------------------------------------------------------------
  // Observations of a history
  // ------------------------------------------------------------------

  /** The snapshot times of the cycles of a history. */
  function Snapshots(s: State, ops: seq<Op>): seq<nat>
    requires s.Shape()
    decreases |ops|
  {
    if ops == [] then []
    else
      var rest := Snapshots(Do(Unbounded, s, ops[0]).s, ops[1..]);
      if ops[0].Cycle? then [s.now + ops[0].script.arrival] + rest else rest
  }

  /** Number of periodic executions of slot `i` in a log. */
  function Runs(log: seq<Entry>, i: nat): nat {
    if log == [] then 0
    else (if log[0].periodic && log[0].slot == i then 1 else 0) + Runs(log[1..], i)
  }

  /** Nominal releases observed before the j-th snapshot. */
  function ReleasesBefore(first: int, period: int, snaps: seq<nat>, j: nat): nat
    requires period > 0 && j <= |snaps|
  {
    if j == 0 then 0 else ReleasesBy(snaps[j - 1], first, period)
  }

  /** Number of snapshots, from the j-th on, that find at least one new nominal release. */
  function NewReleaseSnapshots(first: int, period: int, snaps: seq<nat>, j: nat): nat
    requires period > 0 && j <= |snaps|
    decreases |snaps| - j
  {
    if j == |snaps| then 0
    else
      (if ReleasesBefore(first, period, snaps, j + 1) > ReleasesBefore(first, period, snaps, j) then 1 else 0)
      + NewReleaseSnapshots(first, period, snaps, j + 1)
  }

  /** No snapshot finds two new releases at once. */
  ghost predicate NoneSkipped(first: int, period: int, snaps: seq<nat>)
    requires period > 0
  {
    forall j :: 0 <= j < |snaps| ==>
      ReleasesBefore(first, period, snaps, j + 1) <= ReleasesBefore(first, period, snaps, j) + 1
  }

  ghost predicate Ascending(snaps: seq<nat>) {
    forall j, k :: 0 <= j <= k < |snaps| ==> snaps[j] <= snaps[k]
  }

  // ------------------------------------------------------------------
  // The nominal grid
  // ------------------------------------------------------------------

  lemma ReleasesByMonotone(a: int, b: int, first: int, period: int)
    requires period > 0 && a <= b
    ensures ReleasesBy(a, first, period) <= ReleasesBy(b, first, period)
  {
    if first <= a {
      QuotientMonotone(a - first, b - first, period);
    } else if first <= b {
      QuotientSmall(b - first, period);
    }
  }

  /** Counting releases in two steps: up to `a`, then on from the release planned at `a`. */
  lemma ReleasesCompose(a: int, b: int, first: int, period: int)
    requires period > 0 && a <= b
    ensures ReleasesBy(b, first, period) ==
            ReleasesBy(a, first, period) + ReleasesBy(b, Advance(a, first, period), period)
  {
    var k := ReleasesBy(a, first, period);
    if first <= a {
      var next := first + k * period;
      AdvanceIsFirstAfter(a, first, period);
      if next <= b {
        QuotientShift(b - first, period, k);
      } else {
        AdvanceWithin(a, b, first, period);
      }
    }
  }

  /** Between two times with no planned release, the count stands still. */
  lemma AdvanceWithin(a: int, b: int, first: int, period: int)
    requires period > 0 && first <= a <= b < Advance(a, first, period)
    ensures ReleasesBy(b, first, period) == ReleasesBy(a, first, period)
  {
    ReleasesByMonotone(a, b, first, period);
    var m, n := ReleasesBy(a, first, period), ReleasesBy(b, first, period);
    DivStep(b - first, period);
    assert first + n * period <= b + period;
    assert (n - 1) * period == n * period - period;
    if m <= n - 1 {
      ProductOrder(m, n - 1, period);
    }
  }

  /** Dropping the first snapshot restarts the count at the release planned there. */
  lemma {:induction false} NewReleasesShift(first: int, period: int, snaps: seq<nat>, j: nat)
    requires period > 0 && |snaps| > 0 && Ascending(snaps) && 1 <= j <= |snaps|
    ensures NewReleaseSnapshots(first, period, snaps, j) ==
            NewReleaseSnapshots(Advance(snaps[0], first, period), period, snaps[1..], j - 1)
    decreases |snaps| - j
  {
    if j < |snaps| {
      BeforeShift(first, period, snaps, j);
      BeforeShift(first, period, snaps, j + 1);
      NewReleasesShift(first, period, snaps, j + 1);
    }
  }

  lemma BeforeShift(first: int, period: int, snaps: seq<nat>, j: nat)
    requires period > 0 && |snaps| > 0 && Ascending(snaps) && 1 <= j <= |snaps|
    ensures ReleasesBefore(first, period, snaps, j) ==
            ReleasesBy(snaps[0], first, period)
            + ReleasesBefore(Advance(snaps[0], first, period), period, snaps[1..], j - 1)
  {
    if j == 1 {
    } else {
      ReleasesCompose(snaps[0], snaps[j - 1], first, period);
    }
  }

  /** Snapshots with a new release never outnumber the releases, and match them iff none is skipped. */
  lemma {:induction false} NewReleasesBound(first: int, period: int, snaps: seq<nat>, j: nat)
    requires period > 0 && Ascending(snaps) && j <= |snaps|
    ensures var total := ReleasesBefore(first, period, snaps, |snaps|) - ReleasesBefore(first, period, snaps, j);
            var n := NewReleaseSnapshots(first, period, snaps, j);
            && n <= total
            && (n == total <==>
                forall k :: j <= k < |snaps| ==>
                  ReleasesBefore(first, period, snaps, k + 1) <= ReleasesBefore(first, period, snaps, k) + 1)
    decreases |snaps| - j
  {
    if j < |snaps| {
      NewReleasesBound(first, period, snaps, j + 1);
      if j > 0 {
        ReleasesByMonotone(snaps[j - 1], snaps[j], first, period);
      }
    }
  }

  // ------------------------------------------------------------------
  // Counting executions
  // ------------------------------------------------------------------

  lemma {:induction false} RunsAppend(a: seq<Entry>, b: seq<Entry>, i: nat)
    ensures Runs(a + b, i) == Runs(a, i) + Runs(b, i)
  {
    if a == [] {
      assert a + b == b;
    } else {
      assert (a + b)[1..] == a[1..] + b;
      RunsAppend(a[1..], b, i);
    }
  }

  lemma {:induction false} RunsOfBackground(log: seq<Entry>, i: nat)
    requires forall j :: 0 <= j < |log| ==> !log[j].periodic
    ensures Runs(log, i) == 0
  {
    if log != [] {
      RunsOfBackground(log[1..], i);
    }
  }

  lemma {:induction false} RunsOfDistinct(log: seq<Entry>, i: nat)
    requires forall j :: 0 <= j < |log| ==> log[j].periodic
    requires forall j, k :: 0 <= j < k < |log| ==> log[j].slot != log[k].slot
    ensures Runs(log, i) == if i in Slots(log) then 1 else 0
  {
    if log != [] {
      RunsOfDistinct(log[1..], i);
      assert log == [log[0]] + log[1..];
      PrependSlots(log[0], log[1..]);
      forall k | 0 <= k < |log[1..]|
        ensures log[1..][k].slot != log[0].slot
      {
        assert log[1..][k] == log[k + 1];
      }
    }
  }

  lemma CycleRunsOf(s: State, script: Script, i: nat)
    requires AtBoundary(s) && i < MAX_TASKS
    ensures Runs(RunCycle(Unbounded, s, script).log, i) ==
            if Due(Unbounded, s.tasks[i], s.now + script.arrival) then 1 else 0
  {
    hide PeriodicPhase, MarkReady, BackgroundStep;
    var p := PeriodicPart(Unbounded, s, script);
    var b := BackgroundStep(Unbounded, p.s, script.background, script.idle);
    CycleRunsExactlyDue(Unbounded, s, script);
    CycleRunsEachOnce(Unbounded, s, script);
    assert forall j :: 0 <= j < |p.log| ==> Executed(Unbounded, s.tasks, s.now + script.arrival, p.log[j]);
    RunsOfDistinct(p.log, i);
    BackgroundStepEffect(Unbounded, p.s, script.background, script.idle);
    RunsOfBackground(b.log, i);
    RunsAppend(p.log, b.log, i);
  }

  lemma {:induction false} SnapshotsAscend(s: State, ops: seq<Op>)
    requires AtBoundary(s)
    ensures Ascending(Snapshots(s, ops))
    ensures forall j :: 0 <= j < |Snapshots(s, ops)| ==> s.now <= Snapshots(s, ops)[j]
    decreases |ops|
  {
    if ops != [] {
      hide Do;
      DoKeepsBoundary(Unbounded, s, ops[0]);
      SnapshotsAscend(Do(Unbounded, s, ops[0]).s, ops[1..]);
      if ops[0].Cycle? {
        assert s.now + ops[0].script.arrival <= Do(Unbounded, s, ops[0]).s.now by {
          CycleEndsAfterSnapshot(s, ops[0].script);
        }
      }
    }
  }

  lemma CycleEndsAfterSnapshot(s: State, script: Script)
    requires AtBoundary(s)
    ensures s.now + script.arrival <= Do(Unbounded, s, Cycle(script)).s.now
  {
    CycleEffect(Unbounded, s, script);
  }

  // ------------------------------------------------------------------
  // Main results
  // ------------------------------------------------------------------

  /** One step seen by the periodic task in slot `i`. */
  lemma StepTimeline(s: State, op: Op, i: nat)
    requires AtBoundary(s) && i < s.count && s.tasks[i].Periodic()
    ensures var t := s.tasks[i];
            var first := Do(Unbounded, s, op);
            && (op.Main? ==> first.s.tasks[i] == t && Runs(first.log, i) == 0)
            && (op.Cycle? ==>
                  var now := s.now + op.script.arrival;
                  && first.s.tasks[i] == t.(nextRelease := Advance(now, t.nextRelease, t.period))
                  && Runs(first.log, i) == if t.nextRelease <= now then 1 else 0)
  {
    hide RunCycle;
    match op
    case Main(a) =>
      ActGrows(Unbounded, s, a);
    case Cycle(script) =>
      CycleEffect(Unbounded, s, script);
      CycleRunsOf(s, script, i);
      AdvanceIsFirstAfter(s.now + script.arrival, s.tasks[i].nextRelease, s.tasks[i].period);
  }

  /** Slot `i` of `s'`, and its executions in `log`, as the nominal grid of `t` and the snapshots have it. */
  ghost predicate OnGrid(t: Task, snaps: seq<nat>, i: nat, s': State, log: seq<Entry>) {
    && t.period > 0
    && i < |s'.tasks|
    && s'.tasks[i] ==
         t.(nextRelease := t.nextRelease + ReleasesBefore(t.nextRelease, t.period, snaps, |snaps|) * t.period)
    && Runs(log, i) == NewReleaseSnapshots(t.nextRelease, t.period, snaps, 0)
  }

  lemma OnGridPrepend(t: Task, snaps: seq<nat>, i: nat, s': State, log: seq<Entry>, rest: seq<Entry>)
    requires t.period > 0 && |snaps| > 0 && Ascending(snaps)
    requires Runs(log, i) == if t.nextRelease <= snaps[0] then 1 else 0
    requires OnGrid(t.(nextRelease := Advance(snaps[0], t.nextRelease, t.period)), snaps[1..], i, s', rest)
    ensures OnGrid(t, snaps, i, s', log + rest)
  {
    TimelineStep(t.nextRelease, t.period, snaps);
    RunsAppend(log, rest, i);
  }

  /**
   * No drift and exact accounting, over every history: the release of a periodic task is its
   * first release plus the number of nominal releases up to the last snapshot times its
   * period, and it has executed once per snapshot that found a new release.
   */
  lemma {:induction false} ReleaseTimeline(s: State, ops: seq<Op>, i: nat)
    requires AtBoundary(s) && i < s.count && s.tasks[i].Periodic()
    ensures OnGrid(s.tasks[i], Snapshots(s, ops), i, DoAll(Unbounded, s, ops).s, DoAll(Unbounded, s, ops).log)
    decreases |ops|
  {
    hide Do, OnGrid, SlotOk, Ascending, Advance;
    if ops == [] {
      OnGridAtStart(s, i);
    } else {
      var t := s.tasks[i];
      var first := Do(Unbounded, s, ops[0]);
      var rest := DoAll(Unbounded, first.s, ops[1..]);
      DoKeepsBoundary(Unbounded, s, ops[0]);
      StepTimeline(s, ops[0], i);
      ReleaseTimeline(first.s, ops[1..], i);
      if ops[0].Cycle? {
        var snaps := Snapshots(s, ops);
        SnapshotsAscend(s, ops);
        assert snaps[1..] == Snapshots(first.s, ops[1..]);
        OnGridPrepend(t, snaps, i, rest.s, first.log, rest.log);
      } else {
        MainLogsNothing(s, ops[0]);
        assert first.log + rest.log == rest.log;
      }
    }
  }

  lemma OnGridAtStart(s: State, i: nat)
    requires AtBoundary(s) && i < s.count && s.tasks[i].Periodic()
    ensures OnGrid(s.tasks[i], [], i, s, [])
  {
  }

  lemma MainLogsNothing(s: State, op: Op)
    requires s.Shape() && op.Main?
    ensures Do(Unbounded, s, op).log == []
  {
  }

  lemma TimelineStep(first: int, period: int, snaps: seq<nat>)
    requires period > 0 && |snaps| > 0 && Ascending(snaps)
    ensures var next := Advance(snaps[0], first, period);
            var rest := snaps[1..];
            && first + ReleasesBefore(first, period, snaps, |snaps|) * period ==
               next + ReleasesBefore(next, period, rest, |rest|) * period
            && NewReleaseSnapshots(first, period, snaps, 0) ==
               (if first <= snaps[0] then 1 else 0) + NewReleaseSnapshots(next, period, rest, 0)
  {
    BeforeShift(first, period, snaps, |snaps|);
    var k := ReleasesBy(snaps[0], first, period);
    var n := ReleasesBefore(Advance(snaps[0], first, period), period, snaps[1..], |snaps| - 1);
    assert (k + n) * period == k * period + n * period;
    NewReleasesShift(first, period, snaps, 1);
    if first <= snaps[0] {
      QuotientSmall(snaps[0] - first, period);
    }
  }

  /** Executions never exceed nominal releases, and match them exactly when none is skipped. */
  lemma ExecutionsVersusReleases(s: State, ops: seq<Op>, i: nat)
    requires AtBoundary(s) && i < s.count && s.tasks[i].Periodic()
    ensures var t := s.tasks[i];
            var snaps := Snapshots(s, ops);
            var released := ReleasesBefore(t.nextRelease, t.period, snaps, |snaps|);
            var runs := Runs(DoAll(Unbounded, s, ops).log, i);
            && runs <= released
            && (runs == released <==> NoneSkipped(t.nextRelease, t.period, snaps))
  {
    ReleaseTimeline(s, ops, i);
    SnapshotsAscend(s, ops);
    NewReleasesBound(s.tasks[i].nextRelease, s.tasks[i].period, Snapshots(s, ops), 0);
  }

  /** The observation before the j-th snapshot. */
  ghost function ObservedBefore(seen: int, snaps: seq<nat>, j: nat): int
    requires j <= |snaps|
  {
    if j == 0 then seen else snaps[j - 1]
  }

  /** Each observation comes at most `gap` ticks after the one before it, the first after `seen`. */
  ghost predicate Spaced(seen: int, snaps: seq<nat>, gap: int) {
    forall j :: 0 <= j < |snaps| ==> snaps[j] <= ObservedBefore(seen, snaps, j) + gap
  }

  /** Observations at most one period apart, from one before the first release on, skip nothing. */
  lemma FrequentObservationsSkipNothing(first: int, period: int, seen: int, snaps: seq<nat>)
    requires period > 0 && Ascending(snaps) && seen < first && Spaced(seen, snaps, period)
    ensures NoneSkipped(first, period, snaps)
  {
    forall j | 0 <= j < |snaps|
      ensures ReleasesBefore(first, period, snaps, j + 1) <= ReleasesBefore(first, period, snaps, j) + 1
    {
      if j == 0 {
        if first <= snaps[0] {
          QuotientSmall(snaps[0] - first, period);
        }
      } else {
        var a, b := snaps[j - 1], snaps[j];
        assert b <= ObservedBefore(seen, snaps, j) + period;
        ReleasesCompose(a, b, first, period);
        AdvanceIsFirstAfter(a, first, period);
        var next := Advance(a, first, period);
        if next <= b {
          QuotientSmall(b - next, period);
        }
      }
    }
  }

  // ------------------------------------------------------------------
  // Histories in a row
  // ------------------------------------------------------------------

  lemma {:induction false} DoAllAppend(c: Clock, s: State, a: seq<Op>, b: seq<Op>)
    requires s.Shape()
    ensures var first := DoAll(c, s, a);
            var rest := DoAll(c, first.s, b);
            DoAll(c, s, a + b) == Outcome(rest.s, first.log + rest.log)
    decreases |a|
  {
    if a == [] {
      assert a + b == b;
    } else {
      hide Do;
      assert (a + b)[1..] == a[1..] + b;
      var first := Do(c, s, a[0]);
      DoAllAppend(c, first.s, a[1..], b);
      var mid := DoAll(c, first.s, a[1..]);
      assert first.log + (mid.log + DoAll(c, mid.s, b).log) == first.log + mid.log + DoAll(c, mid.s, b).log;
    }
  }
}
