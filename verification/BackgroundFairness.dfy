/** Round-robin fairness of the background tasks over whole histories. */
module BackgroundFairness {
  import opened Arithmetic
  import opened SchedulerModel
  import opened CycleOrder

  // ------------------------------------------------------------------
  // Cyclic distance and rank
  // ------------------------------------------------------------------

  /** Steps from `cursor` forward to slot `x` around the table. */
  function Distance(cursor: nat, x: nat): (d: int)
    requires cursor < MAX_TASKS && x < MAX_TASKS
    ensures 0 <= d < MAX_TASKS
  {
    if cursor <= x then x - cursor else x - cursor + MAX_TASKS
  }

  ghost function BackgroundSlots(tasks: seq<Task>): (slots: set<nat>)
    ensures forall z :: z in slots ==> z < |tasks|
  {
    set i: nat | 0 <= i < |tasks| && tasks[i].Background()
  }

  ghost predicate InTable(slots: set<nat>) {
    forall z :: z in slots ==> z < MAX_TASKS
  }

  /** The members of `slots` that come before `x`, seen from `cursor`. */
  ghost function Ahead(slots: set<nat>, cursor: nat, x: nat): set<nat>
    requires cursor < MAX_TASKS && x < MAX_TASKS && InTable(slots)
  {
    set z | z in slots && Distance(cursor, z) < Distance(cursor, x)
  }

  ghost function Rank(slots: set<nat>, cursor: nat, x: nat): nat
    requires cursor < MAX_TASKS && x < MAX_TASKS && InTable(slots)
  {
    |Ahead(slots, cursor, x)|
  }

  lemma SlotAtDistance(cursor: nat, offset: nat, x: nat)
    requires cursor < MAX_TASKS && offset < MAX_TASKS && x < MAX_TASKS
    ensures Distance(cursor, x) == offset <==> x == (cursor + offset) % MAX_TASKS
  {
  }

  /** The selection takes the background slot nearest to the cursor. */
  lemma {:induction false} SelectionIsNearest(tasks: seq<Task>, cursor: nat, offset: nat)
    requires |tasks| == MAX_TASKS && cursor < MAX_TASKS && offset <= MAX_TASKS
    ensures var k := SelectBackground(tasks, cursor, offset);
            && (k == INVALID_TASK_ID ==>
                  forall x :: 0 <= x < MAX_TASKS && tasks[x].Background() ==> Distance(cursor, x) < offset)
            && (k != INVALID_TASK_ID ==>
                  && tasks[k].Background() && offset <= Distance(cursor, k)
                  && forall x :: 0 <= x < MAX_TASKS && tasks[x].Background() ==>
                       Distance(cursor, x) < offset || Distance(cursor, k) <= Distance(cursor, x))
    decreases MAX_TASKS - offset
  {
    if offset < MAX_TASKS {
      var i := (cursor + offset) % MAX_TASKS;
      forall x | 0 <= x < MAX_TASKS
        ensures Distance(cursor, x) == offset <==> x == i
      {
        SlotAtDistance(cursor, offset, x);
      }
      hide Distance;
      if !tasks[i].Background() {
        SelectionIsNearest(tasks, cursor, offset + 1);
      }
    }
  }

  /** After picking `y`, the cursor is just past it and every other slot is that much nearer. */
  lemma DistanceAfterPick(cursor: nat, y: nat, x: nat)
    requires cursor < MAX_TASKS && y < MAX_TASKS && x < MAX_TASKS
    requires Distance(cursor, y) <= Distance(cursor, x)
    ensures var next := (y + 1) % MAX_TASKS;
            Distance(next, x) == if x == y then MAX_TASKS - 1 else Distance(cursor, x) - Distance(cursor, y) - 1
  {
  }

  /** `y` is the member of `slots` nearest to the cursor. */
  ghost predicate Nearest(slots: set<nat>, cursor: nat, y: nat)
    requires cursor < MAX_TASKS && InTable(slots)
  {
    y in slots && forall z :: z in slots ==> Distance(cursor, y) <= Distance(cursor, z)
  }

  lemma RankAfterPick(slots: set<nat>, cursor: nat, y: nat, x: nat)
    requires cursor < MAX_TASKS && InTable(slots) && Nearest(slots, cursor, y) && x in slots
    ensures Rank(slots, cursor, x) == 0 <==> x == y
    ensures Rank(slots, (y + 1) % MAX_TASKS, x) == if x == y then |slots| - 1 else Rank(slots, cursor, x) - 1
  {
    var next := (y + 1) % MAX_TASKS;
    forall z | z in slots
      ensures Distance(next, z) == if z == y then MAX_TASKS - 1 else Distance(cursor, z) - Distance(cursor, y) - 1
    {
      DistanceAfterPick(cursor, y, z);
    }
    if x == y {
      assert Ahead(slots, cursor, x) == {};
      assert Ahead(slots, next, x) == slots - {y};
    } else {
      assert y in Ahead(slots, cursor, x);
      assert Ahead(slots, next, x) == Ahead(slots, cursor, x) - {y};
    }
  }

  // ------------------------------------------------------------------
  // One cycle
  // ------------------------------------------------------------------

  /** The background slot that a cycle will run, after its periodic phase. */
  function Pick(c: Clock, s: State, script: Script): int
    requires s.Shape()
  {
    SelectBackground(PeriodicPart(c, s, script).s.tasks, s.cursor, 0)
  }

  /** Slots of the background executions of a log, in order. */
  function Picks(log: seq<Entry>): seq<nat> {
    if log == [] then []
    else (if log[0].periodic then [] else [log[0].slot]) + Picks(log[1..])
  }

  lemma {:induction false} PicksAppend(a: seq<Entry>, b: seq<Entry>)
    ensures Picks(a + b) == Picks(a) + Picks(b)
  {
    if a == [] {
      assert a + b == b;
    } else {
      assert (a + b)[1..] == a[1..] + b;
      PicksAppend(a[1..], b);
    }
  }

  lemma {:induction false} PicksOfPeriodic(log: seq<Entry>)
    requires forall k :: 0 <= k < |log| ==> log[k].periodic
    ensures Picks(log) == []
  {
    if log != [] {
      PicksOfPeriodic(log[1..]);
    }
  }

  lemma StepPicks(c: Clock, s: State, call: Call, idle: nat)
    requires AtBoundary(s)
    ensures var i := SelectBackground(s.tasks, s.cursor, 0);
            var out := BackgroundStep(c, s, call, idle);
            && Picks(out.log) == (if i == INVALID_TASK_ID then [] else [i])
            && out.s.cursor == (if i == INVALID_TASK_ID then s.cursor else (i + 1) % MAX_TASKS)
  {
    hide SelectBackground, Invoke;
    var i := SelectBackground(s.tasks, s.cursor, 0);
    if i != INVALID_TASK_ID {
      SelectionIsNearest(s.tasks, s.cursor, 0);
      assert SlotOk(s.tasks[i], i < s.count);
      var s1 := s.(cursor := (i + 1) % MAX_TASKS);
      forall j | 0 <= j < MAX_TASKS
        ensures SlotOk(s1.tasks[j], j < s1.count)
      {
        assert SlotOk(s.tasks[j], j < s.count);
      }
      InvokeGrows(c, s1, i, call);
    }
  }

  lemma PeriodicPartPicks(c: Clock, s: State, script: Script)
    requires AtBoundary(s)
    ensures var p := PeriodicPart(c, s, script);
            AtBoundary(p.s) && p.s.cursor == s.cursor && Picks(p.log) == []
  {
    hide PeriodicPart, SlotOk, Ordered, Slots, DueSlots;
    CycleRunsExactlyDue(c, s, script);
    var p := PeriodicPart(c, s, script);
    assert forall k :: 0 <= k < |p.log| ==> Executed(c, s.tasks, s.now + script.arrival, p.log[k]);
    PicksOfPeriodic(p.log);
  }

  /** Every cycle executes exactly one background task if any is registered, and moves the cursor past it. */
  lemma CyclePicks(c: Clock, s: State, script: Script)
    requires AtBoundary(s)
    ensures var i := Pick(c, s, script);
            var out := RunCycle(c, s, script);
            && Picks(out.log) == (if i == INVALID_TASK_ID then [] else [i])
            && out.s.cursor == (if i == INVALID_TASK_ID then s.cursor else (i + 1) % MAX_TASKS)
  {
    hide RunCycle, PeriodicPart, BackgroundStep, SelectBackground, SlotOk, Picks;
    PeriodicPartPicks(c, s, script);
    var p := PeriodicPart(c, s, script);
    var b := BackgroundStep(c, p.s, script.background, script.idle);
    CycleEnd(c, s, script);
    CycleLog(c, s, script);
    StepPicks(c, p.s, script.background, script.idle);
    PicksAppend(p.log, b.log);
  }

  lemma CycleEnd(c: Clock, s: State, script: Script)
    requires s.Shape()
    ensures RunCycle(c, s, script).s ==
            BackgroundStep(c, PeriodicPart(c, s, script).s, script.background, script.idle).s
  {
    hide PeriodicPhase, BackgroundStep;
  }

  /** The cycle picks the background slot nearest to the cursor among those registered by then. */
  lemma CyclePicksNearest(c: Clock, s: State, script: Script, x: nat)
    requires AtBoundary(s) && x < s.count && s.tasks[x].Background()
    ensures var i := Pick(c, s, script);
            0 <= i < MAX_TASKS && Distance(s.cursor, i) <= Distance(s.cursor, x)
  {
    hide PeriodicPart, SelectBackground;
    CycleRunsExactlyDue(c, s, script);
    var p := PeriodicPart(c, s, script);
    assert p.s.tasks[x] == s.tasks[x];
    SelectionIsNearest(p.s.tasks, s.cursor, 0);
  }

  // ------------------------------------------------------------------
  // While tasks are still being registered
  // ------------------------------------------------------------------

  function Cycles(ops: seq<Op>): nat {
    if ops == [] then 0 else (if ops[0].Cycle? then 1 else 0) + Cycles(ops[1..])
  }

  lemma StepKeepsBackground(c: Clock, s: State, op: Op, x: nat)
    requires AtBoundary(s) && x < s.count && s.tasks[x].Background()
    ensures var s' := Do(c, s, op).s;
            && AtBoundary(s') && x < s'.count && s'.tasks[x] == s.tasks[x]
            && (op.Main? ==> s'.cursor == s.cursor)
  {
    hide RunCycle, Act;
    DoKeepsBoundary(c, s, op);
    match op
    case Main(a) => ActGrows(c, s, a);
    case Cycle(script) => CycleEffect(c, s, script);
  }

  /** A cycle either picks `x` or brings the cursor nearer to it. */
  lemma PickApproaches(c: Clock, s: State, script: Script, x: nat)
    requires AtBoundary(s) && x < s.count && s.tasks[x].Background()
    ensures var out := RunCycle(c, s, script);
            && out.s.cursor < MAX_TASKS
            && (x in Picks(out.log) || Distance(out.s.cursor, x) < Distance(s.cursor, x))
  {
    hide RunCycle, Pick, Picks;
    CyclePicks(c, s, script);
    CyclePicksNearest(c, s, script, x);
    DistanceAfterPick(s.cursor, Pick(c, s, script), x);
  }

  /**
   * No background task waits longer than the table is long: over any history, also while
   * tasks are being registered, a registered background task has run once more cycles have
   * passed than its distance from the cursor; so 64 cycles always suffice.
   */
  lemma {:induction false} BackgroundRunsWithinDistance(c: Clock, s: State, ops: seq<Op>, x: nat)
    requires AtBoundary(s) && x < s.count && s.tasks[x].Background()
    requires Distance(s.cursor, x) < Cycles(ops)
    ensures x in Picks(DoAll(c, s, ops).log)
    decreases |ops|
  {
    hide Do, SlotOk, Distance, Picks;
    var op := ops[0];
    var first := Do(c, s, op);
    var rest := DoAll(c, first.s, ops[1..]);
    StepKeepsBackground(c, s, op, x);
    PicksAppend(first.log, rest.log);
    if op.Cycle? {
      DoCycle(c, s, op);
      PickApproaches(c, s, op.script, x);
    }
    if x !in Picks(first.log) {
      BackgroundRunsWithinDistance(c, first.s, ops[1..], x);
    }
  }

  lemma DoCycle(c: Clock, s: State, op: Op)
    requires s.Shape() && op.Cycle?
    ensures Do(c, s, op) == RunCycle(c, s, op.script)
  {
  }

  lemma StepWithoutPick(c: Clock, s: State, op: Op)
    requires AtBoundary(s) && Picks(Do(c, s, op).log) == []
    ensures AtBoundary(Do(c, s, op).s) && Do(c, s, op).s.cursor == s.cursor
  {
    hide RunCycle, Act, Pick, Picks;
    DoKeepsBoundary(c, s, op);
    match op
    case Main(a) => ActGrows(c, s, a);
    case Cycle(script) => CyclePicks(c, s, script);
  }

  lemma {:induction false} CursorWaits(c: Clock, s: State, ops: seq<Op>)
    requires AtBoundary(s) && Picks(DoAll(c, s, ops).log) == []
    ensures AtBoundary(DoAll(c, s, ops).s) && DoAll(c, s, ops).s.cursor == s.cursor
    decreases |ops|
  {
    hide Do, SlotOk, Picks;
    if ops != [] {
      var first := Do(c, s, ops[0]);
      PicksAppend(first.log, DoAll(c, first.s, ops[1..]).log);
      StepWithoutPick(c, s, ops[0]);
      CursorWaits(c, first.s, ops[1..]);
    }
  }

  /** The first background execution after initialisation, whenever it comes, is of the lowest background slot. */
  lemma FirstPickIsLowest(c: Clock, start: nat, ops: seq<Op>, script: Script)
    requires Picks(DoAll(c, Fresh(start), ops).log) == []
    ensures var s := DoAll(c, Fresh(start), ops).s;
            var tasks := PeriodicPart(c, s, script).s.tasks;
            var ran := Picks(RunCycle(c, s, script).log);
            && |ran| <= 1
            && (ran == [] <==> forall x :: 0 <= x < MAX_TASKS ==> !tasks[x].Background())
            && (ran != [] ==> ran[0] < MAX_TASKS && tasks[ran[0]].Background() &&
                              forall x :: 0 <= x < ran[0] ==> !tasks[x].Background())
  {
    hide DoAll, RunCycle, PeriodicPart, SelectBackground, Picks;
    FreshIsBoundary(start);
    CursorWaits(c, Fresh(start), ops);
    var s := DoAll(c, Fresh(start), ops).s;
    CyclePicks(c, s, script);
    PeriodicPartPicks(c, s, script);
    SelectionIsNearest(PeriodicPart(c, s, script).s.tasks, s.cursor, 0);
  }

  // ------------------------------------------------------------------
  // With a fixed set of background tasks
  // ------------------------------------------------------------------

  /** A step keeps every background slot one. */
  lemma StepBackgroundGrows(c: Clock, s: State, op: Op)
    requires AtBoundary(s)
    ensures BackgroundSlots(s.tasks) <= BackgroundSlots(Do(c, s, op).s.tasks)
  {
    hide Do;
    forall x | x in BackgroundSlots(s.tasks)
      ensures x in BackgroundSlots(Do(c, s, op).s.tasks)
    {
      assert SlotOk(s.tasks[x], x < s.count);
      StepKeepsBackground(c, s, op, x);
    }
  }

  lemma {:induction false} BackgroundGrows(c: Clock, s: State, ops: seq<Op>)
    requires AtBoundary(s)
    ensures BackgroundSlots(s.tasks) <= BackgroundSlots(DoAll(c, s, ops).s.tasks)
    decreases |ops|
  {
    hide Do, BackgroundSlots, SlotOk;
    if ops != [] {
      DoKeepsBoundary(c, s, ops[0]);
      StepBackgroundGrows(c, s, ops[0]);
      BackgroundGrows(c, Do(c, s, ops[0]).s, ops[1..]);
    }
  }

  /** If a cycle registers no background task, neither did its periodic phase. */
  lemma PhaseKeepsBackground(c: Clock, s: State, script: Script)
    requires AtBoundary(s)
    requires BackgroundSlots(RunCycle(c, s, script).s.tasks) == BackgroundSlots(s.tasks)
    ensures BackgroundSlots(PeriodicPart(c, s, script).s.tasks) == BackgroundSlots(s.tasks)
  {
    hide PeriodicPart, RunCycle, BackgroundStep;
    var p := PeriodicPart(c, s, script);
    CycleRunsExactlyDue(c, s, script);
    CycleEnd(c, s, script);
    BackgroundStepEffect(c, p.s, script.background, script.idle);
    forall x: nat | x < MAX_TASKS
      ensures x in BackgroundSlots(s.tasks) ==> x in BackgroundSlots(p.s.tasks)
      ensures x in BackgroundSlots(p.s.tasks) ==> x in BackgroundSlots(RunCycle(c, s, script).s.tasks)
    {
      assert SlotOk(s.tasks[x], x < s.count) && SlotOk(p.s.tasks[x], x < p.s.count);
    }
  }

  lemma PickIsRankZero(c: Clock, s: State, script: Script)
    requires AtBoundary(s) && BackgroundSlots(s.tasks) != {}
    requires BackgroundSlots(RunCycle(c, s, script).s.tasks) == BackgroundSlots(s.tasks)
    ensures var i := Pick(c, s, script);
            0 <= i && Nearest(BackgroundSlots(s.tasks), s.cursor, i)
  {
    hide RunCycle, PeriodicPart, SelectBackground;
    var p := PeriodicPart(c, s, script);
    PhaseKeepsBackground(c, s, script);
    CycleRunsExactlyDue(c, s, script);
    SelectionIsNearest(p.s.tasks, s.cursor, 0);
    var x :| x in BackgroundSlots(s.tasks);
    assert x in BackgroundSlots(p.s.tasks);
    forall z | z in BackgroundSlots(s.tasks)
      ensures p.s.tasks[z].Background()
    {
      assert z in BackgroundSlots(p.s.tasks);
    }
  }

  /** The picks follow the schedule: slot `x` exactly at the positions congruent to its rank. */
  ghost predicate OnSchedule(slots: set<nat>, cursor: nat, picks: seq<nat>)
    requires cursor < MAX_TASKS && InTable(slots)
  {
    && (forall t :: 0 <= t < |picks| ==> picks[t] in slots)
    && (slots != {} ==>
          forall t, x :: 0 <= t < |picks| && x in slots ==>
            (picks[t] == x <==> t % |slots| == Rank(slots, cursor, x)))
  }

  lemma ScheduleStep(slots: set<nat>, cursor: nat, y: nat, x: nat, t: nat)
    requires cursor < MAX_TASKS && InTable(slots) && Nearest(slots, cursor, y) && x in slots && t > 0
    ensures t % |slots| == Rank(slots, cursor, x) <==>
            (t - 1) % |slots| == Rank(slots, (y + 1) % MAX_TASKS, x)
  {
    hide Rank, Nearest;
    RankAfterPick(slots, cursor, y, x);
    RankBelowSize(slots, cursor, x);
    ModuloStep(t, |slots|);
  }

  lemma SchedulePrepend(slots: set<nat>, cursor: nat, y: nat, rest: seq<nat>)
    requires cursor < MAX_TASKS && InTable(slots) && Nearest(slots, cursor, y)
    requires OnSchedule(slots, (y + 1) % MAX_TASKS, rest)
    ensures OnSchedule(slots, cursor, [y] + rest)
  {
    var picks := [y] + rest;
    hide Rank;
    forall t, x | 0 <= t < |picks| && x in slots
      ensures picks[t] == x <==> t % |slots| == Rank(slots, cursor, x)
    {
      if t == 0 {
        RankAfterPick(slots, cursor, y, x);
        QuotientSmall(0, |slots|);
      } else {
        assert picks[t] == rest[t - 1];
        ScheduleStep(slots, cursor, y, x, t);
      }
    }
  }

  /** One background execution per cycle, on schedule. */
  ghost predicate Scheduled(slots: set<nat>, cursor: nat, cycles: nat, picks: seq<nat>)
    requires cursor < MAX_TASKS && InTable(slots)
  {
    && OnSchedule(slots, cursor, picks)
    && |picks| == if slots == {} then 0 else cycles
  }

  lemma CycleScheduled(c: Clock, s: State, script: Script, cycles: nat, rest: seq<nat>)
    requires AtBoundary(s) && AtBoundary(RunCycle(c, s, script).s)
    requires BackgroundSlots(RunCycle(c, s, script).s.tasks) == BackgroundSlots(s.tasks)
    requires Scheduled(BackgroundSlots(s.tasks), RunCycle(c, s, script).s.cursor, cycles, rest)
    ensures Scheduled(BackgroundSlots(s.tasks), s.cursor, cycles + 1, Picks(RunCycle(c, s, script).log) + rest)
  {
    hide RunCycle, OnSchedule, SlotOk, Pick;
    var slots := BackgroundSlots(s.tasks);
    CyclePicks(c, s, script);
    if slots == {} {
      NoPick(c, s, script);
      assert [] + rest == rest;
    } else {
      PickIsRankZero(c, s, script);
      SchedulePrepend(slots, s.cursor, Pick(c, s, script), rest);
    }
  }

  lemma StepScheduled(c: Clock, s: State, op: Op, cycles: nat, rest: seq<nat>)
    requires AtBoundary(s) && AtBoundary(Do(c, s, op).s)
    requires BackgroundSlots(Do(c, s, op).s.tasks) == BackgroundSlots(s.tasks)
    requires Scheduled(BackgroundSlots(s.tasks), Do(c, s, op).s.cursor, cycles, rest)
    ensures Scheduled(BackgroundSlots(s.tasks), s.cursor, cycles + (if op.Cycle? then 1 else 0),
                      Picks(Do(c, s, op).log) + rest)
  {
    hide Do, Scheduled, SlotOk;
    if op.Main? {
      MainStepPicks(c, s, op);
      assert Picks([]) + rest == rest;
    } else {
      DoCycle(c, s, op);
      CycleScheduled(c, s, op.script, cycles, rest);
    }
  }

  /**
   * With a fixed set of n background tasks, over any history, whatever periodic tasks are
   * registered meanwhile: every cycle runs one of them, and the t-th background execution is
   * task `x` exactly when t is congruent, modulo n, to
   * the number of background tasks that were ahead of `x` at the start.
   */
  lemma {:induction false} RoundRobin(c: Clock, s: State, ops: seq<Op>)
    requires AtBoundary(s) && BackgroundSlots(DoAll(c, s, ops).s.tasks) == BackgroundSlots(s.tasks)
    ensures Scheduled(BackgroundSlots(s.tasks), s.cursor, Cycles(ops), Picks(DoAll(c, s, ops).log))
    decreases |ops|
  {
    hide Do, Scheduled, BackgroundSlots, SlotOk, Picks;
    if ops == [] {
      EmptySchedule(BackgroundSlots(s.tasks), s.cursor);
    } else {
      var op := ops[0];
      var first := Do(c, s, op);
      var rest := DoAll(c, first.s, ops[1..]);
      DoKeepsBoundary(c, s, op);
      StepBackgroundGrows(c, s, op);
      BackgroundGrows(c, first.s, ops[1..]);
      RoundRobin(c, first.s, ops[1..]);
      PicksAppend(first.log, rest.log);
      StepScheduled(c, s, op, Cycles(ops[1..]), Picks(rest.log));
    }
  }

  lemma EmptySchedule(slots: set<nat>, cursor: nat)
    requires cursor < MAX_TASKS && InTable(slots)
    ensures Scheduled(slots, cursor, 0, Picks([]))
  {
  }

  lemma MainStepPicks(c: Clock, s: State, op: Op)
    requires AtBoundary(s) && op.Main?
    ensures Do(c, s, op).log == [] && Do(c, s, op).s.cursor == s.cursor
  {
    ActGrows(c, s, op.action);
  }

  lemma NoPick(c: Clock, s: State, script: Script)
    requires AtBoundary(s) && BackgroundSlots(s.tasks) == {}
    requires BackgroundSlots(RunCycle(c, s, script).s.tasks) == {}
    ensures Pick(c, s, script) == INVALID_TASK_ID
  {
    hide RunCycle, PeriodicPart, SelectBackground;
    var p := PeriodicPart(c, s, script);
    PhaseKeepsBackground(c, s, script);
    CycleRunsExactlyDue(c, s, script);
    SelectionIsNearest(p.s.tasks, s.cursor, 0);
    forall i | 0 <= i < MAX_TASKS
      ensures !p.s.tasks[i].Background()
    {
      assert i !in BackgroundSlots(p.s.tasks);
    }
  }

  // ------------------------------------------------------------------
  // What the schedule means
  // ------------------------------------------------------------------

  lemma RankBelowSize(slots: set<nat>, cursor: nat, x: nat)
    requires cursor < MAX_TASKS && x in slots && InTable(slots)
    ensures Rank(slots, cursor, x) < |slots|
  {
    SubsetSize(Ahead(slots, cursor, x), slots - {x});
  }

  lemma {:induction false} SubsetSize<T>(a: set<T>, b: set<T>)
    requires a <= b
    ensures |a| <= |b|
  {
    if a != {} {
      var x :| x in a;
      SubsetSize(a - {x}, b - {x});
    }
  }

  function Count(picks: seq<nat>, x: nat): nat {
    if picks == [] then 0
    else Count(picks[..|picks| - 1], x) + (if picks[|picks| - 1] == x then 1 else 0)
  }

  /** After N background executions each task has run N/n times, or once more if its rank came up again. */
  lemma {:induction false} FairShare(slots: set<nat>, cursor: nat, picks: seq<nat>, x: nat)
    requires cursor < MAX_TASKS && x in slots && InTable(slots)
    requires OnSchedule(slots, cursor, picks)
    ensures Count(picks, x) ==
            |picks| / |slots| + (if Rank(slots, cursor, x) < |picks| % |slots| then 1 else 0)
  {
    var n, r := |slots|, Rank(slots, cursor, x);
    RankBelowSize(slots, cursor, x);
    if picks == [] {
      QuotientSmall(0, n);
    } else {
      var t := |picks| - 1;
      var shorter := picks[..t];
      FairShare(slots, cursor, shorter, x);
      assert picks[t] == x <==> t % n == r;
      QuotientStep(t, n);
    }
  }

  /** Any n consecutive background executions contain each of the n tasks exactly once. */
  lemma EveryWindowRunsEachOnce(slots: set<nat>, cursor: nat, picks: seq<nat>, x: nat, a: nat)
    requires cursor < MAX_TASKS && x in slots && InTable(slots)
    requires OnSchedule(slots, cursor, picks) && a + |slots| <= |picks|
    ensures exists t ::
              && a <= t < a + |slots| && picks[t] == x
              && forall u :: a <= u < a + |slots| && picks[u] == x ==> u == t
  {
    var n, r := |slots|, Rank(slots, cursor, x);
    RankBelowSize(slots, cursor, x);
    hide Rank;
    var t := NextCongruent(a, n, r);
    assert picks[t] == x;
    forall u | a <= u < a + n && picks[u] == x
      ensures u == t
    {
      CloseCongruent(u, t, n);
    }
  }
}
