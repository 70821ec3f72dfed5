/**
 * What callbacks do to the scheduler: how long an execution takes and what it registers, read
 * off the list of its actions, and the same for a whole cycle.
 */
module Callbacks {
  import opened Arithmetic
  import opened Ticks
  import opened SchedulerModel
  import opened CycleOrder
  import opened BackgroundFairness

  // ------------------------------------------------------------------
  // Read off a list of actions
  // ------------------------------------------------------------------

  /** A request that was not refused for its null callback, and when it was made. */
  datatype Joining = Joining(at: nat, request: Request)

  /** Ticks that pass during `actions`. */
  function Elapsed(actions: seq<Action>): nat {
    if actions == [] then 0
    else (if actions[0].Elapse? then actions[0].ticks else 0) + Elapsed(actions[1..])
  }

  /** What `actions`, begun at time `at`, ask to register. */
  function Joins(actions: seq<Action>, at: nat): seq<Joining> {
    if actions == [] then []
    else
      match actions[0]
      case Elapse(ticks) => Joins(actions[1..], at + ticks)
      case Register(r) => (if r.fn.Null? then [] else [Joining(at, r)]) + Joins(actions[1..], at)
      case ResetStats => Joins(actions[1..], at)
  }

  ghost predicate HasReset(actions: seq<Action>) {
    ResetStats in actions
  }

  /** Ticks from the dispatch of a callback to its completion. */
  function Span(call: Call): nat {
    call.before + Elapsed(call.actions) + call.after
  }

  /** What a callback dispatched at time `at` asks to register. */
  function CallJoins(call: Call, at: nat): seq<Joining> {
    Joins(call.actions, at + call.before)
  }

  /** Ticks taken by the `n` callbacks from the `k`-th on. */
  function Spans(calls: nat -> Call, k: nat, n: nat): nat
    decreases n
  {
    if n == 0 then 0 else Span(calls(k)) + Spans(calls, k + 1, n - 1)
  }

  /** What they ask to register, the first of them dispatched at time `at`. */
  function PhaseJoins(calls: nat -> Call, k: nat, n: nat, at: nat): seq<Joining>
    decreases n
  {
    if n == 0 then []
    else CallJoins(calls(k), at) + PhaseJoins(calls, k + 1, n - 1, at + Span(calls(k)))
  }

  // ------------------------------------------------------------------
  // Effects on the state
  // ------------------------------------------------------------------

  /** From `count` on, the slots hold `joins` in order, each as registered at its own time, while there is room. */
  ghost predicate Joined(c: Clock, count: nat, joins: seq<Joining>, s': State)
    requires s'.Shape()
  {
    && s'.count == Min(MAX_TASKS, count + |joins|)
    && forall i :: count <= i < s'.count ==>
         s'.tasks[i] == NewTask(c, joins[i - count].at, joins[i - count].request)
  }

  /** What statistics `actions` leave: cleared by a reset, and in the slots they filled. */
  ghost predicate StatsLeft(s: State, actions: seq<Action>, s': State)
    requires s.Shape() && s'.Shape()
  {
    forall i :: 0 <= i < MAX_TASKS ==>
      s'.stats[i] == if HasReset(actions) || s.count <= i < s'.count then EMPTY_STATS else s.stats[i]
  }

  lemma JoinedNone(c: Clock, s: State)
    requires s.Shape() && s.count <= MAX_TASKS
    ensures Joined(c, s.count, [], s)
  {
  }

  lemma JoinedTransfers(c: Clock, count: nat, joins: seq<Joining>, s: State, s': State)
    requires s.Shape() && s'.Shape() && Joined(c, count, joins, s) && s'.count == s.count
    requires forall i :: count <= i < s.count && i < MAX_TASKS ==> s'.tasks[i] == s.tasks[i]
    ensures Joined(c, count, joins, s')
  {
  }

  /** Two stretches in a row, when the second leaves the slots filled by the first alone. */
  lemma JoinedAppend(c: Clock, count: nat, a: seq<Joining>, s1: State, b: seq<Joining>, s2: State)
    requires s1.Shape() && s2.Shape() && count <= MAX_TASKS
    requires Joined(c, count, a, s1) && Joined(c, s1.count, b, s2)
    requires forall i :: count <= i < s1.count && i < MAX_TASKS ==> s2.tasks[i] == s1.tasks[i]
    ensures Joined(c, count, a + b, s2)
  {
    hide NewTask;
    forall i | count <= i < s2.count
      ensures s2.tasks[i] == NewTask(c, (a + b)[i - count].at, (a + b)[i - count].request)
    {
      if s1.count <= i {
        assert (a + b)[i - count] == b[i - s1.count];
      } else {
        assert (a + b)[i - count] == a[i - count];
      }
    }
  }

  lemma ActEffect(c: Clock, s: State, a: Action)
    requires Valid(s)
    ensures var s' := Act(c, s, a);
            && s'.now == s.now + (if a.Elapse? then a.ticks else 0)
            && Joined(c, s.count, if a.Register? && !a.request.fn.Null? then [Joining(s.now, a.request)] else [], s')
            && StatsLeft(s, [a], s')
  {
    if a.Register? {
      AddTaskIsDense(c, s, a.request);
    }
  }

  lemma ResetsSplit(a: Action, rest: seq<Action>)
    ensures HasReset([a] + rest) <==> HasReset([a]) || HasReset(rest)
  {
  }

  lemma StatsLeftAppend(s: State, a: Action, s1: State, rest: seq<Action>, s2: State)
    requires s.Shape() && s1.Shape() && s2.Shape() && s.count <= s1.count <= s2.count
    requires StatsLeft(s, [a], s1) && StatsLeft(s1, rest, s2)
    ensures StatsLeft(s, [a] + rest, s2)
  {
    hide HasReset;
    ResetsSplit(a, rest);
  }

  /** The actions of a callback, on any valid state: the time that passes, the slots filled, the statistics left. */
  lemma {:induction false} PerformEffect(c: Clock, s: State, actions: seq<Action>)
    requires Valid(s)
    ensures var s' := Perform(c, s, actions);
            && s'.now == s.now + Elapsed(actions)
            && Joined(c, s.count, Joins(actions, s.now), s')
            && StatsLeft(s, actions, s')
    decreases |actions|
  {
    hide Act, Joined, StatsLeft, SlotOk;
    if actions == [] {
      JoinedNone(c, s);
      NothingLeft(s);
    } else {
      var a, rest := actions[0], actions[1..];
      var s1 := Act(c, s, a);
      ActGrows(c, s, a);
      ActEffect(c, s, a);
      PerformEffect(c, s1, rest);
      PerformGrows(c, s1, rest);
      var first := if a.Register? && !a.request.fn.Null? then [Joining(s.now, a.request)] else [];
      JoinedAppend(c, s.count, first, s1, Joins(rest, s1.now), Perform(c, s1, rest));
      assert first + Joins(rest, s1.now) == Joins(actions, s.now);
      StatsLeftAppend(s, a, s1, rest, Perform(c, s1, rest));
      assert [a] + rest == actions;
    }
  }

  lemma NothingLeft(s: State)
    requires s.Shape()
    ensures StatsLeft(s, [], s)
  {
  }

  /** The statistics slot of an execution, given what it was before and whether its callback reset statistics. */
  function ExecutedStats(st: Stats, started: nat, reset: bool, ended: nat): Stats {
    EndStats(if reset then EMPTY_STATS else StartStats(st, started), ended)
  }

  /** One execution carries out its callback. */
  lemma InvokeEffect(c: Clock, s: State, i: nat, call: Call)
    requires Valid(s) && i < s.count
    ensures var s' := Invoke(c, s, i, call);
            && s'.now == s.now + call.before + Elapsed(call.actions)
            && Joined(c, s.count, CallJoins(call, s.now), s')
            && StatsLeft(s, call.actions, s'.(stats := s'.stats[i := if HasReset(call.actions) then EMPTY_STATS
                                                                     else s.stats[i]]))
            && s'.stats[i] == ExecutedStats(s.stats[i], s.now + call.before, HasReset(call.actions), s'.now)
  {
    var s1 := s.(now := s.now + call.before);
    var s2 := s1.(stats := s1.stats[i := StartStats(s1.stats[i], s1.now)]);
    forall j | 0 <= j < MAX_TASKS
      ensures SlotOk(s2.tasks[j], j < s2.count)
    {
      assert SlotOk(s.tasks[j], j < s.count);
    }
    hide HasReset, StartStats, EndStats, SlotOk, NewTask;
    PerformEffect(c, s2, call.actions);
    PerformGrows(c, s2, call.actions);
    var s3 := Perform(c, s2, call.actions);
    JoinedTransfers(c, s.count, CallJoins(call, s.now), s3, Invoke(c, s, i, call));
  }

  /** Statistics reset by the callback itself: one execution is left, its duration counted from tick zero. */
  lemma ResetInCallbackLeaves(c: Clock, s: State, i: nat, call: Call)
    requires Valid(s) && i < s.count && HasReset(call.actions)
    ensures var s' := Invoke(c, s, i, call);
            var ended := Wrap(s'.now);
            && s'.stats[i] == Stats(1, 0, 0, 0, ended, ended, ended, ended)
            && forall j :: 0 <= j < MAX_TASKS && j != i ==> s'.stats[j] == EMPTY_STATS
  {
    hide Invoke, HasReset;
    InvokeEffect(c, s, i, call);
    var s' := Invoke(c, s, i, call);
    WrapTwice(s'.now);
    var others := s'.(stats := s'.stats[i := EMPTY_STATS]);
    forall j | 0 <= j < MAX_TASKS && j != i
      ensures s'.stats[j] == EMPTY_STATS
    {
      assert others.stats[j] == s'.stats[j];
    }
  }

  lemma WrapTwice(t: int)
    ensures Wrap(Wrap(t)) == Wrap(t) && Wrap(Wrap(t) - 0) == Wrap(t)
  {
  }

  // ------------------------------------------------------------------
  // One dispatch
  // ------------------------------------------------------------------

  /** The log entry of the callback `call` dispatched at time `at`. */
  ghost predicate Timed(e: Entry, call: Call, at: nat) {
    && e.dispatched == at
    && e.started == e.dispatched + call.before
    && e.ended == e.started + Elapsed(call.actions)
    && e.completed == e.ended + call.after
  }

  /**
   * A dispatch carries out its callback: the stages of the execution follow from the
   * callback's own actions, and the slots filled are exactly its requests, in order, each as
   * registered at the time it was made, until the table is full.
   */
  lemma DispatchCarriesOut(c: Clock, s: State, snapshot: nat, i: nat, call: Call)
    requires Valid(s) && i < MAX_TASKS && s.tasks[i].Waiting()
    ensures var (s', e) := Dispatch(c, s, snapshot, i, call);
            && Timed(e, call, s.now)
            && s'.now == e.completed == s.now + Span(call)
            && Joined(c, s.count, CallJoins(call, s.now), s')
            && s'.stats[i] ==
               OverrunStats(ExecutedStats(s.stats[i], e.started, HasReset(call.actions), e.ended), e.overrun)
  {
    assert SlotOk(s.tasks[i], i < s.count);
    var s1 := Release(c, s, snapshot, i);
    forall j | 0 <= j < MAX_TASKS
      ensures SlotOk(s1.tasks[j], j < s1.count)
    {
      assert SlotOk(s.tasks[j], j < s.count);
    }
    hide Invoke, Joined, StatsLeft, SlotOk, Reached, NextRelease;
    InvokeEffect(c, s1, i, call);
    JoinedTransfers(c, s.count, CallJoins(call, s.now), Invoke(c, s1, i, call),
                    Dispatch(c, s, snapshot, i, call).0);
  }

  // ------------------------------------------------------------------
  // The periodic phase
  // ------------------------------------------------------------------

  /** The executions `log` carry out the callbacks from the k-th on, one after the other from `at` on. */
  ghost predicate AllTimed(log: seq<Entry>, calls: nat -> Call, k: nat, at: nat) {
    forall j :: 0 <= j < |log| ==> Timed(log[j], calls(k + j), at + Spans(calls, k, j))
  }

  lemma AllTimedPrepend(e: Entry, log: seq<Entry>, calls: nat -> Call, k: nat, at: nat)
    requires Timed(e, calls(k), at) && AllTimed(log, calls, k + 1, at + Span(calls(k)))
    ensures AllTimed([e] + log, calls, k, at)
  {
    hide Timed, Span;
    var all := [e] + log;
    forall j | 0 <= j < |all|
      ensures Timed(all[j], calls(k + j), at + Spans(calls, k, j))
    {
      if j > 0 {
        assert Timed(log[j - 1], calls(k + 1 + (j - 1)), at + Span(calls(k)) + Spans(calls, k + 1, j - 1));
      }
    }
  }

  /** The phase carries out one callback per dispatch, in dispatch order. */
  ghost predicate PhaseCarried(c: Clock, s: State, calls: nat -> Call, k: nat, out: Outcome)
    requires out.s.Shape()
  {
    && AllTimed(out.log, calls, k, s.now)
    && out.s.now == s.now + Spans(calls, k, |out.log|)
    && Joined(c, s.count, PhaseJoins(calls, k, |out.log|, s.now), out.s)
  }

  lemma PhaseCarriedPrepend(c: Clock, s: State, calls: nat -> Call, k: nat, e: Entry, s1: State, rest: Outcome)
    requires s.count <= MAX_TASKS && s1.Shape() && rest.s.Shape()
    requires Timed(e, calls(k), s.now) && s1.now == s.now + Span(calls(k))
    requires Joined(c, s.count, CallJoins(calls(k), s.now), s1) && PhaseCarried(c, s1, calls, k + 1, rest)
    requires forall i :: s.count <= i < s1.count && i < MAX_TASKS ==> rest.s.tasks[i] == s1.tasks[i]
    ensures PhaseCarried(c, s, calls, k, Outcome(rest.s, [e] + rest.log))
  {
    hide Timed, Span, Joined, AllTimed, CallJoins;
    AllTimedPrepend(e, rest.log, calls, k, s.now);
    JoinedAppend(c, s.count, CallJoins(calls(k), s.now), s1, PhaseJoins(calls, k + 1, |rest.log|, s1.now), rest.s);
  }

  lemma {:induction false} PhaseCarriesOut(c: Clock, s: State, snapshot: nat, calls: nat -> Call, k: nat)
    requires Valid(s) && k <= MAX_TASKS && snapshot <= s.now
    requires |WaitingSlots(s.tasks)| + k <= MAX_TASKS
    ensures PhaseCarried(c, s, calls, k, PeriodicPhase(c, s, snapshot, calls, k))
    decreases MAX_TASKS - k
  {
    hide Dispatch, SelectPending, PhaseCarried, Joined, Timed, Span, CallJoins, ExecutedStats, OverrunStats;
    hide HasReset, Ordered, Slots, AllExecuted, SlotOk, WaitingSlots;
    var i := SelectPending(s.tasks, MAX_TASKS);
    if k == MAX_TASKS || i == INVALID_TASK_ID {
      NothingCarried(c, s, calls, k);
    } else {
      var (s1, e) := Dispatch(c, s, snapshot, i, calls(k));
      DispatchEffect(c, s, snapshot, i, calls(k));
      DispatchCarriesOut(c, s, snapshot, i, calls(k));
      WaitingAfterDispatch(c, s, snapshot, i, s1);
      RoomAfterDispatch(s.tasks, s1.tasks, i);
      PhaseCarriesOut(c, s1, snapshot, calls, k + 1);
      PeriodicPhaseRunsWaiting(c, s1, snapshot, calls, k + 1);
      PhaseCarriedPrepend(c, s, calls, k, e, s1, PeriodicPhase(c, s1, snapshot, calls, k + 1));
    }
  }

  lemma NothingCarried(c: Clock, s: State, calls: nat -> Call, k: nat)
    requires Valid(s)
    ensures PhaseCarried(c, s, calls, k, Outcome(s, []))
  {
  }

  lemma RoomAfterDispatch(tasks: seq<Task>, tasks': seq<Task>, i: nat)
    requires WaitingSlots(tasks') == WaitingSlots(tasks) - {i} && i in WaitingSlots(tasks)
    ensures |WaitingSlots(tasks')| == |WaitingSlots(tasks)| - 1
  {
  }

  // ------------------------------------------------------------------
  // The background step and the whole cycle
  // ------------------------------------------------------------------

  /** The background step carries out its callback if a background task is registered, and else idles. */
  lemma BackgroundCarriesOut(c: Clock, s: State, call: Call, idle: nat)
    requires AtBoundary(s)
    ensures var out := BackgroundStep(c, s, call, idle);
            var ran := SelectBackground(s.tasks, s.cursor, 0) != INVALID_TASK_ID;
            && (ran ==> |out.log| == 1 && Timed(out.log[0], call, s.now) && out.s.now == s.now + Span(call))
            && (!ran ==> out.log == [] && out.s.now == s.now + idle)
            && Joined(c, s.count, if ran then CallJoins(call, s.now) else [], out.s)
  {
    hide Invoke, SelectBackground;
    var i := SelectBackground(s.tasks, s.cursor, 0);
    var out := BackgroundStep(c, s, call, idle);
    if i == INVALID_TASK_ID {
      JoinedNone(c, out.s);
    } else {
      assert SlotOk(s.tasks[i], i < s.count);
      var s1 := s.(cursor := (i + 1) % MAX_TASKS);
      forall j | 0 <= j < MAX_TASKS
        ensures SlotOk(s1.tasks[j], j < s1.count)
      {
        assert SlotOk(s.tasks[j], j < s.count);
      }
      InvokeEffect(c, s1, i, call);
      JoinedTransfers(c, s.count, CallJoins(call, s.now), Invoke(c, s1, i, call), out.s);
    }
  }

  /** What a cycle asks to register: its periodic callbacks in dispatch order, then its background callback. */
  ghost function CycleJoins(c: Clock, s: State, script: Script): seq<Joining>
    requires s.Shape()
  {
    var n := |PeriodicPart(c, s, script).log|;
    var begin := s.now + script.arrival;
    PhaseJoins(script.calls, 0, n, begin)
    + (if Pick(c, s, script) == INVALID_TASK_ID then []
       else CallJoins(script.background, begin + Spans(script.calls, 0, n)))
  }

  /**
   * A cycle carries out its callbacks: the k-th execution is the k-th callback, each is
   * dispatched when the one before it has completed, the first at the snapshot, and the
   * background callback, or the idle hook if there is no background task, comes last. The
   * slots filled are exactly the requests made on the way, in order, each at its own time,
   * until the table is full.
   */
  lemma CycleCarriesOut(c: Clock, s: State, script: Script)
    requires AtBoundary(s)
    ensures var out := RunCycle(c, s, script);
            var begin := s.now + script.arrival;
            var n := |PeriodicPart(c, s, script).log|;
            var ready := begin + Spans(script.calls, 0, n);
            var ran := Pick(c, s, script) != INVALID_TASK_ID;
            && |out.log| == n + (if ran then 1 else 0)
            && AllTimed(out.log[..n], script.calls, 0, begin)
            && (ran ==> Timed(out.log[n], script.background, ready))
            && out.s.now == ready + (if ran then Span(script.background) else script.idle)
            && Joined(c, s.count, CycleJoins(c, s, script), out.s)
  {
    hide MarkReady, PeriodicPhase, BackgroundStep, SelectBackground, Timed, Span, AllTimed, Joined, CallJoins;
    hide SlotOk, Ordered, Slots, DueSlots;
    var m := Snapshot(c, s, script);
    SnapshotMarksDue(c, s, script);
    PhaseCarriesOut(c, m, m.now, script.calls, 0);
    var p := PeriodicPart(c, s, script);
    CycleRunsExactlyDue(c, s, script);
    BackgroundCarriesOut(c, p.s, script.background, script.idle);
    var b := BackgroundStep(c, p.s, script.background, script.idle);
    BackgroundStepEffect(c, p.s, script.background, script.idle);
    CycleEnd(c, s, script);
    CycleLog(c, s, script);
    assert (p.log + b.log)[..|p.log|] == p.log;
    JoinedAppend(c, s.count, PhaseJoins(script.calls, 0, |p.log|, m.now), p.s,
                 if Pick(c, s, script) == INVALID_TASK_ID then [] else CallJoins(script.background, p.s.now), b.s);
  }

  // ------------------------------------------------------------------
  // One step of a history
  // ------------------------------------------------------------------

  ghost function StepJoins(c: Clock, s: State, op: Op): seq<Joining>
    requires s.Shape()
  {
    match op
    case Main(a) => Joins([a], s.now)
    case Cycle(script) => CycleJoins(c, s, script)
  }

  /** A step of the main line takes effect at once and makes no execution. */
  lemma MainCarriesOut(c: Clock, s: State, a: Action)
    requires Valid(s)
    ensures var out := Do(c, s, Main(a));
            && out.log == []
            && out.s.now == s.now + Elapsed([a])
            && Joined(c, s.count, Joins([a], s.now), out.s)
            && StatsLeft(s, [a], out.s)
  {
    assert [a][1..] == [];
    assert Perform(c, s, [a]) == Act(c, s, a) by {
      assert Perform(c, Act(c, s, a), []) == Act(c, s, a);
    }
    hide Perform, Joined, StatsLeft;
    PerformEffect(c, s, [a]);
  }

  /** Every step fills slots with exactly what was asked in it. */
  lemma StepCarriesOut(c: Clock, s: State, op: Op)
    requires AtBoundary(s)
    ensures Joined(c, s.count, StepJoins(c, s, op), Do(c, s, op).s)
  {
    hide Joined, RunCycle, Act;
    match op
    case Main(a) => MainCarriesOut(c, s, a);
    case Cycle(script) => CycleCarriesOut(c, s, script);
  }
}
