/**
 * What the scheduler does, as functions on values: task slots, statistics, the
 * round-robin cursor and the port's clock.
 *
 * `State.now` is unbounded time. Every reading of the clock by the scheduler goes through
 * `Stamp`, and every comparison or advance through `Reached` and `NextRelease`. With
 * `Wrapped` these are the 32-bit operations of the program; with `Unbounded` the same
 * cycle runs on integers that never wrap.
 */
module SchedulerModel {
  import opened Ticks

  const MAX_TASKS: nat := 64
  const LOWEST_PRIORITY: nat := 65535
  const INVALID_TASK_ID: int := -1
  const ERR_INVALID_ARG: int := -2
  const ERR_NO_SPACE: int := -3

  type Priority = p: int | 0 <= p <= LOWEST_PRIORITY

  datatype Fn = Null | Fn(id: nat)

  datatype Task = Task(
    fn: Fn, ctx: nat, period: Tick, nextRelease: int, priority: Priority,
    enabled: bool, pending: bool, inUse: bool)
  {
    predicate Periodic() { inUse && enabled && period != 0 }
    predicate Background() { inUse && enabled && period == 0 }
    predicate Waiting() { Periodic() && pending }
  }

  datatype Stats = Stats(
    runCount: Tick, missCount: Tick, overrunCount: Tick, lastStart: Tick,
    lastEnd: Tick, lastExec: Tick, maxExec: Tick, totalExec: Tick)

  const EMPTY_TASK := Task(Null, 0, 0, 0, LOWEST_PRIORITY, false, false, false)
  const EMPTY_STATS := Stats(0, 0, 0, 0, 0, 0, 0, 0)

  datatype State = State(tasks: seq<Task>, stats: seq<Stats>, count: nat, cursor: nat, now: nat) {
    predicate Shape() {
      |tasks| == MAX_TASKS && |stats| == MAX_TASKS
    }
  }

  // ------------------------------------------------------------------
  // Time, in 32 bits or unbounded
  // ------------------------------------------------------------------

  datatype Clock = Wrapped | Unbounded

  function Stamp(c: Clock, time: int): int {
    if c.Wrapped? then Wrap(time) else time
  }

  predicate Reached(c: Clock, now: int, target: int) {
    if c.Wrapped? then TimeReached(Wrap(now), Wrap(target)) else target <= now
  }

  function NextRelease(c: Clock, now: int, next: int, period: Tick): int {
    if c.Wrapped? then AdvanceNextRelease(Wrap(now), Wrap(next), period)
    else if period == 0 then next
    else Advance(now, next, period)
  }

  // ------------------------------------------------------------------
  // The environment: what a callback, the main line and the passing of time may do
  // ------------------------------------------------------------------

  datatype Request = Request(fn: Fn, ctx: nat, period: Tick, delay: Tick, priority: Priority)

  datatype Action =
    | Elapse(ticks: nat)
    | Register(request: Request)
    | ResetStats

  /** One callback: time until its start is stamped, its actions, time until completion is stamped. */
  datatype Call = Call(before: nat, actions: seq<Action>, after: nat)

  /** Everything the environment decides during one cycle; `calls(k)` is the k-th periodic dispatch. */
  datatype Script = Script(arrival: nat, calls: nat -> Call, background: Call, idle: nat)

  /** One step of the main program between or around calls of the scheduler. */
  datatype Op =
    | Main(action: Action)
    | Cycle(script: Script)

  /** One execution in the log: the callback made, and the unbounded times at which its stages happened. */
  datatype Entry = Entry(
    periodic: bool, slot: nat, fn: Fn, ctx: nat, release: int, next: int,
    dispatched: nat, started: nat, ended: nat, completed: nat, overrun: bool)

  datatype Outcome = Outcome(s: State, log: seq<Entry>)

  // ------------------------------------------------------------------
  // Initialisation and registration
  // ------------------------------------------------------------------

  function Fresh(now: nat): (s: State)
    ensures s.Shape()
  {
    State(seq(MAX_TASKS, _ => EMPTY_TASK), seq(MAX_TASKS, _ => EMPTY_STATS), 0, 0, now)
  }

  /** The first free slot at or after `i`, or the number of slots. */
  function FirstFree(tasks: seq<Task>, i: nat): (k: nat)
    requires i <= |tasks|
    ensures i <= k <= |tasks|
    ensures forall j :: i <= j < k ==> tasks[j].inUse
    ensures k < |tasks| ==> !tasks[k].inUse
    decreases |tasks| - i
  {
    if i == |tasks| || !tasks[i].inUse then i else FirstFree(tasks, i + 1)
  }

  function NewTask(c: Clock, now: int, r: Request): Task {
    Task(r.fn, r.ctx, r.period, Stamp(c, now + r.delay), r.priority, true, false, true)
  }

  function AddTask(c: Clock, s: State, r: Request): (out: (State, int))
    requires s.Shape()
    ensures out.0.Shape()
  {
    if r.fn.Null? then
      (s, ERR_INVALID_ARG)
    else if s.count >= MAX_TASKS then
      (s, ERR_NO_SPACE)
    else
      var k := FirstFree(s.tasks, 0);
      if k == MAX_TASKS then
        (s, ERR_NO_SPACE)
      else
        (s.(tasks := s.tasks[k := NewTask(c, s.now, r)],
            stats := s.stats[k := EMPTY_STATS],
            count := s.count + 1), k)
  }

  function Act(c: Clock, s: State, a: Action): (s': State)
    requires s.Shape()
    ensures s'.Shape()
  {
    match a
    case Elapse(ticks) => s.(now := s.now + ticks)
    case Register(r) => AddTask(c, s, r).0
    case ResetStats => s.(stats := seq(MAX_TASKS, _ => EMPTY_STATS))
  }

  function Perform(c: Clock, s: State, actions: seq<Action>): (s': State)
    requires s.Shape()
    ensures s'.Shape()
    decreases |actions|
  {
    if actions == [] then s else Perform(c, Act(c, s, actions[0]), actions[1..])
  }

  // ------------------------------------------------------------------
  // The periodic phase
  // ------------------------------------------------------------------

  predicate Due(c: Clock, t: Task, now: int) {
    t.Periodic() && Reached(c, now, t.nextRelease)
  }

  function MarkedTask(c: Clock, t: Task, now: int): Task {
    if Due(c, t, now) then t.(pending := true) else t
  }

  function MarkedStats(c: Clock, t: Task, st: Stats, now: int): Stats {
    if Due(c, t, now) && t.pending then st.(missCount := Wrap(st.missCount + 1)) else st
  }

  function MarkReady(c: Clock, s: State): (s': State)
    requires s.Shape()
    ensures s'.Shape()
  {
    s.(tasks := seq(MAX_TASKS, i requires 0 <= i < MAX_TASKS => MarkedTask(c, s.tasks[i], s.now)),
       stats := seq(MAX_TASKS, i requires 0 <= i < MAX_TASKS => MarkedStats(c, s.tasks[i], s.stats[i], s.now)))
  }

  /** Dispatch order: smaller priority number first, then smaller slot. */
  predicate Before(tasks: seq<Task>, i: nat, j: nat)
    requires i < |tasks| && j < |tasks|
  {
    tasks[i].priority < tasks[j].priority || (tasks[i].priority == tasks[j].priority && i < j)
  }

  /** The waiting slot below `n` that comes first in dispatch order, or the invalid id. */
  function SelectPending(tasks: seq<Task>, n: nat): (k: int)
    requires n <= |tasks|
    ensures k == INVALID_TASK_ID || 0 <= k < n
    ensures k == INVALID_TASK_ID ==> forall i :: 0 <= i < n ==> !tasks[i].Waiting()
    ensures 0 <= k ==> tasks[k].Waiting()
    ensures 0 <= k ==> forall i :: 0 <= i < n && i != k && tasks[i].Waiting() ==> Before(tasks, k, i)
  {
    if n == 0 then
      INVALID_TASK_ID
    else
      var k := SelectPending(tasks, n - 1);
      if tasks[n - 1].Waiting() && (k == INVALID_TASK_ID || tasks[n - 1].priority < tasks[k].priority)
      then n - 1
      else k
  }

  function StartStats(st: Stats, now: nat): Stats {
    st.(lastStart := Wrap(now))
  }

  function EndStats(st: Stats, now: nat): Stats {
    var exec := Wrap(Wrap(now) - st.lastStart);
    st.(runCount := Wrap(st.runCount + 1),
        lastEnd := Wrap(now),
        lastExec := exec,
        totalExec := Wrap(st.totalExec + exec),
        maxExec := if exec > st.maxExec then exec else st.maxExec)
  }

  function OverrunStats(st: Stats, overrun: bool): Stats {
    if overrun then st.(overrunCount := Wrap(st.overrunCount + 1)) else st
  }

  /** The callback of slot `i`: stamp the start, run the actions, stamp the end. */
  function Invoke(c: Clock, s: State, i: nat, call: Call): (s': State)
    requires s.Shape() && i < MAX_TASKS
    ensures s'.Shape()
  {
    var s1 := s.(now := s.now + call.before);
    var s2 := s1.(stats := s1.stats[i := StartStats(s1.stats[i], s1.now)]);
    var s3 := Perform(c, s2, call.actions);
    s3.(stats := s3.stats[i := EndStats(s3.stats[i], s3.now)])
  }

  /** Release slot `i` from its pending state and plan its next release. */
  function Release(c: Clock, s: State, snapshot: nat, i: nat): (s': State)
    requires s.Shape() && i < MAX_TASKS
    ensures s'.Shape()
  {
    var t := s.tasks[i];
    s.(tasks := s.tasks[i := t.(pending := false,
                                nextRelease := NextRelease(c, snapshot, t.nextRelease, t.period))])
  }

  function Dispatch(c: Clock, s: State, snapshot: nat, i: nat, call: Call): (out: (State, Entry))
    requires s.Shape() && i < MAX_TASKS
    ensures out.0.Shape()
  {
    var t := s.tasks[i];
    var s1 := Release(c, s, snapshot, i);
    var s2 := Invoke(c, s1, i, call);
    var completed := s2.now + call.after;
    var overrun := t.period != 0 && Reached(c, completed, s2.tasks[i].nextRelease);
    (s2.(now := completed, stats := s2.stats[i := OverrunStats(s2.stats[i], overrun)]),
     Entry(true, i, t.fn, t.ctx, t.nextRelease, s1.tasks[i].nextRelease,
           s.now, s.now + call.before, s2.now, completed, overrun))
  }

  /** The dispatch loop from its k-th iteration on. */
  function PeriodicPhase(c: Clock, s: State, snapshot: nat, calls: nat -> Call, k: nat): (out: Outcome)
    requires s.Shape() && k <= MAX_TASKS
    ensures out.s.Shape()
    decreases MAX_TASKS - k
  {
    var i := SelectPending(s.tasks, MAX_TASKS);
    if k == MAX_TASKS || i == INVALID_TASK_ID then
      Outcome(s, [])
    else
      var (s1, e) := Dispatch(c, s, snapshot, i, calls(k));
      var rest := PeriodicPhase(c, s1, snapshot, calls, k + 1);
      Outcome(rest.s, [e] + rest.log)
  }

  // ------------------------------------------------------------------
  // The background step and the whole cycle
  // ------------------------------------------------------------------

  /** The first background slot at cyclic distance `offset` or more from `start`. */
  function SelectBackground(tasks: seq<Task>, start: nat, offset: nat): (k: int)
    requires |tasks| == MAX_TASKS && offset <= MAX_TASKS
    ensures k == INVALID_TASK_ID || (0 <= k < MAX_TASKS && tasks[k].Background())
    decreases MAX_TASKS - offset
  {
    if offset == MAX_TASKS then
      INVALID_TASK_ID
    else
      var i := (start + offset) % MAX_TASKS;
      if tasks[i].Background() then i else SelectBackground(tasks, start, offset + 1)
  }

  function BackgroundStep(c: Clock, s: State, call: Call, idle: nat): (out: Outcome)
    requires s.Shape()
    ensures out.s.Shape()
  {
    var i := SelectBackground(s.tasks, s.cursor, 0);
    if i == INVALID_TASK_ID then
      Outcome(s.(now := s.now + idle), [])
    else
      var s1 := s.(cursor := (i + 1) % MAX_TASKS);
      if s1.tasks[i].fn.Null? then
        Outcome(s1.(now := s1.now + idle), [])
      else
        var s2 := Invoke(c, s1, i, call);
        Outcome(s2.(now := s2.now + call.after),
                [Entry(false, i, s1.tasks[i].fn, s1.tasks[i].ctx, 0, 0,
                       s.now, s.now + call.before, s2.now, s2.now + call.after, false)])
  }

  /** State right after the ready set has been marked. */
  function Snapshot(c: Clock, s: State, script: Script): (s': State)
    requires s.Shape()
    ensures s'.Shape() && s'.now == s.now + script.arrival
  {
    MarkReady(c, s.(now := s.now + script.arrival))
  }

  function RunCycle(c: Clock, s: State, script: Script): (out: Outcome)
    requires s.Shape()
    ensures out.s.Shape()
  {
    var marked := Snapshot(c, s, script);
    var p := PeriodicPhase(c, marked, marked.now, script.calls, 0);
    var b := BackgroundStep(c, p.s, script.background, script.idle);
    Outcome(b.s, p.log + b.log)
  }

  function Do(c: Clock, s: State, op: Op): (out: Outcome)
    requires s.Shape()
    ensures out.s.Shape()
  {
    match op
    case Main(action) => Outcome(Act(c, s, action), [])
    case Cycle(script) => RunCycle(c, s, script)
  }

  /** A whole history, with its execution log. */
  function DoAll(c: Clock, s: State, ops: seq<Op>): (out: Outcome)
    requires s.Shape()
    ensures out.s.Shape()
    decreases |ops|
  {
    if ops == [] then
      Outcome(s, [])
    else
      var first := Do(c, s, ops[0]);
      var rest := DoAll(c, first.s, ops[1..]);
      Outcome(rest.s, first.log + rest.log)
  }
}
