/**
 * Motor supervision: interrupts queue events and samples, a run applies the command, then
 * drains events (a fault disables the motor) and samples, each within a budget.
 */
module MotorModel {
  import opened Arithmetic
  import opened BoundedQueue
  import opened Codec

  const EVENT_FEEDBACK: U16 := 1
  const EVENT_FAULT: U16 := 2

  /** What the service is told, consumes, and commands to the hardware, in order. */
  datatype Event =
    | Commanded(enable: bool, rpm: U16)
    | Consumed(id: U16)
    | SetEnable(on: bool)
    | SetSpeed(speed: U16)

  datatype Motor = Motor(
    feedback: Queue<Feedback>, events: Queue<U16>, target: U16, enabled: bool, hint: bool,
    maxFeedback: nat, maxEvents: nat, trace: seq<Event>)
  {
    predicate Ok() {
      feedback.Ok() && events.Ok()
    }
  }

  function Initial(feedbackCapacity: nat, eventCapacity: nat, maxFeedback: nat, maxEvents: nat): Motor {
    Motor(EmptyQueue(feedbackCapacity, DropOldest), EmptyQueue(eventCapacity, DropOldest),
          0, false, false, maxFeedback, maxEvents, [])
  }

  /** A feedback interrupt carries the sample its HAL read, if any. */
  datatype Op =
    | SetCommand(enable: bool, rpm: U16)
    | FeedbackIrq(sample: Option<Feedback>)
    | FaultIrq
    | RunOnce

  function Log(m: Motor, e: Event): Motor {
    m.(trace := m.trace + [e])
  }

  function PushEvent(m: Motor, id: U16): (m': Motor)
    requires m.Ok()
    ensures m'.Ok()
  {
    m.(events := Push(m.events, id).0, hint := true)
  }

  function ConsumeEvent(m: Motor, id: U16): Motor {
    var m1 := Log(m, Consumed(id));
    if id == EVENT_FAULT then Log(m1.(enabled := false), SetEnable(false)) else m1
  }

  function DrainEvents(m: Motor, n: nat): (m': Motor)
    requires m.Ok()
    ensures m'.Ok()
    decreases n
  {
    if n == 0 || m.events.items == [] then m
    else
      DrainEvents(ConsumeEvent(m.(events := Pop(m.events).0), m.events.items[0]), n - 1)
  }

  function DrainFeedback(m: Motor, n: nat): (m': Motor)
    requires m.Ok()
    ensures m'.Ok()
    decreases n
  {
    if n == 0 || m.feedback.items == [] then m
    else DrainFeedback(m.(feedback := Pop(m.feedback).0), n - 1)
  }

  function ApplyCommand(m: Motor): Motor {
    var m1 := Log(m, SetEnable(m.enabled));
    if m.enabled then Log(m1, SetSpeed(m.target)) else m1
  }

  predicate HasWork(m: Motor) {
    m.hint || m.feedback.items != [] || m.events.items != []
  }

  function Run(m: Motor): (m': Motor)
    requires m.Ok()
    ensures m'.Ok()
  {
    var m1 := m.(hint := false);
    if !HasWork(m) then m1
    else DrainFeedback(DrainEvents(ApplyCommand(m1), m.maxEvents), m.maxFeedback)
  }

  function Do(m: Motor, op: Op): (m': Motor)
    requires m.Ok()
    ensures m'.Ok()
  {
    match op
    case SetCommand(enable, rpm) => Log(m.(enabled := enable, target := rpm), Commanded(enable, rpm))
    case FeedbackIrq(sample) =>
      var m1 := if sample.Some? then m.(feedback := Push(m.feedback, sample.value).0) else m;
      PushEvent(m1, EVENT_FEEDBACK)
    case FaultIrq => PushEvent(m, EVENT_FAULT)
    case RunOnce => Run(m)
  }

  function DoAll(m: Motor, ops: seq<Op>): (m': Motor)
    requires m.Ok()
    ensures m'.Ok()
    decreases |ops|
  {
    if ops == [] then m else DoAll(Do(m, ops[0]), ops[1..])
  }

  // ------------------------------------------------------------------
  // The fault latch
  // ------------------------------------------------------------------

  /** Whether the motor may run after `trace`: the last command enables it and no fault was consumed since. */
  function MayRun(trace: seq<Event>): bool {
    if trace == [] then false
    else
      match trace[|trace| - 1]
      case Commanded(enable, _) => enable
      case Consumed(id) => id != EVENT_FAULT && MayRun(trace[..|trace| - 1])
      case _ => MayRun(trace[..|trace| - 1])
  }

  function LastSpeed(trace: seq<Event>): U16 {
    if trace == [] then 0
    else
      match trace[|trace| - 1]
      case Commanded(_, rpm) => rpm
      case _ => LastSpeed(trace[..|trace| - 1])
  }

  /** The hardware command at position `k`, if there is one there, is what the history before it allows. */
  ghost predicate Justified(trace: seq<Event>, k: nat)
    requires k < |trace|
  {
    match trace[k]
    case SetEnable(on) => on == MayRun(trace[..k])
    case SetSpeed(speed) => MayRun(trace[..k]) && speed == LastSpeed(trace[..k])
    case _ => true
  }

  /** The fault consumed at position `k`, if there is one there, is answered at once. */
  ghost predicate Stopped(trace: seq<Event>, k: nat)
    requires k < |trace|
  {
    trace[k] == Consumed(EVENT_FAULT) ==> k + 1 < |trace| && trace[k + 1] == SetEnable(false)
  }

  ghost predicate Latched(m: Motor) {
    && m.enabled == MayRun(m.trace)
    && m.target == LastSpeed(m.trace)
    && (forall k :: 0 <= k < |m.trace| ==> Justified(m.trace, k))
    && (forall k :: 0 <= k < |m.trace| ==> Stopped(m.trace, k))
  }

  lemma MayRunAppend(trace: seq<Event>, e: Event)
    ensures MayRun(trace + [e]) == match e
                                   case Commanded(enable, _) => enable
                                   case Consumed(id) => id != EVENT_FAULT && MayRun(trace)
                                   case _ => MayRun(trace)
    ensures LastSpeed(trace + [e]) == match e case Commanded(_, rpm) => rpm case _ => LastSpeed(trace)
  {
    assert (trace + [e])[..|trace|] == trace;
  }

  lemma JustifiedAppend(trace: seq<Event>, e: Event)
    requires forall k :: 0 <= k < |trace| ==> Justified(trace, k)
    requires e.SetEnable? ==> e.on == MayRun(trace)
    requires e.SetSpeed? ==> MayRun(trace) && e.speed == LastSpeed(trace)
    ensures forall k :: 0 <= k < |trace + [e]| ==> Justified(trace + [e], k)
  {
    forall k | 0 <= k < |trace + [e]|
      ensures Justified(trace + [e], k)
    {
      assert (trace + [e])[..k] == trace[..k];
      assert trace[..|trace|] == trace;
      if k < |trace| {
        assert Justified(trace, k);
      }
    }
  }

  lemma StoppedAppend(trace: seq<Event>, e: Event)
    requires forall k :: 0 <= k < |trace| ==> Stopped(trace, k)
    requires e != Consumed(EVENT_FAULT)
    ensures forall k :: 0 <= k < |trace + [e]| ==> Stopped(trace + [e], k)
  {
    forall k | 0 <= k < |trace + [e]|
      ensures Stopped(trace + [e], k)
    {
      if k < |trace| {
        assert Stopped(trace, k);
      }
    }
  }

  lemma LogLatched(m: Motor, e: Event)
    requires Latched(m) && (e.SetEnable? || e.SetSpeed? || (e.Consumed? && e.id != EVENT_FAULT))
    requires e.SetEnable? ==> e.on == m.enabled
    requires e.SetSpeed? ==> m.enabled && e.speed == m.target
    ensures Latched(Log(m, e))
  {
    hide Justified, Stopped, MayRun, LastSpeed;
    MayRunAppend(m.trace, e);
    JustifiedAppend(m.trace, e);
    StoppedAppend(m.trace, e);
  }

  lemma CommandLatched(m: Motor, enable: bool, rpm: U16)
    requires m.Ok() && Latched(m)
    ensures Latched(Do(m, SetCommand(enable, rpm)))
  {
    hide Justified, Stopped, MayRun, LastSpeed;
    MayRunAppend(m.trace, Commanded(enable, rpm));
    JustifiedAppend(m.trace, Commanded(enable, rpm));
    StoppedAppend(m.trace, Commanded(enable, rpm));
  }

  lemma ConsumeLatched(m: Motor, id: U16)
    requires Latched(m)
    ensures Latched(ConsumeEvent(m, id))
  {
    if id == EVENT_FAULT {
      hide Justified, MayRun, LastSpeed;
      var t, fault, off := m.trace, Consumed(EVENT_FAULT), SetEnable(false);
      MayRunAppend(t, fault);
      MayRunAppend(t + [fault], off);
      JustifiedAppend(t, fault);
      JustifiedAppend(t + [fault], off);
      var t' := t + [fault] + [off];
      forall k | 0 <= k < |t'|
        ensures Stopped(t', k)
      {
        if k < |t| {
          assert Stopped(t, k);
        }
      }
    } else {
      LogLatched(m, Consumed(id));
    }
  }

  lemma {:induction false} DrainLatched(m: Motor, n: nat)
    requires m.Ok() && Latched(m)
    ensures Latched(DrainEvents(m, n))
    decreases n
  {
    hide ConsumeEvent, Justified, Stopped, MayRun, LastSpeed;
    if n > 0 && m.events.items != [] {
      var m1 := m.(events := Pop(m.events).0);
      ConsumeLatched(m1, m.events.items[0]);
      ConsumeKeepsQueues(m1, m.events.items[0]);
      DrainLatched(ConsumeEvent(m1, m.events.items[0]), n - 1);
    }
  }

  lemma ConsumeKeepsQueues(m: Motor, id: U16)
    ensures var m' := ConsumeEvent(m, id);
            && m'.events == m.events && m'.feedback == m.feedback
            && m'.maxEvents == m.maxEvents && m'.maxFeedback == m.maxFeedback
            && m'.hint == m.hint && m'.target == m.target
            && m'.trace == m.trace + [Consumed(id)] + (if id == EVENT_FAULT then [SetEnable(false)] else [])
            && m'.enabled == (m.enabled && id != EVENT_FAULT)
  {
  }

  lemma {:induction false} FeedbackOnlyDrains(m: Motor, n: nat)
    requires m.Ok()
    ensures DrainFeedback(m, n) ==
            m.(feedback := m.feedback.(items := m.feedback.items[Min(n, |m.feedback.items|)..]))
    decreases n
  {
    if n > 0 && m.feedback.items != [] {
      FeedbackOnlyDrains(m.(feedback := Pop(m.feedback).0), n - 1);
    }
  }

  lemma RunLatched(m: Motor)
    requires m.Ok() && Latched(m)
    ensures Latched(Run(m))
  {
    hide DrainEvents, DrainFeedback, Justified, Stopped, MayRun, LastSpeed;
    if HasWork(m) {
      var m1 := m.(hint := false);
      LogLatched(m1, SetEnable(m1.enabled));
      if m1.enabled {
        LogLatched(Log(m1, SetEnable(true)), SetSpeed(m1.target));
      }
      var m2 := ApplyCommand(m1);
      DrainLatched(m2, m.maxEvents);
      FeedbackOnlyDrains(DrainEvents(m2, m.maxEvents), m.maxFeedback);
    }
  }

  lemma DoLatched(m: Motor, op: Op)
    requires m.Ok() && Latched(m)
    ensures Latched(Do(m, op))
  {
    hide Run, Justified, Stopped, MayRun, LastSpeed;
    match op
    case SetCommand(enable, rpm) => CommandLatched(m, enable, rpm);
    case FeedbackIrq(_) =>
    case FaultIrq =>
    case RunOnce => RunLatched(m);
  }

  /**
   * Over every history: the motor is enabled, or given a speed, only while the last command
   * enables it and no fault has been consumed since, and then with the commanded speed; and
   * each consumed fault is answered at once by a disable.
   */
  lemma {:induction false} EveryHistoryLatched(m: Motor, ops: seq<Op>)
    requires m.Ok() && Latched(m)
    ensures Latched(DoAll(m, ops))
    decreases |ops|
  {
    if ops != [] {
      hide Do, Latched;
      DoLatched(m, ops[0]);
      EveryHistoryLatched(Do(m, ops[0]), ops[1..]);
    }
  }

  lemma InitialLatched(feedbackCapacity: nat, eventCapacity: nat, maxFeedback: nat, maxEvents: nat)
    ensures Latched(Initial(feedbackCapacity, eventCapacity, maxFeedback, maxEvents))
  {
  }

  lemma {:induction false} FaultForbids(trace: seq<Event>, f: nat, k: nat)
    requires f < k <= |trace| && trace[f] == Consumed(EVENT_FAULT)
    requires forall j :: f < j < k ==> !(trace[j].Commanded? && trace[j].enable)
    ensures !MayRun(trace[..k])
  {
    assert trace[..k][..k - 1] == trace[..k - 1];
    assert trace[..k][k - 1] == trace[k - 1];
    if f + 1 < k {
      FaultForbids(trace, f, k - 1);
    }
  }

  /**
   * Over every history from initialisation: from a consumed fault until the next enabling
   * command, nothing enables the motor and no speed is set.
   */
  lemma FaultHoldsUntilReenabled(
    feedbackCapacity: nat, eventCapacity: nat, maxFeedback: nat, maxEvents: nat, ops: seq<Op>, f: nat, k: nat)
    requires feedbackCapacity > 0 && eventCapacity > 0
    requires var trace := DoAll(Initial(feedbackCapacity, eventCapacity, maxFeedback, maxEvents), ops).trace;
             && f < k < |trace| && trace[f] == Consumed(EVENT_FAULT)
             && forall j :: f < j < k ==> !(trace[j].Commanded? && trace[j].enable)
    ensures var trace := DoAll(Initial(feedbackCapacity, eventCapacity, maxFeedback, maxEvents), ops).trace;
            !(trace[k].SetEnable? && trace[k].on) && !trace[k].SetSpeed?
  {
    var m := Initial(feedbackCapacity, eventCapacity, maxFeedback, maxEvents);
    InitialLatched(feedbackCapacity, eventCapacity, maxFeedback, maxEvents);
    EveryHistoryLatched(m, ops);
    var trace := DoAll(m, ops).trace;
    assert Justified(trace, k);
    FaultForbids(trace, f, k);
  }
}
