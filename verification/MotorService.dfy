/** The motor supervision service as the program has it: two rings and a command, drained in budgeted loops. */
module MotorService {
  import opened BoundedQueue
  import opened RingBytes
  import opened RingBuffer
  import opened TypedRing
  import opened Codec
  import opened MotorModel
  import opened MotorLatency

  class MotorService {
    const feedbackRing: TypedRing<Feedback>
    const eventQueue: TypedRing<U16>
    var targetSpeedRpm: U16
    var enabled: bool
    var irqHint: bool
    var maxFeedbackItemsPerRun: nat
    var maxEventsPerRun: nat

    /** The machine state that the fields represent, with the trace of events and commands. */
    ghost var m: Motor

    /** The two rings share nothing. */
    ghost predicate Separate()
      reads this, feedbackRing.ring, eventQueue.ring
    {
      && feedbackRing.ring != eventQueue.ring
      && feedbackRing.ring.storage != eventQueue.ring.storage
    }

    ghost predicate Valid()
      reads this, feedbackRing, feedbackRing.ring, feedbackRing.ring.storage,
            eventQueue, eventQueue.ring, eventQueue.ring.storage
    {
      && Separate()
      && feedbackRing.Valid() && eventQueue.Valid()
      && m == Motor(feedbackRing.queue, eventQueue.queue, targetSpeedRpm, enabled, irqHint,
                    maxFeedbackItemsPerRun, maxEventsPerRun, m.trace)
    }

    constructor ()
      ensures fresh(feedbackRing) && fresh(eventQueue) && fresh(feedbackRing.ring) && fresh(eventQueue.ring)
      ensures feedbackRing.layout == FeedbackLayout() && eventQueue.layout == WordLayout()
      ensures feedbackRing.ring != eventQueue.ring
    {
      feedbackRing := new TypedRing(FeedbackLayout());
      eventQueue := new TypedRing(WordLayout());
      targetSpeedRpm, enabled, irqHint, maxFeedbackItemsPerRun, maxEventsPerRun := 0, false, false, 0, 0;
      m := MotorModel.Initial(0, 0, 0, 0);
    }

    /** `sch_motor_supervision_service_init`, given a complete HAL table. */
    method Init(feedbackStorage: array?<Byte>, feedbackCapacity: nat, eventStorage: array?<Byte>, eventCapacity: nat,
                maxFeedback: nat, maxEvents: nat) returns (ok: bool)
      requires feedbackRing.layout == FeedbackLayout() && eventQueue.layout == WordLayout()
      requires feedbackRing.ring != eventQueue.ring
      requires feedbackStorage != null ==> feedbackStorage != eventStorage
      requires feedbackStorage != null ==> feedbackCapacity * FEEDBACK_SIZE <= feedbackStorage.Length
      requires eventStorage != null ==> eventCapacity * 2 <= eventStorage.Length
      modifies this, feedbackRing, feedbackRing.ring, eventQueue, eventQueue.ring
      ensures ok <==> maxFeedback != 0 && maxEvents != 0 && feedbackStorage != null && feedbackCapacity != 0
                      && eventStorage != null && eventCapacity != 0
      ensures ok ==> Valid() && m == Initial(feedbackCapacity, eventCapacity, maxFeedback, maxEvents)
    {
      if maxFeedback == 0 || maxEvents == 0 {
        return false;
      }
      hide Refines, Accounted, Mapped, Sound, FeedbackLayout, WordLayout;
      targetSpeedRpm := 0;
      enabled := false;
      irqHint := false;
      maxFeedbackItemsPerRun := maxFeedback;
      maxEventsPerRun := maxEvents;
      ok := InitRings(feedbackStorage, feedbackCapacity, eventStorage, eventCapacity);
      m := Initial(feedbackCapacity, eventCapacity, maxFeedback, maxEvents);
    }

    /** Both rings drop their oldest element on overflow. */
    method InitRings(feedbackStorage: array?<Byte>, feedbackCapacity: nat,
                     eventStorage: array?<Byte>, eventCapacity: nat) returns (ok: bool)
      requires feedbackRing.layout == FeedbackLayout() && eventQueue.layout == WordLayout()
      requires feedbackRing.ring != eventQueue.ring
      requires feedbackStorage != null ==> feedbackStorage != eventStorage
      requires feedbackStorage != null ==> feedbackCapacity * FEEDBACK_SIZE <= feedbackStorage.Length
      requires eventStorage != null ==> eventCapacity * 2 <= eventStorage.Length
      modifies feedbackRing, feedbackRing.ring, eventQueue, eventQueue.ring
      ensures ok <==> feedbackStorage != null && feedbackCapacity != 0 && eventStorage != null && eventCapacity != 0
      ensures ok ==> Separate() && feedbackRing.Valid() && eventQueue.Valid()
      ensures ok ==> feedbackRing.queue == EmptyQueue(feedbackCapacity, DropOldest)
      ensures ok ==> eventQueue.queue == EmptyQueue(eventCapacity, DropOldest)
    {
      hide Refines, Accounted, Mapped, Sound;
      FeedbackLayoutSound();
      WordLayoutSound();
      var okFeedback := feedbackRing.Init(feedbackStorage, feedbackCapacity, DROP_OLDEST);
      var okEvents := eventQueue.Init(eventStorage, eventCapacity, DROP_OLDEST);
      ok := okFeedback && okEvents;
    }

    /** `sch_motor_supervision_set_command`. */
    method SetCommand(enable: bool, rpm: U16)
      requires Valid()
      modifies this
      ensures Valid() && m == MotorModel.Do(old(m), MotorModel.SetCommand(enable, rpm))
    {
      enabled := enable;
      targetSpeedRpm := rpm;
      m := MotorModel.Do(m, MotorModel.SetCommand(enable, rpm));
    }

    /** `sch_motor_isr_feedback`; `sample` is what the HAL read, if it did. */
    method IsrFeedback(sample: Option<Feedback>)
      requires Valid()
      modifies this, feedbackRing, feedbackRing.ring, feedbackRing.ring.storage,
               eventQueue, eventQueue.ring, eventQueue.ring.storage
      ensures Valid() && m == MotorModel.Do(old(m), FeedbackIrq(sample))
      ensures feedbackRing.ring.storage == old(feedbackRing.ring.storage)
      ensures eventQueue.ring.storage == old(eventQueue.ring.storage)
    {
      hide Refines, Accounted, Mapped, Sound, Push;
      ghost var before := m;
      if sample.Some? {
        var _ := feedbackRing.Push(sample.value);
      }
      var _ := eventQueue.Push(EVENT_FEEDBACK);
      irqHint := true;
      m := MotorModel.Do(before, FeedbackIrq(sample));
    }

    /** `sch_motor_isr_fault`. */
    method IsrFault()
      requires Valid()
      modifies this, eventQueue, eventQueue.ring, eventQueue.ring.storage
      ensures Valid() && m == MotorModel.Do(old(m), FaultIrq)
      ensures eventQueue.ring.storage == old(eventQueue.ring.storage)
    {
      hide Refines, Accounted, Mapped, Sound, Push;
      var _ := eventQueue.Push(EVENT_FAULT);
      irqHint := true;
      m := MotorModel.Do(m, FaultIrq);
    }

    /** The hint and queue check that opens a run. */
    method TakeHint() returns (work: bool)
      requires Valid()
      modifies this
      ensures Valid() && m == old(m).(hint := false) && work == HasWork(old(m))
    {
      var hadIrqHint := irqHint;
      irqHint := false;
      m := m.(hint := false);
      var noFeedback := feedbackRing.IsEmpty();
      var eventCount := eventQueue.Size();
      work := hadIrqHint || !noFeedback || eventCount != 0;
    }

    /** Command the hardware as last told. */
    method Apply()
      requires Valid()
      modifies this`m
      ensures Valid() && m == ApplyCommand(old(m))
    {
      hide Refines, Accounted, Mapped, Sound;
      m := Log(m, SetEnable(enabled));
      if enabled {
        m := Log(m, SetSpeed(targetSpeedRpm));
      }
    }

    /** Pop one event and react to it. */
    method ConsumeOne() returns (found: bool)
      requires Valid()
      modifies this`m, this`enabled, eventQueue, eventQueue.ring
      ensures Valid() && eventQueue.ring.storage == old(eventQueue.ring.storage)
      ensures found == (old(m).events.items != [])
      ensures m == if found then ConsumeEvent(old(m).(events := Pop(old(m).events).0), old(m).events.items[0])
                   else old(m)
    {
      hide Refines, Accounted, Mapped, Sound;
      var eventId := eventQueue.Pop();
      if eventId.None? {
        return false;
      }
      m := Log(m.(events := Pop(m.events).0), Consumed(eventId.value));
      if eventId.value == EVENT_FAULT {
        enabled := false;
        m := Log(m.(enabled := false), SetEnable(false));
      }
      found := true;
    }

    /** The event loop of a run. */
    method DrainEventQueue()
      requires Valid()
      modifies this`m, this`enabled, eventQueue, eventQueue.ring
      ensures Valid() && m == DrainEvents(old(m), old(m).maxEvents)
      ensures eventQueue.ring.storage == old(eventQueue.ring.storage)
    {
      hide Refines, Accounted, Mapped, Sound;
      var i := 0;
      while i < maxEventsPerRun
        invariant Valid() && i <= maxEventsPerRun
        invariant eventQueue.ring.storage == old(eventQueue.ring.storage)
        invariant m.maxEvents == old(m).maxEvents
        invariant DrainEvents(old(m), old(m).maxEvents) == DrainEvents(m, m.maxEvents - i)
      {
        var found := ConsumeOne();
        if !found {
          break;
        }
        i := i + 1;
      }
    }

    /** The feedback loop of a run; samples are popped and left to an extension. */
    method DrainFeedbackRing()
      requires Valid()
      modifies this`m, feedbackRing, feedbackRing.ring
      ensures Valid() && m == DrainFeedback(old(m), old(m).maxFeedback)
      ensures feedbackRing.ring.storage == old(feedbackRing.ring.storage)
    {
      hide Refines, Accounted, Mapped, Sound;
      var i := 0;
      while i < maxFeedbackItemsPerRun
        invariant Valid() && i <= maxFeedbackItemsPerRun
        invariant feedbackRing.ring.storage == old(feedbackRing.ring.storage)
        invariant m.maxFeedback == old(m).maxFeedback
        invariant DrainFeedback(old(m), old(m).maxFeedback) == DrainFeedback(m, m.maxFeedback - i)
      {
        var sample := feedbackRing.Pop();
        if sample.None? {
          break;
        }
        m := m.(feedback := Pop(m.feedback).0);
        i := i + 1;
      }
    }

    /** `sch_motor_supervision_service_run`. */
    method Run()
      requires Valid()
      modifies this, feedbackRing, feedbackRing.ring, eventQueue, eventQueue.ring
      ensures Valid() && m == MotorModel.Do(old(m), RunOnce)
      ensures feedbackRing.ring.storage == old(feedbackRing.ring.storage)
      ensures eventQueue.ring.storage == old(eventQueue.ring.storage)
    {
      hide Refines, Accounted, Mapped, Sound, DrainEvents, DrainFeedback;
      ghost var start := m;
      var work := TakeHint();
      if !work {
        return;
      }
      Apply();
      ghost var applied := m;
      DrainEventQueue();
      DrainKeepsBudgets(applied);
      DrainFeedbackRing();
    }
  }

  lemma DrainKeepsBudgets(m: Motor)
    requires m.Ok()
    ensures DrainEvents(m, m.maxEvents).maxFeedback == m.maxFeedback
  {
    DrainEffect(m, m.maxEvents);
  }
}
