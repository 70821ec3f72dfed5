/** A byte ring carrying fixed-size elements of one type; with 16-bit elements it is the event queue. */
module TypedRing {
  import opened BoundedQueue
  import opened RingBytes
  import opened RingBuffer
  import opened Codec

  /** How elements are laid out in memory. */
  datatype Layout<!T> = Layout(size: nat, encode: T -> seq<Byte>, decode: seq<Byte> --> T)

  ghost predicate Sound<T(!new)>(layout: Layout<T>) {
    && layout.size > 0
    && forall x :: |layout.encode(x)| == layout.size && layout.decode.requires(layout.encode(x)) &&
                   layout.decode(layout.encode(x)) == x
  }

  function WordLayout(): Layout<U16> {
    Layout(2, EncodeU16, DecodeU16)
  }

  function FeedbackLayout(): Layout<Feedback> {
    Layout(FEEDBACK_SIZE, EncodeFeedback, DecodeFeedback)
  }

  function RecordLayout(): Layout<Record> {
    Layout(RECORD_SIZE, EncodeRecord, DecodeRecord)
  }

  lemma WordLayoutSound()
    ensures Sound(WordLayout())
  {
    forall x: U16
      ensures DecodeU16(EncodeU16(x)) == x
    {
      U16RoundTrip(x);
    }
  }

  lemma FeedbackLayoutSound()
    ensures Sound(FeedbackLayout())
  {
    forall x: Feedback
      ensures DecodeFeedback(EncodeFeedback(x)) == x
    {
      FeedbackRoundTrip(x);
    }
  }

  lemma RecordLayoutSound()
    ensures Sound(RecordLayout())
  {
    forall x: Record
      ensures DecodeRecord(EncodeRecord(x)) == x
    {
      RecordRoundTrip(x);
    }
  }

  class TypedRing<T(!new)> {
    const ring: RingBuffer
    const layout: Layout<T>

    /** The bounded queue of elements that the bytes stand for. */
    ghost var queue: Queue<T>

    ghost predicate Valid()
      reads this, ring, ring.storage
    {
      && Sound(layout)
      && ring.Configured() && ring.Valid()
      && ring.elementSize == layout.size
      && queue.Ok()
      && ring.history.q == Mapped(layout.encode, queue)
    }

    constructor (layout: Layout<T>)
      ensures fresh(ring) && this.layout == layout && !ring.Configured()
    {
      ring := new RingBuffer();
      this.layout := layout;
      queue := EmptyQueue(0, DropNewest);
    }

    method Init(storage: array?<Byte>, capacity: nat, mode: int) returns (ok: bool)
      requires Sound(layout) && (storage != null ==> capacity * layout.size <= storage.Length)
      modifies this, ring
      ensures ok <==> storage != null && capacity != 0 && mode in {DROP_NEWEST, DROP_OLDEST}
      ensures ok ==> Valid() && ring.storage == storage &&
                     queue == EmptyQueue(capacity, if mode == DROP_NEWEST then DropNewest else DropOldest)
      ensures !ok ==> unchanged(ring)
    {
      hide Refines, Accounted;
      ok := ring.Init(storage, capacity, layout.size, mode);
      queue := EmptyQueue(capacity, if mode == DROP_NEWEST then DropNewest else DropOldest);
      assert MapSeq(layout.encode, []) == [];
    }

    method Push(x: T) returns (status: PushStatus)
      requires Valid()
      modifies this, ring, ring.storage
      ensures Valid() && ring.storage == old(ring.storage)
      ensures (queue, status) == BoundedQueue.Push(old(queue), x)
    {
      hide Refines, Accounted, PushBytes, BoundedQueue.Push, Mapped;
      MappedPush(layout.encode, queue, x);
      status := ring.Push(layout.encode(x));
      queue := BoundedQueue.Push(queue, x).0;
    }

    method Pop() returns (x: Option<T>)
      requires Valid()
      modifies this, ring
      ensures Valid() && ring.storage == old(ring.storage)
      ensures (queue, x) == BoundedQueue.Pop(old(queue))
    {
      hide Refines, Accounted, PopBytes, Mapped;
      MappedPop(layout.encode, queue);
      var bytes := ring.Pop();
      x := if bytes.None? then None else Some(layout.decode(bytes.value));
      queue := BoundedQueue.Pop(queue).0;
    }

    method Size() returns (n: nat)
      requires Valid()
      ensures n == |queue.items|
    {
      hide Refines, Accounted;
      n := ring.Size();
    }

    method IsEmpty() returns (empty: bool)
      requires Valid()
      ensures empty <==> queue.items == []
    {
      var n := Size();
      empty := n == 0;
    }

    method DropCount() returns (n: nat)
      requires Valid()
      ensures n == Counter(queue.drops)
    {
      hide Refines, Accounted;
      n := ring.DropCount();
    }
  }
}
