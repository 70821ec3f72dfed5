/** The bounded queue that a ring implements, and the history of everything pushed into it. */
module BoundedQueue {

  datatype Option<+T> = None | Some(value: T)

  datatype Overflow = DropNewest | DropOldest

  datatype PushStatus = PushOk | DroppedNewest | DroppedOldest

  datatype Queue<T> = Queue(items: seq<T>, capacity: nat, overflow: Overflow, drops: nat) {
    predicate Ok() {
      capacity > 0 && |items| <= capacity
    }
  }

  function EmptyQueue<T>(capacity: nat, overflow: Overflow): Queue<T> {
    Queue([], capacity, overflow, 0)
  }

  function Push<T>(q: Queue<T>, x: T): (out: (Queue<T>, PushStatus))
    requires q.Ok()
    ensures out.0.Ok() && out.0.capacity == q.capacity && out.0.overflow == q.overflow
  {
    if |q.items| < q.capacity then
      (q.(items := q.items + [x]), PushOk)
    else if q.overflow.DropNewest? then
      (q.(drops := q.drops + 1), DroppedNewest)
    else
      (q.(items := q.items[1..] + [x], drops := q.drops + 1), DroppedOldest)
  }

  function Pop<T>(q: Queue<T>): (out: (Queue<T>, Option<T>))
    requires q.Ok()
    ensures out.0.Ok() && out.0.capacity == q.capacity && out.0.overflow == q.overflow
  {
    if q.items == [] then (q, None) else (q.(items := q.items[1..]), Some(q.items[0]))
  }

  // ------------------------------------------------------------------
  // Histories
  // ------------------------------------------------------------------

  /** One critical section: any interleaving of producers and the consumer is a sequence of these. */
  datatype Op<T> = PushOp(item: T) | PopOp

  /** A queue with everything offered to it, accepted by it and popped from it since its start. */
  datatype History<T> = History(q: Queue<T>, offered: seq<T>, accepted: seq<T>, popped: seq<T>)

  function Start<T>(capacity: nat, overflow: Overflow): History<T> {
    History(EmptyQueue(capacity, overflow), [], [], [])
  }

  function Do<T>(h: History<T>, op: Op<T>): (h': History<T>)
    requires h.q.Ok()
    ensures h'.q.Ok()
  {
    match op
    case PushOp(x) =>
      var (q, status) := Push(h.q, x);
      History(q, h.offered + [x], if status.DroppedNewest? then h.accepted else h.accepted + [x], h.popped)
    case PopOp =>
      var (q, x) := Pop(h.q);
      History(q, h.offered, h.accepted, if x.Some? then h.popped + [x.value] else h.popped)
  }

  function DoAll<T>(h: History<T>, ops: seq<Op<T>>): (h': History<T>)
    requires h.q.Ok()
    ensures h'.q.Ok()
    decreases |ops|
  {
    if ops == [] then h else DoAll(Do(h, ops[0]), ops[1..])
  }

  // ------------------------------------------------------------------
  // In-order subsequences
  // ------------------------------------------------------------------

  ghost predicate Embeds<T>(at: seq<nat>, a: seq<T>, b: seq<T>) {
    && |at| == |a|
    && (forall i :: 0 <= i < |a| ==> at[i] < |b| && a[i] == b[at[i]])
    && (forall i, j :: 0 <= i < j < |a| ==> at[i] < at[j])
  }

  /** `a` is what remains of `b` after deleting some elements. */
  ghost predicate Subsequence<T(!new)>(a: seq<T>, b: seq<T>) {
    exists at: seq<nat> :: Embeds(at, a, b)
  }

  lemma SubsequenceAppend<T(!new)>(a: seq<T>, b: seq<T>, x: T)
    requires Subsequence(a, b)
    ensures Subsequence(a, b + [x]) && Subsequence(a + [x], b + [x])
  {
    var at: seq<nat> :| Embeds(at, a, b);
    assert Embeds(at, a, b + [x]);
    assert Embeds(at + [|b|], a + [x], b + [x]);
  }

  lemma SubsequenceDelete<T(!new)>(a: seq<T>, k: nat, b: seq<T>)
    requires k < |a| && Subsequence(a, b)
    ensures Subsequence(a[..k] + a[k + 1..], b)
  {
    var at: seq<nat> :| Embeds(at, a, b);
    assert Embeds(at[..k] + at[k + 1..], a[..k] + a[k + 1..], b);
  }

  lemma PrefixOfSubsequence<T(!new)>(a: seq<T>, n: nat, b: seq<T>)
    requires n <= |a| && Subsequence(a, b)
    ensures Subsequence(a[..n], b)
  {
    var at: seq<nat> :| Embeds(at, a, b);
    assert Embeds(at[..n], a[..n], b);
  }

  /** The last element of `b` is the last of `a`, or is not needed for `a`. */
  lemma SubsequenceLast<T(!new)>(a: seq<T>, b: seq<T>) returns (used: bool)
    requires Subsequence(a, b) && b != []
    ensures used ==> a != [] && a[|a| - 1] == b[|b| - 1] && Subsequence(a[..|a| - 1], b[..|b| - 1])
    ensures !used ==> Subsequence(a, b[..|b| - 1])
  {
    var at: seq<nat> :| Embeds(at, a, b);
    var m, n := |a| - 1, |b| - 1;
    used := a != [] && at[m] == n;
    if used {
      assert Embeds(at[..m], a[..m], b[..n]) by {
        forall i | 0 <= i < m
          ensures at[i] < n
        {
          assert at[i] < at[m];
        }
      }
    } else {
      assert Embeds(at, a, b[..n]) by {
        forall i | 0 <= i < |a|
          ensures at[i] < n
        {
          assert at[i] <= at[m];
        }
      }
    }
  }

  lemma SubsequenceItself<T(!new)>(a: seq<T>)
    ensures Subsequence(a, a)
  {
    assert Embeds(seq(|a|, i => i), a, a);
  }

  // ------------------------------------------------------------------
  // What every history keeps
  // ------------------------------------------------------------------

  /** Nothing is lost without being counted, and order is never disturbed. */
  ghost predicate Accounted<T(!new)>(h: History<T>) {
    && h.q.Ok()
    && |h.offered| == |h.popped| + |h.q.items| + h.q.drops
    && Subsequence(h.popped + h.q.items, h.offered)
    && (h.q.overflow.DropNewest? ==> h.accepted == h.popped + h.q.items)
    && (h.q.overflow.DropOldest? ==>
          && h.accepted == h.offered
          && h.q.items == h.offered[|h.popped| + h.q.drops..])
  }

  lemma PushAccounted<T(!new)>(h: History<T>, x: T)
    requires Accounted(h)
    ensures Accounted(Do(h, PushOp(x)))
  {
    hide Subsequence;
    var h' := Do(h, PushOp(x));
    var kept := h.popped + h.q.items;
    SubsequenceAppend(kept, h.offered, x);
    assert kept + [x] == h.popped + (h.q.items + [x]);
    if Push(h.q, x).1.DroppedOldest? {
      var p := |h.popped|;
      SubsequenceDelete(kept + [x], p, h'.offered);
      assert (kept + [x])[..p] + (kept + [x])[p + 1..] == h.popped + h'.q.items;
    }
  }

  lemma PopAccounted<T(!new)>(h: History<T>)
    requires Accounted(h)
    ensures Accounted(Do(h, PopOp))
  {
    hide Subsequence;
    var h' := Do(h, PopOp);
    assert h'.popped + h'.q.items == h.popped + h.q.items;
  }

  lemma StepAccounted<T(!new)>(h: History<T>, op: Op<T>)
    requires Accounted(h)
    ensures Accounted(Do(h, op))
  {
    match op
    case PushOp(x) => PushAccounted(h, x);
    case PopOp => PopAccounted(h);
  }

  /**
   * Over every interleaving of pushes and pops: pushes equal pops plus contents plus drops;
   * a drop-oldest queue holds exactly the newest of what was pushed; a drop-newest queue
   * passes on exactly what it accepted; both keep the order of arrival.
   */
  lemma {:induction false} EveryHistoryAccounted<T(!new)>(h: History<T>, ops: seq<Op<T>>)
    requires Accounted(h)
    ensures Accounted(DoAll(h, ops))
    decreases |ops|
  {
    if ops != [] {
      StepAccounted(h, ops[0]);
      EveryHistoryAccounted(Do(h, ops[0]), ops[1..]);
    }
  }

  lemma StartAccounted<T(!new)>(capacity: nat, overflow: Overflow)
    requires capacity > 0
    ensures Accounted(Start<T>(capacity, overflow))
  {
    assert Embeds<T>([], [], []);
    var h := Start<T>(capacity, overflow);
    assert h.popped + h.q.items == [];
  }

  ghost predicate Rising(at: seq<nat>) {
    forall i, j :: 0 <= i < j < |at| ==> at[i] < at[j]
  }

  lemma {:induction false} RisingIsIdentity(at: seq<nat>, n: nat)
    requires Rising(at) && |at| == n && forall i :: 0 <= i < n ==> at[i] < n
    ensures forall i :: 0 <= i < n ==> at[i] == i
  {
    if n > 0 {
      var front := at[..n - 1];
      forall i | 0 <= i < n - 1
        ensures front[i] < n - 1
      {
        assert at[i] < at[n - 1];
      }
      RisingIsIdentity(front, n - 1);
      assert forall i :: 0 <= i < n - 1 ==> at[i] == front[i];
      if n > 1 {
        assert at[n - 2] < at[n - 1];
      }
    }
  }

  lemma {:induction false} RisingBound(at: seq<nat>, i: nat)
    requires Rising(at) && i < |at|
    ensures i <= at[i]
  {
    if i > 0 {
      RisingBound(at, i - 1);
    }
  }

  lemma SubsequenceLength<T(!new)>(a: seq<T>, b: seq<T>)
    requires Subsequence(a, b)
    ensures |a| <= |b|
  {
    var at: seq<nat> :| Embeds(at, a, b);
    if a != [] {
      RisingBound(at, |a| - 1);
    }
  }

  lemma SubsequenceOfSameLength<T(!new)>(a: seq<T>, b: seq<T>)
    requires Subsequence(a, b) && |a| == |b|
    ensures a == b
  {
    var at: seq<nat> :| Embeds(at, a, b);
    RisingIsIdentity(at, |b|);
  }

  // ------------------------------------------------------------------
  // A drop-oldest queue drained in batches
  // ------------------------------------------------------------------

  /**
   * A drop-oldest queue after `offered` was put in and `taken` taken out: everything offered
   * was taken, is queued or was dropped, what is queued is the newest, in order, and what was
   * taken came before it, in order.
   */
  ghost predicate NewestKept<T(!new)>(q: Queue<T>, offered: seq<T>, taken: seq<T>) {
    && q.Ok() && q.overflow.DropOldest?
    && |offered| == |taken| + |q.items| + q.drops
    && q.items == offered[|offered| - |q.items|..]
    && Subsequence(taken + q.items, offered)
  }

  lemma NewestKeptStart<T(!new)>(capacity: nat)
    requires capacity > 0
    ensures NewestKept<T>(EmptyQueue(capacity, DropOldest), [], [])
  {
    StartAccounted<T>(capacity, DropOldest);
  }

  lemma NewestKeptPush<T(!new)>(q: Queue<T>, offered: seq<T>, taken: seq<T>, x: T)
    requires NewestKept(q, offered, taken)
    ensures NewestKept(Push(q, x).0, offered + [x], taken)
  {
    hide Subsequence;
    PushAccounted(History(q, offered, offered, taken), x);
  }

  lemma NewestKeptTake<T(!new)>(q: Queue<T>, offered: seq<T>, taken: seq<T>, n: nat)
    requires NewestKept(q, offered, taken) && n <= |q.items|
    ensures NewestKept(q.(items := q.items[n..]), offered, taken + q.items[..n])
  {
    hide Subsequence;
    assert taken + q.items[..n] + q.items[n..] == taken + q.items;
  }

  // ------------------------------------------------------------------
  // Queues of encoded elements
  // ------------------------------------------------------------------

  function MapSeq<A, B>(f: A -> B, s: seq<A>): (t: seq<B>)
    ensures |t| == |s| && forall i :: 0 <= i < |s| ==> t[i] == f(s[i])
  {
    seq(|s|, i requires 0 <= i < |s| => f(s[i]))
  }

  function Mapped<A, B>(f: A -> B, q: Queue<A>): Queue<B> {
    Queue(MapSeq(f, q.items), q.capacity, q.overflow, q.drops)
  }

  /** Pushing and popping encoded elements is encoding what pushing and popping does. */
  lemma MappedPush<A, B>(f: A -> B, q: Queue<A>, x: A)
    requires q.Ok()
    ensures Mapped(f, q).Ok()
    ensures Push(Mapped(f, q), f(x)) == (Mapped(f, Push(q, x).0), Push(q, x).1)
  {
    assert MapSeq(f, q.items + [x]) == MapSeq(f, q.items) + [f(x)];
    if q.items != [] {
      assert MapSeq(f, q.items[1..] + [x]) == MapSeq(f, q.items)[1..] + [f(x)];
    }
  }

  lemma MappedPop<A, B>(f: A -> B, q: Queue<A>)
    requires q.Ok()
    ensures Mapped(f, q).Ok()
    ensures Pop(Mapped(f, q)).0 == Mapped(f, Pop(q).0)
    ensures Pop(Mapped(f, q)).1 == if q.items == [] then None else Some(f(q.items[0]))
  {
    if q.items != [] {
      assert MapSeq(f, q.items[1..]) == MapSeq(f, q.items)[1..];
    }
  }
}
