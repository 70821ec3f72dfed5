/** What uninterrupted runs of the FSI service achieve, and when no record is ever dropped. */
module FsiThroughput {
  import opened Arithmetic
  import opened BoundedQueue
  import opened Codec
  import opened FsiModel

  /** The absence of interrupts. */
  function Quiet(k: nat): seq<Irq> {
    []
  }

  // ------------------------------------------------------------------
  // One uninterrupted run
  // ------------------------------------------------------------------

  /** `m'` is `m` after consuming `n` records and nothing else that a caller could see. */
  ghost predicate Drained(m: Fsi, n: nat, m': Fsi) {
    && n <= |m.queue.items|
    && m'.queue == m.queue.(items := m.queue.items[n..])
    && m'.consumed == m.consumed + m.queue.items[..n]
    && m'.captured == m.captured && m'.hooks == m.hooks && m'.budget == m.budget
    && m'.bits == m.bits && m'.pc.Idle?
  }

  /** One record popped and handled, then `n` more. */
  lemma DrainedOneMore(m: Fsi, i: nat, n: nat, m': Fsi)
    requires m.queue.Ok() && m.pc == Fetch(i) && i < m.budget && m.queue.items != []
    requires Drained(TaskStep(TaskStep(m)), n, m')
    ensures Drained(m, n + 1, m')
  {
    hide Deliver;
    var r := m.queue.items[0];
    DeliverEffect(TaskStep(m), r);
    var rest := m.queue.items[1..];
    assert m.queue.items[..n + 1] == [r] + rest[..n];
    assert m.consumed + m.queue.items[..n + 1] == m.consumed + [r] + rest[..n];
    assert m.queue.items[n + 1..] == rest[n..];
  }

  lemma TwoSteps(m: Fsi, i: nat, k: nat)
    requires m.queue.Ok() && m.pc == Fetch(i) && i < m.budget && m.queue.items != []
    ensures var m2 := TaskStep(TaskStep(m));
            && m2.pc == Fetch(i + 1) && m2.budget == m.budget
            && m2.queue.items == m.queue.items[1..]
            && Continue(m, Quiet, k) == Continue(m2, Quiet, k + 2)
  {
    hide Deliver;
    var m1 := TaskStep(m);
    DeliverEffect(m1, m.queue.items[0]);
    QuietStep(m, k);
    QuietStep(m1, k + 1);
  }

  lemma QuietStep(m: Fsi, k: nat)
    requires m.queue.Ok() && WithinBudget(m) && !m.pc.Idle?
    ensures WithinBudget(TaskStep(m))
    ensures Continue(m, Quiet, k) == Continue(TaskStep(m), Quiet, k + 1)
  {
    hide Deliver;
    if m.pc.Handle? {
      DeliverEffect(m, m.pc.record);
    }
    assert Arrive(m, Quiet(k)) == m;
  }

  lemma {:induction false} LoopDrains(m: Fsi, i: nat, k: nat)
    requires m.queue.Ok() && m.pc == Fetch(i) && i <= m.budget
    ensures Drained(m, Min(m.budget - i, |m.queue.items|), Continue(m, Quiet, k))
    decreases m.budget - i
  {
    hide TaskStep, Drained, Continue;
    if i < m.budget && m.queue.items != [] {
      TwoSteps(m, i, k);
      var m2 := TaskStep(TaskStep(m));
      LoopDrains(m2, i + 1, k + 2);
      DrainedOneMore(m, i, Min(m2.budget - (i + 1), |m2.queue.items|), Continue(m2, Quiet, k + 2));
      assert Min(m.budget - i, |m.queue.items|) == Min(m2.budget - (i + 1), |m2.queue.items|) + 1;
    } else {
      LoopEnds(m, i, k);
    }
  }

  lemma LoopEnds(m: Fsi, i: nat, k: nat)
    requires m.queue.Ok() && m.pc == Fetch(i) && i <= m.budget && (i == m.budget || m.queue.items == [])
    ensures Drained(m, Min(m.budget - i, |m.queue.items|), Continue(m, Quiet, k))
  {
    assert Arrive(m, Quiet(k)) == m;
    assert Continue(m, Quiet, k) == Continue(m.(pc := Idle), Quiet, k + 1);
    assert m.queue.items[0..] == m.queue.items;
    assert m.consumed + m.queue.items[..0] == m.consumed;
  }

  /** A run consumes the oldest records up to its budget and clears the event bits. */
  lemma QuietRunDrains(m: Fsi)
    requires m.queue.Ok() && m.pc.Idle?
    ensures Drained(m.(bits := 0), Min(m.budget, |m.queue.items|), Run(m, Quiet))
  {
    hide Deliver;
    var m1 := TaskStep(m);
    var m2 := TaskStep(m1);
    assert Arrive(m, Quiet(0)) == m;
    QuietStep(m1, 1);
    if m2.pc.Fetch? {
      LoopDrains(m2, 0, 2);
    }
  }

  /**
   * Event bits are only a hint: two uninterrupted runs that differ in them end in the same
   * state, with the same handler calls, the same ring and the bits cleared.
   */
  lemma EventBitsAreAdvisory(m: Fsi, bits: bv32)
    requires m.queue.Ok() && m.pc.Idle?
    ensures Run(m, Quiet) == Run(m.(bits := bits), Quiet)
    ensures Run(m, Quiet).bits == 0
  {
    RunFromCheck(m);
    RunFromCheck(m.(bits := bits));
    QuietRunDrains(m);
    var m0 := m.(bits := 0);
    CheckIsAdvisory(m0);
    hide Run, Continue;
  }

  lemma RunFromCheck(m: Fsi)
    requires m.queue.Ok() && m.pc.Idle?
    ensures Run(m, Quiet) == Continue(m.(bits := 0, pc := Check(m.bits != 0)), Quiet, 1)
  {
    hide Continue;
    assert Arrive(m, Quiet(0)) == m;
  }

  lemma CheckIsAdvisory(m: Fsi)
    requires m.queue.Ok()
    ensures Continue(m.(pc := Check(true)), Quiet, 1) == Continue(m.(pc := Check(false)), Quiet, 1)
  {
    var hinted, plain := m.(pc := Check(true)), m.(pc := Check(false));
    assert Arrive(hinted, Quiet(1)) == hinted && Arrive(plain, Quiet(1)) == plain;
    var fetch := m.(pc := Fetch(0));
    assert Continue(hinted, Quiet, 1) == Continue(fetch, Quiet, 2);
    if m.queue.items == [] {
      assert Arrive(fetch, Quiet(2)) == fetch;
      assert Continue(fetch, Quiet, 2) == Continue(m.(pc := Idle), Quiet, 3);
    }
  }

  // ------------------------------------------------------------------
  // Draining a backlog
  // ------------------------------------------------------------------

  function Runs(m: Fsi, n: nat): (m': Fsi)
    requires m.queue.Ok() && m.pc.Idle?
    ensures m'.queue.Ok() && m'.pc.Idle? && m'.budget == m.budget
  {
    if n == 0 then m else Run(Runs(m, n - 1), Quiet)
  }

  lemma {:induction false} RunsDrain(m: Fsi, n: nat)
    requires m.queue.Ok() && m.pc.Idle?
    ensures |Runs(m, n).queue.items| == Max(0, |m.queue.items| - n * m.budget)
  {
    if n > 0 {
      hide Run;
      RunsDrain(m, n - 1);
      QuietRunDrains(Runs(m, n - 1));
      assert n * m.budget == (n - 1) * m.budget + m.budget;
    }
  }

  function CeilDiv(n: nat, b: nat): nat
    requires b > 0
  {
    (n + b - 1) / b
  }

  /** With no arrivals a backlog of n records is gone after exactly ceil(n / budget) runs. */
  lemma BacklogDrainsInExactly(m: Fsi, n: nat)
    requires m.queue.Ok() && m.pc.Idle? && m.budget > 0
    ensures Runs(m, n).queue.items == [] <==> CeilDiv(|m.queue.items|, m.budget) <= n
  {
    RunsDrain(m, n);
    hide Runs;
    CeilDivIsLeast(|m.queue.items|, m.budget, n);
  }

  lemma CeilDivIsLeast(x: nat, b: nat, n: nat)
    requires b > 0
    ensures x <= n * b <==> CeilDiv(x, b) <= n
  {
    var c := CeilDiv(x, b);
    DivStep(x + b - 1, b);
    assert (c + 1) * b == c * b + b;
    assert (n + 1) * b == n * b + b;
    if c <= n {
      ProductOrder(c, n, b);
    } else {
      ProductOrder(n + 1, c, b);
    }
  }

  // ------------------------------------------------------------------
  // Bursts between runs
  // ------------------------------------------------------------------

  function Records(irqs: seq<Irq>): seq<Record> {
    if irqs == [] then [] else [Captured(irqs[0])] + Records(irqs[1..])
  }

  lemma {:induction false} RecordsCount(irqs: seq<Irq>)
    ensures |Records(irqs)| == |irqs|
  {
    if irqs != [] {
      RecordsCount(irqs[1..]);
    }
  }

  /** Interrupts that fit into the ring are all stored. */
  lemma {:induction false} ArrivalsThatFit(m: Fsi, irqs: seq<Irq>)
    requires m.queue.Ok() && |m.queue.items| + |irqs| <= m.queue.capacity
    ensures Arrive(m, irqs).queue == m.queue.(items := m.queue.items + Records(irqs))
    decreases |irqs|
  {
    if irqs != [] {
      ArrivalsThatFit(Interrupt(m, irqs[0]), irqs[1..]);
      assert m.queue.items + [Captured(irqs[0])] + Records(irqs[1..]) == m.queue.items + Records(irqs);
    } else {
      assert m.queue.items + [] == m.queue.items;
    }
  }

  /** Each window of interrupts is followed by one uninterrupted run. */
  function Windows(m: Fsi, windows: seq<seq<Irq>>): (m': Fsi)
    requires m.queue.Ok() && m.pc.Idle?
    ensures m'.queue.Ok() && m'.pc.Idle? && m'.budget == m.budget
    decreases |windows|
  {
    if windows == [] then m
    else
      var last := |windows| - 1;
      Run(Arrive(Windows(m, windows[..last]), windows[last]), Quiet)
  }

  function Load(windows: seq<seq<Irq>>): nat
    decreases |windows|
  {
    if windows == [] then 0
    else Load(windows[..|windows| - 1]) + |windows[|windows| - 1]|
  }

  /** Any n consecutive windows bring at most sigma + rho * n interrupts. */
  ghost predicate Bursty(windows: seq<seq<Irq>>, sigma: nat, rho: nat) {
    forall i, j :: 0 <= i < j <= |windows| ==>
      Load(windows[..j]) - Load(windows[..i]) <= sigma + rho * (j - i)
  }

  /** Since window `i` every run has used its whole budget, up to the backlog now. */
  ghost predicate BusySince(m: Fsi, windows: seq<seq<Irq>>, i: nat, backlog: nat) {
    && i <= |windows|
    && backlog <= Load(windows) - Load(windows[..i]) - m.budget * (|windows| - i)
  }

  lemma BurstyPrefix(windows: seq<seq<Irq>>, sigma: nat, rho: nat)
    requires |windows| > 0 && Bursty(windows, sigma, rho)
    ensures Bursty(windows[..|windows| - 1], sigma, rho)
  {
    var front := windows[..|windows| - 1];
    forall i, j | 0 <= i < j <= |front|
      ensures Load(front[..j]) - Load(front[..i]) <= sigma + rho * (j - i)
    {
      assert front[..j] == windows[..j] && front[..i] == windows[..i];
    }
  }

  /** Backlog before a run, from what the busy period brought. */
  lemma BacklogBound(m: Fsi, windows: seq<seq<Irq>>, sigma: nat, rho: nat, i: nat, backlog: nat)
    requires |windows| > 0 && Bursty(windows, sigma, rho) && rho <= m.budget
    requires BusySince(m, windows[..|windows| - 1], i, backlog)
    ensures backlog + |windows[|windows| - 1]| <= sigma + rho
  {
    var n := |windows|;
    var front := windows[..n - 1];
    assert front[..i] == windows[..i] && windows[..n] == windows;
    assert Load(windows[..n]) - Load(windows[..i]) <= sigma + rho * (n - i);
    assert rho * (n - i) == rho * (n - 1 - i) + rho;
    ProductOrder(rho, m.budget, n - 1 - i);
  }

  lemma {:induction false} BusyPeriod(m: Fsi, windows: seq<seq<Irq>>, sigma: nat, rho: nat) returns (i: nat)
    requires m.queue.Ok() && m.pc.Idle? && m.queue.items == []
    requires Bursty(windows, sigma, rho) && rho <= m.budget && sigma + rho <= m.queue.capacity
    ensures BusySince(m, windows, i, |Windows(m, windows).queue.items|)
    ensures Windows(m, windows).queue.drops == m.queue.drops
    ensures Windows(m, windows).queue.capacity == m.queue.capacity
    decreases |windows|
  {
    if windows == [] {
      i := 0;
    } else {
      hide Run, Arrive, BusySince, Bursty;
      var n := |windows|;
      var front := windows[..n - 1];
      BurstyPrefix(windows, sigma, rho);
      i := BusyPeriod(m, front, sigma, rho);
      var before := Windows(m, front);
      BacklogBound(m, windows, sigma, rho, i, |before.queue.items|);
      ArrivalsThatFit(before, windows[n - 1]);
      RecordsCount(windows[n - 1]);
      QuietRunDrains(Arrive(before, windows[n - 1]));
      i := BusyAfterRun(m, windows, i, |before.queue.items|, |Windows(m, windows).queue.items|);
    }
  }

  lemma BusyAfterRun(m: Fsi, windows: seq<seq<Irq>>, i: nat, before: nat, after: nat) returns (i': nat)
    requires |windows| > 0
    requires BusySince(m, windows[..|windows| - 1], i, before)
    requires after == Max(0, before + |windows[|windows| - 1]| - m.budget)
    ensures BusySince(m, windows, i', after)
  {
    var n := |windows|;
    assert windows[..n - 1][..i] == windows[..i];
    assert m.budget * (n - i) == m.budget * (n - 1 - i) + m.budget;
    i' := i;
    if after == 0 {
      i' := n;
      assert windows[..n] == windows;
    }
  }

  /**
   * Burst tolerance: from an empty ring, if any n consecutive windows between runs bring at
   * most sigma + rho * n interrupts, rho within the budget of a run and sigma + rho within
   * the capacity, then no record is ever dropped, and the backlog before a run never exceeds
   * sigma + rho.
   */
  lemma {:induction false} BurstsNeverDrop(m: Fsi, windows: seq<seq<Irq>>, sigma: nat, rho: nat)
    requires m.queue.Ok() && m.pc.Idle? && m.queue.items == []
    requires Bursty(windows, sigma, rho) && rho <= m.budget && sigma + rho <= m.queue.capacity
    ensures Windows(m, windows).queue.drops == m.queue.drops
    ensures forall k :: 0 <= k < |windows| ==> BacklogBefore(m, windows, k) <= sigma + rho
    decreases |windows|
  {
    hide Run, Arrive, BusySince, Bursty, Windows;
    var _ := BusyPeriod(m, windows, sigma, rho);
    if |windows| > 0 {
      var last := |windows| - 1;
      var front := windows[..last];
      BurstyPrefix(windows, sigma, rho);
      BurstsNeverDrop(m, front, sigma, rho);
      forall k | 0 <= k < last
        ensures BacklogBefore(m, windows, k) == BacklogBefore(m, front, k)
      {
        assert front[..k] == windows[..k];
      }
      var i := BusyPeriod(m, front, sigma, rho);
      var before := Windows(m, front);
      BacklogBound(m, windows, sigma, rho, i, |before.queue.items|);
      ArrivalsThatFit(before, windows[last]);
      RecordsCount(windows[last]);
    }
  }

  /** Records queued when the k-th run begins. */
  function BacklogBefore(m: Fsi, windows: seq<seq<Irq>>, k: nat): nat
    requires m.queue.Ok() && m.pc.Idle? && k < |windows|
  {
    |Arrive(Windows(m, windows[..k]), windows[k]).queue.items|
  }

  lemma ArriveKeepsInv(m: Fsi, irqs: seq<Irq>)
    requires Inv(m)
    ensures Inv(Arrive(m, irqs))
  {
    hide Inv;
    ArriveIsExec(m, irqs) by {
      QueueOk(m);
    }
    EveryInterleavingConserves(m, Handlers(irqs));
  }

  lemma QueueOk(m: Fsi)
    requires Inv(m)
    ensures m.queue.Ok()
  {
  }

  lemma {:induction false} WindowsKeepInv(m: Fsi, windows: seq<seq<Irq>>)
    requires Inv(m) && m.pc.Idle?
    ensures Inv(Windows(m, windows))
    decreases |windows|
  {
    hide CallsMatch, Subsequence;
    if windows != [] {
      var last := |windows| - 1;
      WindowsKeepInv(m, windows[..last]);
      ArriveKeepsInv(Windows(m, windows[..last]), windows[last]);
      RunKeepsInv(Arrive(Windows(m, windows[..last]), windows[last]), Quiet);
    }
  }

  /** Tolerated bursts lose nothing: every record captured is consumed or still queued, in order. */
  lemma BurstsLoseNothing(capacity: nat, overflow: Overflow, budget: nat, hooks: Hooks,
                          windows: seq<seq<Irq>>, sigma: nat, rho: nat)
    requires capacity > 0 && Bursty(windows, sigma, rho) && rho <= budget && sigma + rho <= capacity
    ensures var m := Windows(Initial(capacity, overflow, budget, hooks), windows);
            m.consumed + m.queue.items == m.captured
  {
    hide Run, Windows, Bursty, Inv;
    var m := Initial(capacity, overflow, budget, hooks);
    InitialInv(capacity, overflow, budget, hooks);
    WindowsKeepInv(m, windows);
    BurstsNeverDrop(m, windows, sigma, rho);
    NothingLost(Windows(m, windows));
  }

  lemma NothingLost(m: Fsi)
    requires Inv(m) && m.pc.Idle? && m.queue.drops == 0
    ensures m.consumed + m.queue.items == m.captured
  {
    hide Subsequence, CallsMatch;
    assert m.consumed + InFlight(m) + m.queue.items == m.consumed + m.queue.items;
    SubsequenceOfSameLength(m.consumed + m.queue.items, m.captured);
  }
}
