/** 32-bit tick arithmetic of the scheduler, and the unbounded time it stands for. */
module Ticks {
  import opened Arithmetic

  const WRAP: int := 0x1_0000_0000
  const HALF: int := 0x8000_0000

  /** A value of the port's `uint32_t` tick counter. */
  type Tick = t: int | 0 <= t < WRAP

  function Wrap(t: int): Tick {
    t % WRAP
  }

  /** Two's complement reading of a tick difference (`(int32_t)`). */
  function AsSigned(t: Tick): int {
    if t < HALF then t else t - WRAP
  }

  predicate TimeReached(now: Tick, target: Tick) {
    AsSigned(Wrap(now - target)) >= 0
  }

  function AdvanceNextRelease(now: Tick, nextRelease: Tick, period: Tick): Tick {
    if period == 0 then
      nextRelease
    else
      var lateness := AsSigned(Wrap(now - nextRelease));
      if lateness < 0 then
        nextRelease
      else
        var releasesToSkip := Wrap(lateness / period + 1);
        Wrap(nextRelease + Wrap(releasesToSkip * period))
  }

  // ------------------------------------------------------------------
  // Wrapping
  // ------------------------------------------------------------------

  lemma WrapOffset(a: int, b: int, k: int)
    requires a == b + k * WRAP
    ensures Wrap(a) == Wrap(b)
  {
  }

  lemma WrapNear(a: int)
    requires -WRAP <= a < 2 * WRAP
    ensures Wrap(a) == if a < 0 then a + WRAP else if a < WRAP then a else a - WRAP
  {
    WrapOffset(a, a + WRAP, -1);
    WrapOffset(a, a - WRAP, 1);
  }

  lemma WrapCongruent(a: int, b: int)
    ensures Wrap(Wrap(a) + b) == Wrap(a + b)
    ensures Wrap(Wrap(a) - Wrap(b)) == Wrap(a - b)
    ensures Wrap(a + Wrap(b)) == Wrap(a + b)
  {
    WrapOffset(a + b, Wrap(a) + b, a / WRAP);
    WrapOffset(a - b, Wrap(a) - Wrap(b), a / WRAP - b / WRAP);
    WrapOffset(a + b, a + Wrap(b), b / WRAP);
  }

  // ------------------------------------------------------------------
  // The half-range comparison is the comparison of unbounded times
  // ------------------------------------------------------------------

  /** `now` and `target` are close enough for the half-range comparison. */
  predicate HalfRange(now: int, target: int) {
    -HALF <= now - target < HALF
  }

  lemma SignedDifference(now: int, target: int)
    requires HalfRange(now, target)
    ensures AsSigned(Wrap(Wrap(now) - Wrap(target))) == now - target
  {
    WrapCongruent(now, target);
    if now < target {
      WrapOffset(now - target, now - target + WRAP, -1);
    }
  }

  lemma ReachedIsOrder(now: int, target: int)
    requires HalfRange(now, target)
    ensures TimeReached(Wrap(now), Wrap(target)) <==> target <= now
  {
    SignedDifference(now, target);
  }

  /** Beyond half the range: a past release is judged reached iff its lateness, modulo 2^32, is below 2^31. */
  lemma LateReleaseSeenIff(now: int, target: int)
    requires target <= now
    ensures TimeReached(Wrap(now), Wrap(target)) <==> Wrap(now - target) < HALF
  {
    WrapCongruent(now, target);
  }

  // ------------------------------------------------------------------
  // The release advance over unbounded time
  // ------------------------------------------------------------------

  /** Number of nominal releases first, first + period, ... that are at or before `now`. */
  function ReleasesBy(now: int, first: int, period: int): (n: nat)
    requires period > 0
  {
    if now < first then 0 else (now - first) / period + 1
  }

  /** The first nominal release strictly after `now`, but never one before `next`. */
  function Advance(now: int, next: int, period: int): int
    requires period > 0
  {
    next + ReleasesBy(now, next, period) * period
  }

  lemma AdvanceIsFirstAfter(now: int, next: int, period: int)
    requires period > 0
    ensures Advance(now, next, period) > now
    ensures next <= now ==> Advance(now, next, period) <= now + period
    ensures next > now ==> Advance(now, next, period) == next
  {
    if next <= now {
      DivStep(now - next, period);
    }
  }

  /** Neither the count of releases to skip nor its product with the period wraps, whatever the period. */
  lemma ProductDoesNotWrap(lateness: int, period: int)
    requires 0 <= lateness < HALF && 0 < period < WRAP
    ensures 0 <= lateness % period < period
    ensures (lateness / period + 1) * period == lateness - lateness % period + period
    ensures 0 < (lateness / period + 1) * period < WRAP
    ensures 0 <= lateness / period <= lateness && lateness / period + 1 < WRAP
  {
    DivStep(lateness, period);
    QuotientSmall(lateness, period);
  }

  /** The advance with its count and product computed on unbounded integers. */
  lemma AdvanceWithoutWrapping(now: Tick, next: Tick, period: Tick)
    requires period > 0 && TimeReached(now, next)
    ensures var late := AsSigned(Wrap(now - next));
            AdvanceNextRelease(now, next, period) == Wrap(next + (late / period + 1) * period)
  {
    var late := AsSigned(Wrap(now - next));
    ProductDoesNotWrap(late, period);
    WrapNear(late / period + 1);
    WrapNear((late / period + 1) * period);
  }

  /** The closed form computed in 32 bits is the unbounded one, for every period. */
  lemma AdvanceWraps(now: int, next: int, period: Tick)
    requires period > 0 && HalfRange(now, next)
    ensures AdvanceNextRelease(Wrap(now), Wrap(next), period) == Wrap(Advance(now, next, period))
  {
    SignedDifference(now, next);
    if next <= now {
      AdvanceWithoutWrapping(Wrap(now), Wrap(next), period);
      var step := ((now - next) / period + 1) * period;
      hide AdvanceNextRelease;
      assert AdvanceNextRelease(Wrap(now), Wrap(next), period) == Wrap(Wrap(next) + step);
      WrapCongruent(next, step);
    }
  }

  /** The tick computed for a reached release: one period after the last nominal release up to `now`. */
  lemma AdvanceForm(now: Tick, next: Tick, period: Tick)
    requires period > 0 && TimeReached(now, next)
    ensures var late := AsSigned(Wrap(now - next));
            AdvanceNextRelease(now, next, period) == Wrap(now + period - late % period)
  {
    var late := AsSigned(Wrap(now - next));
    ProductDoesNotWrap(late, period);
    AdvanceWithoutWrapping(now, next, period);
    hide AdvanceNextRelease;
    var step := (late / period + 1) * period;
    DifferenceWraps(now, next);
    WrapOffset(next + step, now + period - late % period, (next + late - now) / WRAP);
  }

  lemma DifferenceWraps(now: Tick, next: Tick)
    ensures var late := AsSigned(Wrap(now - next));
            next + late - now == (next + late - now) / WRAP * WRAP
  {
  }

  /**
   * The promise "strictly after now" as the scheduler itself would judge it. It is kept
   * exactly when the computed release is at most half the tick range away, which every
   * period up to 2^31 guarantees.
   */
  lemma AdvanceUnreachedIff(now: Tick, next: Tick, period: Tick)
    requires period > 0
    ensures !TimeReached(now, AdvanceNextRelease(now, next, period)) <==>
            !TimeReached(now, next) || period - AsSigned(Wrap(now - next)) % period <= HALF
    ensures period <= HALF ==> !TimeReached(now, AdvanceNextRelease(now, next, period))
  {
    if TimeReached(now, next) {
      AdvanceForm(now, next, period);
      DivStep(AsSigned(Wrap(now - next)), period);
      StartDelayHonouredIff(now, period - AsSigned(Wrap(now - next)) % period);
    }
  }

  /** A period above 2^31 for which the advanced release already counts as reached. */
  lemma AdvanceFailsAboveHalf()
    ensures TimeReached(5, AdvanceNextRelease(5, 5, HALF + 1))
  {
  }

  /** A start delay above 2^31 at which the task already counts as due when it is registered. */
  lemma StartDelayFailsAboveHalf()
    ensures TimeReached(5, Wrap(5 + (HALF + 1)))
  {
  }

  /** A start delay is honoured at registration exactly when it is in 1 .. 2^31. */
  lemma StartDelayHonouredIff(now: Tick, delay: Tick)
    ensures !TimeReached(now, Wrap(now + delay)) <==> 0 < delay <= HALF
  {
    hide Wrap;
    WrapNear(now + delay);
    WrapNear(now - Wrap(now + delay));
  }

  // ------------------------------------------------------------------
  // The closed form replaces the catch-up loop
  // ------------------------------------------------------------------

  lemma CatchUpStep(now: Tick, next: Tick, period: Tick)
    requires 0 < period <= HALF && TimeReached(now, next)
    ensures var late := AsSigned(Wrap(now - next));
            AsSigned(Wrap(now - Wrap(next + period))) == late - period
  {
    WrapNear(now - next);
    WrapNear(next + period);
    WrapNear(now - Wrap(next + period));
  }

  /** The unbounded loop "while reached, add one period" that the closed form avoids. */
  function CatchUp(now: Tick, next: Tick, period: Tick): Tick
    requires 0 < period <= HALF
    decreases if TimeReached(now, next) then AsSigned(Wrap(now - next)) + 1 else 0
  {
    if !TimeReached(now, next) then
      next
    else
      CatchUpStep(now, next, period);
      CatchUp(now, Wrap(next + period), period)
  }

  lemma {:induction false} AdvanceIsCatchUp(now: Tick, next: Tick, period: Tick)
    requires 0 < period <= HALF
    ensures AdvanceNextRelease(now, next, period) == CatchUp(now, next, period)
    decreases if TimeReached(now, next) then AsSigned(Wrap(now - next)) + 1 else 0
  {
    if TimeReached(now, next) {
      var late := AsSigned(Wrap(now - next));
      var after := Wrap(next + period);
      CatchUpStep(now, next, period);
      AdvanceIsCatchUp(now, after, period);
      AdvanceForm(now, next, period);
      if late < period {
        QuotientSmall(late, period);
        DifferenceWraps(now, next);
        WrapOffset(next + period, now + period - late, (next + late - now) / WRAP);
      } else {
        RemainderStep(late, period);
        AdvanceForm(now, after, period);
      }
    }
  }

  /**
   * What the closed form promises for every period up to 2^31: the result lies 1 .. period
   * ticks after `now`, a whole number of periods after the previous release.
   */
  lemma AdvanceMeansNextRelease(now: Tick, next: Tick, period: Tick)
    requires 0 < period <= HALF && TimeReached(now, next)
    ensures var late := AsSigned(Wrap(now - next));
            var ahead := Wrap(AdvanceNextRelease(now, next, period) - now);
            1 <= ahead <= period && late + ahead == ReleasesBy(late, 0, period) * period
  {
    var late := AsSigned(Wrap(now - next));
    AdvanceForm(now, next, period);
    ProductDoesNotWrap(late, period);
    hide AdvanceNextRelease, Wrap;
    var ahead := period - late % period;
    WrapNear(now + ahead);
    WrapNear(AdvanceNextRelease(now, next, period) - now);
  }
}
