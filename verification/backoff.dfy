/** The client's polling schedule: each wait is the previous one multiplied
    by the backoff factor, capped at the maximum interval. */
module Backoff {
  import opened Reals

  /** The wait that follows a wait of `cur` seconds. */
  function Next(cur: real, factor: real, cap: real): (n: real)
    ensures n <= cap
  {
    Min(cur * factor, cap)
  }

  /** The length of the i-th wait (counting from 0) of a loop that starts at `initial`. */
  function IntervalAt(initial: real, factor: real, cap: real, i: nat): real
  {
    if i == 0 then initial else Next(IntervalAt(initial, factor, cap, i - 1), factor, cap)
  }

  /** The i-th wait the loop would use if there were no cap: `initial * factor^i`. */
  function Uncapped(initial: real, factor: real, i: nat): real
  {
    if i == 0 then initial else Uncapped(initial, factor, i - 1) * factor
  }

  /** Well-formed settings: the factor does not shrink a wait and the first
      wait lies between zero and the cap. The shipped defaults meet it. */
  predicate WellFormed(initial: real, factor: real, cap: real)
  {
    1.0 <= factor && 0.0 <= initial <= cap
  }

  lemma GrowsBy(x: real, factor: real)
    requires 0.0 <= x && 1.0 <= factor
    ensures x <= x * factor
  {
  }

  lemma GrowsStrictly(x: real, factor: real)
    requires 0.0 < x && 1.0 < factor
    ensures x < x * factor
  {
  }

  /** A non-negative wait stays non-negative under non-negative settings. */
  lemma NextNonNegative(cur: real, factor: real, cap: real)
    requires 0.0 <= cur && 0.0 <= factor && 0.0 <= cap
    ensures 0.0 <= Next(cur, factor, cap)
  {
  }

  /** Every wait after the first is at most the cap, whatever the settings. */
  lemma IntervalCapped(initial: real, factor: real, cap: real, i: nat)
    requires 0 < i
    ensures IntervalAt(initial, factor, cap, i) <= cap
  {
  }

  /** Under well-formed settings every wait is non-negative and at most the cap. */
  lemma {:induction false} IntervalInRange(initial: real, factor: real, cap: real, i: nat)
    requires WellFormed(initial, factor, cap)
    ensures 0.0 <= IntervalAt(initial, factor, cap, i) <= cap
  {
    if i > 0 {
      var cur := IntervalAt(initial, factor, cap, i - 1);
      IntervalInRange(initial, factor, cap, i - 1);
      GrowsBy(cur, factor);
    }
  }

  /** Under well-formed settings the waits never shrink. */
  lemma {:induction false} IntervalsNonDecreasing(initial: real, factor: real, cap: real, i: nat)
    requires WellFormed(initial, factor, cap)
    ensures IntervalAt(initial, factor, cap, i) <= IntervalAt(initial, factor, cap, i + 1)
  {
    var cur := IntervalAt(initial, factor, cap, i);
    IntervalInRange(initial, factor, cap, i);
    GrowsBy(cur, factor);
  }

  /** Monotonicity across any distance, not just neighbouring waits. */
  lemma {:induction false} IntervalsMonotone(initial: real, factor: real, cap: real, i: nat, j: nat)
    requires WellFormed(initial, factor, cap)
    requires i <= j
    ensures IntervalAt(initial, factor, cap, i) <= IntervalAt(initial, factor, cap, j)
    decreases j - i
  {
    if i < j {
      IntervalsNonDecreasing(initial, factor, cap, i);
      IntervalsMonotone(initial, factor, cap, i + 1, j);
    }
  }

  /** Capping before or after growing by a factor of at least one gives the
      same wait: `prev` is `g` capped, and `grown` is `g` grown. */
  lemma CapThenGrow(prev: real, g: real, grown: real, next: real, factor: real, cap: real)
    requires 0.0 <= g && 1.0 <= factor && 0.0 <= cap
    requires prev == Min(g, cap) && grown == g * factor && next == Next(prev, factor, cap)
    ensures next == Min(grown, cap)
    ensures 0.0 <= grown
  {
  }

  lemma ClosedFormStep(initial: real, factor: real, cap: real, i: nat)
    requires WellFormed(initial, factor, cap) && 0 < i
    requires IntervalAt(initial, factor, cap, i - 1) == Min(Uncapped(initial, factor, i - 1), cap)
    requires 0.0 <= Uncapped(initial, factor, i - 1)
    ensures IntervalAt(initial, factor, cap, i) == Min(Uncapped(initial, factor, i), cap)
    ensures 0.0 <= Uncapped(initial, factor, i)
  {
    UncappedStep(initial, factor, i);
    IntervalStep(initial, factor, cap, i);
    CapThenGrow(IntervalAt(initial, factor, cap, i - 1), Uncapped(initial, factor, i - 1),
                Uncapped(initial, factor, i), IntervalAt(initial, factor, cap, i), factor, cap);
  }

  lemma UncappedStep(initial: real, factor: real, i: nat)
    requires 0 < i
    ensures Uncapped(initial, factor, i) == Uncapped(initial, factor, i - 1) * factor
  {
  }

  lemma IntervalStep(initial: real, factor: real, cap: real, i: nat)
    requires 0 < i
    ensures IntervalAt(initial, factor, cap, i) == Next(IntervalAt(initial, factor, cap, i - 1), factor, cap)
  {
  }

  /** Closed form of the schedule: capping once at the end of the uncapped
      geometric growth gives the same waits as capping at every step. */
  lemma {:induction false} IntervalClosedForm(initial: real, factor: real, cap: real, i: nat)
    requires WellFormed(initial, factor, cap)
    ensures IntervalAt(initial, factor, cap, i) == Min(Uncapped(initial, factor, i), cap)
    ensures 0.0 <= Uncapped(initial, factor, i)
  {
    if i > 0 {
      IntervalClosedForm(initial, factor, cap, i - 1);
      ClosedFormStep(initial, factor, cap, i);
    }
  }

  lemma NextAbove(cur: real, factor: real, cap: real)
    requires 0.0 < cur < cap && 1.0 < factor
    ensures cur < Next(cur, factor, cap)
  {
    GrowsStrictly(cur, factor);
    var grown := cur * factor;
    assert cur < grown;
    assert Next(cur, factor, cap) == Min(grown, cap);
  }

  lemma NextAtCap(factor: real, cap: real)
    requires 0.0 <= cap && 1.0 <= factor
    ensures Next(cap, factor, cap) == cap
  {
  }

  /** With a factor above one and a positive first wait, a wait grows strictly
      exactly when it is still below the cap. */
  lemma {:induction false} StrictGrowthBelowCap(initial: real, factor: real, cap: real, i: nat)
    requires 1.0 < factor && 0.0 < initial <= cap
    ensures IntervalAt(initial, factor, cap, i) < IntervalAt(initial, factor, cap, i + 1)
            <==> IntervalAt(initial, factor, cap, i) < cap
  {
    var cur := IntervalAt(initial, factor, cap, i);
    PositiveIntervals(initial, factor, cap, i);
    IntervalInRange(initial, factor, cap, i);
    assert IntervalAt(initial, factor, cap, i + 1) == Next(cur, factor, cap);
    if cur < cap {
      NextAbove(cur, factor, cap);
    } else {
      NextAtCap(factor, cap);
    }
  }

  lemma {:induction false} PositiveIntervals(initial: real, factor: real, cap: real, i: nat)
    requires 1.0 <= factor && 0.0 < initial <= cap
    ensures 0.0 < IntervalAt(initial, factor, cap, i)
  {
    if i > 0 {
      var cur := IntervalAt(initial, factor, cap, i - 1);
      PositiveIntervals(initial, factor, cap, i - 1);
      GrowsBy(cur, factor);
    }
  }

  /** Once a wait reaches the cap, every later wait equals the cap. */
  lemma {:induction false} CapAbsorbing(initial: real, factor: real, cap: real, i: nat, j: nat)
    requires 1.0 <= factor && 0.0 <= cap
    requires IntervalAt(initial, factor, cap, i) == cap
    requires i <= j
    ensures IntervalAt(initial, factor, cap, j) == cap
    decreases j - i
  {
    if i < j {
      NextAtCap(factor, cap);
      CapAbsorbing(initial, factor, cap, i + 1, j);
    }
  }
}
