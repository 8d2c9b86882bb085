// The simulated progress bar shown while scripts are generated: the step applied on every tick
// of the timer, and what repeated ticks reach.
module FormProgress {

  /** The next progress value and the message shown with it. */
  datatype ProgressUpdate = ProgressUpdate(progress: int, message: string)

  const Ceiling: int := 99

  /** The `setProgress` updater: fast steps early, slower ones later, and never past 99. */
  function ProgressStep(prev: int): (u: ProgressUpdate)
    ensures prev <= Ceiling ==> u.progress <= Ceiling
    ensures prev < Ceiling ==> u.progress > prev
    ensures prev == Ceiling ==> u.progress == Ceiling
    ensures prev >= 0 ==> u.progress >= 0
    ensures u.progress <= prev + 5
  {
    if prev < 30 then ProgressUpdate(prev + 5, "Analyzing your request...")
    else if prev < 70 then ProgressUpdate(prev + 4, "Crafting script ideas...")
    else if prev < 95 then ProgressUpdate(prev + 2, "Refining and polishing...")
    else ProgressUpdate(if prev + 1 < Ceiling then prev + 1 else Ceiling, "Finalizing scripts...")
  }

  /** The progress after `n` ticks starting from `p`. */
  function Advance(p: int, n: nat): int
    decreases n
  {
    if n == 0 then p else Advance(ProgressStep(p).progress, n - 1)
  }

  /** Ticking never leaves the range 0..99 once inside it. */
  lemma {:induction false} AdvanceInRange(p: int, n: nat)
    requires 0 <= p <= Ceiling
    ensures 0 <= Advance(p, n) <= Ceiling
    decreases n
  {
    if n > 0 {
      AdvanceInRange(ProgressStep(p).progress, n - 1);
    }
  }

  /** From any value in range, 99 is reached within `99 - p` ticks and then kept. */
  lemma {:induction false} AdvanceReachesCeiling(p: int, n: nat)
    requires 0 <= p <= Ceiling
    requires n >= Ceiling - p
    ensures Advance(p, n) == Ceiling
    decreases n
  {
    if n > 0 {
      AdvanceReachesCeiling(ProgressStep(p).progress, n - 1);
    }
  }

  /** More ticks never show less progress. */
  lemma {:induction false} AdvanceMonotone(p: int, m: nat, n: nat)
    requires 0 <= p <= Ceiling
    requires m <= n
    ensures Advance(p, m) <= Advance(p, n)
    decreases m
  {
    if m > 0 {
      AdvanceMonotone(ProgressStep(p).progress, m - 1, n - 1);
    } else {
      AdvanceInRange(p, n);
      AdvanceMonotoneFrom(p, n);
    }
  }

  lemma {:induction false} AdvanceMonotoneFrom(p: int, n: nat)
    requires 0 <= p <= Ceiling
    ensures p <= Advance(p, n)
    decreases n
  {
    if n > 0 {
      AdvanceMonotoneFrom(ProgressStep(p).progress, n - 1);
    }
  }

  /** `m` ticks followed by `n` more are `m + n` ticks. */
  lemma {:induction false} AdvanceSplit(p: int, m: nat, n: nat)
    ensures Advance(p, m + n) == Advance(Advance(p, m), n)
    decreases m
  {
    if m > 0 {
      AdvanceSplit(ProgressStep(p).progress, m - 1, n);
    }
  }

  /** The progress after `k <= 31` ticks from 0, band by band: +5 up to 30, +4 up to 70,
      +2 up to 96, then +1. */
  lemma {:induction false} AdvanceFromZero(k: nat)
    requires k <= 31
    ensures Advance(0, k) ==
      if k <= 6 then 5 * k
      else if k <= 16 then 30 + 4 * (k - 6)
      else if k <= 29 then 70 + 2 * (k - 16)
      else 96 + (k - 29)
    decreases k
  {
    if k > 0 {
      AdvanceFromZero(k - 1);
      AdvanceSplit(0, k - 1, 1);
      assert Advance(Advance(0, k - 1), 1) == ProgressStep(Advance(0, k - 1)).progress;
    }
  }

  /** Starting from 0 the bar stays below 99 for exactly 31 ticks and sits at 99 from the 32nd. */
  lemma TicksToCeiling(k: nat)
    ensures k < 32 ==> Advance(0, k) < Ceiling
    ensures k >= 32 ==> Advance(0, k) == Ceiling
  {
    AdvanceFromZero(31);
    AdvanceSplit(0, 31, 1);
    assert Advance(98, 1) == Ceiling;
    if k < 32 {
      AdvanceMonotone(0, k, 31);
    } else {
      AdvanceSplit(0, 32, k - 32);
      AdvanceReachesCeiling(Ceiling, k - 32);
    }
  }
}
