/**
 * The progress "ticker" of the demo pages: an interval callback that maps
 * the previous progress value `prev` to `prev >= 100 ? 0 : prev + step`
 * (step 2 in the story showcase, 10 in both contact-form pages). The timer
 * itself is not modelled: `Ticks(n, step)` is the value after `n` callbacks.
 */
module Ticker {

  /** The steps the pages use. */
  const StoryStep := 2
  const ContactStep := 10

  predicate PageStep(step: int)
  {
    step == StoryStep || step == ContactStep
  }

  /** The updater passed to `setProgressValue`. */
  function Tick(prev: int, step: int): int
  {
    if prev >= 100 then 0 else prev + step
  }

  /** The value after `n` callbacks, starting from the initial state 0. */
  function Ticks(n: nat, step: int): int
  {
    if n == 0 then 0 else Tick(Ticks(n - 1, step), step)
  }

  /** A value the bar can show: a multiple of `step` between 0 and 100. */
  predicate OnGrid(x: int, step: int)
    requires PageStep(step)
  {
    0 <= x <= 100 && x % step == 0
  }

  /** One callback keeps the value on the grid. */
  lemma TickStaysOnGrid(prev: int, step: int)
    requires PageStep(step) && OnGrid(prev, step)
    ensures OnGrid(Tick(prev, step), step)
  {
  }

  /** From 0, every value the ticker produces is a multiple of `step` in 0..100. */
  lemma {:induction false} TicksStayOnGrid(n: nat, step: int)
    requires PageStep(step)
    ensures OnGrid(Ticks(n, step), step)
  {
    if n > 0 {
      TicksStayOnGrid(n - 1, step);
      TickStaysOnGrid(Ticks(n - 1, step), step);
    }
  }

  /** Until it reaches 100 the ticker climbs by `step` per callback; the next callback wraps to 0. */
  lemma {:induction false} TicksClimbThenWrap(n: nat, step: int)
    requires PageStep(step) && n * step <= 100
    ensures Ticks(n, step) == n * step
    ensures n * step == 100 ==> Ticks(n + 1, step) == 0
  {
    if n > 0 {
      TicksClimbThenWrap(n - 1, step);
    }
  }
}
