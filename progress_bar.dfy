/**
 * `ProgressBar` (`src/components/ui/ProgressBar.tsx`): the clamped
 * percentage and its rounded label, over the reals.
 */
module ProgressBar {

  function Min(a: real, b: real): real { if a <= b then a else b }
  function Max(a: real, b: real): real { if a >= b then a else b }

  /** `Math.min(Math.max((value / max) * 100, 0), 100)`. */
  function Percentage(value: real, max: real): (p: real)
    requires max > 0.0
    ensures 0.0 <= p <= 100.0
    ensures 0.0 <= value <= max ==> p == value / max * 100.0
    ensures value >= max ==> p == 100.0
    ensures value <= 0.0 ==> p == 0.0
  {
    Min(Max(value / max * 100.0, 0.0), 100.0)
  }

  /** A larger value never shows a smaller percentage. */
  lemma PercentageMonotone(v1: real, v2: real, max: real)
    requires max > 0.0 && v1 <= v2
    ensures Percentage(v1, max) <= Percentage(v2, max)
  {
    assert v1 / max <= v2 / max by {
      assert v2 / max - v1 / max == (v2 - v1) / max;
    }
  }

  /** The default props `value = 0`, `max = 100`. */
  const DefaultValue := 0.0
  const DefaultMax := 100.0

  lemma DefaultsShowZero()
    ensures Percentage(DefaultValue, DefaultMax) == 0.0
  {
  }

  /** `Math.round`: the nearest integer, halves rounded up. */
  function Round(x: real): (n: int)
    ensures n as real - 0.5 <= x < n as real + 0.5
  {
    (x + 0.5).Floor
  }

  /** The `{Math.round(percentage)}%` label. */
  function Label(value: real, max: real): (n: int)
    requires max > 0.0
    ensures 0 <= n <= 100
    ensures n as real - 0.5 <= Percentage(value, max) < n as real + 0.5
  {
    Round(Percentage(value, max))
  }
}
