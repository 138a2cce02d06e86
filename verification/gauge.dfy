/**
 * The fill bar drawn under the length read-out: the filament weight mapped
 * onto `barW` pixels against a capacity of `maxWeight` grams, rounded, and
 * clamped into [0, barW].
 */
module Gauge {

  /** `barW`, the bar's width in pixels. */
  const BAR_W: int := 124
  /** `maxWeight`, the filament weight of a full bar, in grams. */
  const MAX_WEIGHT: int := 1000

  /** C's conversion of a floating-point value to `int`: truncation toward zero. */
  function Truncate(x: real): (n: int)
    ensures 0.0 <= x ==> n as real <= x < n as real + 1.0
    ensures x < 0.0 ==> n as real - 1.0 < x <= n as real
  {
    if 0.0 <= x then x.Floor else -((-x).Floor)
  }

  /** The clamp of the bar length into [0, barW]. */
  function Clamp(n: int): (r: int)
    ensures 0 <= r <= BAR_W
    ensures n < 0 ==> r == 0
    ensures BAR_W < n ==> r == BAR_W
    ensures 0 <= n <= BAR_W ==> r == n
  {
    if n < 0 then 0 else if n > BAR_W then BAR_W else n
  }

  /** `barLength` for `filamentGrams` grams of filament on the reel. */
  function BarLength(filamentGrams: real): (r: int)
    ensures 0 <= r <= BAR_W
  {
    Clamp(Truncate((BAR_W as real * filamentGrams + (MAX_WEIGHT / 2) as real) / MAX_WEIGHT as real))
  }

  /** No filament, or a reading below the reel's own weight, shows an empty bar. */
  lemma EmptyBar(filamentGrams: real)
    requires filamentGrams <= 0.0
    ensures BarLength(filamentGrams) == 0
  {
  }

  /** At or above capacity the bar is full: silent saturation. */
  lemma FullBar(filamentGrams: real)
    requires MAX_WEIGHT as real <= filamentGrams
    ensures BarLength(filamentGrams) == BAR_W
  {
  }

  /** Within capacity the bar rounds the exact fill to the nearest pixel. */
  lemma BarRoundsToNearest(filamentGrams: real)
    requires 0.0 <= filamentGrams <= MAX_WEIGHT as real
    ensures var exact := BAR_W as real * filamentGrams / MAX_WEIGHT as real;
      BarLength(filamentGrams) as real - 0.5 <= exact < BarLength(filamentGrams) as real + 0.5
  {
  }

  /** More filament never shortens the bar. */
  lemma BarMonotonic(lighter: real, heavier: real)
    requires lighter <= heavier
    ensures BarLength(lighter) <= BarLength(heavier)
  {
    var x := (BAR_W as real * lighter + (MAX_WEIGHT / 2) as real) / MAX_WEIGHT as real;
    var y := (BAR_W as real * heavier + (MAX_WEIGHT / 2) as real) / MAX_WEIGHT as real;
    assert x <= y;
    assert Truncate(x) <= Truncate(y);
  }
}
