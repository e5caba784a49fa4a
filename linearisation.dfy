/** The linearisation devices of the two programmes, on their own.

    The source writes three constraint shapes with fractional coefficients
    (timetabler/helpers.py:75-78, 139-142, 200-203). Every quantity involved is an integer
    (a sum of 0-1 variables), so each shape is restated here with the coefficients multiplied
    out, and the `...Scaling` lemmas show that the restatement is exact. */
module Linearisation {

  /** A binary `w` squeezed between `c / scale` and `c` (scale 10 for tutor days at
      helpers.py:75-78, scale 100 for tutor rooms at helpers.py:200-203). */
  predicate UsageIndicator(w: int, c: int, scale: int) {
    0 <= w <= 1 && c <= scale * w && w <= c
  }

  /** `w >= 0.1 * c` is `10 * w >= c`. */
  lemma DayScaling(w: int, c: int)
    ensures (w as real >= 0.1 * c as real) <==> 10 * w >= c
  {
  }

  /** `w >= 0.01 * c` is `100 * w >= c`. */
  lemma RoomScaling(w: int, c: int)
    ensures (w as real >= 0.01 * c as real) <==> 100 * w >= c
  {
  }

  /** For a non-negative count `c`, the indicator is satisfiable exactly when `c <= scale`,
      and then it is forced to 1 iff `c >= 1`. */
  lemma UsageIndicatorMeaning(w: int, c: int, scale: int)
    requires c >= 0 && scale >= 1
    ensures UsageIndicator(w, c, scale) <==> c <= scale && w == (if c >= 1 then 1 else 0)
  {
    if w == 1 {
      assert scale * w == scale;
    } else if w == 0 {
      assert scale * w == 0;
    }
  }

  /** The student-clash indicator: binary `s` with `s <= n/2` and `s >= 0.3 (0.5 n - 0.5)`,
      multiplied out (helpers.py:139-142). */
  predicate ClashIndicator(s: int, n: int) {
    0 <= s <= 1 && 2 * s <= n && 20 * s >= 3 * n - 3
  }

  /** The two clash bounds with the source's rational coefficients are the integer ones. */
  lemma ClashScaling(s: int, n: int)
    ensures (s as real <= n as real / 2.0) <==> 2 * s <= n
    ensures (s as real >= 0.3 * (0.5 * n as real - 0.5)) <==> 20 * s >= 3 * n - 3
  {
  }

  /** For a non-negative number `n` of sessions, the clash indicator is 0 when `n <= 1`,
      1 when `2 <= n <= 7`, and unsatisfiable when `n >= 8`. */
  lemma ClashIndicatorMeaning(s: int, n: int)
    requires n >= 0
    ensures ClashIndicator(s, n) <==> n <= 7 && s == (if n >= 2 then 1 else 0)
  {
  }

  /** The positive-part pair `y >= x`, `y >= 0` (helpers.py:128-129, 239-240). */
  predicate PositivePart(y: int, x: int) {
    y >= x && y >= 0
  }

  function Max0(x: int): int {
    if x >= 0 then x else 0
  }

  /** `max(x, 0)` satisfies the pair and lies below every other value that does,
      so a minimiser that carries `y` with a positive weight picks `max(x, 0)`. */
  lemma PositivePartLeast(y: int, x: int)
    ensures PositivePart(Max0(x), x)
    ensures PositivePart(y, x) ==> y >= Max0(x)
  {
  }
}
