/**
 * The SM-2 arithmetic that the server and the study screen share. Ease
 * factors are kept in integer hundredths (2.5 is 250), so the update
 * `ef + (0.1 - (5 - q) * (0.08 + (5 - q) * 0.02))` is exact for an integer
 * quality q; times are integer milliseconds.
 */
module Sm2 {

  /** The ease factor a new card starts with, and the one a missing or zero factor is read as (2.5). */
  const DefaultEase: int := 250
  /** The floor below which the ease factor never falls (1.3). */
  const MinEase: int := 130
  /** One day, in milliseconds. */
  const DayMs: int := 86400000

  /** The change to the ease factor, in hundredths, for an answer of quality q. */
  function EaseDelta(quality: int): (delta: int)
    ensures quality == 5 ==> delta == 10
    ensures quality == 4 ==> delta == 0
    ensures quality == 3 ==> delta == -14
    ensures quality == 2 ==> delta == -32
    ensures quality == 1 ==> delta == -54
    ensures quality == 0 ==> delta == -80
  {
    var d := 5 - quality;
    10 - d * (8 + 2 * d)
  }

  /** A better answer never lowers the ease factor more than a worse one. */
  lemma EaseDeltaMonotone(q1: int, q2: int)
    requires q1 <= q2 <= 5
    ensures EaseDelta(q1) <= EaseDelta(q2)
  {
    var d1, d2 := 5 - q1, 5 - q2;
    assert d1 >= d2 >= 0;
    assert EaseDelta(q2) - EaseDelta(q1) == (d1 - d2) * (8 + 2 * (d1 + d2));
    assert (d1 - d2) * (8 + 2 * (d1 + d2)) >= 0 by {
      MulNonNegative(d1 - d2, 8 + 2 * (d1 + d2));
    }
  }

  lemma MulNonNegative(a: int, b: int)
    requires a >= 0 && b >= 0
    ensures a * b >= 0
  {
  }

  /** An answer of quality below 4 never raises the ease factor; 4 keeps it; 5 raises it. */
  lemma EaseDeltaSign(quality: int)
    requires 0 <= quality <= 5
    ensures quality < 4 ==> EaseDelta(quality) < 0
    ensures quality == 4 ==> EaseDelta(quality) == 0
    ensures quality == 5 ==> EaseDelta(quality) > 0
  {
  }

  /** `ef = ef + delta; if (ef < 1.3) ef = 1.3`. */
  function FlooredEase(ease: int, quality: int): (r: int)
    ensures r >= MinEase
    ensures r >= ease + EaseDelta(quality)
    ensures ease + EaseDelta(quality) >= MinEase ==> r == ease + EaseDelta(quality)
    ensures ease + EaseDelta(quality) < MinEase ==> r == MinEase
  {
    var e := ease + EaseDelta(quality);
    if e < MinEase then MinEase else e
  }

  /** `Math.round(x / 100)`: halves round up, towards positive infinity. */
  function RoundHundredths(x: int): (r: int)
    ensures 100 * r - 50 <= x < 100 * r + 50
  {
    (x + 50) / 100
  }

  /** `Math.round(interval * ef)` with the ease factor in hundredths. */
  function ScaleInterval(interval: int, ease: int): (r: int)
    ensures 100 * r - 50 <= interval * ease < 100 * r + 50
  {
    RoundHundredths(interval * ease)
  }

  /** Scaling an interval of at least two days by an ease factor of at least 1.3 lengthens it by at least a day. */
  lemma ScaleIntervalGrows(interval: int, ease: int)
    requires interval >= 2 && ease >= MinEase
    ensures ScaleInterval(interval, ease) >= interval + 1
  {
    assert interval * ease >= interval * MinEase by {
      MulNonNegative(interval, ease - MinEase);
    }
  }

  /** Scaling never shrinks a positive interval while the ease factor is at least 1.3. */
  lemma ScaleIntervalPositive(interval: int, ease: int)
    requires interval >= 1 && ease >= MinEase
    ensures ScaleInterval(interval, ease) >= interval
  {
    assert interval * ease >= interval * MinEase by {
      MulNonNegative(interval, ease - MinEase);
    }
  }
}
