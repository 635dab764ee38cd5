/** Reduction of longitudes modulo a full turn, shared by the aspect scorer
    and the zodiac mapper. */
module Angles {

  /** `y` is a whole number of turns of 360 degrees. */
  ghost predicate WholeTurns(y: real)
  {
    (y / 360.0).Floor as real == y / 360.0
  }

  lemma TurnsOf(y: real, n: int)
    requires y == 360.0 * n as real
    ensures WholeTurns(y)
  {
    assert y / 360.0 == n as real;
  }

  /** Python's float `x % 360`: floored, so the result is never negative. */
  function Mod360(x: real): real
  {
    x - 360.0 * (x / 360.0).Floor as real
  }

  /** `Mod360(x)` is the representative of `x` in [0, 360). */
  lemma Mod360Range(x: real)
    ensures 0.0 <= Mod360(x) < 360.0
    ensures WholeTurns(x - Mod360(x))
  {
    TurnsOf(x - Mod360(x), (x / 360.0).Floor);
  }

  /** Reduction modulo 360 ignores whole turns. */
  lemma {:induction false} Mod360Turns(x: real, k: int)
    ensures Mod360(x + 360.0 * k as real) == Mod360(x)
  {
    var y := x + 360.0 * k as real;
    assert y / 360.0 == x / 360.0 + k as real;
    assert (y / 360.0).Floor == (x / 360.0).Floor + k;
  }
}
