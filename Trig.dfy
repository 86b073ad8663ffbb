/**
 * `Math.PI` and `Math.sin`. The sine is not defined here: every operation that
 * uses it takes it as a parameter, and the facts about it that the proofs rely
 * on are stated once, as `SineLaws`, and required by the lemmas that need them.
 */
module Trig {

  /** `Math.PI`, the double nearest to pi, read as a real. */
  const Pi: real := 3.141592653589793

  /**
   * The properties of sine the scene's proofs use. `Pi` lies just below pi,
   * so the sine there is a tiny positive number, not 0; no law claims it.
   */
  ghost predicate SineLaws(sin: real -> real)
  {
    && (forall x :: -1.0 <= sin(x) <= 1.0)
    && sin(0.0) == 0.0
    && (forall x :: 0.0 <= x <= Pi ==> sin(x) >= 0.0)
  }
}
