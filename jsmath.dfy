/** The two `Math` functions the effects use, on reals (no NaN here). */
module JsMath {

  /** `Math.min(a, b)`. */
  function Min(a: real, b: real): real { if a < b then a else b }

  /** `Math.max(a, b)`. */
  function Max(a: real, b: real): real { if a > b then a else b }
}
