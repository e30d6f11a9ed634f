/** Numeric scores returned by the model collaborator.  A score is a
    floating-point cost that may be not-a-number; finite costs are modelled
    as exact reals. */
module Scores {

  datatype Score = NaN | Num(v: real)

  function Sum(s: seq<real>): real
  {
    if |s| == 0 then 0.0 else Sum(s[..|s| - 1]) + s[|s| - 1]
  }

  /** The arithmetic mean, as `np.mean` computes it on a non-empty list. */
  function Mean(s: seq<real>): real
    requires |s| > 0
  {
    Sum(s) / (|s| as real)
  }
}
