/** Cells and sums. */
module Numbers {
  import opened Wrappers

  /** A number that may be missing (NaN). */
  type Cell = Option<real>

  function AbsOf(x: real): (r: real)
    ensures r >= 0.0
  {
    if x < 0.0 then -x else x
  }

  function Sum(s: seq<real>): real {
    if s == [] then 0.0 else Sum(s[..|s| - 1]) + s[|s| - 1]
  }
}
