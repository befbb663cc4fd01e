/** Vectors of numbers, as the scripts use them. */
module Vectors {
  function Repeat(v: int, n: nat): (r: seq<int>)
    ensures |r| == n && forall i | 0 <= i < n :: r[i] == v
  {
    seq(n, _ => v)
  }

  function Sum(v: seq<int>): int {
    if |v| == 0 then 0 else Sum(v[..|v| - 1]) + v[|v| - 1]
  }
}
