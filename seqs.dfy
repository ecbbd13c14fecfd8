/** Sequence helpers shared by the analysis and smoothing modules. */
module Seqs {

  /** `vec![0.0; n]`. */
  function Zeros(n: nat): (z: seq<real>)
    ensures |z| == n && forall i :: 0 <= i < n ==> z[i] == 0.0
  {
    seq(n, i => 0.0)
  }
}
