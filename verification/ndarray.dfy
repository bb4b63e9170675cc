/** The numeric arrays the scoring engine passes around.

    A numpy array of shape [rows] + dims is held as its list of rows, each row
    being the Prod(dims) values of that row in row-major order.  Values are
    mathematical reals: float rounding is not modelled. */
module NdArrays {

  datatype NdArray = NdArray(dims: seq<nat>, rows: seq<seq<real>>)

  /** Number of values in one row of shape `dims`. */
  function Prod(dims: seq<nat>): nat
  {
    if dims == [] then 1 else dims[0] * Prod(dims[1..])
  }

  /** Every row holds exactly as many values as its shape says. */
  predicate WellFormed(a: NdArray)
  {
    forall i :: 0 <= i < |a.rows| ==> |a.rows[i]| == Prod(a.dims)
  }

  /** `np.zeros([n] + dims)`. */
  function Zeros(n: nat, dims: seq<nat>): (z: NdArray)
    ensures WellFormed(z) && |z.rows| == n && z.dims == dims
    ensures forall i, k :: 0 <= i < n && 0 <= k < Prod(dims) ==> z.rows[i][k] == 0.0
  {
    NdArray(dims, seq(n, _ => seq(Prod(dims), _ => 0.0)))
  }

  function Min(a: nat, b: nat): nat { if a <= b then a else b }

  lemma MulMono(a: nat, b: nat, r: nat)
    requires a <= b
    ensures a * r <= b * r
  {
  }

  /** Position `p` of a row with stride `r` ends within a row of `n` positions. */
  lemma StrideIndex(p: nat, k: nat, n: nat, r: nat)
    requires p < n && k < r
    ensures p * r + k < n * r
  {
    MulMono(p + 1, n, r);
  }
}
