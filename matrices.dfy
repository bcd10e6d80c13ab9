/** Square real matrices as sequences of rows: the numpy arrays that the
    moving-average recursion of a VAR model multiplies and adds. */
module Matrices {

  type Matrix = seq<seq<real>>

  /** m has k rows of k entries each. */
  predicate IsSquare(m: Matrix, k: nat)
  {
    |m| == k && forall i :: 0 <= i < k ==> |m[i]| == k
  }

  function Identity(k: nat): (r: Matrix)
    ensures IsSquare(r, k)
    ensures forall i, j :: 0 <= i < k && 0 <= j < k ==> r[i][j] == if i == j then 1.0 else 0.0
  {
    seq(k, i => seq(k, j => if i == j then 1.0 else 0.0))
  }

  function Zero(k: nat): (r: Matrix)
    ensures IsSquare(r, k)
    ensures forall i, j :: 0 <= i < k && 0 <= j < k ==> r[i][j] == 0.0
  {
    seq(k, i => seq(k, j => 0.0))
  }

  function Add(a: Matrix, b: Matrix, k: nat): (r: Matrix)
    requires IsSquare(a, k) && IsSquare(b, k)
    ensures IsSquare(r, k)
    ensures forall i, j :: 0 <= i < k && 0 <= j < k ==> r[i][j] == a[i][j] + b[i][j]
  {
    seq(k, i requires 0 <= i < k => seq(k, j requires 0 <= j < k => a[i][j] + b[i][j]))
  }

  /** The first n terms of the inner product of row i of a with column j of b. */
  function Dot(a: Matrix, b: Matrix, k: nat, i: nat, j: nat, n: nat): real
    requires IsSquare(a, k) && IsSquare(b, k)
    requires i < k && j < k && n <= k
  {
    if n == 0 then 0.0 else Dot(a, b, k, i, j, n - 1) + a[i][n - 1] * b[n - 1][j]
  }

  function Mul(a: Matrix, b: Matrix, k: nat): (r: Matrix)
    requires IsSquare(a, k) && IsSquare(b, k)
    ensures IsSquare(r, k)
    ensures forall i, j :: 0 <= i < k && 0 <= j < k ==> r[i][j] == Dot(a, b, k, i, j, k)
  {
    seq(k, i requires 0 <= i < k => seq(k, j requires 0 <= j < k => Dot(a, b, k, i, j, k)))
  }

  /** m to the power t, by repeated multiplication on the left. */
  function Power(m: Matrix, k: nat, t: nat): (r: Matrix)
    requires IsSquare(m, k)
    ensures IsSquare(r, k)
  {
    if t == 0 then Identity(k) else Mul(m, Power(m, k, t - 1), k)
  }

  /** Every entry above the diagonal is zero. */
  predicate LowerTriangular(m: Matrix, k: nat)
    requires IsSquare(m, k)
  {
    forall i, j :: 0 <= i < j < k ==> m[i][j] == 0.0
  }

  /** Two k-by-k matrices with the same entries are the same matrix. */
  lemma Extensional(a: Matrix, b: Matrix, k: nat)
    requires IsSquare(a, k) && IsSquare(b, k)
    requires forall i, j :: 0 <= i < k && 0 <= j < k ==> a[i][j] == b[i][j]
    ensures a == b
  {
    forall i | 0 <= i < k
      ensures a[i] == b[i]
    {
    }
  }

  lemma {:induction false} DotIdentityRight(a: Matrix, k: nat, i: nat, j: nat, n: nat)
    requires IsSquare(a, k) && i < k && j < k && n <= k
    ensures Dot(a, Identity(k), k, i, j, n) == if j < n then a[i][j] else 0.0
  {
    if n > 0 {
      DotIdentityRight(a, k, i, j, n - 1);
    }
  }

  lemma MulIdentityRight(a: Matrix, k: nat)
    requires IsSquare(a, k)
    ensures Mul(a, Identity(k), k) == a
  {
    forall i, j | 0 <= i < k && 0 <= j < k
      ensures Mul(a, Identity(k), k)[i][j] == a[i][j]
    {
      DotIdentityRight(a, k, i, j, k);
    }
    Extensional(Mul(a, Identity(k), k), a, k);
  }

  lemma {:induction false} DotZeroLeft(b: Matrix, k: nat, i: nat, j: nat, n: nat)
    requires IsSquare(b, k) && i < k && j < k && n <= k
    ensures Dot(Zero(k), b, k, i, j, n) == 0.0
  {
    if n > 0 {
      DotZeroLeft(b, k, i, j, n - 1);
    }
  }

  lemma MulZeroLeft(b: Matrix, k: nat)
    requires IsSquare(b, k)
    ensures Mul(Zero(k), b, k) == Zero(k)
  {
    forall i, j | 0 <= i < k && 0 <= j < k
      ensures Mul(Zero(k), b, k)[i][j] == 0.0
    {
      DotZeroLeft(b, k, i, j, k);
    }
    Extensional(Mul(Zero(k), b, k), Zero(k), k);
  }

  lemma AddZeroLeft(a: Matrix, k: nat)
    requires IsSquare(a, k)
    ensures Add(Zero(k), a, k) == a
  {
    Extensional(Add(Zero(k), a, k), a, k);
  }

  lemma AddZeroRight(a: Matrix, k: nat)
    requires IsSquare(a, k)
    ensures Add(a, Zero(k), k) == a
  {
    Extensional(Add(a, Zero(k), k), a, k);
  }

  lemma {:induction false} DotLowerTriangular(a: Matrix, b: Matrix, k: nat, i: nat, j: nat, n: nat)
    requires IsSquare(a, k) && IsSquare(b, k) && LowerTriangular(a, k) && LowerTriangular(b, k)
    requires i < j < k && n <= k
    ensures Dot(a, b, k, i, j, n) == 0.0
  {
    if n > 0 {
      DotLowerTriangular(a, b, k, i, j, n - 1);
      var l := n - 1;
      if l > i {
        assert a[i][l] == 0.0;
      } else {
        assert b[l][j] == 0.0;
      }
    }
  }

  /** Lower-triangular matrices are closed under multiplication. */
  lemma MulLowerTriangular(a: Matrix, b: Matrix, k: nat)
    requires IsSquare(a, k) && IsSquare(b, k) && LowerTriangular(a, k) && LowerTriangular(b, k)
    ensures LowerTriangular(Mul(a, b, k), k)
  {
    forall i, j | 0 <= i < j < k
      ensures Mul(a, b, k)[i][j] == 0.0
    {
      DotLowerTriangular(a, b, k, i, j, k);
    }
  }
}
