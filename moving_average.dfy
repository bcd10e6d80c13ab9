/** The moving-average (Wold) coefficients of a VAR(p) model: the meaning
    of the `irf(periods=steps)` call of the fitted model. With the fitted lag
    matrices A_1 .. A_p,
      Phi(0) = I
      Phi(t) = sum over i = 1 .. min(t, p) of A_i * Phi(t - i).
    Entry (r, c) of Phi(t) is the response of variable r, t steps later, to a
    unit shock in the innovation of variable c (no orthogonalisation). */
module MovingAverage {
  import opened Wrappers
  import opened Matrices

  /** The lag matrices A_1 .. A_p (stored at positions 0 .. p-1) are k by k. */
  predicate Coefficients(a: seq<Matrix>, k: nat)
  {
    forall i :: 0 <= i < |a| ==> IsSquare(a[i], k)
  }

  function Phi(a: seq<Matrix>, k: nat, t: nat): (r: Matrix)
    requires Coefficients(a, k)
    ensures IsSquare(r, k)
    decreases t, |a| + 1
  {
    if t == 0 then Identity(k) else LagSum(a, k, t, Min(t, |a|))
  }

  /** sum over i = 1 .. n of A_i * Phi(t - i), accumulated in order of i. */
  function LagSum(a: seq<Matrix>, k: nat, t: nat, n: nat): (r: Matrix)
    requires Coefficients(a, k)
    requires n <= t && n <= |a|
    ensures IsSquare(r, k)
    decreases t, n
  {
    if n == 0 then Zero(k)
    else Add(LagSum(a, k, t, n - 1), Mul(a[n - 1], Phi(a, k, t - n), k), k)
  }

  /** The impulse-response array of shape (steps + 1, k, k) for steps >= 0. */
  function Table(a: seq<Matrix>, k: nat, steps: nat): (r: seq<Matrix>)
    requires Coefficients(a, k)
    ensures |r| == steps + 1
    ensures forall t :: 0 <= t <= steps ==> r[t] == Phi(a, k, t)
  {
    seq(steps + 1, t requires 0 <= t => Phi(a, k, t))
  }

  /** At impact the response matrix is the identity: a unit shock moves only
      its own variable, by exactly one. */
  lemma PhiAtImpact(a: seq<Matrix>, k: nat)
    requires Coefficients(a, k)
    ensures Phi(a, k, 0) == Identity(k)
    ensures forall r, c :: 0 <= r < k && 0 <= c < k ==> Phi(a, k, 0)[r][c] == if r == c then 1.0 else 0.0
  {
  }

  /** One step after impact the response is the first lag matrix. */
  lemma PhiAtOne(a: seq<Matrix>, k: nat)
    requires Coefficients(a, k) && |a| >= 1
    ensures Phi(a, k, 1) == a[0]
  {
    MulIdentityRight(a[0], k);
    AddZeroLeft(a[0], k);
  }

  /** Two steps after impact: A_1 * A_1 + A_2 when the model has two or more lags. */
  lemma PhiAtTwo(a: seq<Matrix>, k: nat)
    requires Coefficients(a, k) && |a| >= 2
    ensures Phi(a, k, 2) == Add(Mul(a[0], a[0], k), a[1], k)
  {
    PhiAtOne(a, k);
    MulIdentityRight(a[1], k);
    AddZeroLeft(Mul(a[0], Phi(a, k, 1), k), k);
  }

  /** With a single lag the recursion is the matrix power: Phi(t) = A_1^t. */
  lemma {:induction false} PhiSingleLag(a: seq<Matrix>, k: nat, t: nat)
    requires Coefficients(a, k) && |a| == 1
    ensures Phi(a, k, t) == Power(a[0], k, t)
  {
    if t > 0 {
      PhiSingleLag(a, k, t - 1);
      assert Phi(a, k, t) == Add(LagSum(a, k, t, 0), Mul(a[0], Phi(a, k, t - 1), k), k);
      AddZeroLeft(Mul(a[0], Phi(a, k, t - 1), k), k);
    }
  }

  /** A model whose lag matrices are all zero has no propagation: every
      response after impact is zero. */
  lemma {:induction false} PhiZeroLags(a: seq<Matrix>, k: nat, t: nat)
    requires Coefficients(a, k)
    requires forall i :: 0 <= i < |a| ==> a[i] == Zero(k)
    requires t >= 1
    ensures Phi(a, k, t) == Zero(k)
  {
    LagSumZeroLags(a, k, t, Min(t, |a|));
  }

  lemma {:induction false} LagSumZeroLags(a: seq<Matrix>, k: nat, t: nat, n: nat)
    requires Coefficients(a, k)
    requires forall i :: 0 <= i < |a| ==> a[i] == Zero(k)
    requires n <= t && n <= |a|
    ensures LagSum(a, k, t, n) == Zero(k)
  {
    if n > 0 {
      LagSumZeroLags(a, k, t, n - 1);
      MulZeroLeft(Phi(a, k, t - n), k);
      AddZeroLeft(Zero(k), k);
    }
  }

  /** If no lag matrix lets a later-ordered variable feed back into an
      earlier-ordered one (all A_i lower triangular), no response matrix
      does either, at any horizon. */
  lemma {:induction false} PhiLowerTriangular(a: seq<Matrix>, k: nat, t: nat)
    requires Coefficients(a, k)
    requires forall i :: 0 <= i < |a| ==> LowerTriangular(a[i], k)
    ensures LowerTriangular(Phi(a, k, t), k)
    decreases t, |a| + 1
  {
    if t > 0 {
      LagSumLowerTriangular(a, k, t, Min(t, |a|));
    }
  }

  lemma {:induction false} LagSumLowerTriangular(a: seq<Matrix>, k: nat, t: nat, n: nat)
    requires Coefficients(a, k)
    requires forall i :: 0 <= i < |a| ==> LowerTriangular(a[i], k)
    requires n <= t && n <= |a|
    ensures LowerTriangular(LagSum(a, k, t, n), k)
    decreases t, n
  {
    if n > 0 {
      LagSumLowerTriangular(a, k, t, n - 1);
      PhiLowerTriangular(a, k, t - n);
      MulLowerTriangular(a[n - 1], Phi(a, k, t - n), k);
    }
  }
}
