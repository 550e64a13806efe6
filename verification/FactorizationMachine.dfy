/** The second-order part of DeepFM: half of (square of the sum minus sum of the squares), per dimension. */
module FactorizationMachine {
  import opened Vectors
  import opened DotInteraction

  function SquareEach(v: Vec): (r: Vec)
    ensures |r| == |v|
  {
    Mul(v, v)
  }

  /** `tf.reduce_sum(f, axis=fields)` for one example */
  function ReduceFields(f: Mat, dim: nat): (r: Vec)
    requires Shape(f, |f|, dim)
    ensures |r| == dim
  {
    seq(dim, d requires 0 <= d < dim => Sum(Column(f, dim, d)))
  }

  function SquareAll(f: Mat, dim: nat): (r: Mat)
    requires Shape(f, |f|, dim)
    ensures Shape(r, |f|, dim)
  {
    seq(|f|, i requires 0 <= i < |f| => SquareEach(f[i]))
  }

  function Half(a: real, b: real): real {
    0.5 * (a - b)
  }

  function SecondOrder(f: Mat, dim: nat): (r: Vec)
    requires Shape(f, |f|, dim)
    ensures |r| == dim
  {
    var sumSquare := SquareEach(ReduceFields(f, dim));
    var squareSum := ReduceFields(SquareAll(f, dim), dim);
    seq(dim, d requires 0 <= d < dim => Half(sumSquare[d], squareSum[d]))
  }

  // ---------- per dimension: the sum over all pairs ----------

  /** sum over i of x_i (x_0 + ... + x_{i-1}) */
  function PairSum(x: Vec): real {
    if x == [] then 0.0 else
      var n := |x| - 1;
      PairSum(x[..n]) + Times(x[n], Sum(x[..n]))
  }

  lemma {:induction false} HalfIsPairSum(x: Vec)
    ensures Half(Times(Sum(x), Sum(x)), Sum(SquareEach(x))) == PairSum(x)
  {
    if x != [] {
      var n := |x| - 1;
      HalfIsPairSum(x[..n]);
      DotSnoc(x, x);
      SquareOfSum(Sum(x[..n]), x[n]);
    }
  }

  lemma SquareOfSum(s: real, a: real)
    ensures Times(s + a, s + a) == Times(s, s) + 2.0 * Times(a, s) + Times(a, a)
  {}

  /** The pair sum is the sum of the strict lower triangle of the matrix of all products. */
  lemma {:induction false} PairSumIsTriangle(x: Vec, n: nat)
    requires n <= |x|
    ensures PairSum(x[..n]) == Sum(Triangle(Outer(x, x), n))
  {
    if n > 0 {
      PairSumIsTriangle(x, n - 1);
      PairSumSnoc(x, n - 1);
      OuterRowSum(x, n - 1);
      SumConcat(Triangle(Outer(x, x), n - 1), Outer(x, x)[n - 1][..n - 1]);
    }
  }

  lemma PairSumSnoc(x: Vec, k: nat)
    requires k < |x|
    ensures PairSum(x[..k + 1]) == PairSum(x[..k]) + Times(x[k], Sum(x[..k]))
  {
    assert x[..k + 1][..k] == x[..k];
  }

  lemma OuterRowSum(x: Vec, k: nat)
    requires k < |x|
    ensures Sum(Outer(x, x)[k][..k]) == Times(x[k], Sum(x[..k]))
  {
    assert Outer(x, x)[k][..k] == Scale(x[k], x[..k]);
    SumScale(x[k], x[..k]);
  }

  lemma SquareColumn(f: Mat, dim: nat, d: nat)
    requires Shape(f, |f|, dim) && d < dim
    ensures Column(SquareAll(f, dim), dim, d) == SquareEach(Column(f, dim, d))
  {}

  /** Dimension d of the output sums the products of all pairs of distinct fields in that dimension. */
  lemma SecondOrderIsPairSum(f: Mat, dim: nat, d: nat)
    requires Shape(f, |f|, dim) && d < dim
    ensures var x := Column(f, dim, d);
      SecondOrder(f, dim)[d] == PairSum(x) == Sum(Triangle(Outer(x, x), |f|))
  {
    var x := Column(f, dim, d);
    SquareColumn(f, dim, d);
    HalfIsPairSum(x);
    PairSumIsTriangle(x, |x|);
    assert x[..|x|] == x;
  }

  // ---------- summed over dimensions: the DLRM interaction ----------

  lemma {:induction false} DotSumsColumns(v: Vec, f: Mat, dim: nat)
    requires Shape(f, |f|, dim) && |v| == dim
    ensures Dot(v, ReduceFields(f, dim)) == Sum(MatVec(f, v))
  {
    if f == [] {
      DotSym(v, ReduceFields(f, dim));
      DotZero(ReduceFields(f, dim), v);
    } else {
      var n := |f| - 1;
      DotSumsColumns(v, f[..n], dim);
      ReduceSnoc(f, dim);
      DotSym(v, ReduceFields(f, dim));
      DotAdd(ReduceFields(f[..n], dim), f[n], v);
      DotSym(v, ReduceFields(f[..n], dim));
      assert MatVec(f, v)[..n] == MatVec(f[..n], v);
    }
  }

  lemma ReduceSnoc(f: Mat, dim: nat)
    requires f != [] && Shape(f, |f|, dim)
    ensures var n := |f| - 1; ReduceFields(f, dim) == Add(ReduceFields(f[..n], dim), f[n])
  {
    var n := |f| - 1;
    forall d | 0 <= d < dim ensures ReduceFields(f, dim)[d] == Add(ReduceFields(f[..n], dim), f[n])[d] {
      assert Column(f, dim, d)[..n] == Column(f[..n], dim, d);
    }
  }

  lemma SecondOrderSnoc(f: Mat, dim: nat)
    requires f != [] && Shape(f, |f|, dim)
    ensures var n := |f| - 1;
      SecondOrder(f, dim) == Add(SecondOrder(f[..n], dim), Mul(f[n], ReduceFields(f[..n], dim)))
  {
    var n := |f| - 1;
    forall d | 0 <= d < dim
      ensures SecondOrder(f, dim)[d] == Add(SecondOrder(f[..n], dim), Mul(f[n], ReduceFields(f[..n], dim)))[d]
    {
      SecondOrderAtSnoc(f, dim, d);
    }
  }

  lemma SecondOrderAtSnoc(f: Mat, dim: nat, d: nat)
    requires f != [] && Shape(f, |f|, dim) && d < dim
    ensures var n := |f| - 1;
      SecondOrder(f, dim)[d] == SecondOrder(f[..n], dim)[d] + Times(f[n][d], ReduceFields(f[..n], dim)[d])
  {
    var n := |f| - 1;
    var x := Column(f, dim, d);
    SecondOrderIsPairSum(f, dim, d);
    SecondOrderIsPairSum(f[..n], dim, d);
    assert x[..n] == Column(f[..n], dim, d);
    assert PairSum(x) == PairSum(x[..n]) + Times(x[n], Sum(x[..n]));
  }

  lemma {:induction false} GramPrefix(f: Mat, fields: nat, dim: nat, n: nat)
    requires Shape(f, fields, dim) && n <= fields
    ensures Triangle(Gram(f, fields, dim), n) == Triangle(Gram(f[..n], n, dim), n)
  {
    TrianglePrefix(Gram(f, fields, dim), Gram(f[..n], n, dim), n, n);
  }

  lemma {:induction false} TrianglePrefix(a: Mat, b: Mat, n: nat, k: nat)
    requires k <= n <= |a| && n <= |b|
    requires forall i :: 0 <= i < n ==> |a[i]| >= n && |b[i]| >= n && a[i][..n] == b[i][..n]
    ensures Triangle(a, k) == Triangle(b, k)
  {
    if k > 0 {
      TrianglePrefix(a, b, n, k - 1);
      assert a[k - 1][..k - 1] == a[k - 1][..n][..k - 1] == b[k - 1][..n][..k - 1] == b[k - 1][..k - 1];
    }
  }

  lemma GramRow(f: Mat, dim: nat)
    requires f != [] && Shape(f, |f|, dim)
    ensures var n := |f| - 1; Gram(f, |f|, dim)[n][..n] == MatVec(f[..n], f[n])
  {
    var n := |f| - 1;
    forall j | 0 <= j < n ensures Gram(f, |f|, dim)[n][j] == MatVec(f[..n], f[n])[j] {
      DotSym(f[n], f[j]);
    }
  }

  /** Summed over all dimensions, the output is the total of all pairwise dot products. */
  lemma {:induction false} SecondOrderTotal(f: Mat, dim: nat)
    requires Shape(f, |f|, dim)
    ensures Sum(SecondOrder(f, dim)) == Sum(GramTriangle(f, |f|, dim))
  {
    if f == [] {
      forall d | 0 <= d < dim ensures SecondOrder(f, dim)[d] == 0.0 {
        SecondOrderIsPairSum(f, dim, d);
        assert Column(f, dim, d) == [];
      }
      assert SecondOrder(f, dim) == Zeros(dim);
      SumZeros(dim);
    } else {
      var n := |f| - 1;
      SecondOrderTotal(f[..n], dim);
      SecondOrderSnoc(f, dim);
      SumAdd(SecondOrder(f[..n], dim), Mul(f[n], ReduceFields(f[..n], dim)));
      DotSumsColumns(f[n], f[..n], dim);
      TriangleTotalSnoc(f, dim);
    }
  }

  lemma TriangleTotalSnoc(f: Mat, dim: nat)
    requires f != [] && Shape(f, |f|, dim)
    ensures var n := |f| - 1;
      Sum(GramTriangle(f, |f|, dim)) == Sum(GramTriangle(f[..n], n, dim)) + Sum(MatVec(f[..n], f[n]))
  {
    var n := |f| - 1;
    var g := Gram(f, |f|, dim);
    GramPrefix(f, |f|, dim, n);
    GramRow(f, dim);
    SumConcat(Triangle(g, n), g[n][..n]);
  }

  /** DeepFM's factorisation machine and DLRM's dot interaction measure the same thing: on one stacked tensor
      the former sums over dimensions to the total of the latter's row, for every example. */
  lemma SecondOrderTotalIsDotOpTotal(features: Tensor3, fields: nat, dim: nat, b: nat)
    requires Stacked(features, fields, dim) && b < |features|
    ensures Sum(SecondOrder(features[b], dim)) == Sum(DotOp(features, fields, dim)[b])
  {
    DotOpRows(features, fields, dim);
    SecondOrderTotal(features[b], dim);
  }
}
