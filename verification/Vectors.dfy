/** Real vectors and matrices: the meaning of the tensor operations the models are built from. */
module Vectors {

  type Vec = seq<real>
  type Mat = seq<Vec>
  type Tensor3 = seq<Mat>

  predicate Shape(m: Mat, rows: nat, cols: nat) {
    |m| == rows && forall i :: 0 <= i < |m| ==> |m[i]| == cols
  }

  predicate Shape3(t: Tensor3, a: nat, b: nat, c: nat) {
    |t| == a && forall i :: 0 <= i < a ==> Shape(t[i], b, c)
  }

  function Sum(v: Vec): real {
    if v == [] then 0.0 else Sum(v[..|v| - 1]) + v[|v| - 1]
  }

  function Times(a: real, b: real): real {
    a * b
  }

  function Zeros(n: nat): Vec {
    seq(n, _ => 0.0)
  }

  function Add(u: Vec, v: Vec): (r: Vec)
    requires |u| == |v|
    ensures |r| == |u| && forall i :: 0 <= i < |r| ==> r[i] == u[i] + v[i]
  {
    seq(|u|, i requires 0 <= i < |u| => u[i] + v[i])
  }

  function Scale(c: real, u: Vec): (r: Vec)
    ensures |r| == |u| && forall i :: 0 <= i < |r| ==> r[i] == Times(c, u[i])
  {
    seq(|u|, i requires 0 <= i < |u| => Times(c, u[i]))
  }

  /** Elementwise product */
  function Mul(u: Vec, v: Vec): (r: Vec)
    requires |u| == |v|
    ensures |r| == |u| && forall i :: 0 <= i < |r| ==> r[i] == Times(u[i], v[i])
  {
    seq(|u|, i requires 0 <= i < |u| => Times(u[i], v[i]))
  }

  function Dot(u: Vec, v: Vec): real
    requires |u| == |v|
  {
    Sum(Mul(u, v))
  }

  /** Matrix times column vector */
  function MatVec(m: Mat, v: Vec): (r: Vec)
    requires Shape(m, |m|, |v|)
    ensures |r| == |m| && forall i :: 0 <= i < |r| ==> r[i] == Dot(m[i], v)
  {
    seq(|m|, i requires 0 <= i < |m| => Dot(m[i], v))
  }

  function Column(m: Mat, cols: nat, j: nat): (r: Vec)
    requires Shape(m, |m|, cols) && j < cols
    ensures |r| == |m| && forall i :: 0 <= i < |m| ==> r[i] == m[i][j]
  {
    seq(|m|, i requires 0 <= i < |m| => m[i][j])
  }

  /** Row vector times matrix: a dense layer without bias */
  function VecMat(v: Vec, m: Mat, cols: nat): (r: Vec)
    requires Shape(m, |v|, cols)
    ensures |r| == cols && forall j :: 0 <= j < cols ==> r[j] == Dot(v, Column(m, cols, j))
  {
    seq(cols, j requires 0 <= j < cols => Dot(v, Column(m, cols, j)))
  }

  function MatMul(a: Mat, b: Mat, cols: nat): (r: Mat)
    requires Shape(b, |b|, cols) && Shape(a, |a|, |b|)
    ensures Shape(r, |a|, cols)
    ensures forall i :: 0 <= i < |a| ==> r[i] == VecMat(a[i], b, cols)
  {
    seq(|a|, i requires 0 <= i < |a| => VecMat(a[i], b, cols))
  }

  /** Outer product u v^T */
  function Outer(u: Vec, v: Vec): (r: Mat)
    ensures Shape(r, |u|, |v|)
    ensures forall i :: 0 <= i < |u| ==> r[i] == Scale(u[i], v)
  {
    seq(|u|, i requires 0 <= i < |u| => Scale(u[i], v))
  }

  // ---------- linearity ----------

  lemma {:induction false} SumAdd(u: Vec, v: Vec)
    requires |u| == |v|
    ensures Sum(Add(u, v)) == Sum(u) + Sum(v)
  {
    if u != [] {
      var n := |u| - 1;
      SumAdd(u[..n], v[..n]);
      assert Add(u, v)[..n] == Add(u[..n], v[..n]);
    }
  }

  lemma {:induction false} SumScale(c: real, u: Vec)
    ensures Sum(Scale(c, u)) == Times(c, Sum(u))
  {
    if u != [] {
      var n := |u| - 1;
      SumScale(c, u[..n]);
      assert Scale(c, u)[..n] == Scale(c, u[..n]);
      assert Times(c, Sum(u[..n]) + u[n]) == Times(c, Sum(u[..n])) + Times(c, u[n]);
    }
  }

  lemma {:induction false} SumZeros(n: nat)
    ensures Sum(Zeros(n)) == 0.0
  {
    if n > 0 {
      SumZeros(n - 1);
      assert Zeros(n)[..n - 1] == Zeros(n - 1);
    }
  }

  lemma {:induction false} SumConcat(u: Vec, v: Vec)
    ensures Sum(u + v) == Sum(u) + Sum(v)
  {
    if v == [] {
      assert u + v == u;
    } else {
      var n := |v| - 1;
      assert (u + v)[..|u + v| - 1] == u + v[..n];
      SumConcat(u, v[..n]);
    }
  }

  lemma DotSym(u: Vec, v: Vec)
    requires |u| == |v|
    ensures Dot(u, v) == Dot(v, u)
  {
    assert Mul(u, v) == Mul(v, u);
  }

  lemma DotAdd(u: Vec, v: Vec, w: Vec)
    requires |u| == |v| == |w|
    ensures Dot(Add(u, v), w) == Dot(u, w) + Dot(v, w)
  {
    forall i | 0 <= i < |u| ensures Mul(Add(u, v), w)[i] == Add(Mul(u, w), Mul(v, w))[i] {
      assert Times(u[i] + v[i], w[i]) == Times(u[i], w[i]) + Times(v[i], w[i]);
    }
    assert Mul(Add(u, v), w) == Add(Mul(u, w), Mul(v, w));
    SumAdd(Mul(u, w), Mul(v, w));
  }

  lemma DotScale(c: real, u: Vec, w: Vec)
    requires |u| == |w|
    ensures Dot(Scale(c, u), w) == Times(c, Dot(u, w))
  {
    forall i | 0 <= i < |u| ensures Mul(Scale(c, u), w)[i] == Scale(c, Mul(u, w))[i] {
      assert Times(Times(c, u[i]), w[i]) == Times(c, Times(u[i], w[i]));
    }
    assert Mul(Scale(c, u), w) == Scale(c, Mul(u, w));
    SumScale(c, Mul(u, w));
  }

  lemma DotZero(u: Vec, w: Vec)
    requires |u| == |w|
    requires forall i :: 0 <= i < |u| ==> u[i] == 0.0
    ensures Dot(u, w) == 0.0
  {
    assert Mul(u, w) == Zeros(|u|);
    SumZeros(|u|);
  }

  lemma DotSnoc(u: Vec, v: Vec)
    requires |u| == |v| > 0
    ensures var n := |u| - 1; Dot(u, v) == Dot(u[..n], v[..n]) + Times(u[n], v[n])
  {
    var n := |u| - 1;
    assert Mul(u, v)[..n] == Mul(u[..n], v[..n]);
  }

  // ---------- associativity ----------

  lemma VecMatSnoc(v: Vec, m: Mat, cols: nat)
    requires v != [] && Shape(m, |v|, cols)
    ensures var n := |v| - 1; VecMat(v, m, cols) == Add(VecMat(v[..n], m[..n], cols), Scale(v[n], m[n]))
  {
    var n := |v| - 1;
    forall j | 0 <= j < cols
      ensures VecMat(v, m, cols)[j] == Add(VecMat(v[..n], m[..n], cols), Scale(v[n], m[n]))[j]
    {
      DotSnoc(v, Column(m, cols, j));
      assert Column(m, cols, j)[..n] == Column(m[..n], cols, j);
    }
  }

  lemma AdjointLeft(v: Vec, m: Mat, c: Vec)
    requires v != [] && Shape(m, |v|, |c|)
    ensures var n := |v| - 1;
      Dot(VecMat(v, m, |c|), c) == Dot(VecMat(v[..n], m[..n], |c|), c) + Times(v[n], Dot(m[n], c))
  {
    var n := |v| - 1;
    VecMatSnoc(v, m, |c|);
    DotAdd(VecMat(v[..n], m[..n], |c|), Scale(v[n], m[n]), c);
    DotScale(v[n], m[n], c);
  }

  lemma AdjointRight(v: Vec, m: Mat, c: Vec)
    requires v != [] && Shape(m, |v|, |c|)
    ensures var n := |v| - 1;
      Dot(v, MatVec(m, c)) == Dot(v[..n], MatVec(m[..n], c)) + Times(v[n], Dot(m[n], c))
  {
    var n := |v| - 1;
    DotSnoc(v, MatVec(m, c));
    assert MatVec(m, c)[..n] == MatVec(m[..n], c);
  }

  lemma AdjointEmpty(m: Mat, c: Vec)
    requires Shape(m, 0, |c|)
    ensures Dot(VecMat([], m, |c|), c) == 0.0
  {
    var left := VecMat([], m, |c|);
    assert forall j :: 0 <= j < |c| ==> left[j] == Dot([], Column(m, |c|, j)) == 0.0;
    DotZero(left, c);
  }

  /** (v M) . c == v . (M c) */
  lemma {:induction false} Adjoint(v: Vec, m: Mat, c: Vec)
    requires Shape(m, |v|, |c|)
    ensures Dot(VecMat(v, m, |c|), c) == Dot(v, MatVec(m, c))
  {
    if v == [] {
      AdjointEmpty(m, c);
    } else {
      var n := |v| - 1;
      AdjointLeft(v, m, c);
      AdjointRight(v, m, c);
      Adjoint(v[..n], m[..n], c);
    }
  }

  /** (v A) B == v (A B) */
  lemma VecMatAssoc(v: Vec, a: Mat, b: Mat, cols: nat)
    requires Shape(b, |b|, cols) && Shape(a, |v|, |b|)
    ensures VecMat(VecMat(v, a, |b|), b, cols) == VecMat(v, MatMul(a, b, cols), cols)
  {
    var ab := MatMul(a, b, cols);
    forall j | 0 <= j < cols
      ensures VecMat(VecMat(v, a, |b|), b, cols)[j] == VecMat(v, ab, cols)[j]
    {
      var c := Column(b, cols, j);
      Adjoint(v, a, c);
      assert MatVec(a, c) == Column(ab, cols, j);
    }
  }

  // ---------- sums over an index ----------

  /** f(0) + ... + f(n - 1) */
  function SumOver(n: nat, f: nat -> real): real {
    if n == 0 then 0.0 else SumOver(n - 1, f) + f(n - 1)
  }

  lemma {:induction false} SumOverSame(n: nat, f: nat -> real, g: nat -> real)
    requires forall i: nat :: i < n ==> f(i) == g(i)
    ensures SumOver(n, f) == SumOver(n, g)
  {
    if n > 0 {
      SumOverSame(n - 1, f, g);
    }
  }

  lemma {:induction false} SumOverSplit(a: nat, b: nat, f: nat -> real, g: nat -> real)
    requires forall k: nat :: k < b ==> g(k) == f(a + k)
    ensures SumOver(a + b, f) == SumOver(a, f) + SumOver(b, g)
  {
    if b > 0 {
      SumOverSplit(a, b - 1, f, g);
      assert SumOver(a + b, f) == SumOver(a + b - 1, f) + f(a + b - 1);
    }
  }

  /** The position of entry (i, j) of a grid that is written row after row. */
  function GridIndex(i: nat, width: nat, j: nat): nat {
    i * width + j
  }

  /** Row by row over a grid of equal rows. */
  lemma {:induction false} SumOverGrid(rows: nat, width: nat, f: nat -> real, row: nat -> nat -> real, r: nat -> real)
    requires forall i: nat, j: nat :: i < rows && j < width ==> row(i)(j) == f(GridIndex(i, width, j))
    requires forall i: nat :: i < rows ==> r(i) == SumOver(width, row(i))
    ensures SumOver(GridIndex(rows, width, 0), f) == SumOver(rows, r)
  {
    if rows > 0 {
      SumOverGrid(rows - 1, width, f, row, r);
      SumOverRow(rows - 1, width, f, row(rows - 1));
    }
  }

  lemma SumOverRow(i: nat, width: nat, f: nat -> real, row: nat -> real)
    requires forall j: nat :: j < width ==> row(j) == f(GridIndex(i, width, j))
    ensures SumOver(GridIndex(i + 1, width, 0), f) == SumOver(GridIndex(i, width, 0), f) + SumOver(width, row)
  {
    var from := GridIndex(i, width, 0);
    assert GridIndex(i + 1, width, 0) == from + width;
    forall j: nat | j < width ensures row(j) == f(from + j) {
      assert GridIndex(i, width, j) == from + j;
    }
    SumOverSplit(from, width, f, row);
  }

  lemma {:induction false} SumOverOneHot(n: nat, f: nat -> real, at: nat)
    requires forall i: nat :: i < n && i != at ==> f(i) == 0.0
    ensures SumOver(n, f) == if at < n then f(at) else 0.0
  {
    if n > 0 {
      SumOverOneHot(n - 1, f, at);
    }
  }

  lemma {:induction false} SumIsSumOver(v: Vec, f: nat -> real)
    requires forall i: nat :: i < |v| ==> f(i) == v[i]
    ensures Sum(v) == SumOver(|v|, f)
  {
    if v != [] {
      SumIsSumOver(v[..|v| - 1], f);
    }
  }
}
