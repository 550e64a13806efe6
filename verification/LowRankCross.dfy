/** The low-rank cross network of the MLPerf DLRM: x <- x0 * ((x V) W + b) + x. */
module LowRankCross {
  import opened Vectors

  datatype Layer = Layer(v: Mat, w: Mat, b: Vec)

  predicate LayerFits(l: Layer, dim: nat, rank: nat) {
    Shape(l.v, dim, rank) && Shape(l.w, rank, dim) && |l.b| == dim
  }

  predicate Fits(layers: seq<Layer>, dim: nat, rank: nat) {
    forall l :: 0 <= l < |layers| ==> LayerFits(layers[l], dim, rank)
  }

  /** One layer of the full cross network, with matrix V W. */
  function FullLayer(x0: Vec, x: Vec, l: Layer, rank: nat): (y: Vec)
    requires |x0| == |x| && LayerFits(l, |x0|, rank)
    ensures |y| == |x0|
  {
    Add(Mul(x0, Add(VecMat(x, MatMul(l.v, l.w, |x0|), |x0|), l.b)), x)
  }

  /** The full cross network whose layer matrices are the products V W, after k layers. */
  function FullForm(x0: Vec, layers: seq<Layer>, rank: nat, k: nat): (x: Vec)
    requires Fits(layers, |x0|, rank) && k <= |layers|
    ensures |x| == |x0|
  {
    if k == 0 then x0 else FullLayer(x0, FullForm(x0, layers, rank, k - 1), layers[k - 1], rank)
  }

  /** The layer loop: two narrow dense layers per step. Every row, after every layer, is what the
      full network computes; in particular the result is. */
  method LowRankCrossNetwork(denseInputs: seq<Vec>, layers: seq<Layer>, dim: nat, rank: nat)
    returns (x: seq<Vec>)
    requires Shape(denseInputs, |denseInputs|, dim) && Fits(layers, dim, rank)
    ensures |x| == |denseInputs|
    ensures forall r :: 0 <= r < |x| ==> x[r] == FullForm(denseInputs[r], layers, rank, |layers|)
    ensures forall r, xs :: 0 <= r < |x| && Through(denseInputs[r], layers, rank, xs) ==> x[r] == xs[|layers|]
  {
    x := denseInputs;
    for k := 0 to |layers|
      invariant |x| == |denseInputs|
      invariant forall r :: 0 <= r < |x| ==> x[r] == FullForm(denseInputs[r], layers, rank, k)
    {
      x := LowRankLayer(denseInputs, x, layers[k], dim, rank);
    }
    forall r, xs | 0 <= r < |x| && Through(denseInputs[r], layers, rank, xs) ensures x[r] == xs[|layers|] {
      AdvancingIsState(denseInputs[r], layers, rank, xs, |layers|);
    }
  }

  method LowRankLayer(x0: seq<Vec>, x: seq<Vec>, l: Layer, dim: nat, rank: nat) returns (y: seq<Vec>)
    requires Shape(x0, |x0|, dim) && Shape(x, |x0|, dim)
    requires LayerFits(l, dim, rank)
    ensures |y| == |x|
    ensures forall r :: 0 <= r < |y| ==> y[r] == FullLayer(x0[r], x[r], l, rank)
  {
    var inputV := seq(|x|, r requires 0 <= r < |x| => VecMat(x[r], l.v, rank));
    var inputW := seq(|x|, r requires 0 <= r < |x| => Add(VecMat(inputV[r], l.w, dim), l.b));
    y := seq(|x|, r requires 0 <= r < |x| => Add(Mul(x0[r], inputW[r]), x[r]));
    forall r | 0 <= r < |y| ensures y[r] == FullLayer(x0[r], x[r], l, rank) {
      VecMatAssoc(x[r], l.v, l.w, dim);
    }
  }

  // ---------- entry by entry ----------

  function Entry(m: Mat, r: nat, i: nat): real {
    if r < |m| && i < |m[r]| then m[r][i] else 0.0
  }

  /** v[j][r] w[r][i], for all r */
  function RankTerm(l: Layer, j: nat, i: nat): nat -> real {
    (r: nat) => Times(Entry(l.v, j, r), Entry(l.w, r, i))
  }

  /** x[j] sum_r v[j][r] w[r][i], for all j */
  function InputTerm(x: Vec, l: Layer, rank: nat, i: nat): nat -> real {
    (j: nat) => if j < |x| then Times(x[j], SumOver(rank, RankTerm(l, j, i))) else 0.0
  }

  /** a (s + b) + x */
  function Crossed(a: real, s: real, b: real, x: real): real {
    a * (s + b) + x
  }

  /** x' is x after the layer: x'[i] == x0[i] (sum_j x[j] sum_r v[j][r] w[r][i] + b[i]) + x[i] */
  ghost predicate LayerEntries(x0: Vec, x: Vec, l: Layer, rank: nat, x': Vec)
    requires |x0| == |x| == |l.b|
  {
    |x'| == |x0| && forall i :: 0 <= i < |x0| ==>
      x'[i] == Crossed(x0[i], SumOver(|x|, InputTerm(x, l, rank, i)), l.b[i], x[i])
  }

  /** The states through the layers, entry by entry. */
  ghost predicate Through(x0: Vec, layers: seq<Layer>, rank: nat, xs: seq<Vec>)
    requires Fits(layers, |x0|, rank)
  {
    && |xs| == |layers| + 1 && xs[0] == x0
    && forall k :: 0 <= k < |layers| ==> Advances(x0, layers[k], rank, xs[k], xs[k + 1])
  }

  ghost predicate Advances(x0: Vec, l: Layer, rank: nat, x: Vec, x': Vec) {
    |x0| == |x| == |l.b| && LayerEntries(x0, x, l, rank, x')
  }

  lemma MatrixEntry(l: Layer, dim: nat, rank: nat, j: nat, i: nat)
    requires LayerFits(l, dim, rank) && j < dim && i < dim
    ensures MatMul(l.v, l.w, dim)[j][i] == SumOver(rank, RankTerm(l, j, i))
  {
    SumIsSumOver(Mul(l.v[j], Column(l.w, dim, i)), RankTerm(l, j, i));
  }

  lemma ProductEntry(x: Vec, l: Layer, rank: nat, i: nat)
    requires LayerFits(l, |x|, rank) && i < |x|
    ensures VecMat(x, MatMul(l.v, l.w, |x|), |x|)[i] == SumOver(|x|, InputTerm(x, l, rank, i))
  {
    var m := MatMul(l.v, l.w, |x|);
    var terms := Mul(x, Column(m, |x|, i));
    forall j: nat | j < |x| ensures terms[j] == InputTerm(x, l, rank, i)(j) {
      MatrixEntry(l, |x|, rank, j, i);
    }
    SumIsSumOver(terms, InputTerm(x, l, rank, i));
  }

  lemma CrossEntry(x0: Vec, p: Vec, b: Vec, x: Vec, i: nat)
    requires |x0| == |p| == |b| == |x| && i < |x0|
    ensures Add(Mul(x0, Add(p, b)), x)[i] == Crossed(x0[i], p[i], b[i], x[i])
  {}

  /** Every entry after a layer: the state enters the sum and is added, the network input is the factor. */
  lemma FullLayerEntries(x0: Vec, x: Vec, l: Layer, rank: nat)
    requires |x0| == |x| && LayerFits(l, |x0|, rank)
    ensures LayerEntries(x0, x, l, rank, FullLayer(x0, x, l, rank))
  {
    var p := VecMat(x, MatMul(l.v, l.w, |x0|), |x0|);
    var y := Add(Mul(x0, Add(p, l.b)), x);
    forall i | 0 <= i < |x0| ensures y[i] == Crossed(x0[i], SumOver(|x|, InputTerm(x, l, rank, i)), l.b[i], x[i]) {
      ProductEntry(x, l, rank, i);
      CrossEntry(x0, p, l.b, x, i);
    }
  }

  ghost predicate AreStates(x0: Vec, layers: seq<Layer>, rank: nat, xs: seq<Vec>)
    requires Fits(layers, |x0|, rank)
  {
    |xs| == |layers| + 1 && forall k :: 0 <= k <= |layers| ==> xs[k] == FullForm(x0, layers, rank, k)
  }

  lemma StatesAdvance(x0: Vec, layers: seq<Layer>, rank: nat, xs: seq<Vec>)
    requires Fits(layers, |x0|, rank) && AreStates(x0, layers, rank, xs)
    ensures Through(x0, layers, rank, xs)
  {
    forall k | 0 <= k < |layers| ensures Advances(x0, layers[k], rank, xs[k], xs[k + 1]) {
      FullLayerEntries(x0, xs[k], layers[k], rank);
    }
  }

  lemma AdvanceIsLayer(x0: Vec, l: Layer, rank: nat, x: Vec, x': Vec)
    requires LayerFits(l, |x0|, rank) && Advances(x0, l, rank, x, x')
    ensures x' == FullLayer(x0, x, l, rank)
  {
    FullLayerEntries(x0, x, l, rank);
    SameEntries(x0, x, l, rank, x', FullLayer(x0, x, l, rank));
  }

  lemma AdvancingIsState(x0: Vec, layers: seq<Layer>, rank: nat, xs: seq<Vec>, k: nat)
    requires Fits(layers, |x0|, rank) && Through(x0, layers, rank, xs) && k <= |layers|
    ensures xs[k] == FullForm(x0, layers, rank, k)
  {
    for m := 0 to k
      invariant xs[m] == FullForm(x0, layers, rank, m)
    {
      AdvanceIsLayer(x0, layers[m], rank, xs[m], xs[m + 1]);
    }
  }

  /** The states of the network are the ones that advance by these entries, and no others. */
  lemma StatesIffThrough(x0: Vec, layers: seq<Layer>, rank: nat, xs: seq<Vec>)
    requires Fits(layers, |x0|, rank)
    ensures AreStates(x0, layers, rank, xs) <==> Through(x0, layers, rank, xs)
  {
    if AreStates(x0, layers, rank, xs) {
      StatesAdvance(x0, layers, rank, xs);
    }
    if Through(x0, layers, rank, xs) {
      forall k | 0 <= k <= |layers| ensures xs[k] == FullForm(x0, layers, rank, k) {
        AdvancingIsState(x0, layers, rank, xs, k);
      }
    }
  }

  lemma SameEntries(x0: Vec, x: Vec, l: Layer, rank: nat, y: Vec, z: Vec)
    requires |x0| == |x| == |l.b| && LayerEntries(x0, x, l, rank, y) && LayerEntries(x0, x, l, rank, z)
    ensures y == z
  {}

  // ---------- a law across layers ----------

  predicate ZeroMat(m: Mat) {
    forall r, i :: 0 <= r < |m| && 0 <= i < |m[r]| ==> m[r][i] == 0.0
  }

  function BiasTerm(layers: seq<Layer>, i: nat): nat -> real {
    (l: nat) => if l < |layers| && i < |layers[l].b| then layers[l].b[i] else 0.0
  }

  lemma ZeroInputs(x: Vec, l: Layer, rank: nat, i: nat)
    requires ZeroMat(l.w)
    ensures SumOver(|x|, InputTerm(x, l, rank, i)) == 0.0
  {
    forall j: nat | j < |x| ensures InputTerm(x, l, rank, i)(j) == 0.0 {
      SumOverOneHot(rank, RankTerm(l, j, i), rank);
    }
    SumOverOneHot(|x|, InputTerm(x, l, rank, i), |x|);
  }

  /** As long as the second factors are zero, every layer adds the input times its bias:
      x[i] == x0[i] (1 + b_0[i] + ... + b_{k-1}[i]). */
  lemma {:induction false} ZeroFactorSum(x0: Vec, layers: seq<Layer>, rank: nat, xs: seq<Vec>, k: nat, i: nat)
    requires Fits(layers, |x0|, rank) && Through(x0, layers, rank, xs) && k <= |layers| && i < |x0|
    requires forall l :: 0 <= l < |layers| ==> ZeroMat(layers[l].w)
    ensures i < |xs[k]| && xs[k][i] == Times(x0[i], 1.0 + SumOver(k, BiasTerm(layers, i)))
  {
    if k > 0 {
      ZeroFactorSum(x0, layers, rank, xs, k - 1, i);
      assert Advances(x0, layers[k - 1], rank, xs[k - 1], xs[k]);
      ZeroInputs(xs[k - 1], layers[k - 1], rank, i);
      OneMoreBias(x0[i], layers[k - 1].b[i], SumOver(k - 1, BiasTerm(layers, i)), xs[k - 1][i]);
    }
  }

  lemma OneMoreBias(a: real, b: real, s: real, x: real)
    requires x == Times(a, 1.0 + s)
    ensures Crossed(a, 0.0, b, x) == Times(a, 1.0 + (s + b))
  {}
}
