/** The cross network of DCN: x <- x0 (x . w) + b + x, layer after layer. */
module CrossNet {
  import opened Vectors

  datatype Layer = Layer(w: Vec, b: Vec)

  predicate Fits(layers: seq<Layer>, dim: nat) {
    forall l :: 0 <= l < |layers| ==> |layers[l].w| == dim && |layers[l].b| == dim
  }

  function OuterLayer(x0: Vec, x: Vec, l: Layer): (y: Vec)
    requires |x0| == |x| == |l.w| == |l.b|
    ensures |y| == |x0|
  {
    Add(Add(MatVec(Outer(x0, x), l.w), l.b), x)
  }

  /** The definition, after the first k layers: each multiplies the explicit matrix x0 x^T with its weights. */
  function OuterForm(x0: Vec, layers: seq<Layer>, k: nat): (x: Vec)
    requires Fits(layers, |x0|) && k <= |layers|
    ensures |x| == |x0|
  {
    if k == 0 then x0 else OuterLayer(x0, OuterForm(x0, layers, k - 1), layers[k - 1])
  }

  lemma OuterTimesVector(x0: Vec, x: Vec, w: Vec)
    requires |x| == |w|
    ensures MatVec(Outer(x0, x), w) == Scale(Dot(x, w), x0)
  {
    forall i | 0 <= i < |x0| ensures MatVec(Outer(x0, x), w)[i] == Scale(Dot(x, w), x0)[i] {
      DotScale(x0[i], x, w);
    }
  }

  /** The layer loop over a batch of rows. It never builds the matrix, yet gives the outer-product form. */
  method CrossNetwork(crossInput: seq<Vec>, layers: seq<Layer>, dim: nat) returns (x: seq<Vec>)
    requires Shape(crossInput, |crossInput|, dim) && Fits(layers, dim)
    ensures |x| == |crossInput|
    ensures forall r :: 0 <= r < |x| ==> x[r] == OuterForm(crossInput[r], layers, |layers|)
  {
    x := crossInput;
    for k := 0 to |layers|
      invariant |x| == |crossInput|
      invariant forall r :: 0 <= r < |x| ==> x[r] == OuterForm(crossInput[r], layers, k)
    {
      x := CrossLayer(crossInput, x, layers[k], dim);
    }
  }

  method CrossLayer(x0: seq<Vec>, x: seq<Vec>, l: Layer, dim: nat) returns (y: seq<Vec>)
    requires Shape(x0, |x0|, dim) && Shape(x, |x0|, dim) && |l.w| == |l.b| == dim
    ensures |y| == |x|
    ensures forall r :: 0 <= r < |y| ==> y[r] == OuterLayer(x0[r], x[r], l)
  {
    var xw := seq(|x|, r requires 0 <= r < |x| => Sum(Mul(x[r], l.w)));
    y := seq(|x|, r requires 0 <= r < |x| => Add(Add(Scale(xw[r], x0[r]), l.b), x[r]));
    forall r | 0 <= r < |y| ensures y[r] == OuterLayer(x0[r], x[r], l) {
      OuterTimesVector(x0[r], x[r], l.w);
    }
  }

  // ---------- closed form ----------

  function BiasSum(layers: seq<Layer>, dim: nat, k: nat): (b: Vec)
    requires Fits(layers, dim) && k <= |layers|
    ensures |b| == dim
  {
    if k == 0 then Zeros(dim) else Add(BiasSum(layers, dim, k - 1), layers[k - 1].b)
  }

  function NextAlpha(a: real, x0: Vec, bias: Vec, w: Vec): real
    requires |x0| == |bias| == |w|
  {
    Times(a, 1.0 + Dot(x0, w)) + Dot(bias, w)
  }

  /** The coefficient of x0 after k layers: a scalar recurrence that no longer mentions the state. */
  function Alpha(x0: Vec, layers: seq<Layer>, k: nat): real
    requires Fits(layers, |x0|) && k <= |layers|
  {
    if k == 0 then 1.0
    else NextAlpha(Alpha(x0, layers, k - 1), x0, BiasSum(layers, |x0|, k - 1), layers[k - 1].w)
  }

  /** A point on the line through the bias in direction x0. */
  function OnLine(a: real, x0: Vec, bias: Vec): (x: Vec)
    requires |x0| == |bias|
    ensures |x| == |x0|
  {
    Add(Scale(a, x0), bias)
  }

  ghost predicate LiesOnLine(x0: Vec, layers: seq<Layer>, k: nat)
    requires Fits(layers, |x0|) && k <= |layers|
  {
    OuterForm(x0, layers, k) == OnLine(Alpha(x0, layers, k), x0, BiasSum(layers, |x0|, k))
  }

  lemma LineStart(x0: Vec, layers: seq<Layer>)
    requires Fits(layers, |x0|)
    ensures LiesOnLine(x0, layers, 0)
  {
    StartOnLine(x0);
  }

  lemma LineStep(x0: Vec, layers: seq<Layer>, k: nat)
    requires Fits(layers, |x0|) && k < |layers| && LiesOnLine(x0, layers, k)
    ensures LiesOnLine(x0, layers, k + 1)
  {
    LayerOnLine(x0, OuterForm(x0, layers, k), layers[k], Alpha(x0, layers, k), BiasSum(layers, |x0|, k));
  }

  /** Every layer's output lies on one line: alpha x0 plus the sum of the biases so far. */
  lemma ClosedForm(x0: Vec, layers: seq<Layer>, k: nat)
    requires Fits(layers, |x0|) && k <= |layers|
    ensures OuterForm(x0, layers, k) == OnLine(Alpha(x0, layers, k), x0, BiasSum(layers, |x0|, k))
  {
    LineStart(x0, layers);
    for j := 0 to k
      invariant LiesOnLine(x0, layers, j)
    {
      LineStep(x0, layers, j);
    }
  }

  lemma StartOnLine(x0: Vec)
    ensures OnLine(1.0, x0, Zeros(|x0|)) == x0
  {
    forall i | 0 <= i < |x0| ensures x0[i] == OnLine(1.0, x0, Zeros(|x0|))[i] {
      assert Times(1.0, x0[i]) == x0[i];
    }
  }

  /** One layer moves along the line. */
  lemma LayerOnLine(x0: Vec, x: Vec, l: Layer, a: real, bias: Vec)
    requires |x0| == |x| == |bias| == |l.w| == |l.b|
    requires x == OnLine(a, x0, bias)
    ensures OuterLayer(x0, x, l) == OnLine(NextAlpha(a, x0, bias, l.w), x0, Add(bias, l.b))
  {
    var s := Dot(x, l.w);
    calc {
      OuterLayer(x0, x, l);
      { LayerIsScaledInput(x0, x, l); }
      Add(Add(Scale(s, x0), l.b), x);
      { AddOnLine(x0, s, a, bias, l.b); }
      OnLine(s + a, x0, Add(bias, l.b));
      { NextAlphaIsSum(a, x0, bias, l.w); }
      OnLine(NextAlpha(a, x0, bias, l.w), x0, Add(bias, l.b));
    }
  }

  lemma LayerIsScaledInput(x0: Vec, x: Vec, l: Layer)
    requires |x0| == |x| == |l.w| == |l.b|
    ensures OuterLayer(x0, x, l) == Add(Add(Scale(Dot(x, l.w), x0), l.b), x)
  {
    OuterTimesVector(x0, x, l.w);
  }

  lemma NextAlphaIsSum(a: real, x0: Vec, bias: Vec, w: Vec)
    requires |x0| == |bias| == |w|
    ensures NextAlpha(a, x0, bias, w) == Dot(OnLine(a, x0, bias), w) + a
  {
    DotAdd(Scale(a, x0), bias, w);
    DotScale(a, x0, w);
    TimesOnePlus(a, Dot(x0, w));
  }

  lemma TimesOnePlus(a: real, d: real)
    ensures Times(a, 1.0 + d) == a + Times(a, d)
  {}

  lemma AddOnLine(x0: Vec, s: real, a: real, bias: Vec, b: Vec)
    requires |x0| == |bias| == |b|
    ensures Add(Add(Scale(s, x0), b), OnLine(a, x0, bias)) == OnLine(s + a, x0, Add(bias, b))
  {
    forall i | 0 <= i < |x0|
      ensures Add(Add(Scale(s, x0), b), OnLine(a, x0, bias))[i] == OnLine(s + a, x0, Add(bias, b))[i]
    {
      assert Times(s + a, x0[i]) == Times(s, x0[i]) + Times(a, x0[i]);
    }
  }

  /** prod_{l < k} (1 + x0 . w_l) */
  function GainProduct(x0: Vec, layers: seq<Layer>, k: nat): real
    requires Fits(layers, |x0|) && k <= |layers|
  {
    if k == 0 then 1.0 else Times(GainProduct(x0, layers, k - 1), 1.0 + Dot(x0, layers[k - 1].w))
  }

  predicate NoBias(layers: seq<Layer>) {
    forall l, i :: 0 <= l < |layers| && 0 <= i < |layers[l].b| ==> layers[l].b[i] == 0.0
  }

  lemma {:induction false} ZeroBiasSum(layers: seq<Layer>, dim: nat, k: nat)
    requires Fits(layers, dim) && NoBias(layers) && k <= |layers|
    ensures BiasSum(layers, dim, k) == Zeros(dim)
  {
    if k > 0 {
      ZeroBiasSum(layers, dim, k - 1);
    }
  }

  lemma {:induction false} ZeroBiasAlpha(x0: Vec, layers: seq<Layer>, k: nat)
    requires Fits(layers, |x0|) && NoBias(layers) && k <= |layers|
    ensures Alpha(x0, layers, k) == GainProduct(x0, layers, k)
  {
    if k > 0 {
      ZeroBiasAlpha(x0, layers, k - 1);
      ZeroBiasSum(layers, |x0|, k - 1);
      DotZero(BiasSum(layers, |x0|, k - 1), layers[k - 1].w);
    }
  }

  lemma LineThroughOrigin(a: real, x0: Vec)
    ensures OnLine(a, x0, Zeros(|x0|)) == Scale(a, x0)
  {}

  /** Without biases the output is x0 scaled by the product of the layer gains. */
  lemma ZeroBiasProduct(x0: Vec, layers: seq<Layer>)
    requires Fits(layers, |x0|) && NoBias(layers)
    ensures OuterForm(x0, layers, |layers|) == Scale(GainProduct(x0, layers, |layers|), x0)
  {
    ZeroBiasAlpha(x0, layers, |layers|);
    ClosedForm(x0, layers, |layers|);
    ZeroBiasSum(layers, |x0|, |layers|);
    LineThroughOrigin(GainProduct(x0, layers, |layers|), x0);
  }
}
