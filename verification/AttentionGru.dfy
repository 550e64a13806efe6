/** The attention-gated GRU of DIEN: the update gate is damped by an attention score per step. */
module AttentionGru {
  import opened Vectors

  /** The linear maps with their activations: gates of (input, state), candidate of (input, reset state). */
  datatype Cell = Cell(reset: (Vec, Vec) -> Vec, update: (Vec, Vec) -> Vec, candidate: (Vec, Vec) -> Vec)

  datatype Step = Step(input: Vec, att: real)

  predicate Within(v: Vec, n: nat, lo: real, hi: real) {
    |v| == n && forall i :: 0 <= i < n ==> lo <= v[i] <= hi
  }

  /** The ranges of the activations: sigmoid gates, tanh candidates. */
  ghost predicate Activated(cell: Cell, units: nat) {
    forall x: Vec, h: Vec :: |h| == units ==>
      && Within(cell.reset(x, h), units, 0.0, 1.0)
      && Within(cell.update(x, h), units, 0.0, 1.0)
      && Within(cell.candidate(x, h), units, -1.0, 1.0)
  }

  ghost predicate Scored(steps: seq<Step>) {
    forall t :: 0 <= t < |steps| ==> 0.0 <= steps[t].att <= 1.0
  }

  ghost function Candidate(cell: Cell, units: nat, x: Vec, h: Vec): (c: Vec)
    requires Activated(cell, units) && |h| == units
    ensures Within(c, units, -1.0, 1.0)
  {
    cell.candidate(x, Mul(cell.reset(x, h), h))
  }

  ghost function Update(cell: Cell, units: nat, s: Step, h: Vec): (u: Vec)
    requires Activated(cell, units) && |h| == units
    ensures |u| == units
  {
    Scale(1.0 - s.att, cell.update(s.input, h))
  }

  /** u * h + (1 - u) * c */
  function Blend(u: Vec, h: Vec, c: Vec): (r: Vec)
    requires |u| == |h| == |c|
    ensures |r| == |u|
  {
    seq(|u|, i requires 0 <= i < |u| => Mix(u[i], h[i], c[i]))
  }

  function Mix(u: real, h: real, c: real): real {
    u * h + (1.0 - u) * c
  }

  /** The state after k steps. */
  ghost function State(cell: Cell, units: nat, h0: Vec, steps: seq<Step>, k: nat): (h: Vec)
    requires Activated(cell, units) && |h0| == units && k <= |steps|
    ensures |h| == units
  {
    if k == 0 then h0 else
      var h := State(cell, units, h0, steps, k - 1);
      Blend(Update(cell, units, steps[k - 1], h), h, Candidate(cell, units, steps[k - 1].input, h))
  }

  /** The recurrence over a padded sequence: steps from `length` on copy the state through. */
  method RunCell(cell: Cell, units: nat, h0: Vec, steps: seq<Step>, length: nat) returns (h: Vec)
    requires Activated(cell, units) && |h0| == units
    ensures h == State(cell, units, h0, steps, if length < |steps| then length else |steps|)
  {
    h := h0;
    for t := 0 to |steps|
      invariant h == State(cell, units, h0, steps, if length < t then length else t)
    {
      var s := steps[t];
      var r, u := cell.reset(s.input, h), cell.update(s.input, h);
      var rState := Mul(r, h);
      var c := cell.candidate(s.input, rState);
      u := Scale(1.0 - s.att, u);
      var newH := Blend(u, h, c);
      if t < length {
        h := newH;
      }
    }
  }

  // ---------- one step, coordinate by coordinate ----------

  /** The state behind the reset gate. */
  ghost predicate IsResetState(cell: Cell, x: Vec, h: Vec, z: Vec) {
    |z| == |h| == |cell.reset(x, h)| && forall n :: 0 <= n < |z| ==> z[n] == Times(cell.reset(x, h)[n], h[n])
  }

  /** g h + (1 - g) c, where the gate g is damped by the score and the candidate c is computed from the reset state. */
  lemma StateEntry(cell: Cell, units: nat, h0: Vec, steps: seq<Step>, k: nat, i: nat, z: Vec)
    requires Activated(cell, units) && |h0| == units && k < |steps| && i < units
    requires IsResetState(cell, steps[k].input, State(cell, units, h0, steps, k), z)
    ensures State(cell, units, h0, steps, 0) == h0
    ensures var (x, h) := (steps[k].input, State(cell, units, h0, steps, k));
      var (g, c) := ((1.0 - steps[k].att) * cell.update(x, h)[i], cell.candidate(x, z)[i]);
      State(cell, units, h0, steps, k + 1)[i] == g * h[i] + (1.0 - g) * c
  {
    var x, h := steps[k].input, State(cell, units, h0, steps, k);
    assert z == Mul(cell.reset(x, h), h);
  }

  /** With closed gates the next state is the candidate of the input alone: the state is forgotten. */
  lemma ClosedGatesForget(cell: Cell, units: nat, h0: Vec, steps: seq<Step>, k: nat)
    requires Activated(cell, units) && |h0| == units && k < |steps|
    requires var (x, h) := (steps[k].input, State(cell, units, h0, steps, k));
      cell.reset(x, h) == Zeros(units) && cell.update(x, h) == Zeros(units)
    ensures State(cell, units, h0, steps, k + 1) == cell.candidate(steps[k].input, Zeros(units))
  {
    var x, h := steps[k].input, State(cell, units, h0, steps, k);
    assert Within(cell.candidate(x, Zeros(units)), units, -1.0, 1.0);
    assert IsResetState(cell, x, h, Zeros(units));
    forall i | 0 <= i < units
      ensures State(cell, units, h0, steps, k + 1)[i] == cell.candidate(x, Zeros(units))[i]
    {
      StateEntry(cell, units, h0, steps, k, i, Zeros(units));
    }
  }

  // ---------- the state is a convex combination ----------

  /** The effective gate and the candidate of step k in one coordinate. */
  ghost function GateAt(cell: Cell, units: nat, h0: Vec, steps: seq<Step>, k: nat, i: nat): (u: real)
    requires Activated(cell, units) && |h0| == units && k < |steps| && i < units
  {
    Update(cell, units, steps[k], State(cell, units, h0, steps, k))[i]
  }

  ghost function CandidateAt(cell: Cell, units: nat, h0: Vec, steps: seq<Step>, k: nat, i: nat): (c: real)
    requires Activated(cell, units) && |h0| == units && k < |steps| && i < units
    ensures -1.0 <= c <= 1.0
  {
    Candidate(cell, units, steps[k].input, State(cell, units, h0, steps, k))[i]
  }

  ghost function Gates(cell: Cell, units: nat, h0: Vec, steps: seq<Step>, k: nat, i: nat): (g: Vec)
    requires Activated(cell, units) && |h0| == units && k <= |steps| && i < units
    ensures |g| == k
  {
    if k == 0 then []
    else Gates(cell, units, h0, steps, k - 1, i) + [GateAt(cell, units, h0, steps, k - 1, i)]
  }

  /** The initial value of the coordinate, then all candidates in order. */
  ghost function Points(cell: Cell, units: nat, h0: Vec, steps: seq<Step>, k: nat, i: nat): (p: Vec)
    requires Activated(cell, units) && |h0| == units && k <= |steps| && i < units
    ensures |p| == k + 1
    ensures Within(h0, units, -1.0, 1.0) ==> Within(p, k + 1, -1.0, 1.0)
  {
    if k == 0 then [h0[i]]
    else Points(cell, units, h0, steps, k - 1, i) + [CandidateAt(cell, units, h0, steps, k - 1, i)]
  }

  /** Product of the gates g[j..]. */
  function GateProduct(g: Vec, j: nat): real
    requires j <= |g|
    decreases |g| - j
  {
    if j == |g| then 1.0 else Times(g[j], GateProduct(g, j + 1))
  }

  /** What is left of the j-th point: it enters with 1 - g[j - 1] and is damped by every later gate. */
  function Weights(g: Vec): (w: Vec)
    ensures |w| == |g| + 1
  {
    seq(|g| + 1, j requires 0 <= j <= |g| =>
      if j == 0 then GateProduct(g, 0) else Times(1.0 - g[j - 1], GateProduct(g, j)))
  }

  lemma {:induction false} GateProductSnoc(g: Vec, u: real, j: nat)
    requires j <= |g|
    ensures GateProduct(g + [u], j) == Times(u, GateProduct(g, j))
    decreases |g| - j
  {
    if j == |g| {
      assert GateProduct(g + [u], j + 1) == 1.0;
    } else {
      GateProductSnoc(g, u, j + 1);
      assert (g + [u])[j] == g[j];
      SwapFactors(g[j], u, GateProduct(g, j + 1));
    }
  }

  lemma SwapFactors(a: real, u: real, q: real)
    ensures Times(a, Times(u, q)) == Times(u, Times(a, q))
  {}

  lemma WeightsSnoc(g: Vec, u: real)
    ensures Weights(g + [u]) == Scale(u, Weights(g)) + [1.0 - u]
  {
    var g' := g + [u];
    forall j | 0 <= j <= |g| ensures Weights(g')[j] == Scale(u, Weights(g))[j] {
      GateProductSnoc(g, u, j);
      if j > 0 {
        assert g'[j - 1] == g[j - 1];
        SwapFactors(1.0 - g[j - 1], u, GateProduct(g, j));
      }
    }
    assert GateProduct(g', |g'|) == 1.0;
    assert Times(1.0 - u, 1.0) == 1.0 - u;
    assert Weights(g')[|g'|] == 1.0 - u;
  }

  lemma DotConcat1(u: Vec, v: Vec, a: real, b: real)
    requires |u| == |v|
    ensures Dot(u + [a], v + [b]) == Dot(u, v) + Times(a, b)
  {
    DotSnoc(u + [a], v + [b]);
    assert (u + [a])[..|u|] == u && (v + [b])[..|v|] == v;
  }

  /** The weights telescope to one, whatever the gates. */
  lemma {:induction false} WeightsSumToOne(g: Vec)
    ensures Sum(Weights(g)) == 1.0
  {
    if g == [] {
      assert Weights(g) == [1.0];
      assert Sum([1.0]) == Sum([]) + 1.0 by { assert [1.0][..0] == []; }
    } else {
      var n := |g| - 1;
      var front, u := g[..n], g[n];
      assert g == front + [u];
      WeightsSumToOne(front);
      WeightsSnoc(front, u);
      DampedSum(Weights(front), u);
    }
  }

  lemma DampedSum(w: Vec, u: real)
    requires Sum(w) == 1.0
    ensures Sum(Scale(u, w) + [1.0 - u]) == 1.0
  {
    SumScale(u, w);
    var d := Scale(u, w);
    assert (d + [1.0 - u])[..|d|] == d;
  }

  lemma {:induction false} GateProductRange(g: Vec, j: nat)
    requires j <= |g| && Within(g, |g|, 0.0, 1.0)
    ensures 0.0 <= GateProduct(g, j) <= 1.0
    decreases |g| - j
  {
    if j < |g| {
      GateProductRange(g, j + 1);
      TimesRange(g[j], GateProduct(g, j + 1));
    }
  }

  lemma TimesRange(a: real, b: real)
    requires 0.0 <= a <= 1.0 && 0.0 <= b <= 1.0
    ensures 0.0 <= Times(a, b) <= 1.0
  {
    TimesMono(a, 0.0, b);
    TimesMono(a, b, 1.0);
  }

  lemma WeightsRange(g: Vec)
    requires Within(g, |g|, 0.0, 1.0)
    ensures Within(Weights(g), |g| + 1, 0.0, 1.0)
  {
    forall j | 0 <= j <= |g| ensures 0.0 <= Weights(g)[j] <= 1.0 {
      GateProductRange(g, j);
      if j > 0 {
        TimesRange(1.0 - g[j - 1], GateProduct(g, j));
      }
    }
  }

  lemma {:induction false} GatesRange(cell: Cell, units: nat, h0: Vec, steps: seq<Step>, k: nat, i: nat)
    requires Activated(cell, units) && |h0| == units && k <= |steps| && i < units && Scored(steps)
    ensures Within(Gates(cell, units, h0, steps, k, i), k, 0.0, 1.0)
  {
    if k > 0 {
      GatesRange(cell, units, h0, steps, k - 1, i);
      var h := State(cell, units, h0, steps, k - 1);
      TimesRange(1.0 - steps[k - 1].att, cell.update(steps[k - 1].input, h)[i]);
    }
  }

  /** Whatever the gates do, the state is the weighted sum of the initial state and all candidates. */
  lemma {:induction false} StateIsWeightedSum(cell: Cell, units: nat, h0: Vec, steps: seq<Step>, k: nat, i: nat)
    requires Activated(cell, units) && |h0| == units && k <= |steps| && i < units
    ensures State(cell, units, h0, steps, k)[i]
            == Dot(Weights(Gates(cell, units, h0, steps, k, i)), Points(cell, units, h0, steps, k, i))
  {
    if k == 0 {
      assert Weights([]) == [1.0];
      DotConcat1([], [], 1.0, h0[i]);
      assert [] + [1.0] == [1.0] && [] + [h0[i]] == [h0[i]];
    } else {
      StateIsWeightedSum(cell, units, h0, steps, k - 1, i);
      var g, u := Gates(cell, units, h0, steps, k - 1, i), GateAt(cell, units, h0, steps, k - 1, i);
      var p, c := Points(cell, units, h0, steps, k - 1, i), CandidateAt(cell, units, h0, steps, k - 1, i);
      OneMorePoint(g, u, p, c);
      assert State(cell, units, h0, steps, k)[i] == Mix(u, State(cell, units, h0, steps, k - 1)[i], c);
    }
  }

  lemma OneMorePoint(g: Vec, u: real, p: Vec, c: real)
    requires |p| == |g| + 1
    ensures Dot(Weights(g + [u]), p + [c]) == Mix(u, Dot(Weights(g), p), c)
  {
    var w := Weights(g);
    WeightsSnoc(g, u);
    DotConcat1(Scale(u, w), p, 1.0 - u, c);
    DotScale(u, w, p);
    assert Dot(Scale(u, w) + [1.0 - u], p + [c]) == u * Dot(w, p) + Times(1.0 - u, c);
  }

  lemma {:induction false} SumMono(u: Vec, v: Vec)
    requires |u| == |v| && forall j :: 0 <= j < |u| ==> u[j] <= v[j]
    ensures Sum(u) <= Sum(v)
  {
    if u != [] {
      SumMono(u[..|u| - 1], v[..|v| - 1]);
    }
  }

  lemma TimesMono(a: real, p: real, q: real)
    requires a >= 0.0 && p <= q
    ensures Times(a, p) <= Times(a, q)
  {
    assert a * (q - p) >= 0.0;
  }

  lemma DotMono(w: Vec, p: Vec, q: Vec)
    requires |w| == |p| == |q|
    requires forall j :: 0 <= j < |w| ==> w[j] >= 0.0 && p[j] <= q[j]
    ensures Dot(w, p) <= Dot(w, q)
  {
    forall j | 0 <= j < |w| ensures Mul(w, p)[j] <= Mul(w, q)[j] {
      TimesMono(w[j], p[j], q[j]);
    }
    SumMono(Mul(w, p), Mul(w, q));
  }

  function Constant(c: real, n: nat): Vec {
    seq(n, _ => c)
  }

  lemma TimesCommutes(a: real, b: real)
    ensures Times(a, b) == Times(b, a)
  {}

  lemma DotConstant(w: Vec, c: real)
    ensures Dot(w, Constant(c, |w|)) == Times(c, Sum(w))
  {
    forall j | 0 <= j < |w| ensures Mul(w, Constant(c, |w|))[j] == Scale(c, w)[j] {
      TimesCommutes(w[j], c);
    }
    assert Mul(w, Constant(c, |w|)) == Scale(c, w);
    SumScale(c, w);
  }

  /** A weighted sum of values in a range lies in the range scaled by the total weight. */
  lemma WeightedAverageRange(w: Vec, p: Vec, low: real, high: real)
    requires Within(p, |w|, low, high) && forall j :: 0 <= j < |w| ==> w[j] >= 0.0
    ensures Times(low, Sum(w)) <= Dot(w, p) <= Times(high, Sum(w))
  {
    DotMono(w, Constant(low, |w|), p);
    DotMono(w, p, Constant(high, |w|));
    DotConstant(w, low);
    DotConstant(w, high);
  }

  /** With scores and gates in [0, 1] the combination is convex. */
  lemma StateIsConvexCombination(cell: Cell, units: nat, h0: Vec, steps: seq<Step>, k: nat, i: nat)
    requires Activated(cell, units) && |h0| == units && k <= |steps| && i < units && Scored(steps)
    ensures var w := Weights(Gates(cell, units, h0, steps, k, i));
      && Within(w, k + 1, 0.0, 1.0) && Sum(w) == 1.0
      && State(cell, units, h0, steps, k)[i] == Dot(w, Points(cell, units, h0, steps, k, i))
  {
    var g := Gates(cell, units, h0, steps, k, i);
    GatesRange(cell, units, h0, steps, k, i);
    WeightsRange(g);
    WeightsSumToOne(g);
    StateIsWeightedSum(cell, units, h0, steps, k, i);
  }

  /** So a run from the zero state, or from any state in [-1, 1], never leaves [-1, 1]. */
  lemma StateStaysBounded(cell: Cell, units: nat, h0: Vec, steps: seq<Step>, k: nat)
    requires Activated(cell, units) && Within(h0, units, -1.0, 1.0) && k <= |steps| && Scored(steps)
    ensures Within(State(cell, units, h0, steps, k), units, -1.0, 1.0)
  {
    forall i | 0 <= i < units ensures -1.0 <= State(cell, units, h0, steps, k)[i] <= 1.0 {
      StateIsConvexCombination(cell, units, h0, steps, k, i);
      var w, p := Weights(Gates(cell, units, h0, steps, k, i)), Points(cell, units, h0, steps, k, i);
      WeightedAverageRange(w, p, -1.0, 1.0);
    }
  }

  // ---------- without attention ----------

  /** The plain GRU without attention. */
  ghost function PlainState(cell: Cell, units: nat, h0: Vec, steps: seq<Step>, k: nat): (h: Vec)
    requires Activated(cell, units) && |h0| == units && k <= |steps|
    ensures |h| == units
  {
    if k == 0 then h0 else
      var x, h := steps[k - 1].input, PlainState(cell, units, h0, steps, k - 1);
      seq(units, i requires 0 <= i < units =>
        Mix(cell.update(x, h)[i], h[i], cell.candidate(x, seq(units, n requires 0 <= n < units =>
          Times(cell.reset(x, h)[n], h[n])))[i]))
  }

  lemma {:induction false} ZeroAttentionIsPlainGru(cell: Cell, units: nat, h0: Vec, steps: seq<Step>, k: nat)
    requires Activated(cell, units) && |h0| == units && k <= |steps|
    requires forall t :: 0 <= t < k ==> steps[t].att == 0.0
    ensures State(cell, units, h0, steps, k) == PlainState(cell, units, h0, steps, k)
  {
    if k > 0 {
      ZeroAttentionIsPlainGru(cell, units, h0, steps, k - 1);
      var u := cell.update(steps[k - 1].input, State(cell, units, h0, steps, k - 1));
      assert Scale(1.0, u) == u by {
        assert forall i :: 0 <= i < |u| ==> Times(1.0, u[i]) == u[i];
      }
    }
  }
}
