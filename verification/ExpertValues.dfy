/** What the streams and predictions of PLE compute when a gated sum is the sum of the experts' outputs, each times its
    weight of the gate. */
module ExpertValues {
  import opened Vectors
  import opened ScopeNames
  import opened ExpertWiring
  import opened ExpertIsolation

  // ---------- evaluation layer by layer ----------

  /** What each layer does to its input, and the gated sum. */
  datatype Layers<!V> = Layers(layer: (Scope, nat, V) -> V, mix: (V, seq<V>) -> V)

  ghost function Value<V>(t: Term, ls: Layers<V>, x: V): V
    decreases t
  {
    match t
    case Input => x
    case Dense(s, units, arg) => ls.layer(s, units, Value(arg, ls, x))
    case Mix(gate, experts) => ls.mix(Value(gate, ls, x), Values(experts, ls, x))
  }

  ghost function Values<V>(ts: seq<Term>, ls: Layers<V>, x: V): (r: seq<V>)
    ensures |r| == |ts|
    decreases ts
  {
    if ts == [] then [] else [Value(ts[0], ls, x)] + Values(ts[1..], ls, x)
  }

  /** The layers of a network with named weights. */
  ghost function LayersOf<V>(net: Net<V>): Layers<V> {
    Layers((s: Scope, units: nat, v: V) => net.act(s, net.dense(Path(s), units, v)), net.mix)
  }

  lemma {:induction false} EvalIsValue<V>(t: Term, net: Net<V>, x: V)
    ensures Eval(t, net, x) == Value(t, LayersOf(net), x)
    decreases t
  {
    match t
    case Input =>
    case Dense(s, units, arg) => EvalIsValue(arg, net, x);
    case Mix(gate, experts) =>
      EvalIsValue(gate, net, x);
      EvalAllIsValues(experts, net, x);
  }

  lemma {:induction false} EvalAllIsValues<V>(ts: seq<Term>, net: Net<V>, x: V)
    ensures EvalAll(ts, net, x) == Values(ts, LayersOf(net), x)
    decreases ts
  {
    if ts != [] {
      EvalIsValue(ts[0], net, x);
      EvalAllIsValues(ts[1..], net, x);
    }
  }

  lemma {:induction false} ValuesAt<V>(ts: seq<Term>, ls: Layers<V>, x: V, n: nat)
    requires n < |ts|
    ensures Values(ts, ls, x)[n] == Value(ts[n], ls, x)
  {
    if n > 0 {
      ValuesAt(ts[1..], ls, x, n - 1);
    }
  }

  // ---------- stacks ----------

  /** The values through a stack: vs[0] goes in and layer l, which is numbered l, turns vs[l] into vs[l + 1]. */
  ghost predicate Through<V>(ls: Layers<V>, units: seq<nat>, b: Block, vs: seq<V>) {
    |vs| == |units| + 1 && forall l :: 0 <= l < |units| ==> vs[l + 1] == ls.layer(LayerScope(b, l), units[l], vs[l])
  }

  lemma {:induction false} StackIsThrough<V>(ls: Layers<V>, arg: Term, units: seq<nat>, b: Block, x: V, vs: seq<V>,
                                             k: nat)
    requires Through(ls, units, b, vs) && vs[0] == Value(arg, ls, x) && k <= |units|
    ensures Value(Dnn(arg, units, b, k), ls, x) == vs[k]
  {
    if k > 0 {
      StackIsThrough(ls, arg, units, b, x, vs, k - 1);
      assert vs[k - 1 + 1] == ls.layer(LayerScope(b, k - 1), units[k - 1], vs[k - 1]);
    }
  }

  /** What a stack computes from its input ... */
  ghost function StackOut<V>(ls: Layers<V>, units: seq<nat>, b: Block, v: V): V {
    Value(Dnn(Input, units, b, |units|), ls, v)
  }

  /** ... is the last of the values through it. */
  lemma StackOutIsLast<V>(ls: Layers<V>, units: seq<nat>, b: Block, v: V, vs: seq<V>)
    requires Through(ls, units, b, vs) && vs[0] == v
    ensures StackOut(ls, units, b, v) == vs[|units|]
  {
    StackIsThrough(ls, Input, units, b, v, vs, |units|);
  }

  lemma {:induction false} DnnOut<V>(ls: Layers<V>, arg: Term, units: seq<nat>, b: Block, k: nat, x: V)
    requires k <= |units|
    ensures Value(Dnn(arg, units, b, k), ls, x) == Value(Dnn(Input, units, b, k), ls, Value(arg, ls, x))
  {
    if k > 0 {
      DnnOut(ls, arg, units, b, k - 1, x);
    }
  }

  // ---------- gated sums ----------

  /** Zero outside the vector. */
  function At(v: Vec, n: nat): real {
    if n < |v| then v[n] else 0.0
  }

  /** Coordinate d of expert n with weight from + n of the gate. */
  function Weighted(g: Vec, from: nat, es: seq<Vec>, d: nat): nat -> real {
    (n: nat) => if n < |es| then Times(At(g, from + n), At(es[n], d)) else 0.0
  }

  /** `reduce_sum(stack(experts, axis=1) * expand_dims(gate), axis=1)` on experts of this width */
  ghost predicate SumsGates(ls: Layers<Vec>, width: nat) {
    forall g: Vec, es: seq<Vec>, d: nat :: d < width ==>
      At(ls.mix(g, es), d) == SumOver(|es|, Weighted(g, 0, es, d))
  }

  /** Own experts with the first weights, shared ones with the rest. */
  function OwnAndShared(g: Vec, own: seq<Vec>, shared: seq<Vec>, d: nat): real {
    SumOver(|own|, Weighted(g, 0, own, d)) + SumOver(|shared|, Weighted(g, |own|, shared, d))
  }

  lemma WeightedConcat(g: Vec, own: seq<Vec>, shared: seq<Vec>, d: nat)
    ensures SumOver(|own + shared|, Weighted(g, 0, own + shared, d)) == OwnAndShared(g, own, shared, d)
  {
    var all := own + shared;
    assert forall j: nat :: j < |own| ==> Weighted(g, 0, own, d)(j) == Weighted(g, 0, all, d)(j);
    assert forall k: nat :: k < |shared| ==> Weighted(g, |own|, shared, d)(k) == Weighted(g, 0, all, d)(|own| + k);
    SumOverSplit(|own|, |shared|, Weighted(g, 0, all, d), Weighted(g, |own|, shared, d));
    SumOverSame(|own|, Weighted(g, 0, own, d), Weighted(g, 0, all, d));
  }

  /** Coordinate d of expert j of row i, with weight i * width + j of the gate. */
  function RowTerm(g: Vec, rows: seq<seq<Vec>>, width: nat, d: nat): nat -> nat -> real {
    (i: nat) => (j: nat) =>
      if i < |rows| && j < |rows[i]| then Times(At(g, GridIndex(i, width, j)), At(rows[i][j], d)) else 0.0
  }

  function RowSum(g: Vec, rows: seq<seq<Vec>>, width: nat, d: nat): nat -> real {
    (i: nat) => SumOver(width, RowTerm(g, rows, width, d)(i))
  }

  /** The experts of all tasks row by row, then the shared ones with the rest of the weights. */
  function GridAndShared(g: Vec, rows: seq<seq<Vec>>, width: nat, shared: seq<Vec>, d: nat): real {
    SumOver(|rows|, RowSum(g, rows, width, d))
    + SumOver(|shared|, Weighted(g, GridIndex(|rows|, width, 0), shared, d))
  }

  ghost predicate IsGrid(grid: seq<Vec>, rows: seq<seq<Vec>>, width: nat) {
    && |grid| == GridIndex(|rows|, width, 0)
    && (forall i :: 0 <= i < |rows| ==> |rows[i]| == width)
    && (forall i, j :: 0 <= i < |rows| && 0 <= j < width ==> GridEntry(grid, rows, width, i, j))
  }

  ghost predicate GridEntry(grid: seq<Vec>, rows: seq<seq<Vec>>, width: nat, i: nat, j: nat) {
    var n := GridIndex(i, width, j);
    n < |grid| && i < |rows| && j < |rows[i]| && grid[n] == rows[i][j]
  }

  lemma WeightedRow(g: Vec, grid: seq<Vec>, rows: seq<seq<Vec>>, width: nat, d: nat, i: nat, j: nat)
    requires GridEntry(grid, rows, width, i, j)
    ensures RowTerm(g, rows, width, d)(i)(j) == Weighted(g, 0, grid, d)(GridIndex(i, width, j))
  {}

  lemma WeightedGrid(g: Vec, grid: seq<Vec>, rows: seq<seq<Vec>>, width: nat, d: nat)
    requires IsGrid(grid, rows, width)
    ensures SumOver(|grid|, Weighted(g, 0, grid, d)) == SumOver(|rows|, RowSum(g, rows, width, d))
  {
    var term := RowTerm(g, rows, width, d);
    forall i: nat, j: nat | i < |rows| && j < width
      ensures term(i)(j) == Weighted(g, 0, grid, d)(GridIndex(i, width, j))
    {
      assert GridEntry(grid, rows, width, i, j);
      WeightedRow(g, grid, rows, width, d, i, j);
    }
    SumOverGrid(|rows|, width, Weighted(g, 0, grid, d), term, RowSum(g, rows, width, d));
  }

  // ---------- one level ----------

  /** Expert j of task i at a level, on the task's incoming stream. */
  ghost function ExpertOut<V>(c: Config, level: nat, ins: seq<V>, ls: Layers<V>, i: nat, j: nat): V
    requires i < |c.towers| < |ins|
  {
    StackOut(ls, c.expertUnits, SpecificExpertNet(level, c.towers[i], j), ins[i])
  }

  /** Shared expert k, on the incoming shared stream. */
  ghost function SharedExpertOut<V>(c: Config, level: nat, ins: seq<V>, ls: Layers<V>, k: nat): V
    requires |c.towers| < |ins|
  {
    StackOut(ls, c.expertUnits, SharedExpertNet(level, k), ins[|c.towers|])
  }

  ghost function GateOut<V>(c: Config, level: nat, ins: seq<V>, ls: Layers<V>, i: nat): V
    requires i < |c.towers| < |ins|
  {
    ls.layer(SpecificGate(level, c.towers[i]), c.specific + c.shared,
             StackOut(ls, c.gateUnits, SpecificGateNet(level, c.towers[i]), ins[i]))
  }

  ghost function SharedGateOut<V>(c: Config, level: nat, ins: seq<V>, ls: Layers<V>): V
    requires |c.towers| < |ins|
  {
    ls.layer(SharedGate(level), |c.towers| * c.specific + c.shared,
             StackOut(ls, c.gateUnits, SharedGateNet(level), ins[|c.towers|]))
  }

  ghost function OwnOuts<V>(c: Config, level: nat, ins: seq<V>, ls: Layers<V>, i: nat): (r: seq<V>)
    requires i < |c.towers| < |ins|
    ensures |r| == c.specific && forall j :: 0 <= j < |r| ==> r[j] == ExpertOut(c, level, ins, ls, i, j)
  {
    seq(c.specific, j requires 0 <= j < c.specific => ExpertOut(c, level, ins, ls, i, j))
  }

  ghost function AllOwnOuts<V>(c: Config, level: nat, ins: seq<V>, ls: Layers<V>): (r: seq<seq<V>>)
    requires |c.towers| < |ins|
    ensures |r| == |c.towers| && forall i :: 0 <= i < |r| ==> r[i] == OwnOuts(c, level, ins, ls, i)
  {
    seq(|c.towers|, i requires 0 <= i < |c.towers| => OwnOuts(c, level, ins, ls, i))
  }

  ghost function SharedOuts<V>(c: Config, level: nat, ins: seq<V>, ls: Layers<V>): (r: seq<V>)
    requires |c.towers| < |ins|
    ensures |r| == c.shared && forall k :: 0 <= k < |r| ==> r[k] == SharedExpertOut(c, level, ins, ls, k)
  {
    seq(c.shared, k requires 0 <= k < c.shared => SharedExpertOut(c, level, ins, ls, k))
  }

  lemma ExpertValue<V>(c: Config, level: nat, inputs: seq<Term>, i: nat, ls: Layers<V>, x: V, j: nat)
    requires |inputs| == |c.towers| + 1 && i < |c.towers|
    ensures Value(SpecificNet(c, level, inputs, i, j), ls, x) == ExpertOut(c, level, Values(inputs, ls, x), ls, i, j)
  {
    ValuesAt(inputs, ls, x, i);
    DnnOut(ls, inputs[i], c.expertUnits, SpecificExpertNet(level, c.towers[i], j), |c.expertUnits|, x);
  }

  lemma SharedExpertValue<V>(c: Config, level: nat, inputs: seq<Term>, ls: Layers<V>, x: V, k: nat)
    requires |inputs| == |c.towers| + 1
    ensures Value(SharedNet(c, level, inputs, k), ls, x) == SharedExpertOut(c, level, Values(inputs, ls, x), ls, k)
  {
    ValuesAt(inputs, ls, x, |c.towers|);
    DnnOut(ls, inputs[|c.towers|], c.expertUnits, SharedExpertNet(level, k), |c.expertUnits|, x);
  }

  lemma MixValue(t: Term, ls: Layers<Vec>, x: Vec, width: nat, d: nat)
    requires t.Mix? && SumsGates(ls, width) && d < width
    ensures At(Value(t, ls, x), d)
         == SumOver(|t.experts|, Weighted(Value(t.gate, ls, x), 0, Values(t.experts, ls, x), d))
  {}

  /** The value of a task's stream: weight j of its gate times its expert j, weight specific + k times shared
      expert k. */
  lemma TaskStreamValue(c: Config, level: nat, inputs: seq<Term>, i: nat, t: Term, ls: Layers<Vec>, x: Vec, width: nat,
                        d: nat)
    requires |inputs| == |c.towers| + 1 && i < |c.towers| && TaskStream(c, level, inputs, i, t)
    requires SumsGates(ls, width) && d < width
    ensures var ins := Values(inputs, ls, x);
      At(Value(t, ls, x), d)
      == OwnAndShared(GateOut(c, level, ins, ls, i), OwnOuts(c, level, ins, ls, i), SharedOuts(c, level, ins, ls), d)
  {
    var ins := Values(inputs, ls, x);
    MixValue(t, ls, x, width, d);
    TaskGateValue(c, level, inputs, i, t, ls, x);
    TaskStackValue(c, level, inputs, i, t, ls, x);
    WeightedConcat(GateOut(c, level, ins, ls, i), OwnOuts(c, level, ins, ls, i), SharedOuts(c, level, ins, ls), d);
  }

  lemma TaskGateValue<V>(c: Config, level: nat, inputs: seq<Term>, i: nat, t: Term, ls: Layers<V>, x: V)
    requires |inputs| == |c.towers| + 1 && i < |c.towers| && TaskStream(c, level, inputs, i, t)
    ensures Value(t.gate, ls, x) == GateOut(c, level, Values(inputs, ls, x), ls, i)
  {
    ValuesAt(inputs, ls, x, i);
    DnnOut(ls, inputs[i], c.gateUnits, SpecificGateNet(level, c.towers[i]), |c.gateUnits|, x);
  }

  lemma TaskStackValue<V>(c: Config, level: nat, inputs: seq<Term>, i: nat, t: Term, ls: Layers<V>, x: V)
    requires |inputs| == |c.towers| + 1 && i < |c.towers| && TaskStream(c, level, inputs, i, t)
    ensures var ins := Values(inputs, ls, x);
      Values(t.experts, ls, x) == OwnOuts(c, level, ins, ls, i) + SharedOuts(c, level, ins, ls)
  {
    var ins, es := Values(inputs, ls, x), Values(t.experts, ls, x);
    var own, shared := OwnOuts(c, level, ins, ls, i), SharedOuts(c, level, ins, ls);
    forall j | 0 <= j < c.specific ensures es[j] == own[j] {
      ValuesAt(t.experts, ls, x, j);
      ExpertValue(c, level, inputs, i, ls, x, j);
    }
    forall k | 0 <= k < c.shared ensures es[c.specific + k] == shared[k] {
      ValuesAt(t.experts, ls, x, c.specific + k);
      SharedExpertValue(c, level, inputs, ls, x, k);
    }
    ConcatByEntries(es, own, shared);
  }

  lemma ConcatByEntries<V>(es: seq<V>, a: seq<V>, b: seq<V>)
    requires |es| == |a| + |b|
    requires (forall j :: 0 <= j < |a| ==> es[j] == a[j]) && forall k :: 0 <= k < |b| ==> es[|a| + k] == b[k]
    ensures es == a + b
  {
    forall n | 0 <= n < |es| ensures es[n] == (a + b)[n] {
      assert n >= |a| ==> es[|a| + (n - |a|)] == b[n - |a|];
    }
  }

  /** The value of the shared stream: weight i * specific + j times expert j of task i, the last weights times the
      shared experts. */
  lemma SharedStreamValue(c: Config, level: nat, inputs: seq<Term>, t: Term, ls: Layers<Vec>, x: Vec, width: nat,
                          d: nat)
    requires |inputs| == |c.towers| + 1 && SharedStream(c, level, inputs, t)
    requires SumsGates(ls, width) && d < width
    ensures var ins := Values(inputs, ls, x);
      At(Value(t, ls, x), d)
      == GridAndShared(SharedGateOut(c, level, ins, ls), AllOwnOuts(c, level, ins, ls), c.specific,
                       SharedOuts(c, level, ins, ls), d)
  {
    var ins := Values(inputs, ls, x);
    MixValue(t, ls, x, width, d);
    SharedGateValue(c, level, inputs, t, ls, x);
    var grid := SharedStackValue(c, level, inputs, t, ls, x);
    WeightedConcat(SharedGateOut(c, level, ins, ls), grid, SharedOuts(c, level, ins, ls), d);
    WeightedGrid(SharedGateOut(c, level, ins, ls), grid, AllOwnOuts(c, level, ins, ls), c.specific, d);
  }

  lemma SharedGateValue<V>(c: Config, level: nat, inputs: seq<Term>, t: Term, ls: Layers<V>, x: V)
    requires |inputs| == |c.towers| + 1 && SharedStream(c, level, inputs, t)
    ensures Value(t.gate, ls, x) == SharedGateOut(c, level, Values(inputs, ls, x), ls)
  {
    ValuesAt(inputs, ls, x, |c.towers|);
    DnnOut(ls, inputs[|c.towers|], c.gateUnits, SharedGateNet(level), |c.gateUnits|, x);
  }

  lemma SharedStackValue(c: Config, level: nat, inputs: seq<Term>, t: Term, ls: Layers<Vec>, x: Vec)
    returns (grid: seq<Vec>)
    requires |inputs| == |c.towers| + 1 && SharedStream(c, level, inputs, t)
    ensures var ins := Values(inputs, ls, x);
      && Values(t.experts, ls, x) == grid + SharedOuts(c, level, ins, ls)
      && IsGrid(grid, AllOwnOuts(c, level, ins, ls), c.specific)
  {
    var ins, es := Values(inputs, ls, x), Values(t.experts, ls, x);
    var n := GridIndex(|c.towers|, c.specific, 0);
    grid := es[..n];
    var rows := AllOwnOuts(c, level, ins, ls);
    forall i, j | 0 <= i < |c.towers| && 0 <= j < c.specific ensures GridEntry(grid, rows, c.specific, i, j) {
      GridStackEntry(c, level, inputs, t, ls, x, i, j);
    }
    var shared := SharedOuts(c, level, ins, ls);
    forall k | 0 <= k < c.shared ensures es[n + k] == shared[k] {
      ValuesAt(t.experts, ls, x, n + k);
      SharedExpertValue(c, level, inputs, ls, x, k);
    }
    ConcatByEntries(es, grid, shared);
  }

  lemma GridStackEntry(c: Config, level: nat, inputs: seq<Term>, t: Term, ls: Layers<Vec>, x: Vec, i: nat, j: nat)
    requires |inputs| == |c.towers| + 1 && SharedStream(c, level, inputs, t) && i < |c.towers| && j < c.specific
    ensures var (n, m) := (GridIndex(i, c.specific, j), GridIndex(|c.towers|, c.specific, 0));
      && n < m <= |t.experts|
      && Values(t.experts, ls, x)[n] == ExpertOut(c, level, Values(inputs, ls, x), ls, i, j)
  {
    assert IsExpertAt(c, level, inputs, t.experts, i, j);
    GridInside(i, |c.towers|, c.specific, j);
    ValuesAt(t.experts, ls, x, GridIndex(i, c.specific, j));
    ExpertValue(c, level, inputs, i, ls, x, j);
  }

  lemma GridInside(i: nat, rows: nat, width: nat, j: nat)
    requires i < rows && j < width
    ensures GridIndex(i, width, j) < GridIndex(rows, width, 0)
  {
    assert (i + 1) * width <= rows * width;
  }

  // ---------- the whole network ----------

  /** The values of the streams after n levels. */
  ghost function StreamValues<V>(c: Config, n: nat, ls: Layers<V>, x: V): (r: seq<V>)
    ensures |r| == |c.towers| + 1
  {
    Values(Streams(c, n), ls, x)
  }

  lemma StreamsStart<V>(c: Config, ls: Layers<V>, x: V)
    ensures forall i :: 0 <= i <= |c.towers| ==> StreamValues(c, 0, ls, x)[i] == x
  {
    forall i | 0 <= i <= |c.towers| ensures StreamValues(c, 0, ls, x)[i] == x {
      ValuesAt(Streams(c, 0), ls, x, i);
    }
  }

  /** Every task's stream of every level, coordinate by coordinate, from the streams of the level before. */
  lemma TaskLevelValue(c: Config, n: nat, i: nat, ls: Layers<Vec>, x: Vec, width: nat, d: nat)
    requires SumsGates(ls, width) && d < width && i < |c.towers|
    ensures var ins := StreamValues(c, n, ls, x);
      At(StreamValues(c, n + 1, ls, x)[i], d)
      == OwnAndShared(GateOut(c, n, ins, ls, i), OwnOuts(c, n, ins, ls, i), SharedOuts(c, n, ins, ls), d)
  {
    var inputs, t := Streams(c, n), Streams(c, n + 1)[i];
    ValuesAt(Streams(c, n + 1), ls, x, i);
    TaskOutIsStream(c, n, inputs, i);
    TaskStreamValue(c, n, inputs, i, t, ls, x, width, d);
  }

  lemma SharedLevelValue(c: Config, n: nat, ls: Layers<Vec>, x: Vec, width: nat, d: nat)
    requires SumsGates(ls, width) && d < width
    ensures var ins := StreamValues(c, n, ls, x);
      At(StreamValues(c, n + 1, ls, x)[|c.towers|], d)
      == GridAndShared(SharedGateOut(c, n, ins, ls), AllOwnOuts(c, n, ins, ls), c.specific,
                       SharedOuts(c, n, ins, ls), d)
  {
    var inputs, t := Streams(c, n), Streams(c, n + 1)[|c.towers|];
    ValuesAt(Streams(c, n + 1), ls, x, |c.towers|);
    SharedOutIsStream(c, n, inputs);
    SharedStreamValue(c, n, inputs, t, ls, x, width, d);
  }

  ghost predicate OneHot(g: Vec, at: nat) {
    forall n: nat :: At(g, n) == if n == at then 1.0 else 0.0
  }

  /** A gate that is fully on one expert passes on that expert's output: its own experts come first. */
  lemma OneHotGate(g: Vec, own: seq<Vec>, shared: seq<Vec>, at: nat, d: nat)
    requires OneHot(g, at) && at < |own| + |shared|
    ensures OwnAndShared(g, own, shared, d) == At(if at < |own| then own[at] else shared[at - |own|], d)
  {
    SumOverOneHot(|own|, Weighted(g, 0, own, d), at);
    SumOverOneHot(|shared|, Weighted(g, |own|, shared, d), if at < |own| then |shared| else at - |own|);
  }

  /** A prediction: the tower's layers in order on the task's last stream, then the one output unit. */
  lemma PredictionValue<V>(c: Config, towerUnits: seq<seq<nat>>, i: nat, ls: Layers<V>, x: V, vs: seq<V>)
    requires i < |c.towers| == |towerUnits|
    requires Through(ls, towerUnits[i], TowerNet(c.towers[i]), vs) && vs[0] == StreamValues(c, c.levels, ls, x)[i]
    ensures Value(Prediction(c, towerUnits, i), ls, x)
         == ls.layer(TowerOutput(c.towers[i]), 1, vs[|towerUnits[i]|])
  {
    ValuesAt(Streams(c, c.levels), ls, x, i);
    StackIsThrough(ls, Streams(c, c.levels)[i], towerUnits[i], TowerNet(c.towers[i]), x, vs, |towerUnits[i]|);
  }
}
