/** The expert wiring of PLE: stacked extraction networks with task-specific and shared experts. The graph the
    program builds is modelled as a term; weights are found by scope name when a term is evaluated. */
module ExpertWiring {
  import opened ScopeNames
  import opened Layout
  import opened Vectors

  datatype Config = Config(towers: seq<string>, specific: nat, shared: nat,
                           expertUnits: seq<nat>, gateUnits: seq<nat>, levels: nat)

  /** At least one task, one expert per gate and one level: otherwise the graph cannot be built. */
  predicate Buildable(c: Config) {
    |c.towers| > 0 && c.specific + c.shared > 0 && c.levels > 0
  }

  /** A node of the graph: the input embedding, a dense layer, or a gated sum of stacked experts. */
  datatype Term =
    | Input
    | Dense(scope: Scope, units: nat, arg: Term)
    | Mix(gate: Term, experts: seq<Term>)

  /** A stack of dense layers under one name. */
  datatype Block =
    | SpecificExpertNet(level: nat, tower: string, expert: nat)
    | SharedExpertNet(level: nat, expert: nat)
    | SpecificGateNet(level: nat, tower: string)
    | SharedGateNet(level: nat)
    | TowerNet(tower: string)

  function LayerScope(b: Block, layer: nat): Scope {
    match b
    case SpecificExpertNet(level, tower, j) => SpecificExpert(level, tower, j, layer)
    case SharedExpertNet(level, k) => SharedExpert(level, k, layer)
    case SpecificGateNet(level, tower) => SpecificGateHidden(level, tower, layer)
    case SharedGateNet(level) => SharedGateHidden(level, layer)
    case TowerNet(tower) => TowerLayer(tower, layer)
  }

  // ---------- what is built ----------

  function Dnn(arg: Term, units: seq<nat>, b: Block, k: nat): Term
    requires k <= |units|
  {
    if k == 0 then arg else Dense(LayerScope(b, k - 1), units[k - 1], Dnn(arg, units, b, k - 1))
  }

  function SpecificNet(c: Config, level: nat, inputs: seq<Term>, i: nat, j: nat): Term
    requires i < |c.towers| < |inputs|
  {
    Dnn(inputs[i], c.expertUnits, SpecificExpertNet(level, c.towers[i], j), |c.expertUnits|)
  }

  function SpecificRow(c: Config, level: nat, inputs: seq<Term>, i: nat): (r: seq<Term>)
    requires i < |c.towers| < |inputs|
    ensures |r| == c.specific
  {
    seq(c.specific, j requires 0 <= j < c.specific => SpecificNet(c, level, inputs, i, j))
  }

  function SpecificRows(c: Config, level: nat, inputs: seq<Term>): (r: seq<seq<Term>>)
    requires |c.towers| < |inputs|
    ensures Rect(r, |c.towers|, c.specific)
  {
    seq(|c.towers|, i requires 0 <= i < |c.towers| => SpecificRow(c, level, inputs, i))
  }

  function SharedNet(c: Config, level: nat, inputs: seq<Term>, k: nat): Term
    requires |inputs| > 0
  {
    Dnn(inputs[|inputs| - 1], c.expertUnits, SharedExpertNet(level, k), |c.expertUnits|)
  }

  function SharedRow(c: Config, level: nat, inputs: seq<Term>): (r: seq<Term>)
    requires |inputs| > 0
    ensures |r| == c.shared
  {
    seq(c.shared, k requires 0 <= k < c.shared => SharedNet(c, level, inputs, k))
  }

  /** A task reads its own experts and the shared ones, weighted by a gate on its own stream. */
  function TaskOut(c: Config, level: nat, inputs: seq<Term>, i: nat): Term
    requires i < |c.towers| < |inputs|
  {
    Mix(Dense(SpecificGate(level, c.towers[i]), c.specific + c.shared,
              Dnn(inputs[i], c.gateUnits, SpecificGateNet(level, c.towers[i]), |c.gateUnits|)),
        SpecificRow(c, level, inputs, i) + SharedRow(c, level, inputs))
  }

  /** The shared stream reads every expert of the level. */
  function SharedOut(c: Config, level: nat, inputs: seq<Term>): Term
    requires |c.towers| < |inputs|
  {
    Mix(Dense(SharedGate(level), |c.towers| * c.specific + c.shared,
              Dnn(inputs[|inputs| - 1], c.gateUnits, SharedGateNet(level), |c.gateUnits|)),
        Flat(SpecificRows(c, level, inputs)) + SharedRow(c, level, inputs))
  }

  function TaskOuts(c: Config, level: nat, inputs: seq<Term>): (r: seq<Term>)
    requires |c.towers| < |inputs|
    ensures |r| == |c.towers|
  {
    seq(|c.towers|, i requires 0 <= i < |c.towers| => TaskOut(c, level, inputs, i))
  }

  /** The streams after n levels, one per task and the shared one last. */
  function Streams(c: Config, n: nat): (r: seq<Term>)
    ensures |r| == |c.towers| + 1
  {
    if n == 0 then seq(|c.towers| + 1, _ => Input)
    else TaskOuts(c, n - 1, Streams(c, n - 1)) + [SharedOut(c, n - 1, Streams(c, n - 1))]
  }

  /** The prediction of task i: its tower's hidden layers over its stream after the last level, and one output. */
  function Prediction(c: Config, towerUnits: seq<seq<nat>>, i: nat): Term
    requires i < |c.towers| == |towerUnits|
  {
    Dense(TowerOutput(c.towers[i]), 1,
          Dnn(Streams(c, c.levels)[i], towerUnits[i], TowerNet(c.towers[i]), |towerUnits[i]|))
  }

  // ---------- place by place ----------

  /** The gated sum of task i at this level: weight j of the gate is for expert j of the task, weight specific + k for
      shared expert k. */
  ghost predicate TaskStream(c: Config, level: nat, inputs: seq<Term>, i: nat, t: Term)
    requires i < |c.towers| && |inputs| == |c.towers| + 1
  {
    && t.Mix? && |t.experts| == c.specific + c.shared
    && t.gate == Dense(SpecificGate(level, c.towers[i]), c.specific + c.shared,
                       Dnn(inputs[i], c.gateUnits, SpecificGateNet(level, c.towers[i]), |c.gateUnits|))
    && (forall j :: 0 <= j < c.specific ==> t.experts[j] == SpecificNet(c, level, inputs, i, j))
    && (forall k :: 0 <= k < c.shared ==> t.experts[c.specific + k] == SharedNet(c, level, inputs, k))
  }

  /** The shared gated sum: weight i * specific + j is for expert j of task i, and the shared experts come last. */
  ghost predicate SharedStream(c: Config, level: nat, inputs: seq<Term>, t: Term)
    requires |inputs| == |c.towers| + 1
  {
    && t.Mix? && |t.experts| == GridIndex(|c.towers|, c.specific, 0) + c.shared
    && t.gate == Dense(SharedGate(level), GridIndex(|c.towers|, c.specific, 0) + c.shared,
                       Dnn(inputs[|c.towers|], c.gateUnits, SharedGateNet(level), |c.gateUnits|))
    && (forall i, j :: 0 <= i < |c.towers| && 0 <= j < c.specific ==> IsExpertAt(c, level, inputs, t.experts, i, j))
    && (forall k :: 0 <= k < c.shared ==>
          t.experts[GridIndex(|c.towers|, c.specific, 0) + k] == SharedNet(c, level, inputs, k))
  }

  ghost predicate IsExpertAt(c: Config, level: nat, inputs: seq<Term>, experts: seq<Term>, i: nat, j: nat)
    requires i < |c.towers| < |inputs|
  {
    var n := GridIndex(i, c.specific, j);
    n < |experts| && experts[n] == SpecificNet(c, level, inputs, i, j)
  }

  lemma TaskOutIsStream(c: Config, level: nat, inputs: seq<Term>, i: nat)
    requires i < |c.towers| && |inputs| == |c.towers| + 1
    ensures TaskStream(c, level, inputs, i, TaskOut(c, level, inputs, i))
  {}

  lemma SharedOutIsStream(c: Config, level: nat, inputs: seq<Term>)
    requires |inputs| == |c.towers| + 1
    ensures SharedStream(c, level, inputs, SharedOut(c, level, inputs))
  {
    var rows, experts := SpecificRows(c, level, inputs), SharedOut(c, level, inputs).experts;
    FlatLength(rows, |c.towers|, c.specific);
    forall i, j | 0 <= i < |c.towers| && 0 <= j < c.specific ensures IsExpertAt(c, level, inputs, experts, i, j) {
      FlatAt(rows, |c.towers|, c.specific, i, j);
      assert rows[i][j] == SpecificNet(c, level, inputs, i, j);
    }
  }

  // ---------- how it is built ----------

  method BuildDnn(arg: Term, units: seq<nat>, b: Block) returns (t: Term)
    ensures t == Dnn(arg, units, b, |units|)
  {
    t := arg;
    for layer := 0 to |units|
      invariant t == Dnn(arg, units, b, layer)
    {
      t := Dense(LayerScope(b, layer), units[layer], t);
    }
  }

  method BuildSpecific(c: Config, level: nat, inputs: seq<Term>) returns (out: seq<Term>)
    requires |inputs| == |c.towers| + 1
    ensures out == Flat(SpecificRows(c, level, inputs))
  {
    ghost var rows := SpecificRows(c, level, inputs);
    out := [];
    for i := 0 to |c.towers|
      invariant out == Flat(rows[..i])
    {
      for j := 0 to c.specific
        invariant out == Flat(rows[..i]) + rows[i][..j]
      {
        var net := BuildDnn(inputs[i], c.expertUnits, SpecificExpertNet(level, c.towers[i], j));
        out := out + [net];
      }
      assert rows[..i + 1][..i] == rows[..i];
    }
    assert rows[..|c.towers|] == rows;
  }

  method BuildShared(c: Config, level: nat, inputs: seq<Term>) returns (out: seq<Term>)
    requires |inputs| == |c.towers| + 1
    ensures out == SharedRow(c, level, inputs)
  {
    out := [];
    for k := 0 to c.shared
      invariant out == SharedRow(c, level, inputs)[..k]
    {
      var net := BuildDnn(inputs[|inputs| - 1], c.expertUnits, SharedExpertNet(level, k));
      out := out + [net];
    }
  }

  /** One extraction network, from flat expert lists that are sliced by index arithmetic. Every stacked gate is
      as wide as its stack of experts. */
  method CgcModel(c: Config, inputs: seq<Term>, level: nat, isLast: bool) returns (outs: seq<Term>)
    requires |inputs| == |c.towers| + 1 && Buildable(c)
    ensures outs == TaskOuts(c, level, inputs) + if isLast then [] else [SharedOut(c, level, inputs)]
    ensures |outs| == |c.towers| + if isLast then 0 else 1
    ensures forall i :: 0 <= i < |c.towers| ==> TaskStream(c, level, inputs, i, outs[i])
    ensures !isLast ==> SharedStream(c, level, inputs, outs[|c.towers|])
  {
    var specific := BuildSpecific(c, level, inputs);
    var shared := BuildShared(c, level, inputs);
    outs := [];
    for i := 0 to |c.towers|
      invariant outs == TaskOuts(c, level, inputs)[..i]
    {
      ReshapeFlat(SpecificRows(c, level, inputs), |c.towers|, c.specific, i);
      var expertNum := c.specific + c.shared;
      var experts := specific[i * c.specific..(i + 1) * c.specific] + shared;
      assert |experts| == expertNum;
      var gateInput := BuildDnn(inputs[i], c.gateUnits, SpecificGateNet(level, c.towers[i]));
      var gateOut := Dense(SpecificGate(level, c.towers[i]), expertNum, gateInput);
      outs := outs + [Mix(gateOut, experts)];
    }
    if !isLast {
      FlatLength(SpecificRows(c, level, inputs), |c.towers|, c.specific);
      var expertNum := |c.towers| * c.specific + c.shared;
      var experts := specific + shared;
      assert |experts| == expertNum;
      var gateInput := BuildDnn(inputs[|inputs| - 1], c.gateUnits, SharedGateNet(level));
      var gateOut := Dense(SharedGate(level), expertNum, gateInput);
      outs := outs + [Mix(gateOut, experts)];
      SharedOutIsStream(c, level, inputs);
    }
    forall i | 0 <= i < |c.towers| ensures TaskStream(c, level, inputs, i, outs[i]) {
      TaskOutIsStream(c, level, inputs, i);
    }
  }

  /** The level loop: every level is called with one stream per task and the shared one. */
  method BuildLevels(c: Config) returns (outputs: seq<Term>)
    requires Buildable(c)
    ensures outputs == Streams(c, c.levels)[..|c.towers|]
  {
    var inputs := seq(|c.towers| + 1, _ => Input);
    outputs := [];
    for i := 0 to c.levels
      invariant inputs == Streams(c, if i < c.levels then i else c.levels - 1)
      invariant i == c.levels ==> outputs == Streams(c, c.levels)[..|c.towers|]
    {
      if i == c.levels - 1 {
        outputs := CgcModel(c, inputs, i, true);
      } else {
        outputs := CgcModel(c, inputs, i, false);
        inputs := outputs;
      }
    }
  }

  /** The tower loop on top of the levels. */
  method BuildTowers(c: Config, towerUnits: seq<seq<nat>>) returns (predictions: seq<Term>)
    requires Buildable(c) && |towerUnits| == |c.towers|
    ensures |predictions| == |c.towers|
    ensures forall i :: 0 <= i < |c.towers| ==> predictions[i] == Prediction(c, towerUnits, i)
  {
    var outputs := BuildLevels(c);
    predictions := [];
    for i := 0 to |c.towers|
      invariant |predictions| == i
      invariant forall k :: 0 <= k < i ==> predictions[k] == Prediction(c, towerUnits, k)
    {
      var hidden := BuildDnn(outputs[i], towerUnits[i], TowerNet(c.towers[i]));
      predictions := predictions + [Dense(TowerOutput(c.towers[i]), 1, hidden)];
    }
  }
}
