/** What the wiring of PLE guarantees: gates fit their stacks, each task's stream reads exactly a known set of
    layers, and, since extraction layers of different scopes have different names, extraction layers outside that set
    cannot interfere. */
module ExpertIsolation {
  import opened ScopeNames
  import opened Layout
  import opened ExpertWiring

  // ---------- gates fit ----------

  predicate GatesFit(t: Term) {
    match t
    case Input => true
    case Dense(_, _, arg) => GatesFit(arg)
    case Mix(gate, experts) =>
      && gate.Dense? && gate.units == |experts| && GatesFit(gate)
      && forall x :: 0 <= x < |experts| ==> GatesFit(experts[x])
  }

  ghost predicate AllFit(ts: seq<Term>) {
    forall x :: 0 <= x < |ts| ==> GatesFit(ts[x])
  }

  lemma {:induction false} DnnFits(arg: Term, units: seq<nat>, b: Block, k: nat)
    requires k <= |units| && GatesFit(arg)
    ensures GatesFit(Dnn(arg, units, b, k))
  {
    if k > 0 {
      DnnFits(arg, units, b, k - 1);
    }
  }

  lemma RowsFit(c: Config, level: nat, inputs: seq<Term>)
    requires |inputs| == |c.towers| + 1 && AllFit(inputs)
    ensures forall i :: 0 <= i < |c.towers| ==> AllFit(SpecificRow(c, level, inputs, i))
    ensures AllFit(SharedRow(c, level, inputs))
  {
    forall i, j | 0 <= i < |c.towers| && 0 <= j < c.specific ensures GatesFit(SpecificNet(c, level, inputs, i, j)) {
      DnnFits(inputs[i], c.expertUnits, SpecificExpertNet(level, c.towers[i], j), |c.expertUnits|);
    }
    forall k | 0 <= k < c.shared ensures GatesFit(SharedNet(c, level, inputs, k)) {
      DnnFits(inputs[|inputs| - 1], c.expertUnits, SharedExpertNet(level, k), |c.expertUnits|);
    }
  }

  lemma TaskOutFits(c: Config, level: nat, inputs: seq<Term>, i: nat)
    requires |inputs| == |c.towers| + 1 && AllFit(inputs) && i < |c.towers|
    ensures GatesFit(TaskOut(c, level, inputs, i))
  {
    RowsFit(c, level, inputs);
    DnnFits(inputs[i], c.gateUnits, SpecificGateNet(level, c.towers[i]), |c.gateUnits|);
  }

  lemma SharedOutFits(c: Config, level: nat, inputs: seq<Term>)
    requires |inputs| == |c.towers| + 1 && AllFit(inputs)
    ensures GatesFit(SharedOut(c, level, inputs))
  {
    RowsFit(c, level, inputs);
    var rows := SpecificRows(c, level, inputs);
    FlatLength(rows, |c.towers|, c.specific);
    forall x | 0 <= x < |Flat(rows)| ensures GatesFit(Flat(rows)[x]) {
      var i, j := FlatFrom(rows, |c.towers|, c.specific, x);
      assert GatesFit(SpecificRow(c, level, inputs, i)[j]);
    }
    DnnFits(inputs[|inputs| - 1], c.gateUnits, SharedGateNet(level), |c.gateUnits|);
  }

  /** At every level of every model, each gate has exactly one weight per stacked expert. */
  lemma {:induction false} StreamsFit(c: Config, n: nat)
    ensures AllFit(Streams(c, n))
  {
    if n > 0 {
      StreamsFit(c, n - 1);
      var inputs := Streams(c, n - 1);
      var outs := TaskOuts(c, n - 1, inputs);
      forall i | 0 <= i < |outs| ensures GatesFit(outs[i]) {
        TaskOutFits(c, n - 1, inputs, i);
      }
      SharedOutFits(c, n - 1, inputs);
    }
  }

  // ---------- what a stream reads ----------

  /** The layer takes part in computing the term. */
  ghost predicate Occurs(s: Scope, t: Term) {
    match t
    case Input => false
    case Dense(scope, _, arg) => s == scope || Occurs(s, arg)
    case Mix(gate, experts) => Occurs(s, gate) || OccursIn(s, experts)
  }

  ghost predicate OccursIn(s: Scope, ts: seq<Term>) {
    exists x :: 0 <= x < |ts| && Occurs(s, ts[x])
  }

  ghost predicate InBlock(s: Scope, b: Block, depth: nat) {
    exists layer: nat :: layer < depth && s == LayerScope(b, layer)
  }

  lemma {:induction false} DnnOccurs(s: Scope, arg: Term, units: seq<nat>, b: Block, k: nat)
    requires k <= |units|
    ensures Occurs(s, Dnn(arg, units, b, k)) <==> Occurs(s, arg) || InBlock(s, b, k)
  {
    if k > 0 {
      DnnOccurs(s, arg, units, b, k - 1);
      assert InBlock(s, b, k) <==> InBlock(s, b, k - 1) || s == LayerScope(b, k - 1);
    }
  }

  ghost predicate IsTower(c: Config, t: string) {
    exists k :: 0 <= k < |c.towers| && c.towers[k] == t
  }

  /** The layers behind the stream of task i after n levels. Its own layers of all levels; shared experts of all
      levels; but other tasks' experts only from a level below the last, and other tasks' gates only from two
      levels below it: both arrive through a shared stream, and only if there are shared experts to read it. */
  ghost predicate ReadsTask(c: Config, n: nat, i: nat, s: Scope)
    requires i < |c.towers|
  {
    match s
    case SpecificExpert(l, t, j, layer) =>
      j < c.specific && layer < |c.expertUnits| &&
      ((t == c.towers[i] && l < n) || (IsTower(c, t) && l + 1 < n && c.shared > 0))
    case SharedExpert(l, k, layer) => l < n && k < c.shared && layer < |c.expertUnits|
    case SpecificGateHidden(l, t, layer) =>
      layer < |c.gateUnits| && ReadsGate(c, n, i, l, t)
    case SpecificGate(l, t) => ReadsGate(c, n, i, l, t)
    case SharedGateHidden(l, layer) => layer < |c.gateUnits| && l + 1 < n && c.shared > 0
    case SharedGate(l) => l + 1 < n && c.shared > 0
    case _ => false
  }

  ghost predicate ReadsGate(c: Config, n: nat, i: nat, l: nat, t: string)
    requires i < |c.towers|
  {
    (t == c.towers[i] && l < n) || (IsTower(c, t) && l + 2 < n && c.shared > 0 && c.specific > 0)
  }

  /** The layers behind the shared stream after n levels. */
  ghost predicate ReadsShared(c: Config, n: nat, s: Scope) {
    match s
    case SpecificExpert(l, t, j, layer) => j < c.specific && layer < |c.expertUnits| && IsTower(c, t) && l < n
    case SharedExpert(l, k, layer) => l < n && k < c.shared && layer < |c.expertUnits|
    case SpecificGateHidden(l, t, layer) => layer < |c.gateUnits| && IsTower(c, t) && l + 1 < n && c.specific > 0
    case SpecificGate(l, t) => IsTower(c, t) && l + 1 < n && c.specific > 0
    case SharedGateHidden(l, layer) => layer < |c.gateUnits| && l < n
    case SharedGate(l) => l < n
    case _ => false
  }

  // One level: the layers of an output in terms of the layers of its inputs.

  lemma SpecificRowOccurs(c: Config, level: nat, inputs: seq<Term>, i: nat, s: Scope)
    requires i < |c.towers| < |inputs|
    ensures OccursIn(s, SpecificRow(c, level, inputs, i)) <==>
      || (c.specific > 0 && Occurs(s, inputs[i]))
      || (s.SpecificExpert? && s.level == level && s.tower == c.towers[i]
          && s.expert < c.specific && s.layer < |c.expertUnits|)
  {
    var row := SpecificRow(c, level, inputs, i);
    forall j: nat | j < c.specific
      ensures Occurs(s, row[j]) <==>
        Occurs(s, inputs[i]) || InBlock(s, SpecificExpertNet(level, c.towers[i], j), |c.expertUnits|)
    {
      DnnOccurs(s, inputs[i], c.expertUnits, SpecificExpertNet(level, c.towers[i], j), |c.expertUnits|);
    }
    if c.specific > 0 && Occurs(s, inputs[i]) {
      assert Occurs(s, row[0]);
    }
    if s.SpecificExpert? && s.expert < c.specific {
      assert InBlock(s, SpecificExpertNet(level, c.towers[i], s.expert), |c.expertUnits|) ==> Occurs(s, row[s.expert]);
      if s.level == level && s.tower == c.towers[i] && s.layer < |c.expertUnits| {
        assert s == LayerScope(SpecificExpertNet(level, c.towers[i], s.expert), s.layer);
      }
    }
  }

  lemma SharedRowOccurs(c: Config, level: nat, inputs: seq<Term>, s: Scope)
    requires |inputs| > 0
    ensures OccursIn(s, SharedRow(c, level, inputs)) <==>
      || (c.shared > 0 && Occurs(s, inputs[|inputs| - 1]))
      || (s.SharedExpert? && s.level == level && s.expert < c.shared && s.layer < |c.expertUnits|)
  {
    var row, last := SharedRow(c, level, inputs), inputs[|inputs| - 1];
    forall k: nat | k < c.shared
      ensures Occurs(s, row[k]) <==> Occurs(s, last) || InBlock(s, SharedExpertNet(level, k), |c.expertUnits|)
    {
      DnnOccurs(s, last, c.expertUnits, SharedExpertNet(level, k), |c.expertUnits|);
    }
    if c.shared > 0 && Occurs(s, last) {
      assert Occurs(s, row[0]);
    }
    if s.SharedExpert? && s.expert < c.shared {
      assert InBlock(s, SharedExpertNet(level, s.expert), |c.expertUnits|) ==> Occurs(s, row[s.expert]);
      if s.level == level && s.layer < |c.expertUnits| {
        assert s == LayerScope(SharedExpertNet(level, s.expert), s.layer);
      }
    }
  }

  lemma OccursInConcat(s: Scope, a: seq<Term>, b: seq<Term>)
    ensures OccursIn(s, a + b) <==> OccursIn(s, a) || OccursIn(s, b)
  {
    if OccursIn(s, a) {
      var x :| 0 <= x < |a| && Occurs(s, a[x]);
      assert (a + b)[x] == a[x];
    }
    if OccursIn(s, b) {
      var x :| 0 <= x < |b| && Occurs(s, b[x]);
      assert (a + b)[|a| + x] == b[x];
    }
  }

  lemma {:induction false} OccursInFlat(s: Scope, rows: seq<seq<Term>>)
    ensures OccursIn(s, Flat(rows)) <==> exists i :: 0 <= i < |rows| && OccursIn(s, rows[i])
  {
    if rows != [] {
      var n := |rows| - 1;
      OccursInFlat(s, rows[..n]);
      OccursInConcat(s, Flat(rows[..n]), rows[n]);
      assert forall i :: 0 <= i < n ==> rows[..n][i] == rows[i];
    }
  }

  lemma TaskOutOccurs(c: Config, level: nat, inputs: seq<Term>, i: nat, s: Scope)
    requires i < |c.towers| && |inputs| == |c.towers| + 1
    ensures Occurs(s, TaskOut(c, level, inputs, i)) <==>
      || Occurs(s, inputs[i])
      || (c.shared > 0 && Occurs(s, inputs[|c.towers|]))
      || s == SpecificGate(level, c.towers[i])
      || InBlock(s, SpecificGateNet(level, c.towers[i]), |c.gateUnits|)
      || (s.SpecificExpert? && s.level == level && s.tower == c.towers[i]
          && s.expert < c.specific && s.layer < |c.expertUnits|)
      || (s.SharedExpert? && s.level == level && s.expert < c.shared && s.layer < |c.expertUnits|)
  {
    SpecificRowOccurs(c, level, inputs, i, s);
    SharedRowOccurs(c, level, inputs, s);
    OccursInConcat(s, SpecificRow(c, level, inputs, i), SharedRow(c, level, inputs));
    DnnOccurs(s, inputs[i], c.gateUnits, SpecificGateNet(level, c.towers[i]), |c.gateUnits|);
  }

  lemma SharedOutOccurs(c: Config, level: nat, inputs: seq<Term>, s: Scope)
    requires |inputs| == |c.towers| + 1
    ensures Occurs(s, SharedOut(c, level, inputs)) <==>
      || (c.specific > 0 && OccursIn(s, inputs[..|c.towers|]))
      || Occurs(s, inputs[|c.towers|])
      || s == SharedGate(level)
      || InBlock(s, SharedGateNet(level), |c.gateUnits|)
      || (s.SpecificExpert? && s.level == level && IsTower(c, s.tower)
          && s.expert < c.specific && s.layer < |c.expertUnits|)
      || (s.SharedExpert? && s.level == level && s.expert < c.shared && s.layer < |c.expertUnits|)
  {
    SharedRowOccurs(c, level, inputs, s);
    AllRowsOccur(c, level, inputs, s);
    OccursInConcat(s, Flat(SpecificRows(c, level, inputs)), SharedRow(c, level, inputs));
    DnnOccurs(s, inputs[|c.towers|], c.gateUnits, SharedGateNet(level), |c.gateUnits|);
  }

  lemma AllRowsOccur(c: Config, level: nat, inputs: seq<Term>, s: Scope)
    requires |inputs| == |c.towers| + 1
    ensures OccursIn(s, Flat(SpecificRows(c, level, inputs))) <==>
      || (c.specific > 0 && OccursIn(s, inputs[..|c.towers|]))
      || (s.SpecificExpert? && s.level == level && IsTower(c, s.tower)
          && s.expert < c.specific && s.layer < |c.expertUnits|)
  {
    var rows, tasks := SpecificRows(c, level, inputs), inputs[..|c.towers|];
    OccursInFlat(s, rows);
    forall i | 0 <= i < |c.towers| ensures rows[i] == SpecificRow(c, level, inputs, i)
      && (OccursIn(s, rows[i]) <==>
          || (c.specific > 0 && Occurs(s, tasks[i]))
          || (s.SpecificExpert? && s.level == level && s.tower == c.towers[i]
              && s.expert < c.specific && s.layer < |c.expertUnits|))
    {
      SpecificRowOccurs(c, level, inputs, i, s);
    }
  }

  ghost predicate TasksKnown(c: Config, n: nat, s: Scope) {
    forall i :: 0 <= i < |c.towers| ==> (Occurs(s, Streams(c, n)[i]) <==> ReadsTask(c, n, i, s))
  }

  ghost predicate SharedKnown(c: Config, n: nat, s: Scope) {
    Occurs(s, Streams(c, n)[|c.towers|]) <==> ReadsShared(c, n, s)
  }

  ghost predicate SomeTaskReads(c: Config, n: nat, s: Scope) {
    exists i :: 0 <= i < |c.towers| && ReadsTask(c, n, i, s)
  }

  lemma InputReadsNothing(c: Config, s: Scope)
    ensures TasksKnown(c, 0, s) && SharedKnown(c, 0, s)
  {
    assert forall i :: 0 <= i <= |c.towers| ==> Streams(c, 0)[i] == Input;
  }

  /** The exact dependencies of every stream of every model, level by level. */
  lemma StreamDependencies(c: Config, n: nat, s: Scope)
    ensures forall i :: 0 <= i < |c.towers| ==> (Occurs(s, Streams(c, n)[i]) <==> ReadsTask(c, n, i, s))
    ensures Occurs(s, Streams(c, n)[|c.towers|]) <==> ReadsShared(c, n, s)
  {
    InputReadsNothing(c, s);
    for m := 0 to n
      invariant TasksKnown(c, m, s) && SharedKnown(c, m, s)
    {
      TaskStreamStep(c, m, s);
      SharedStreamStep(c, m, s);
    }
  }

  lemma TaskStreamStep(c: Config, m: nat, s: Scope)
    requires TasksKnown(c, m, s) && SharedKnown(c, m, s)
    ensures TasksKnown(c, m + 1, s)
  {
    var outs := Streams(c, m + 1);
    forall i | 0 <= i < |c.towers| ensures Occurs(s, outs[i]) <==> ReadsTask(c, m + 1, i, s) {
      TaskOutOccurs(c, m, Streams(c, m), i, s);
      TaskStep(c, m, i, s);
    }
  }

  lemma SharedStreamStep(c: Config, m: nat, s: Scope)
    requires TasksKnown(c, m, s) && SharedKnown(c, m, s)
    ensures SharedKnown(c, m + 1, s)
  {
    SharedOutOccurs(c, m, Streams(c, m), s);
    SharedStep(c, m, s);
    OccursInTasks(c, m, s);
  }

  lemma OccursInTasks(c: Config, n: nat, s: Scope)
    requires TasksKnown(c, n, s)
    ensures OccursIn(s, Streams(c, n)[..|c.towers|]) <==> SomeTaskReads(c, n, s)
  {
    var tasks := Streams(c, n)[..|c.towers|];
    assert forall i :: 0 <= i < |c.towers| ==> tasks[i] == Streams(c, n)[i];
    if i :| 0 <= i < |c.towers| && ReadsTask(c, n, i, s) {
      assert Occurs(s, tasks[i]);
    }
  }

  lemma InBlockOf(s: Scope, b: Block, depth: nat)
    ensures InBlock(s, b, depth) <==>
      match b
      case SpecificExpertNet(l, t, j) =>
        s.SpecificExpert? && s.level == l && s.tower == t && s.expert == j && s.layer < depth
      case SharedExpertNet(l, k) => s.SharedExpert? && s.level == l && s.expert == k && s.layer < depth
      case SpecificGateNet(l, t) => s.SpecificGateHidden? && s.level == l && s.tower == t && s.layer < depth
      case SharedGateNet(l) => s.SharedGateHidden? && s.level == l && s.layer < depth
      case TowerNet(t) => s.TowerLayer? && s.tower == t && s.layer < depth
  {
    if !s.SpecificGate? && !s.SharedGate? && !s.TowerOutput? && s == LayerScope(b, s.layer) && s.layer < depth {
      assert InBlock(s, b, depth);
    }
  }

  lemma TaskStep(c: Config, m: nat, i: nat, s: Scope)
    requires i < |c.towers|
    ensures ReadsTask(c, m + 1, i, s) <==>
      || ReadsTask(c, m, i, s)
      || (c.shared > 0 && ReadsShared(c, m, s))
      || s == SpecificGate(m, c.towers[i])
      || InBlock(s, SpecificGateNet(m, c.towers[i]), |c.gateUnits|)
      || (s.SpecificExpert? && s.level == m && s.tower == c.towers[i]
          && s.expert < c.specific && s.layer < |c.expertUnits|)
      || (s.SharedExpert? && s.level == m && s.expert < c.shared && s.layer < |c.expertUnits|)
  {
    InBlockOf(s, SpecificGateNet(m, c.towers[i]), |c.gateUnits|);
  }

  lemma SharedStep(c: Config, m: nat, s: Scope)
    ensures ReadsShared(c, m + 1, s) <==>
      || (c.specific > 0 && SomeTaskReads(c, m, s))
      || ReadsShared(c, m, s)
      || s == SharedGate(m)
      || InBlock(s, SharedGateNet(m), |c.gateUnits|)
      || (s.SpecificExpert? && s.level == m && IsTower(c, s.tower)
          && s.expert < c.specific && s.layer < |c.expertUnits|)
      || (s.SharedExpert? && s.level == m && s.expert < c.shared && s.layer < |c.expertUnits|)
  {
    InBlockOf(s, SharedGateNet(m), |c.gateUnits|);
    if SomeTaskReads(c, m, s) && (s.SpecificExpert? || s.SpecificGateHidden? || s.SpecificGate?) {
      var i :| 0 <= i < |c.towers| && ReadsTask(c, m, i, s);
      assert s.tower == c.towers[i] ==> IsTower(c, s.tower);
    }
    if (s.SpecificGateHidden? || s.SpecificGate?) && IsTower(c, s.tower) && s.level < m {
      var k :| 0 <= k < |c.towers| && c.towers[k] == s.tower;
      assert ReadsGate(c, m, k, s.level, s.tower);
      assert ReadsTask(c, m, k, s) || (s.SpecificGateHidden? && s.layer >= |c.gateUnits|);
    }
  }

  // ---------- non-interference ----------

  /** Trained weights, found by the full scope name; the activation of each layer and the gated sum are fixed. */
  datatype Net<!V> = Net(dense: (string, nat, V) -> V, act: (Scope, V) -> V, mix: (V, seq<V>) -> V)

  /** Two networks that differ at most in their weights. */
  ghost predicate SameLayout<V>(a: Net<V>, b: Net<V>) {
    a.act == b.act && a.mix == b.mix
  }

  ghost function Eval<V>(t: Term, net: Net<V>, x: V): V
    decreases t
  {
    match t
    case Input => x
    case Dense(s, units, arg) => net.act(s, net.dense(Path(s), units, Eval(arg, net, x)))
    case Mix(gate, experts) => net.mix(Eval(gate, net, x), EvalAll(experts, net, x))
  }

  ghost function EvalAll<V>(ts: seq<Term>, net: Net<V>, x: V): (r: seq<V>)
    ensures |r| == |ts|
    decreases ts
  {
    if ts == [] then [] else [Eval(ts[0], net, x)] + EvalAll(ts[1..], net, x)
  }

  ghost predicate SameAt<V(!new)>(p: string, a: Net<V>, b: Net<V>) {
    forall units: nat, v: V :: a.dense(p, units, v) == b.dense(p, units, v)
  }

  lemma {:induction false} EvalDependsOnOccurring<V(!new)>(t: Term, a: Net<V>, b: Net<V>, x: V)
    requires SameLayout(a, b)
    requires forall s :: Occurs(s, t) ==> SameAt(Path(s), a, b)
    ensures Eval(t, a, x) == Eval(t, b, x)
    decreases t
  {
    match t
    case Input =>
    case Dense(s, units, arg) =>
      EvalDependsOnOccurring(arg, a, b, x);
      assert SameAt(Path(s), a, b);
    case Mix(gate, experts) =>
      EvalDependsOnOccurring(gate, a, b, x);
      EvalAllDependsOnOccurring(experts, a, b, x);
  }

  lemma {:induction false} EvalAllDependsOnOccurring<V(!new)>(ts: seq<Term>, a: Net<V>, b: Net<V>, x: V)
    requires SameLayout(a, b)
    requires forall s :: OccursIn(s, ts) ==> SameAt(Path(s), a, b)
    ensures EvalAll(ts, a, x) == EvalAll(ts, b, x)
    decreases ts
  {
    if ts != [] {
      assert ts == [ts[0]] + ts[1..];
      forall s | Occurs(s, ts[0]) ensures SameAt(Path(s), a, b) {
        assert OccursIn(s, ts);
      }
      forall s | OccursIn(s, ts[1..]) ensures SameAt(Path(s), a, b) {
        OccursInConcat(s, [ts[0]], ts[1..]);
      }
      EvalDependsOnOccurring(ts[0], a, b, x);
      EvalAllDependsOnOccurring(ts[1..], a, b, x);
    }
  }

  /** An extraction layer that the stream of task i does not read. */
  ghost predicate Foreign(c: Config, i: nat, s: Scope)
    requires i < |c.towers|
  {
    Extraction(s) && !ReadsTask(c, c.levels, i, s)
  }

  /** Retraining extraction layers that task i does not read, with whatever weights, leaves its stream unchanged on
      every input: extraction layers of different scopes have different names, so the change cannot leak through a
      reused scope. */
  lemma NonInterference<V(!new)>(c: Config, i: nat, a: Net<V>, b: Net<V>, x: V)
    requires i < |c.towers| && SameLayout(a, b)
    requires forall p: string :: !SameAt(p, a, b) ==> exists s: Scope :: Foreign(c, i, s) && Path(s) == p
    ensures Eval(Streams(c, c.levels)[i], a, x) == Eval(Streams(c, c.levels)[i], b, x)
  {
    var t := Streams(c, c.levels)[i];
    forall s | Occurs(s, t) ensures SameAt(Path(s), a, b) {
      StreamDependencies(c, c.levels, s);
      if !SameAt(Path(s), a, b) {
        var f: Scope :| Foreign(c, i, f) && Path(f) == Path(s);
        assert f != s;
        ExtractionNamesDistinct(f, s);
      }
    }
    EvalDependsOnOccurring(t, a, b, x);
  }
}
