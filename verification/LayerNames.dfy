/** Which PLE models are free of name collisions. Layers are told apart by their place in the model, not by their
    names, so two layers that the program builds separately but names alike are two slots with one path. They share
    their weights if their shapes agree; otherwise the second one is refused. */
module LayerNames {
  import opened ScopeNames
  import opened Layout
  import opened ExpertWiring
  import opened ExpertIsolation

  /** A model: its wiring, the width of the input embedding and the hidden units of each tower. */
  datatype Model = Model(c: Config, inputWidth: nat, towerUnits: seq<seq<nat>>)

  predicate WellFormed(m: Model) {
    |m.towerUnits| == |m.c.towers|
  }

  /** A layer by its place: tasks are numbers here. */
  datatype Slot =
    | ExpertSlot(level: nat, task: nat, expert: nat, layer: nat)
    | SharedExpertSlot(level: nat, expert: nat, layer: nat)
    | GateHiddenSlot(level: nat, task: nat, layer: nat)
    | GateSlot(level: nat, task: nat)
    | SharedGateHiddenSlot(level: nat, layer: nat)
    | SharedGateSlot(level: nat)
    | TowerSlot(task: nat, layer: nat)
    | OutputSlot(task: nat)

  /** The layers the program builds; the last level has no shared gate. */
  predicate Built(m: Model, s: Slot)
    requires WellFormed(m)
  {
    match s
    case ExpertSlot(level, task, j, layer) =>
      level < m.c.levels && task < |m.c.towers| && j < m.c.specific && layer < |m.c.expertUnits|
    case SharedExpertSlot(level, k, layer) => level < m.c.levels && k < m.c.shared && layer < |m.c.expertUnits|
    case GateHiddenSlot(level, task, layer) =>
      level < m.c.levels && task < |m.c.towers| && layer < |m.c.gateUnits|
    case GateSlot(level, task) => level < m.c.levels && task < |m.c.towers|
    case SharedGateHiddenSlot(level, layer) => level + 1 < m.c.levels && layer < |m.c.gateUnits|
    case SharedGateSlot(level) => level + 1 < m.c.levels
    case TowerSlot(task, layer) => task < |m.c.towers| && layer < |m.towerUnits[task]|
    case OutputSlot(task) => task < |m.c.towers|
  }

  function ScopeOf(m: Model, s: Slot): Scope
    requires WellFormed(m) && Built(m, s)
  {
    match s
    case ExpertSlot(level, task, j, layer) => SpecificExpert(level, m.c.towers[task], j, layer)
    case SharedExpertSlot(level, k, layer) => SharedExpert(level, k, layer)
    case GateHiddenSlot(level, task, layer) => SpecificGateHidden(level, m.c.towers[task], layer)
    case GateSlot(level, task) => SpecificGate(level, m.c.towers[task])
    case SharedGateHiddenSlot(level, layer) => SharedGateHidden(level, layer)
    case SharedGateSlot(level) => SharedGate(level)
    case TowerSlot(task, layer) => TowerLayer(m.c.towers[task], layer)
    case OutputSlot(task) => TowerOutput(m.c.towers[task])
  }

  function SlotPath(m: Model, s: Slot): string
    requires WellFormed(m) && Built(m, s)
  {
    Path(ScopeOf(m, s))
  }

  /** No two layers of the model share a name. */
  ghost predicate NoSharing(m: Model)
    requires WellFormed(m)
  {
    forall a, b :: Built(m, a) && Built(m, b) && a != b ==> SlotPath(m, a) != SlotPath(m, b)
  }

  /** Some built layer has this scope. */
  ghost predicate HasSlot(m: Model, e: Scope)
    requires WellFormed(m)
  {
    exists s :: Built(m, s) && ScopeOf(m, s) == e
  }

  /** The new layers that level's call puts into its outputs: a shared output only before the last level. */
  ghost predicate WiredAt(m: Model, level: nat, e: Scope) {
    || OccursIn(e, Streams(m.c, level + 1)[..|m.c.towers|])
    || (level + 1 < m.c.levels && Occurs(e, Streams(m.c, level + 1)[|m.c.towers|]))
  }

  ghost predicate ReadAt(m: Model, level: nat, e: Scope) {
    SomeTaskReads(m.c, level + 1, e) || (level + 1 < m.c.levels && ReadsShared(m.c, level + 1, e))
  }

  lemma WiredIsRead(m: Model, level: nat, e: Scope)
    requires Buildable(m.c) && Extraction(e)
    ensures WiredAt(m, level, e) <==> ReadAt(m, level, e)
  {
    StreamDependencies(m.c, level + 1, e);
    OccursInTasks(m.c, level + 1, e);
  }

  /** The slots are the layers of the graph: exactly their scopes appear in what their level builds. */
  lemma BuiltIsWired(m: Model, e: Scope)
    requires WellFormed(m) && Buildable(m.c) && Extraction(e) && e.level < m.c.levels
    ensures HasSlot(m, e) <==> WiredAt(m, e.level, e)
  {
    WiredIsRead(m, e.level, e);
    if HasSlot(m, e) {
      var s :| Built(m, s) && ScopeOf(m, s) == e;
      SlotIsRead(m, s);
    }
    if SomeTaskReads(m.c, e.level + 1, e) {
      var i :| 0 <= i < |m.c.towers| && ReadsTask(m.c, e.level + 1, i, e);
      ReadHasSlot(m, i, e);
    } else if e.level + 1 < m.c.levels && ReadsShared(m.c, e.level + 1, e) {
      SharedReadHasSlot(m, e);
    }
  }

  lemma SlotIsRead(m: Model, s: Slot)
    requires WellFormed(m) && Buildable(m.c) && Built(m, s) && Extraction(ScopeOf(m, s))
    ensures var e := ScopeOf(m, s); ReadAt(m, e.level, e)
  {
    var e := ScopeOf(m, s);
    if s.ExpertSlot? || s.GateHiddenSlot? || s.GateSlot? {
      assert ReadsTask(m.c, e.level + 1, s.task, e);
    } else if s.SharedExpertSlot? {
      assert ReadsTask(m.c, e.level + 1, 0, e);
    }
  }

  lemma SlotFor(m: Model, s: Slot, e: Scope)
    requires WellFormed(m) && Built(m, s) && ScopeOf(m, s) == e
    ensures HasSlot(m, e)
  {}

  lemma ReadHasSlot(m: Model, i: nat, e: Scope)
    requires WellFormed(m) && Extraction(e) && e.level < m.c.levels && i < |m.c.towers|
    requires ReadsTask(m.c, e.level + 1, i, e)
    ensures HasSlot(m, e)
  {
    match e
    case SpecificExpert(level, _, j, layer) => SlotFor(m, ExpertSlot(level, i, j, layer), e);
    case SharedExpert(level, k, layer) => SlotFor(m, SharedExpertSlot(level, k, layer), e);
    case SpecificGateHidden(level, _, layer) => SlotFor(m, GateHiddenSlot(level, i, layer), e);
    case SpecificGate(level, _) => SlotFor(m, GateSlot(level, i), e);
    case _ =>
  }

  lemma SharedReadHasSlot(m: Model, e: Scope)
    requires WellFormed(m) && Extraction(e) && e.level + 1 < m.c.levels && ReadsShared(m.c, e.level + 1, e)
    ensures HasSlot(m, e)
  {
    match e
    case SpecificExpert(level, t, j, layer) =>
      var k :| 0 <= k < |m.c.towers| && m.c.towers[k] == t;
      SlotFor(m, ExpertSlot(level, k, j, layer), e);
    case SharedExpert(level, k, layer) => SlotFor(m, SharedExpertSlot(level, k, layer), e);
    case SharedGateHidden(level, layer) => SlotFor(m, SharedGateHiddenSlot(level, layer), e);
    case SharedGate(level) => SlotFor(m, SharedGateSlot(level), e);
    case _ =>
  }

  // ---------- the condition, on the tower names and the sizes alone ----------

  ghost predicate TowersDistinct(m: Model) {
    forall i, k :: 0 <= i < k < |m.c.towers| ==> m.c.towers[i] != m.c.towers[k]
  }

  /** A layer of tower i has the name of a layer of task k at this level. */
  ghost predicate TowerClash(m: Model, i: nat, k: nat, level: nat)
    requires WellFormed(m) && i < |m.c.towers| && k < |m.c.towers|
  {
    var t, u := m.c.towers[i], m.c.towers[k];
    || (|m.towerUnits[i]| > 0 && |m.c.gateUnits| > 0 && GateClash(t, u, level))
    || GateOutputClash(t, u, level)
    || (exists layer: nat :: layer < |m.towerUnits[i]| && GateLayerClash(t, u, level, layer))
    || (|m.towerUnits[i]| > 0 && |m.c.expertUnits| > 0
        && exists j: nat :: j < m.c.specific && ExpertClash(t, u, level, j))
  }

  ghost predicate NamesClear(m: Model)
    requires WellFormed(m)
  {
    && TowersDistinct(m)
    && forall i: nat, k: nat, level: nat ::
         i < |m.c.towers| && k < |m.c.towers| && level < m.c.levels ==> !TowerClash(m, i, k, level)
  }

  // ---------- clear names suffice ----------

  lemma ScopeTellsSlot(m: Model, a: Slot, b: Slot)
    requires WellFormed(m) && TowersDistinct(m) && Built(m, a) && Built(m, b) && ScopeOf(m, a) == ScopeOf(m, b)
    ensures a == b
  {}

  lemma MeetingSlotsClash(m: Model, s: Slot, e: Slot)
    requires WellFormed(m) && Built(m, s) && Built(m, e) && SlotPath(m, s) == SlotPath(m, e)
    requires !Extraction(ScopeOf(m, s)) && Extraction(ScopeOf(m, e))
    ensures !NamesClear(m)
  {
    TowerMeetsIff(ScopeOf(m, s), ScopeOf(m, e));
    assert e.GateHiddenSlot? || e.GateSlot? || e.ExpertSlot?;
    assert TowerClash(m, s.task, e.task, e.level);
  }

  lemma ClearNamesDontShare(m: Model, a: Slot, b: Slot)
    requires WellFormed(m) && NamesClear(m) && Built(m, a) && Built(m, b) && a != b
    ensures SlotPath(m, a) != SlotPath(m, b)
  {
    var s, t := ScopeOf(m, a), ScopeOf(m, b);
    assert s != t by {
      if s == t {
        ScopeTellsSlot(m, a, b);
      }
    }
    if Extraction(s) && Extraction(t) {
      ExtractionNamesDistinct(s, t);
    } else if !Extraction(s) && !Extraction(t) {
      TowerNamesDistinct(s, t);
    } else if SlotPath(m, a) == SlotPath(m, b) {
      MeetingSlotsClash(m, if Extraction(s) then b else a, if Extraction(s) then a else b);
    }
  }

  // ---------- and are needed ----------

  lemma EqualTowersShare(m: Model, i: nat, k: nat)
    requires WellFormed(m) && i < k < |m.c.towers| && m.c.towers[i] == m.c.towers[k]
    ensures !NoSharing(m)
  {
    var a, b := OutputSlot(i), OutputSlot(k);
    assert Built(m, a) && Built(m, b) && SlotPath(m, a) == SlotPath(m, b);
  }

  /** A layer of tower i and an extraction layer of task k at this level, under one name. */
  ghost predicate Collide(m: Model, i: nat, k: nat, level: nat, s: Slot, e: Slot)
    requires WellFormed(m)
  {
    && Built(m, s) && (s.TowerSlot? || s.OutputSlot?) && s.task == i
    && Built(m, e) && (e.GateHiddenSlot? || e.GateSlot? || e.ExpertSlot?) && e.task == k && e.level == level
    && SlotPath(m, s) == SlotPath(m, e)
  }

  lemma ClashCollides(m: Model, i: nat, k: nat, level: nat, s: Slot, e: Slot)
    requires WellFormed(m) && Built(m, s) && Built(m, e)
    requires (s.TowerSlot? || s.OutputSlot?) && s.task == i
    requires (e.GateHiddenSlot? || e.GateSlot? || e.ExpertSlot?) && e.task == k && e.level == level
    requires Clash(ScopeOf(m, s), ScopeOf(m, e))
    ensures Collide(m, i, k, level, s, e)
  {
    TowerMeetsIff(ScopeOf(m, s), ScopeOf(m, e));
  }

  lemma ClashingTowersCollide(m: Model, i: nat, k: nat, level: nat) returns (s: Slot, e: Slot)
    requires WellFormed(m) && i < |m.c.towers| && k < |m.c.towers| && level < m.c.levels
    requires TowerClash(m, i, k, level)
    ensures Collide(m, i, k, level, s, e)
  {
    var t, u := m.c.towers[i], m.c.towers[k];
    if |m.towerUnits[i]| > 0 && |m.c.gateUnits| > 0 && GateClash(t, u, level) {
      s, e := TowerSlot(i, 0), GateHiddenSlot(level, k, 0);
    } else if GateOutputClash(t, u, level) {
      s, e := OutputSlot(i), GateSlot(level, k);
    } else if layer: nat :| layer < |m.towerUnits[i]| && GateLayerClash(t, u, level, layer) {
      s, e := TowerSlot(i, layer), GateSlot(level, k);
    } else {
      var j: nat :| j < m.c.specific && ExpertClash(t, u, level, j);
      s, e := TowerSlot(i, 0), ExpertSlot(level, k, j, 0);
    }
    ClashCollides(m, i, k, level, s, e);
  }

  /** No two layers of a model share a name if and only if its tower names are pairwise distinct and no tower clashes
      with a task of the same model. */
  lemma NoSharingIff(m: Model)
    requires WellFormed(m)
    ensures NoSharing(m) <==> NamesClear(m)
  {
    if NamesClear(m) {
      forall a, b | Built(m, a) && Built(m, b) && a != b ensures SlotPath(m, a) != SlotPath(m, b) {
        ClearNamesDontShare(m, a, b);
      }
    } else if !TowersDistinct(m) {
      var i, k :| 0 <= i < k < |m.c.towers| && m.c.towers[i] == m.c.towers[k];
      EqualTowersShare(m, i, k);
    } else {
      var i: nat, k: nat, level: nat :|
        i < |m.c.towers| && k < |m.c.towers| && level < m.c.levels && TowerClash(m, i, k, level);
      var s, e := ClashingTowersCollide(m, i, k, level);
      assert s != e;
    }
  }

  // ---------- particular models ----------

  /** Distinct tower names without a slash are always clear. */
  lemma SlashFreeTowersAreClear(m: Model)
    requires WellFormed(m) && TowersDistinct(m)
    requires forall i :: 0 <= i < |m.c.towers| ==> '/' !in m.c.towers[i]
    ensures NoSharing(m)
  {
    forall i: nat, k: nat, level: nat | i < |m.c.towers| && k < |m.c.towers| && level < m.c.levels
      ensures !TowerClash(m, i, k, level)
    {
      if LevelPath(level) <= m.c.towers[i] {
        LevelPathHasSlash(level, m.c.towers[i]);
      }
    }
    NoSharingIff(m);
  }

  /** The two towers the script trains, with any units, experts and levels. */
  lemma TrainedTowersAreClear(m: Model)
    requires WellFormed(m) && m.c.towers == ["ctr", "cvr"]
    ensures NoSharing(m)
  {
    assert "ctr"[1] != "cvr"[1];
    SlashFreeTowersAreClear(m);
  }

  // ---------- shapes ----------

  /** The variables of a dense layer: a kernel and, except for the shared gate, a bias. */
  datatype Shape = Shape(inputs: nat, units: nat, bias: bool)

  /** The width behind the first k layers of a stack. */
  function StackWidth(width: nat, units: seq<nat>, k: nat): nat
    requires k <= |units|
  {
    if k == 0 then width else units[k - 1]
  }

  /** The width of every stream after n levels: a gated sum is as wide as its experts. */
  function StreamWidth(m: Model, n: nat): nat {
    if n == 0 then m.inputWidth else StackWidth(m.inputWidth, m.c.expertUnits, |m.c.expertUnits|)
  }

  function LayerShape(width: nat, units: seq<nat>, layer: nat): Shape
    requires layer < |units|
  {
    Shape(StackWidth(width, units, layer), units[layer], true)
  }

  function SlotShape(m: Model, s: Slot): Shape
    requires WellFormed(m) && Built(m, s)
  {
    match s
    case ExpertSlot(level, _, _, layer) => LayerShape(StreamWidth(m, level), m.c.expertUnits, layer)
    case SharedExpertSlot(level, _, layer) => LayerShape(StreamWidth(m, level), m.c.expertUnits, layer)
    case GateHiddenSlot(level, _, layer) => LayerShape(StreamWidth(m, level), m.c.gateUnits, layer)
    case GateSlot(level, _) => Shape(GateWidth(m, level), m.c.specific + m.c.shared, true)
    case SharedGateHiddenSlot(level, layer) => LayerShape(StreamWidth(m, level), m.c.gateUnits, layer)
    case SharedGateSlot(level) => Shape(GateWidth(m, level), |m.c.towers| * m.c.specific + m.c.shared, false)
    case TowerSlot(task, layer) => LayerShape(StreamWidth(m, m.c.levels), m.towerUnits[task], layer)
    case OutputSlot(task) =>
      Shape(StackWidth(StreamWidth(m, m.c.levels), m.towerUnits[task], |m.towerUnits[task]|), 1, true)
  }

  function GateWidth(m: Model, level: nat): nat {
    StackWidth(StreamWidth(m, level), m.c.gateUnits, |m.c.gateUnits|)
  }

  /** The width of a node of the graph. */
  function Width(t: Term, input: nat): nat {
    match t
    case Input => input
    case Dense(_, units, _) => units
    case Mix(_, experts) => if experts == [] then 0 else Width(experts[0], input)
  }

  lemma DnnWidth(arg: Term, units: seq<nat>, b: Block, k: nat, input: nat)
    requires k <= |units|
    ensures Width(Dnn(arg, units, b, k), input) == StackWidth(Width(arg, input), units, k)
  {}

  lemma LevelWidth(c: Config, level: nat, inputs: seq<Term>, input: nat, width: nat)
    requires Buildable(c) && |inputs| == |c.towers| + 1
    requires forall i :: 0 <= i < |inputs| ==> Width(inputs[i], input) == width
    ensures var w := StackWidth(width, c.expertUnits, |c.expertUnits|);
      && (forall i :: 0 <= i < |c.towers| ==> Width(TaskOuts(c, level, inputs)[i], input) == w)
      && Width(SharedOut(c, level, inputs), input) == w
  {
    forall i, j | 0 <= i < |c.towers| && 0 <= j < c.specific
      ensures Width(SpecificRow(c, level, inputs, i)[j], input) == StackWidth(width, c.expertUnits, |c.expertUnits|)
    {
      DnnWidth(inputs[i], c.expertUnits, SpecificExpertNet(level, c.towers[i], j), |c.expertUnits|, input);
    }
    forall k | 0 <= k < c.shared
      ensures Width(SharedRow(c, level, inputs)[k], input) == StackWidth(width, c.expertUnits, |c.expertUnits|)
    {
      DnnWidth(inputs[|inputs| - 1], c.expertUnits, SharedExpertNet(level, k), |c.expertUnits|, input);
    }
    FirstOfAll(c, level, inputs);
  }

  lemma FirstOfAll(c: Config, level: nat, inputs: seq<Term>)
    requires Buildable(c) && |inputs| == |c.towers| + 1
    ensures var all := Flat(SpecificRows(c, level, inputs)) + SharedRow(c, level, inputs);
      && all != []
      && all[0] == if c.specific > 0 then SpecificRow(c, level, inputs, 0)[0] else SharedRow(c, level, inputs)[0]
  {
    var rows := SpecificRows(c, level, inputs);
    FlatLength(rows, |c.towers|, c.specific);
    if c.specific > 0 {
      ReshapeFlat(rows, |c.towers|, c.specific, 0);
      assert Flat(rows)[0..c.specific][0] == Flat(rows)[0];
    }
  }

  /** Every stream of the graph has the width that the shapes are computed from. */
  lemma {:induction false} StreamWidths(m: Model, n: nat)
    requires Buildable(m.c)
    ensures forall i :: 0 <= i <= |m.c.towers| ==> Width(Streams(m.c, n)[i], m.inputWidth) == StreamWidth(m, n)
  {
    if n > 0 {
      StreamWidths(m, n - 1);
      LevelWidth(m.c, n - 1, Streams(m.c, n - 1), m.inputWidth, StreamWidth(m, n - 1));
    }
  }

  /** A variable is never reused under another shape, so the model can be built. */
  ghost predicate ShapesAgree(m: Model)
    requires WellFormed(m)
  {
    forall a, b :: Built(m, a) && Built(m, b) && SlotPath(m, a) == SlotPath(m, b) ==> SlotShape(m, a) == SlotShape(m, b)
  }

  /** The model is built, and two of its layers train the same weights. */
  ghost predicate SharesWeights(m: Model)
    requires WellFormed(m)
  {
    ShapesAgree(m) && !NoSharing(m)
  }

  ghost predicate Clashing(m: Model, s: Slot, e: Slot)
    requires WellFormed(m)
  {
    && Built(m, s) && !Extraction(ScopeOf(m, s)) && Built(m, e) && Extraction(ScopeOf(m, e))
    && Clash(ScopeOf(m, s), ScopeOf(m, e))
  }

  /** Towers of one name have one list of units. */
  ghost predicate UnitsAgree(m: Model)
    requires WellFormed(m)
  {
    forall i, k :: 0 <= i < |m.c.towers| && 0 <= k < |m.c.towers| && m.c.towers[i] == m.c.towers[k] ==>
      m.towerUnits[i] == m.towerUnits[k]
  }

  lemma ScopeTellsShape(m: Model, a: Slot, b: Slot)
    requires WellFormed(m) && UnitsAgree(m) && Built(m, a) && Built(m, b) && ScopeOf(m, a) == ScopeOf(m, b)
    ensures SlotShape(m, a) == SlotShape(m, b)
  {}

  lemma OnePathOneScopeOrClash(m: Model, a: Slot, b: Slot)
    requires WellFormed(m) && Built(m, a) && Built(m, b) && SlotPath(m, a) == SlotPath(m, b)
    ensures ScopeOf(m, a) == ScopeOf(m, b) || Clashing(m, a, b) || Clashing(m, b, a)
  {
    var s, t := ScopeOf(m, a), ScopeOf(m, b);
    if s != t {
      if Extraction(s) && !Extraction(t) {
        TowerMeetsIff(t, s);
      } else if !Extraction(s) && Extraction(t) {
        TowerMeetsIff(s, t);
      } else if Extraction(s) {
        ExtractionNamesDistinct(s, t);
      } else {
        TowerNamesDistinct(s, t);
      }
    }
  }

  /** Shapes agree if they do for towers of one name and wherever a tower clashes with a task. */
  lemma ShapesAgreeIfClashesDo(m: Model)
    requires WellFormed(m) && UnitsAgree(m)
    requires forall s, e :: Clashing(m, s, e) ==> SlotShape(m, s) == SlotShape(m, e)
    ensures ShapesAgree(m)
  {
    forall a, b | Built(m, a) && Built(m, b) && SlotPath(m, a) == SlotPath(m, b)
      ensures SlotShape(m, a) == SlotShape(m, b)
    {
      OnePathOneScopeOrClash(m, a, b);
      if ScopeOf(m, a) == ScopeOf(m, b) {
        ScopeTellsShape(m, a, b);
      }
    }
  }

  const EQUAL_NAMES :=
    Model(Config(["ctr", "ctr"], 2, 1, [256, 128, 64], [256, 128, 64], 3), 96, [[256, 128, 64], [256, 128, 64]])

  /** Two tasks of one name train one set of weights. */
  lemma EqualNamesExample()
    ensures SharesWeights(EQUAL_NAMES)
  {
    var m := EQUAL_NAMES;
    EqualTowersShare(m, 0, 1);
    forall s, e ensures !Clashing(m, s, e) {
      EqualNamesNoClash(s, e);
    }
    ShapesAgreeIfClashesDo(m);
  }

  lemma EqualNamesNoClash(s: Slot, e: Slot)
    ensures !Clashing(EQUAL_NAMES, s, e)
  {
    var m := EQUAL_NAMES;
    if Built(m, s) && !Extraction(ScopeOf(m, s)) && Built(m, e) && Extraction(ScopeOf(m, e)) {
      assert ScopeOf(m, s).tower == "ctr";
      SlashFreeNoClash(ScopeOf(m, s), ScopeOf(m, e));
    }
  }

  lemma SlashFreeNoClash(s: Scope, e: Scope)
    requires !Extraction(s) && Extraction(e) && '/' !in s.tower
    ensures !Clash(s, e)
  {
    if LevelPath(e.level) <= s.tower {
      LevelPathHasSlash(e.level, s.tower);
    }
  }

  const GATE_TOWER := LevelPath(0) + GATE_SPECIFIC

  /** Two distinct names, one level, and layers of 64 units on an embedding of width 64. */
  const SLASH_PAIR := Model(Config([GATE_TOWER, "/tower_" + GATE_TOWER], 2, 1, [64], [64], 1), 64, [[64], [64]])

  lemma SlashPairCollides()
    ensures Collide(SLASH_PAIR, 0, 1, 0, TowerSlot(0, 0), GateHiddenSlot(0, 1, 0))
  {
    var t := GATE_TOWER;
    assert t[|LevelPath(0)|..] == GATE_SPECIFIC;
    assert After(t, 0, GATE_SPECIFIC) == "";
    assert GateClash(t, "/tower_" + t, 0);
    ClashCollides(SLASH_PAIR, 0, 1, 0, TowerSlot(0, 0), GateHiddenSlot(0, 1, 0));
  }

  lemma SlashPairShapes(s: Slot, e: Slot)
    requires Clashing(SLASH_PAIR, s, e)
    ensures SlotShape(SLASH_PAIR, s) == SlotShape(SLASH_PAIR, e)
  {
    SlashPairSpells(ScopeOf(SLASH_PAIR, s).tower);
    assert !e.GateSlot?;
  }

  lemma SlashPairSpells(t: string)
    requires t in SLASH_PAIR.c.towers
    ensures !Spells(t, 0, GATE_SOFTMAX_SPECIFIC)
  {
    LevelPathParts(0);
    if LevelPath(0) <= t {
      assert t[0] == 'e';
      assert t == GATE_TOWER;
      assert t[|LevelPath(0)|..] == GATE_SPECIFIC;
    }
  }

  /** Distinct names that clash: the first tower's hidden layer is the second task's hidden gate layer. */
  lemma SlashPairExample()
    ensures TowersDistinct(SLASH_PAIR) && SharesWeights(SLASH_PAIR)
  {
    var m := SLASH_PAIR;
    SlashPairCollides();
    assert m.c.towers[0] != m.c.towers[1];
    assert TowerSlot(0, 0) != GateHiddenSlot(0, 1, 0);
    forall s, e | Clashing(m, s, e) ensures SlotShape(m, s) == SlotShape(m, e) {
      SlashPairShapes(s, e);
    }
    ShapesAgreeIfClashesDo(m);
  }
}
