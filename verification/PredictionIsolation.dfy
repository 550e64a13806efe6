/** Whether the predictions of a PLE model are isolated from the layers they do not read, towers included. Weights are
    found by name, so this holds exactly when no such layer shares its name with one that is read. */
module PredictionIsolation {
  import opened Text
  import opened ScopeNames
  import opened ExpertWiring
  import opened ExpertIsolation
  import opened LayerNames

  function PredictionOf(m: Model, i: nat): Term
    requires WellFormed(m) && i < |m.c.towers|
  {
    Prediction(m.c, m.towerUnits, i)
  }

  // ---------- what a prediction reads ----------

  /** The layers behind the prediction of task i, by their place: everything of its own, shared experts, and what
      arrives through a shared stream from below. */
  predicate Reads(m: Model, i: nat, s: Slot)
    requires WellFormed(m)
  {
    Built(m, s) &&
    match s
    case ExpertSlot(level, task, _, _) => task == i || (level + 1 < m.c.levels && m.c.shared > 0)
    case SharedExpertSlot(_, _, _) => true
    case GateHiddenSlot(level, task, _) => task == i || GateArrives(m, level)
    case GateSlot(level, task) => task == i || GateArrives(m, level)
    case SharedGateHiddenSlot(_, _) => m.c.shared > 0
    case SharedGateSlot(_) => m.c.shared > 0
    case TowerSlot(task, _) => task == i
    case OutputSlot(task) => task == i
  }

  predicate GateArrives(m: Model, level: nat) {
    level + 2 < m.c.levels && m.c.shared > 0 && m.c.specific > 0
  }

  ghost predicate ReadsScope(m: Model, i: nat, e: Scope)
    requires WellFormed(m)
  {
    exists s :: Reads(m, i, s) && ScopeOf(m, s) == e
  }

  /** A layer takes part in computing the prediction if and only if it is one of these. */
  lemma PredictionReads(m: Model, i: nat, e: Scope)
    requires WellFormed(m) && i < |m.c.towers|
    ensures Occurs(e, PredictionOf(m, i)) <==> ReadsScope(m, i, e)
  {
    var t := m.c.towers[i];
    DnnOccurs(e, Streams(m.c, m.c.levels)[i], m.towerUnits[i], TowerNet(t), |m.towerUnits[i]|);
    InBlockOf(e, TowerNet(t), |m.towerUnits[i]|);
    StreamDependencies(m.c, m.c.levels, e);
    if ReadsScope(m, i, e) {
      var s :| Reads(m, i, s) && ScopeOf(m, s) == e;
      ReadSlotOccurs(m, i, s);
    }
    if Extraction(e) && ReadsTask(m.c, m.c.levels, i, e) {
      StreamReadHasSlot(m, i, e);
    } else if e.TowerLayer? && e.tower == t && e.layer < |m.towerUnits[i]| {
      ReadSlotFor(m, i, TowerSlot(i, e.layer), e);
    } else if e == TowerOutput(t) {
      ReadSlotFor(m, i, OutputSlot(i), e);
    }
  }

  lemma ReadSlotFor(m: Model, i: nat, s: Slot, e: Scope)
    requires WellFormed(m) && Reads(m, i, s) && ScopeOf(m, s) == e
    ensures ReadsScope(m, i, e)
  {}

  lemma ReadSlotOccurs(m: Model, i: nat, s: Slot)
    requires WellFormed(m) && i < |m.c.towers| && Reads(m, i, s)
    ensures var e := ScopeOf(m, s);
      if Extraction(e) then ReadsTask(m.c, m.c.levels, i, e)
      else e.tower == m.c.towers[i] && (e.TowerLayer? ==> e.layer < |m.towerUnits[i]|)
  {
    if s.ExpertSlot? || s.GateHiddenSlot? || s.GateSlot? {
      assert IsTower(m.c, m.c.towers[s.task]);
    }
  }

  lemma StreamReadHasSlot(m: Model, i: nat, e: Scope)
    requires WellFormed(m) && i < |m.c.towers| && ReadsTask(m.c, m.c.levels, i, e)
    ensures ReadsScope(m, i, e)
  {
    match e
    case SpecificExpert(level, t, j, layer) =>
      var k := Owner(m, i, t);
      ReadSlotFor(m, i, ExpertSlot(level, k, j, layer), e);
    case SharedExpert(level, k, layer) => ReadSlotFor(m, i, SharedExpertSlot(level, k, layer), e);
    case SpecificGateHidden(level, t, layer) =>
      var k := Owner(m, i, t);
      ReadSlotFor(m, i, GateHiddenSlot(level, k, layer), e);
    case SpecificGate(level, t) =>
      var k := Owner(m, i, t);
      ReadSlotFor(m, i, GateSlot(level, k), e);
    case SharedGateHidden(level, layer) => ReadSlotFor(m, i, SharedGateHiddenSlot(level, layer), e);
    case SharedGate(level) => ReadSlotFor(m, i, SharedGateSlot(level), e);
  }

  /** A task of this name, task i itself if it has it. */
  lemma Owner(m: Model, i: nat, t: string) returns (k: nat)
    requires i < |m.c.towers| && (t == m.c.towers[i] || IsTower(m.c, t))
    ensures k < |m.c.towers| && m.c.towers[k] == t && (t == m.c.towers[i] ==> k == i)
  {
    if t == m.c.towers[i] {
      k := i;
    } else {
      k :| 0 <= k < |m.c.towers| && m.c.towers[k] == t;
    }
  }

  // ---------- isolation of one prediction ----------

  ghost predicate Unread(m: Model, i: nat, s: Slot)
    requires WellFormed(m)
  {
    Built(m, s) && !Reads(m, i, s)
  }

  /** Only weights of layers that prediction i does not read differ: those stored under their names. */
  ghost predicate ChangesUnread<V(!new)>(m: Model, i: nat, a: Net<V>, b: Net<V>)
    requires WellFormed(m)
  {
    SameLayout(a, b) && forall p: string :: !SameAt(p, a, b) ==> exists s :: Unread(m, i, s) && SlotPath(m, s) == p
  }

  /** No layer that prediction i reads has the name of one that it does not. */
  ghost predicate NoLeak(m: Model, i: nat)
    requires WellFormed(m)
  {
    forall r, f :: Reads(m, i, r) && Unread(m, i, f) ==> SlotPath(m, r) != SlotPath(m, f)
  }

  lemma NoLeakIsolates<V(!new)>(m: Model, i: nat, a: Net<V>, b: Net<V>, x: V)
    requires WellFormed(m) && i < |m.c.towers| && NoLeak(m, i) && ChangesUnread(m, i, a, b)
    ensures Eval(PredictionOf(m, i), a, x) == Eval(PredictionOf(m, i), b, x)
  {
    var t := PredictionOf(m, i);
    forall e | Occurs(e, t) ensures SameAt(Path(e), a, b) {
      PredictionReads(m, i, e);
      var r :| Reads(m, i, r) && ScopeOf(m, r) == e;
      assert SlotPath(m, r) == Path(e);
      assert forall f :: Unread(m, i, f) ==> SlotPath(m, r) != SlotPath(m, f);
    }
    EvalDependsOnOccurring(t, a, b, x);
  }

  function Unchanged(s: Scope, v: bool): bool {
    v
  }

  function AnyOf(gate: bool, experts: seq<bool>): bool {
    gate || true in experts
  }

  /** Weights that report whether the layer named q is on the way; with `on` unset it stays silent. */
  ghost function Detector(q: string, on: bool): Net<bool> {
    Net((p: string, units: nat, v: bool) => v || (on && p == q), Unchanged, AnyOf)
  }

  ghost predicate PathOccurs(q: string, t: Term) {
    exists s :: Occurs(s, t) && Path(s) == q
  }

  ghost predicate PathOccursIn(q: string, ts: seq<Term>) {
    exists x :: 0 <= x < |ts| && PathOccurs(q, ts[x])
  }

  lemma {:induction false} DetectorSees(t: Term, q: string, on: bool)
    ensures Eval(t, Detector(q, on), false) <==> on && PathOccurs(q, t)
    decreases t
  {
    match t
    case Input =>
    case Dense(s, units, arg) =>
      DetectorSees(arg, q, on);
      assert Occurs(s, t);
      assert forall e :: Occurs(e, t) <==> e == s || Occurs(e, arg);
    case Mix(gate, experts) =>
      DetectorSees(gate, q, on);
      DetectorSeesAll(experts, q, on);
      MixPaths(gate, experts, q);
  }

  lemma MixPaths(gate: Term, experts: seq<Term>, q: string)
    ensures PathOccurs(q, Mix(gate, experts)) <==> PathOccurs(q, gate) || PathOccursIn(q, experts)
  {
    var t := Mix(gate, experts);
    assert forall e :: Occurs(e, t) <==> Occurs(e, gate) || OccursIn(e, experts);
    if PathOccursIn(q, experts) {
      var x :| 0 <= x < |experts| && PathOccurs(q, experts[x]);
      var e :| Occurs(e, experts[x]) && Path(e) == q;
      assert OccursIn(e, experts);
    }
  }

  lemma {:induction false} DetectorSeesAll(ts: seq<Term>, q: string, on: bool)
    ensures true in EvalAll(ts, Detector(q, on), false) <==> on && PathOccursIn(q, ts)
    decreases ts
  {
    if ts != [] {
      DetectorSees(ts[0], q, on);
      DetectorSeesAll(ts[1..], q, on);
      PathOccursCons(q, ts);
    }
  }

  lemma PathOccursCons(q: string, ts: seq<Term>)
    requires ts != []
    ensures PathOccursIn(q, ts) <==> PathOccurs(q, ts[0]) || PathOccursIn(q, ts[1..])
  {
    if PathOccursIn(q, ts[1..]) {
      var x :| 0 <= x < |ts| - 1 && PathOccurs(q, ts[1..][x]);
      assert PathOccurs(q, ts[x + 1]);
    }
    if PathOccursIn(q, ts) && !PathOccurs(q, ts[0]) {
      var x :| 0 <= x < |ts| && PathOccurs(q, ts[x]);
      assert ts[1..][x - 1] == ts[x];
    }
  }

  /** A shared name is enough for interference: retraining the unread layer alone changes the prediction. */
  lemma LeakInterferes(m: Model, i: nat, r: Slot, f: Slot)
    requires WellFormed(m) && i < |m.c.towers|
    requires Reads(m, i, r) && Unread(m, i, f) && SlotPath(m, r) == SlotPath(m, f)
    ensures var a, b := Detector(SlotPath(m, f), true), Detector(SlotPath(m, f), false);
      && ChangesUnread(m, i, a, b)
      && (forall p: string :: !SameAt(p, a, b) ==> p == SlotPath(m, f))
      && Eval(PredictionOf(m, i), a, false) != Eval(PredictionOf(m, i), b, false)
  {
    var q := SlotPath(m, f);
    PredictionReads(m, i, ScopeOf(m, r));
    assert Occurs(ScopeOf(m, r), PredictionOf(m, i));
    DetectorSees(PredictionOf(m, i), q, true);
    DetectorSees(PredictionOf(m, i), q, false);
  }

  /** The exact condition for one prediction. */
  lemma IsolatedIff(m: Model, i: nat)
    requires WellFormed(m) && i < |m.c.towers|
    ensures NoLeak(m, i) <==>
      forall a: Net<bool>, b: Net<bool>, x: bool :: ChangesUnread(m, i, a, b) ==>
        Eval(PredictionOf(m, i), a, x) == Eval(PredictionOf(m, i), b, x)
  {
    if NoLeak(m, i) {
      forall a: Net<bool>, b: Net<bool>, x: bool | ChangesUnread(m, i, a, b)
        ensures Eval(PredictionOf(m, i), a, x) == Eval(PredictionOf(m, i), b, x)
      {
        NoLeakIsolates(m, i, a, b, x);
      }
    } else {
      var r, f :| Reads(m, i, r) && Unread(m, i, f) && SlotPath(m, r) == SlotPath(m, f);
      LeakInterferes(m, i, r, f);
    }
  }

  // ---------- isolation of all predictions ----------

  /** A tower never clashes with its own task. */
  lemma ClashingNamesDiffer(m: Model, i: nat, k: nat, level: nat)
    requires WellFormed(m) && i < |m.c.towers| && k < |m.c.towers| && TowerClash(m, i, k, level)
    ensures m.c.towers[i] != m.c.towers[k]
  {
    var t, u := m.c.towers[i], m.c.towers[k];
    if j: nat :| j < m.c.specific && ExpertClash(t, u, level, j) {
      ExpertClashDiffers(t, u, level, j);
    }
  }

  lemma ExpertClashDiffers(t: string, u: string, level: nat, j: nat)
    requires ExpertClash(t, u, level, j)
    ensures t != u
  {
    var end, x := EXPERT_SPECIFIC + ToDecimal(j), After(t, level, TASK);
    SpelledParts(t, level, TASK);
    LevelPathParts(level);
    NumeralAvoids(j, '/');
    EchoDiffers(t, NetworkName(level), LevelName(level), TASK, x, end);
  }

  /** A string that begins with `n/l...` cannot begin with x, a tail of its slash-free ending, and "/t...". */
  lemma EchoDiffers(t: string, n: string, l: string, kind: string, x: string, end: string)
    requires '/' !in n && '/' !in end && |l| > 0 && l[0] == 'l'
    requires t == (n + (['/'] + l)) + (kind + x) && EndsWith(t, end)
    ensures t != x + "/tower_" + t[..|t| - |end|]
  {
    var u := x + "/tower_" + t[..|t| - |end|];
    if |t| == |u| {
      assert |end| == |x| + 7;
      assert forall y :: 0 <= y < |x| ==> x[y] == t[|t| - |x| + y] == end[7 + y];
      assert u[|x|] == '/' && u[|x| + 1] == 't';
      assert t[|n|] == '/' && t[|n| + 1] == 'l';
      if |x| < |n| {
        assert t[|x|] == n[|x|] != '/';
      } else if |n| < |x| {
        assert u[|n|] == x[|n|] == end[7 + |n|] != '/';
      }
    }
  }

  lemma LeakShown(m: Model, i: nat, r: Slot, f: Slot)
    requires WellFormed(m) && Reads(m, i, r) && Unread(m, i, f) && SlotPath(m, r) == SlotPath(m, f)
    ensures !NoLeak(m, i)
  {}

  lemma EqualTowersLeak(m: Model, i: nat, k: nat)
    requires WellFormed(m) && i < k < |m.c.towers| && m.c.towers[i] == m.c.towers[k]
    ensures !NoLeak(m, k)
  {
    LeakShown(m, k, OutputSlot(k), OutputSlot(i));
  }

  lemma ClashingTowersLeak(m: Model, i: nat, k: nat, level: nat)
    requires WellFormed(m) && i < |m.c.towers| && k < |m.c.towers| && level < m.c.levels
    requires TowerClash(m, i, k, level)
    ensures !NoLeak(m, k)
  {
    ClashingNamesDiffer(m, i, k, level);
    var s, e := ClashingTowersCollide(m, i, k, level);
    LeakShown(m, k, e, s);
  }

  lemma NoSharingNoLeak(m: Model, i: nat)
    requires WellFormed(m) && NoSharing(m)
    ensures NoLeak(m, i)
  {}

  /** Every prediction of a model is isolated if and only if no two of its layers share a name, which is decided by its
      tower names and sizes. */
  lemma AllIsolatedIff(m: Model)
    requires WellFormed(m)
    ensures (forall i: nat :: i < |m.c.towers| ==> NoLeak(m, i)) <==> NamesClear(m)
  {
    if NamesClear(m) {
      NoSharingIff(m);
      forall i: nat | i < |m.c.towers| ensures NoLeak(m, i) {
        NoSharingNoLeak(m, i);
      }
    } else if !TowersDistinct(m) {
      var i, k :| 0 <= i < k < |m.c.towers| && m.c.towers[i] == m.c.towers[k];
      EqualTowersLeak(m, i, k);
    } else {
      var i: nat, k: nat, level: nat :|
        i < |m.c.towers| && k < |m.c.towers| && level < m.c.levels && TowerClash(m, i, k, level);
      ClashingTowersLeak(m, i, k, level);
    }
  }

  /** The same in terms of what the predictions compute. */
  lemma PredictionsIsolatedIff(m: Model)
    requires WellFormed(m)
    ensures NamesClear(m) <==>
      forall i: nat, a: Net<bool>, b: Net<bool>, x: bool :: i < |m.c.towers| && ChangesUnread(m, i, a, b) ==>
        Eval(PredictionOf(m, i), a, x) == Eval(PredictionOf(m, i), b, x)
  {
    AllIsolatedIff(m);
    if NamesClear(m) {
      forall i: nat, a: Net<bool>, b: Net<bool>, x: bool | i < |m.c.towers| && ChangesUnread(m, i, a, b)
        ensures Eval(PredictionOf(m, i), a, x) == Eval(PredictionOf(m, i), b, x)
      {
        NoLeakIsolates(m, i, a, b, x);
      }
    } else {
      var i: nat :| i < |m.c.towers| && !NoLeak(m, i);
      IsolatedIff(m, i);
    }
  }

  /** In a model with clear names, whatever is retrained of the layers that prediction i does not read, other towers
      included, the prediction stays what it was on every input. */
  lemma ClearNamesIsolate<V(!new)>(m: Model, i: nat, a: Net<V>, b: Net<V>, x: V)
    requires WellFormed(m) && NamesClear(m) && i < |m.c.towers| && ChangesUnread(m, i, a, b)
    ensures Eval(PredictionOf(m, i), a, x) == Eval(PredictionOf(m, i), b, x)
  {
    AllIsolatedIff(m);
    NoLeakIsolates(m, i, a, b, x);
  }

  /** In the model of two distinct names, retraining the first tower's hidden layer changes the second prediction. */
  lemma SlashPairInterferes()
    ensures var q := SlotPath(SLASH_PAIR, TowerSlot(0, 0));
      var a, b := Detector(q, true), Detector(q, false);
      && Unread(SLASH_PAIR, 1, TowerSlot(0, 0))
      && (forall p: string :: !SameAt(p, a, b) ==> p == q)
      && Eval(PredictionOf(SLASH_PAIR, 1), a, false) != Eval(PredictionOf(SLASH_PAIR, 1), b, false)
  {
    SlashPairCollides();
    LeakInterferes(SLASH_PAIR, 1, GateHiddenSlot(0, 1, 0), TowerSlot(0, 0));
  }
}
