/** Variable scope names of the PLE model. Scopes are opened with AUTO_REUSE, so two layers whose names
    coincide silently share their weights. */
module ScopeNames {
  import opened Text

  /** A dense layer as far as its name goes. `tower` is the name of a task: tasks of one name have one scope. */
  datatype Scope =
    | SpecificExpert(level: nat, tower: string, expert: nat, layer: nat)
    | SharedExpert(level: nat, expert: nat, layer: nat)
    | SpecificGateHidden(level: nat, tower: string, layer: nat)
    | SpecificGate(level: nat, tower: string)
    | SharedGateHidden(level: nat, layer: nat)
    | SharedGate(level: nat)
    | TowerLayer(tower: string, layer: nat)
    | TowerOutput(tower: string)

  predicate Extraction(s: Scope) {
    !s.TowerLayer? && !s.TowerOutput?
  }

  const TASK := "task_"
  const EXPERT_SPECIFIC := "_expert_specific_"
  const EXPERT_SHARED := "expert_shared_"
  const GATE_SPECIFIC := "gate_specific_"
  const GATE_SOFTMAX_SPECIFIC := "gate_softmax_specific_"
  const GATE_SHARED := "gate_shared_"
  const GATE_SOFTMAX_SHARED := "gate_softmax_shared"

  function Numbered(name: string, n: nat): string {
    name + "_" + ToDecimal(n)
  }

  /** The part of the name after the level prefix. */
  function LocalName(s: Scope): string
    requires Extraction(s)
  {
    match s
    case SpecificExpert(_, tower, j, layer) => Numbered(TASK + tower + EXPERT_SPECIFIC + ToDecimal(j), layer)
    case SharedExpert(_, k, layer) => Numbered(EXPERT_SHARED + ToDecimal(k), layer)
    case SpecificGateHidden(_, tower, layer) => Numbered(GATE_SPECIFIC + tower, layer)
    case SpecificGate(_, tower) => GATE_SOFTMAX_SPECIFIC + tower
    case SharedGateHidden(_, layer) => GATE_SHARED + ToDecimal(layer)
    case SharedGate(_) => GATE_SOFTMAX_SHARED
  }

  /** Scope of one extraction network and the level prefix of its names. */
  function LevelPath(level: nat): string {
    "extraction_network_" + (ToDecimal(level) + ("/" + ("level_" + (ToDecimal(level) + "_"))))
  }

  /** The full path below the model's scope. */
  function Path(s: Scope): string {
    match s
    case TowerLayer(t, layer) => Numbered(t + "/tower_" + t, layer)
    case TowerOutput(t) => t + "/" + t + "_output"
    case _ => LevelPath(s.level) + LocalName(s)
  }

  lemma SmallNumerals()
    ensures ToDecimal(0) == "0" && ToDecimal(1) == "1" && ToDecimal(2) == "2"
  {}

  lemma LevelPathExamples()
    ensures LevelPath(0) == "extraction_network_0/level_0_" && LevelPath(1) == "extraction_network_1/level_1_"
  {
    SmallNumerals();
  }

  /** Experts, gates and towers as they are named in a checkpoint. */
  lemma ExpertPathExamples()
    ensures Path(SpecificExpert(0, "ctr", 1, 2)) == "extraction_network_0/level_0_" + "task_ctr_expert_specific_1_2"
    ensures Path(SharedExpert(1, 0, 2)) == "extraction_network_1/level_1_" + "expert_shared_0_2"
  {
    SmallNumerals();
    LevelPathExamples();
  }

  lemma GatePathExamples()
    ensures Path(SpecificGateHidden(0, "cvr", 1)) == "extraction_network_0/level_0_" + "gate_specific_cvr_1"
    ensures Path(SpecificGate(0, "cvr")) == "extraction_network_0/level_0_" + "gate_softmax_specific_cvr"
    ensures Path(SharedGateHidden(1, 0)) == "extraction_network_1/level_1_" + "gate_shared_0"
    ensures Path(SharedGate(1)) == "extraction_network_1/level_1_" + "gate_softmax_shared"
  {
    SmallNumerals();
    LevelPathExamples();
  }

  lemma TowerPathExamples()
    ensures Path(TowerLayer("ctr", 2)) == "ctr/tower_ctr_2"
    ensures Path(TowerOutput("ctr")) == "ctr/ctr_output"
  {
    SmallNumerals();
  }

  // ---------- cutting strings at a separator ----------

  lemma CancelPrefix(p: string, x: string, y: string)
    requires p + x == p + y
    ensures x == y
  {
    assert (p + x)[|p|..] == x && (p + y)[|p|..] == y;
  }

  lemma CancelSuffix(x: string, y: string, s: string)
    requires x + s == y + s
    ensures x == y
  {
    assert |x| == |y|;
    assert (x + s)[..|x|] == x && (y + s)[..|y|] == y;
  }

  /** The first separator decides where the left part ends. */
  lemma CutFirst(a: string, x: string, b: string, y: string, c: char)
    requires c !in a && c !in b
    requires a + ([c] + x) == b + ([c] + y)
    ensures a == b && x == y
  {
    var s, t := a + ([c] + x), b + ([c] + y);
    assert s[|a|] == c && t[|b|] == c;
    assert forall k :: 0 <= k < |a| ==> s[k] == a[k] != c;
    assert forall k :: 0 <= k < |b| ==> t[k] == b[k] != c;
    assert |a| == |b|;
    assert s[..|a|] == a && t[..|b|] == b;
    assert s[|a| + 1..] == x && t[|b| + 1..] == y;
  }

  /** The last separator decides where the right part begins. */
  lemma CutLast(x: string, a: string, y: string, b: string, c: char)
    requires c !in a && c !in b
    requires x + [c] + a == y + [c] + b
    ensures x == y && a == b
  {
    var s, t := x + [c] + a, y + [c] + b;
    assert s[|x|] == c && t[|y|] == c;
    assert forall k :: |x| < k < |s| ==> s[k] == a[k - |x| - 1] != c;
    assert forall k :: |y| < k < |t| ==> t[k] == b[k - |y| - 1] != c;
    assert |x| == |y|;
    assert s[..|x|] == x && t[..|y|] == y;
    assert s[|x| + 1..] == a && t[|y| + 1..] == b;
  }

  lemma NumeralInjective(m: nat, n: nat)
    requires ToDecimal(m) == ToDecimal(n)
    ensures m == n
  {}

  /** Numbers are decoded from the right: the last underscore separates the layer number. */
  lemma NumberedInjective(x: string, m: nat, y: string, n: nat)
    requires Numbered(x, m) == Numbered(y, n)
    ensures x == y && m == n
  {
    NumeralAvoids(m, '_');
    NumeralAvoids(n, '_');
    CutLast(x, ToDecimal(m), y, ToDecimal(n), '_');
    NumeralInjective(m, n);
  }

  // ---------- the level ----------

  lemma LevelDecodes(m: nat, x: string, n: nat, y: string)
    requires LevelPath(m) + x == LevelPath(n) + y
    ensures m == n && x == y
  {
    var p, a, b := "extraction_network_", ToDecimal(m), ToDecimal(n);
    var u, v := "level_" + (a + "_") + x, "level_" + (b + "_") + y;
    assert LevelPath(m) + x == p + (a + (['/'] + u));
    assert LevelPath(n) + y == p + (b + (['/'] + v));
    CancelPrefix(p, a + (['/'] + u), b + (['/'] + v));
    NumeralAvoids(m, '/');
    NumeralAvoids(n, '/');
    CutFirst(a, u, b, v, '/');
    NumeralInjective(m, n);
    CancelPrefix(LevelPath(m), x, y);
  }

  // ---------- the kind ----------

  /** Two characters tell the six kinds of extraction layers apart. */
  function KindMark(s: Scope): (char, char) {
    match s
    case SpecificExpert(_, _, _, _) => ('t', '_')
    case SharedExpert(_, _, _) => ('e', '_')
    case SpecificGateHidden(_, _, _) => ('p', '_')
    case SpecificGate(_, _) => ('o', 'p')
    case SharedGateHidden(_, _) => ('h', '_')
    case SharedGate(_) => ('o', 'h')
    case _ => ('_', '_')
  }

  function MarkOf(name: string): (char, char) {
    if |name| > 6 && name[0] == 'g' then
      if name[6] == 'o' && |name| > 14 then ('o', name[14]) else (name[6], '_')
    else if |name| > 0 then (name[0], '_') else ('_', '_')
  }

  lemma MarkTellsKind(s: Scope)
    requires Extraction(s)
    ensures MarkOf(LocalName(s)) == KindMark(s)
  {
    match s
    case SpecificExpert(_, _, _, _) => assert LocalName(s)[0] == 't';
    case SharedExpert(_, _, _) => assert LocalName(s)[0] == 'e';
    case _ => MarkTellsGate(s);
  }

  lemma MarkTellsGate(s: Scope)
    requires Extraction(s) && !s.SpecificExpert? && !s.SharedExpert?
    ensures MarkOf(LocalName(s)) == KindMark(s)
  {
    match s
    case SpecificGateHidden(_, t, layer) => GateMark(GATE_SPECIFIC, t + "_" + ToDecimal(layer), LocalName(s));
    case SpecificGate(_, t) => GateMark(GATE_SOFTMAX_SPECIFIC, t, LocalName(s));
    case SharedGateHidden(_, layer) => GateMark(GATE_SHARED, ToDecimal(layer), LocalName(s));
    case SharedGate(_) =>
  }

  /** The mark of a gate name is already in its literal head. */
  lemma GateMark(head: string, rest: string, name: string)
    requires |head| > 6 && head[0] == 'g' && (head[6] == 'o' ==> |head| > 14) && name == head + rest
    ensures MarkOf(name) == MarkOf(head)
  {}

  // ---------- all extraction layers ----------

  lemma SpecificExpertInjective(s: Scope, t: Scope)
    requires s.SpecificExpert? && t.SpecificExpert? && s.level == t.level
    requires LocalName(s) == LocalName(t)
    ensures s == t
  {
    var x, y := TASK + s.tower + EXPERT_SPECIFIC, TASK + t.tower + EXPERT_SPECIFIC;
    NumberedInjective(x + ToDecimal(s.expert), s.layer, y + ToDecimal(t.expert), t.layer);
    var head := "_expert_specific";
    var xs, ys := TASK + s.tower + head, TASK + t.tower + head;
    assert EXPERT_SPECIFIC == head + "_";
    assert x == xs + "_" && y == ys + "_";
    NumberedInjective(xs, s.expert, ys, t.expert);
    CancelSuffix(TASK + s.tower, TASK + t.tower, head);
    CancelPrefix(TASK, s.tower, t.tower);
  }

  lemma LocalNameInjective(s: Scope, t: Scope)
    requires Extraction(s) && Extraction(t) && s.level == t.level
    requires LocalName(s) == LocalName(t)
    ensures s == t
  {
    MarkTellsKind(s);
    MarkTellsKind(t);
    match s
    case SpecificExpert(_, _, _, _) => SpecificExpertInjective(s, t);
    case SharedExpert(_, _, _) =>
      NumberedInjective(EXPERT_SHARED + ToDecimal(s.expert), s.layer, EXPERT_SHARED + ToDecimal(t.expert), t.layer);
      CancelPrefix(EXPERT_SHARED, ToDecimal(s.expert), ToDecimal(t.expert));
      NumeralInjective(s.expert, t.expert);
    case SpecificGateHidden(_, _, _) =>
      NumberedInjective(GATE_SPECIFIC + s.tower, s.layer, GATE_SPECIFIC + t.tower, t.layer);
      CancelPrefix(GATE_SPECIFIC, s.tower, t.tower);
    case SpecificGate(_, _) => CancelPrefix(GATE_SOFTMAX_SPECIFIC, s.tower, t.tower);
    case SharedGateHidden(_, _) =>
      CancelPrefix(GATE_SHARED, ToDecimal(s.layer), ToDecimal(t.layer));
      NumeralInjective(s.layer, t.layer);
    case SharedGate(_) =>
  }

  /** Level, kind, task name, expert and layer numbers can all be read off the name of an extraction layer,
      whatever string the task is named by. */
  lemma ExtractionNamesDistinct(s: Scope, t: Scope)
    requires Extraction(s) && Extraction(t) && s != t
    ensures Path(s) != Path(t)
  {
    if Path(s) == Path(t) {
      LevelDecodes(s.level, LocalName(s), t.level, LocalName(t));
      LocalNameInjective(s, t);
    }
  }

  lemma LastIsDigit(x: string, n: nat)
    ensures IsDigit(Numbered(x, n)[|Numbered(x, n)| - 1])
  {
    var d := ToDecimal(n);
    assert IsDigit(d[|d| - 1]);
  }

  /** So can the tower's name and the layer number of a tower layer. */
  lemma TowerNamesDistinct(s: Scope, t: Scope)
    requires !Extraction(s) && !Extraction(t) && s != t
    ensures Path(s) != Path(t)
  {
    if s.TowerLayer? && t.TowerLayer? {
      TowerLayersDistinct(s, t);
    } else if s.TowerOutput? && t.TowerOutput? {
      assert |Path(s)| == 2 * |s.tower| + 8 && |Path(t)| == 2 * |t.tower| + 8;
      assert Path(s)[..|s.tower|] == s.tower && Path(t)[..|t.tower|] == t.tower;
    } else if s.TowerLayer? {
      NotBothEnds(t.tower + "/" + t.tower, s.tower + "/tower_" + s.tower, s.layer);
    } else {
      NotBothEnds(s.tower + "/" + s.tower, t.tower + "/tower_" + t.tower, t.layer);
    }
  }

  lemma TowerLayersDistinct(s: Scope, t: Scope)
    requires s.TowerLayer? && t.TowerLayer? && s != t
    ensures Path(s) != Path(t)
  {
    var x, y := s.tower + "/tower_" + s.tower, t.tower + "/tower_" + t.tower;
    if Path(s) == Path(t) {
      NumberedInjective(x, s.layer, y, t.layer);
    }
    assert |x| == 2 * |s.tower| + 7 && |y| == 2 * |t.tower| + 7;
    assert x[..|s.tower|] == s.tower && y[..|t.tower|] == t.tower;
  }

  // ---------- towers against extraction layers ----------

  predicate EndsWith(t: string, suffix: string) {
    |suffix| <= |t| && t[|t| - |suffix|..] == suffix
  }

  /** The tower name itself begins like the path of an extraction layer of this kind. */
  predicate Spells(t: string, level: nat, kind: string) {
    LevelPath(level) <= t && kind <= t[|LevelPath(level)|..]
  }

  function After(t: string, level: nat, kind: string): string
    requires Spells(t, level, kind)
  {
    t[|LevelPath(level)|..][|kind|..]
  }

  /** Tower t against the hidden gate layers of task u, at equal layer numbers. */
  predicate GateClash(t: string, u: string, level: nat) {
    Spells(t, level, GATE_SPECIFIC) && u == After(t, level, GATE_SPECIFIC) + ("/tower_" + t)
  }

  /** A layer of tower t against the gate of task u. */
  predicate GateLayerClash(t: string, u: string, level: nat, layer: nat) {
    Spells(t, level, GATE_SOFTMAX_SPECIFIC)
    && u == After(t, level, GATE_SOFTMAX_SPECIFIC) + ("/tower_" + t + "_" + ToDecimal(layer))
  }

  /** The output layer of tower t against the gate of task u. */
  predicate GateOutputClash(t: string, u: string, level: nat) {
    Spells(t, level, GATE_SOFTMAX_SPECIFIC) && u == After(t, level, GATE_SOFTMAX_SPECIFIC) + ("/" + t + "_output")
  }

  /** Tower t against expert j of task u, at equal layer numbers. */
  predicate ExpertClash(t: string, u: string, level: nat, j: nat) {
    var end := EXPERT_SPECIFIC + ToDecimal(j);
    Spells(t, level, TASK) && EndsWith(t, end) && u == After(t, level, TASK) + "/tower_" + t[..|t| - |end|]
  }

  predicate Clash(s: Scope, e: Scope)
    requires !Extraction(s) && Extraction(e)
  {
    match e
    case SpecificGateHidden(level, u, layer) => s.TowerLayer? && s.layer == layer && GateClash(s.tower, u, level)
    case SpecificGate(level, u) =>
      if s.TowerLayer? then GateLayerClash(s.tower, u, level, s.layer) else GateOutputClash(s.tower, u, level)
    case SpecificExpert(level, u, j, layer) => s.TowerLayer? && s.layer == layer && ExpertClash(s.tower, u, level, j)
    case _ => false
  }

  // Concatenations regrouped, with the pieces as variables.

  lemma RegroupGate(t: string, p: string, g: string, r: string, mid: string, us: string, d: string)
    requires t == p + (g + r)
    ensures t + mid + t + us + d == p + (g + (r + (mid + t)) + us + d)
  {}

  lemma RegroupLayer(t: string, p: string, g: string, r: string, mid: string, us: string, d: string)
    requires t == p + (g + r)
    ensures t + mid + t + us + d == p + (g + (r + (mid + t + us + d)))
  {}

  lemma RegroupOutput(t: string, p: string, g: string, r: string, mid: string, out: string)
    requires t == p + (g + r)
    ensures t + mid + t + out == p + (g + (r + (mid + t + out)))
  {}

  lemma RegroupExpert(t: string, p: string, g: string, r: string, mid: string, f: string, end: string, j: string,
                      us: string, d: string)
    requires t == p + (g + r) && t == f + (end + j)
    ensures t + mid + t + us + d == p + (g + (r + mid + f) + end + j + us + d)
  {
    assert t + mid + t + us + d == p + (g + r) + mid + (f + (end + j)) + us + d;
  }

  lemma SpelledParts(t: string, level: nat, kind: string)
    requires Spells(t, level, kind)
    ensures t == LevelPath(level) + (kind + After(t, level, kind))
  {
    assert t == LevelPath(level) + t[|LevelPath(level)|..];
  }

  lemma ClashMeets(s: Scope, e: Scope)
    requires !Extraction(s) && Extraction(e) && Clash(s, e)
    ensures Path(s) == Path(e)
  {
    var t, p := s.tower, LevelPath(e.level);
    match e
    case SpecificGateHidden(level, u, layer) =>
      SpelledParts(t, level, GATE_SPECIFIC);
      RegroupGate(t, p, GATE_SPECIFIC, After(t, level, GATE_SPECIFIC), "/tower_", "_", ToDecimal(layer));
    case SpecificGate(level, u) =>
      SpelledParts(t, level, GATE_SOFTMAX_SPECIFIC);
      var r := After(t, level, GATE_SOFTMAX_SPECIFIC);
      if s.TowerLayer? {
        RegroupLayer(t, p, GATE_SOFTMAX_SPECIFIC, r, "/tower_", "_", ToDecimal(s.layer));
      } else {
        RegroupOutput(t, p, GATE_SOFTMAX_SPECIFIC, r, "/", "_output");
      }
    case SpecificExpert(level, u, j, layer) => ExpertClashMeets(t, u, level, j, layer);
  }

  lemma ExpertClashMeets(t: string, u: string, level: nat, j: nat, layer: nat)
    requires ExpertClash(t, u, level, j)
    ensures Path(TowerLayer(t, layer)) == Path(SpecificExpert(level, u, j, layer))
  {
    var end := EXPERT_SPECIFIC + ToDecimal(j);
    var f := t[..|t| - |end|];
    SpelledParts(t, level, TASK);
    assert t == f + end;
    RegroupExpert(t, LevelPath(level), TASK, After(t, level, TASK), "/tower_", f, EXPERT_SPECIFIC, ToDecimal(j),
                  "_", ToDecimal(layer));
  }

  /** Text without a slash before a string that starts later with one. */
  lemma HeadBeforeSlash(p: string, x: string, a: string, y: string)
    requires p + x == a + (['/'] + y) && '/' !in p
    ensures p <= a && a[|p|..] + (['/'] + y) == x
  {
    var s := a + (['/'] + y);
    assert s[|a|] == '/';
    assert forall k :: 0 <= k < |p| ==> s[k] == p[k] != '/';
    assert |p| <= |a|;
    assert a[..|p|] == s[..|p|] == p;
    assert (p + x)[|p|..] == x;
  }

  lemma SlashIsIn(x: string, a: string, y: string)
    requires x == a + (['/'] + y)
    ensures '/' in x
  {
    assert x[|a|] == '/';
  }

  function TowerTail(s: Scope): string
    requires !Extraction(s)
  {
    if s.TowerLayer? then "tower_" + s.tower + "_" + ToDecimal(s.layer) else s.tower + "_output"
  }

  lemma TowerPath(s: Scope)
    requires !Extraction(s)
    ensures Path(s) == s.tower + (['/'] + TowerTail(s))
  {
    assert "/tower_" == ['/'] + "tower_";
    if s.TowerLayer? {
      RegroupTower(s.tower, ['/'], "tower_", "_", ToDecimal(s.layer));
    }
  }

  lemma RegroupTower(t: string, slash: string, a: string, us: string, d: string)
    ensures t + (slash + a) + t + us + d == t + (slash + (a + t + us + d))
  {}

  function NetworkName(level: nat): string {
    "extraction_network_" + ToDecimal(level)
  }

  function LevelName(level: nat): string {
    "level_" + (ToDecimal(level) + "_")
  }

  lemma LevelPathParts(level: nat)
    ensures LevelPath(level) == NetworkName(level) + (['/'] + LevelName(level))
    ensures '/' !in NetworkName(level) && '/' !in LevelName(level)
    ensures |LevelName(level)| > 0 && LevelName(level)[0] == 'l'
    ensures |NetworkName(level)| > 0 && NetworkName(level)[0] == 'e'
  {
    NumeralAvoids(level, '/');
  }

  /** A meeting tower begins with the level path, and the rest continues into the local name. */
  lemma MeetingBegins(s: Scope, e: Scope)
    requires !Extraction(s) && Extraction(e) && Path(s) == Path(e)
    ensures LevelPath(e.level) <= s.tower
    ensures s.tower[|LevelPath(e.level)|..] + (['/'] + TowerTail(s)) == LocalName(e)
  {
    TowerPath(s);
    LevelPathParts(e.level);
    PathsBegin(s, NetworkName(e.level), LevelName(e.level), LocalName(e));
  }

  lemma PathsBegin(s: Scope, n: string, l: string, local: string)
    requires !Extraction(s) && '/' !in n && '/' !in l
    requires |n| > 0 && n[0] == 'e' && |l| > 0 && l[0] == 'l'
    requires s.tower + (['/'] + TowerTail(s)) == n + (['/'] + l) + local
    ensures n + (['/'] + l) <= s.tower
    ensures s.tower[|n + (['/'] + l)|..] + (['/'] + TowerTail(s)) == local
  {
    var t, tail := s.tower, TowerTail(s);
    RegroupLevel(n, l, local);
    HeadBeforeSlash(n, ['/'] + (l + local), t, tail);
    assert t[0] == n[0];
    TailStart(s);
    SlashAfterNetwork(t[|n|..], tail, l, local);
    JoinPrefix(t, n, ['/'] + l);
  }

  lemma RegroupLevel(n: string, l: string, local: string)
    ensures n + (['/'] + l) + local == n + (['/'] + (l + local))
  {}

  lemma JoinPrefix(t: string, n: string, l: string)
    requires n <= t && l <= t[|n|..]
    ensures n + l <= t && t[|n + l|..] == t[|n|..][|l|..]
  {
    assert t == n + t[|n|..];
  }

  lemma TailStart(s: Scope)
    requires !Extraction(s) && |s.tower| > 0 && s.tower[0] == 'e'
    ensures |TowerTail(s)| > 0 && TowerTail(s)[0] != 'l'
  {}

  lemma SlashAfterNetwork(b: string, tail: string, l: string, local: string)
    requires |tail| > 0 && tail[0] != 'l' && |l| > 0 && l[0] == 'l' && '/' !in l
    requires b + (['/'] + tail) == ['/'] + (l + local)
    ensures ['/'] + l <= b && b[|l| + 1..] + (['/'] + tail) == local
  {
    var w := b + (['/'] + tail);
    assert w[1] == 'l';
    assert w[|b| + 1] == tail[0];
    assert w[0] == b[0];
    var c := b[1..];
    assert b == ['/'] + c;
    assert w == ['/'] + (c + (['/'] + tail));
    CancelPrefix(['/'], c + (['/'] + tail), l + local);
    HeadBeforeSlash(l, local, c, tail);
    assert b[|l| + 1..] == c[|l|..];
  }

  lemma SharedNamesHaveNoSlash(e: Scope)
    requires e.SharedExpert? || e.SharedGateHidden? || e.SharedGate?
    ensures '/' !in LocalName(e)
  {
    match e
    case SharedExpert(_, k, layer) =>
      NumeralAvoids(k, '/');
      NumeralAvoids(layer, '/');
    case SharedGateHidden(_, layer) => NumeralAvoids(layer, '/');
    case SharedGate(_) =>
  }

  lemma NotBothEnds(x: string, y: string, n: nat)
    ensures x + "_output" != Numbered(y, n)
  {
    LastIsDigit(y, n);
    assert (x + "_output")[|x + "_output"| - 1] == 't';
  }

  lemma SlashFreeEnd(x: string, t: string, y: string, end: string)
    requires x + t == y + end && '/' in t && '/' !in end
    ensures EndsWith(t, end)
  {
    var w := x + t;
    var i :| 0 <= i < |t| && t[i] == '/';
    assert w[|x| + i] == '/';
    assert forall k :: |y| <= k < |w| ==> w[k] == end[k - |y|] != '/';
    assert |x| <= |y|;
    assert t == w[|x|..] && end == w[|y|..];
  }

  lemma LevelPathHasSlash(level: nat, t: string)
    requires LevelPath(level) <= t
    ensures '/' in t
  {
    var n := "extraction_network_" + ToDecimal(level);
    assert LevelPath(level)[|n|] == '/';
    assert t[|n|] == '/';
  }

  /** What follows the kind in the name of a task's own layer. */
  function AfterKind(e: Scope): (x: string)
    requires e.SpecificGateHidden? || e.SpecificGate? || e.SpecificExpert?
    ensures LocalName(e) == KindOf(e) + x
  {
    match e
    case SpecificGateHidden(_, u, layer) => Numbered(u, layer)
    case SpecificGate(_, u) => u
    case SpecificExpert(_, u, j, layer) => Numbered(u + EXPERT_SPECIFIC + ToDecimal(j), layer)
  }

  function KindOf(e: Scope): (k: string)
    requires e.SpecificGateHidden? || e.SpecificGate? || e.SpecificExpert?
    ensures '/' !in k
  {
    match e
    case SpecificGateHidden(_, _, _) => GATE_SPECIFIC
    case SpecificGate(_, _) => GATE_SOFTMAX_SPECIFIC
    case SpecificExpert(_, _, _, _) => TASK
  }

  /** A meeting tower spells the kind as well, and what is left of it continues into the task's name. */
  lemma MeetingContinues(s: Scope, e: Scope)
    requires !Extraction(s) && (e.SpecificGateHidden? || e.SpecificGate? || e.SpecificExpert?) && Path(s) == Path(e)
    ensures Spells(s.tower, e.level, KindOf(e)) && '/' in s.tower
    ensures After(s.tower, e.level, KindOf(e)) + (['/'] + TowerTail(s)) == AfterKind(e)
  {
    MeetingBegins(s, e);
    LevelPathHasSlash(e.level, s.tower);
    HeadBeforeSlash(KindOf(e), AfterKind(e), s.tower[|LevelPath(e.level)|..], TowerTail(s));
  }

  lemma TailAsNumbered(r: string, t: string, layer: nat)
    ensures r + (['/'] + ("tower_" + t + "_" + ToDecimal(layer))) == Numbered(r + ("/tower_" + t), layer)
    ensures r + (['/'] + ("tower_" + t + "_" + ToDecimal(layer))) == r + ("/tower_" + t + "_" + ToDecimal(layer))
  {
    assert ['/'] + "tower_" == "/tower_";
    TailRegroup(r, "tower_", t, "_", ToDecimal(layer));
  }

  lemma TailRegroup(r: string, mid: string, t: string, us: string, d: string)
    ensures r + (['/'] + (mid + t + us + d)) == r + ((['/'] + mid) + t) + us + d
    ensures r + (['/'] + (mid + t + us + d)) == r + ((['/'] + mid) + t + us + d)
  {}

  lemma OutputIsNotNumbered(r: string, t: string, x: string, n: nat)
    ensures r + (['/'] + (t + "_output")) != Numbered(x, n)
  {
    assert r + (['/'] + (t + "_output")) == (r + (['/'] + t)) + "_output";
    NotBothEnds(r + (['/'] + t), x, n);
  }

  lemma MeetingGateHidden(s: Scope, e: Scope)
    requires !Extraction(s) && e.SpecificGateHidden? && Path(s) == Path(e)
    ensures Clash(s, e)
  {
    MeetingContinues(s, e);
    var r := After(s.tower, e.level, GATE_SPECIFIC);
    if s.TowerLayer? {
      TailAsNumbered(r, s.tower, s.layer);
      NumberedInjective(r + ("/tower_" + s.tower), s.layer, e.tower, e.layer);
    } else {
      OutputIsNotNumbered(r, s.tower, e.tower, e.layer);
    }
  }

  lemma MeetingGate(s: Scope, e: Scope)
    requires !Extraction(s) && e.SpecificGate? && Path(s) == Path(e)
    ensures Clash(s, e)
  {
    MeetingContinues(s, e);
    var r := After(s.tower, e.level, GATE_SOFTMAX_SPECIFIC);
    if s.TowerLayer? {
      TailAsNumbered(r, s.tower, s.layer);
    } else {
      TailAsOutput(s.tower, "/", "_output");
    }
  }

  lemma TailAsOutput(t: string, slash: string, out: string)
    ensures slash + (t + out) == slash + t + out
  {}

  lemma MeetingExpert(s: Scope, e: Scope)
    requires !Extraction(s) && e.SpecificExpert? && Path(s) == Path(e)
    ensures Clash(s, e)
  {
    MeetingContinues(s, e);
    var r, x := After(s.tower, e.level, TASK), e.tower + EXPERT_SPECIFIC + ToDecimal(e.expert);
    if s.TowerLayer? {
      TailAsNumbered(r, s.tower, s.layer);
      NumberedInjective(r + ("/tower_" + s.tower), s.layer, x, e.layer);
      SameExpertHead(s.tower, e.tower, e.level, e.expert);
    } else {
      OutputIsNotNumbered(r, s.tower, x, e.layer);
    }
  }

  lemma SameExpertHead(t: string, u: string, level: nat, j: nat)
    requires Spells(t, level, TASK) && '/' in t
    requires After(t, level, TASK) + ("/tower_" + t) == u + EXPERT_SPECIFIC + ToDecimal(j)
    ensures ExpertClash(t, u, level, j)
  {
    ExpertEndHasNoSlash(j);
    Associate(u, EXPERT_SPECIFIC, ToDecimal(j));
    TowerEndsAsExpert(After(t, level, TASK), "/tower_", t, u, EXPERT_SPECIFIC + ToDecimal(j));
  }

  lemma ExpertEndHasNoSlash(j: nat)
    ensures '/' !in EXPERT_SPECIFIC + ToDecimal(j)
  {
    NumeralAvoids(j, '/');
  }

  lemma Associate(a: string, b: string, c: string)
    ensures a + b + c == a + (b + c)
  {}

  lemma TowerEndsAsExpert(r: string, mid: string, t: string, u: string, end: string)
    requires r + (mid + t) == u + end && '/' in t && '/' !in end
    ensures EndsWith(t, end) && u == r + mid + t[..|t| - |end|]
  {
    assert r + (mid + t) == (r + mid) + t;
    SlashFreeEnd(r + mid, t, u, end);
    var f := t[..|t| - |end|];
    assert t == f + end;
    assert (r + mid) + (f + end) == (r + mid + f) + end;
    CancelSuffix(r + mid + f, u, end);
  }

  /** A tower layer has the name of an extraction layer exactly when the two task names clash: the tower's name
      spells an extraction path, and the other task's name is built around it. */
  lemma TowerMeetsIff(s: Scope, e: Scope)
    requires !Extraction(s) && Extraction(e)
    ensures Path(s) == Path(e) <==> Clash(s, e)
  {
    if Clash(s, e) {
      ClashMeets(s, e);
    }
    if Path(s) == Path(e) {
      match e
      case SpecificGateHidden(_, _, _) => MeetingGateHidden(s, e);
      case SpecificGate(_, _) => MeetingGate(s, e);
      case SpecificExpert(_, _, _, _) => MeetingExpert(s, e);
      case _ => MeetingShared(s, e);
    }
  }

  lemma MeetingShared(s: Scope, e: Scope)
    requires !Extraction(s) && (e.SharedExpert? || e.SharedGateHidden? || e.SharedGate?)
    ensures Path(s) != Path(e)
  {
    SharedNamesHaveNoSlash(e);
    if Path(s) == Path(e) {
      MeetingBegins(s, e);
      SlashIsIn(LocalName(e), s.tower[|LevelPath(e.level)|..], TowerTail(s));
    }
  }
}
