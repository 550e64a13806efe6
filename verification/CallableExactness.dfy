/** How far the agreement of the two run paths goes: exactly as far as what callers are left to observe. */
module CallableExactness {
  import opened Options
  import opened Sessions
  import opened CallableModel

  ghost predicate Total(g: Graph) {
    forall feeds: Feeds, name: string :: g.fetch(feeds, name).Some?
  }

  /** On every graph without failing nodes the run is defined and gives the outcome of the plain named run. */
  ghost predicate AlwaysAgrees(st: State, inputs: seq<(string, Tensor)>, names: seq<string>) {
    forall g: Graph :: Total(g) ==>
      Defined(st, g, inputs, names) && RunOutcome(st, g, inputs, names) == RunNamed(g, inputs, names)
  }

  /** The tensors, taken in list order, feed the names they carry. */
  predicate FeedsMatch(opts: CallableOptions, inputs: seq<(string, Tensor)>, names: seq<string>) {
    && |inputs| == |opts.feed|
    && (names != [] ==> FeedMap(Named(opts.feed, Tensors(inputs))) == FeedMap(inputs))
  }

  /** The graph whose nodes output their own name. */
  ghost function Echo(): (g: Graph)
    ensures Total(g)
    ensures forall feeds: Feeds, n: string :: g.fetch(feeds, n) == Some(Tensor(n))
  {
    Graph((feeds: Feeds, n: string) => Some(Tensor(n)))
  }

  /** The graph that tells one feeding from all others. */
  ghost function Telltale(m: Feeds): (g: Graph)
    ensures Total(g)
    ensures forall feeds: Feeds, n: string ::
      g.fetch(feeds, n) == Some(Tensor(if feeds == m then "same" else "other"))
  {
    Graph((feeds: Feeds, n: string) => Some(Tensor(if feeds == m then "same" else "other")))
  }

  // ---------- what is harvested when a request is not proper ----------

  /** A slot that has been moved from stays so. */
  lemma {:induction false} HarvestSpoiled(outs: seq<Tensor>, index: map<string, nat>, names: seq<string>, k: nat)
    requires InRange(index, names, |outs|) && k < |names| && outs[Lookup(index, names[k])] == Moved
    ensures Harvest(outs, index, names)[k] == Moved
    decreases |names|
  {
    var n := |names| - 1;
    if k < n {
      HarvestSpoiled(outs[Lookup(index, names[n]) := Moved], index, names[..n], k);
    }
  }

  /** Of two equal names the earlier one gets a moved-from tensor. */
  lemma {:induction false} HarvestRepeated(outs: seq<Tensor>, index: map<string, nat>, names: seq<string>,
                                           a: nat, b: nat)
    requires InRange(index, names, |outs|) && a < b < |names| && names[a] == names[b]
    ensures Harvest(outs, index, names)[a] == Moved
    decreases |names|
  {
    var n := |names| - 1;
    var rest := outs[Lookup(index, names[n]) := Moved];
    if b == n {
      HarvestSpoiled(rest, index, names[..n], a);
    } else {
      HarvestRepeated(rest, index, names[..n], a, b);
    }
  }

  /** Nothing is harvested that was not fetched. */
  lemma {:induction false} HarvestOnlyFetched(outs: seq<Tensor>, index: map<string, nat>, names: seq<string>, k: nat)
    requires InRange(index, names, |outs|) && k < |names|
    ensures var t := Harvest(outs, index, names)[k]; t == Moved || t in outs
    decreases |names|
  {
    var n := |names| - 1;
    if k < n {
      var rest := outs[Lookup(index, names[n]) := Moved];
      HarvestOnlyFetched(rest, index, names[..n], k);
      assert forall t :: t in rest ==> t == Moved || t in outs;
    }
  }

  lemma EchoFetched(feeds: Feeds, names: seq<string>)
    ensures Fetched(Echo(), feeds, names).Ok?
    ensures forall k :: 0 <= k < |names| ==> Fetched(Echo(), feeds, names).value[k] == Tensor(names[k])
  {}

  lemma EchoNeedsProperNames(st: State, inputs: seq<(string, Tensor)>, names: seq<string>)
    requires Inv(st) && st.hasCallable
    requires Defined(st, Echo(), inputs, names)
    requires RunOutcome(st, Echo(), inputs, names) == RunNamed(Echo(), inputs, names)
    ensures Distinct(names) && AllIn(names, st.live[st.callable].fetch)
    ensures |inputs| == |st.live[st.callable].feed|
  {
    var opts := st.live[st.callable];
    EchoFetched(FeedMap(inputs), names);
    var feeds := FeedMap(Named(opts.feed, Tensors(inputs)));
    EchoFetched(feeds, opts.fetch);
    var outs := Fetched(Echo(), feeds, opts.fetch).value;
    var got := Harvest(outs, st.index, names);
    assert forall k :: 0 <= k < |names| ==> got[k] == Tensor(names[k]);
    forall k | 0 <= k < |names| ensures names[k] in opts.fetch {
      HarvestOnlyFetched(outs, st.index, names, k);
      var i :| 0 <= i < |outs| && outs[i] == Tensor(names[k]);
      assert opts.fetch[i] == names[k];
    }
    forall a, b | 0 <= a < b < |names| ensures names[a] != names[b] {
      if names[a] == names[b] {
        HarvestRepeated(outs, st.index, names, a, b);
      }
    }
  }

  lemma TelltaleNeedsFeeds(st: State, inputs: seq<(string, Tensor)>, names: seq<string>)
    requires Inv(st) && st.hasCallable && names != []
    requires |inputs| == |st.live[st.callable].feed|
    requires Distinct(names) && AllIn(names, st.live[st.callable].fetch)
    requires Defined(st, Telltale(FeedMap(inputs)), inputs, names)
    requires RunOutcome(st, Telltale(FeedMap(inputs)), inputs, names)
             == RunNamed(Telltale(FeedMap(inputs)), inputs, names)
    ensures FeedMap(Named(st.live[st.callable].feed, Tensors(inputs))) == FeedMap(inputs)
  {
    var opts, g := st.live[st.callable], Telltale(FeedMap(inputs));
    var feeds := FeedMap(Named(opts.feed, Tensors(inputs)));
    HarvestIsFetched(g, feeds, st.index, opts.fetch, names);
    assert Fetched(g, feeds, names).value[0] == g.fetch(feeds, names[0]).value;
    assert Fetched(g, FeedMap(inputs), names).value[0] == g.fetch(FeedMap(inputs), names[0]).value;
  }

  lemma MatchingRunAgrees(st: State, g: Graph, inputs: seq<(string, Tensor)>, names: seq<string>)
    requires Inv(st) && st.hasCallable && Total(g)
    requires Distinct(names) && AllIn(names, st.live[st.callable].fetch)
    requires FeedsMatch(st.live[st.callable], inputs, names)
    requires Defined(st, g, inputs, names)
    ensures RunOutcome(st, g, inputs, names) == RunNamed(g, inputs, names)
  {
    var opts := st.live[st.callable];
    HarvestIsFetched(g, FeedMap(Named(opts.feed, Tensors(inputs))), st.index, opts.fetch, names);
  }

  /** In every state of every history that has a callable, a request is defined and agrees with the plain run, whatever
      the graph, exactly when its names are distinct, all currently fetched, and its tensors feed their own names. */
  lemma AgreesExactlyWhenProper(g: Graph, events: seq<Event>, states: seq<State>, k: nat,
                                inputs: seq<(string, Tensor)>, names: seq<string>)
    requires History(g, events, states) && k < |states| && states[k].hasCallable
    requires states[k].callable in states[k].live
    ensures AlwaysAgrees(states[k], inputs, names) <==>
      && Distinct(names)
      && AllIn(names, states[k].live[states[k].callable].fetch)
      && FeedsMatch(states[k].live[states[k].callable], inputs, names)
  {
    HistoryKeepsInv(g, events, states, k);
    var st := states[k];
    var opts := st.live[st.callable];
    if AlwaysAgrees(st, inputs, names) {
      assert Defined(st, Echo(), inputs, names);
      EchoNeedsProperNames(st, inputs, names);
      if names != [] {
        assert Defined(st, Telltale(FeedMap(inputs)), inputs, names);
        TelltaleNeedsFeeds(st, inputs, names);
      }
    }
    if Distinct(names) && AllIn(names, opts.fetch) && FeedsMatch(opts, inputs, names) {
      forall g: Graph | Total(g)
        ensures Defined(st, g, inputs, names) && RunOutcome(st, g, inputs, names) == RunNamed(g, inputs, names)
      {
        CurrentInRange(st.index, opts.fetch, names);
        MatchingRunAgrees(st, g, inputs, names);
      }
    }
  }

  /** A refused remake leaves the old index entries behind, but no callable: runs are plain named runs. */
  lemma RefusedRemakeFallsBack(g: Graph, events: seq<Event>, states: seq<State>, k: nat,
                               inputs: seq<(string, Tensor)>, names: seq<string>)
    requires History(g, events, states) && k < |events| && events[k].Make? && !events[k].accepted
    ensures states[k + 1].live == map[] && states[k + 1].index == states[k].index
    ensures Defined(states[k + 1], g, inputs, names)
    ensures RunOutcome(states[k + 1], g, inputs, names) == RunNamed(g, inputs, names)
  {
    HistoryKeepsInv(g, events, states, k + 1);
    assert Step(g, states[k], events[k], states[k + 1]);
    var live := states[k + 1].live;
    assert forall h :: h !in live;
  }

  /** A graph in which only "b" fails. */
  ghost function FailsOnB(): (g: Graph)
    ensures forall feeds: Feeds, n: string :: g.fetch(feeds, n) == if n == "b" then None else Some(Tensor(n))
  {
    Graph((feeds: Feeds, n: string) => if n == "b" then None else Some(Tensor(n)))
  }

  /** The callable path fails where the plain run does not: the callable also fetches "b", which nobody asked for. */
  lemma CallableFailsAlone(start: State) returns (events: seq<Event>, states: seq<State>)
    requires IsInitial(start)
    ensures History(FailsOnB(), events, states) && |events| == 1 && states[0] == start
    ensures Proper(states[1], [], ["a"]) && Defined(states[1], FailsOnB(), [], ["a"])
    ensures RunOutcome(states[1], FailsOnB(), [], ["a"]) == Error
    ensures RunNamed(FailsOnB(), [], ["a"]) == Ok([Tensor("a")])
  {
    var opts := CallableOptions([], ["a", "b"]);
    events := [Make(opts, true, 0)];
    states := [start, MakeCallable(start, opts, true, 0)];
    assert Step(FailsOnB(), states[0], events[0], states[1]);
    assert opts.fetch[1] == "b";
    assert !Evaluates(FailsOnB(), FeedMap([]), opts.fetch);
    assert Fetched(FailsOnB(), FeedMap([]), ["a"]).value == [Tensor("a")];
  }
}
