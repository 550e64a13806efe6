/** ModelImpl of the Triton backend as a state machine: a model runs either through a callable, whose outputs
    are located by a cached name-to-index map that is never cleared, or through a plain named run. */
module CallableModel {
  import opened Options
  import opened Sessions

  /** What the session was asked to do. */
  datatype Call = Made(handle: nat) | Released(handle: nat) | RanCallable(handle: nat) | RanNamed | Closed

  /** `live` and `log` are the callables and calls of this model; others may have used the session before. */
  datatype State = State(open: bool, hasCallable: bool, callable: nat, index: map<string, nat>,
                         live: map<nat, CallableOptions>, next: nat, log: seq<Call>)

  datatype Event =
    | Make(opts: CallableOptions, accepted: bool, written: nat)   // `written`: the handle variable after a refusal
    | RunModel(inputs: seq<(string, Tensor)>, names: seq<string>)

  /** A new model on an open session, which may have served others before: the next handle number is any, and the
      handle variable is not set. */
  predicate IsInitial(st: State) {
    st.open && !st.hasCallable && st.index == map[] && st.live == map[] && st.log == []
  }

  function Release(st: State): State {
    if st.hasCallable then
      st.(hasCallable := false, live := st.live - {st.callable}, log := st.log + [Released(st.callable)])
    else st
  }

  /** `output_index_map_[fetch(idx)] = idx` for the first k fetches */
  function Indexed(index: map<string, nat>, fetch: seq<string>, k: nat): map<string, nat>
    requires k <= |fetch|
  {
    if k == 0 then index else Indexed(index, fetch, k - 1)[fetch[k - 1] := k - 1]
  }

  function MakeCallable(st: State, opts: CallableOptions, accepted: bool, written: nat): State {
    var r := Release(st);
    if accepted then
      r.(hasCallable := true, callable := r.next, index := Indexed(r.index, opts.fetch, |opts.fetch|),
         live := r.live[r.next := opts], next := r.next + 1, log := r.log + [Made(r.next)])
    else r.(callable := written)
  }

  /** `operator[]` on the index map: an unknown name reads 0 ... */
  function Lookup(index: map<string, nat>, name: string): nat {
    if name in index then index[name] else 0
  }

  /** ... and is inserted with it. */
  function Touched(index: map<string, nat>, names: seq<string>): map<string, nat>
    decreases |names|
  {
    if names == [] then index
    else Touched(index[names[|names| - 1] := Lookup(index, names[|names| - 1])], names[..|names| - 1])
  }

  predicate InRange(index: map<string, nat>, names: seq<string>, size: nat) {
    forall i :: 0 <= i < |names| ==> Lookup(index, names[i]) < size
  }

  /** The requested outputs, taken from the last name to the first; each is moved out of the vector. */
  function Harvest(outs: seq<Tensor>, index: map<string, nat>, names: seq<string>): (r: seq<Tensor>)
    requires InRange(index, names, |outs|)
    ensures |r| == |names|
    decreases |names|
  {
    if names == [] then [] else
      var n := |names| - 1;
      var i := Lookup(index, names[n]);
      Harvest(outs[i := Moved], index, names[..n]) + [outs[i]]
  }

  function Positional(st: State, g: Graph, inputs: seq<(string, Tensor)>): (r: Result<seq<Tensor>>)
  {
    if st.callable in st.live then RunPositional(g, st.live[st.callable], Tensors(inputs)) else Error
  }

  /** Reading past the end of the output vector is undefined: callers must not ask for it. */
  predicate Defined(st: State, g: Graph, inputs: seq<(string, Tensor)>, names: seq<string>) {
    st.hasCallable ==>
      var outs := Positional(st, g, inputs);
      outs.Ok? ==> InRange(st.index, names, |outs.value|)
  }

  function RunOutcome(st: State, g: Graph, inputs: seq<(string, Tensor)>, names: seq<string>): Result<seq<Tensor>>
    requires Defined(st, g, inputs, names)
  {
    if st.hasCallable then
      var outs := Positional(st, g, inputs);
      if outs.Ok? then Ok(Harvest(outs.value, st.index, names)) else Error
    else RunNamed(g, inputs, names)
  }

  function AfterRun(st: State, g: Graph, inputs: seq<(string, Tensor)>, names: seq<string>): State
    requires Defined(st, g, inputs, names)
  {
    var index := if st.hasCallable && Positional(st, g, inputs).Ok? then Touched(st.index, names) else st.index;
    st.(index := index, log := st.log + [if st.hasCallable then RanCallable(st.callable) else RanNamed])
  }

  /** ~ModelImpl */
  function Destroy(st: State): State {
    var r := Release(st);
    r.(open := false, log := r.log + [Closed])
  }

  // ---------- histories ----------

  /** A whole history: the states before, between and after its events. */
  ghost predicate History(g: Graph, events: seq<Event>, states: seq<State>) {
    && |states| == |events| + 1
    && IsInitial(states[0])
    && forall k :: 0 <= k < |events| ==> Step(g, states[k], events[k], states[k + 1])
  }

  ghost predicate Step(g: Graph, prev: State, e: Event, st: State) {
    match e
    case Make(opts, accepted, written) => st == MakeCallable(prev, opts, accepted, written)
    case RunModel(inputs, names) => Defined(prev, g, inputs, names) && st == AfterRun(prev, g, inputs, names)
  }

  lemma HistorySnoc(g: Graph, events: seq<Event>, states: seq<State>, e: Event, st: State)
    requires History(g, events, states) && Step(g, states[|events|], e, st)
    ensures History(g, events + [e], states + [st])
  {
    var es, ss := events + [e], states + [st];
    forall k | 0 <= k < |es| ensures Step(g, ss[k], es[k], ss[k + 1]) {
      if k < |events| {
        assert Step(g, states[k], events[k], states[k + 1]);
      }
    }
  }

  // ---------- the invariant ----------

  /** Every current fetch is found at a position that holds it, whatever else the map still contains. */
  ghost predicate IndexCurrent(index: map<string, nat>, fetch: seq<string>) {
    forall n :: n in fetch ==> n in index && index[n] < |fetch| && fetch[index[n]] == n
  }

  ghost predicate Inv(st: State) {
    && st.open
    && (st.hasCallable ==>
          && st.callable in st.live
          && IndexCurrent(st.index, st.live[st.callable].fetch))
    && (forall h :: h in st.live <==> st.hasCallable && h == st.callable)
    && (st.hasCallable ==> st.callable < st.next)
  }

  lemma {:induction false} IndexedCurrent(index: map<string, nat>, fetch: seq<string>, k: nat)
    requires k <= |fetch|
    ensures IndexCurrent(Indexed(index, fetch, k), fetch[..k])
  {
    if k > 0 {
      IndexedCurrent(index, fetch, k - 1);
      assert fetch[..k] == fetch[..k - 1] + [fetch[k - 1]];
    }
  }

  lemma {:induction false} TouchedKeeps(index: map<string, nat>, names: seq<string>, fetch: seq<string>)
    requires IndexCurrent(index, fetch)
    ensures IndexCurrent(Touched(index, names), fetch)
    decreases |names|
  {
    if names != [] {
      var last := names[|names| - 1];
      TouchedKeeps(index[last := Lookup(index, last)], names[..|names| - 1], fetch);
    }
  }

  lemma MakeKeeps(st: State, opts: CallableOptions, accepted: bool, written: nat)
    requires Inv(st)
    ensures Inv(MakeCallable(st, opts, accepted, written))
  {
    IndexedCurrent(Release(st).index, opts.fetch, |opts.fetch|);
    assert opts.fetch[..|opts.fetch|] == opts.fetch;
  }

  lemma RunKeeps(st: State, g: Graph, inputs: seq<(string, Tensor)>, names: seq<string>)
    requires Inv(st) && Defined(st, g, inputs, names)
    ensures Inv(AfterRun(st, g, inputs, names))
  {
    if st.hasCallable {
      TouchedKeeps(st.index, names, st.live[st.callable].fetch);
    }
  }

  lemma StepKeeps(g: Graph, prev: State, e: Event, st: State)
    requires Inv(prev) && Step(g, prev, e, st)
    ensures Inv(st)
  {
    match e
    case Make(opts, accepted, written) => MakeKeeps(prev, opts, accepted, written);
    case RunModel(inputs, names) => RunKeeps(prev, g, inputs, names);
  }

  /** Every state of every history satisfies the invariant. */
  lemma {:induction false} HistoryKeepsInv(g: Graph, events: seq<Event>, states: seq<State>, k: nat)
    requires History(g, events, states) && k < |states|
    ensures Inv(states[k])
  {
    if k > 0 {
      HistoryKeepsInv(g, events, states, k - 1);
      StepKeeps(g, states[k - 1], events[k - 1], states[k]);
    }
  }

  // ---------- both paths agree ----------

  ghost predicate Distinct(names: seq<string>) {
    forall i, j :: 0 <= i < j < |names| ==> names[i] != names[j]
  }

  ghost predicate AllIn(names: seq<string>, fetch: seq<string>) {
    forall i :: 0 <= i < |names| ==> names[i] in fetch
  }

  lemma CurrentInRange(index: map<string, nat>, fetch: seq<string>, names: seq<string>)
    requires IndexCurrent(index, fetch) && AllIn(names, fetch)
    ensures InRange(index, names, |fetch|)
  {}

  /** Distinct names are harvested unspoiled: nothing that is still needed has been moved away. */
  lemma {:induction false} HarvestCurrent(outs: seq<Tensor>, index: map<string, nat>, fetch: seq<string>,
                                          names: seq<string>, k: nat)
    requires |outs| == |fetch| && IndexCurrent(index, fetch) && AllIn(names, fetch) && Distinct(names)
    requires k < |names|
    ensures InRange(index, names, |outs|)
    ensures Harvest(outs, index, names)[k] == outs[Lookup(index, names[k])]
    decreases |names|
  {
    CurrentInRange(index, fetch, names);
    var n := |names| - 1;
    if k < n {
      var i := Lookup(index, names[n]);
      assert names[n] in fetch && names[k] in fetch;
      assert names[k] != names[n];
      assert Lookup(index, names[k]) != i;
      HarvestCurrent(outs[i := Moved], index, fetch, names[..n], k);
    }
  }

  lemma HarvestIsFetched(g: Graph, feeds: Feeds, index: map<string, nat>, fetch: seq<string>, names: seq<string>)
    requires IndexCurrent(index, fetch) && AllIn(names, fetch) && Distinct(names)
    requires Evaluates(g, feeds, fetch)
    ensures InRange(index, names, |fetch|)
    ensures Fetched(g, feeds, names) == Ok(Harvest(Fetched(g, feeds, fetch).value, index, names))
  {
    CurrentInRange(index, fetch, names);
    var outs := Fetched(g, feeds, fetch).value;
    forall k | 0 <= k < |names|
      ensures g.fetch(feeds, names[k]).Some? && Harvest(outs, index, names)[k] == g.fetch(feeds, names[k]).value
    {
      HarvestCurrent(outs, index, fetch, names, k);
      assert names[k] in fetch;
      assert fetch[index[names[k]]] == names[k];
    }
    assert Harvest(outs, index, names) == Fetched(g, feeds, names).value;
  }

  lemma NamedBack(inputs: seq<(string, Tensor)>, feed: seq<string>)
    requires Names(inputs) == feed
    ensures Named(feed, Tensors(inputs)) == inputs
  {
    forall i | 0 <= i < |inputs| ensures Named(feed, Tensors(inputs))[i] == inputs[i] {
      assert feed[i] == Names(inputs)[i];
    }
  }

  /** What the source leaves to its callers: distinct names from the current fetches, inputs in feed order. */
  ghost predicate Proper(st: State, inputs: seq<(string, Tensor)>, names: seq<string>) {
    st.hasCallable && st.callable in st.live ==>
      && Distinct(names)
      && AllIn(names, st.live[st.callable].fetch)
      && Names(inputs) == st.live[st.callable].feed
  }

  /** After any history of successful and failed remakes and of runs, a proper run is defined and gives what the
      plain named run gives, tensor for tensor. The callable path can only fail where the plain run does not
      because it fetches everything: the outcomes are equal exactly when all current fetches evaluate or a
      requested one fails. */
  lemma RunAgreesWithNamedRun(g: Graph, events: seq<Event>, states: seq<State>, k: nat,
                              inputs: seq<(string, Tensor)>, names: seq<string>)
    requires History(g, events, states) && k < |states| && Proper(states[k], inputs, names)
    ensures var st := states[k];
      && Defined(st, g, inputs, names)
      && (RunOutcome(st, g, inputs, names).Ok? ==>
            RunOutcome(st, g, inputs, names) == RunNamed(g, inputs, names))
      && (RunOutcome(st, g, inputs, names) == RunNamed(g, inputs, names) <==>
            || !st.hasCallable
            || !Evaluates(g, FeedMap(inputs), names)
            || (st.callable in st.live && Evaluates(g, FeedMap(inputs), st.live[st.callable].fetch)))
  {
    HistoryKeepsInv(g, events, states, k);
    if states[k].hasCallable {
      CallableAgrees(g, states[k], inputs, names);
    }
  }

  lemma CallableAgrees(g: Graph, st: State, inputs: seq<(string, Tensor)>, names: seq<string>)
    requires Inv(st) && st.hasCallable && Proper(st, inputs, names)
    ensures Defined(st, g, inputs, names)
    ensures RunOutcome(st, g, inputs, names) ==
      if Evaluates(g, FeedMap(inputs), st.live[st.callable].fetch) then RunNamed(g, inputs, names) else Error
    ensures Evaluates(g, FeedMap(inputs), st.live[st.callable].fetch) ==> Evaluates(g, FeedMap(inputs), names)
  {
    var opts := st.live[st.callable];
    CurrentInRange(st.index, opts.fetch, names);
    NamedBack(inputs, opts.feed);
    if Evaluates(g, FeedMap(inputs), opts.fetch) {
      HarvestIsFetched(g, FeedMap(inputs), st.index, opts.fetch, names);
    }
  }

  /** The names a run evaluates: all fetches of the callable, or the requested ones. */
  function Evaluated(st: State, names: seq<string>): seq<string> {
    if st.hasCallable && st.callable in st.live then st.live[st.callable].fetch else names
  }

  /** What a proper run answers, after any history: it succeeds exactly when everything it evaluates has a value on the
      fed tensors, and then the k-th output is the value of the k-th name. */
  lemma RunAnswers(g: Graph, events: seq<Event>, states: seq<State>, k: nat,
                   inputs: seq<(string, Tensor)>, names: seq<string>, feeds: Feeds)
    requires History(g, events, states) && k < |states| && Proper(states[k], inputs, names) && Feeding(feeds, inputs)
    ensures Defined(states[k], g, inputs, names)
    ensures Answers(g, feeds, Evaluated(states[k], names), names, RunOutcome(states[k], g, inputs, names))
  {
    HistoryKeepsInv(g, events, states, k);
    RunAgreesWithNamedRun(g, events, states, k, inputs, names);
    FeedMapIs(feeds, inputs);
    var st := states[k];
    if st.hasCallable {
      NamedBack(inputs, st.live[st.callable].feed);
    }
  }

  ghost predicate Answers(g: Graph, feeds: Feeds, evaluated: seq<string>, names: seq<string>,
                          outcome: Result<seq<Tensor>>) {
    && (outcome.Ok? <==> forall n :: n in evaluated ==> g.fetch(feeds, n).Some?)
    && (outcome.Ok? ==> |outcome.value| == |names|)
    && (outcome.Ok? ==> forall i :: 0 <= i < |names| ==> g.fetch(feeds, names[i]) == Some(outcome.value[i]))
  }

  // ---------- the index map, exactly ----------

  /** A remake leaves the entries of other names alone and points each fetch at its last position. */
  lemma {:induction false} IndexedExactly(index: map<string, nat>, fetch: seq<string>, k: nat, n: string)
    requires k <= |fetch|
    ensures n !in fetch[..k] ==> (n in Indexed(index, fetch, k) <==> n in index)
    ensures n !in fetch[..k] && n in index ==> Indexed(index, fetch, k)[n] == index[n]
    ensures n in fetch[..k] ==> n in Indexed(index, fetch, k) && IsLast(fetch[..k], n, Indexed(index, fetch, k)[n])
  {
    if k > 0 {
      IndexedExactly(index, fetch, k - 1, n);
      var front := fetch[..k - 1];
      assert fetch[..k] == front + [fetch[k - 1]];
      assert forall i :: 0 <= i < k - 1 ==> fetch[..k][i] == front[i];
    }
  }

  ghost predicate IsLast(s: seq<string>, n: string, at: nat) {
    at < |s| && s[at] == n && forall i :: at < i < |s| ==> s[i] != n
  }

  /** A run adds the unknown names it looked up, at position zero, and changes nothing else. */
  lemma {:induction false} TouchedExactly(index: map<string, nat>, names: seq<string>, n: string)
    ensures n in Touched(index, names) <==> n in index || n in names
    ensures n in index ==> Touched(index, names)[n] == index[n]
    ensures n in names && n !in index ==> Touched(index, names)[n] == 0
    decreases |names|
  {
    if names != [] {
      var m := |names| - 1;
      TouchedExactly(index[names[m] := Lookup(index, names[m])], names[..m], n);
      assert names == names[..m] + [names[m]];
    }
  }

  /** The map after a remake: on acceptance the fetches are found at their last positions and every other entry is
      still there; on refusal nothing changes. */
  lemma RemakeIndex(st: State, opts: CallableOptions, accepted: bool, written: nat, n: string)
    ensures var now := MakeCallable(st, opts, accepted, written).index;
      && (accepted && n in opts.fetch ==> n in now && IsLast(opts.fetch, n, now[n]))
      && (!accepted || n !in opts.fetch ==> (n in now <==> n in st.index) && (n in now ==> now[n] == st.index[n]))
  {
    assert opts.fetch[..|opts.fetch|] == opts.fetch;
    IndexedExactly(Release(st).index, opts.fetch, |opts.fetch|, n);
  }

  /** The map after a run: only a successful run through the callable adds names. */
  lemma RunIndex(st: State, g: Graph, inputs: seq<(string, Tensor)>, names: seq<string>, n: string)
    requires Defined(st, g, inputs, names)
    ensures var now := AfterRun(st, g, inputs, names).index;
      && (n in st.index ==> n in now && now[n] == st.index[n])
      && (n !in st.index && n in now ==> now[n] == 0)
      && (n !in st.index ==>
            (n in now <==> n in names && st.hasCallable && RunOutcome(st, g, inputs, names).Ok?))
  {
    TouchedExactly(st.index, names, n);
  }

  // ---------- the output vector, exactly ----------

  /** Some later name is found at the same position. */
  ghost predicate TakenLater(index: map<string, nat>, names: seq<string>, k: nat)
    requires k < |names|
  {
    exists l :: k < l < |names| && Lookup(index, names[l]) == Lookup(index, names[k])
  }

  /** For any request, known names or not: every name gets what is at its position, unless a later name has taken it. */
  lemma {:induction false} HarvestExactly(outs: seq<Tensor>, index: map<string, nat>, names: seq<string>, k: nat)
    requires InRange(index, names, |outs|) && k < |names|
    ensures Harvest(outs, index, names)[k]
         == if TakenLater(index, names, k) then Moved else outs[Lookup(index, names[k])]
    decreases |names|
  {
    var n := |names| - 1;
    if k < n {
      var i, front := Lookup(index, names[n]), names[..n];
      HarvestExactly(outs[i := Moved], index, front, k);
      TakenLaterFront(index, names, k);
    }
  }

  lemma TakenLaterFront(index: map<string, nat>, names: seq<string>, k: nat)
    requires k < |names| - 1
    ensures var n := |names| - 1;
      TakenLater(index, names, k) <==>
        TakenLater(index, names[..n], k) || Lookup(index, names[n]) == Lookup(index, names[k])
  {
    var n := |names| - 1;
    var front := names[..n];
    assert forall l :: 0 <= l < n ==> front[l] == names[l];
    if TakenLater(index, front, k) {
      var l :| k < l < |front| && Lookup(index, front[l]) == Lookup(index, front[k]);
      assert Lookup(index, names[l]) == Lookup(index, names[k]);
    }
    if TakenLater(index, names, k) {
      var l :| k < l < |names| && Lookup(index, names[l]) == Lookup(index, names[k]);
      assert l < n ==> Lookup(index, front[l]) == Lookup(index, front[k]);
    }
  }
}
