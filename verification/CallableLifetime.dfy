/** Handle discipline over whole lifetimes of a model object. */
module CallableLifetime {
  import opened Sessions
  import opened CallableModel

  /** What a strict session would check on its calls: handles are new when made, and made only when none is live; they
      are live when run or released, and nothing is live when the session is closed, which is the last call. */
  datatype Monitor = Monitor(live: set<nat>, ever: set<nat>, closed: bool, ok: bool)

  function Check(m: Monitor, c: Call): Monitor {
    match c
    case Made(h) => Monitor(m.live + {h}, m.ever + {h}, m.closed, m.ok && !m.closed && m.live == {} && h !in m.ever)
    case Released(h) => Monitor(m.live - {h}, m.ever, m.closed, m.ok && !m.closed && h in m.live)
    case RanCallable(h) => m.(ok := m.ok && !m.closed && h in m.live)
    case RanNamed => m.(ok := m.ok && !m.closed)
    case Closed => m.(closed := true, ok := m.ok && !m.closed && m.live == {})
  }

  function Watch(log: seq<Call>): Monitor {
    if log == [] then Monitor({}, {}, false, true) else Check(Watch(log[..|log| - 1]), log[|log| - 1])
  }

  lemma WatchSnoc(log: seq<Call>, c: Call)
    ensures Watch(log + [c]) == Check(Watch(log), c)
  {
    assert (log + [c])[..|log|] == log;
  }

  /** What the monitor knows of a live model. */
  ghost predicate Sound(st: State) {
    var m := Watch(st.log);
    && m.ok && !m.closed
    && m.live == (if st.hasCallable then {st.callable} else {})
    && forall h :: h in m.ever ==> h < st.next
  }

  lemma ReleaseSound(st: State)
    requires Inv(st) && Sound(st)
    ensures Sound(Release(st)) && !Release(st).hasCallable && Release(st).next == st.next
  {
    if st.hasCallable {
      WatchSnoc(st.log, Released(st.callable));
      assert {st.callable} - {st.callable} == {};
    }
  }

  lemma MadeSound(r: State, st: State)
    requires Sound(r) && !r.hasCallable
    requires st.hasCallable && st.callable == r.next && st.next == r.next + 1 && st.log == r.log + [Made(r.next)]
    ensures Sound(st)
  {
    WatchSnoc(r.log, Made(r.next));
    assert {} + {r.next} == {r.next};
  }

  lemma RunSound(prev: State, st: State)
    requires Sound(prev)
    requires st.hasCallable == prev.hasCallable && st.callable == prev.callable && st.next == prev.next
    requires st.log == prev.log + [if prev.hasCallable then RanCallable(prev.callable) else RanNamed]
    ensures Sound(st)
  {
    WatchSnoc(prev.log, if prev.hasCallable then RanCallable(prev.callable) else RanNamed);
  }

  lemma StepSound(g: Graph, prev: State, e: Event, st: State)
    requires Inv(prev) && Sound(prev) && Step(g, prev, e, st)
    ensures Sound(st)
  {
    match e
    case Make(opts, accepted, written) =>
      ReleaseSound(prev);
      if accepted {
        MadeSound(Release(prev), st);
      }
    case RunModel(inputs, names) => RunSound(prev, st);
  }

  /** At every point of every history the session's live callables are exactly the model's own, and the session
      has never been asked to run or release a handle that was not live. */
  lemma {:induction false} HistorySound(g: Graph, events: seq<Event>, states: seq<State>, k: nat)
    requires History(g, events, states) && k < |states|
    ensures Sound(states[k])
  {
    if k > 0 {
      HistorySound(g, events, states, k - 1);
      HistoryKeepsInv(g, events, states, k - 1);
      StepSound(g, states[k - 1], events[k - 1], states[k]);
    }
  }

  // ---------- what the monitor's verdict means ----------

  function Count(log: seq<Call>, c: Call): nat {
    if log == [] then 0 else Count(log[..|log| - 1], c) + if log[|log| - 1] == c then 1 else 0
  }

  lemma {:induction false} VerdictCounts(log: seq<Call>, h: nat)
    requires Watch(log).ok
    ensures Count(log, Made(h)) == (if h in Watch(log).ever then 1 else 0)
    ensures Count(log, Released(h)) + (if h in Watch(log).live then 1 else 0) == Count(log, Made(h))
    ensures h in Watch(log).live ==> h in Watch(log).ever
  {
    if log != [] {
      VerdictCounts(log[..|log| - 1], h);
    }
  }

  /** A whole life: any history, then the destructor. Every handle that was made is released exactly once, no
      other is, and the session is closed once, as the last call, when no callable is left. */
  lemma LifetimeReleasesEachHandleOnce(g: Graph, events: seq<Event>, states: seq<State>, h: nat)
    requires History(g, events, states)
    ensures var end := Destroy(states[|events|]);
      && Watch(end.log).ok && Watch(end.log).live == {} && end.live == map[]
      && Count(end.log, Released(h)) == Count(end.log, Made(h)) <= 1
      && |end.log| > 0 && end.log[|end.log| - 1] == Closed
      && Closed !in end.log[..|end.log| - 1]
  {
    var st := states[|events|];
    HistorySound(g, events, states, |events|);
    HistoryKeepsInv(g, events, states, |events|);
    ReleaseSound(st);
    var r := Release(st);
    WatchSnoc(r.log, Closed);
    var end := Destroy(st);
    assert end.log[..|end.log| - 1] == r.log;
    VerdictCounts(end.log, h);
    NotClosedBefore(r.log);
    assert forall x :: x !in r.live;
  }

  lemma {:induction false} NotClosedBefore(log: seq<Call>)
    requires !Watch(log).closed
    ensures Closed !in log
  {
    if log != [] {
      NotClosedBefore(log[..|log| - 1]);
      assert log == log[..|log| - 1] + [log[|log| - 1]];
    }
  }
}
