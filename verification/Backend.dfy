/** ModelImpl of the Triton backend as it is written: an object over a session, linked lists in and out. Every
    method is proved against the state machine in CallableModel. */
module Backend {
  import opened Options
  import opened Sessions
  import opened TensorLists
  import opened IOLists
  import M = CallableModel
  import L = CallableLifetime

  /** The session object. Whether it accepts a callable is its own decision, given as a parameter. */
  class Session {
    const graph: Graph
    var open: bool
    var live: map<nat, CallableOptions>
    var next: nat
    ghost var log: seq<M.Call>

    constructor (graph: Graph)
      ensures this.graph == graph && open && live == map[] && next == 0 && log == []
    {
      this.graph := graph;
      open, live, next, log := true, map[], 0, [];
    }

    method MakeCallable(opts: CallableOptions, accepted: bool, written: nat) returns (ok: bool, handle: nat)
      modifies this
      ensures ok == accepted && open == old(open)
      ensures accepted ==>
        && handle == old(next) && live == old(live)[handle := opts] && next == old(next) + 1
        && log == old(log) + [M.Made(handle)]
      ensures !accepted ==> handle == written && live == old(live) && next == old(next) && log == old(log)
    {
      ok, handle := accepted, written;
      if accepted {
        handle := next;
        live, next := live[handle := opts], next + 1;
        log := log + [M.Made(handle)];
      }
    }

    method ReleaseCallable(handle: nat)
      modifies this
      ensures live == old(live) - {handle} && log == old(log) + [M.Released(handle)]
      ensures open == old(open) && next == old(next)
    {
      live := live - {handle};
      log := log + [M.Released(handle)];
    }

    method RunCallable(handle: nat, tensors: seq<Tensor>) returns (r: Result<seq<Tensor>>)
      modifies this`log
      ensures r == if handle in live then RunPositional(graph, live[handle], tensors) else Error
      ensures log == old(log) + [M.RanCallable(handle)]
    {
      log := log + [M.RanCallable(handle)];
      r := if handle in live then RunPositional(graph, live[handle], tensors) else Error;
    }

    method Run(inputs: seq<(string, Tensor)>, names: seq<string>) returns (r: Result<seq<Tensor>>)
      modifies this`log
      ensures r == RunNamed(graph, inputs, names)
      ensures log == old(log) + [M.RanNamed]
    {
      log := log + [M.RanNamed];
      r := RunNamed(graph, inputs, names);
    }

    method Close()
      modifies this
      ensures !open && live == old(live) && next == old(next) && log == old(log) + [M.Closed]
    {
      open := false;
      log := log + [M.Closed];
    }
  }

  // ---------- the model's share of the session ----------

  /** The callables with handles from `first` on */
  function Own(live: map<nat, CallableOptions>, first: nat): map<nat, CallableOptions> {
    map h | h in live && h >= first :: live[h]
  }

  lemma OwnMade(live: map<nat, CallableOptions>, first: nat, h: nat, opts: CallableOptions)
    requires h >= first
    ensures Own(live[h := opts], first) == Own(live, first)[h := opts]
  {}

  lemma OwnReleased(live: map<nat, CallableOptions>, first: nat, h: nat)
    ensures Own(live - {h}, first) == Own(live, first) - {h}
  {}

  ghost function Since(log: seq<M.Call>, start: nat): seq<M.Call> {
    if start <= |log| then log[start..] else []
  }

  lemma SinceSnoc(log: seq<M.Call>, start: nat, c: M.Call)
    requires start <= |log|
    ensures Since(log + [c], start) == Since(log, start) + [c]
  {}

  // ---------- facts for the output loop ----------

  ghost predicate SameLookups(a: map<string, nat>, b: map<string, nat>) {
    forall n :: M.Lookup(a, n) == M.Lookup(b, n)
  }

  lemma {:induction false} HarvestSameLookups(outs: seq<Tensor>, a: map<string, nat>, b: map<string, nat>,
                                              names: seq<string>)
    requires SameLookups(a, b) && M.InRange(a, names, |outs|)
    ensures M.InRange(b, names, |outs|) && M.Harvest(outs, a, names) == M.Harvest(outs, b, names)
    decreases |names|
  {
    if names != [] {
      var n := |names| - 1;
      HarvestSameLookups(outs[M.Lookup(a, names[n]) := Moved], a, b, names[..n]);
    }
  }

  /** The loop has handled the names from k on: what it has taken, and what is still to take. */
  ghost predicate Taken(outs0: seq<Tensor>, outs: seq<Tensor>, index0: map<string, nat>, index: map<string, nat>,
                        names: seq<string>, k: nat, values: seq<Tensor>)
    requires k <= |names|
  {
    && |outs| == |outs0| && M.InRange(index0, names, |outs0|) && M.InRange(index, names[..k], |outs|)
    && M.Harvest(outs0, index0, names) == M.Harvest(outs, index, names[..k]) + values
    && M.Touched(index0, names) == M.Touched(index, names[..k])
    && SameLookups(index0, index)
  }

  lemma TakeOne(outs0: seq<Tensor>, outs: seq<Tensor>, index0: map<string, nat>, index: map<string, nat>,
                names: seq<string>, k: nat, values: seq<Tensor>)
    requires 0 < k <= |names| && Taken(outs0, outs, index0, index, names, k, values)
    ensures var i := M.Lookup(index, names[k - 1]);
      && i < |outs|
      && Taken(outs0, outs[i := Moved], index0, index[names[k - 1] := i], names, k - 1, [outs[i]] + values)
  {
    var last := names[k - 1];
    var front := names[..k];
    assert front[..k - 1] == names[..k - 1] && front[k - 1] == last;
    var i := M.Lookup(index, last);
    assert i < |outs|;
    var more := index[last := i];
    assert SameLookups(index, more);
    HarvestSameLookups(outs[i := Moved], index, more, names[..k - 1]);
    var rest := M.Harvest(outs[i := Moved], index, names[..k - 1]);
    assert M.Harvest(outs, index, front) == rest + [outs[i]];
    assert (rest + [outs[i]]) + values == rest + ([outs[i]] + values);
  }

  /** The input loop and the deletion of the input list. */
  method TakeInputs(heap: Heap, input: ListNode?, ghost nodes: seq<ListNode>, ghost tensors: seq<TensorImpl?>)
    returns (inputs: seq<(string, Tensor)>)
    requires Chain(input, nodes, tensors) && Owned(Blocks(nodes, tensors), heap.live)
    modifies heap, nodes, set i | 0 <= i < |tensors| && tensors[i] != null :: tensors[i]
    ensures inputs == old(Carried(tensors))
    ensures heap.freed == old(heap.freed) + Blocks(nodes, tensors)
    ensures heap.live == old(heap.live) - AsSet(Blocks(nodes, tensors))
  {
    OwnedTensorsDistinct(nodes, tensors, 0, heap.live);
    inputs := MoveInputs(input, nodes, tensors);
    TensorListDelete(heap, input, nodes, tensors);
  }

  // ---------- a request as its caller lays it out ----------

  /** Every node has a tensor, and node i holds the one named by feed i; the names are distinct current fetches. Without
      a callable any list and any names will do. */
  ghost predicate Orderly(st: M.State, held: seq<Option<(string, Tensor)>>, names: seq<string>) {
    && (forall i :: 0 <= i < |held| ==> held[i].Some?)
    && (st.hasCallable && st.callable in st.live ==>
          && |held| == |st.live[st.callable].feed|
          && (forall i :: 0 <= i < |held| ==> held[i].value.0 == st.live[st.callable].feed[i])
          && M.Distinct(names) && M.AllIn(names, st.live[st.callable].fetch))
  }

  /** Exactly the names of the list are fed, each with the value of its node. */
  ghost predicate FedBy(feeds: Feeds, held: seq<Option<(string, Tensor)>>)
    requires forall i :: 0 <= i < |held| ==> held[i].Some?
  {
    && (forall i :: 0 <= i < |held| ==> held[i].value.0 in feeds && feeds[held[i].value.0] == held[i].value.1)
    && (forall n :: n in feeds ==> exists i :: 0 <= i < |held| && held[i].value.0 == n)
  }

  ghost predicate ListInputs(held: seq<Option<(string, Tensor)>>, inputs: seq<(string, Tensor)>) {
    |inputs| == |held| && forall i :: 0 <= i < |held| ==> held[i] == Some(inputs[i])
  }

  lemma FullListInputs(held: seq<Option<(string, Tensor)>>, inputs: seq<(string, Tensor)>)
    requires inputs == Present(held, |held|) && forall i :: 0 <= i < |held| ==> held[i].Some?
    ensures ListInputs(held, inputs)
  {
    PresentIsReadOff(held);
  }

  lemma OrderlyIsProper(st: M.State, held: seq<Option<(string, Tensor)>>, inputs: seq<(string, Tensor)>,
                        names: seq<string>)
    requires Orderly(st, held, names) && ListInputs(held, inputs)
    ensures M.Proper(st, inputs, names)
  {
    assert forall i :: 0 <= i < |inputs| ==> Names(inputs)[i] == held[i].value.0;
  }

  lemma FedByIsFeeding(feeds: Feeds, held: seq<Option<(string, Tensor)>>, inputs: seq<(string, Tensor)>)
    requires ListInputs(held, inputs) && FedBy(feeds, held)
    ensures Feeding(feeds, inputs)
  {
    forall n | n in feeds ensures exists i :: 0 <= i < |inputs| && inputs[i].0 == n {
      var i :| 0 <= i < |held| && held[i].value.0 == n;
      assert inputs[i].0 == n;
    }
  }

  lemma OrderlyAnswers(g: Graph, events: seq<M.Event>, states: seq<M.State>, k: nat,
                       held: seq<Option<(string, Tensor)>>, names: seq<string>, feeds: Feeds)
    requires M.History(g, events, states) && k < |states| && Orderly(states[k], held, names) && FedBy(feeds, held)
    ensures M.Defined(states[k], g, Present(held, |held|), names)
    ensures M.Answers(g, feeds, M.Evaluated(states[k], names), names,
                      M.RunOutcome(states[k], g, Present(held, |held|), names))
  {
    var inputs := Present(held, |held|);
    FullListInputs(held, inputs);
    OrderlyIsProper(states[k], held, inputs, names);
    FedByIsFeeding(feeds, held, inputs);
    M.RunAnswers(g, events, states, k, inputs, names, feeds);
  }

  /** The list carries the values of these names on these feeds, in order. */
  ghost predicate HoldsFetches(list: ListNode?, nodes: seq<ListNode>, tensors: seq<TensorImpl?>,
                               g: Graph, feeds: Feeds, names: seq<string>)
    reads nodes, tensors
  {
    && Chain(list, nodes, tensors) && |tensors| == |names|
    && forall i :: 0 <= i < |names| ==> tensors[i] != null && g.fetch(feeds, names[i]) == Some(tensors[i].value)
  }

  lemma HoldsAnswers(list: ListNode?, nodes: seq<ListNode>, tensors: seq<TensorImpl?>, g: Graph, feeds: Feeds,
                     evaluated: seq<string>, names: seq<string>, outcome: Result<seq<Tensor>>)
    requires M.Answers(g, feeds, evaluated, names, outcome) && outcome.Ok? && Holds(list, nodes, tensors, outcome.value)
    ensures HoldsFetches(list, nodes, tensors, g, feeds, names)
  {}

  // ---------- the model object ----------

  class ModelImpl {
    const session: Session
    const inputs: IONode?
    const outputs: IONode?
    var hasCallable: bool
    var callable: nat
    var outputIndex: map<string, nat>

    // Where the object took the session over, and its life since.
    ghost const first: nat
    ghost const start: nat
    ghost var events: seq<M.Event>
    ghost var states: seq<M.State>

    ghost function View(): M.State
      reads this, session
    {
      M.State(session.open, hasCallable, callable, outputIndex,
              Own(session.live, first), session.next, Since(session.log, start))
    }

    /** The current state is the last of a history of the state machine. */
    ghost predicate Valid()
      reads this, session
    {
      && M.History(session.graph, events, states) && states[|events|] == View()
      && first <= session.next && start <= |session.log|
    }

    /** Any open session will do, whatever callables were made on it before; the handle is not initialised. */
    constructor (session: Session, inputs: IONode?, outputs: IONode?)
      requires session.open && forall h :: h in session.live ==> h < session.next
      ensures this.session == session && this.inputs == inputs && this.outputs == outputs
      ensures M.IsInitial(View()) && View().next == session.next
      ensures Valid() && events == []
    {
      this.session, this.inputs, this.outputs := session, inputs, outputs;
      hasCallable, callable, outputIndex := false, *, map[];
      first, start := session.next, |session.log|;
      new;
      assert Own(session.live, first) == map[];
      events, states := [], [View()];
    }

    ghost method Record(e: M.Event)
      requires M.History(session.graph, events, states) && M.Step(session.graph, states[|events|], e, View())
      requires first <= session.next && start <= |session.log|
      modifies this`events, this`states
      ensures View() == old(View()) && Valid()
      ensures events == old(events) + [e]
    {
      M.HistorySnoc(session.graph, events, states, e, View());
      events, states := events + [e], states + [View()];
    }

    method MakeCallable(opts: CallableOptions, accepted: bool, written: nat) returns (ok: bool)
      requires Valid()
      modifies this, session
      ensures Valid() && events == old(events) + [M.Make(opts, accepted, written)]
      ensures ok == accepted
      ensures View() == M.MakeCallable(old(View()), opts, accepted, written)
    {
      if hasCallable {
        OwnReleased(session.live, first, callable);
        SinceSnoc(session.log, start, M.Released(callable));
        session.ReleaseCallable(callable);
        hasCallable := false;
      }
      ghost var released := View();
      assert released == M.Release(old(View()));
      OwnMade(session.live, first, session.next, opts);
      SinceSnoc(session.log, start, M.Made(session.next));
      ok, callable := session.MakeCallable(opts, accepted, written);
      if !ok {
        Record(M.Make(opts, accepted, written));
        return;
      }
      ghost var made := View();
      for idx := 0 to |opts.fetch|
        invariant outputIndex == M.Indexed(old(outputIndex), opts.fetch, idx)
        invariant View() == made.(index := outputIndex)
        invariant events == old(events) && states == old(states) && session.next == old(session.next) + 1
        invariant start <= |session.log|
      {
        outputIndex := outputIndex[opts.fetch[idx] := idx];
      }
      hasCallable := true;
      Record(M.Make(opts, accepted, written));
    }

    /** ~ModelImpl: the callable is released before the session is closed and deleted, then both descriptions are
        deleted, every block once. Over the whole life every handle that was made has been released exactly once. */
    method Destroy(heap: Heap, ghost ins: seq<IONode>, ghost outs: seq<IONode>)
      requires Valid() && Linked(inputs, ins) && Linked(outputs, outs)
      requires Owned(Maybe(session) + (ListBlocks(ins) + ListBlocks(outs)), heap.live)
      modifies this, session, heap
      ensures View() == M.Destroy(old(View()))
      ensures Freed(Maybe(session) + (ListBlocks(ins) + ListBlocks(outs)), old(heap.live), old(heap.freed),
                    heap.live, heap.freed)
      ensures L.Watch(View().log).ok && View().live == map[]
      ensures forall h: nat :: L.Count(View().log, M.Released(h)) == L.Count(View().log, M.Made(h)) <= 1
    {
      ghost var end := M.Destroy(View());
      L.LifetimeReleasesEachHandleOnce(session.graph, events, states, 0);
      forall h: nat ensures L.Count(end.log, M.Released(h)) == L.Count(end.log, M.Made(h)) <= 1 {
        L.LifetimeReleasesEachHandleOnce(session.graph, events, states, h);
      }
      if hasCallable {
        OwnReleased(session.live, first, callable);
        SinceSnoc(session.log, start, M.Released(callable));
        session.ReleaseCallable(callable);
        hasCallable := false;
      }
      SinceSnoc(session.log, start, M.Closed);
      session.Close();
      DeleteParts(heap, ins, outs);
    }

    method DeleteParts(heap: Heap, ghost ins: seq<IONode>, ghost outs: seq<IONode>)
      requires Linked(inputs, ins) && Linked(outputs, outs)
      requires Owned(Maybe(session) + (ListBlocks(ins) + ListBlocks(outs)), heap.live)
      modifies heap
      ensures Freed(Maybe(session) + (ListBlocks(ins) + ListBlocks(outs)), old(heap.live), old(heap.freed),
                    heap.live, heap.freed)
    {
      assert ListBlocks(outs) == ListBlocks(outs) + [];
      Delete(heap, session, ListBlocks(ins) + ListBlocks(outs));
      ghost var live1, freed1 := heap.live, heap.freed;
      IOListDelete(heap, inputs, ins, ListBlocks(outs));
      ghost var live2, freed2 := heap.live, heap.freed;
      IOListDelete(heap, outputs, outs, []);
      FreedBoth(ListBlocks(ins), ListBlocks(outs), live1, freed1, live2, freed2, heap.live, heap.freed);
      FreedBoth(Maybe(session), ListBlocks(ins) + ListBlocks(outs), old(heap.live), old(heap.freed), live1, freed1,
                heap.live, heap.freed);
    }

    /** `output_index_map_[name]` */
    method IndexOf(name: string) returns (idx: nat)
      modifies this`outputIndex
      ensures idx == M.Lookup(old(outputIndex), name) && outputIndex == old(outputIndex)[name := idx]
    {
      if name !in outputIndex {
        outputIndex := outputIndex[name := 0];
      }
      idx := outputIndex[name];
      assert outputIndex == old(outputIndex)[name := idx];
    }

    /** The output of the k-th name, moved out of the vector. */
    method MoveOut(outs: seq<Tensor>, names: seq<string>, k: nat, ghost outs0: seq<Tensor>,
                   ghost index0: map<string, nat>, ghost values: seq<Tensor>)
      returns (taken: Tensor, left: seq<Tensor>)
      requires 0 < k <= |names| && Taken(outs0, outs, index0, outputIndex, names, k, values)
      modifies this`outputIndex
      ensures Taken(outs0, left, index0, outputIndex, names, k - 1, [taken] + values)
    {
      TakeOne(outs0, outs, index0, outputIndex, names, k, values);
      var oidx := IndexOf(names[k - 1]);
      taken, left := outs[oidx], outs[oidx := Moved];
    }

    /** The output loop of the callable path: from the last name to the first, moving out of the vector. */
    method EmitPositional(heap: Heap, out: ListVar, outputs: seq<Tensor>, names: seq<string>)
      returns (ghost nodes: seq<ListNode>, ghost tensors: seq<TensorImpl?>)
      requires M.InRange(outputIndex, names, |outputs|)
      modifies heap, out, this`outputIndex
      ensures outputIndex == M.Touched(old(outputIndex), names)
      ensures Holds(out.list, nodes, tensors, M.Harvest(outputs, old(outputIndex), names))
      ensures Grown(Blocks(nodes, tensors), old(heap.live), heap.live) && heap.freed == old(heap.freed)
      ensures forall i :: 0 <= i < |nodes| ==> fresh(nodes[i]) && fresh(tensors[i])
    {
      var outs := outputs;
      var k := |names|;
      ghost var values: seq<Tensor> := [];
      out.list := null;
      nodes, tensors := [], [];
      assert names[..k] == names;
      while k > 0
        invariant 0 <= k <= |names|
        invariant Taken(outputs, outs, old(outputIndex), outputIndex, names, k, values)
        invariant Holds(out.list, nodes, tensors, values)
        invariant Grown(Blocks(nodes, tensors), old(heap.live), heap.live) && heap.freed == old(heap.freed)
        invariant forall i :: 0 <= i < |nodes| ==> fresh(nodes[i]) && fresh(tensors[i])
      {
        var taken;
        taken, outs := MoveOut(outs, names, k, outputs, old(outputIndex), values);
        k := k - 1;
        nodes, tensors := Prepend(heap, out, taken, old(heap.live), nodes, tensors, values);
        values := [taken] + values;
      }
      assert names[..0] == [];
    }

    /** The output loop of the named path. */
    method EmitNamed(heap: Heap, out: ListVar, outputs: seq<Tensor>)
      returns (ghost nodes: seq<ListNode>, ghost tensors: seq<TensorImpl?>)
      modifies heap, out
      ensures Holds(out.list, nodes, tensors, outputs)
      ensures Grown(Blocks(nodes, tensors), old(heap.live), heap.live) && heap.freed == old(heap.freed)
      ensures forall i :: 0 <= i < |nodes| ==> fresh(nodes[i]) && fresh(tensors[i])
    {
      var k := |outputs|;
      out.list := null;
      nodes, tensors := [], [];
      while k > 0
        invariant 0 <= k <= |outputs|
        invariant Holds(out.list, nodes, tensors, outputs[k..])
        invariant Grown(Blocks(nodes, tensors), old(heap.live), heap.live) && heap.freed == old(heap.freed)
        invariant forall i :: 0 <= i < |nodes| ==> fresh(nodes[i]) && fresh(tensors[i])
      {
        k := k - 1;
        nodes, tensors := Prepend(heap, out, outputs[k], old(heap.live), nodes, tensors, outputs[k + 1..]);
        assert [outputs[k]] + outputs[k + 1..] == outputs[k..];
      }
    }

    /** The session call of a run and the output list, once the inputs have been taken. */
    method Execute(heap: Heap, inputs: seq<(string, Tensor)>, names: seq<string>, out: ListVar)
      returns (ok: bool, ghost nodes: seq<ListNode>, ghost tensors: seq<TensorImpl?>)
      requires start <= |session.log| && (hasCallable ==> callable >= first)
      requires M.Defined(View(), session.graph, inputs, names)
      modifies this`outputIndex, session`log, heap, out
      ensures View() == M.AfterRun(old(View()), session.graph, inputs, names) && start <= |session.log|
      ensures ok <==> M.RunOutcome(old(View()), session.graph, inputs, names).Ok?
      ensures heap.freed == old(heap.freed)
      ensures !ok ==> out.list == old(out.list) && heap.live == old(heap.live)
      ensures ok ==>
        && Holds(out.list, nodes, tensors, M.RunOutcome(old(View()), session.graph, inputs, names).value)
        && Grown(Blocks(nodes, tensors), old(heap.live), heap.live)
        && forall i :: 0 <= i < |nodes| ==> fresh(nodes[i]) && fresh(tensors[i])
    {
      nodes, tensors := [], [];
      SinceSnoc(session.log, start, if hasCallable then M.RanCallable(callable) else M.RanNamed);
      if hasCallable {
        var r := session.RunCallable(callable, Tensors(inputs));
        if r.Error? {
          return false, nodes, tensors;
        }
        nodes, tensors := EmitPositional(heap, out, r.value, names);
      } else {
        var r := session.Run(inputs, names);
        if r.Error? {
          return false, nodes, tensors;
        }
        nodes, tensors := EmitNamed(heap, out, r.value);
      }
      ok := true;
    }

    /** A run on either path. The input list is consumed in any case: each of its tensors and nodes is freed, once.
        On an error the output variable is untouched; on success it holds a new list, disjoint from everything
        that was live, with the outcome's tensors in order. For a proper request these are the tensors of the plain
        named run, whatever remakes and runs came before. */
    method Run(heap: Heap, input: ListNode?, names: seq<string>, out: ListVar,
               ghost nodes: seq<ListNode>, ghost tensors: seq<TensorImpl?>)
      returns (ok: bool, ghost outNodes: seq<ListNode>, ghost outTensors: seq<TensorImpl?>)
      requires Valid() && Chain(input, nodes, tensors) && Owned(Blocks(nodes, tensors), heap.live)
      requires M.Defined(View(), session.graph, Carried(tensors), names)
      modifies this`outputIndex, this`events, this`states, session`log, heap, out, nodes
      modifies set i | 0 <= i < |tensors| && tensors[i] != null :: tensors[i]
      ensures Valid() && events == old(events) + [M.RunModel(old(Carried(tensors)), names)]
      ensures View() == M.AfterRun(old(View()), session.graph, old(Carried(tensors)), names)
      ensures ok <==> M.RunOutcome(old(View()), session.graph, old(Carried(tensors)), names).Ok?
      ensures heap.freed == old(heap.freed) + Blocks(nodes, tensors)
      ensures !ok ==> out.list == old(out.list) && heap.live == old(heap.live) - AsSet(Blocks(nodes, tensors))
      ensures ok ==>
        && Holds(out.list, outNodes, outTensors,
                 M.RunOutcome(old(View()), session.graph, old(Carried(tensors)), names).value)
        && Grown(Blocks(outNodes, outTensors), old(heap.live) - AsSet(Blocks(nodes, tensors)), heap.live)
        && forall i :: 0 <= i < |outNodes| ==> fresh(outNodes[i]) && fresh(outTensors[i])
      ensures ok && M.Proper(old(View()), old(Carried(tensors)), names) ==>
        var plain := RunNamed(session.graph, old(Carried(tensors)), names);
        plain.Ok? && Holds(out.list, outNodes, outTensors, plain.value)
      ensures forall feeds: Feeds ::
        Orderly(old(View()), old(Held(tensors)), names) && FedBy(feeds, old(Held(tensors))) ==>
          && (ok <==> forall n :: n in M.Evaluated(old(View()), names) ==> session.graph.fetch(feeds, n).Some?)
          && (ok ==> HoldsFetches(out.list, outNodes, outTensors, session.graph, feeds, names))
    {
      M.HistoryKeepsInv(session.graph, events, states, |events|);
      var inputs := TakeInputs(heap, input, nodes, tensors);
      ok, outNodes, outTensors := Execute(heap, inputs, names, out);
      Record(M.RunModel(inputs, names));
      if M.Proper(old(View()), inputs, names) {
        M.RunAgreesWithNamedRun(session.graph, old(events), old(states), |old(events)|, inputs, names);
      }
      ghost var st, held := old(View()), old(Held(tensors));
      forall feeds: Feeds | Orderly(st, held, names) && FedBy(feeds, held)
        ensures ok <==> forall n :: n in M.Evaluated(st, names) ==> session.graph.fetch(feeds, n).Some?
        ensures ok ==> HoldsFetches(out.list, outNodes, outTensors, session.graph, feeds, names)
      {
        OrderlyAnswers(session.graph, old(events), old(states), |old(events)|, held, names, feeds);
        if ok {
          HoldsAnswers(out.list, outNodes, outTensors, session.graph, feeds, M.Evaluated(st, names), names,
                       M.RunOutcome(st, session.graph, inputs, names));
        }
      }
    }
  }
}
