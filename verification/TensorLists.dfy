/** Heap-owned, singly linked tensor lists of the Triton backend, with an explicit record of what is freed. */
module TensorLists {
  import opened Options
  import opened Sessions

  /** The allocator as an observer: which blocks are live, and what was freed in which order. */
  class Heap {
    ghost var live: set<object>
    ghost var freed: seq<object>

    constructor ()
      ensures live == {} && freed == []
    {
      live, freed := {}, [];
    }

    /** `new` */
    method Track(o: object)
      requires o !in live
      modifies this
      ensures live == old(live) + {o} && freed == old(freed)
    {
      live := live + {o};
    }

    /** `delete`: only a live block may be freed, so nothing is freed twice. */
    method Free(o: object)
      requires o in live
      modifies this
      ensures live == old(live) - {o} && freed == old(freed) + [o]
    {
      live := live - {o};
      freed := freed + [o];
    }
  }

  class TensorImpl {
    const name: string
    var value: Tensor

    constructor (name: string, value: Tensor)
      ensures this.name == name && this.value == value
    {
      this.name := name;
      this.value := value;
    }
  }

  class ListNode {
    var tensor: TensorImpl?
    var next: ListNode?

    constructor (tensor: TensorImpl?, next: ListNode?)
      ensures this.tensor == tensor && this.next == next
    {
      this.tensor := tensor;
      this.next := next;
    }
  }

  /** From its k-th node on, `head` is an acyclic list of exactly these nodes, holding exactly these tensors. */
  ghost predicate ChainFrom(head: ListNode?, nodes: seq<ListNode>, tensors: seq<TensorImpl?>, k: nat)
    reads nodes
  {
    && |nodes| == |tensors|
    && k <= |nodes|
    && head == NodeAt(nodes, k)
    && (forall i :: k <= i < |nodes| ==> nodes[i].tensor == tensors[i] && nodes[i].next == NodeAt(nodes, i + 1))
  }

  ghost predicate Chain(head: ListNode?, nodes: seq<ListNode>, tensors: seq<TensorImpl?>)
    reads nodes
  {
    ChainFrom(head, nodes, tensors, 0)
  }

  ghost function NodeAt(nodes: seq<ListNode>, k: nat): ListNode? {
    if k < |nodes| then nodes[k] else null
  }

  /** The blocks of a list in the order they are freed: each tensor before its node. */
  ghost function BlocksFrom(nodes: seq<ListNode>, tensors: seq<TensorImpl?>, k: nat): (r: seq<object>)
    requires k <= |nodes| == |tensors|
    decreases |nodes| - k
  {
    if k == |nodes| then []
    else BlocksOf(nodes[k], tensors[k]) + BlocksFrom(nodes, tensors, k + 1)
  }

  ghost function Blocks(nodes: seq<ListNode>, tensors: seq<TensorImpl?>): (r: seq<object>)
    requires |nodes| == |tensors|
  {
    BlocksFrom(nodes, tensors, 0)
  }

  ghost function BlocksOf(node: ListNode, tensor: TensorImpl?): (r: seq<object>)
    ensures node in r && (tensor != null ==> tensor in r)
  {
    if tensor == null then [node] else [tensor, node]
  }

  /** All blocks are live and no block occurs twice: the list owns each of them. */
  ghost predicate Owned(s: seq<object>, live: set<object>) {
    && (forall i :: 0 <= i < |s| ==> s[i] in live)
    && (forall i, j :: 0 <= i < j < |s| ==> s[i] != s[j])
  }

  ghost function AsSet(s: seq<object>): set<object> {
    set o | o in s
  }

  lemma OwnedSplit(a: seq<object>, b: seq<object>, live: set<object>)
    requires Owned(a + b, live)
    ensures Owned(a, live) && Owned(b, live - AsSet(a))
  {
    var all := a + b;
    assert forall i :: 0 <= i < |a| ==> all[i] == a[i];
    assert forall i :: 0 <= i < |b| ==> all[|a| + i] == b[i];
    forall i | 0 <= i < |b| ensures b[i] in live - AsSet(a) {
      assert all[|a| + i] in live;
      assert forall j :: 0 <= j < |a| ==> all[j] != all[|a| + i];
    }
  }

  lemma {:induction false} NodeInBlocks(nodes: seq<ListNode>, tensors: seq<TensorImpl?>, k: nat, i: nat)
    requires k <= i < |nodes| == |tensors|
    ensures nodes[i] in BlocksFrom(nodes, tensors, k)
    decreases |nodes| - k
  {
    if k < i {
      NodeInBlocks(nodes, tensors, k + 1, i);
    }
    InConcat(BlocksOf(nodes[k], tensors[k]), BlocksFrom(nodes, tensors, k + 1), nodes[i]);
  }

  lemma InConcat(a: seq<object>, b: seq<object>, o: object)
    ensures o in a + b <==> o in a || o in b
  {}

  /** The blocks are the nodes and the tensors of the list, and nothing else. */
  lemma {:induction false} BlocksExactly(nodes: seq<ListNode>, tensors: seq<TensorImpl?>, k: nat, o: object)
    requires k <= |nodes| == |tensors|
    ensures o in BlocksFrom(nodes, tensors, k) <==>
      exists i :: k <= i < |nodes| && (o == nodes[i] || (tensors[i] != null && o == tensors[i]))
    decreases |nodes| - k
  {
    if k < |nodes| {
      BlocksExactly(nodes, tensors, k + 1, o);
      BlocksOfExactly(nodes[k], tensors[k], o);
      InConcat(BlocksOf(nodes[k], tensors[k]), BlocksFrom(nodes, tensors, k + 1), o);
    }
  }

  lemma BlocksOfExactly(node: ListNode, tensor: TensorImpl?, o: object)
    ensures o in BlocksOf(node, tensor) <==> o == node || (tensor != null && o == tensor)
  {}

  /** One block comes before another. */
  ghost predicate Precedes(s: seq<object>, a: object, b: object) {
    exists p, q :: 0 <= p < q < |s| && s[p] == a && s[q] == b
  }

  lemma PrecedesWithin(s: seq<object>, a: object, b: object, before: seq<object>, after: seq<object>)
    requires Precedes(s, a, b)
    ensures Precedes(before + s, a, b) && Precedes(s + after, a, b)
  {
    var p, q :| 0 <= p < q < |s| && s[p] == a && s[q] == b;
    assert (before + s)[|before| + p] == a && (before + s)[|before| + q] == b;
    assert (s + after)[p] == a && (s + after)[q] == b;
  }

  lemma PrecedesAcross(s: seq<object>, t: seq<object>, a: object, b: object)
    requires a in s && b in t
    ensures Precedes(s + t, a, b)
  {
    var p :| 0 <= p < |s| && s[p] == a;
    var q :| 0 <= q < |t| && t[q] == b;
    assert (s + t)[p] == a && (s + t)[|s| + q] == b;
  }

  /** Every tensor is freed before its node. */
  lemma {:induction false} TensorBeforeNode(nodes: seq<ListNode>, tensors: seq<TensorImpl?>, k: nat, i: nat)
    requires k <= i < |nodes| == |tensors| && tensors[i] != null
    ensures Precedes(BlocksFrom(nodes, tensors, k), tensors[i], nodes[i])
    decreases |nodes| - k
  {
    var head, rest := BlocksOf(nodes[k], tensors[k]), BlocksFrom(nodes, tensors, k + 1);
    if k < i {
      TensorBeforeNode(nodes, tensors, k + 1, i);
      PrecedesWithin(rest, tensors[i], nodes[i], head, []);
    } else {
      assert head[0] == tensors[i] && head[1] == nodes[i];
      PrecedesWithin(head, tensors[i], nodes[i], [], rest);
    }
  }

  /** And the nodes in list order. */
  lemma {:induction false} NodesFreedInOrder(nodes: seq<ListNode>, tensors: seq<TensorImpl?>, k: nat, i: nat, j: nat)
    requires k <= i < j < |nodes| == |tensors|
    ensures Precedes(BlocksFrom(nodes, tensors, k), nodes[i], nodes[j])
    decreases |nodes| - k
  {
    var head, rest := BlocksOf(nodes[k], tensors[k]), BlocksFrom(nodes, tensors, k + 1);
    if k < i {
      NodesFreedInOrder(nodes, tensors, k + 1, i, j);
      PrecedesWithin(rest, nodes[i], nodes[j], head, []);
    } else {
      NodeInBlocks(nodes, tensors, k + 1, j);
      PrecedesAcross(head, rest, nodes[i], nodes[j]);
    }
  }

  /** Distinct blocks make distinct nodes: an owned list cannot run back into itself. */
  lemma LaterNodesDiffer(nodes: seq<ListNode>, tensors: seq<TensorImpl?>, k: nat, live: set<object>)
    requires k < |nodes| == |tensors| && Owned(BlocksFrom(nodes, tensors, k), live)
    ensures forall i :: k < i < |nodes| ==> nodes[i] != nodes[k]
  {
    var head, rest := BlocksOf(nodes[k], tensors[k]), BlocksFrom(nodes, tensors, k + 1);
    OwnedSplit(head, rest, live);
    forall i | k < i < |nodes| ensures nodes[i] != nodes[k] {
      NodeInBlocks(nodes, tensors, k + 1, i);
      var j :| 0 <= j < |rest| && rest[j] == nodes[i];
      assert rest[j] in live - AsSet(head);
    }
  }

  /** One round of the delete loop. */
  method FreeNode(heap: Heap, node: ListNode) returns (next: ListNode?)
    requires Owned(BlocksOf(node, node.tensor), heap.live)
    modifies heap, node
    ensures next == old(node.next)
    ensures heap.freed == old(heap.freed) + old(BlocksOf(node, node.tensor))
    ensures heap.live == old(heap.live) - AsSet(old(BlocksOf(node, node.tensor)))
  {
    ghost var blocks := BlocksOf(node, node.tensor);
    assert blocks[|blocks| - 1] == node;
    if node.tensor != null {
      assert blocks == [node.tensor, node];
      assert blocks[0] != blocks[1];
      heap.Free(node.tensor);
      node.tensor := null;
    }
    next := node.next;
    node.next := null;
    heap.Free(node);
  }

  /** The books after `done` blocks have been freed and those from node k on remain. */
  ghost predicate Progress(nodes: seq<ListNode>, tensors: seq<TensorImpl?>, k: nat, done: seq<object>,
                           live0: set<object>, live: set<object>, freed0: seq<object>, freed: seq<object>)
    requires k <= |nodes| == |tensors|
  {
    && Owned(BlocksFrom(nodes, tensors, k), live)
    && done + BlocksFrom(nodes, tensors, k) == Blocks(nodes, tensors)
    && freed == freed0 + done
    && live == live0 - AsSet(done)
  }

  lemma ProgressStep(nodes: seq<ListNode>, tensors: seq<TensorImpl?>, k: nat, done: seq<object>,
                     live0: set<object>, live: set<object>, freed0: seq<object>, freed: seq<object>)
    requires k < |nodes| == |tensors| && Progress(nodes, tensors, k, done, live0, live, freed0, freed)
    ensures var head := BlocksOf(nodes[k], tensors[k]);
      && Owned(head, live)
      && Progress(nodes, tensors, k + 1, done + head, live0, live - AsSet(head), freed0, freed + head)
  {
    var head, rest := BlocksOf(nodes[k], tensors[k]), BlocksFrom(nodes, tensors, k + 1);
    OwnedSplit(head, rest, live);
    assert done + (head + rest) == (done + head) + rest;
    assert AsSet(done + head) == AsSet(done) + AsSet(head);
  }

  /** TRITONTF_TensorListDelete: frees every tensor and node of the list once, and nothing else. */
  method TensorListDelete(heap: Heap, list: ListNode?, ghost nodes: seq<ListNode>, ghost tensors: seq<TensorImpl?>)
    requires Chain(list, nodes, tensors) && Owned(Blocks(nodes, tensors), heap.live)
    modifies heap, nodes
    ensures heap.freed == old(heap.freed) + Blocks(nodes, tensors)
    ensures heap.live == old(heap.live) - AsSet(Blocks(nodes, tensors))
  {
    var cur := list;
    ghost var k := 0;
    ghost var done: seq<object> := [];
    ghost var live0, freed0 := heap.live, heap.freed;
    while cur != null
      invariant ChainFrom(cur, nodes, tensors, k)
      invariant Progress(nodes, tensors, k, done, live0, heap.live, freed0, heap.freed)
      decreases |nodes| - k
    {
      ProgressStep(nodes, tensors, k, done, live0, heap.live, freed0, heap.freed);
      LaterNodesDiffer(nodes, tensors, k, heap.live);
      done := done + BlocksOf(nodes[k], tensors[k]);
      cur := FreeNode(heap, cur);
      k := k + 1;
    }
    assert BlocksFrom(nodes, tensors, k) == [];
  }

  // ---------- reading a list ----------

  /** What is there among the first k, in order. */
  function Present<T>(held: seq<Option<T>>, k: nat): seq<T>
    requires k <= |held|
  {
    if k == 0 then [] else Present(held, k - 1) + match held[k - 1] case None => [] case Some(v) => [v]
  }

  /** Names and values of the tensors of a list, nodes without a tensor being skipped. */
  ghost function Carried(tensors: seq<TensorImpl?>): seq<(string, Tensor)>
    reads tensors
  {
    Present(Held(tensors), |tensors|)
  }

  lemma {:induction false} TensorInBlocks(nodes: seq<ListNode>, tensors: seq<TensorImpl?>, k: nat, i: nat)
    requires k <= i < |nodes| == |tensors| && tensors[i] != null
    ensures tensors[i] in BlocksFrom(nodes, tensors, k)
    decreases |nodes| - k
  {
    if k < i {
      TensorInBlocks(nodes, tensors, k + 1, i);
    }
  }

  ghost predicate TensorsDistinct(tensors: seq<TensorImpl?>) {
    forall i, j :: 0 <= i < j < |tensors| && tensors[i] != null ==> tensors[i] != tensors[j]
  }

  lemma {:induction false} OwnedTensorsDistinct(nodes: seq<ListNode>, tensors: seq<TensorImpl?>, k: nat,
                                                live: set<object>)
    requires k <= |nodes| == |tensors| && Owned(BlocksFrom(nodes, tensors, k), live)
    ensures forall i, j :: k <= i < j < |tensors| && tensors[i] != null ==> tensors[i] != tensors[j]
    decreases |nodes| - k
  {
    if k < |nodes| {
      var head, rest := BlocksOf(nodes[k], tensors[k]), BlocksFrom(nodes, tensors, k + 1);
      OwnedSplit(head, rest, live);
      OwnedTensorsDistinct(nodes, tensors, k + 1, live - AsSet(head));
      forall j | k < j < |tensors| && tensors[k] != null ensures tensors[k] != tensors[j] {
        if tensors[j] != null {
          TensorInBlocks(nodes, tensors, k + 1, j);
          var x :| 0 <= x < |rest| && rest[x] == tensors[j];
          assert rest[x] in live - AsSet(head);
        }
      }
    }
  }

  /** What each node of the list holds: the name and value of its tensor, or nothing. */
  ghost function Held(tensors: seq<TensorImpl?>): (r: seq<Option<(string, Tensor)>>)
    reads tensors
    ensures |r| == |tensors|
    ensures forall i :: 0 <= i < |r| ==>
      r[i] == if tensors[i] == null then None else Some((tensors[i].name, tensors[i].value))
  {
    seq(|tensors|, i requires 0 <= i < |tensors| reads tensors =>
      if tensors[i] == null then None else Some((tensors[i].name, tensors[i].value)))
  }

  /** Places that hold something among the first k, in list order, every one once. */
  ghost predicate InListOrder<T>(at: seq<nat>, held: seq<Option<T>>, k: nat)
    requires k <= |held|
  {
    && (forall j :: 0 <= j < |at| ==> at[j] < k && held[at[j]].Some?)
    && Ascending(at)
    && (forall i :: 0 <= i < k && held[i].Some? ==> i in at)
  }

  /** What is held at these places. */
  ghost predicate HeldAt<T>(at: seq<nat>, held: seq<Option<T>>, values: seq<T>) {
    |at| == |values| && forall j :: 0 <= j < |values| ==> at[j] < |held| && held[at[j]] == Some(values[j])
  }

  /** The values are what the list holds, in list order, empty nodes being skipped. */
  ghost predicate ReadOff<T(!new)>(held: seq<Option<T>>, values: seq<T>) {
    exists at :: InListOrder(at, held, |held|) && HeldAt(at, held, values)
  }

  /** Without empty nodes value i is that of node i. */
  ghost predicate ReadFromEach<T(!new)>(held: seq<Option<T>>, values: seq<T>) {
    (forall i :: 0 <= i < |held| ==> held[i].Some?) ==>
      |values| == |held| && forall i :: 0 <= i < |held| ==> held[i] == Some(values[i])
  }

  ghost predicate Ascending(at: seq<nat>) {
    forall j, l :: 0 <= j < l < |at| ==> at[j] < at[l]
  }

  lemma {:induction false} PlaceAtLeast(at: seq<nat>, j: nat)
    requires Ascending(at) && j < |at|
    ensures at[j] >= j
  {
    if j > 0 {
      PlaceAtLeast(at, j - 1);
      assert at[j - 1] < at[j];
    }
  }

  lemma NextPlace(at: seq<nat>, k: nat)
    requires Ascending(at) && k in at && k <= |at| && forall i :: 0 <= i < k ==> at[i] == i
    ensures k < |at| && at[k] == k
  {
    var j :| 0 <= j < |at| && at[j] == k;
    PlaceAtLeast(at, j);
  }

  lemma AllPlaces(at: seq<nat>, n: nat)
    requires Ascending(at) && (forall j :: 0 <= j < |at| ==> at[j] < n) && forall i: nat :: i < n ==> i in at
    ensures |at| == n && forall i :: 0 <= i < n ==> at[i] == i
  {
    for k := 0 to n
      invariant k <= |at| && forall i :: 0 <= i < k ==> at[i] == i
    {
      NextPlace(at, k);
    }
    if at != [] {
      PlaceAtLeast(at, |at| - 1);
    }
  }

  lemma ReadOffFull<T(!new)>(held: seq<Option<T>>, values: seq<T>)
    requires ReadOff(held, values)
    ensures ReadFromEach(held, values)
  {
    if forall i :: 0 <= i < |held| ==> held[i].Some? {
      var at :| InListOrder(at, held, |held|) && HeldAt(at, held, values);
      AllPlaces(at, |held|);
    }
  }

  ghost function Places<T>(held: seq<Option<T>>, k: nat): seq<nat>
    requires k <= |held|
  {
    if k == 0 then [] else Places(held, k - 1) + if held[k - 1].None? then [] else [k - 1]
  }

  lemma {:induction false} PlacesInOrder<T>(held: seq<Option<T>>, k: nat)
    requires k <= |held|
    ensures InListOrder(Places(held, k), held, k)
  {
    if k > 0 {
      PlacesInOrder(held, k - 1);
      if held[k - 1].Some? {
        PlaceAdded(Places(held, k - 1), held, k - 1);
      } else {
        PlaceSkipped(Places(held, k - 1), held, k - 1);
        assert Places(held, k) == Places(held, k - 1);
      }
    }
  }

  lemma PlaceSkipped<T>(at: seq<nat>, held: seq<Option<T>>, k: nat)
    requires k < |held| && InListOrder(at, held, k) && held[k].None?
    ensures InListOrder(at, held, k + 1)
  {}

  lemma PlaceAdded<T>(at: seq<nat>, held: seq<Option<T>>, k: nat)
    requires k < |held| && InListOrder(at, held, k) && held[k].Some?
    ensures InListOrder(at + [k], held, k + 1)
  {
    assert forall i :: 0 <= i <= k && held[i].Some? ==> i in at || i == k;
  }

  lemma {:induction false} PresentAtPlaces<T>(held: seq<Option<T>>, k: nat)
    requires k <= |held|
    ensures HeldAt(Places(held, k), held, Present(held, k))
  {
    if k > 0 {
      PresentAtPlaces(held, k - 1);
      if held[k - 1].Some? {
        HeldAtSnoc(Places(held, k - 1), held, Present(held, k - 1), k - 1);
      } else {
        assert Places(held, k) == Places(held, k - 1) && Present(held, k) == Present(held, k - 1);
      }
    }
  }

  lemma HeldAtSnoc<T>(at: seq<nat>, held: seq<Option<T>>, values: seq<T>, k: nat)
    requires k < |held| && held[k].Some? && HeldAt(at, held, values)
    ensures HeldAt(at + [k], held, values + [held[k].value])
  {}

  lemma PresentIsReadOff<T(!new)>(held: seq<Option<T>>)
    ensures ReadOff(held, Present(held, |held|)) && ReadFromEach(held, Present(held, |held|))
  {
    PlacesInOrder(held, |held|);
    PresentAtPlaces(held, |held|);
    ReadOffFull(held, Present(held, |held|));
  }

  /** The first loop of a run: tensor values are moved out of the list, in list order. */
  method MoveInputs(list: ListNode?, ghost nodes: seq<ListNode>, ghost tensors: seq<TensorImpl?>)
    returns (inputs: seq<(string, Tensor)>)
    requires Chain(list, nodes, tensors) && TensorsDistinct(tensors)
    modifies set i | 0 <= i < |tensors| && tensors[i] != null :: tensors[i]
    ensures inputs == old(Carried(tensors))
    ensures ReadOff(old(Held(tensors)), inputs) && ReadFromEach(old(Held(tensors)), inputs)
    ensures forall i :: 0 <= i < |tensors| && tensors[i] != null ==> tensors[i].value == Moved
  {
    ghost var held := Held(tensors);
    inputs := [];
    var itr := list;
    ghost var k := 0;
    while itr != null
      invariant ChainFrom(itr, nodes, tensors, k)
      invariant inputs == Present(held, k)
      invariant forall i :: 0 <= i < k && tensors[i] != null ==> tensors[i].value == Moved
      invariant forall i :: k <= i < |tensors| && tensors[i] != null ==> tensors[i].value == old(tensors[i].value)
      decreases |nodes| - k
    {
      if itr.tensor != null {
        inputs := inputs + [(itr.tensor.name, itr.tensor.value)];
        itr.tensor.value := Moved;
      }
      itr := itr.next;
      k := k + 1;
    }
    PresentIsReadOff(held);
  }

  // ---------- building a list ----------

  /** The variable behind an output parameter of list type. */
  class ListVar {
    var list: ListNode?

    constructor (list: ListNode?)
      ensures this.list == list
    {
      this.list := list;
    }
  }

  /** A list that carries exactly these values, in this order. */
  ghost predicate Holds(list: ListNode?, nodes: seq<ListNode>, tensors: seq<TensorImpl?>, values: seq<Tensor>)
    reads nodes, tensors
  {
    && Chain(list, nodes, tensors)
    && |values| == |tensors|
    && forall i :: 0 <= i < |tensors| ==> tensors[i] != null && tensors[i].value == values[i]
  }

  lemma {:induction false} BlocksShift(node: ListNode, tensor: TensorImpl?,
                                       nodes: seq<ListNode>, tensors: seq<TensorImpl?>,
                                       ns: seq<ListNode>, ts: seq<TensorImpl?>, k: nat)
    requires k <= |nodes| == |tensors| && ns == [node] + nodes && ts == [tensor] + tensors
    ensures BlocksFrom(ns, ts, k + 1) == BlocksFrom(nodes, tensors, k)
    decreases |nodes| - k
  {
    if k < |nodes| {
      BlocksShift(node, tensor, nodes, tensors, ns, ts, k + 1);
      assert ns[k + 1] == nodes[k] && ts[k + 1] == tensors[k];
    }
  }

  lemma BlocksCons(node: ListNode, tensor: TensorImpl?, nodes: seq<ListNode>, tensors: seq<TensorImpl?>)
    requires |nodes| == |tensors|
    ensures Blocks([node] + nodes, [tensor] + tensors) == BlocksOf(node, tensor) + Blocks(nodes, tensors)
  {
    BlocksShift(node, tensor, nodes, tensors, [node] + nodes, [tensor] + tensors, 0);
  }

  /** The list's blocks are its own, and they are all that became live. */
  ghost predicate Grown(blocks: seq<object>, live0: set<object>, live: set<object>) {
    Owned(blocks, live) && live == live0 + AsSet(blocks) && live0 !! AsSet(blocks)
  }

  lemma GrownByOne(blocks: seq<object>, live0: set<object>, live: set<object>, o: object)
    requires Grown(blocks, live0, live) && o !in live
    ensures Grown([o] + blocks, live0, live + {o})
  {
    var all := [o] + blocks;
    assert AsSet(all) == {o} + AsSet(blocks);
    assert forall i :: 0 <= i < |blocks| ==> all[i + 1] == blocks[i];
  }

  lemma GrownStep(blocks: seq<object>, live0: set<object>, live: set<object>, a: object, b: object)
    requires Grown(blocks, live0, live) && a !in live && b !in live && a != b
    ensures Grown([a, b] + blocks, live0, live + {a, b})
  {
    GrownByOne(blocks, live0, live, b);
    GrownByOne([b] + blocks, live0, live + {b}, a);
    assert [a] + ([b] + blocks) == [a, b] + blocks && live + {b} + {a} == live + {a, b};
  }

  lemma ChainCons(node: ListNode, tensor: TensorImpl?, head: ListNode?, nodes: seq<ListNode>, tensors: seq<TensorImpl?>)
    requires Chain(head, nodes, tensors) && node.next == head && node.tensor == tensor
    ensures Chain(node, [node] + nodes, [tensor] + tensors)
  {
    var ns, ts := [node] + nodes, [tensor] + tensors;
    forall i | 0 <= i < |ns| ensures ns[i].tensor == ts[i] && ns[i].next == NodeAt(ns, i + 1) {
      if i == 0 {
        assert NodeAt(ns, 1) == NodeAt(nodes, 0);
      } else {
        assert ns[i] == nodes[i - 1] && NodeAt(ns, i + 1) == NodeAt(nodes, i);
      }
    }
  }

  /** One round of the output loops: a new tensor in a new node in front of the list. */
  method Prepend(heap: Heap, out: ListVar, value: Tensor, ghost live0: set<object>,
                 ghost nodes: seq<ListNode>, ghost tensors: seq<TensorImpl?>, ghost values: seq<Tensor>)
    returns (ghost nodes': seq<ListNode>, ghost tensors': seq<TensorImpl?>)
    requires Holds(out.list, nodes, tensors, values) && Grown(Blocks(nodes, tensors), live0, heap.live)
    modifies heap, out
    ensures |nodes'| == |nodes| + 1 && |tensors'| == |tensors| + 1
    ensures nodes'[1..] == nodes && tensors'[1..] == tensors
    ensures fresh(nodes'[0]) && tensors'[0] != null && fresh(tensors'[0])
    ensures Holds(out.list, nodes', tensors', [value] + values)
    ensures Grown(Blocks(nodes', tensors'), live0, heap.live)
    ensures heap.freed == old(heap.freed)
  {
    var node, tensor := NewNode(heap, value, out.list);
    nodes', tensors' := [node] + nodes, [tensor] + tensors;
    BlocksCons(node, tensor, nodes, tensors);
    GrownStep(Blocks(nodes, tensors), live0, old(heap.live), tensor, node);
    HoldsCons(node, tensor, out.list, nodes, tensors, value, values);
    out.list := node;
  }

  /** TRITONTF_TensorListNew on a new tensor. */
  method NewNode(heap: Heap, value: Tensor, next: ListNode?) returns (node: ListNode, tensor: TensorImpl)
    modifies heap
    ensures fresh(node) && fresh(tensor) && node.tensor == tensor && node.next == next && tensor.value == value
    ensures node as object != tensor && node !in old(heap.live) && tensor !in old(heap.live)
    ensures heap.live == old(heap.live) + {tensor, node} && heap.freed == old(heap.freed)
  {
    tensor := new TensorImpl("", value);
    heap.Track(tensor);
    node := new ListNode(tensor, next);
    heap.Track(node);
  }

  lemma HoldsCons(node: ListNode, tensor: TensorImpl, head: ListNode?, nodes: seq<ListNode>, tensors: seq<TensorImpl?>,
                  value: Tensor, values: seq<Tensor>)
    requires Holds(head, nodes, tensors, values)
    requires node.next == head && node.tensor == tensor && tensor.value == value
    ensures Holds(node, [node] + nodes, [tensor] + tensors, [value] + values)
  {
    ChainCons(node, tensor, head, nodes, tensors);
  }
}
