/** Input and output descriptions of a model: linked lists that own names, shapes and nodes, as they are deleted. */
module IOLists {
  import opened TensorLists

  class IOShape {
    const dims: array?<int>

    constructor (dims: array?<int>)
      ensures this.dims == dims
    {
      this.dims := dims;
    }
  }

  class IO {
    const name: array?<char>
    const inmodelName: array?<char>
    const shape: IOShape?

    constructor (name: array?<char>, inmodelName: array?<char>, shape: IOShape?)
      ensures this.name == name && this.inmodelName == inmodelName && this.shape == shape
    {
      this.name := name;
      this.inmodelName := inmodelName;
      this.shape := shape;
    }
  }

  class IONode {
    const io: IO?
    const next: IONode?

    constructor (io: IO?, next: IONode?)
      ensures this.io == io && this.next == next
    {
      this.io := io;
      this.next := next;
    }
  }

  /** The nodes of the list from `head` on. */
  ghost predicate Linked(head: IONode?, nodes: seq<IONode>) {
    if nodes == [] then head == null else head == nodes[0] && Linked(nodes[0].next, nodes[1..])
  }

  // ---------- what a list owns, in the order it is deleted ----------

  ghost function Maybe(o: object?): seq<object> {
    if o == null then [] else [o]
  }

  ghost function ShapeBlocks(shape: IOShape?): seq<object> {
    if shape == null then [] else Maybe(shape.dims) + Maybe(shape)
  }

  ghost function IOBlocks(io: IO?): seq<object> {
    if io == null then [] else NameBlocks(io) + (ShapeBlocks(io.shape) + Maybe(io))
  }

  ghost function NameBlocks(io: IO): seq<object> {
    Maybe(io.name) + Maybe(io.inmodelName)
  }

  ghost function NodeBlocks(node: IONode): seq<object> {
    IOBlocks(node.io) + Maybe(node)
  }

  ghost function ListBlocks(nodes: seq<IONode>): seq<object> {
    if nodes == [] then [] else NodeBlocks(nodes[0]) + ListBlocks(nodes[1..])
  }

  // ---------- nothing is forgotten, and nothing is freed before what it owns ----------

  /** The blocks a node stands for. */
  ghost predicate Owns(node: IONode, o: object) {
    || o == node
    || (node.io != null &&
        (o == node.io || o == node.io.name || o == node.io.inmodelName
         || (node.io.shape != null && (o == node.io.shape || o == node.io.shape.dims))))
  }

  lemma NodeBlocksExactly(node: IONode, o: object)
    ensures o in NodeBlocks(node) <==> Owns(node, o)
  {}

  lemma {:induction false} ListBlocksExactly(nodes: seq<IONode>, o: object)
    ensures o in ListBlocks(nodes) <==> exists i :: 0 <= i < |nodes| && Owns(nodes[i], o)
  {
    if nodes != [] {
      NodeBlocksExactly(nodes[0], o);
      ListBlocksExactly(nodes[1..], o);
      if i :| 0 <= i < |nodes| - 1 && Owns(nodes[1..][i], o) {
        assert Owns(nodes[i + 1], o);
      }
    }
  }

  /** The parts of a description are freed before it, and it before its node. */
  lemma PartsBeforeNode(node: IONode, o: object)
    requires node.io != null && Owns(node, o) && o != node && o != node.io
    ensures Precedes(NodeBlocks(node), o, node.io) && Precedes(NodeBlocks(node), node.io, node)
  {
    var io := node.io;
    PartsBeforeIO(io, o);
    PrecedesWithin(IOBlocks(io), o, io, [], Maybe(node));
    PrecedesAcross(IOBlocks(io), Maybe(node), io, node);
  }

  lemma PartsBeforeIO(io: IO, o: object)
    requires o == io.name || o == io.inmodelName || (io.shape != null && (o == io.shape || o == io.shape.dims))
    ensures Precedes(IOBlocks(io), o, io) && io in IOBlocks(io)
  {
    Assoc(NameBlocks(io), ShapeBlocks(io.shape), Maybe(io));
    PrecedesAcross(NameBlocks(io) + ShapeBlocks(io.shape), Maybe(io), o, io);
  }

  lemma DimsBeforeShape(shape: IOShape)
    requires shape.dims != null
    ensures Precedes(ShapeBlocks(shape), shape.dims, shape)
  {
    PrecedesAcross(Maybe(shape.dims), Maybe(shape), shape.dims, shape);
  }

  /** In a whole list too, every part comes before its description and every description before its node. */
  lemma {:induction false} PartsBeforeNodes(nodes: seq<IONode>, i: nat, o: object)
    requires i < |nodes| && nodes[i].io != null && Owns(nodes[i], o) && o != nodes[i] && o != nodes[i].io
    ensures Precedes(ListBlocks(nodes), o, nodes[i].io) && Precedes(ListBlocks(nodes), nodes[i].io, nodes[i])
  {
    var head, rest, io := NodeBlocks(nodes[0]), ListBlocks(nodes[1..]), nodes[i].io;
    if i == 0 {
      PartsBeforeNode(nodes[0], o);
      PrecedesWithin(head, o, io, [], rest);
      PrecedesWithin(head, io, nodes[0], [], rest);
    } else {
      PartsBeforeNodes(nodes[1..], i - 1, o);
      PrecedesWithin(rest, o, io, head, []);
      PrecedesWithin(rest, io, nodes[i], head, []);
    }
  }

  lemma {:induction false} NodesFreedInOrder(nodes: seq<IONode>, i: nat, j: nat)
    requires i < j < |nodes|
    ensures Precedes(ListBlocks(nodes), nodes[i], nodes[j])
  {
    var head, rest := NodeBlocks(nodes[0]), ListBlocks(nodes[1..]);
    if i == 0 {
      NodeBlocksExactly(nodes[0], nodes[0]);
      assert Owns(nodes[1..][j - 1], nodes[j]);
      ListBlocksExactly(nodes[1..], nodes[j]);
      PrecedesAcross(head, rest, nodes[0], nodes[j]);
    } else {
      NodesFreedInOrder(nodes[1..], i - 1, j - 1);
      PrecedesWithin(rest, nodes[i], nodes[j], head, []);
    }
  }

  /** From one state of the allocator to another, exactly these blocks were freed, in this order. */
  ghost predicate Freed(blocks: seq<object>, live0: set<object>, freed0: seq<object>,
                        live: set<object>, freed: seq<object>) {
    freed == freed0 + blocks && live == live0 - AsSet(blocks)
  }

  lemma Assoc(a: seq<object>, b: seq<object>, c: seq<object>)
    ensures (a + b) + c == a + (b + c)
  {}

  lemma FreedBoth(a: seq<object>, b: seq<object>, live0: set<object>, freed0: seq<object>,
                  live1: set<object>, freed1: seq<object>, live2: set<object>, freed2: seq<object>)
    requires Freed(a, live0, freed0, live1, freed1) && Freed(b, live1, freed1, live2, freed2)
    ensures Freed(a + b, live0, freed0, live2, freed2)
  {
    assert AsSet(a + b) == AsSet(a) + AsSet(b);
    assert (freed0 + a) + b == freed0 + (a + b);
  }

  /** `delete` and `delete[]`, which ignore null. */
  method Delete(heap: Heap, o: object?, ghost rest: seq<object>)
    requires Owned(Maybe(o) + rest, heap.live)
    modifies heap
    ensures Freed(Maybe(o), old(heap.live), old(heap.freed), heap.live, heap.freed) && Owned(rest, heap.live)
  {
    OwnedSplit(Maybe(o), rest, heap.live);
    if o != null {
      assert Maybe(o)[0] == o;
      heap.Free(o);
    }
  }

  /** TRITONTF_ShapeDelete */
  method ShapeDelete(heap: Heap, shape: IOShape?, ghost rest: seq<object>)
    requires Owned(ShapeBlocks(shape) + rest, heap.live)
    modifies heap
    ensures Freed(ShapeBlocks(shape), old(heap.live), old(heap.freed), heap.live, heap.freed) && Owned(rest, heap.live)
  {
    if shape != null {
      Assoc(Maybe(shape.dims), Maybe(shape), rest);
      Delete(heap, shape.dims, Maybe(shape) + rest);
      ghost var live1, freed1 := heap.live, heap.freed;
      Delete(heap, shape, rest);
      FreedBoth(Maybe(shape.dims), Maybe(shape), old(heap.live), old(heap.freed), live1, freed1, heap.live, heap.freed);
    } else {
      assert ShapeBlocks(shape) + rest == rest;
    }
  }

  method IODelete(heap: Heap, io: IO?, ghost rest: seq<object>)
    requires Owned(IOBlocks(io) + rest, heap.live)
    modifies heap
    ensures Freed(IOBlocks(io), old(heap.live), old(heap.freed), heap.live, heap.freed) && Owned(rest, heap.live)
  {
    if io != null {
      Assoc(NameBlocks(io), ShapeBlocks(io.shape) + Maybe(io), rest);
      Assoc(ShapeBlocks(io.shape), Maybe(io), rest);
      NamesDelete(heap, io, ShapeBlocks(io.shape) + (Maybe(io) + rest));
      ghost var live1, freed1 := heap.live, heap.freed;
      ShapeDelete(heap, io.shape, Maybe(io) + rest);
      ghost var live2, freed2 := heap.live, heap.freed;
      Delete(heap, io, rest);
      FreedBoth(ShapeBlocks(io.shape), Maybe(io), live1, freed1, live2, freed2, heap.live, heap.freed);
      FreedBoth(NameBlocks(io), ShapeBlocks(io.shape) + Maybe(io), old(heap.live), old(heap.freed), live1, freed1,
                heap.live, heap.freed);
    } else {
      assert IOBlocks(io) + rest == rest;
    }
  }

  method NamesDelete(heap: Heap, io: IO, ghost rest: seq<object>)
    requires Owned(NameBlocks(io) + rest, heap.live)
    modifies heap
    ensures Freed(NameBlocks(io), old(heap.live), old(heap.freed), heap.live, heap.freed) && Owned(rest, heap.live)
  {
    Assoc(Maybe(io.name), Maybe(io.inmodelName), rest);
    Delete(heap, io.name, Maybe(io.inmodelName) + rest);
    ghost var live1, freed1 := heap.live, heap.freed;
    Delete(heap, io.inmodelName, rest);
    FreedBoth(Maybe(io.name), Maybe(io.inmodelName), old(heap.live), old(heap.freed), live1, freed1,
              heap.live, heap.freed);
  }

  /** One round of the delete loop. */
  method NodeDelete(heap: Heap, node: IONode, ghost rest: seq<object>) returns (next: IONode?)
    requires Owned(NodeBlocks(node) + rest, heap.live)
    modifies heap
    ensures next == node.next
    ensures Freed(NodeBlocks(node), old(heap.live), old(heap.freed), heap.live, heap.freed) && Owned(rest, heap.live)
  {
    Assoc(IOBlocks(node.io), Maybe(node), rest);
    IODelete(heap, node.io, Maybe(node) + rest);
    ghost var live1, freed1 := heap.live, heap.freed;
    next := node.next;
    Delete(heap, node, rest);
    FreedBoth(IOBlocks(node.io), Maybe(node), old(heap.live), old(heap.freed), live1, freed1, heap.live, heap.freed);
  }

  /** TRITONTF_IOListDelete: every name, shape, description and node once, and nothing else. */
  method IOListDelete(heap: Heap, list: IONode?, ghost nodes: seq<IONode>, ghost rest: seq<object>)
    requires Linked(list, nodes) && Owned(ListBlocks(nodes) + rest, heap.live)
    modifies heap
    ensures Freed(ListBlocks(nodes), old(heap.live), old(heap.freed), heap.live, heap.freed) && Owned(rest, heap.live)
  {
    var cur := list;
    ghost var left := nodes;
    ghost var done: seq<object> := [];
    while cur != null
      invariant Linked(cur, left) && Owned(ListBlocks(left) + rest, heap.live)
      invariant done + ListBlocks(left) == ListBlocks(nodes)
      invariant Freed(done, old(heap.live), old(heap.freed), heap.live, heap.freed)
      decreases |left|
    {
      ghost var live1, freed1 := heap.live, heap.freed;
      ghost var here := NodeBlocks(cur);
      Assoc(here, ListBlocks(left[1..]), rest);
      Assoc(done, here, ListBlocks(left[1..]));
      cur := NodeDelete(heap, cur, ListBlocks(left[1..]) + rest);
      FreedBoth(done, here, old(heap.live), old(heap.freed), live1, freed1, heap.live, heap.freed);
      done, left := done + here, left[1..];
    }
    assert ListBlocks(left) + rest == rest;
  }
}
