/**
 The check an engine's result must pass before the broker uses it: bounded plain data, with no cycle and no sharing.
 */
module UpstreamObjects {
  import opened Options

  const MAX_LOCAL_FRAME_BYTES := 1024 * 1024
  const MAX_DEPTH := 64
  const MAX_NODES := 65_536

  /** A runtime value: data of its own, or a reference to an object that others may share. */
  datatype Value = Null | Text | Bool | Number(finite: bool) | Foreign | Ref(id: nat)
  datatype Kind = Array | Plain | Exotic
  datatype Object = Object(kind: Kind, children: seq<Value>)
  type Heap = map<nat, Object>

  /** Every reference leads to an object: cycles and shared objects are allowed here. */
  ghost predicate Closed(h: Heap) { forall id <- h, v <- h[id].children :: v.Ref? ==> v.id in h }

  // ------------------------------------------------------------- its meaning

  datatype Tree = Leaf | Node(id: nat, children: seq<Tree>)

  predicate Scalar(v: Value) { v.Null? || v.Text? || v.Bool? || (v.Number? && v.finite) }

  /** The value at depth `d`, followed through the heap, is this tree: only allowed values, nowhere deeper than 64. */
  ghost predicate IsTree(h: Heap, v: Value, d: nat, t: Tree)
    decreases t
  {
    && d <= MAX_DEPTH
    && match t
       case Leaf => Scalar(v)
       case Node(id, children) =>
         && v == Ref(id) && id in h && !h[id].kind.Exotic? && |children| == |h[id].children|
         && forall i :: 0 <= i < |children| ==> IsTree(h, h[id].children[i], d + 1, children[i])
  }

  function Size(t: Tree): nat { match t case Leaf => 1 case Node(_, children) => 1 + SizeAll(children) }
  function SizeAll(ts: seq<Tree>): nat { if ts == [] then 0 else SizeAll(ts[..|ts| - 1]) + Size(ts[|ts| - 1]) }

  /** The objects a tree passes through, with repetitions. */
  function Ids(t: Tree): multiset<nat> {
    match t case Leaf => multiset{} case Node(id, children) => multiset{id} + IdsAll(children)
  }
  function IdsAll(ts: seq<Tree>): multiset<nat> {
    if ts == [] then multiset{} else IdsAll(ts[..|ts| - 1]) + Ids(ts[|ts| - 1])
  }

  /** No object twice: the value is a tree and not a graph. */
  ghost predicate Once(ids: multiset<nat>) { forall id :: ids[id] <= 1 }

  ghost predicate BoundedTree(h: Heap, v: Value) {
    exists t :: IsTree(h, v, 0, t) && Once(Ids(t)) && Size(t) <= MAX_NODES
  }

  // --------------------------------------------------- the stack it works on

  datatype Item = Item(value: Value, depth: nat)

  function Items(vs: seq<Value>, d: nat): (items: seq<Item>)
    ensures |items| == |vs| && forall i :: 0 <= i < |vs| ==> items[i] == Item(vs[i], d)
  {
    if vs == [] then [] else Items(vs[..|vs| - 1], d) + [Item(vs[|vs| - 1], d)]
  }

  ghost predicate AreTrees(h: Heap, pending: seq<Item>, ts: seq<Tree>) {
    |pending| == |ts| && forall i :: 0 <= i < |ts| ==> IsTree(h, pending[i].value, pending[i].depth, ts[i])
  }

  /** What is still pending makes up bounded trees through objects not yet seen. */
  ghost predicate Completes(h: Heap, pending: seq<Item>, seen: set<nat>, nodes: nat, ts: seq<Tree>) {
    && AreTrees(h, pending, ts) && nodes + SizeAll(ts) <= MAX_NODES
    && Once(IdsAll(ts)) && forall id <- IdsAll(ts) :: id !in seen
  }

  ghost predicate Completable(h: Heap, pending: seq<Item>, seen: set<nat>, nodes: nat) {
    exists ts :: Completes(h, pending, seen, nodes, ts)
  }

  lemma Last(ts: seq<Tree>)
    requires ts != []
    ensures ts == ts[..|ts| - 1] + [ts[|ts| - 1]]
    ensures SizeAll(ts) == SizeAll(ts[..|ts| - 1]) + Size(ts[|ts| - 1])
            && IdsAll(ts) == IdsAll(ts[..|ts| - 1]) + Ids(ts[|ts| - 1])
  {}

  lemma {:induction false} AllConcat(a: seq<Tree>, b: seq<Tree>)
    ensures SizeAll(a + b) == SizeAll(a) + SizeAll(b) && IdsAll(a + b) == IdsAll(a) + IdsAll(b)
    decreases |b|
  {
    if b == [] {
      assert a + b == a;
    } else {
      var init, last := b[..|b| - 1], b[|b| - 1];
      AllConcat(a, init);
      Last(b);
      Last(a + b);
      assert (a + b)[..|a + b| - 1] == a + init && (a + b)[|a + b| - 1] == last;
    }
  }

  /** What the loop demands of the value it pops. */
  predicate Passes(h: Heap, item: Item, seen: set<nat>, nodes: nat) {
    && item.depth <= MAX_DEPTH && nodes + 1 <= MAX_NODES
    && (Scalar(item.value) || (item.value.Ref? && item.value.id in h && item.value.id !in seen
                               && !h[item.value.id].kind.Exotic?))
  }

  lemma TopTree(h: Heap, rest: seq<Item>, item: Item, ts: seq<Tree>)
    requires AreTrees(h, rest + [item], ts)
    ensures |ts| == |rest| + 1 && AreTrees(h, rest, ts[..|rest|]) && IsTree(h, item.value, item.depth, ts[|rest|])
  {
    var all := rest + [item];
    forall i | 0 <= i < |ts| ensures IsTree(h, all[i].value, all[i].depth, ts[i]) {}
    assert all[|rest|] == item;
    forall i | 0 <= i < |rest| ensures IsTree(h, rest[i].value, rest[i].depth, ts[..|rest|][i]) {
      assert all[i] == rest[i];
    }
  }

  lemma CloseLeaf(h: Heap, rest: seq<Item>, item: Item, seen: set<nat>, nodes: nat, ts: seq<Tree>)
    requires Scalar(item.value) && Passes(h, item, seen, nodes) && Completes(h, rest, seen, nodes + 1, ts)
    ensures Completes(h, rest + [item], seen, nodes, ts + [Leaf])
  {
    AllConcat(ts, [Leaf]);
    LeafAlone();
    assert IsTree(h, item.value, item.depth, Leaf);
  }

  lemma OpenLeaf(h: Heap, rest: seq<Item>, item: Item, seen: set<nat>, nodes: nat, ts: seq<Tree>)
    requires Scalar(item.value) && Completes(h, rest + [item], seen, nodes, ts)
    ensures Passes(h, item, seen, nodes) && Completes(h, rest, seen, nodes + 1, ts[..|rest|])
  {
    Last(ts);
    TopTree(h, rest, item, ts);
    assert ts[|rest|] == Leaf && IdsAll(ts) == IdsAll(ts[..|rest|]);
  }

  lemma ScalarStep(h: Heap, rest: seq<Item>, item: Item, seen: set<nat>, nodes: nat)
    requires Scalar(item.value)
    ensures Completable(h, rest + [item], seen, nodes) <==>
                Passes(h, item, seen, nodes) && Completable(h, rest, seen, nodes + 1)
  {
    if Completable(h, rest + [item], seen, nodes) {
      var ts: seq<Tree> :| Completes(h, rest + [item], seen, nodes, ts);
      OpenLeaf(h, rest, item, seen, nodes, ts);
    }
    if Passes(h, item, seen, nodes) && Completable(h, rest, seen, nodes + 1) {
      var ts: seq<Tree> :| Completes(h, rest, seen, nodes + 1, ts);
      CloseLeaf(h, rest, item, seen, nodes, ts);
    }
  }

  lemma LeafAlone()
    ensures SizeAll([Leaf]) == 1 && IdsAll([Leaf]) == multiset{}
  {
    Last([Leaf]);
  }

  lemma NodeAlone(id: nat, children: seq<Tree>)
    ensures SizeAll([Node(id, children)]) == 1 + SizeAll(children)
            && IdsAll([Node(id, children)]) == multiset{id} + IdsAll(children)
  {
    Last([Node(id, children)]);
    assert [Node(id, children)][..0] == [];
  }

  lemma OpenTrees(h: Heap, rest: seq<Item>, id: nat, d: nat, init: seq<Tree>, top: Tree)
    requires AreTrees(h, rest, init) && IsTree(h, Ref(id), d, top)
    ensures AreTrees(h, rest + Items(h[id].children, d + 1), init + top.children)
  {
    var lower, ts := rest + Items(h[id].children, d + 1), init + top.children;
    forall i | 0 <= i < |ts| ensures IsTree(h, lower[i].value, lower[i].depth, ts[i]) {
      if i < |rest| { assert IsTree(h, rest[i].value, rest[i].depth, init[i]); }
      else { assert IsTree(h, h[id].children[i - |rest|], d + 1, top.children[i - |rest|]); }
    }
  }

  lemma OpenIds(ids: multiset<nat>, id: nat, seen: set<nat>)
    requires Once(ids + multiset{id}) && forall x <- ids + multiset{id} :: x !in seen
    ensures Once(ids) && id !in seen && forall x <- ids :: x !in seen + {id}
  {
    forall x ensures ids[x] <= 1 && (x in ids ==> x !in seen + {id}) {
      assert (ids + multiset{id})[x] == ids[x] + multiset{id}[x];
    }
    assert id in ids + multiset{id};
  }

  lemma OpenNode(h: Heap, rest: seq<Item>, id: nat, d: nat, seen: set<nat>, nodes: nat, ts: seq<Tree>)
      returns (open: seq<Tree>)
    requires Completes(h, rest + [Item(Ref(id), d)], seen, nodes, ts)
    ensures Passes(h, Item(Ref(id), d), seen, nodes)
    ensures Completes(h, rest + Items(h[id].children, d + 1), seen + {id}, nodes + 1, open)
  {
    TopTree(h, rest, Item(Ref(id), d), ts);
    Last(ts);
    var init, top := ts[..|rest|], ts[|rest|];
    AllConcat(init, top.children);
    open := init + top.children;
    OpenTrees(h, rest, id, d, init, top);
    assert IdsAll(ts) == IdsAll(open) + multiset{id};
    OpenIds(IdsAll(open), id, seen);
  }

  lemma CloseTrees(h: Heap, rest: seq<Item>, id: nat, d: nat, init: seq<Tree>, children: seq<Tree>)
    requires d <= MAX_DEPTH && id in h && !h[id].kind.Exotic? && |init| == |rest|
    requires AreTrees(h, rest + Items(h[id].children, d + 1), init + children)
    ensures AreTrees(h, rest + [Item(Ref(id), d)], init + [Node(id, children)])
  {
    var all, ts := rest + Items(h[id].children, d + 1), init + children;
    forall i | 0 <= i < |children| ensures IsTree(h, h[id].children[i], d + 1, children[i]) {
      assert all[|rest| + i] == Item(h[id].children[i], d + 1) && ts[|rest| + i] == children[i];
    }
    assert IsTree(h, Ref(id), d, Node(id, children));
    var upper, nodes := rest + [Item(Ref(id), d)], init + [Node(id, children)];
    forall i | 0 <= i < |nodes| ensures IsTree(h, upper[i].value, upper[i].depth, nodes[i]) {
      if i < |rest| { assert IsTree(h, all[i].value, all[i].depth, ts[i]); }
    }
  }

  lemma CloseIds(ids: multiset<nat>, id: nat, seen: set<nat>)
    requires Once(ids) && (forall x <- ids :: x !in seen + {id}) && id !in seen
    ensures Once(ids + multiset{id}) && forall x <- ids + multiset{id} :: x !in seen
  {}

  lemma CloseNode(h: Heap, rest: seq<Item>, id: nat, d: nat, seen: set<nat>, nodes: nat, ts: seq<Tree>)
      returns (closed: seq<Tree>)
    requires Passes(h, Item(Ref(id), d), seen, nodes)
    requires Completes(h, rest + Items(h[id].children, d + 1), seen + {id}, nodes + 1, ts)
    ensures Completes(h, rest + [Item(Ref(id), d)], seen, nodes, closed)
  {
    var init, children := ts[..|rest|], ts[|rest|..];
    assert ts == init + children;
    closed := init + [Node(id, children)];
    CloseTrees(h, rest, id, d, init, children);
    AllConcat(init, children);
    NodeAlone(id, children);
    AllConcat(init, [Node(id, children)]);
    assert IdsAll(closed) == IdsAll(ts) + multiset{id};
    CloseIds(IdsAll(ts), id, seen);
  }

  lemma ObjectStep(h: Heap, rest: seq<Item>, item: Item, seen: set<nat>, nodes: nat)
    requires item.value.Ref?
    ensures Completable(h, rest + [item], seen, nodes) <==>
            Passes(h, item, seen, nodes)
                && Completable(h, rest + Items(h[item.value.id].children, item.depth + 1), seen + {item.value.id},
                               nodes + 1)
  {
    var id, d := item.value.id, item.depth;
    assert item == Item(Ref(id), d);
    if Completable(h, rest + [item], seen, nodes) {
      var ts: seq<Tree> :| Completes(h, rest + [item], seen, nodes, ts);
      var open := OpenNode(h, rest, id, d, seen, nodes, ts);
    }
    if Passes(h, item, seen, nodes) && Completable(h, rest + Items(h[id].children, d + 1), seen + {id}, nodes + 1) {
      var ts: seq<Tree> :| Completes(h, rest + Items(h[id].children, d + 1), seen + {id}, nodes + 1, ts);
      var closed := CloseNode(h, rest, id, d, seen, nodes, ts);
    }
  }

  /** A value that is neither a scalar nor a reference is no tree at all. */
  lemma TopIsAllowed(h: Heap, rest: seq<Item>, item: Item, seen: set<nat>, nodes: nat)
    ensures Completable(h, rest + [item], seen, nodes) ==> Scalar(item.value) || item.value.Ref?
  {
    var all := rest + [item];
    if Completable(h, all, seen, nodes) {
      var ts: seq<Tree> :| Completes(h, all, seen, nodes, ts);
      assert IsTree(h, all[|rest|].value, all[|rest|].depth, ts[|rest|]);
    }
  }

  lemma RootCompletable(h: Heap, v: Value)
    ensures Completable(h, [Item(v, 0)], {}, 0) <==> BoundedTree(h, v)
  {
    if BoundedTree(h, v) {
      var t :| IsTree(h, v, 0, t) && Once(Ids(t)) && Size(t) <= MAX_NODES;
      Last([t]);
      assert [t][..0] == [];
      assert IdsAll([t]) == Ids(t);
      assert Completes(h, [Item(v, 0)], {}, 0, [t]);
    }
    if Completable(h, [Item(v, 0)], {}, 0) {
      var ts: seq<Tree> :| Completes(h, [Item(v, 0)], {}, 0, ts);
      Last(ts);
      assert ts[..0] == [];
      assert IdsAll(ts) == Ids(ts[0]);
    }
  }

  // --------------------------------------------------------------- the check

  /** An ordinary object, not an array: what a result must be at its root. */
  predicate PlainRoot(h: Heap, v: Value) { v.Ref? && v.id in h && h[v.id].kind.Plain? }

  /**
   Accepts exactly the bounded trees. `encoded` is the length of the value's text, absent when producing the text threw.
   The loop ends on every finite heap, cyclic or shared: it opens each object at most once.
   */
  method BoundedUpstreamObject(h: Heap, value: Value, encoded: Option<nat>) returns (accepted: bool)
    requires Closed(h)
    ensures accepted <==>
              && PlainRoot(h, value) && encoded.Some? && encoded.value <= MAX_LOCAL_FRAME_BYTES
              && BoundedTree(h, value)
  {
    if !PlainRoot(h, value) || encoded.None? || encoded.value > MAX_LOCAL_FRAME_BYTES { return false; }
    var pending := [Item(value, 0)];
    var seen: set<nat> := {};
    var nodes := 0;
    RootCompletable(h, value);
    while pending != []
      invariant nodes <= MAX_NODES
      invariant BoundedTree(h, value) <==> Completable(h, pending, seen, nodes)
      invariant forall i :: 0 <= i < |pending| && pending[i].value.Ref? ==> pending[i].value.id in h
      decreases h.Keys - seen, |pending|
    {
      var current := pending[|pending| - 1];
      ghost var before := pending;
      pending := pending[..|pending| - 1];
      assert before == pending + [current];
      if current.value.Ref? { ObjectStep(h, pending, current, seen, nodes); }
      else if Scalar(current.value) { ScalarStep(h, pending, current, seen, nodes); }
      TopIsAllowed(h, pending, current, seen, nodes);
      if current.depth > MAX_DEPTH || nodes + 1 > MAX_NODES { return false; }
      nodes := nodes + 1;
      var item := current.value;
      if item.Null? || item.Text? || item.Bool? { continue; }
      if item.Number? {
        if !item.finite { return false; }
        continue;
      }
      if !item.Ref? || item.id in seen { return false; }
      if h[item.id].kind.Exotic? { return false; }
      seen := seen + {item.id};
      var children := h[item.id].children;
      ghost var rest := pending;
      for i := 0 to |children|
        invariant pending == rest + Items(children[..i], current.depth + 1)
      {
        assert children[..i + 1][..i] == children[..i];
        pending := pending + [Item(children[i], current.depth + 1)];
      }
      assert children[..|children|] == children;
    }
    assert Completes(h, [], seen, nodes, []);
    return true;
  }
}
