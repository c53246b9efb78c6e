/** Level 2: level 1's sorted lists, over nodes on the heap that insertions change in place.

    Each node owns its subtree. The ghost field `model` is the level 1 node the subtree stands for, `repr`
    the objects it consists of.
  */
module Level2 {
  import opened Registry
  import opened Ladder
  import opened Forests
  import M = LadderSeq
  import L = Level1

  class Node {
    var value: Path
    var payload: Payload
    var children: seq<Node>
    ghost var model: M.Node
    ghost var repr: set<Node>

    ghost predicate Valid()
      reads this, repr
      decreases repr, 0
    {
      && this in repr
      && model.value == value && model.payload == payload
      && Owns(children, model.children, repr - {this})
    }

    constructor (value: Path, payload: Payload)
      ensures Valid() && fresh(repr) && model == M.Node(value, payload, [])
      ensures this.value == value && this.payload == payload && children == []
    {
      this.value, this.payload, children := value, payload, [];
      model := M.Node(value, payload, []);
      repr := {this};
    }
  }

  /** A list of separate subtrees within `repr`, standing for `models`. */
  ghost predicate Owns(f: seq<Node>, models: seq<M.Node>, repr: set<Node>)
    reads repr
    decreases repr, 1
  {
    && |f| == |models|
    && (forall i | 0 <= i < |f| :: f[i] in repr && f[i].repr <= repr)
    && (forall i | 0 <= i < |f| :: f[i].Valid() && f[i].model == models[i])
    && (forall i, j | 0 <= i < j < |f| :: f[i].repr !! f[j].repr)
  }

  /** A sorted, well-formed level 1 node that stands for t. */
  ghost predicate Stands(m: M.Node, t: Tree) {
    M.WfNode(m) && L.SortedNode(m) && M.AbsNode(m) == t
  }

  lemma OwnsInsert(f: seq<Node>, models: seq<M.Node>, repr: set<Node>, i: nat, n: Node)
    requires Owns(f, models, repr) && i <= |f| && n.Valid() && n.repr !! repr
    ensures Owns(InsertAt(f, i, n), InsertAt(models, i, n.model), repr + n.repr)
  {
    Inserted(f, i, n);
    Inserted(models, i, n.model);
    hide InsertAt, Node.Valid;
    assert n in n.repr by { InRepr(n); }
  }

  lemma InRepr(n: Node)
    requires n.Valid()
    ensures n in n.repr
  {
  }

  lemma OwnsTwo(a: Node, b: Node, repr: set<Node>)
    requires a.Valid() && b.Valid() && a.repr <= repr && b.repr <= repr && a.repr !! b.repr
    ensures Owns([a], [a.model], repr)
    ensures Owns([a, b], [a.model, b.model], repr) && Owns([b, a], [b.model, a.model], repr)
  {
    InRepr(a);
    InRepr(b);
    hide Node.Valid;
  }

  lemma OwnsOne(a: Node, repr: set<Node>)
    requires a.Valid() && a.repr <= repr
    ensures Owns([a], [a.model], repr)
  {
    InRepr(a);
    hide Node.Valid;
  }

  method FindChild(children: seq<Node>, h: Hash, ghost models: seq<M.Node>, ghost repr: set<Node>) returns (r: Search)
    requires Owns(children, models, repr) && M.WfSeq(models) && L.Sorted(models)
    ensures match r
            case Found(i) => i < |models| && models[i].value[0] == h
            case Absent(i) =>
              && i <= |models|
              && (forall j | 0 <= j < i :: models[j].value[0] < h)
              && (forall j | i <= j < |models| :: h < models[j].value[0])
  {
    L.Labelled(models);
    assert forall i | 0 <= i < |children| :: children[i].value == models[i].value;
    hide M.WfNode;
    var lo, hi := 0, |children|;
    while lo < hi
      invariant 0 <= lo <= hi <= |children|
      invariant forall j | 0 <= j < lo :: models[j].value[0] < h
      invariant forall j | hi <= j < |models| :: h < models[j].value[0]
    {
      var mid := lo + (hi - lo) / 2;
      if children[mid].value[0] == h {
        return Found(mid);
      } else if children[mid].value[0] < h {
        lo := mid + 1;
      } else {
        hi := mid;
      }
    }
    r := Absent(lo);
  }

  method ForestPrefixLen(forest: seq<Node>, query: Path, offset: nat, ghost models: seq<M.Node>, ghost repr: set<Node>)
    returns (n: nat)
    requires Owns(forest, models, repr) && M.WfSeq(models) && L.SortedSeq(models) && offset <= |query|
    ensures Wf(M.Abs(models)) && n == Len(M.Abs(models), query, offset)
    decreases |query| - offset, 1
  {
    M.AbsWf(models);
    hide M.AbsNode, M.Abs, TreeLen;
    if offset >= |query| {
      return offset;
    }
    var found := FindChild(forest, query[offset], models, repr);
    match found
    case Found(i) =>
      M.AbsAt(models, i);
      n := NodePrefixLen(forest[i], query, offset);
    case Absent(_) =>
      M.AbsAbsent(models, query[offset]);
      n := offset;
  }

  method NodePrefixLen(node: Node, query: Path, offset: nat) returns (n: nat)
    requires node.Valid() && M.WfNode(node.model) && L.SortedNode(node.model)
    requires offset < |query| && node.value[0] == query[offset]
    ensures WfTree(M.AbsNode(node.model)) && n == TreeLen(M.AbsNode(node.model), query, offset)
    decreases |query| - offset, 0
  {
    hide M.AbsNode, M.Abs, Agree, Len, M.WfNode, L.SortedNode, WfTree, Owns, Node.Valid;
    DescendShape(node.model);
    BelowNode(node);
    M.AbsKids(node.model);
    var matched := Matched(node.value, query, offset);
    if matched < |node.value| {
      n := offset + matched;
    } else {
      n := ForestPrefixLen(node.children, query, offset + matched, node.model.children, node.repr - {node});
    }
  }

  // ---------- Insertion ----------

  method ForestInsert(forest: seq<Node>, key: Path, payload: Payload, offset: nat,
                      ghost models: seq<M.Node>, ghost repr: set<Node>)
    returns (r: seq<Node>, ghost models': seq<M.Node>, ghost repr': set<Node>)
    requires Owns(forest, models, repr) && M.WfSeq(models) && L.SortedSeq(models) && offset < |key| == |payload|
    modifies repr
    ensures Owns(r, models', repr') && fresh(repr' - repr)
    ensures M.WfSeq(models') && L.SortedSeq(models') && Wf(M.Abs(models))
    ensures M.Abs(models') == Put(M.Abs(models), key, payload, offset)
    decreases |key| - offset, 3
  {
    M.AbsWf(models);
    hide M.AbsNode, M.Abs, TreePut, Leaf, Node.Valid, M.WfNode, L.SortedNode;
    var found := FindChild(forest, key[offset], models, repr);
    match found
    case Absent(ins) =>
      M.AbsAbsent(models, key[offset]);
      M.LeafIs(key, payload, offset);
      var leaf := new Node(key[offset..], payload[offset..]);
      M.AbsInsert(models, ins, leaf.model);
      LeafSorted(leaf.model);
      L.SortedInsert(models, ins, leaf.model);
      OwnsInsert(forest, models, repr, ins, leaf);
      r, models', repr' := InsertAt(forest, ins, leaf), InsertAt(models, ins, leaf.model), repr + leaf.repr;
    case Found(idx) =>
      M.AbsAt(models, idx);
      InsertInto(forest, idx, key, payload, offset, models, repr);
      M.AbsSet(models, idx, forest[idx].model);
      r, models', repr' := forest, models[idx := forest[idx].model], repr + forest[idx].repr;
      SetSorted(models, idx, forest[idx].model);
  }

  lemma LeafSorted(n: M.Node)
    requires n.children == []
    ensures L.SortedNode(n)
  {
  }

  lemma SetSorted(models: seq<M.Node>, i: nat, n: M.Node)
    requires M.WfSeq(models) && L.SortedSeq(models) && i < |models| && L.SortedNode(n) && M.WfNode(n)
    requires n.value[0] == models[i].value[0]
    ensures L.SortedSeq(models[i := n])
  {
    hide L.SortedNode;
    L.Labelled(models);
  }

  /** Inserts into one of the subtrees, leaving the others as they are. */
  method InsertInto(forest: seq<Node>, idx: nat, key: Path, payload: Payload, offset: nat,
                    ghost models: seq<M.Node>, ghost repr: set<Node>)
    requires Owns(forest, models, repr) && M.WfSeq(models) && L.SortedSeq(models)
    requires idx < |forest| && offset < |key| == |payload| && models[idx].value[0] == key[offset]
    modifies forest[idx].repr
    ensures Owns(forest, models[idx := forest[idx].model], repr + forest[idx].repr)
    ensures fresh(forest[idx].repr - old(forest[idx].repr))
    ensures M.WfNode(forest[idx].model) && L.SortedNode(forest[idx].model) && forest[idx].model.value[0] == key[offset]
    ensures WfTree(M.AbsNode(models[idx]))
    ensures M.AbsNode(forest[idx].model) == TreePut(M.AbsNode(models[idx]), key, payload, offset)
    decreases |key| - offset, 2
  {
    var n := forest[idx];
    ModelValue(n);
    M.AbsWfNode(models[idx]);
    StandsFor(models[idx], key, payload, offset);
    hide M.AbsNode, M.WfNode, L.SortedNode, Node.Valid, TreePut;
    NodeInsert(n, key, payload, offset);
    forall i | 0 <= i < |forest| && i != idx
      ensures forest[i].Valid() && forest[i].repr == old(forest[i].repr) && forest[i].model == models[i]
      ensures forest[i].repr !! n.repr
    {
      assert old(forest[i].repr) !! old(n.repr);
      assert old(forest[i] in forest[i].repr) by { InRepr(forest[i]); }
    }
  }

  /** What stands for the tree after an insertion starts as the key does. */
  lemma StandsFor(m: M.Node, key: Path, payload: Payload, offset: nat)
    requires M.WfNode(m) && WfTree(M.AbsNode(m)) && offset < |key| == |payload| && m.value[0] == key[offset]
    ensures forall n | Stands(n, TreePut(M.AbsNode(m), key, payload, offset)) ::
              n.value != [] && n.value[0] == key[offset]
  {
    forall n | Stands(n, TreePut(M.AbsNode(m), key, payload, offset))
      ensures n.value != [] && n.value[0] == key[offset]
    {
      assert M.AbsNode(n).value == n.value;
    }
  }

  lemma ModelValue(n: Node)
    requires n.Valid()
    ensures n.value == n.model.value
  {
  }

  method NodeInsert(node: Node, key: Path, payload: Payload, offset: nat)
    requires node.Valid() && M.WfNode(node.model) && L.SortedNode(node.model)
    requires offset < |key| == |payload| && node.value[0] == key[offset]
    modifies node.repr
    ensures node.Valid() && fresh(node.repr - old(node.repr))
    ensures WfTree(old(M.AbsNode(node.model)))
    ensures Stands(node.model, TreePut(old(M.AbsNode(node.model)), key, payload, offset))
    decreases |key| - offset, 1
  {
    hide M.AbsNode, M.Abs, Agree, Put, Split, TreePut, WfTree, M.WfNode, L.SortedNode, Owns, Node.Valid, Stands;
    ghost var n := node.model;
    M.AbsWfNode(n);
    NodeShape(n);
    BelowNode(node);
    var common := Matched(node.value, key, offset);
    if common == |node.value| && offset + common == |key| {
      OverwriteAt(node, key, payload, offset);
    } else if common == |node.value| {
      Descend(node, key, payload, offset);
    } else {
      SplitAt(node, key, payload, offset, common);
    }
  }

  lemma NodeShape(n: M.Node)
    requires M.WfNode(n)
    ensures n.value != [] && |n.payload| == |n.value| && M.AbsNode(n).value == n.value
            && M.AbsNode(n).payload == n.payload
  {
  }

  /** An exact match takes over the payload. */
  method OverwriteAt(node: Node, key: Path, payload: Payload, offset: nat)
    requires node.Valid() && M.WfNode(node.model) && L.SortedNode(node.model)
    requires offset < |key| == |payload| && node.value[0] == key[offset]
    requires Agree(node.value, 0, key, offset) == |node.value| && offset + |node.value| == |key|
    modifies node
    ensures node.Valid() && node.repr == old(node.repr) && WfTree(old(M.AbsNode(node.model)))
    ensures Stands(node.model, TreePut(old(M.AbsNode(node.model)), key, payload, offset))
  {
    ghost var n := node.model;
    ghost var p := payload[offset..];
    M.AbsWfNode(n);
    NodeShape(n);
    PutEnds(M.AbsNode(n), key, payload, offset);
    M.WithPayload(n, p);
    L.SortedWith(n, n.children, p);
    assert |node.payload| == |node.value|;
    hide M.WfNode, L.SortedNode, M.AbsNode, TreePut, Agree, WfTree;
    var pay := M.Overwrite(node.payload, payload, offset);
    node.payload := pay;
    node.model := n.(payload := p);
  }

  /** Gives a node its new label, payload and children. */
  method Refill(node: Node, value: Path, payload: Payload, kids: seq<Node>, ghost models: seq<M.Node>,
                ghost repr: set<Node>)
    requires Owns(kids, models, repr) && node !in repr
    modifies node
    ensures node.Valid() && node.repr == {node} + repr && node.model == M.Node(value, payload, models)
  {
    hide Owns;
    node.value, node.payload, node.children := value, payload, kids;
    node.model := M.Node(value, payload, models);
    node.repr := {node} + repr;
    assert node.repr - {node} == repr;
  }

  /** Inserts below a node whose label the key passes. */
  method Descend(node: Node, key: Path, payload: Payload, offset: nat)
    requires node.Valid() && M.WfNode(node.model) && L.SortedNode(node.model)
    requires offset < |key| == |payload| && node.value[0] == key[offset]
    requires Agree(node.value, 0, key, offset) == |node.value| && offset + |node.value| < |key|
    modifies node.repr
    ensures node.Valid() && fresh(node.repr - old(node.repr)) && WfTree(old(M.AbsNode(node.model)))
    ensures Stands(node.model, TreePut(old(M.AbsNode(node.model)), key, payload, offset))
    decreases |key| - offset, 0
  {
    hide M.AbsNode, M.Abs, Put, TreePut, Agree, WfTree, M.WfNode, L.SortedNode, M.WfSeq, L.SortedSeq, Wf, Owns,
         Node.Valid, Stands;
    ghost var n := node.model;
    ghost var below := node.repr - {node};
    BelowNode(node);
    DescendShape(n);
    var lab, own, kids := node.value, node.payload, node.children;
    ghost var models, repr;
    kids, models, repr := ForestInsert(kids, key, payload, offset + |lab|, n.children, below);
    assert node !in repr;
    DescendIs(n, models, key, payload, offset);
    Refill(node, lab, own, kids, models, repr);
  }

  /** The children of a node and what they consist of. */
  lemma BelowNode(node: Node)
    requires node.Valid()
    ensures node in node.repr && node.value == node.model.value && node.payload == node.model.payload
    ensures Owns(node.children, node.model.children, node.repr - {node})
  {
    hide Owns;
  }

  lemma DescendShape(n: M.Node)
    requires M.WfNode(n) && L.SortedNode(n)
    ensures M.WfSeq(n.children) && L.SortedSeq(n.children) && n.value != [] && WfTree(M.AbsNode(n))
  {
    M.AbsWfNode(n);
  }

  lemma DescendIs(n: M.Node, models: seq<M.Node>, key: Path, payload: Payload, offset: nat)
    requires M.WfNode(n) && L.SortedNode(n) && M.WfSeq(models) && L.SortedSeq(models) && Wf(M.Abs(n.children))
    requires offset < |key| == |payload| && n.value[0] == key[offset]
    requires Agree(n.value, 0, key, offset) == |n.value| && offset + |n.value| < |key|
    requires M.Abs(models) == Put(M.Abs(n.children), key, payload, offset + |n.value|)
    ensures WfTree(M.AbsNode(n)) && Stands(n.(children := models), TreePut(M.AbsNode(n), key, payload, offset))
  {
    hide M.AbsNode, M.Abs, Put, TreePut, Agree, WfTree, M.WfNode, L.SortedNode, M.WfSeq, L.SortedSeq, Wf;
    NodeShape(n);
    M.AbsWfNode(n);
    M.AbsKids(n);
    PutDescends(M.AbsNode(n), key, payload, offset);
    M.WithKids(n, models);
    L.SortedWith(n, models, n.payload);
  }

  /** Splits a label in place. */
  method SplitAt(node: Node, key: Path, payload: Payload, offset: nat, common: nat)
    requires node.Valid() && M.WfNode(node.model) && L.SortedNode(node.model)
    requires offset < |key| == |payload| && node.value[0] == key[offset]
    requires common == Agree(node.value, 0, key, offset) < |node.value|
    modifies node
    ensures node.Valid() && fresh(node.repr - old(node.repr)) && WfTree(old(M.AbsNode(node.model)))
    ensures Stands(node.model, TreePut(old(M.AbsNode(node.model)), key, payload, offset))
  {
    hide TreePut, Agree, M.WfNode, L.SortedNode, M.AbsNode, Split, Owns, Node.Valid, WfTree;
    ghost var n := node.model;
    M.AbsWfNode(n);
    NodeShape(n);
    BelowNode(node);
    PutSplits(M.AbsNode(n), key, payload, offset);
    ghost var below := node.repr - {node};
    var suffix := SplitOff(node, common);
    var kids := [suffix];
    ghost var models, repr := [suffix.model], suffix.repr;
    OwnsOne(suffix, suffix.repr);
    if offset + common < |key| {
      M.LeafIs(key, payload, offset + common);
      var leaf := new Node(key[offset + common..], payload[offset + common..]);
      OwnsTwo(suffix, leaf, suffix.repr + leaf.repr);
      repr := suffix.repr + leaf.repr;
      if suffix.value[0] < leaf.value[0] {
        kids, models := [suffix, leaf], [suffix.model, leaf.model];
      } else {
        kids, models := [leaf, suffix], [leaf.model, suffix.model];
      }
    }
    M.SplitIs(n, key, payload, offset, common, suffix.model, models);
    SplitSorted(n, suffix.model, models);
    Refill(node, node.value[..common], node.payload[..common], kids, models, repr);
  }

  lemma SplitSorted(n: M.Node, suffix: M.Node, models: seq<M.Node>)
    requires L.SortedNode(n) && suffix.children == n.children
    requires models == [suffix] || (|models| == 2 && L.Head(models[0]) < L.Head(models[1]) &&
               forall i | 0 <= i < 2 :: models[i] == suffix || models[i].children == [])
    ensures forall value, payload :: L.SortedNode(M.Node(value, payload, models))
  {
    assert L.SortedNode(suffix);
    forall i | 0 <= i < |models|
      ensures L.SortedNode(models[i])
    {
    }
  }

  /** A new node takes over the end of the label, with the payload and all children. */
  method SplitOff(node: Node, common: nat) returns (suffix: Node)
    requires node.Valid() && 0 < common < |node.value| == |node.payload|
    ensures suffix.Valid() && fresh(suffix) && suffix.repr == {suffix} + (node.repr - {node})
    ensures suffix.value == node.value[common..]
    ensures suffix.model == M.Node(node.model.value[common..], node.model.payload[common..], node.model.children)
  {
    suffix := new Node(node.value[common..], node.payload[common..]);
    suffix.children := node.children;
    suffix.model := M.Node(suffix.value, suffix.payload, node.model.children);
    suffix.repr := {suffix} + (node.repr - {node});
    assert suffix.repr - {suffix} == node.repr - {node};
    hide Owns;
  }

  class RadixTreeMap {
    var roots: seq<Node>
    ghost var models: seq<M.Node>
    ghost var repr: set<Node>

    ghost predicate Valid()
      reads this, repr
    {
      Owns(roots, models, repr) && M.WfSeq(models) && L.SortedSeq(models)
    }

    constructor ()
      ensures Valid() && M.Abs(models) == map[] && fresh(repr)
    {
      roots, models, repr := [], [], {};
    }

    method Insert(key: Path, payload: Payload)
      requires Valid() && key != [] && |key| == |payload|
      modifies this, repr
      ensures Valid() && fresh(repr - old(repr)) && Wf(old(M.Abs(models)))
      ensures M.Abs(models) == Put(old(M.Abs(models)), key, payload, 0)
    {
      hide Owns, M.WfNode, L.SortedNode, Put, M.Abs;
      roots, models, repr := ForestInsert(roots, key, payload, 0, models, repr);
    }

    method PrefixLen(query: Path) returns (n: nat)
      requires Valid()
      ensures Wf(M.Abs(models)) && n == Len(M.Abs(models), query, 0)
    {
      n := ForestPrefixLen(roots, query, 0, models, repr);
    }
  }
}
