/** Level 0: children in order of arrival, found by a scan. */
module Level0 {
  import opened Options
  import opened Registry
  import opened Ladder
  import opened Forests
  import opened LadderSeq

  method FindChild(forest: seq<Node>, h: Hash) returns (found: Option<nat>)
    requires WfSeq(forest)
    ensures found.None? ==> forall i | 0 <= i < |forest| :: forest[i].value[0] != h
    ensures found.Some? ==> found.value < |forest| && forest[found.value].value[0] == h
  {
    for i := 0 to |forest|
      invariant forall j | 0 <= j < i :: forest[j].value[0] != h
    {
      assert WfNode(forest[i]);
      if forest[i].value != [] && forest[i].value[0] == h {
        return Some(i);
      }
    }
    return None;
  }

  method ForestPrefixLen(forest: seq<Node>, query: Path, offset: nat) returns (n: nat)
    requires WfSeq(forest) && offset <= |query|
    ensures Wf(Abs(forest)) && n == Len(Abs(forest), query, offset)
    decreases |query| - offset, 1
  {
    AbsWf(forest);
    hide AbsNode, Abs, TreeLen;
    if offset >= |query| {
      return offset;
    }
    var found := FindChild(forest, query[offset]);
    match found
    case Some(i) =>
      AbsAt(forest, i);
      n := NodePrefixLen(forest[i], query, offset);
    case None =>
      AbsAbsent(forest, query[offset]);
      n := offset;
  }

  method NodePrefixLen(node: Node, query: Path, offset: nat) returns (n: nat)
    requires WfNode(node) && offset < |query| && node.value[0] == query[offset]
    ensures WfTree(AbsNode(node)) && n == TreeLen(AbsNode(node), query, offset)
    decreases |query| - offset, 0
  {
    hide AbsNode, Abs, Agree, Len, WfTree, WfNode;
    NodeParts(node);
    var matched := Matched(node.value, query, offset);
    if matched < |node.value| {
      n := offset + matched;
    } else {
      n := ForestPrefixLen(node.children, query, offset + matched);
    }
  }

  method ForestInsert(forest: seq<Node>, key: Path, payload: Payload, offset: nat) returns (r: seq<Node>)
    requires WfSeq(forest) && offset < |key| == |payload|
    ensures WfSeq(r) && Wf(Abs(forest)) && Abs(r) == Put(Abs(forest), key, payload, offset)
    decreases |key| - offset, 1
  {
    AbsWf(forest);
    hide AbsNode, Abs, TreePut, Leaf;
    var found := FindChild(forest, key[offset]);
    match found
    case None =>
      AbsAbsent(forest, key[offset]);
      var leaf := MakeLeaf(key, payload, offset);
      AbsInsert(forest, |forest|, leaf);
      r := forest + [leaf];
      assert r == InsertAt(forest, |forest|, leaf);
    case Some(idx) =>
      // the child is taken out, modified and put back
      AbsAt(forest, idx);
      var boxed, rest := forest[idx], forest[..idx] + forest[idx + 1..];
      boxed := NodeInsert(boxed, key, payload, offset);
      AbsSet(forest, idx, boxed);
      PutBack(forest, idx, boxed);
      r := rest[..idx] + [boxed] + rest[idx..];
  }

  lemma PutBack(f: seq<Node>, i: nat, n: Node)
    requires i < |f|
    ensures var rest := f[..i] + f[i + 1..]; rest[..i] + [n] + rest[i..] == f[i := n]
  {
  }

  method NodeInsert(node: Node, key: Path, payload: Payload, offset: nat) returns (r: Node)
    requires node.value != [] && WfNode(node) && offset < |key| == |payload| && node.value[0] == key[offset]
    ensures r.value != [] && WfNode(r) && r.value[0] == key[offset]
    ensures WfTree(AbsNode(node)) && AbsNode(r) == TreePut(AbsNode(node), key, payload, offset)
    decreases |key| - offset, 0
  {
    hide AbsNode, Abs, Agree, Put, Split, TreePut, WfTree, WfNode;
    NodeParts(node);
    var common := Matched(node.value, key, offset);
    if common == |node.value| && offset + common == |key| {
      PutEnds(AbsNode(node), key, payload, offset);
      var p := Overwrite(node.payload, payload, offset);
      r := node.(payload := p);
      WithPayload(node, p);
    } else if common == |node.value| {
      PutDescends(AbsNode(node), key, payload, offset);
      var kids := ForestInsert(node.children, key, payload, offset + common);
      r := node.(children := kids);
      WithKids(node, kids);
    } else {
      PutSplits(AbsNode(node), key, payload, offset);
      r := SplitAt(node, key, payload, offset, common);
    }
  }

  method SplitAt(node: Node, key: Path, payload: Payload, offset: nat, common: nat) returns (r: Node)
    requires WfNode(node) && offset < |key| == |payload| && 0 < common < |node.value| && offset + common <= |key|
    requires offset + common < |key| ==> node.value[common] != key[offset + common]
    ensures WfNode(r) && r.value == node.value[..common]
    ensures WfTree(AbsNode(node)) && AbsNode(r) == Split(AbsNode(node), key, payload, offset, common)
  {
    var suffix := Node(node.value[common..], node.payload[common..], node.children);
    var kids := [suffix];
    if offset + common < |key| {
      var leaf := MakeLeaf(key, payload, offset + common);
      kids := kids + [leaf];
    }
    SplitIs(node, key, payload, offset, common, suffix, kids);
    r := Node(node.value[..common], node.payload[..common], kids);
  }

  class RadixTreeMap {
    var roots: seq<Node>

    ghost predicate Valid()
      reads this
    {
      WfSeq(roots)
    }

    constructor ()
      ensures Valid() && Abs(roots) == map[]
    {
      roots := [];
    }

    method Insert(key: Path, payload: Payload)
      requires Valid() && key != [] && |key| == |payload|
      modifies this
      ensures Valid() && Wf(old(Abs(roots))) && Abs(roots) == Put(old(Abs(roots)), key, payload, 0)
    {
      roots := ForestInsert(roots, key, payload, 0);
    }

    method PrefixLen(query: Path) returns (n: nat)
      requires Valid()
      ensures Wf(Abs(roots)) && n == Len(Abs(roots), query, 0)
    {
      n := ForestPrefixLen(roots, query, 0);
    }
  }
}

/** Level 1: children strictly sorted by first element, found by binary search. Level 2 has the same lists
    of nodes, allocated by hand. */
module Level1 {
  import opened Registry
  import opened Ladder
  import opened Forests
  import opened LadderSeq

  ghost predicate Sorted(f: seq<Node>) {
    forall i, j | 0 <= i < j < |f| :: Head(f[i]) < Head(f[j])
  }

  /** First element of a node's label. */
  function Head(n: Node): Hash {
    if n.value == [] then 0 else n.value[0]
  }

  ghost predicate SortedNode(n: Node) {
    Sorted(n.children) && forall i | 0 <= i < |n.children| :: SortedNode(n.children[i])
  }

  ghost predicate SortedSeq(f: seq<Node>) {
    Sorted(f) && forall i | 0 <= i < |f| :: SortedNode(f[i])
  }

  method FindChild(children: seq<Node>, h: Hash) returns (r: Search)
    requires WfSeq(children) && Sorted(children)
    ensures match r
            case Found(i) => i < |children| && children[i].value[0] == h
            case Absent(i) =>
              && i <= |children|
              && (forall j | 0 <= j < i :: children[j].value[0] < h)
              && (forall j | i <= j < |children| :: h < children[j].value[0])
  {
    hide WfNode;
    Labelled(children);
    var lo, hi := 0, |children|;
    while lo < hi
      invariant 0 <= lo <= hi <= |children|
      invariant forall j | 0 <= j < lo :: children[j].value[0] < h
      invariant forall j | hi <= j < |children| :: h < children[j].value[0]
    {
      var mid := lo + (hi - lo) / 2;
      if children[mid].value[0] == h {
        return Found(mid);
      } else if children[mid].value[0] < h {
        lo := mid + 1;
      } else {
        hi := mid;
      }
    }
    r := Absent(lo);
  }

  lemma Labelled(f: seq<Node>)
    requires WfSeq(f)
    ensures forall i | 0 <= i < |f| :: f[i].value != []
  {
  }

  method ForestPrefixLen(forest: seq<Node>, query: Path, offset: nat) returns (n: nat)
    requires WfSeq(forest) && SortedSeq(forest) && offset <= |query|
    ensures Wf(Abs(forest)) && n == Len(Abs(forest), query, offset)
    decreases |query| - offset, 1
  {
    AbsWf(forest);
    hide AbsNode, Abs, TreeLen;
    if offset >= |query| {
      return offset;
    }
    var found := FindChild(forest, query[offset]);
    match found
    case Found(i) =>
      AbsAt(forest, i);
      n := NodePrefixLen(forest[i], query, offset);
    case Absent(_) =>
      AbsAbsent(forest, query[offset]);
      n := offset;
  }

  method NodePrefixLen(node: Node, query: Path, offset: nat) returns (n: nat)
    requires WfNode(node) && SortedNode(node) && offset < |query| && node.value[0] == query[offset]
    ensures WfTree(AbsNode(node)) && n == TreeLen(AbsNode(node), query, offset)
    decreases |query| - offset, 0
  {
    hide AbsNode, Abs, Agree, Len, WfTree, WfNode, SortedNode;
    NodeParts(node);
    SortedParts(node);
    var matched := Matched(node.value, query, offset);
    if matched < |node.value| {
      n := offset + matched;
    } else {
      n := ForestPrefixLen(node.children, query, offset + matched);
    }
  }

  method ForestInsert(forest: seq<Node>, key: Path, payload: Payload, offset: nat) returns (r: seq<Node>)
    requires WfSeq(forest) && SortedSeq(forest) && offset < |key| == |payload|
    ensures WfSeq(r) && SortedSeq(r) && Wf(Abs(forest)) && Abs(r) == Put(Abs(forest), key, payload, offset)
    decreases |key| - offset, 1
  {
    hide AbsNode, Abs, TreePut, Leaf, WfNode, SortedNode;
    Labelled(forest);
    AbsWf(forest);
    var found := FindChild(forest, key[offset]);
    match found
    case Absent(ins) =>
      AbsAbsent(forest, key[offset]);
      var leaf := MakeLeaf(key, payload, offset);
      AbsInsert(forest, ins, leaf);
      SortedWith(leaf, [], leaf.payload);
      SortedInsert(forest, ins, leaf);
      r := InsertAt(forest, ins, leaf);
    case Found(idx) =>
      AbsAt(forest, idx);
      var child := NodeInsert(forest[idx], key, payload, offset);
      AbsSet(forest, idx, child);
      r := forest[idx := child];
  }

  lemma SortedInsert(f: seq<Node>, i: nat, n: Node)
    requires WfSeq(f) && SortedSeq(f) && i <= |f| && WfNode(n) && SortedNode(n)
    requires forall j | 0 <= j < i :: f[j].value[0] < n.value[0]
    requires forall j | i <= j < |f| :: n.value[0] < f[j].value[0]
    ensures SortedSeq(InsertAt(f, i, n))
  {
    var g := InsertAt(f, i, n);
    Labelled(f);
    assert forall j | 0 <= j < |f| :: Head(f[j]) == f[j].value[0];
    Inserted(f, i, n);
    hide SortedNode, WfNode, InsertAt, Head;
    forall j, k | 0 <= j < k < |g|
      ensures Head(g[j]) < Head(g[k])
    {
    }
  }

  lemma SortedWith(n: Node, kids: seq<Node>, payload: Payload)
    requires SortedSeq(kids)
    ensures SortedNode(Node(n.value, payload, kids))
  {
  }

  lemma SortedParts(n: Node)
    requires SortedNode(n)
    ensures SortedSeq(n.children)
  {
  }

  method NodeInsert(node: Node, key: Path, payload: Payload, offset: nat) returns (r: Node)
    requires node.value != [] && WfNode(node) && SortedNode(node) && offset < |key| == |payload|
             && node.value[0] == key[offset]
    ensures r.value != [] && WfNode(r) && SortedNode(r) && r.value[0] == key[offset]
    ensures WfTree(AbsNode(node)) && AbsNode(r) == TreePut(AbsNode(node), key, payload, offset)
    decreases |key| - offset, 0
  {
    hide AbsNode, Abs, Agree, Put, Split, TreePut, WfTree, WfNode, SortedNode;
    NodeParts(node);
    SortedParts(node);
    var common := Matched(node.value, key, offset);
    if common == |node.value| && offset + common == |key| {
      PutEnds(AbsNode(node), key, payload, offset);
      var p := Overwrite(node.payload, payload, offset);
      r := node.(payload := p);
      WithPayload(node, p);
      SortedWith(node, node.children, p);
    } else if common == |node.value| {
      PutDescends(AbsNode(node), key, payload, offset);
      var kids := ForestInsert(node.children, key, payload, offset + common);
      r := node.(children := kids);
      WithKids(node, kids);
      SortedWith(node, kids, node.payload);
    } else {
      PutSplits(AbsNode(node), key, payload, offset);
      r := SplitAt(node, key, payload, offset, common);
    }
  }

  /** Suffix and leaf are put in sorted order. */
  method SplitAt(node: Node, key: Path, payload: Payload, offset: nat, common: nat) returns (r: Node)
    requires WfNode(node) && SortedNode(node)
    requires offset < |key| == |payload| && 0 < common < |node.value| && offset + common <= |key|
    requires offset + common < |key| ==> node.value[common] != key[offset + common]
    ensures WfNode(r) && SortedNode(r) && r.value == node.value[..common]
    ensures WfTree(AbsNode(node)) && AbsNode(r) == Split(AbsNode(node), key, payload, offset, common)
  {
    var suffix := Node(node.value[common..], node.payload[common..], node.children);
    var kids := [suffix];
    if offset + common < |key| {
      var leaf := MakeLeaf(key, payload, offset + common);
      if suffix.value[0] < leaf.value[0] {
        kids := [suffix, leaf];
      } else {
        kids := [leaf, suffix];
      }
    }
    SplitIs(node, key, payload, offset, common, suffix, kids);
    assert SortedNode(suffix);
    r := Node(node.value[..common], node.payload[..common], kids);
  }

  class RadixTreeMap {
    var roots: seq<Node>

    ghost predicate Valid()
      reads this
    {
      WfSeq(roots) && SortedSeq(roots)
    }

    constructor ()
      ensures Valid() && Abs(roots) == map[]
    {
      roots := [];
    }

    method Insert(key: Path, payload: Payload)
      requires Valid() && key != [] && |key| == |payload|
      modifies this
      ensures Valid() && Wf(old(Abs(roots))) && Abs(roots) == Put(old(Abs(roots)), key, payload, 0)
    {
      roots := ForestInsert(roots, key, payload, 0);
    }

    method PrefixLen(query: Path) returns (n: nat)
      requires Valid()
      ensures Wf(Abs(roots)) && n == Len(Abs(roots), query, 0)
    {
      n := ForestPrefixLen(roots, query, 0);
    }
  }
}
