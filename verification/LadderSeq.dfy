/** Levels 0 and 1 of the ladder: children in a list, in order of arrival and found by a scan at level 0,
    strictly sorted by first element and found by binary search at level 1.
  */
module LadderSeq {
  import opened Registry
  import opened Ladder
  import opened Forests

  datatype Node = Node(value: Path, payload: Payload, children: seq<Node>)

  /** A labelled node, its payload and children well formed, no two children starting alike. */
  ghost predicate WfNode(n: Node) {
    && n.value != [] && |n.payload| == |n.value|
    && (forall i | 0 <= i < |n.children| :: WfNode(n.children[i]))
    && (forall i, j | 0 <= i < j < |n.children| :: n.children[i].value[0] != n.children[j].value[0])
  }

  ghost predicate WfSeq(f: seq<Node>) {
    && (forall i | 0 <= i < |f| :: WfNode(f[i]))
    && (forall i, j | 0 <= i < j < |f| :: f[i].value[0] != f[j].value[0])
  }

  ghost function AbsNode(n: Node): Tree {
    Tree(n.value, n.payload, ForestOf(seq(|n.children|, i requires 0 <= i < |n.children| => AbsNode(n.children[i]))))
  }

  ghost function Trees(f: seq<Node>): (ts: seq<Tree>)
    ensures |ts| == |f| && forall i | 0 <= i < |f| :: ts[i] == AbsNode(f[i])
  {
    seq(|f|, i requires 0 <= i < |f| => AbsNode(f[i]))
  }

  /** The forest a list of nodes stands for. */
  ghost function Abs(f: seq<Node>): Forest {
    ForestOf(Trees(f))
  }

  lemma AbsKids(n: Node)
    ensures AbsNode(n) == Tree(n.value, n.payload, Abs(n.children))
  {
    assert Trees(n.children) == seq(|n.children|, i requires 0 <= i < |n.children| => AbsNode(n.children[i]));
  }

  lemma {:induction false} AbsWfNode(n: Node)
    requires WfNode(n)
    ensures WfTree(AbsNode(n))
  {
    AbsKids(n);
    forall i | 0 <= i < |n.children|
      ensures WfTree(AbsNode(n.children[i])) && AbsNode(n.children[i]).value == n.children[i].value
    {
      AbsWfNode(n.children[i]);
    }
    ForestWf(Trees(n.children));
  }

  lemma NodeParts(n: Node)
    requires WfNode(n)
    ensures WfTree(AbsNode(n)) && AbsNode(n) == Tree(n.value, n.payload, Abs(n.children))
    ensures WfSeq(n.children) && n.value != [] && |n.payload| == |n.value|
  {
    AbsWfNode(n);
    AbsKids(n);
  }

  lemma TreesApart(f: seq<Node>)
    requires WfSeq(f)
    ensures Apart(Trees(f)) && forall i | 0 <= i < |f| :: Trees(f)[i].value == f[i].value
  {
    forall i | 0 <= i < |f|
      ensures WfTree(AbsNode(f[i]))
    {
      AbsWfNode(f[i]);
    }
  }

  lemma AbsWf(f: seq<Node>)
    requires WfSeq(f)
    ensures Wf(Abs(f))
  {
    TreesApart(f);
    ForestWf(Trees(f));
  }

  lemma AbsAt(f: seq<Node>, i: nat)
    requires WfSeq(f) && i < |f|
    ensures f[i].value[0] in Abs(f) && Abs(f)[f[i].value[0]] == AbsNode(f[i])
  {
    TreesApart(f);
    ForestAt(Trees(f), i);
  }

  lemma AbsAbsent(f: seq<Node>, h: Hash)
    requires WfSeq(f) && forall i | 0 <= i < |f| :: f[i].value[0] != h
    ensures h !in Abs(f)
  {
    TreesApart(f);
    ForestAbsent(Trees(f), h);
  }

  lemma AbsSet(f: seq<Node>, i: nat, n: Node)
    requires WfSeq(f) && i < |f| && WfNode(n) && n.value[0] == f[i].value[0]
    ensures WfSeq(f[i := n]) && Abs(f[i := n]) == Abs(f)[n.value[0] := AbsNode(n)]
  {
    TreesApart(f);
    AbsWfNode(n);
    ForestSet(Trees(f), i, AbsNode(n));
    assert Trees(f[i := n]) == Trees(f)[i := AbsNode(n)];
  }

  lemma WfInsert(f: seq<Node>, i: nat, n: Node)
    requires WfSeq(f) && i <= |f| && WfNode(n) && forall j | 0 <= j < |f| :: f[j].value[0] != n.value[0]
    ensures WfSeq(InsertAt(f, i, n))
  {
    Inserted(f, i, n);
    var g := InsertAt(f, i, n);
    hide InsertAt, WfNode;
    forall j, k | 0 <= j < k < |g|
      ensures g[j].value[0] != g[k].value[0]
    {
    }
  }

  lemma AbsInsert(f: seq<Node>, i: nat, n: Node)
    requires WfSeq(f) && i <= |f| && WfNode(n) && forall j | 0 <= j < |f| :: f[j].value[0] != n.value[0]
    ensures WfSeq(InsertAt(f, i, n)) && Abs(InsertAt(f, i, n)) == Abs(f)[n.value[0] := AbsNode(n)]
  {
    WfInsert(f, i, n);
    TreesApart(f);
    AbsWfNode(n);
    ForestAdds(Trees(f), i, AbsNode(n));
    TreesInsert(f, i, n);
  }

  lemma TreesInsert(f: seq<Node>, i: nat, n: Node)
    requires i <= |f|
    ensures Trees(InsertAt(f, i, n)) == InsertAt(Trees(f), i, AbsNode(n))
  {
    Inserted(f, i, n);
    Inserted(Trees(f), i, AbsNode(n));
    hide AbsNode, InsertAt;
  }

  // ---------- What both levels share ----------

  method MakeLeaf(key: Path, payload: Payload, o: nat) returns (n: Node)
    requires o < |key| == |payload|
    ensures WfNode(n) && n == Node(key[o..], payload[o..], []) && AbsNode(n) == Leaf(key, payload, o)
  {
    n := Node(key[o..], payload[o..], []);
    LeafIs(key, payload, o);
  }

  lemma LeafIs(key: Path, payload: Payload, o: nat)
    requires o < |key| == |payload|
    ensures WfNode(Node(key[o..], payload[o..], []))
            && AbsNode(Node(key[o..], payload[o..], [])) == Leaf(key, payload, o)
  {
    var n := Node(key[o..], payload[o..], []);
    AbsKids(n);
    assert Trees([]) == [] && ForestOf([]) == map[];
  }

  /** An exact match takes over the payload of the key. */
  method Overwrite(old_: Payload, payload: Payload, o: nat) returns (p: Payload)
    requires o + |old_| == |payload|
    ensures p == payload[o..]
  {
    p := old_;
    for j := 0 to |p|
      invariant |p| == |old_| && forall l | 0 <= l < j :: p[l] == payload[o + l]
    {
      p := p[j := payload[o + j]];
    }
  }

  /** A node made of well-formed children stands for the tree over what they stand for. */
  lemma {:induction false} NodeOver(value: Path, payload: Payload, kids: seq<Node>)
    requires value != [] && |payload| == |value| && WfSeq(kids)
    ensures WfNode(Node(value, payload, kids)) && AbsNode(Node(value, payload, kids)) == Tree(value, payload, Abs(kids))
  {
    AbsKids(Node(value, payload, kids));
  }

  lemma {:induction false} OneKid(a: Node)
    requires WfNode(a)
    ensures WfSeq([a]) && a.value != [] && Abs([a]) == map[a.value[0] := AbsNode(a)]
  {
    AbsWfNode(a);
    ForestOfOne(AbsNode(a));
    assert Trees([a]) == [AbsNode(a)];
  }

  lemma {:induction false} TwoKids(a: Node, b: Node)
    requires WfNode(a) && WfNode(b) && a.value[0] != b.value[0]
    ensures WfSeq([a, b]) && WfSeq([b, a])
    ensures Abs([a, b]) == Abs([b, a]) == map[a.value[0] := AbsNode(a)][b.value[0] := AbsNode(b)]
  {
    AbsWfNode(a);
    AbsWfNode(b);
    ForestOfTwo(AbsNode(a), AbsNode(b));
    assert Trees([a, b]) == [AbsNode(a), AbsNode(b)] && Trees([b, a]) == [AbsNode(b), AbsNode(a)];
  }

  /** The split of a node's label stands for the split of the tree's. */
  lemma {:induction false} SplitIs(n: Node, key: Path, payload: Payload, o: nat, m: nat, suffix: Node, kids: seq<Node>)
    requires WfNode(n) && o < |key| == |payload| && 0 < m < |n.value| && o + m <= |key|
    requires o + m < |key| ==> n.value[m] != key[o + m]
    requires suffix == Node(n.value[m..], n.payload[m..], n.children)
    requires var leaf := Node(key[o + m..], payload[o + m..], []);
             if o + m < |key| then kids == [suffix, leaf] || kids == [leaf, suffix] else kids == [suffix]
    ensures WfTree(AbsNode(n)) && WfNode(Node(n.value[..m], n.payload[..m], kids))
    ensures AbsNode(Node(n.value[..m], n.payload[..m], kids)) == Split(AbsNode(n), key, payload, o, m)
  {
    hide WfNode, AbsNode, WfSeq, Abs, Leaf, WfTree;
    NodeParts(n);
    NodeOver(n.value[m..], n.payload[m..], n.children);
    if o + m < |key| {
      LeafIs(key, payload, o + m);
      TwoKids(suffix, Node(key[o + m..], payload[o + m..], []));
    } else {
      OneKid(suffix);
    }
    NodeOver(n.value[..m], n.payload[..m], kids);
  }

  lemma WithKids(n: Node, kids: seq<Node>)
    requires WfNode(n) && WfSeq(kids)
    ensures var r := n.(children := kids);
            WfNode(r) && AbsNode(r) == Tree(n.value, n.payload, Abs(kids))
  {
    AbsKids(n.(children := kids));
  }

  lemma WithPayload(n: Node, payload: Payload)
    requires WfNode(n) && |payload| == |n.payload|
    ensures var r := n.(payload := payload);
            WfNode(r) && AbsNode(r) == AbsNode(n).(payload := payload)
  {
    AbsKids(n.(payload := payload));
    AbsKids(n);
  }
}
