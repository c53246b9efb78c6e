/** Level 3: children in a sorted list of at most 64, or in a map keyed by first elements once there are
    more. */
module Level3 {
  import opened Options
  import opened Registry
  import opened Ladder
  import opened Forests

  const SMALL_MAX := 64

  datatype Kids = Small(v: seq<Node>) | Large(m: map<Hash, Node>)

  datatype Node = Node(value: Path, payload: Payload, children: Kids)

  ghost predicate WfNode(n: Node) {
    n.value != [] && |n.payload| == |n.value| && WfKids(n.children)
  }

  /** A short, strictly sorted list, or a map that files each child under its first element. */
  ghost predicate WfKids(k: Kids) {
    match k
    case Small(v) =>
      && |v| <= SMALL_MAX
      && (forall i | 0 <= i < |v| :: WfNode(v[i]))
      && (forall i, j | 0 <= i < j < |v| :: v[i].value[0] < v[j].value[0])
    case Large(m) => forall h | h in m :: WfNode(m[h]) && m[h].value[0] == h
  }

  /** The first case of `WfKids`, unfolded once. */
  ghost predicate WfList(v: seq<Node>) {
    && |v| <= SMALL_MAX
    && (forall i | 0 <= i < |v| :: WfNode(v[i]))
    && (forall i, j | 0 <= i < j < |v| :: v[i].value[0] < v[j].value[0])
  }

  ghost function AbsNode(n: Node): Tree {
    Tree(n.value, n.payload, Abs(n.children))
  }

  ghost function Abs(k: Kids): Forest {
    match k
    case Small(v) => ForestOf(seq(|v|, i requires 0 <= i < |v| => AbsNode(v[i])))
    case Large(m) => map h | h in m :: AbsNode(m[h])
  }

  ghost function Trees(v: seq<Node>): (ts: seq<Tree>)
    ensures |ts| == |v| && forall i | 0 <= i < |v| :: ts[i] == AbsNode(v[i])
  {
    seq(|v|, i requires 0 <= i < |v| => AbsNode(v[i]))
  }

  lemma AbsSmall(v: seq<Node>)
    ensures Abs(Small(v)) == ForestOf(Trees(v))
  {
    assert Trees(v) == seq(|v|, i requires 0 <= i < |v| => AbsNode(v[i]));
  }

  lemma {:induction false} AbsWfNode(n: Node)
    requires WfNode(n)
    ensures WfTree(AbsNode(n))
    decreases n
  {
    AbsWf(n.children);
  }

  lemma {:induction false} AbsWf(k: Kids)
    requires WfKids(k)
    ensures Wf(Abs(k))
    decreases k
  {
    match k
    case Small(v) =>
      assert WfList(v);
      forall i | 0 <= i < |v|
        ensures WfTree(AbsNode(v[i])) && AbsNode(v[i]).value == v[i].value
      {
        AbsWfNode(v[i]);
      }
      AbsSmall(v);
      ForestWf(Trees(v));
    case Large(m) =>
      forall h | h in m
        ensures WfTree(AbsNode(m[h])) && AbsNode(m[h]).value[0] == h
      {
        AbsWfNode(m[h]);
      }
  }

  lemma TreesApart(v: seq<Node>)
    requires WfList(v)
    ensures Apart(Trees(v)) && forall i | 0 <= i < |v| :: Trees(v)[i].value == v[i].value
  {
    forall i | 0 <= i < |v|
      ensures WfTree(AbsNode(v[i]))
    {
      AbsWfNode(v[i]);
    }
  }

  lemma Labelled(v: seq<Node>)
    requires WfList(v)
    ensures forall i | 0 <= i < |v| :: v[i].value != []
  {
    assert forall i | 0 <= i < |v| :: WfNode(v[i]);
  }

  lemma LabelledNode(n: Node)
    requires WfNode(n)
    ensures n.value != [] && |n.payload| == |n.value| && WfKids(n.children)
  {
  }

  // ---------- Children ----------

  method BinarySearch(v: seq<Node>, h: Hash) returns (r: Search)
    requires WfList(v)
    ensures match r
            case Found(i) => i < |v| && v[i].value[0] == h
            case Absent(i) =>
              && i <= |v| && (forall j | 0 <= j < i :: v[j].value[0] < h)
                 && (forall j | i <= j < |v| :: h < v[j].value[0])
  {
    hide WfNode;
    Labelled(v);
    var lo, hi := 0, |v|;
    while lo < hi
      invariant 0 <= lo <= hi <= |v|
      invariant forall j | 0 <= j < lo :: v[j].value[0] < h
      invariant forall j | hi <= j < |v| :: h < v[j].value[0]
    {
      var mid := lo + (hi - lo) / 2;
      if v[mid].value[0] == h {
        return Found(mid);
      } else if v[mid].value[0] < h {
        lo := mid + 1;
      } else {
        hi := mid;
      }
    }
    r := Absent(lo);
  }

  method FindChild(k: Kids, h: Hash) returns (r: Option<Node>)
    requires WfKids(k)
    ensures r.None? ==> h !in Abs(k)
    ensures r.Some? ==> WfNode(r.value) && r.value.value[0] == h && h in Abs(k) && Abs(k)[h] == AbsNode(r.value)
  {
    match k
    case Small(v) =>
      assert WfList(v);
      AbsSmall(v);
      TreesApart(v);
      var s := BinarySearch(v, h);
      match s {
        case Found(i) =>
          ForestAt(Trees(v), i);
          r := Some(v[i]);
        case Absent(_) =>
          ForestAbsent(Trees(v), h);
          r := None;
      }
    case Large(m) =>
      r := if h in m then Some(m[h]) else None;
  }

  /** A child joins the container, replacing one that starts alike; a list that is full turns into a map. */
  method InsertChild(k: Kids, n: Node) returns (r: Kids)
    requires WfKids(k) && WfNode(n)
    ensures n.value != [] && WfKids(r) && Abs(r) == Abs(k)[n.value[0] := AbsNode(n)]
  {
    match k
    case Small(v) =>
      assert WfList(v);
      if |v| >= SMALL_MAX {
        var m := ToMap(v);
        r := Large(m[n.value[0] := n]);
      } else {
        var w := InsertSorted(v, n);
        r := Small(w);
      }
    case Large(m) =>
      r := Large(m[n.value[0] := n]);
  }

  /** A child joins a list that has room, in its place. */
  method InsertSorted(v: seq<Node>, n: Node) returns (w: seq<Node>)
    requires WfList(v) && |v| < SMALL_MAX && WfNode(n)
    ensures n.value != [] && WfList(w) && Abs(Small(w)) == Abs(Small(v))[n.value[0] := AbsNode(n)]
  {
    hide WfNode, WfList, Abs, AbsNode;
    LabelledNode(n);
    Labelled(v);
    var s := BinarySearch(v, n.value[0]);
    match s {
      case Found(i) =>
        Replaced(v, i, n);
        w := v[i := n];
      case Absent(i) =>
        Joined(v, i, n);
        w := InsertAt(v, i, n);
    }
  }

  lemma Replaced(v: seq<Node>, i: nat, n: Node)
    requires WfList(v) && WfNode(n) && i < |v|
    requires v[i].value != [] && v[i].value[0] == n.value[0]
    ensures WfList(v[i := n]) && Abs(Small(v[i := n])) == Abs(Small(v))[n.value[0] := AbsNode(n)]
  {
    hide Abs;
    AbsSmall(v);
    TreesApart(v);
    AbsWfNode(n);
    ForestSet(Trees(v), i, AbsNode(n));
    assert Trees(v[i := n]) == Trees(v)[i := AbsNode(n)];
    AbsSmall(v[i := n]);
  }

  lemma Joined(v: seq<Node>, i: nat, n: Node)
    requires WfList(v) && WfNode(n) && i <= |v| < SMALL_MAX
    requires forall j | 0 <= j < |v| :: v[j].value != []
    requires forall j | 0 <= j < i :: v[j].value[0] < n.value[0]
    requires forall j | i <= j < |v| :: n.value[0] < v[j].value[0]
    ensures WfList(InsertAt(v, i, n)) && Abs(Small(InsertAt(v, i, n))) == Abs(Small(v))[n.value[0] := AbsNode(n)]
  {
    hide Abs, InsertAt;
    AbsSmall(v);
    TreesApart(v);
    AbsWfNode(n);
    ForestAdds(Trees(v), i, AbsNode(n));
    TreesInsert(v, i, n);
    AbsSmall(InsertAt(v, i, n));
    SortedInsert(v, i, n);
  }

  /** A child that is there is updated where it is; the container keeps its form. */
  method UpdateChild(k: Kids, n: Node) returns (r: Kids)
    requires WfKids(k) && WfNode(n) && Wf(Abs(k)) && n.value[0] in Abs(k)
    ensures WfKids(r) && Abs(r) == Abs(k)[n.value[0] := AbsNode(n)] && (r.Small? <==> k.Small?)
  {
    match k
    case Small(v) =>
      assert WfList(v);
      var w := UpdateSorted(v, n);
      r := Small(w);
    case Large(m) =>
      r := Large(m[n.value[0] := n]);
  }

  method UpdateSorted(v: seq<Node>, n: Node) returns (w: seq<Node>)
    requires WfList(v) && WfNode(n) && n.value[0] in Abs(Small(v))
    ensures WfList(w) && Abs(Small(w)) == Abs(Small(v))[n.value[0] := AbsNode(n)]
  {
    hide WfNode, WfList, Abs, AbsNode;
    LabelledNode(n);
    Labelled(v);
    var s := BinarySearch(v, n.value[0]);
    match s {
      case Found(i) =>
        Replaced(v, i, n);
        w := v[i := n];
      case Absent(_) =>
        Absentee(v, n.value[0]);
        assert false;
    }
  }

  lemma Absentee(v: seq<Node>, h: Hash)
    requires WfList(v) && (forall j | 0 <= j < |v| :: v[j].value != [] && v[j].value[0] != h)
    ensures h !in Abs(Small(v))
  {
    AbsSmall(v);
    TreesApart(v);
    ForestAbsent(Trees(v), h);
  }

  lemma TreesInsert(v: seq<Node>, i: nat, n: Node)
    requires i <= |v|
    ensures Trees(InsertAt(v, i, n)) == InsertAt(Trees(v), i, AbsNode(n))
  {
    Inserted(v, i, n);
    Inserted(Trees(v), i, AbsNode(n));
    hide AbsNode, InsertAt;
  }

  lemma SortedInsert(v: seq<Node>, i: nat, n: Node)
    requires WfList(v) && WfNode(n) && i <= |v| < SMALL_MAX
    requires forall j | 0 <= j < i :: v[j].value[0] < n.value[0]
    requires forall j | i <= j < |v| :: n.value[0] < v[j].value[0]
    ensures WfList(InsertAt(v, i, n))
  {
    Inserted(v, i, n);
    var w := InsertAt(v, i, n);
    hide InsertAt;
    forall j | 0 <= j < |w|
      ensures WfNode(w[j])
    {
    }
    hide WfNode;
    forall j, k | 0 <= j < k < |w|
      ensures w[j].value[0] < w[k].value[0]
    {
    }
  }

  /** The upgrade of a full list: a map with the same children. */
  method ToMap(v: seq<Node>) returns (m: map<Hash, Node>)
    requires WfList(v)
    ensures WfKids(Large(m)) && Abs(Large(m)) == Abs(Small(v))
  {
    hide WfNode, WfList, WfKids, Abs;
    Labelled(v);
    m := map[];
    for i := 0 to |v|
      invariant forall h | h in m :: m[h] in v[..i] && m[h].value != [] && m[h].value[0] == h
      invariant forall j | 0 <= j < i :: v[j].value[0] in m && m[v[j].value[0]] == v[j]
    {
      Earlier(v, i);
      assert v[..i + 1] == v[..i] + [v[i]];
      m := m[v[i].value[0] := v[i]];
    }
    MapIs(v, m);
  }

  lemma Earlier(v: seq<Node>, i: nat)
    requires WfList(v) && i < |v|
    ensures forall j | 0 <= j < i :: v[j].value != [] && v[i].value != [] && v[j].value[0] != v[i].value[0]
  {
    Labelled(v);
  }

  lemma MapIs(v: seq<Node>, m: map<Hash, Node>)
    requires WfList(v) && (forall j | 0 <= j < |v| :: v[j].value != [])
    requires forall h | h in m :: m[h] in v && m[h].value != [] && m[h].value[0] == h
    requires forall j | 0 <= j < |v| :: v[j].value[0] in m && m[v[j].value[0]] == v[j]
    ensures WfKids(Large(m)) && Abs(Large(m)) == Abs(Small(v))
  {
    AbsSmall(v);
    TreesApart(v);
    forall h | h in m
      ensures h in Heads(Trees(v))
    {
      var j :| 0 <= j < |v| && v[j] == m[h];
      HeadsAre(Trees(v), h);
      assert Trees(v)[j].value[0] == h;
    }
    ForestUnique(Trees(v), Abs(Large(m)));
  }

  // ---------- Lookup ----------

  method KidsPrefixLen(k: Kids, query: Path, offset: nat) returns (n: nat)
    requires WfKids(k) && offset <= |query|
    ensures Wf(Abs(k)) && n == Len(Abs(k), query, offset)
    decreases |query| - offset, 1
  {
    AbsWf(k);
    hide AbsNode, Abs, TreeLen;
    if offset >= |query| {
      return offset;
    }
    var found := FindChild(k, query[offset]);
    match found
    case Some(node) => n := NodePrefixLen(node, query, offset);
    case None => n := offset;
  }

  method NodePrefixLen(node: Node, query: Path, offset: nat) returns (n: nat)
    requires WfNode(node) && offset < |query| && node.value[0] == query[offset]
    ensures WfTree(AbsNode(node)) && n == TreeLen(AbsNode(node), query, offset)
    decreases |query| - offset, 0
  {
    hide Abs, Agree, Len, WfTree, WfKids;
    AbsWfNode(node);
    var matched := Matched(node.value, query, offset);
    if matched < |node.value| {
      n := offset + matched;
    } else {
      n := KidsPrefixLen(node.children, query, offset + matched);
    }
  }

  // ---------- Insertion ----------

  method KidsInsert(k: Kids, key: Path, payload: Payload, offset: nat) returns (r: Kids)
    requires WfKids(k) && offset < |key| == |payload|
    ensures WfKids(r) && Wf(Abs(k)) && Abs(r) == Put(Abs(k), key, payload, offset)
    decreases |key| - offset, 1
  {
    AbsWf(k);
    hide AbsNode, Abs, TreePut, Leaf;
    var found := FindChild(k, key[offset]);
    match found
    case None =>
      LeafIs(key, payload, offset);
      r := InsertChild(k, Node(key[offset..], payload[offset..], Small([])));
    case Some(node) =>
      var node' := NodeInsert(node, key, payload, offset);
      r := UpdateChild(k, node');
  }

  lemma LeafIs(key: Path, payload: Payload, o: nat)
    requires o < |key| == |payload|
    ensures var n := Node(key[o..], payload[o..], Small([]));
            WfNode(n) && n.value[0] == key[o] && AbsNode(n) == Leaf(key, payload, o)
  {
    AbsSmall([]);
    assert Trees([]) == [] && ForestOf([]) == map[];
  }

  method NodeInsert(node: Node, key: Path, payload: Payload, offset: nat) returns (r: Node)
    requires WfNode(node) && offset < |key| == |payload| && node.value[0] == key[offset]
    ensures WfNode(r) && r.value[0] == key[offset]
    ensures WfTree(AbsNode(node)) && AbsNode(r) == TreePut(AbsNode(node), key, payload, offset)
    decreases |key| - offset, 0
  {
    hide Abs, Agree, Put, Split, TreePut, WfTree, WfKids;
    AbsWfNode(node);
    var common := Matched(node.value, key, offset);
    if common == |node.value| && offset + common == |key| {
      PutEnds(AbsNode(node), key, payload, offset);
      var p := node.payload;
      for j := 0 to |p|
        invariant |p| == |node.payload| && forall l | 0 <= l < j :: p[l] == payload[offset + l]
      {
        p := p[j := payload[offset + j]];
      }
      assert p == payload[offset..];
      r := node.(payload := p);
    } else if common == |node.value| {
      PutDescends(AbsNode(node), key, payload, offset);
      var kids := KidsInsert(node.children, key, payload, offset + common);
      r := node.(children := kids);
    } else {
      PutSplits(AbsNode(node), key, payload, offset);
      r := SplitAt(node, key, payload, offset, common);
    }
  }

  /** The split moves the label's end, with all children, to a new child, and adds the rest of the key. */
  method SplitAt(node: Node, key: Path, payload: Payload, offset: nat, common: nat) returns (r: Node)
    requires WfNode(node) && offset < |key| == |payload| && 0 < common < |node.value| && offset + common <= |key|
    requires offset + common < |key| ==> node.value[common] != key[offset + common]
    ensures WfNode(r) && r.value == node.value[..common]
    ensures WfTree(AbsNode(node)) && AbsNode(r) == Split(AbsNode(node), key, payload, offset, common)
  {
    AbsWfNode(node);
    AbsSmall([]);
    assert Trees([]) == [] && ForestOf([]) == map[] && WfKids(Small([]));
    hide Abs;
    var suffix := Node(node.value[common..], node.payload[common..], node.children);
    var kids := InsertChild(Small([]), suffix);
    if offset + common < |key| {
      LeafIs(key, payload, offset + common);
      kids := InsertChild(kids, Node(key[offset + common..], payload[offset + common..], Small([])));
    }
    r := Node(node.value[..common], node.payload[..common], kids);
  }

  class RadixTreeMap {
    var roots: Kids

    ghost predicate Valid()
      reads this
    {
      WfKids(roots)
    }

    constructor ()
      ensures Valid() && Abs(roots) == map[]
    {
      roots := Small([]);
      new;
      AbsSmall([]);
      assert Trees([]) == [] && ForestOf([]) == map[];
    }

    method Insert(key: Path, payload: Payload)
      requires Valid() && key != [] && |key| == |payload|
      modifies this
      ensures Valid() && Wf(old(Abs(roots))) && Abs(roots) == Put(old(Abs(roots)), key, payload, 0)
    {
      roots := KidsInsert(roots, key, payload, 0);
    }

    method PrefixLen(query: Path) returns (n: nat)
      requires Valid()
      ensures Wf(Abs(roots)) && n == Len(Abs(roots), query, 0)
    {
      n := KidsPrefixLen(roots, query, 0);
    }
  }
}
