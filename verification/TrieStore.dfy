/** The heap of the production trie, seen as an arena of node ids, and its invariant.

    A node carries an edge label (`value`), the bids held at each label position (`payload`) and
    its children. The ghost maps of `Trie` name what the pointers leave implicit: the root path
    at which a node starts, its parent, the node and offset of every live path, and the registry
    the whole structure stands for. With them the invariant speaks about one node or one edge
    at a time.
  */
module TrieStore {
  import opened Options
  import opened Registry

  type NodeId = nat
  const ROOT: NodeId := 0
  const SMALL_MAX := 32

  datatype Children = Small(v: seq<NodeId>) | Large(m: map<Hash, NodeId>) {
    function Ids(): set<NodeId> {
      match this
      case Small(v) => set x | x in v
      case Large(m) => m.Values
    }

    predicate IsEmpty() {
      match this
      case Small(v) => v == []
      case Large(m) => m == map[]
    }
  }

  datatype Node = Node(children: Children, value: Path, payload: seq<seq<Bid>>) {
    predicate IsEmpty() {
      children.IsEmpty() && value == [] && payload == []
    }
  }

  type Arena = map<NodeId, Node>
  type Owners = seq<Option<NodeId>>

  datatype Trie = Trie(
    arena: Arena,
    owner: Owners,
    start: map<NodeId, Path>,
    parent: map<NodeId, NodeId>,
    at: map<Path, (NodeId, nat)>,
    reg: Reg)

  // ---------- Invariant ----------
  //
  // Each quantifier below fires only on its own predicate, so a proof names the facts it uses.

  /** Root path of position i of a node that starts at s and has label v. */
  function Upto(s: Path, v: Path, i: nat): Path
    requires i < |v|
  {
    s + v[..i + 1]
  }

  ghost predicate Domains(t: Trie) {
    && ROOT in t.arena
    && t.start.Keys == t.arena.Keys
    && t.parent.Keys == t.arena.Keys
  }

  /** Root path spelled by the whole label of a node. */
  ghost function Full(t: Trie, n: NodeId): Path
    requires Domains(t) && n in t.arena
  {
    t.start[n] + t.arena[n].value
  }

  ghost predicate Distinct<T>(s: seq<T>) {
    forall i, j | 0 <= i < j < |s| :: s[i] != s[j]
  }

  /** A child container is well formed: a short list without repetitions, or a map that reaches each
      child under one key, which for a live child is the first element of its label. */
  ghost predicate KidsOk(arena: Arena, ch: Children) {
    match ch
    case Small(v) => |v| <= SMALL_MAX && Distinct(v)
    case Large(m) =>
      && (forall k, l | k in m && l in m && m[k] == m[l] :: k == l)
      && (forall k | k in m && m[k] in arena && arena[m[k]].value != [] :: arena[m[k]].value[0] == k)
  }

  ghost predicate NodeOk(t: Trie, n: NodeId)
    requires Domains(t) && n in t.arena
  {
    && (n == ROOT ==> t.arena[n].value == [] && t.start[n] == [])
    && |t.arena[n].payload| == |t.arena[n].value|
    && (n != ROOT && t.arena[n].value == [] ==> t.arena[n].children.IsEmpty())
    && KidsOk(t.arena, t.arena[n].children)
  }

  /** The edge from n to its child c. */
  ghost predicate DownOk(t: Trie, n: NodeId, c: NodeId)
    requires Domains(t) && n in t.arena
  {
    && c in t.arena && c != ROOT
    && t.parent[c] == n && t.start[c] == Full(t, n)
  }

  /** The edge from c to its parent. */
  ghost predicate UpOk(t: Trie, c: NodeId)
    requires Domains(t) && c in t.arena
  {
    t.parent[c] in t.arena && c in t.arena[t.parent[c]].children.Ids()
  }

  /** `at` locates position i of node n. */
  ghost predicate PosOk(t: Trie, n: NodeId, i: nat)
    requires Domains(t) && n in t.arena && i < |t.arena[n].value|
  {
    var p := Upto(t.start[n], t.arena[n].value, i);
    p in t.at && t.at[p] == (n, i)
  }

  /** What `at` locates is there. */
  ghost predicate PathOk(t: Trie, p: Path)
    requires Domains(t) && p in t.at
  {
    var (n, i) := t.at[p];
    n in t.arena && i < |t.arena[n].value| && Upto(t.start[n], t.arena[n].value, i) == p
  }

  /** A live position holds at least one bid, each once, and each registered right here. */
  ghost predicate SlotOk(t: Trie, n: NodeId, i: nat)
    requires Domains(t) && n in t.arena && i < |t.arena[n].payload|
  {
    && i < |t.arena[n].value|
    && t.arena[n].payload[i] != [] && Distinct(t.arena[n].payload[i])
    && (forall b | b in t.arena[n].payload[i] ::
          b in t.reg && b < |t.owner| && t.owner[b] == Some(n) && t.reg[b] == Upto(t.start[n], t.arena[n].value, i))
  }

  /** A registered bid is found where the owner table and the registry say. */
  ghost predicate BidOk(t: Trie, b: Bid)
    requires b in t.reg
  {
    && b < |t.owner| && t.reg[b] in t.at
    && t.owner[b] == Some(t.at[t.reg[b]].0)
    && b in Holders(t, t.reg[b])
  }

  /** The bids held at a live path. */
  ghost function Holders(t: Trie, p: Path): seq<Bid> {
    if p in t.at && t.at[p].0 in t.arena && t.at[p].1 < |t.arena[t.at[p].0].payload|
    then t.arena[t.at[p].0].payload[t.at[p].1] else []
  }

  /** Nodes and edges form a tree of well-formed nodes. */
  ghost predicate Edges(t: Trie)
    requires Domains(t)
  {
    && (forall n {:trigger NodeOk(t, n)} | n in t.arena :: NodeOk(t, n))
    && (forall n, c {:trigger DownOk(t, n, c)} | n in t.arena && c in t.arena[n].children.Ids() :: DownOk(t, n, c))
    && (forall c {:trigger UpOk(t, c)} | c in t.arena && c != ROOT :: UpOk(t, c))
  }

  /** `at` locates every live position and nothing else, so no path occurs twice. */
  ghost predicate Places(t: Trie)
    requires Domains(t)
  {
    && (forall n, i: nat {:trigger PosOk(t, n, i)} | n in t.arena && i < |t.arena[n].value| :: PosOk(t, n, i))
    && (forall p {:trigger PathOk(t, p)} | p in t.at :: PathOk(t, p))
  }

  /** Payloads, owner table and registry agree. */
  ghost predicate Bids(t: Trie)
    requires Domains(t)
  {
    && (forall n, i: nat {:trigger SlotOk(t, n, i)} | n in t.arena && i < |t.arena[n].payload| :: SlotOk(t, n, i))
    && (forall b {:trigger BidOk(t, b)} | b in t.reg :: BidOk(t, b))
    && (forall b {:trigger t.owner[b]} | 0 <= b < |t.owner| && t.owner[b].Some? :: b in t.reg)
  }

  ghost predicate Inv(t: Trie) {
    Domains(t) && Edges(t) && Places(t) && Bids(t)
  }

  // ---------- What the invariant implies ----------

  /** A node that can be walked through: the root, or a node with a label. */
  ghost predicate Live(t: Trie, n: NodeId) {
    n in t.arena && (n == ROOT || t.arena[n].value != [])
  }

  /** A labelled node ends at a live path; the root is the only walked node that ends at []. */
  lemma FullIsLocated(t: Trie, n: NodeId)
    requires Inv(t) && n in t.arena && t.arena[n].value != []
    ensures Full(t, n) != [] && n != ROOT
    ensures Full(t, n) in t.at && t.at[Full(t, n)] == (n, |t.arena[n].value| - 1)
  {
    var v := t.arena[n].value;
    assert PosOk(t, n, |v| - 1);
    assert NodeOk(t, n);
    assert v[..|v|] == v;
  }

  lemma RootIsEmpty(t: Trie)
    requires Inv(t)
    ensures t.arena[ROOT].value == [] && Full(t, ROOT) == []
  {
    assert NodeOk(t, ROOT);
  }

  /** Two walked nodes that end at the same path are the same node. */
  lemma FullIsInjective(t: Trie, n: NodeId, m: NodeId)
    requires Inv(t) && Live(t, n) && Live(t, m) && Full(t, n) == Full(t, m)
    ensures n == m
  {
    RootIsEmpty(t);
    if n != ROOT { FullIsLocated(t, n); }
    if m != ROOT { FullIsLocated(t, m); }
  }

  lemma ParentIsLive(t: Trie, c: NodeId)
    requires Inv(t) && c in t.arena && c != ROOT
    ensures Live(t, t.parent[c]) && c in t.arena[t.parent[c]].children.Ids()
    ensures t.start[c] == Full(t, t.parent[c])
  {
    var p := t.parent[c];
    assert UpOk(t, c);
    assert DownOk(t, p, c);
    assert NodeOk(t, p);
  }

  lemma {:induction false} PrefixIsLocated(t: Trie, p: Path, k: nat)
    requires Inv(t) && p in t.at && 0 < k <= |p|
    ensures p[..k] in t.at
    decreases |p|
  {
    assert PathOk(t, p);
    var (n, i) := t.at[p];
    var s, v := t.start[n], t.arena[n].value;
    assert p == s + v[..i + 1];
    if k > |s| {
      assert PosOk(t, n, k - |s| - 1);
      assert p[..k] == Upto(s, v, k - |s| - 1);
    } else {
      assert NodeOk(t, n);
      ParentIsLive(t, n);
      RootIsEmpty(t);
      FullIsLocated(t, t.parent[n]);
      PrefixIsLocated(t, s, k);
      assert p[..k] == s[..k];
    }
  }

  /** The live paths are exactly the registered ones, and they are prefix-closed. */
  lemma PathsAreRegistered(t: Trie)
    requires Inv(t)
    ensures t.at.Keys == t.reg.Values
    ensures WellFormed(t.reg)
  {
    forall p | p in t.at
      ensures p in t.reg.Values && p != []
    {
      assert PathOk(t, p);
      var (n, i) := t.at[p];
      assert NodeOk(t, n);
      assert SlotOk(t, n, i);
      var b := t.arena[n].payload[i][0];
      assert b in t.arena[n].payload[i];
      assert t.reg[b] == p;
    }
    forall b | b in t.reg
      ensures t.reg[b] in t.at
    {
      assert BidOk(t, b);
    }
    forall p, k | p in t.reg.Values && 0 < k <= |p|
      ensures p[..k] in t.reg.Values
    {
      PrefixIsLocated(t, p, k);
    }
  }

  /** A live path that continues below a walked node continues in the one child whose label starts
      with the next element. */
  lemma Descend(t: Trie, n: NodeId, q: Path)
    requires Inv(t) && Live(t, n)
    requires |q| > 0 && Full(t, n) == q[..|q| - 1] && q in t.at
    ensures t.at[q].1 == 0 && t.at[q].0 in t.arena[n].children.Ids()
    ensures t.at[q].0 in t.arena && t.arena[t.at[q].0].value != []
    ensures t.arena[t.at[q].0].value[0] == q[|q| - 1]
  {
    assert PathOk(t, q);
    var (m, j) := t.at[q];
    var s, v := t.start[m], t.arena[m].value;
    assert q == s + v[..j + 1];
    RootIsEmpty(t);
    if n != ROOT { FullIsLocated(t, n); }
    assert j > 0 ==> q[..|q| - 1] == s + v[..j] && PosOk(t, m, j - 1);
    assert s == q[..|q| - 1];
    ParentIsLive(t, m);
    FullIsInjective(t, n, t.parent[m]);
  }

  /** A child whose label starts with h puts the path Full(n) + [h] into the tree. */
  lemma ChildLocated(t: Trie, n: NodeId, c: NodeId)
    requires Inv(t) && n in t.arena && c in t.arena[n].children.Ids() && c in t.arena && t.arena[c].value != []
    ensures Full(t, n) + [t.arena[c].value[0]] in t.at
    ensures t.at[Full(t, n) + [t.arena[c].value[0]]] == (c, 0)
  {
    assert DownOk(t, n, c);
    assert PosOk(t, c, 0);
    assert t.arena[c].value[..1] == [t.arena[c].value[0]];
  }

  /** Live siblings have distinct first elements. */
  lemma SiblingsDiffer(t: Trie, n: NodeId, c: NodeId, d: NodeId)
    requires Inv(t) && n in t.arena && c in t.arena[n].children.Ids() && d in t.arena[n].children.Ids()
    requires c in t.arena && d in t.arena
    requires t.arena[c].value != [] && t.arena[d].value != [] && c != d
    ensures t.arena[c].value[0] != t.arena[d].value[0]
  {
    ChildLocated(t, n, c);
    ChildLocated(t, n, d);
  }

  /** A walk from the root, one child at a time. */
  ghost predicate Chain(t: Trie, walk: seq<NodeId>) {
    && walk != [] && walk[0] == ROOT
    && (forall i | 0 <= i < |walk| :: walk[i] in t.arena)
    && (forall i | 0 < i < |walk| :: walk[i] in t.arena[walk[i - 1]].children.Ids())
  }

  /** Every allocated node is reached from the root, so none is leaked and the node count is the
      number of reachable nodes. */
  lemma {:induction false} Reachable(t: Trie, n: NodeId) returns (walk: seq<NodeId>)
    requires Inv(t) && n in t.arena
    ensures Chain(t, walk) && walk[|walk| - 1] == n
    decreases |t.start[n]|, n != ROOT
  {
    if n == ROOT {
      walk := [ROOT];
    } else {
      ParentIsLive(t, n);
      RootIsEmpty(t);
      var before := Reachable(t, t.parent[n]);
      walk := before + [n];
    }
  }

  /** A bid is held at one position only. */
  lemma BidOccursOnce(t: Trie, b: Bid, n: NodeId, i: nat, m: NodeId, j: nat)
    requires Inv(t) && n in t.arena && i < |t.arena[n].payload| && m in t.arena && j < |t.arena[m].payload|
    requires b in t.arena[n].payload[i] && b in t.arena[m].payload[j]
    ensures n == m && i == j
  {
    assert SlotOk(t, n, i) && SlotOk(t, m, j);
    assert PosOk(t, n, i) && PosOk(t, m, j);
  }

  /** So an arena in which a node repeats a bid at another of its positions stands for no registry. The
      extension of a leaf lets such a bid pass: it asks only that the bid points nowhere or at the leaf. */
  lemma RepeatFitsNoTrie(t: Trie, b: Bid, n: NodeId, i: nat, j: nat)
    requires Domains(t) && n in t.arena && i < j < |t.arena[n].payload|
    requires b in t.arena[n].payload[i] && b in t.arena[n].payload[j]
    ensures !Inv(t)
  {
    if Inv(t) {
      BidOccursOnce(t, b, n, i, n, j);
      assert false;
    }
  }

  /** Once every bid is gone the tree is the root and one layer of empty placeholders. */
  lemma Drained(t: Trie)
    requires Inv(t) && t.reg == map[]
    ensures forall n | n in t.arena && n != ROOT :: t.arena[n].IsEmpty() && t.parent[n] == ROOT
  {
    PathsAreRegistered(t);
    forall n | n in t.arena
      ensures t.arena[n].value == []
    {
      if t.arena[n].value != [] {
        FullIsLocated(t, n);
        assert false;
      }
    }
    forall n | n in t.arena && n != ROOT
      ensures t.arena[n].IsEmpty() && t.parent[n] == ROOT
    {
      assert NodeOk(t, n);
      ParentIsLive(t, n);
    }
  }

  ghost function EmptyTrie(numBlocks: nat): Trie {
    Trie(map[ROOT := Node(Small([]), [], [])], seq(numBlocks, _ => None), map[ROOT := []], map[ROOT := ROOT], map[],
         map[])
  }

  lemma EmptyTrieInv(numBlocks: nat)
    ensures Inv(EmptyTrie(numBlocks))
  {
  }
}
