/** The production prefix matcher: a mutable Patricia trie over block hashes with several bids per
    position, a reverse index from bids to nodes, lazily collected placeholders and child lists that
    turn into maps past 32 entries.

    Heap nodes live in `arena` under fresh ids; freeing a node removes its id. The ghost field `t`
    carries the same arena together with the paths the pointers leave implicit, and `t.reg` is what
    the tree stands for: which bid caches which root path.
  */
module RadixTree {
  import opened Options
  import opened Registry
  import opened TrieStore
  import opened TrieSteps
  import opened TrieRegions

  datatype CommonPrefix = NoMatch | PartialMatch(node: NodeId, common: nat) | FullMatch(node: NodeId)

  /** How far a walk along `done + rest` got: `done` is behind it, `rest` ahead. */
  ghost predicate Reached(t: Trie, r: CommonPrefix, done: Path, rest: Path)
    requires Domains(t)
  {
    match r
    case NoMatch => false
    case FullMatch(n) =>
      Live(t, n) && Full(t, n) == done && (rest != [] ==> Ready(t, n, rest[0]))
    case PartialMatch(n, k) =>
      n in t.arena && n != ROOT && t.start[n] == done && Diverges(t.arena[n].value, rest, k)
  }

  /** Label and key agree on k elements and then part, or the key ends. */
  ghost predicate Diverges(v: Path, key: Path, k: nat) {
    0 < k < |v| && k <= |key| && v[..k] == key[..k] && (k < |key| ==> v[k] != key[k])
  }

  /** Child c is labelled, with a first element other than h. */
  ghost predicate Mismatch(arena: Arena, c: NodeId, h: Hash) {
    c in arena && arena[c].value != [] && arena[c].value[0] != h
  }

  lemma KidOf(t: Trie, n: NodeId, c: NodeId)
    requires Inv(t) && n in t.arena && c in t.arena[n].children.Ids()
    ensures c in t.arena && c != ROOT && t.start[c] == Full(t, n) && t.parent[c] == n
    ensures t.arena[c].IsEmpty() <==> t.arena[c].value == []
    ensures |t.arena[c].payload| == |t.arena[c].value|
  {
    assert DownOk(t, n, c) && NodeOk(t, c);
  }

  /** A placeholder in a child list can be collected: dropping its entry drops exactly that child. */
  lemma CanCollectSmall(t: Trie, n: NodeId, i: nat)
    requires Inv(t) && n in t.arena && t.arena[n].children.Small? && i < |t.arena[n].children.v|
    requires t.arena[n].children.v[i] in t.arena && t.arena[t.arena[n].children.v[i]].value == []
    ensures var v := t.arena[n].children.v; CanCollect(t, n, v[i], Small(v[..i] + v[i + 1..]))
  {
    hide Edges, Places, Bids;
    KidsWellFormed(t, n);
    WithoutOne(t.arena[n].children.v, i);
  }

  lemma KidsWellFormed(t: Trie, n: NodeId)
    requires Inv(t) && n in t.arena
    ensures KidsOk(t.arena, t.arena[n].children)
  {
    assert NodeOk(t, n);
  }

  lemma {:induction false} DistinctCount(bids: seq<Bid>)
    requires Distinct(bids)
    ensures |BidSet(bids)| == |bids|
  {
    if bids != [] {
      var last := |bids| - 1;
      DistinctCount(bids[..last]);
      assert bids == bids[..last] + [bids[last]];
      assert BidSet(bids) == BidSet(bids[..last]) + {bids[last]};
    }
  }

  /** A list without repetitions, less one of its elements. */
  lemma WithoutOne<T>(v: seq<T>, i: nat)
    requires i < |v| && Distinct(v)
    ensures var w := v[..i] + v[i + 1..];
            Distinct(w) && forall x {:trigger x in w} {:trigger x in v} :: x in w <==> x in v && x != v[i]
  {
    var w := v[..i] + v[i + 1..];
    forall x | x in v && x != v[i]
      ensures x in w
    {
      var j :| 0 <= j < |v| && v[j] == x;
      assert x == if j < i then w[j] else w[j - 1];
    }
  }

  /** A placeholder in a child map can be collected under the one key that reaches it. */
  lemma CanCollectLarge(t: Trie, n: NodeId, h: Hash)
    requires Inv(t) && n in t.arena && t.arena[n].children.Large? && h in t.arena[n].children.m
    requires t.arena[n].children.m[h] in t.arena && t.arena[t.arena[n].children.m[h]].value == []
    ensures var m := t.arena[n].children.m; CanCollect(t, n, m[h], Large(m - {h}))
  {
    var m := t.arena[n].children.m;
    assert NodeOk(t, n);
    forall x | x in m.Values && x != m[h]
      ensures x in (m - {h}).Values
    {
      var k :| k in m && m[k] == x;
      assert (m - {h})[k] == x;
    }
  }

  lemma ConcatSlices(base: Path, v: Path, key: Path, k: nat)
    requires v <= key && |v| + k <= |key|
    ensures base + v + key[|v|..][..k] == base + key[..|v| + k]
    ensures key[|v|..][k..] == key[|v| + k..]
  {
    assert v + key[|v|..][..k] == key[..|v| + k];
    assert (base + v) + key[|v|..][..k] == base + (v + key[|v|..][..k]);
  }

  /** What a scan of n's children for a key reports. */
  ghost predicate Scanned(t: Trie, n: NodeId, key: Path, r: CommonPrefix)
    requires n in t.arena && key != []
  {
    match r
    case NoMatch => Ready(t, n, key[0])
    case FullMatch(c) => c in t.arena && c in t.arena[n].children.Ids() && t.arena[c].value != []
      && t.arena[c].value <= key
    case PartialMatch(c, k) => c in t.arena && c in t.arena[n].children.Ids() && Diverges(t.arena[c].value, key, k)
  }

  /** A node that is left keeps its place, its label and, unless it is n, its children. */
  ghost predicate KeptNode(t: Trie, t': Trie, n: NodeId, m: NodeId) {
    && m in t.arena && m in t'.arena && m in t.start && m in t'.start
    && t'.arena[m].value == t.arena[m].value && t'.start[m] == t.start[m]
    && (m != n ==> t'.arena[m].children == t.arena[m].children)
  }

  /** Collecting placeholders below n changes no path and no registration. */
  ghost predicate SameIndex(t: Trie, t': Trie, n: NodeId) {
    && t'.at == t.at && t'.reg == t.reg && t'.owner == t.owner && n in t'.arena
    && (forall m {:trigger KeptNode(t, t', n, m)} | m in t'.arena :: KeptNode(t, t', n, m))
  }

  lemma SameIndexRefl(t: Trie, n: NodeId)
    requires Domains(t) && n in t.arena
    ensures SameIndex(t, t, n)
  {
    forall m | m in t.arena
      ensures KeptNode(t, t, n, m)
    {
    }
  }

  lemma SameIndexTrans(t: Trie, t1: Trie, t2: Trie, n: NodeId)
    requires SameIndex(t, t1, n) && SameIndex(t1, t2, n)
    ensures SameIndex(t, t2, n)
  {
    forall m | m in t2.arena
      ensures KeptNode(t, t2, n, m)
    {
      assert KeptNode(t1, t2, n, m) && KeptNode(t, t1, n, m);
    }
  }

  /** Once a search for h below n is over, n has no child left. */
  ghost predicate Closes(t: Trie, n: NodeId, h: Hash)
    requires n in t.arena
  {
    match t.arena[n].children
    case Small(v) => forall c | c in v :: c in t.arena && t.arena[c].value == []
    case Large(m) => m.Keys <= {h} && (h in m ==> m[h] in t.arena && t.arena[m[h]].value == [])
  }

  /** Collecting placeholders below n says nothing else about another node. */
  lemma ClosesKept(t: Trie, t': Trie, n: NodeId, m: NodeId, h: Hash)
    requires Inv(t) && Inv(t') && SameIndex(t, t', n) && m in t'.arena && m != n
    ensures m in t.arena && (Closes(t', m, h) <==> Closes(t, m, h))
  {
    assert KeptNode(t, t', n, m);
    match t.arena[m].children
    case Small(v) =>
      forall c | c in v
        ensures KeptNode(t, t', n, c)
      {
        assert c in t'.arena[m].children.Ids() && DownOk(t', m, c);
      }
    case Large(l) =>
      if h in l {
        assert l[h] in t'.arena[m].children.Ids() && DownOk(t', m, l[h]) && KeptNode(t, t', n, l[h]);
      }
  }

  lemma ClosesReady(t: Trie, n: NodeId, h: Hash)
    requires n in t.arena && Ready(t, n, h)
    ensures Closes(t, n, h) <==> t.arena[n].children.IsEmpty()
  {
    match t.arena[n].children
    case Small(v) => assert v != [] ==> v[0] in v;
    case Large(m) => assert m.Keys == {} <==> m == map[];
  }

  /** The insertion ends at a leaf, and each bid for the rest of the key is unknown or held by that leaf by
      the time the leaf is extended. The assertions of the code then hold even where `InsertOk` does not. */
  ghost predicate LeafTakes(t: Trie, key: Path, bids: seq<Bid>) {
    var full := Match(t.reg.Values, key);
    && |key| == |bids| && 0 < full < |key| && key[..full] in t.at
    && var (n, i) := t.at[key[..full]];
    && n in t.arena && i + 1 == |t.arena[n].value| && Closes(t, n, key[full])
    && (forall b | b in bids[full..] :: HeldAtOrUnknown(t, Register(t.reg, key, bids, full), b, n))
  }

  ghost predicate HeldAtOrUnknown(t: Trie, m: Reg, b: Bid, n: NodeId) {
    b in m ==> m[b] in t.at && t.at[m[b]].0 == n
  }

  /** Node g, where the match of the key ends, looks the same to an insertion. */
  ghost predicate SameEnd(t: Trie, t': Trie, key: Path) {
    var full := Match(t.reg.Values, key);
    0 < full < |key| && key[..full] in t.at ==>
      var (g, i) := t.at[key[..full]];
      && g in t.arena && g in t'.arena && t'.arena[g].value == t.arena[g].value
      && (i + 1 == |t.arena[g].value| ==> (Closes(t', g, key[full]) <==> Closes(t, g, key[full])))
  }

  lemma LeafTakesKept(t: Trie, t': Trie, key: Path, bids: seq<Bid>)
    requires t'.at == t.at && t'.reg == t.reg && SameEnd(t, t', key)
    ensures LeafTakes(t', key, bids) <==> LeafTakes(t, key, bids)
  {
    forall m, b, n
      ensures HeldAtOrUnknown(t', m, b, n) <==> HeldAtOrUnknown(t, m, b, n)
    {
    }
  }

  /** The bids can be pointed to n one after the other: each points nowhere by then or, where `own` is set,
      perhaps to n. */
  ghost predicate Adoptable(owner: Owners, bids: seq<Bid>, n: NodeId, own: bool) {
    && (forall b | b in bids :: b < |owner| && (owner[b] == None || (own && owner[b] == Some(n))))
    && (own || Distinct(bids))
  }

  ghost predicate Older(n: NodeId, next: NodeId) {
    n < next
  }

  /** Every id below which the next id is handed out is free. */
  ghost predicate AllOlder(arena: Arena, next: NodeId) {
    forall n {:trigger Older(n, next)} | n in arena :: Older(n, next)
  }

  lemma NextIsFree(arena: Arena, next: NodeId)
    requires AllOlder(arena, next)
    ensures next !in arena
  {
    assert next in arena ==> Older(next, next);
  }

  lemma ArenaGrown(arena: Arena, next: NodeId, arena': Arena)
    requires AllOlder(arena, next) && arena'.Keys == arena.Keys + {next}
    ensures AllOlder(arena', next + 1) && |arena'| == |arena| + 1
  {
    NextIsFree(arena, next);
    assert |arena'| == |arena'.Keys| && |arena| == |arena.Keys|;
    forall n | n in arena'
      ensures Older(n, next + 1)
    {
      assert n in arena ==> Older(n, next);
    }
  }

  lemma ArenaShrunk(arena: Arena, next: NodeId, arena': Arena)
    requires AllOlder(arena, next) && arena'.Keys <= arena.Keys
    ensures AllOlder(arena', next)
    ensures |arena'| == |arena| - |arena.Keys - arena'.Keys|
  {
    assert |arena'| == |arena'.Keys| && |arena| == |arena.Keys|;
    assert |arena.Keys - arena'.Keys| == |arena.Keys| - |arena'.Keys|;
    forall n | n in arena'
      ensures Older(n, next)
    {
      assert n in arena;
    }
  }

  ghost predicate SameNode(t: Trie, t': Trie, n: NodeId)
    requires n in t.arena
  {
    n in t'.arena && t'.arena[n].value == t.arena[n].value && t'.arena[n].children == t.arena[n].children
  }

  /** t' differs from t in payloads and registrations only. */
  ghost predicate SameShape(t: Trie, t': Trie) {
    && t'.start == t.start && t'.at == t.at && |t'.owner| == |t.owner|
    && (forall n {:trigger SameNode(t, t', n)} | n in t.arena :: SameNode(t, t', n))
  }

  lemma SameOutline(t: Trie, t': Trie)
    requires SameShape(t, t')
    ensures t'.start == t.start && t'.at == t.at && |t'.owner| == |t.owner|
  {
  }

  lemma SameShapeTrans(t: Trie, t1: Trie, t2: Trie)
    requires SameShape(t, t1) && SameShape(t1, t2)
    ensures SameShape(t, t2)
  {
    forall n | n in t.arena
      ensures SameNode(t, t2, n)
    {
      assert SameNode(t, t1, n) && SameNode(t1, t2, n);
    }
  }

  /** The children of a walked node are as ready for a new child as before. */
  lemma SameReady(t: Trie, t': Trie, n: NodeId, h: Hash)
    requires SameShape(t, t') && n in t.arena && Ready(t, n, h)
    ensures n in t'.arena && Ready(t', n, h)
  {
    assert SameNode(t, t', n);
    if t.arena[n].children.Small? {
      forall c | c in t.arena[n].children.v
        ensures c in t'.arena && t'.arena[c].value == t.arena[c].value
      {
        assert SameNode(t, t', c);
      }
    }
  }

  /** Every bid of the payload is in range, and no bid occurs twice. */
  ghost predicate Once(payload: seq<seq<Bid>>, n: nat) {
    && (forall i, b {:trigger b in payload[i]} | 0 <= i < |payload| && b in payload[i] :: b < n)
    && (forall i | 0 <= i < |payload| :: Distinct(payload[i]))
    && (forall i, j, b | 0 <= i < |payload| && 0 <= j < |payload| && b in payload[i] && b in payload[j] :: i == j)
  }

  /** The nodes `ns` are still as the snapshot t has them. */
  ghost predicate Untouched(t: Trie, arena: Arena, ns: set<NodeId>) {
    forall m {:trigger m in ns} | m in ns :: m in arena && m in t.arena && arena[m] == t.arena[m]
  }

  /** From arena0 and owner0, the nodes `ns` have been freed and their n bids have lost their node. */
  ghost predicate Cleared(t: Trie, arena0: Arena, owner0: Owners, ns: set<NodeId>, arena: Arena, owner: Owners,
                          n: nat) {
    arena == arena0 - ns && owner == Without(owner0, BidsOf(t, ns)) && n == |BidsOf(t, ns)|
  }

  lemma ClearedNothing(t: Trie, arena: Arena, owner: Owners)
    ensures Cleared(t, arena, owner, {}, arena, owner, 0)
  {
    assert BidsOf(t, {}) == {};
    assert arena - {} == arena;
    assert Without(owner, {}) == owner;
  }

  lemma ClearedMore(t: Trie, arena0: Arena, owner0: Owners, A: set<NodeId>, arena1: Arena, owner1: Owners, n: nat,
                    B: set<NodeId>, arena2: Arena, owner2: Owners, k: nat)
    requires Cleared(t, arena0, owner0, A, arena1, owner1, n) && Cleared(t, arena1, owner1, B, arena2, owner2, k)
             && A !! B
    ensures Cleared(t, arena0, owner0, A + B, arena2, owner2, n + k)
  {
    assert BidsOf(t, A) !! BidsOf(t, B);
    assert BidsOf(t, A + B) == BidsOf(t, A) + BidsOf(t, B);
    assert Without(Without(owner0, BidsOf(t, A)), BidsOf(t, B)) == Without(owner0, BidsOf(t, A + B));
    assert arena0 - A - B == arena0 - (A + B);
  }

  lemma UntouchedAfter(t: Trie, arena0: Arena, owner0: Owners, A: set<NodeId>, arena: Arena, owner: Owners, n: nat,
                       all: set<NodeId>, B: set<NodeId>)
    requires Untouched(t, arena0, all) && Cleared(t, arena0, owner0, A, arena, owner, n) && A !! B && B <= all
    ensures Untouched(t, arena, B)
  {
    forall m | m in B
      ensures m in arena && m in t.arena && arena[m] == t.arena[m]
    {
      assert m in all;
    }
  }

  /** The heap after a cut of node at pos. */
  ghost predicate CutDone(t: Trie, node: NodeId, pos: nat, ch: Children, arena: Arena, owner: Owners, removed: nat)
    requires Domains(t) && node in t.arena && pos <= |t.arena[node].value| && pos <= |t.arena[node].payload|
  {
    var gone := Subtrees(t, t.arena[node].children.Ids());
    && ch.IsEmpty()
    && arena == (t.arena - gone)[node := Node(ch, t.arena[node].value[..pos], t.arena[node].payload[..pos])]
    && owner == Without(Without(t.owner, BidsIn(t.arena[node].payload[pos..])), BidsOf(t, gone))
    && removed == |BidsIn(t.arena[node].payload[pos..])| + |BidsOf(t, gone)|
  }

  /** Every bid of the payload is owned by `who`, and no bid occurs twice. */
  ghost predicate HeldBy(payload: seq<seq<Bid>>, owner: Owners, who: Option<NodeId>) {
    && (forall i, b {:trigger b in payload[i]} | 0 <= i < |payload| && b in payload[i] ::
          b < |owner| && owner[b] == who)
    && (forall i | 0 <= i < |payload| :: Distinct(payload[i]))
    && (forall i, j, b | 0 <= i < |payload| && 0 <= j < |payload| && b in payload[i] && b in payload[j] :: i == j)
  }

  ghost function BidsIn(payload: seq<seq<Bid>>): set<Bid> {
    set i, b | 0 <= i < |payload| && b in payload[i] :: b
  }

  ghost function Without(owner: Owners, bids: set<Bid>): (r: Owners)
    ensures |r| == |owner| && forall b | 0 <= b < |owner| :: r[b] == if b in bids then None else owner[b]
  {
    seq(|owner|, b requires 0 <= b < |owner| => if b in bids then None else owner[b])
  }

  class RadixTreeBlockHash {
    var arena: Arena
    var owner: Owners
    var nextId: NodeId
    var nodes: nat
    var size: nat
    var epoch: nat
    ghost var t: Trie

    ghost predicate Valid()
      reads this
    {
      Inv(t) && t.arena == arena && t.owner == owner && nodes == |arena| && AllOlder(arena, nextId)
    }

    /** What the tree stands for. */
    ghost function Contents(): Reg
      reads this
    {
      t.reg
    }

    constructor (numBlocks: nat)
      ensures Valid() && Contents() == map[] && |owner| == numBlocks
      ensures nodes == 1 && size == 0 && epoch == 0
    {
      arena := map[ROOT := Node(Small([]), [], [])];
      owner := seq(numBlocks, _ => None);
      nextId := ROOT + 1;
      nodes, size, epoch := 1, 0, 0;
      t := EmptyTrie(numBlocks);
      new;
      EmptyTrieInv(numBlocks);
      assert t.owner == owner;
    }

    // ---------- The drained form ----------

    /** The structural check holds when, and only when, every bid is gone: the root is bare and its
        children are empty placeholders with nothing below them. */
    method DrainedToOneLayer() returns (drained: bool)
      requires Valid()
      ensures drained <==> Contents() == map[]
    {
      var root := arena[ROOT];
      drained := root.value == [] && root.payload == [];
      var kids := root.children.Ids();
      var todo := kids;
      RootDrained(t);
      while todo != {}
        invariant todo <= kids
        invariant drained <==> forall c | c in kids - todo :: arena[c].IsEmpty()
        decreases todo
      {
        var c :| c in todo;
        assert DownOk(t, ROOT, c);
        drained := drained && arena[c].IsEmpty();
        todo := todo - {c};
      }
    }

    /** A registration leaves a mark on one of the root's children. */
    static lemma RootDrained(t: Trie)
      requires Inv(t)
      ensures t.arena[ROOT].value == [] && t.arena[ROOT].payload == []
      ensures forall c | c in t.arena[ROOT].children.Ids() :: c in t.arena
      ensures (forall c | c in t.arena[ROOT].children.Ids() :: t.arena[c].IsEmpty()) <==> t.reg == map[]
    {
      RootIsEmpty(t);
      assert NodeOk(t, ROOT);
      forall c | c in t.arena[ROOT].children.Ids()
        ensures c in t.arena && c != ROOT
      {
        assert DownOk(t, ROOT, c);
      }
      if t.reg == map[] {
        Drained(t);
      } else {
        var b :| b in t.reg;
        assert BidOk(t, b);
        var p := t.reg[b];
        PathsAreRegistered(t);
        assert p in t.reg.Values;
        PrefixIsLocated(t, p, 1);
        Descend(t, ROOT, p[..1]);
      }
    }

    // ---------- Matching one node, scanning children ----------

    method CommonPrefixOf(node: NodeId, key: Path) returns (r: CommonPrefix)
      requires node in arena
      ensures match r
              case NoMatch => arena[node].value == [] || key == [] || arena[node].value[0] != key[0]
              case FullMatch(n) => n == node && arena[node].value != [] && arena[node].value <= key
              case PartialMatch(n, k) => n == node && Diverges(arena[node].value, key, k)
    {
      var v := arena[node].value;
      var i := 0;
      while i < |v| && i < |key| && v[i] == key[i]
        invariant i <= |v| && i <= |key| && v[..i] == key[..i]
      {
        i := i + 1;
      }
      if i == 0 {
        return NoMatch;
      } else if i == |v| {
        assert v[..i] == v;
        return FullMatch(node);
      } else {
        return PartialMatch(node, i);
      }
    }

    /** Frees the placeholder c, whose parent keeps the children `ch`. */
    method CollectChild(p: NodeId, c: NodeId, ch: Children)
      requires Valid() && CanCollect(t, p, c, ch)
      modifies this`arena, this`nodes, this`t
      ensures Valid() && SameIndex(old(t), t, p)
      ensures arena.Keys == old(arena).Keys - {c} && arena[p].children == ch
      ensures forall m | m in arena :: arena[m].value == old(arena)[m].value
      ensures nodes < old(nodes)
    {
      hide Collect, CanCollect, Edges, Places, Bids, NodeOk, DownOk, SameIndex;
      CollectInv(t, p, c, ch);
      CollectDomains(t, p, c, ch);
      CollectKeeps(t, p, c, ch);
      arena := (arena - {c})[p := arena[p].(children := ch)];
      nodes := nodes - 1;
      t := Collect(t, p, c, ch);
      assert old(arena).Keys - arena.Keys == {c};
      ArenaShrunk(old(arena), nextId, arena);
    }

    static lemma CollectKeeps(t: Trie, p: NodeId, c: NodeId, ch: Children)
      requires CanCollect(t, p, c, ch) && p != c && Domains(Collect(t, p, c, ch))
      ensures p in t.arena && c in t.arena
      ensures SameIndex(t, Collect(t, p, c, ch), p)
      ensures var a := Collect(t, p, c, ch).arena;
              && a == (t.arena - {c})[p := t.arena[p].(children := ch)] && a[p].children == ch
              && forall m | m in a :: m in t.arena && a[m].value == t.arena[m].value
      ensures Collect(t, p, c, ch).owner == t.owner
    {
      hide Edges, Places, Bids;
      var t' := Collect(t, p, c, ch);
      forall m | m in t'.arena
        ensures KeptNode(t, t', p, m)
      {
      }
    }

    /** Looks for the child of n that shares its first element with the key, collecting the
        placeholders met on the way. */
    method Scan(n: NodeId, key: Path) returns (r: CommonPrefix)
      requires Valid() && Live(t, n) && key != []
      modifies this`arena, this`nodes, this`t
      ensures Valid() && SameIndex(old(t), t, n) && Scanned(t, n, key, r)
      ensures nodes <= old(nodes) && n in old(arena) && (Closes(t, n, key[0]) <==> Closes(old(t), n, key[0]))
    {
      if arena[n].children.Small? {
        r := ScanSmall(n, key);
      } else {
        r := ScanLarge(n, key);
      }
    }

    /** A placeholder fewer makes no difference to what a search below n leaves. */
    static lemma ClosesCollected(t: Trie, t': Trie, n: NodeId, c: NodeId, h: Hash)
      requires Inv(t) && Inv(t') && SameIndex(t, t', n)
      requires CanCollect(t, n, c, t'.arena[n].children)
      requires t.arena[n].children.Small? && t'.arena[n].children.Small?
      ensures Closes(t', n, h) <==> Closes(t, n, h)
    {
      var v, w := t.arena[n].children.v, t'.arena[n].children.v;
      forall d | d in w
        ensures d in v && KeptNode(t, t', n, d)
      {
        assert d in t'.arena[n].children.Ids() && DownOk(t', n, d);
      }
      forall d | d in v && d != c
        ensures d in w
      {
        assert d in t.arena[n].children.Ids() && d in t'.arena[n].children.Ids();
      }
    }

    /** Frees the placeholder at place i of a child list. */
    method CollectAt(n: NodeId, i: nat, ghost h: Hash)
      requires Valid() && n in arena && arena[n].children.Small? && i < |arena[n].children.v|
      requires arena[n].children.v[i] in arena && arena[arena[n].children.v[i]].value == []
      modifies this`arena, this`nodes, this`t
      ensures Valid() && SameIndex(old(t), t, n) && nodes < old(nodes)
      ensures Closes(t, n, h) <==> Closes(old(t), n, h)
      ensures arena[n].children == Small(old(arena)[n].children.v[..i] + old(arena)[n].children.v[i + 1..])
      ensures arena.Keys == old(arena).Keys - {old(arena)[n].children.v[i]}
      ensures forall m | m in arena :: arena[m].value == old(arena)[m].value
    {
      hide Edges, Places, Bids, Closes, KeptNode, SameIndex, CanCollect, AllOlder;
      var v := arena[n].children.v;
      CanCollectSmall(t, n, i);
      CollectChild(n, v[i], Small(v[..i] + v[i + 1..]));
      ClosesCollected(old(t), t, n, v[i], h);
    }

    method ScanSmall(n: NodeId, key: Path) returns (r: CommonPrefix)
      requires Valid() && Live(t, n) && key != [] && arena[n].children.Small?
      modifies this`arena, this`nodes, this`t
      ensures Valid() && SameIndex(old(t), t, n) && Scanned(t, n, key, r)
      ensures nodes <= old(nodes) && n in old(arena) && (Closes(t, n, key[0]) <==> Closes(old(t), n, key[0]))
    {
      hide Edges, Places, Bids, Closes, KeptNode, Diverges, AllOlder;
      SameIndexRefl(t, n);
      var i := 0;
      while i < |arena[n].children.v|
        invariant Valid() && SameIndex(old(t), t, n) && nodes <= old(nodes)
        invariant Closes(t, n, key[0]) <==> Closes(old(t), n, key[0])
        invariant arena[n].children.Small? && i <= |arena[n].children.v|
        invariant forall j | 0 <= j < i :: Mismatch(arena, arena[n].children.v[j], key[0])
        decreases |arena[n].children.v| - i
      {
        var v := arena[n].children.v;
        var child := v[i];
        assert child in arena[n].children.Ids();
        KidOf(t, n, child);
        if arena[child].IsEmpty() {
          ghost var t1 := t;
          CollectAt(n, i, key[0]);
          SameIndexTrans(old(t), t1, t, n);
          continue;
        }
        r := CommonPrefixOf(child, key);
        if r != NoMatch {
          return;
        }
        i := i + 1;
      }
      r := NoMatch;
    }

    method ScanLarge(n: NodeId, key: Path) returns (r: CommonPrefix)
      requires Valid() && Live(t, n) && key != [] && arena[n].children.Large?
      modifies this`arena, this`nodes, this`t
      ensures Valid() && SameIndex(old(t), t, n) && Scanned(t, n, key, r)
      ensures nodes <= old(nodes) && n in old(arena) && (Closes(t, n, key[0]) <==> Closes(old(t), n, key[0]))
    {
      var m := arena[n].children.m;
      assert NodeOk(t, n);
      if key[0] !in m {
        return NoMatch;
      }
      var child := m[key[0]];
      assert child in arena[n].children.Ids() && DownOk(t, n, child) && NodeOk(t, child);
      if arena[child].IsEmpty() {
        CanCollectLarge(t, n, key[0]);
        CollectChild(n, child, Large(m - {key[0]}));
        r := NoMatch;
      } else {
        r := CommonPrefixOf(child, key);
      }
    }

    /** Follows fully matched nodes below `subroot`, which has consumed everything before `key`. */
    method FullCombo(subroot: NodeId, key: Path, ghost base: Path) returns (r: CommonPrefix, rest: Path)
      requires Valid() && Live(t, subroot) && Full(t, subroot) == base
      modifies this`arena, this`nodes, this`t
      ensures Valid() && Walked(old(t), t, base, key, r, rest) && nodes <= old(nodes)
      decreases |key|
    {
      hide Edges, Places, Bids, Closes, SameIndex, Scanned, Walked, Ready, Diverges, AllOlder;
      if key == [] {
        NotMoved(t, subroot);
        return FullMatch(subroot), key;
      }
      var m := Scan(subroot, key);
      ghost var t1 := t;
      Stopped(old(t), t1, subroot, m, key);
      match m
      case NoMatch =>
        r, rest := FullMatch(subroot), key;
      case PartialMatch(child, common) =>
        r, rest := PartialMatch(child, common), key;
      case FullMatch(child) =>
        var v := arena[child].value;
        r, rest := FullCombo(child, key[|v|..], base + v);
        WalkedBelow(old(t), t1, t, subroot, base, v, key, r, rest);
    }

    /** The walk from the node that ends at `base` along the key went on to r and left `rest`; it changed no
        path and no registration. */
    static ghost predicate Walked(t: Trie, t': Trie, base: Path, key: Path, r: CommonPrefix, rest: Path)
      requires Domains(t')
    {
      && t'.at == t.at && t'.reg == t.reg && t'.owner == t.owner
      && |rest| <= |key| && rest == key[|key| - |rest|..]
      && Reached(t', r, base + key[..|key| - |rest|], rest)
      && SameStop(t, t', r, rest)
    }

    /** The node where a walk stopped was there before the walk, and the walk changed no more of it than a
        search for the next element does. */
    static ghost predicate SameStop(t: Trie, t': Trie, r: CommonPrefix, rest: Path) {
      match r
      case NoMatch => false
      case PartialMatch(n, _) => n in t.arena && n in t'.arena && t'.arena[n].value == t.arena[n].value
      case FullMatch(n) =>
        && n in t.arena && n in t'.arena && n in t.start && n in t'.start
        && t'.arena[n].value == t.arena[n].value && t'.start[n] == t.start[n]
        && (rest != [] ==> (Closes(t', n, rest[0]) <==> Closes(t, n, rest[0])))
    }

    /** What a scan below n says about the walk: where it stops, or which child it goes on to. */
    static lemma Stopped(t: Trie, t': Trie, n: NodeId, m: CommonPrefix, key: Path)
      requires Inv(t) && Inv(t') && Live(t, n) && SameIndex(t, t', n) && key != [] && Scanned(t', n, key, m)
      requires Closes(t', n, key[0]) <==> Closes(t, n, key[0])
      ensures Live(t', n) && Full(t', n) == Full(t, n)
      ensures m == NoMatch ==> Walked(t, t', Full(t, n), key, FullMatch(n), key)
      ensures m.PartialMatch? ==> Walked(t, t', Full(t, n), key, m, key)
      ensures m.FullMatch? ==>
                Live(t', m.node) && t'.arena[m.node].value != [] && t'.arena[m.node].value <= key
                && Full(t', m.node) == Full(t, n) + t'.arena[m.node].value
    {
      hide Edges, Places, Bids, Closes;
      assert KeptNode(t, t', n, n);
      assert Full(t, n) + key[..0] == Full(t, n) && key[0..] == key;
      if m != NoMatch {
        KidOf(t', n, m.node);
        assert KeptNode(t, t', n, m.node);
      }
    }

    static lemma NotMoved(t: Trie, n: NodeId)
      requires Inv(t) && Live(t, n)
      ensures Walked(t, t, Full(t, n), [], FullMatch(n), [])
    {
      assert Full(t, n) + [] == Full(t, n);
    }

    /** A walk that goes on at a child. */
    static lemma WalkedBelow(t: Trie, t1: Trie, t': Trie, n: NodeId, base: Path, v: Path, key: Path, r: CommonPrefix,
                             rest: Path)
      requires Inv(t) && Inv(t1) && Inv(t') && SameIndex(t, t1, n) && n in t1.arena && Full(t1, n) == base
      requires v != [] && v <= key && Walked(t1, t', base + v, key[|v|..], r, rest)
      ensures Walked(t, t', base, key, r, rest)
    {
      hide Edges, Places, Bids, Closes;
      var m := r.node;
      ConcatSlices(base, v, key, |key| - |v| - |rest|);
      assert KeptNode(t, t1, n, m);
      if r.FullMatch? && rest != [] {
        assert |Full(t', m)| > |base|;
        ClosesKept(t, t1, n, m, rest[0]);
      }
    }

    /** A child map leads to each labelled child under the first element of its label. */
    static lemma KeysOf(t: Trie, n: NodeId)
      requires Inv(t) && n in t.arena && t.arena[n].children.Large?
      ensures forall k | k in t.arena[n].children.m ::
                var c := t.arena[n].children.m[k];
                c in t.arena && (t.arena[c].value != [] ==> t.arena[c].value[0] == k)
    {
      assert NodeOk(t, n);
      forall k | k in t.arena[n].children.m
        ensures t.arena[n].children.m[k] in t.arena
      {
        assert t.arena[n].children.m[k] in t.arena[n].children.Ids();
        KidOf(t, n, t.arena[n].children.m[k]);
      }
    }

    // ---------- Lookup ----------

    /** Length of the longest registered prefix of the query. */
    method Get(hashes: Path) returns (prefixLen: nat)
      requires Valid()
      ensures prefixLen == Match(Contents().Values, hashes)
    {
      hide Edges, Places, Bids, Match, AllOlder, MatchedLabel;
      prefixLen := 0;
      var cur := ROOT;
      RootIsEmpty(t);
      label LevelDown:
      while true
        invariant Live(t, cur) && prefixLen <= |hashes| && Full(t, cur) == hashes[..prefixLen]
        decreases |hashes| - prefixLen
      {
        if cur != ROOT { FullIsLocated(t, cur); }
        if prefixLen == |hashes| {
          MatchAt(t, hashes, prefixLen);
          break LevelDown;
        }
        var child, i;
        if arena[cur].children.Small? {
          child, i := FirstMatch(cur, hashes, prefixLen);
        } else {
          child, i := LookUp(cur, hashes, prefixLen);
        }
        if i == 0 {
          break LevelDown;
        }
        LabelMatched(cur, child, hashes, prefixLen, i);
        prefixLen := prefixLen + i;
        if i < |arena[child].value| {
          break LevelDown;
        }
        cur := child;
      }
    }

    /** A label matched in full is behind the walk; inside one the walk has found the match. */
    lemma LabelMatched(cur: NodeId, child: NodeId, hashes: Path, from: nat, i: nat)
      requires Valid() && cur in arena && child in arena && t.start[child] == Full(t, cur)
      requires from <= |hashes| && Full(t, cur) == hashes[..from] && i > 0 && MatchedLabel(child, hashes, from, i)
      ensures i <= |arena[child].value| && from + i <= |hashes|
      ensures i == |arena[child].value| ==> Full(t, child) == hashes[..from + i]
      ensures i < |arena[child].value| ==> Match(t.reg.Values, hashes) == from + i
    {
      hide Edges, Places, Bids, Match, AllOlder;
      var v := arena[child].value;
      assert v[..|v|] == v;
      if i < |v| {
        StopInside(t, child, i, hashes, from + i);
      }
    }

    /** Tries the children in a list in turn; returns the first that matches the next hash, and how much of
        its label does. Without one the walk has found the match. */
    method FirstMatch(cur: NodeId, hashes: Path, from: nat) returns (child: NodeId, i: nat)
      requires Valid() && Live(t, cur) && arena[cur].children.Small?
      requires from < |hashes| && Full(t, cur) == hashes[..from]
      ensures i == 0 ==> Match(t.reg.Values, hashes) == from
      ensures i > 0 ==>
                && child in arena && child != ROOT && t.start[child] == Full(t, cur)
                && MatchedLabel(child, hashes, from, i)
    {
      hide Edges, Places, Bids, Match, AllOlder;
      var v := arena[cur].children.v;
      child, i := ROOT, 0;
      var j := 0;
      while j < |v|
        invariant j <= |v|
        invariant forall l | 0 <= l < j ::
                    v[l] in arena && (arena[v[l]].value == [] || arena[v[l]].value[0] != hashes[from])
      {
        child := v[j];
        assert child in arena[cur].children.Ids();
        KidOf(t, cur, child);
        i := MatchLabel(child, hashes, from);
        if i > 0 {
          return;
        }
        j := j + 1;
      }
      i := 0;
      StopAtNode(t, cur, hashes, from);
    }

    /** The child that a map holds under the next hash, unless it is a placeholder. */
    method LookUp(cur: NodeId, hashes: Path, from: nat) returns (child: NodeId, i: nat)
      requires Valid() && Live(t, cur) && arena[cur].children.Large?
      requires from < |hashes| && Full(t, cur) == hashes[..from]
      ensures i == 0 ==> Match(t.reg.Values, hashes) == from
      ensures i > 0 ==>
                && child in arena && child != ROOT && t.start[child] == Full(t, cur)
                && MatchedLabel(child, hashes, from, i)
    {
      hide Edges, Places, Bids, Match, AllOlder;
      var m := arena[cur].children.m;
      KeysOf(t, cur);
      child, i := ROOT, 0;
      if hashes[from] !in m {
        StopAtNode(t, cur, hashes, from);
        return;
      }
      child := m[hashes[from]];
      assert child in arena[cur].children.Ids();
      KidOf(t, cur, child);
      if arena[child].IsEmpty() {
        StopAtNode(t, cur, hashes, from);
        return;
      }
      i := MatchLabel(child, hashes, from);
    }

    /** i is how far the label of a child agrees with the query from position `from` on. */
    ghost predicate MatchedLabel(child: NodeId, hashes: Path, from: nat, i: nat)
      requires child in arena
      reads this
    {
      && i <= |arena[child].value| && from + i <= |hashes|
      && arena[child].value[..i] == hashes[from..from + i]
      && (i < |arena[child].value| && from + i < |hashes| ==> arena[child].value[i] != hashes[from + i])
      && hashes[..from] + arena[child].value[..i] == hashes[..from + i]
    }

    method MatchLabel(child: NodeId, hashes: Path, from: nat) returns (i: nat)
      requires child in arena && from < |hashes|
      ensures MatchedLabel(child, hashes, from, i)
    {
      i := 0;
      while i < |arena[child].value| && from + i < |hashes| && arena[child].value[i] == hashes[from + i]
        invariant i <= |arena[child].value| && from + i <= |hashes|
        invariant arena[child].value[..i] == hashes[from..from + i]
      {
        assert arena[child].value[..i + 1] == arena[child].value[..i] + [arena[child].value[i]];
        i := i + 1;
      }
      assert hashes[..from] + hashes[from..from + i] == hashes[..from + i];
    }

    /** A walk that leaves a label after i elements has found the match. */
    static lemma StopInside(t: Trie, child: NodeId, i: nat, q: Path, m: nat)
      requires Inv(t) && child in t.arena && 0 < i < |t.arena[child].value| && i <= m <= |q|
      requires q[..m] == t.start[child] + t.arena[child].value[..i]
      requires m < |q| ==> t.arena[child].value[i] != q[m]
      ensures Match(t.reg.Values, q) == m
    {
      assert PosOk(t, child, i - 1);
      if m < |q| && q[..m + 1] in t.at {
        assert q[..m + 1][..m] == q[..m];
        NextWithin(t, child, i, q[..m + 1]);
        assert false;
      }
      MatchAt(t, q, m);
    }

    /** A walk that finds no child for the next element has found the match. */
    static lemma StopAtNode(t: Trie, n: NodeId, q: Path, m: nat)
      requires Inv(t) && Live(t, n) && m < |q| && Full(t, n) == q[..m]
      requires match t.arena[n].children
               case Small(v) =>
                 forall l | 0 <= l < |v| ::
                   v[l] in t.arena && (t.arena[v[l]].value == [] || t.arena[v[l]].value[0] != q[m])
               case Large(l) => q[m] in l ==> l[q[m]] in t.arena && t.arena[l[q[m]]].value == []
      ensures Match(t.reg.Values, q) == m
    {
      RootIsEmpty(t);
      assert NodeOk(t, n);
      if n != ROOT { FullIsLocated(t, n); }
      if q[..m + 1] in t.at {
        assert q[..m + 1][..m] == q[..m];
        Descend(t, n, q[..m + 1]);
        assert false;
      }
      MatchAt(t, q, m);
    }

    // ---------- Insertion ----------

    /** Inserts a key with one bid per element; returns how many prefixes of the key are new, and whether
        the assertions of the code held. They do under `InsertOk`, and the tree then stands for the
        insertion; where an extended leaf lets them hold without, the heap fits no valid tree any more. */
    method Insert(key: Path, bids: seq<Bid>) returns (n: nat, ok: bool)
      requires Valid() && |key| == |bids| && InRange(bids, |owner|)
      modifies this
      ensures ok <==> InsertOk(old(Contents()), key, bids) || LeafTakes(old(t), key, bids)
      ensures InsertOk(old(Contents()), key, bids) ==>
                Valid() && |owner| == |old(owner)| && Contents() == Registry.Insert(old(Contents()), key, bids)
      ensures ok && !InsertOk(old(Contents()), key, bids) ==> FitsNoTrie(arena)
      ensures ok ==> n == |key| - Match(old(Contents()).Values, key)
      ensures ok ==> size == old(size) + n && epoch == old(epoch) + 1
      ensures ok ==> nodes <= old(nodes) + if n == |key| then 1 else 2
    {
      n, ok := InsertInner(key, bids);
      size := size + n;
      epoch := epoch + 1;
    }

    method InsertInner(key: Path, value: seq<Bid>) returns (n: nat, ok: bool)
      requires Valid() && |key| == |value| && InRange(value, |owner|)
      modifies this`arena, this`owner, this`nextId, this`nodes, this`t
      ensures Inserts(old(t), key, value, n, ok)
      ensures ok ==> nodes <= old(nodes) + if n == |key| then 1 else 2
    {
      hide Edges, Places, Bids, InsertOk, Registry.Insert, FitsNoTrie, LeafTakes, SameEnd, Closes, KeptNode, Match,
           WellFormed;
      LeafIsInside(t, key, value);
      if key == [] {
        InsertsNothing(t.reg, key, value);
        return 0, true;
      }
      RootIsEmpty(t);
      var rootMatch := Scan(ROOT, key);
      SameEndRoot(old(t), t, key);
      LeafTakesKept(old(t), t, key, value);
      RootIsEmpty(t);
      assert key[..0] == [] && key[0..] == key;
      match rootMatch
      case NoMatch =>
        n, ok := InsertAtRoot(key, value);
      case PartialMatch(node, common) =>
        KidOf(t, ROOT, node);
        n, ok := InsertFirst(node, common, key, value);
      case FullMatch(node) =>
        KidOf(t, ROOT, node);
        n, ok := InsertPast(node, key, value);
    }

    static lemma InsertsNothing(m: Reg, key: Path, value: seq<Bid>)
      requires key == [] && value == []
      ensures InsertOk(m, key, value) && Registry.Insert(m, key, value) == m && Match(m.Values, key) == 0
    {
    }

    /** An insertion none of whose key is in the tree. */
    method InsertAtRoot(key: Path, value: seq<Bid>) returns (n: nat, ok: bool)
      requires Valid() && |key| == |value| && InRange(value, |owner|) && key != [] && Ready(t, ROOT, key[0])
      modifies this`arena, this`owner, this`nextId, this`nodes, this`t
      ensures Inserts(old(t), key, value, n, ok)
      ensures ok ==> nodes <= old(nodes) + 1 && n == |key|
    {
      hide Edges, Places, Bids, InsertOk, Registry.Insert, FitsNoTrie, LeafTakes;
      RootIsEmpty(t);
      LeafIsInside(t, key, value);
      assert key[0..] == key && value[0..] == value && key[..0] == [];
      WalkEnd(t, FullMatch(ROOT), key, 0);
      ok := AttachTail(ROOT, key, value, t.reg, key, value, 0);
      n := |key|;
    }

    /** What an insertion into the tree t0 comes to. */
    ghost predicate Inserts(t0: Trie, key: Path, value: seq<Bid>, n: nat, ok: bool)
      reads this
    {
      && |key| == |value|
      && (ok <==> InsertOk(t0.reg, key, value) || LeafTakes(t0, key, value))
      && (InsertOk(t0.reg, key, value) ==>
            Valid() && |owner| == |t0.owner| && t.reg == Registry.Insert(t0.reg, key, value))
      && (ok && !InsertOk(t0.reg, key, value) ==> FitsNoTrie(arena))
      && (ok ==> n == |key| - Match(t0.reg.Values, key))
    }

    static lemma LeafIsInside(t: Trie, key: Path, bids: seq<Bid>)
      ensures LeafTakes(t, key, bids) ==> 0 < Match(t.reg.Values, key) < |key|
    {
    }

    static lemma SameEndRoot(t: Trie, t': Trie, key: Path)
      requires Inv(t) && Inv(t') && SameIndex(t, t', ROOT)
      ensures SameEnd(t, t', key)
    {
      var full := Match(t.reg.Values, key);
      if 0 < full < |key| && key[..full] in t.at {
        assert PathOk(t, key[..full]) && PathOk(t', key[..full]);
        var g := t.at[key[..full]].0;
        RootIsEmpty(t);
        assert KeptNode(t, t', ROOT, g);
        ClosesKept(t, t', ROOT, g, key[full]);
      }
    }

    /** The part of an insertion after a first-level node matched in full. */
    method InsertPast(node: NodeId, key: Path, value: seq<Bid>) returns (n: nat, ok: bool)
      requires Valid() && |key| == |value| && InRange(value, |owner|)
      requires Live(t, node) && Full(t, node) == arena[node].value && arena[node].value != []
               && arena[node].value <= key
      modifies this`arena, this`owner, this`nextId, this`nodes, this`t
      ensures Inserts(old(t), key, value, n, ok)
      ensures ok ==> nodes <= old(nodes) + 2 && n < |key|
    {
      hide Edges, Places, Bids, InsertOk, Registry.Insert, FitsNoTrie, LeafTakes, SameStop, SameEnd, Reached, Match,
           AllOlder;
      var v := arena[node].value;
      var r, key1 := FullCombo(node, key[|v|..], v);
      ConcatSlices([], v, key, |key| - |v| - |key1|);
      assert v + key[|v|..][..|key| - |v| - |key1|] == key[..|key| - |key1|];
      SameEndStop(old(t), t, r, key, key1);
      LeafTakesKept(old(t), t, key, value);
      n, ok := InsertBelow(r, key1, key, value);
    }

    /** The walk did not change how an insertion sees the node where the key ends. */
    static lemma SameEndStop(t: Trie, t': Trie, r: CommonPrefix, key: Path, key1: Path)
      requires Inv(t) && Inv(t') && t'.at == t.at && t'.reg == t.reg && SameStop(t, t', r, key1)
      requires |key1| < |key| && key1 == key[|key| - |key1|..]
      requires Reached(t', r, key[..|key| - |key1|], key1)
      ensures SameEnd(t, t', key)
    {
      var full := |key| - |key1|;
      WalkEnd(t', r, key, full);
      match r
      case FullMatch(n) =>
        RootIsEmpty(t');
        FullIsLocated(t', n);
      case PartialMatch(n, k) =>
        var v := t'.arena[n].value;
        assert PosOk(t', n, k - 1);
        assert key[..full] + key[full..][..k] == key[..full + k];
    }

    /** The part of an insertion after a first-level label matched the key only in part. */
    method InsertFirst(node: NodeId, common: nat, key: Path, value: seq<Bid>) returns (n: nat, ok: bool)
      requires Valid() && |key| == |value| && InRange(value, |owner|)
      requires Reached(t, PartialMatch(node, common), key[..0], key)
      modifies this`arena, this`owner, this`nextId, this`nodes, this`t
      ensures Inserts(old(t), key, value, n, ok)
      ensures ok ==> nodes <= old(nodes) + 2 && n < |key|
    {
      hide Edges, Places, Bids, LeafTakes;
      assert key[0..] == key && value[0..] == value;
      WalkEnd(t, PartialMatch(node, common), key, 0);
      NoLeafInside(t, node, common, key, 0, value);
      if |key| == common {
        AliasPath(key, value);
        n, ok := 0, true;
      } else {
        ok := SplitNodeAtInsert(node, common, key, value, t.reg, key, value, 0);
        n := |key| - common;
      }
    }

    /** A key that ends inside a label extends no leaf. */
    static lemma NoLeafInside(t: Trie, n: NodeId, k: nat, key: Path, full: nat, bids: seq<Bid>)
      requires Inv(t) && full <= |key| && Reached(t, PartialMatch(n, k), key[..full], key[full..])
      ensures !LeafTakes(t, key, bids)
    {
      WalkEnd(t, PartialMatch(n, k), key, full);
      assert PosOk(t, n, k - 1);
      assert key[..full] + key[full..][..k] == key[..full + k];
    }

    /** The part of an insertion after the walk ended at r with key1 left over. */
    method InsertBelow(r: CommonPrefix, key1: Path, key: Path, value: seq<Bid>) returns (n: nat, ok: bool)
      requires Valid() && |key| == |value| && InRange(value, |owner|)
      requires |key1| < |key| && key1 == key[|key| - |key1|..]
      requires Reached(t, r, key[..|key| - |key1|], key1)
      modifies this`arena, this`owner, this`nextId, this`nodes, this`t
      ensures Inserts(old(t), key, value, n, ok)
      ensures ok ==> nodes <= old(nodes) + 2 && n < |key|
    {
      hide Edges, Places, Bids, LeafTakes;
      ghost var m0 := t.reg;
      var full := |key| - |key1|;
      WalkEnd(t, r, key, full);
      if key1 == [] || (r.PartialMatch? && |key1| == r.common) {
        AliasPath(key, value);
        return 0, true;
      }
      if r.FullMatch? {
        ok := InsertAfter(r.node, key1, key, value);
        n := |key1|;
      } else {
        NoLeafInside(t, r.node, r.common, key, full, value);
        ghost var t0 := t;
        AliasPath(key[..full], value[..full]);
        RegisterPrefix(m0, key, value, full);
        assert SameNode(t0, t, r.node);
        ok := SplitNodeAtInsert(r.node, r.common, key1, value[full..], m0, key, value, full);
        n := |key1| - r.common;
      }
    }

    /** The walk consumed key[..full] and ended at a node none of whose children continue the key. */
    method InsertAfter(node: NodeId, key1: Path, key: Path, value: seq<Bid>) returns (ok: bool)
      requires Valid() && |key| == |value| && InRange(value, |owner|)
      requires 0 < |key1| < |key| && key1 == key[|key| - |key1|..]
      requires Reached(t, FullMatch(node), key[..|key| - |key1|], key1)
      requires t.at.Keys == t.reg.Values && key[..|key| - |key1|] in t.at
      requires Match(t.reg.Values, key) == |key| - |key1|
      modifies this`arena, this`owner, this`nextId, this`nodes, this`t
      ensures Inserts(old(t), key, value, |key1|, ok)
      ensures ok ==> nodes <= old(nodes) + 1
    {
      hide Edges, Places, Bids, LeafTakes;
      ghost var m0, t0 := t.reg, t;
      var full := |key| - |key1|;
      AliasPath(key[..full], value[..full]);
      RegisterPrefix(m0, key, value, full);
      assert SameNode(t0, t, node);
      SameReady(t0, t, node, key1[0]);
      LeafTakesAfter(t0, t, node, key, value, full);
      TailIsNew(t, m0, key, value, full, Full(t, node));
      if arena[node].children.IsEmpty() {
        RootIsEmpty(t);
        ok := ExtendLeaf(node, key1, value[full..], Registry.Insert(m0, key, value));
      } else {
        ok := AttachTail(node, key1, value[full..], m0, key, value, full);
      }
    }

    /** Seen after the matched part of the key is registered, a leaf takes the rest exactly when every bid of
        it points nowhere or to the leaf. */
    static lemma LeafTakesAfter(t0: Trie, t: Trie, node: NodeId, key: Path, value: seq<Bid>, full: nat)
      requires Inv(t0) && Inv(t) && SameShape(t0, t) && 0 < full < |key| == |value|
      requires Match(t0.reg.Values, key) == full && t.reg == Register(t0.reg, key, value, full)
      requires Live(t0, node) && Full(t0, node) == key[..full] && Ready(t0, node, key[full])
      requires InRange(value, |t.owner|)
      ensures node in t.arena
      ensures LeafTakes(t0, key, value) <==>
              t.arena[node].children.IsEmpty() && Adoptable(t.owner, value[full..], node, true)
    {
      RootIsEmpty(t0);
      FullIsLocated(t0, node);
      ClosesReady(t0, node, key[full]);
      assert SameNode(t0, t, node);
      forall b | b in value[full..]
        ensures b < |t.owner|
        ensures HeldAtOrUnknown(t0, t.reg, b, node) <==> t.owner[b] == None || t.owner[b] == Some(node)
      {
        OwnedIsRegistered(t, b);
        if b in t.reg { assert BidOk(t, b); }
      }
    }

    /** Where the walk along a key stopped is where the key matches. */
    static lemma WalkEnd(t: Trie, r: CommonPrefix, key: Path, full: nat)
      requires Inv(t) && full <= |key| && Reached(t, r, key[..full], key[full..])
      ensures Match(t.reg.Values, key) == full + (if r.PartialMatch? then r.common else 0)
      ensures full > 0 ==> key[..full] in t.at
      ensures t.at.Keys == t.reg.Values
      ensures full == |key| || (r.PartialMatch? && full + r.common == |key|) ==> key == [] || key in t.at
    {
      RootIsEmpty(t);
      PathsAreRegistered(t);
      match r
      case FullMatch(n) =>
        if n != ROOT { FullIsLocated(t, n); }
        if full < |key| {
          ReadyIsAbsent(t, n, key[full]);
          assert key[..full] + [key[full]] == key[..full + 1];
        }
        MatchAt(t, key, full);
        assert full == |key| ==> key[..full] == key;
      case PartialMatch(n, k) =>
        var v := t.arena[n].value;
        assert PosOk(t, n, k - 1);
        assert key[..full] + key[full..][..k] == key[..full + k];
        RadixTreeBlockHash.StopInside(t, n, k, key, full + k);
        if full > 0 {
          assert NodeOk(t, n);
          ParentIsLive(t, n);
          FullIsLocated(t, t.parent[n]);
        }
        assert full + k == |key| ==> key[..full + k] == key;
    }

    /** The unmatched rest of the key can be attached below the node where the walk stopped, and its bids are
        new under `InsertOk`. */
    static lemma TailIsNew(t: Trie, m0: Reg, key: Path, value: seq<Bid>, full: nat, base: Path)
      requires Inv(t) && |key| == |value| && full == Match(m0.Values, key) && full < |key|
      requires t.at.Keys == m0.Values && base == key[..full]
      requires t.reg == Register(m0, key, value, full) && InRange(value, |t.owner|)
      ensures NewBranch(t, base, key[full..], value[full..])
      ensures NewBids(t, value[full..]) <==> InsertOk(m0, key, value)
      ensures NewBids(t, value[full..]) ==>
                Attaches(t.reg, base, key[full..], value[full..], Registry.Insert(m0, key, value))
    {
      assert key[..full + 1] !in m0.Values;
      assert key[..full] + [key[full..][0]] == key[..full + 1];
      TailIsOk(m0, key, value, full);
      if InsertOk(m0, key, value) {
        RegisterTail(m0, key, value, full);
      }
    }

    static lemma {:induction false} RegisterPrefix(m: Reg, key: Path, bids: seq<Bid>, k: nat)
      requires k <= |key| == |bids|
      ensures Register(m, key[..k], bids[..k], k) == Register(m, key, bids, k)
    {
      RegisterSlice(m, key, bids, k, k);
    }

    static lemma {:induction false} RegisterSlice(m: Reg, key: Path, bids: seq<Bid>, k: nat, j: nat)
      requires j <= k <= |key| == |bids|
      ensures Register(m, key[..k], bids[..k], j) == Register(m, key, bids, j)
    {
      if j > 0 {
        RegisterSlice(m, key, bids, k, j - 1);
        assert key[..k][..j] == key[..j];
      }
    }

    /** Registers every alias that is still unknown along an existing path. */
    method AliasPath(key: Path, aliases: seq<Bid>)
      requires Valid() && |key| == |aliases| && InRange(aliases, |owner|)
      requires key == [] || key in t.at
      modifies this`arena, this`owner, this`t
      ensures Valid() && SameShape(old(t), t)
      ensures t.reg == Register(old(t.reg), key, aliases, |key|)
    {
      hide Edges, Places, Bids, SameShape, Register;
      SameShapeRefl(t);
      RegisterNothing(t.reg, key, aliases);
      if key == [] {
        return;
      }
      var cur, consumed := ROOT, 0;
      RootIsEmpty(t);
      while consumed < |key|
        invariant Valid() && SameShape(old(t), t) && consumed <= |key|
        invariant |owner| == |old(owner)| && t.at == old(t.at)
        invariant Live(t, cur) && Full(t, cur) == key[..consumed]
        invariant t.reg == Register(old(t.reg), key, aliases, consumed)
      {
        var child := FindChild(cur, key, consumed);
        var i := AliasLabel(child, key, aliases, consumed, old(t), old(t.reg));
        SameOutline(old(t), t);
        consumed := consumed + i;
        if consumed >= |key| {
          break;
        }
        cur := child;
      }
    }

    static lemma RegisterNothing(m: Reg, key: Path, bids: seq<Bid>)
      requires |key| == |bids|
      ensures Register(m, key, bids, 0) == m
    {
    }

    /** The child of cur that continues a live path. */
    method FindChild(cur: NodeId, key: Path, consumed: nat) returns (child: NodeId)
      requires Valid() && Live(t, cur) && consumed < |key| && Full(t, cur) == key[..consumed]
      requires key in t.at
      ensures child in arena && child != ROOT && arena[child].value != []
      ensures arena[child].value[0] == key[consumed] && t.start[child] == key[..consumed]
    {
      ghost var q := key[..consumed + 1];
      PrefixIsLocated(t, key, consumed + 1);
      assert q[..|q| - 1] == key[..consumed];
      Descend(t, cur, q);
      assert NodeOk(t, cur);
      forall c | c in arena[cur].children.Ids()
        ensures c in arena
      {
        assert DownOk(t, cur, c);
      }
      match arena[cur].children
      case Small(v) =>
        var j := 0;
        while arena[v[j]].value == [] || arena[v[j]].value[0] != key[consumed]
          invariant j < |v| && (forall c | c in v :: c in arena)
          invariant exists l | j <= l < |v| :: v[l] == t.at[q].0
          decreases |v| - j
        {
          j := j + 1;
        }
        child := v[j];
        assert child in arena[cur].children.Ids();
        assert DownOk(t, cur, child);
      case Large(m) =>
        child := m[key[consumed]];
        assert child in arena[cur].children.Ids();
        assert DownOk(t, cur, child);
    }

    /** Registers aliases along one label; returns how many positions were passed. */
    method AliasLabel(child: NodeId, key: Path, aliases: seq<Bid>, from: nat, ghost base: Trie, ghost m0: Reg)
      returns (i: nat)
      requires Valid() && SameShape(base, t) && |key| == |aliases| && InRange(aliases, |owner|)
      requires child in arena && from < |key| && key in t.at
      requires arena[child].value != [] && arena[child].value[0] == key[from] && t.start[child] == key[..from]
      requires t.reg == Register(m0, key, aliases, from)
      modifies this`arena, this`owner, this`t
      ensures Valid() && SameShape(base, t)
      ensures child in arena && arena[child].value == old(arena[child].value)
      ensures 0 < i <= |arena[child].value| && from + i <= |key|
      ensures t.reg == Register(m0, key, aliases, from + i)
      ensures from + i < |key| ==> Full(t, child) == key[..from + i]
    {
      hide Edges, Places, Bids, SameShape, Register;
      var v := arena[child].value;
      i := 0;
      SameOutline(base, t);
      while i < |v| && from + i < |key| && v[i] == key[from + i]
        invariant Valid() && SameShape(base, t) && |owner| == |base.owner| && t.at == base.at && t.start == base.start
        invariant child in arena && arena[child].value == v && Along(key, from, v, i)
        invariant t.reg == Register(m0, key, aliases, from + i)
      {
        UptoAlong(key, from, v, i);
        AliasStep(child, i, aliases[from + i], base, m0, key, aliases, from + i);
        SameOutline(base, t);
        i := i + 1;
      }
      LabelEnd(t, child, key, from, i);
    }

    /** The first i elements of v continue key[..from]. */
    static ghost predicate Along(key: Path, from: nat, v: Path, i: nat) {
      i <= |v| && from + i <= |key| && (forall l | 0 <= l < i :: v[l] == key[from + l])
    }

    static lemma UptoAlong(key: Path, from: nat, v: Path, i: nat)
      requires Along(key, from, v, i) && i < |v| && from + i < |key| && v[i] == key[from + i]
      ensures Along(key, from, v, i + 1) && Upto(key[..from], v, i) == key[..from + i + 1]
    {
      assert v[..i + 1] == key[from..from + i + 1];
      assert key[..from] + key[from..from + i + 1] == key[..from + i + 1];
    }

    /** A live path leaves a label it has entered only at the label's end. */
    static lemma LabelEnd(t: Trie, n: NodeId, key: Path, from: nat, i: nat)
      requires Inv(t) && n in t.arena && t.arena[n].value != [] && from < |key| && key in t.at
      requires t.arena[n].value[0] == key[from] && t.start[n] == key[..from] && Along(key, from, t.arena[n].value, i)
      requires i < |t.arena[n].value| && from + i < |key| ==> t.arena[n].value[i] != key[from + i]
      ensures i > 0 && (from + i < |key| ==> Full(t, n) == key[..from + i])
    {
      var v := t.arena[n].value;
      assert v[..i] == key[from..from + i];
      assert key[..from] + key[from..from + i] == key[..from + i];
      assert v[..|v|] == v;
      if 0 < i < |v| && from + i < |key| {
        PrefixIsLocated(t, key, from + i + 1);
        assert key[..from + i + 1][..from + i] == key[..from + i];
        NextWithin(t, n, i, key[..from + i + 1]);
        assert false;
      }
    }

    /** Bid b becomes a holder of position i of a node, unless it is already registered somewhere. */
    method AliasAt(node: NodeId, i: nat, b: Bid, ghost p: Path)
      requires Valid() && node in arena && i < |arena[node].value| && b < |owner|
      requires p == Upto(t.start[node], arena[node].value, i)
      modifies this`arena, this`owner, this`t
      ensures Valid() && SameShape(old(t), t) && t.reg == Note(old(t.reg), b, p)
      ensures node in arena && arena[node].value == old(arena[node].value)
    {
      hide Edges, Places, Bids, SameShape;
      SamePayload(t, node);
      OwnedIsRegistered(t, b);
      SameShapeRefl(t);
      if owner[b].None? {
        AddAliasInv(t, node, i, b);
        AddAliasShape(t, node, i, b);
        t := AddAlias(t, node, i, b);
        var nd := arena[node];
        arena := arena[node := nd.(payload := nd.payload[i := nd.payload[i] + [b]])];
        owner := owner[b := Some(node)];
        assert old(arena).Keys - arena.Keys == {};
        ArenaShrunk(old(arena), nextId, arena);
      }
    }

    static lemma SameShapeRefl(t: Trie)
      ensures SameShape(t, t)
    {
      forall n | n in t.arena
        ensures SameNode(t, t, n)
      {
      }
    }

    static lemma AddAliasShape(t: Trie, n: NodeId, i: nat, b: Bid)
      requires Domains(t) && n in t.arena && i < |t.arena[n].payload| && i < |t.arena[n].value| && b < |t.owner|
      ensures SameShape(t, AddAlias(t, n, i, b))
    {
      forall m | m in t.arena
        ensures SameNode(t, AddAlias(t, n, i, b), m)
      {
      }
    }

    /** One step of registering a key's bids: bid k at position i of the node that spells key[..k+1]. */
    method AliasStep(node: NodeId, i: nat, b: Bid, ghost base: Trie, ghost m0: Reg, ghost key: Path,
                     ghost bids: seq<Bid>, ghost k: nat)
      requires Valid() && SameShape(base, t) && node in arena && i < |arena[node].value| && b < |owner|
      requires k < |key| == |bids| && bids[k] == b && t.reg == Register(m0, key, bids, k)
      requires key[..k + 1] == Upto(t.start[node], arena[node].value, i)
      modifies this`arena, this`owner, this`t
      ensures Valid() && SameShape(base, t) && t.reg == Register(m0, key, bids, k + 1)
      ensures node in arena && arena[node].value == old(arena[node].value)
    {
      RegisterStep(m0, key, bids, k);
      AliasAt(node, i, b, key[..k + 1]);
      SameShapeTrans(base, old(t), t);
    }

    static lemma OwnedIsRegistered(t: Trie, b: Bid)
      requires Inv(t) && b < |t.owner|
      ensures t.owner[b].Some? <==> b in t.reg
    {
      if b in t.reg {
        assert BidOk(t, b);
      }
    }

    /** Points every bid of a payload, so far owned by `expected`, to node n. */
    method Repoint(payload: seq<seq<Bid>>, expected: Option<NodeId>, n: NodeId)
      requires HeldBy(payload, owner, expected)
      modifies this`owner
      ensures |owner| == |old(owner)|
      ensures forall b | 0 <= b < |owner| :: owner[b] == if b in BidsIn(payload) then Some(n) else old(owner[b])
    {
      for i := 0 to |payload|
        invariant |owner| == |old(owner)|
        invariant forall b | 0 <= b < |owner| ::
                    owner[b] == if exists k | 0 <= k < i :: b in payload[k] then Some(n) else old(owner[b])
      {
        for j := 0 to |payload[i]|
          invariant |owner| == |old(owner)|
          invariant forall b | 0 <= b < |owner| ::
                      owner[b] == if b in payload[i][..j]
                        || exists k | 0 <= k < i :: b in payload[k] then Some(n) else old(owner[b])
        {
          var b := payload[i][j];
          assert b in payload[i] && Distinct(payload[i]);
          assert forall l | 0 <= l < j :: payload[i][..j][l] == payload[i][l] != b;
          assert owner[b] == expected;
          owner := owner[b := Some(n)];
        }
        assert payload[i][..|payload[i]|] == payload[i];
      }
    }

    /** Points the bids one after the other to node n, as long as each points nowhere yet or, where `own` is
        set, perhaps to n. */
    method Adopt(bids: seq<Bid>, n: NodeId, own: bool) returns (ok: bool)
      requires InRange(bids, |owner|)
      modifies this`owner
      ensures ok <==> Adoptable(old(owner), bids, n, own)
      ensures ok ==> owner == Claim(old(owner), (set b | b in bids), n)
    {
      assert bids[..|bids|] == bids;
      for i := 0 to |bids|
        invariant owner == Claim(old(owner), (set b | b in bids[..i]), n)
        invariant Adoptable(old(owner), bids[..i], n, own)
      {
        assert bids[..i + 1] == bids[..i] + [bids[i]];
        if owner[bids[i]] != None && !(own && owner[bids[i]] == Some(n)) {
          NotAdoptable(old(owner), bids, i, n, own);
          return false;
        }
        owner := owner[bids[i] := Some(n)];
      }
      ok := true;
    }

    static lemma NotAdoptable(owner: Owners, bids: seq<Bid>, i: nat, n: NodeId, own: bool)
      requires i < |bids| && InRange(bids, |owner|) && Adoptable(owner, bids[..i], n, own)
      requires var now := Claim(owner, (set b | b in bids[..i]), n)[bids[i]]; now != None && !(own && now == Some(n))
      ensures !Adoptable(owner, bids, n, own)
    {
      if bids[i] in bids[..i] {
        var j :| 0 <= j < i && bids[..i][j] == bids[i];
        assert bids[j] == bids[i];
      } else {
        assert bids[i] in bids;
      }
    }

    /** A leaf takes the rest of the key into its own label. */
    method ExtendLeaf(node: NodeId, key1: Path, bids: seq<Bid>, ghost reg': Reg) returns (ok: bool)
      requires Valid() && node in arena && arena[node].value != [] && arena[node].children.IsEmpty()
      requires NewBranch(t, Full(t, node), key1, bids)
      requires NewBids(t, bids) ==> Attaches(t.reg, Full(t, node), key1, bids, reg')
      modifies this`arena, this`owner, this`t
      ensures ok <==> Adoptable(old(owner), bids, node, true)
      ensures NewBids(old(t), bids) ==> ok && Valid() && |owner| == |old(owner)| && t.reg == reg'
      ensures ok && !NewBids(old(t), bids) ==> FitsNoTrie(arena)
    {
      hide Edges, Places, Bids, Attaches, FitsNoTrie, NewBids;
      var nd := arena[node];
      arena := arena[node := nd.(value := nd.value + key1, payload := nd.payload + Singles(bids))];
      ok := Adopt(bids, node, true);
      NewIsFree(t, bids, node);
      if ok {
        if NewBids(t, bids) {
          ExtendInv(t, node, key1, bids, reg');
          t := Extend(t, node, key1, bids, reg');
          assert old(arena).Keys - arena.Keys == {};
          ArenaShrunk(old(arena), nextId, arena);
        } else {
          ExtensionRepeats(t, node, bids, arena);
        }
      }
    }

    static lemma NewIsFree(t: Trie, bids: seq<Bid>, n: NodeId)
      requires Inv(t) && InRange(bids, |t.owner|)
      ensures NewBids(t, bids) <==> Adoptable(t.owner, bids, n, false)
      ensures NewBids(t, bids) ==> Adoptable(t.owner, bids, n, true)
    {
      forall i | 0 <= i < |bids|
        ensures bids[i] in t.reg <==> t.owner[bids[i]] != None
      {
        OwnedIsRegistered(t, bids[i]);
      }
      assert forall i | 0 <= i < |bids| :: bids[i] in bids;
    }

    /** Hangs what is left of the key below the node that ends at key[..full]. */
    method AttachTail(node: NodeId, hashes: Path, bids: seq<Bid>, ghost m0: Reg, ghost key: Path,
                      ghost value: seq<Bid>, ghost full: nat)
      returns (ok: bool)
      requires Valid() && |key| == |value| && InRange(value, |owner|)
      requires full == Match(m0.Values, key) && full < |key| && hashes == key[full..] && bids == value[full..]
      requires t.at.Keys == m0.Values && t.reg == Register(m0, key, value, full)
      requires Live(t, node) && Full(t, node) == key[..full] && Ready(t, node, key[full])
      modifies this`arena, this`owner, this`nextId, this`nodes, this`t
      ensures ok <==> InsertOk(m0, key, value)
      ensures ok ==> Valid() && |owner| == |old(owner)| && t.reg == Registry.Insert(m0, key, value)
      ensures nodes == old(nodes) + 1
    {
      TailIsNew(t, m0, key, value, full, key[..full]);
      ok := InsertAsChild(node, hashes, bids, Registry.Insert(m0, key, value));
    }

    /** Adds a new leaf child; the child list turns into a map when it outgrows SMALL_MAX. */
    method InsertAsChild(node: NodeId, hashes: Path, bids: seq<Bid>, ghost reg': Reg) returns (ok: bool)
      requires Valid() && Live(t, node) && hashes != [] && Ready(t, node, hashes[0])
      requires NewBranch(t, Full(t, node), hashes, bids)
      requires NewBids(t, bids) ==> Attaches(t.reg, Full(t, node), hashes, bids, reg')
      modifies this`arena, this`owner, this`nextId, this`nodes, this`t
      ensures ok <==> NewBids(old(t), bids)
      ensures ok ==> Valid() && |owner| == |old(owner)| && t.reg == reg'
      ensures nodes == old(nodes) + 1
    {
      NextIsFree(arena, nextId);
      var f := nextId;
      var ch := AttachChild(node, f, arena[f := Node(Small([]), hashes, Singles(bids))]);
      NewIsFree(t, bids, f);
      ok := PlaceChild(node, ch, hashes, bids);
      if ok {
        SproutInv(t, node, f, ch, hashes, bids, reg');
        t := Sprout(t, node, f, ch, hashes, bids, reg');
      }
    }

    /** The heap updates of a new leaf, whose bids must not point anywhere yet. */
    method PlaceChild(node: NodeId, ch: Children, hashes: Path, bids: seq<Bid>) returns (ok: bool)
      requires node in arena && nextId !in arena && nodes == |arena| && AllOlder(arena, nextId)
      requires InRange(bids, |owner|)
      modifies this`arena, this`owner, this`nextId, this`nodes
      ensures arena ==
              old(arena[nextId := Node(Small([]), hashes, Singles(bids))][node := arena[node].(children := ch)])
      ensures ok <==> Adoptable(old(owner), bids, old(nextId), false)
      ensures ok ==> owner == Claim(old(owner), (set b | b in bids), old(nextId))
      ensures nodes == |arena| == old(nodes) + 1 && AllOlder(arena, nextId)
    {
      var f := nextId;
      arena := arena[f := Node(Small([]), hashes, Singles(bids))][node := arena[node].(children := ch)];
      nextId, nodes := nextId + 1, nodes + 1;
      ok := Adopt(bids, f, false);
      assert arena.Keys == old(arena).Keys + {f};
      ArenaGrown(old(arena), f, arena);
    }

    /** The children of node once f, already in the arena a, has joined them. */
    method AttachChild(node: NodeId, f: NodeId, a: Arena) returns (ch: Children)
      requires Inv(t) && t.arena == arena && node in arena && f !in arena && f in a && a[f].value != []
      requires a == arena[f := a[f]] && Ready(t, node, a[f].value[0])
      ensures ch.Ids() == arena[node].children.Ids() + {f} && KidsOk(a, ch)
    {
      hide Edges, Places, Bids;
      KidsWellFormed(t, node);
      KidsAllocated(t, node);
      match arena[node].children
      case Small(v) =>
        var w := v + [f];
        if |w| > SMALL_MAX {
          HeadsDiffer(t, node, f, a);
          var m := ToMap(a, w);
          ch := Large(m);
        } else {
          ch := Small(w);
        }
      case Large(m) =>
        ch := Large(m[a[f].value[0] := f]);
        MoreValues(m, a[f].value[0], f);
    }

    /** The labels of a full child list and of the child that joins it start with different elements. */
    static lemma HeadsDiffer(t: Trie, n: NodeId, f: NodeId, a: Arena)
      requires Inv(t) && n in t.arena && f !in t.arena && f in a && a[f].value != [] && a == t.arena[f := a[f]]
      requires t.arena[n].children.Small? && Ready(t, n, a[f].value[0]) && Distinct(t.arena[n].children.v)
      ensures var w := t.arena[n].children.v + [f];
              && (forall c | c in w :: c in a && a[c].value != [])
              && (forall i, j | 0 <= i < j < |w| :: a[w[i]].value[0] != a[w[j]].value[0])
    {
      hide Edges, Places, Bids;
      var v := t.arena[n].children.v;
      var w := v + [f];
      forall i, j | 0 <= i < j < |w|
        ensures a[w[i]].value[0] != a[w[j]].value[0]
      {
        assert v[i] in v;
        if j < |v| {
          assert v[j] in v;
          SiblingsDiffer(t, n, v[i], v[j]);
        }
      }
    }

    static lemma MoreValues(m: map<Hash, NodeId>, h: Hash, f: NodeId)
      requires h !in m
      ensures m[h := f].Values == m.Values + {f}
    {
      var m' := m[h := f];
      assert m'[h] == f;
      forall c | c in m.Values
        ensures c in m'.Values
      {
        var k :| k in m && m[k] == c;
        assert m'[k] == c;
      }
    }

    /** Collects a list of labelled nodes into a map keyed by the first elements of the labels. */
    static method ToMap(a: Arena, w: seq<NodeId>) returns (m: map<Hash, NodeId>)
      requires forall c | c in w :: c in a && a[c].value != []
      requires forall i, j | 0 <= i < j < |w| :: a[w[i]].value[0] != a[w[j]].value[0]
      ensures m.Values == (set c | c in w)
      ensures forall k | k in m :: m[k] in a && a[m[k]].value != [] && a[m[k]].value[0] == k
    {
      m := map[];
      for i := 0 to |w|
        invariant forall k | k in m :: m[k] in w[..i] && a[m[k]].value[0] == k
        invariant forall j | 0 <= j < i :: a[w[j]].value[0] in m && m[a[w[j]].value[0]] == w[j]
      {
        assert w[i] in w;
        m := m[a[w[i]].value[0] := w[i]];
      }
      forall c | c in w
        ensures c in m.Values
      {
        var j :| 0 <= j < |w| && w[j] == c;
        assert m[a[c].value[0]] == c;
      }
    }

    /** Splits a label after `common` elements and hangs the diverging rest of the key beside the
        split-off suffix. `key`, `value` and m0 describe the whole insertion: key[..full] is behind
        the node. */
    method SplitNodeAtInsert(node: NodeId, common: nat, hashes: Path, bids: seq<Bid>,
                             ghost m0: Reg, ghost key: Path, ghost value: seq<Bid>, ghost full: nat)
      returns (ok: bool)
      requires Valid() && |key| == |value| && InRange(value, |owner|)
      requires full <= |key| && hashes == key[full..] && bids == value[full..]
      requires Reached(t, PartialMatch(node, common), key[..full], hashes) && common < |hashes|
      requires t.reg == Register(m0, key, value, full) && t.at.Keys == m0.Values
      requires Match(m0.Values, key) == full + common
      modifies this`arena, this`owner, this`nextId, this`nodes, this`t
      ensures ok <==> InsertOk(m0, key, value)
      ensures ok ==> Valid() && |owner| == |old(owner)| && t.reg == Registry.Insert(m0, key, value)
      ensures nodes == old(nodes) + 2
    {
      hide Edges, Places, Bids, InsertOk, Registry.Insert, Register, Match, Ready, AllOlder;
      SplitAndAlias(node, common, bids, m0, key, value, full);
      assert hashes[common..] == key[full + common..] && bids[common..] == value[full + common..];
      ok := AttachTail(node, hashes[common..], bids[common..], m0, key, value, full + common);
    }

    /** The split itself, with the aliases of its matched part. */
    method SplitAndAlias(node: NodeId, common: nat, bids: seq<Bid>,
                         ghost m0: Reg, ghost key: Path, ghost value: seq<Bid>, ghost full: nat)
      requires Valid() && |key| == |value| && InRange(value, |owner|)
      requires full <= |key| && bids == value[full..] && common < |key| - full
      requires Reached(t, PartialMatch(node, common), key[..full], key[full..])
      requires t.reg == Register(m0, key, value, full)
      modifies this`arena, this`owner, this`nextId, this`nodes, this`t
      ensures Valid() && |owner| == |old(owner)|
      ensures t.reg == Register(m0, key, value, full + common) && t.at.Keys == old(t.at.Keys)
      ensures Live(t, node) && Full(t, node) == key[..full + common] && Ready(t, node, key[full + common])
      ensures nodes == old(nodes) + 1
    {
      hide Edges, Places, Bids, Register;
      ghost var v := arena[node].value;
      var s := SplitNode(node, common);
      MatchedSlices(key, full, v, common, common - 1);
      ghost var t1 := t;
      AliasWithin(node, bids, m0, key, value, full);
      assert SameNode(t1, t, node) && SameNode(t1, t, s);
    }

    /** Registers the bids supplied for the matched part of a freshly split label. */
    method AliasWithin(node: NodeId, bids: seq<Bid>, ghost m0: Reg, ghost key: Path, ghost value: seq<Bid>,
                       ghost full: nat)
      requires Valid() && |key| == |value| && InRange(value, |owner|) && node in arena && arena[node].value != []
      requires full + |arena[node].value| <= |key| && bids == value[full..]
      requires t.start[node] == key[..full] && arena[node].value == key[full..][..|arena[node].value|]
      requires t.reg == Register(m0, key, value, full)
      modifies this`arena, this`owner, this`t
      ensures Valid() && SameShape(old(t), t)
      ensures t.reg == Register(m0, key, value, full + |old(arena[node].value)|)
    {
      hide Edges, Places, Bids, SameShape, Register;
      SameShapeRefl(t);
      ghost var v := arena[node].value;
      for i := 0 to |arena[node].value|
        invariant Valid() && SameShape(old(t), t) && |owner| == |old(owner)|
        invariant node in arena && arena[node].value == v && t.start[node] == key[..full]
        invariant t.reg == Register(m0, key, value, full + i)
      {
        MatchedSlices(key, full, v, |v|, i);
        assert v[..|v|] == v;
        AliasStep(node, i, bids[i], old(t), m0, key, value, full + i);
        SameOutline(old(t), t);
      }
    }

    static lemma MatchedSlices(key: Path, full: nat, v: Path, common: nat, i: nat)
      requires i < common <= |v| && full + common <= |key| && v[..common] == key[full..][..common]
      ensures Upto(key[..full], v[..common], i) == key[..full + i + 1]
      ensures key[..full] + v[..common] == key[..full + common] && key[full..][common..] == key[full + common..]
    {
      assert v[..common][..i + 1] == key[full..full + i + 1];
      assert key[..full] + key[full..full + i + 1] == key[..full + i + 1];
      assert v[..common] == key[full..full + common];
    }

    /** Moves label, payload and children of a node beyond position k to a new only child. */
    method SplitNode(node: NodeId, k: nat) returns (s: NodeId)
      requires Valid() && node in arena && node != ROOT && 0 < k < |arena[node].value|
      modifies this`arena, this`owner, this`nextId, this`nodes, this`t
      ensures Valid() && |owner| == |old(owner)| && t.reg == old(t.reg) && t.at.Keys == old(t.at).Keys
      ensures s in arena && node in arena && s != node
      ensures t.start[node] == old(t.start[node]) && arena[node].value == old(arena[node].value[..k])
      ensures arena[node].children == Small([s]) && arena[s].value == old(arena[node].value[k..])
      ensures nodes == old(nodes) + 1
    {
      NextIsFree(arena, nextId);
      assert NodeOk(t, node);
      s := nextId;
      PayloadOf(t, node, k);
      PlaceSuffix(node, k);
      SplitInv(t, node, k, s, owner);
      t := Split(t, node, k, s, owner);
    }

    /** The heap updates of a split. */
    method PlaceSuffix(node: NodeId, k: nat)
      requires node in arena && nextId !in arena && nodes == |arena| && AllOlder(arena, nextId)
      requires k <= |arena[node].value| == |arena[node].payload| && HeldBy(arena[node].payload[k..], owner, Some(node))
      modifies this`arena, this`owner, this`nextId, this`nodes
      ensures arena == old(arena[nextId := Node(arena[node].children, arena[node].value[k..], arena[node].payload[k..])]
                               [node := Node(Small([nextId]), arena[node].value[..k], arena[node].payload[..k])])
      ensures |owner| == |old(owner)|
      ensures forall b | 0 <= b < |owner| ::
                owner[b] == if exists i | k <= i < |old(arena[node].payload)| :: b in old(arena[node].payload)[i]
                            then Some(old(nextId)) else old(owner[b])
      ensures nodes == |arena| == old(nodes) + 1 && AllOlder(arena, nextId)
    {
      var s, nd := nextId, arena[node];
      arena := arena[s := Node(nd.children, nd.value[k..], nd.payload[k..])]
                    [node := Node(Small([s]), nd.value[..k], nd.payload[..k])];
      nextId, nodes := nextId + 1, nodes + 1;
      Repoint(nd.payload[k..], Some(node), s);
      forall b | 0 <= b < |owner|
        ensures b in BidsIn(nd.payload[k..]) <==> exists i | k <= i < |nd.payload| :: b in nd.payload[i]
      {
        if i :| k <= i < |nd.payload| && b in nd.payload[i] {
          assert nd.payload[k..][i - k] == nd.payload[i];
        }
      }
      assert arena.Keys == old(arena).Keys + {s};
      ArenaGrown(old(arena), s, arena);
    }

    /** The bids a node holds from position k on: each once, and each pointing to the node. */
    static lemma PayloadOf(t: Trie, n: NodeId, k: nat)
      requires Inv(t) && n in t.arena && k <= |t.arena[n].payload|
      ensures HeldBy(t.arena[n].payload[k..], t.owner, Some(n)) && Once(t.arena[n].payload[k..], |t.owner|)
      ensures forall b | b in BidsIn(t.arena[n].payload[k..]) :: b in t.reg
    {
      var p := t.arena[n].payload[k..];
      forall i | 0 <= i < |p|
        ensures Distinct(p[i]) && (forall b | b in p[i] :: b < |t.owner| && b in t.reg && t.owner[b] == Some(n))
      {
        assert SlotOk(t, n, k + i);
      }
      forall i, j, b | 0 <= i < |p| && 0 <= j < |p| && b in p[i] && b in p[j]
        ensures i == j
      {
        OnePosition(t, b, n, k + i, n, k + j);
      }
    }

    // ---------- Removal ----------

    /** Forgets the given blocks. A position that loses its last bid takes everything below it along. */
    method Remove(bids: seq<Bid>)
      requires Valid() && InRange(bids, |owner|)
      modifies this
      ensures Valid() && |owner| == |old(owner)|
      ensures Contents() == Registry.Remove(old(Contents()), bids)
      ensures epoch == old(epoch) + 1
      ensures var removed := |old(Contents())| - |Contents()|;
              size == if removed <= old(size) then old(size) - removed else 0
    {
      hide Edges, Places, Bids, AllOlder, Registry.Remove;
      epoch := epoch + 1;
      var removed := RemoveInner(bids);
      size := if removed <= size then size - removed else 0;
    }

    method RemoveInner(bids: seq<Bid>) returns (removed: nat)
      requires Valid() && InRange(bids, |owner|)
      modifies this`arena, this`owner, this`nodes, this`t
      ensures Valid() && |owner| == |old(owner)|
      ensures t.reg == Registry.Remove(old(t.reg), bids)
      ensures removed == |old(t.reg)| - |t.reg|
    {
      removed := 0;
      var i := |bids|;
      assert bids[..i] == bids;
      while i > 0
        invariant Valid() && |owner| == |old(owner)| && i <= |bids|
        invariant Registry.Remove(t.reg, bids[..i]) == Registry.Remove(old(t.reg), bids)
        invariant removed == |old(t.reg)| - |t.reg|
      {
        i := i - 1;
        RemoveLast(t.reg, bids, i);
        var k := RemoveIfKnown(bids[i]);
        removed := removed + k;
      }
    }

    static lemma RemoveLast(m: Reg, bids: seq<Bid>, i: nat)
      requires i < |bids|
      ensures Registry.Remove(m, bids[..i + 1]) == Registry.Remove(RemoveOne(m, bids[i]), bids[..i])
    {
      assert bids[..i + 1][..i] == bids[..i];
    }

    method RemoveIfKnown(b: Bid) returns (removed: nat)
      requires Valid() && b < |owner|
      modifies this`arena, this`owner, this`nodes, this`t
      ensures Valid() && |owner| == |old(owner)|
      ensures t.reg == RemoveOne(old(t.reg), b)
      ensures removed == |old(t.reg)| - |t.reg|
    {
      OwnedIsRegistered(t, b);
      match owner[b]
      case None =>
        removed := 0;
      case Some(node) =>
        removed := RemoveBid(b, node);
    }

    /** Removes one registered bid from its node; returns how many registrations went. */
    method RemoveBid(b: Bid, node: NodeId) returns (removed: nat)
      requires Valid() && b < |owner| && owner[b] == Some(node) && b in t.reg
      modifies this`arena, this`owner, this`nodes, this`t
      ensures Valid() && |owner| == |old(owner)|
      ensures t.reg == RemoveOne(old(t.reg), b)
      ensures removed == |old(t.reg)| - |t.reg|
    {
      hide Edges, Places, Bids, RemoveOne;
      BidIsHeld(t, b, node);
      var nd := arena[node];
      var pos := 0;
      while b !in nd.payload[pos]
        invariant pos <= t.at[t.reg[b]].1
        decreases t.at[t.reg[b]].1 - pos
      {
        pos := pos + 1;
      }
      OnePosition(t, b, node, pos, node, t.at[t.reg[b]].1);
      var idx := 0;
      while nd.payload[pos][idx] != b
        invariant idx < |nd.payload[pos]| && b !in nd.payload[pos][..idx]
        decreases |nd.payload[pos]| - idx
      {
        idx := idx + 1;
      }
      var rest := nd.payload[pos][..idx] + nd.payload[pos][idx + 1..];
      RestOfHolders(t, node, pos, b, idx);
      if rest != [] {
        removed := 1;
        DropBid(b, node, pos, rest);
      } else {
        removed := CutAt(b, node, pos);
      }
    }

    /** Takes a bid out of the holders of its position, which keeps other holders. */
    method DropBid(b: Bid, node: NodeId, pos: nat, rest: seq<Bid>)
      requires Valid() && b in t.reg && CanDrop(t, node, pos, b, rest)
      requires exists c | c in t.reg :: c != b && t.reg[c] == t.reg[b]
      modifies this`arena, this`owner, this`t
      ensures Valid() && |owner| == |old(owner)|
      ensures t.reg == RemoveOne(old(t.reg), b) && |t.reg| == |old(t.reg)| - 1
      ensures nodes == |arena|
    {
      hide Edges, Places, Bids, RemoveOne, Distinct;
      var nd := arena[node];
      DropAliasInv(t, node, pos, b, rest);
      RemoveAlias(t.reg, b);
      arena := arena[node := nd.(payload := nd.payload[pos := rest])];
      owner := owner[b := None];
      t := DropAlias(t, node, pos, b, rest);
      assert old(arena).Keys - arena.Keys == {};
      ArenaShrunk(old(arena), nextId, arena);
      RegistryShrunk(old(t.reg), t.reg, {b});
    }

    static lemma RemoveAlias(m: Reg, b: Bid)
      requires b in m && exists c | c in m :: c != b && m[c] == m[b]
      ensures RemoveOne(m, b) == m - {b}
    {
    }

    static lemma BidIsHeld(t: Trie, b: Bid, node: NodeId)
      requires Inv(t) && b in t.reg && b < |t.owner| && t.owner[b] == Some(node)
      ensures t.reg[b] in t.at && t.at[t.reg[b]].0 == node && node in t.arena && node != ROOT
      ensures t.at[t.reg[b]].1 < |t.arena[node].payload| == |t.arena[node].value|
      ensures b in t.arena[node].payload[t.at[t.reg[b]].1]
      ensures t.reg[b] == Upto(t.start[node], t.arena[node].value, t.at[t.reg[b]].1)
    {
      assert BidOk(t, b) && PathOk(t, t.reg[b]);
      assert NodeOk(t, node);
    }

    /** Who else holds the position of b, and what that means for the registry. */
    static lemma RestOfHolders(t: Trie, node: NodeId, pos: nat, b: Bid, idx: nat)
      requires Inv(t) && node in t.arena && pos < |t.arena[node].payload| == |t.arena[node].value|
      requires idx < |t.arena[node].payload[pos]| && t.arena[node].payload[pos][idx] == b
      ensures var all := t.arena[node].payload[pos];
              var rest := all[..idx] + all[idx + 1..];
              && Distinct(rest) && (forall c :: c in rest <==> c in all && c != b)
              && b in t.reg && b < |t.owner| && t.owner[b] == Some(node)
              && t.reg[b] == Upto(t.start[node], t.arena[node].value, pos)
              && (rest != [] <==> exists c | c in t.reg :: c != b && t.reg[c] == t.reg[b])
    {
      var all := t.arena[node].payload[pos];
      var rest := all[..idx] + all[idx + 1..];
      assert SlotOk(t, node, pos) && PosOk(t, node, pos);
      WithoutOne(all, idx);
      if rest != [] {
        assert rest[0] in all && t.reg[rest[0]] == t.reg[b];
      }
      forall c | c in t.reg && c != b && t.reg[c] == t.reg[b]
        ensures c in rest
      {
        assert BidOk(t, c);
      }
    }

    static lemma RegistryShrunk(m: Reg, m': Reg, gone: set<Bid>)
      requires m'.Keys == m.Keys - gone && gone <= m.Keys
      ensures |m'| == |m| - |gone|
    {
      assert |m'| == |m'.Keys| && |m| == |m.Keys|;
    }

    /** Truncates a node at the position whose last bid is b and frees everything below it. */
    method CutAt(b: Bid, node: NodeId, pos: nat) returns (removed: nat)
      requires Valid() && node in arena && node != ROOT && pos < |arena[node].value| == |arena[node].payload|
      requires b in t.reg && t.reg[b] == Upto(t.start[node], arena[node].value, pos)
      requires forall c | c in t.reg && t.reg[c] == t.reg[b] :: c == b
      modifies this`arena, this`owner, this`nodes, this`t
      ensures Valid() && |owner| == |old(owner)|
      ensures t.reg == RemoveOne(old(t.reg), b)
      ensures removed == |old(t.reg)| - |t.reg|
    {
      ghost var ch;
      removed, ch := CutHeap(node, pos);
      t := CutFinish(t, node, pos, ch, arena, owner, removed, b);
    }

    /** The heap after a cut is the cut tree. */
    static lemma CutFinish(t: Trie, node: NodeId, pos: nat, ch: Children, arena: Arena, owner: Owners, removed: nat,
                           b: Bid)
      returns (t': Trie)
      requires Inv(t) && node in t.arena && node != ROOT && pos < |t.arena[node].value| == |t.arena[node].payload|
      requires CutDone(t, node, pos, ch, arena, owner, removed)
      requires b in t.reg && t.reg[b] == Upto(t.start[node], t.arena[node].value, pos)
      requires forall c | c in t.reg && t.reg[c] == t.reg[b] :: c == b
      ensures Inv(t') && t'.arena == arena && t'.owner == owner && |owner| == |t.owner|
      ensures t'.reg == RemoveOne(t.reg, b) && removed == |t.reg| - |t'.reg|
    {
      SubtreeSplit(t, node);
      CutOwners(t, node, pos, owner);
      CutInv(t, node, pos, ch, owner);
      CutArena(t, node, pos, ch, arena, owner);
      CutCount(t, node, pos, b);
      t' := Cut(t, node, pos, ch, owner);
    }

    /** The heap updates of a cut: the tail of the label, everything below it, the child container. */
    method CutHeap(node: NodeId, pos: nat) returns (removed: nat, ghost ch: Children)
      requires Valid() && node in arena && node != ROOT && pos < |arena[node].value| == |arena[node].payload|
      modifies this`arena, this`owner, this`nodes
      ensures CutDone(t, node, pos, ch, arena, owner, removed)
      ensures nodes == |arena| && AllOlder(arena, nextId)
    {
      hide Edges, Places, Bids, Subtrees, Cleared, CutDone;
      ghost var gone := Subtrees(t, t.arena[node].children.Ids());
      ghost var arena1, owner1, n0, n1;
      removed, arena1, owner1, n0, n1 := CutBelow(node, pos, gone);
      var empty := if arena[node].children.Large? then Large(map[]) else Small([]);
      ch := empty;
      CutHeapDone(t, node, pos, empty, gone, arena1, owner1, n0, arena, owner, n1);
      arena := arena[node := arena[node].(children := empty)];
      ArenaShrunk(t.arena, nextId, arena);
    }

    /** Releases the tail of a label and frees everything below it. */
    method CutBelow(node: NodeId, pos: nat, ghost gone: set<NodeId>)
      returns (removed: nat, ghost arena1: Arena, ghost owner1: Owners, ghost n0: nat, ghost n1: nat)
      requires Valid() && node in arena && node != ROOT && pos < |arena[node].value| == |arena[node].payload|
      requires gone == Subtrees(t, t.arena[node].children.Ids())
      modifies this`arena, this`owner, this`nodes
      ensures arena1 == t.arena[node := Node(t.arena[node].children, t.arena[node].value[..pos],
                                             t.arena[node].payload[..pos])]
      ensures owner1 == Without(t.owner, BidsIn(t.arena[node].payload[pos..]))
              && n0 == |BidsIn(t.arena[node].payload[pos..])|
      ensures Cleared(t, arena1, owner1, gone, arena, owner, n1) && removed == n0 + n1
      ensures node !in gone && node in arena && nodes == |arena|
    {
      var n := ReleaseTail(node, pos);
      TailReleased(t, node, pos, arena);
      arena1, owner1, n0 := arena, owner, n;
      var k := ClearAll(node, arena[node].children);
      n1 := k;
      removed := n + k;
    }

    static lemma TailReleased(t: Trie, node: NodeId, pos: nat, arena: Arena)
      requires Inv(t) && node in t.arena && node != ROOT && pos < |t.arena[node].value| == |t.arena[node].payload|
      requires arena == t.arena[node := Node(t.arena[node].children, t.arena[node].value[..pos],
                                             t.arena[node].payload[..pos])]
      ensures Untouched(t, arena, Subtrees(t, t.arena[node].children.Ids()))
      ensures node !in Subtrees(t, t.arena[node].children.Ids())
    {
      SubtreeSplit(t, node);
    }

    /** Replacing a node before or after others are freed comes to the same. */
    static lemma ReplaceNode(a: Arena, node: NodeId, x: Node, y: Node, gone: set<NodeId>, a2: Arena)
      requires node in a && node !in gone && a2 == a[node := x] - gone
      ensures node in a2 && a2[node] == x && a2[node := y] == (a - gone)[node := y]
      ensures a2[node := y].Keys <= a.Keys && |a2[node := y]| == |a2|
    {
      assert a2[node := y].Keys == a2.Keys;
      assert |a2[node := y]| == |a2[node := y].Keys| && |a2| == |a2.Keys|;
    }

    static lemma CutHeapDone(t: Trie, node: NodeId, pos: nat, ch: Children, gone: set<NodeId>,
                             arena1: Arena, owner1: Owners, n0: nat,
                             arena2: Arena, owner: Owners, n1: nat)
      requires Domains(t) && node in t.arena && pos < |t.arena[node].value| == |t.arena[node].payload| && ch.IsEmpty()
      requires gone == Subtrees(t, t.arena[node].children.Ids()) && node !in gone
      requires arena1 == t.arena[node := Node(t.arena[node].children, t.arena[node].value[..pos],
                                              t.arena[node].payload[..pos])]
      requires owner1 == Without(t.owner, BidsIn(t.arena[node].payload[pos..]))
               && n0 == |BidsIn(t.arena[node].payload[pos..])|
      requires Cleared(t, arena1, owner1, gone, arena2, owner, n1)
      ensures node in arena2
      ensures var arena := arena2[node := Node(ch, arena2[node].value, arena2[node].payload)];
              CutDone(t, node, pos, ch, arena, owner, n0 + n1) && arena.Keys <= t.arena.Keys && |arena| == |arena2|
    {
      var nd := t.arena[node];
      ReplaceNode(t.arena, node, Node(nd.children, nd.value[..pos], nd.payload[..pos]),
                  Node(ch, nd.value[..pos], nd.payload[..pos]), gone, arena2);
    }

    /** Drops label and payload of a node from position pos on. */
    method ReleaseTail(node: NodeId, pos: nat) returns (n: nat)
      requires Valid() && node in arena && pos < |arena[node].value| == |arena[node].payload|
      modifies this`arena, this`owner
      ensures arena == t.arena[node := Node(t.arena[node].children, t.arena[node].value[..pos],
                                            t.arena[node].payload[..pos])]
      ensures owner == Without(t.owner, BidsIn(t.arena[node].payload[pos..]))
              && n == |BidsIn(t.arena[node].payload[pos..])|
      ensures nodes == |arena|
    {
      PayloadOf(t, node, pos);
      var nd := arena[node];
      n := Release(nd.payload[pos..]);
      arena := arena[node := Node(nd.children, nd.value[..pos], nd.payload[..pos])];
      assert arena.Keys == t.arena.Keys;
      assert |arena| == |arena.Keys| && |t.arena| == |t.arena.Keys|;
    }

    /** Frees a node and everything below it; returns how many bids lost their node. */
    method ClearInner(c: NodeId) returns (n: nat)
      requires Inv(t) && c in t.arena && c != ROOT && Untouched(t, arena, Subtree(t, c))
      requires |owner| == |t.owner| && nodes == |arena|
      modifies this`arena, this`owner, this`nodes
      ensures Cleared(t, old(arena), old(owner), Subtree(t, c), arena, owner, n) && nodes == |arena|
      decreases |Subtree(t, c)|, 1
    {
      PlaceholderIsAlone(t, c);
      if arena[c].IsEmpty() {
        ClearedPlaceholder(t, c, arena, owner);
        Free(c);
        return 0;
      }
      n := ClearLabelled(c);
    }

    /** The same for a node with a label: its own bids first, then its children, then the node. */
    method ClearLabelled(c: NodeId) returns (n: nat)
      requires Domains(t) && Inv(t)
      requires c in t.arena && c != ROOT && t.arena[c].value != [] && Untouched(t, arena, Subtree(t, c))
      requires |owner| == |t.owner| && nodes == |arena|
      modifies this`arena, this`owner, this`nodes
      ensures Cleared(t, old(arena), old(owner), Subtree(t, c), arena, owner, n) && nodes == |arena|
      decreases |Subtree(t, c)|, 0
    {
      hide Inv, Subtree, Subtrees, Domains, BidsIn, Without;
      SubtreeSplit(t, c);
      var kids := arena[c].children;
      ghost var below := Subtrees(t, kids.Ids());
      n := ReleaseNode(c);
      ghost var arena1, owner1 := arena, owner;
      UntouchedBelow(t, old(arena), c, below, arena1);
      var k := ClearAll(c, kids);
      ghost var arena2 := arena;
      Free(c);
      ClearedParent(t, old(arena), old(owner), c, owner1, n, below, arena1, arena2, owner, k);
      n := n + k;
    }

    static lemma ClearedPlaceholder(t: Trie, c: NodeId, arena: Arena, owner: Owners)
      requires Inv(t) && c in t.arena && t.arena[c].payload == []
      ensures Cleared(t, arena, owner, {c}, arena - {c}, owner, 0)
    {
      BidsOfNode(t, c);
      assert Without(owner, {}) == owner;
    }

    static lemma UntouchedBelow(t: Trie, arena0: Arena, c: NodeId, below: set<NodeId>, arena1: Arena)
      requires Untouched(t, arena0, {c} + below) && c !in below && c in arena0
      requires c in arena1 && arena1 == arena0[c := arena1[c]]
      ensures Untouched(t, arena1, below)
    {
      forall m | m in below
        ensures m in arena1 && m in t.arena && arena1[m] == t.arena[m]
      {
        assert m in {c} + below;
      }
    }

    static lemma ClearedParent(t: Trie, arena0: Arena, owner0: Owners, c: NodeId, owner1: Owners, n: nat,
                               below: set<NodeId>, arena1: Arena, arena2: Arena, owner2: Owners, k: nat)
      requires c in arena0 && c in arena1 && arena1 == arena0[c := arena1[c]] && c !in below
      requires Cleared(t, arena0, owner0, {c}, arena0 - {c}, owner1, n)
      requires Cleared(t, arena1, owner1, below, arena2, owner2, k)
      ensures Cleared(t, arena0, owner0, {c} + below, arena2 - {c}, owner2, n + k)
    {
      assert arena2 - {c} == (arena0 - {c}) - below;
      ClearedMore(t, arena0, owner0, {c}, arena0 - {c}, owner1, n, below, arena2 - {c}, owner2, k);
    }

    /** Empties a node and clears its bids' owners. */
    method ReleaseNode(c: NodeId) returns (n: nat)
      requires Inv(t) && c in t.arena && c in arena && arena[c] == t.arena[c]
      requires |owner| == |t.owner| && nodes == |arena|
      modifies this`arena, this`owner
      ensures c in arena && arena == old(arena)[c := arena[c]] && nodes == |arena|
      ensures Cleared(t, old(arena), old(owner), {c}, old(arena) - {c}, owner, n)
    {
      BidsOfNode(t, c);
      PayloadOf(t, c, 0);
      var nd := arena[c];
      assert nd.payload[0..] == nd.payload;
      n := Release(nd.payload);
      arena := arena[c := Node(nd.children, [], [])];
      assert arena.Keys == old(arena).Keys;
      assert |arena| == |arena.Keys| && |old(arena)| == |old(arena).Keys|;
    }

    /** Frees all children in a container, in some order. */
    method ClearAll(p: NodeId, ch: Children) returns (n: nat)
      requires Inv(t) && p in t.arena && ch == t.arena[p].children && Untouched(t, arena, Subtrees(t, ch.Ids()))
      requires |owner| == |t.owner| && nodes == |arena|
      modifies this`arena, this`owner, this`nodes
      ensures Cleared(t, old(arena), old(owner), Subtrees(t, ch.Ids()), arena, owner, n) && nodes == |arena|
      decreases |Subtrees(t, ch.Ids())|, 3
    {
      hide Edges, Places, Bids, Cleared, Untouched, Subtrees;
      ghost var arena0, owner0 := arena, owner;
      var todo := ch.Ids();
      n := 0;
      ClearedAtStart(t, ch.Ids(), arena, owner);
      while todo != {}
        invariant todo <= ch.Ids() && nodes == |arena|
        invariant Cleared(t, arena0, owner0, Subtrees(t, ch.Ids() - todo), arena, owner, n)
        decreases todo
      {
        var c :| c in todo;
        n := ClearOne(p, c, n, todo, arena0, owner0);
        todo := todo - {c};
      }
      assert ch.Ids() - {} == ch.Ids();
    }

    static lemma ClearedAtStart(t: Trie, kids: set<NodeId>, arena: Arena, owner: Owners)
      requires Domains(t)
      ensures Cleared(t, arena, owner, Subtrees(t, kids - kids), arena, owner, 0)
    {
      assert Subtrees(t, kids - kids) == {};
      ClearedNothing(t, arena, owner);
    }

    /** Frees child c of p, one of those still to do. */
    method ClearOne(p: NodeId, c: NodeId, n: nat, ghost todo: set<NodeId>, ghost arena0: Arena,
                    ghost owner0: Owners)
      returns (n': nat)
      requires Inv(t) && p in t.arena && c in todo && todo <= t.arena[p].children.Ids()
      requires Untouched(t, arena0, Subtrees(t, t.arena[p].children.Ids())) && |owner0| == |t.owner| && nodes == |arena|
      requires Cleared(t, arena0, owner0, Subtrees(t, t.arena[p].children.Ids() - todo), arena, owner, n)
      modifies this`arena, this`owner, this`nodes
      ensures Cleared(t, arena0, owner0, Subtrees(t, t.arena[p].children.Ids() - (todo - {c})), arena, owner, n')
              && nodes == |arena|
      decreases |Subtrees(t, t.arena[p].children.Ids())|, 2
    {
      BeforeChild(t, p, c, todo, arena0, owner0, arena, owner, n);
      ghost var arena1, owner1 := arena, owner;
      var k := ClearInner(c);
      AfterChild(t, p, c, todo, arena0, owner0, arena1, owner1, n, arena, owner, k);
      n' := n + k;
    }

    static lemma BeforeChild(t: Trie, p: NodeId, c: NodeId, todo: set<NodeId>, arena0: Arena, owner0: Owners,
                             arena: Arena, owner: Owners, n: nat)
      requires Inv(t) && p in t.arena && c in todo && todo <= t.arena[p].children.Ids()
      requires Untouched(t, arena0, Subtrees(t, t.arena[p].children.Ids())) && |owner0| == |t.owner|
      requires Cleared(t, arena0, owner0, Subtrees(t, t.arena[p].children.Ids() - todo), arena, owner, n)
      ensures c in t.arena && c != ROOT && Untouched(t, arena, Subtree(t, c)) && |owner| == |t.owner|
      ensures |Subtree(t, c)| <= |Subtrees(t, t.arena[p].children.Ids())|
    {
      var kids := t.arena[p].children.Ids();
      assert DownOk(t, p, c);
      OneMoreChild(t, p, kids - todo, c);
      UntouchedAfter(t, arena0, owner0, Subtrees(t, kids - todo), arena, owner, n, Subtrees(t, kids), Subtree(t, c));
    }

    static lemma AfterChild(t: Trie, p: NodeId, c: NodeId, todo: set<NodeId>, arena0: Arena, owner0: Owners,
                            arena1: Arena, owner1: Owners, n: nat, arena: Arena, owner: Owners, k: nat)
      requires Inv(t) && p in t.arena && c in todo && todo <= t.arena[p].children.Ids() && c in t.arena
      requires Cleared(t, arena0, owner0, Subtrees(t, t.arena[p].children.Ids() - todo), arena1, owner1, n)
      requires Cleared(t, arena1, owner1, Subtree(t, c), arena, owner, k)
      ensures Cleared(t, arena0, owner0, Subtrees(t, t.arena[p].children.Ids() - (todo - {c})), arena, owner, n + k)
    {
      var done := t.arena[p].children.Ids() - todo;
      OneMoreChild(t, p, done, c);
      assert done + {c} == t.arena[p].children.Ids() - (todo - {c});
      ClearedMore(t, arena0, owner0, Subtrees(t, done), arena1, owner1, n, Subtree(t, c), arena, owner, k);
    }

    /** Returns one node's memory. */
    method Free(c: NodeId)
      requires c in arena && nodes == |arena|
      modifies this`arena, this`nodes
      ensures arena == old(arena) - {c} && nodes == |arena|
    {
      arena := arena - {c};
      nodes := nodes - 1;
      assert old(arena).Keys == arena.Keys + {c};
      assert |arena| == |arena.Keys| && |old(arena)| == |old(arena).Keys|;
    }

    // ---------- What clearing and cutting amount to ----------

    static lemma BidsOfNode(t: Trie, c: NodeId)
      requires Inv(t) && c in t.arena
      ensures BidsOf(t, {c}) == BidsIn(t.arena[c].payload)
    {
      forall b | b in BidsOf(t, {c})
        ensures b in BidsIn(t.arena[c].payload)
      {
        assert BidOk(t, b);
      }
      forall b | b in BidsIn(t.arena[c].payload)
        ensures b in BidsOf(t, {c})
      {
        var i :| 0 <= i < |t.arena[c].payload| && b in t.arena[c].payload[i];
        assert SlotOk(t, c, i);
      }
    }

    static lemma SubsetSize(A: set<NodeId>, B: set<NodeId>)
      requires A <= B
      ensures |A| <= |B|
    {
      assert B == A + (B - A);
    }

    static lemma OneMoreChild(t: Trie, p: NodeId, done: set<NodeId>, c: NodeId)
      requires Inv(t) && p in t.arena && c in t.arena[p].children.Ids() && c in t.arena && c !in done
      requires done <= t.arena[p].children.Ids()
      ensures Subtrees(t, done + {c}) == Subtrees(t, done) + Subtree(t, c)
      ensures Subtrees(t, done) !! Subtree(t, c)
      ensures Subtree(t, c) <= Subtrees(t, t.arena[p].children.Ids())
      ensures |Subtree(t, c)| <= |Subtrees(t, t.arena[p].children.Ids())|
    {
      SubsetSize(Subtree(t, c), Subtrees(t, t.arena[p].children.Ids()));
      forall m | m in Subtrees(t, done) && m in Subtree(t, c)
        ensures false
      {
        var d :| d in done && d in t.arena && Below(t, d, m);
        SiblingsApart(t, p, c, d, m);
      }
    }

    static lemma CutOwners(t: Trie, node: NodeId, pos: nat, owner: Owners)
      requires Inv(t) && node in t.arena && node != ROOT && pos < |t.arena[node].value| == |t.arena[node].payload|
      requires owner == Without(Without(t.owner, BidsIn(t.arena[node].payload[pos..])),
                                BidsOf(t, Subtrees(t, t.arena[node].children.Ids())))
      ensures |owner| == |t.owner|
      ensures forall b | 0 <= b < |owner| ::
                owner[b] ==
                if b in t.reg && Upto(t.start[node], t.arena[node].value, pos) <= t.reg[b] then None else t.owner[b]
    {
      PayloadOf(t, node, pos);
      forall b | 0 <= b < |owner|
        ensures owner[b] ==
                if b in t.reg && Upto(t.start[node], t.arena[node].value, pos) <= t.reg[b] then None else t.owner[b]
      {
        if b in t.reg { CutBid(t, node, pos, b); }
      }
    }

    static lemma CutBid(t: Trie, node: NodeId, pos: nat, b: Bid)
      requires Inv(t) && node in t.arena && node != ROOT && pos < |t.arena[node].value| == |t.arena[node].payload|
      requires b in t.reg
      ensures Upto(t.start[node], t.arena[node].value, pos) <= t.reg[b] <==>
              b in BidsIn(t.arena[node].payload[pos..]) || b in BidsOf(t, Subtrees(t, t.arena[node].children.Ids()))
    {
      CutRegistry(t, node, pos, b);
      var p := t.arena[node].payload;
      if i :| pos <= i < |p| && b in p[i] {
        assert p[pos..][i - pos] == p[i];
      }
    }

    static lemma CutArena(t: Trie, node: NodeId, pos: nat, ch: Children, arena: Arena, owner: Owners)
      requires Inv(t) && node in t.arena && node != ROOT && pos < |t.arena[node].value| == |t.arena[node].payload|
      requires node !in Subtrees(t, t.arena[node].children.Ids())
      requires arena == (t.arena - Subtrees(t, t.arena[node].children.Ids()))
                        [node := Node(ch, t.arena[node].value[..pos], t.arena[node].payload[..pos])]
      ensures arena == Cut(t, node, pos, ch, owner).arena
    {
      FreedByCut(t, node, pos);
      assert arena.Keys == Cut(t, node, pos, ch, owner).arena.Keys;
    }

    static lemma CutCount(t: Trie, node: NodeId, pos: nat, b: Bid)
      requires Inv(t) && node in t.arena && node != ROOT && pos < |t.arena[node].value| == |t.arena[node].payload|
      requires b in t.reg && t.reg[b] == Upto(t.start[node], t.arena[node].value, pos)
      requires forall c | c in t.reg && t.reg[c] == t.reg[b] :: c == b
      ensures |RemoveOne(t.reg, b)| ==
              |t.reg| - |BidsIn(t.arena[node].payload[pos..])| - |BidsOf(t, Subtrees(t, t.arena[node].children.Ids()))|
      ensures RemoveOne(t.reg, b) ==
              map c | c in t.reg && !(Upto(t.start[node], t.arena[node].value, pos) <= t.reg[c]) :: t.reg[c]
    {
      var A, B := BidsIn(t.arena[node].payload[pos..]), BidsOf(t, Subtrees(t, t.arena[node].children.Ids()));
      forall c
        ensures c in A + B <==> c in t.reg && t.reg[b] <= t.reg[c]
      {
        PayloadOf(t, node, pos);
        if c in t.reg { CutBid(t, node, pos, c); }
      }
      assert A !! B by {
        SubtreeSplit(t, node);
        PayloadOf(t, node, pos);
        assert forall c | c in A :: t.owner[c] == Some(node);
      }
      RemoveOneCut(t.reg, b, A + B);
    }

    /** Clears the owners of the bids of a payload; returns their number. */
    method Release(payload: seq<seq<Bid>>) returns (n: nat)
      requires Once(payload, |owner|)
      modifies this`owner
      ensures owner == Without(old(owner), BidsIn(payload)) && n == |BidsIn(payload)|
    {
      n := 0;
      assert BidsIn(payload[..0]) == {};
      assert owner == Without(owner, {});
      for i := 0 to |payload|
        invariant owner == Without(old(owner), BidsIn(payload[..i])) && n == |BidsIn(payload[..i])|
      {
        ghost var done, before := BidsIn(payload[..i]), owner;
        assert forall b | b in payload[i] :: b < |owner|;
        var k := ReleaseSlot(payload[i]);
        n := n + k;
        OneMoreSlot(payload, i, |owner|);
        assert Without(Without(old(owner), done), set b | b in payload[i]) ==
               Without(old(owner), BidsIn(payload[..i + 1]));
      }
      assert payload[..|payload|] == payload;
    }

    /** Clears the owners of the bids at one position. */
    method ReleaseSlot(slot: seq<Bid>) returns (n: nat)
      requires Distinct(slot) && (forall b | b in slot :: b < |owner|)
      modifies this`owner
      ensures owner == Without(old(owner), set b | b in slot) && n == |set b | b in slot|
    {
      n := 0;
      for j := 0 to |slot|
        invariant n == j && owner == Without(old(owner), set b | b in slot[..j])
      {
        assert slot[..j + 1] == slot[..j] + [slot[j]];
        assert slot[j] in slot;
        owner := owner[slot[j] := None];
        n := n + 1;
      }
      assert slot[..|slot|] == slot;
      DistinctCount(slot);
      assert BidSet(slot) == set b | b in slot;
    }

    static lemma InFirst(payload: seq<seq<Bid>>, i: nat, b: Bid)
      requires i <= |payload|
      ensures b in BidsIn(payload[..i]) <==> exists k | 0 <= k < i :: b in payload[k]
    {
      if k :| 0 <= k < i && b in payload[k] {
        assert payload[..i][k] == payload[k];
      }
    }

    static lemma OneMoreSlot(payload: seq<seq<Bid>>, i: nat, n: nat)
      requires i < |payload| && Once(payload, n)
      ensures BidsIn(payload[..i + 1]) == BidsIn(payload[..i]) + (set b | b in payload[i])
      ensures |BidsIn(payload[..i + 1])| == |BidsIn(payload[..i])| + |set b | b in payload[i]|
    {
      var slot := set b | b in payload[i];
      forall b
        ensures b in BidsIn(payload[..i + 1]) <==> b in BidsIn(payload[..i]) + slot
        ensures !(b in BidsIn(payload[..i]) && b in slot)
      {
        InFirst(payload, i, b);
        InFirst(payload, i + 1, b);
      }
      assert BidsIn(payload[..i]) !! slot;
      assert BidsIn(payload[..i + 1]) == BidsIn(payload[..i]) + slot;
      assert slot == set b | b in payload[i];
    }
  }

  /** A run that breaks the tree: block 7 caches the first hash of a request and is then supplied again for
      two blocks. The second insertion meets none of its assertions and leaves a heap that fits no tree. */
  method RepeatReached() returns (ok: bool, arena: Arena)
    ensures ok && FitsNoTrie(arena)
  {
    hide Edges, Places, Bids, LeafTakes, InsertOk, Insert, FitsNoTrie;
    var tree := new RadixTreeBlockHash(8);
    FirstInsertion();
    var n, first := tree.Insert([1], [7]);
    LoneLeaf(tree.t);
    n, ok := tree.Insert([1, 2], [7, 7]);
    arena := tree.arena;
  }

  lemma FirstInsertion()
    ensures var m: Reg := map[];
            InsertOk(m, [1], [7]) && Insert(m, [1], [7]) == map[7 := [1]] && Match(m.Values, [1]) == 0
  {
    RegisterStep(map[], [1], [7], 0);
    assert [1][..1] == [1];
  }

  /** A tree of two nodes with one registration at [1] holds it in a leaf, which takes a repeated bid. */
  lemma LoneLeaf(t: Trie)
    requires Inv(t) && t.reg == map[7 := [1]] && |t.arena| <= 2
    ensures Match(t.reg.Values, [1, 2]) == 1 && !InsertOk(t.reg, [1, 2], [7, 7])
    ensures LeafTakes(t, [1, 2], [7, 7])
  {
    hide Inv;
    var g := LeafOfOne(t, 7, 1);
    assert [1, 2][..1] == [1] && [1, 2][..2] == [1, 2];
    assert t.reg[7] == [1] && t.reg.Values == {[1]};
    MatchUnique(t.reg.Values, [1, 2], 1);
    RegisterStep(t.reg, [1, 2], [7, 7], 0);
    assert Register(t.reg, [1, 2], [7, 7], 1) == t.reg;
    ClosesReady(t, g, 2);
    assert [7, 7][1] in t.reg;
  }

  /** A lone registration at a path of one element sits in a leaf, if the tree has two nodes. */
  lemma LeafOfOne(t: Trie, b: Bid, h: Hash) returns (g: NodeId)
    requires Inv(t) && t.reg == map[b := [h]] && |t.arena| <= 2
    ensures g in t.arena && t.arena[g].value == [h] && t.arena[g].children.IsEmpty()
    ensures [h] in t.at && t.at[[h]] == (g, 0)
  {
    hide Edges, Places, Bids;
    PathsAreRegistered(t);
    AtBid(t, b);
    g := t.at[[h]].0;
    var v := t.arena[g].value;
    RootIsEmpty(t);
    assert t.start[g] == [] && v[..1] == [h];
    FullIsLocated(t, g);
    assert Full(t, g) == v && v in t.at.Keys;
    var others := t.arena.Keys - {ROOT, g};
    assert |others| == |t.arena.Keys| - |{ROOT, g}|;
    forall c | c in t.arena[g].children.Ids()
      ensures c in others
    {
      KidOf(t, g, c);
    }
    EmptyKids(t.arena[g].children);
  }

  lemma EmptyKids(ch: Children)
    ensures ch.IsEmpty() <==> ch.Ids() == {}
  {
    if !ch.IsEmpty() {
      match ch
      case Small(v) => assert v[0] in ch.Ids();
      case Large(m) =>
        var k :| k in m;
        assert m[k] in ch.Ids();
    }
  }
}
