/** Which nodes, bids and registry entries an operation reaches. */
module TrieRegions {
  import opened Registry
  import opened TrieStore
  import opened TrieSteps

  // ---------- Matching ----------

  /** A query that is live up to m and not beyond matches at m. */
  lemma MatchAt(t: Trie, q: Path, m: nat)
    requires Inv(t) && m <= |q|
    requires m == 0 || q[..m] in t.at
    requires m == |q| || q[..m + 1] !in t.at
    ensures Match(t.reg.Values, q) == m
  {
    PathsAreRegistered(t);
    forall j | m < j <= |q|
      ensures q[..j] !in t.reg.Values
    {
      MatchIsThreshold(t.reg.Values, q, j);
      MatchIsThreshold(t.reg.Values, q, m + 1);
    }
    MatchUnique(t.reg.Values, q, m);
  }

  /** A live path that continues from inside a label continues along the label. */
  lemma NextWithin(t: Trie, n: NodeId, i: nat, q: Path)
    requires Inv(t) && n in t.arena && 0 < i < |t.arena[n].value|
    requires q in t.at && |q| > 0 && q[..|q| - 1] == Upto(t.start[n], t.arena[n].value, i - 1)
    ensures q[|q| - 1] == t.arena[n].value[i]
  {
    assert PathOk(t, q) && PosOk(t, n, i - 1);
    var (m, j) := t.at[q];
    var s, v := t.start[m], t.arena[m].value;
    assert q == s + v[..j + 1];
    if j > 0 {
      assert PosOk(t, m, j - 1);
      assert q[..|q| - 1] == s + v[..j];
      assert v[..j] == v[..(j - 1) + 1];
    } else {
      assert q[..|q| - 1] == s;
      RootIsEmpty(t);
      assert NodeOk(t, m);
      ParentIsLive(t, m);
      FullIsLocated(t, t.parent[m]);
    }
  }

  /** The children of n can take a new child whose label starts with h. */
  ghost predicate Ready(t: Trie, n: NodeId, h: Hash)
    requires n in t.arena
  {
    match t.arena[n].children
    case Small(v) => forall c | c in v :: c in t.arena && t.arena[c].value != [] && t.arena[c].value[0] != h
    case Large(m) => h !in m
  }

  lemma ReadyIsAbsent(t: Trie, n: NodeId, h: Hash)
    requires Inv(t) && Live(t, n) && Ready(t, n, h)
    ensures Full(t, n) + [h] !in t.at
  {
    var q := Full(t, n) + [h];
    assert q[..|q| - 1] == Full(t, n);
    assert NodeOk(t, n);
    if q in t.at {
      Descend(t, n, q);
      assert false;
    }
  }

  // ---------- Registration ----------

  /** Under `InsertOk` the part of the key beyond its match is attached as fresh registrations. */
  lemma RegisterTail(m: Reg, key: Path, bids: seq<Bid>, r: nat)
    requires InsertOk(m, key, bids) && r == Match(m.Values, key)
    ensures Attaches(Register(m, key, bids, r), key[..r], key[r..], bids[r..], Insert(m, key, bids))
  {
    hide Register;
    RegisterGrow(m, key, bids, r, |key|);
    assert bids[r..|key|] == bids[r..];
    RegisterTailPaths(m, key, bids, r);
  }

  /** Once the matched part of the key is registered, `InsertOk` is what the rest still asks for. */
  lemma TailIsOk(m: Reg, key: Path, bids: seq<Bid>, r: nat)
    requires |key| == |bids| && r == Match(m.Values, key)
    ensures InsertOk(m, key, bids) <==>
            Distinct(bids[r..]) && (forall i | 0 <= i < |bids[r..]| :: bids[r..][i] !in Register(m, key, bids, r))
  {
    var m1, rest := Register(m, key, bids, r), bids[r..];
    RegisterKeeps(m, key, bids, r);
    assert forall i | 0 <= i < |rest| :: rest[i] == bids[r + i];
    assert forall i | r <= i < |bids| :: bids[i] == rest[i - r];
  }

  lemma RegisterTailPaths(m: Reg, key: Path, bids: seq<Bid>, r: nat)
    requires InsertOk(m, key, bids) && r == Match(m.Values, key)
    ensures forall i | 0 <= i < |bids[r..]| ::
              bids[r..][i] in Insert(m, key, bids) && Insert(m, key, bids)[bids[r..][i]] == Upto(key[..r], key[r..], i)
  {
    hide Insert, Upto;
    OkIsNew(m, key, bids);
    InsertEffect(m, key, bids);
    forall i | 0 <= i < |bids[r..]|
      ensures Insert(m, key, bids)[bids[r..][i]] == Upto(key[..r], key[r..], i)
    {
      assert NewAt(m, bids, r + i);
      UptoTail(key, r, i);
    }
  }

  lemma UptoTail(key: Path, r: nat, i: nat)
    requires r + i < |key|
    ensures Upto(key[..r], key[r..], i) == key[..r + i + 1]
  {
    assert key[..r] + key[r..][..i + 1] == key[..r + i + 1];
  }

  lemma {:induction false} RegisterGrow(m: Reg, key: Path, bids: seq<Bid>, r: nat, k: nat)
    requires r <= k <= |key| == |bids|
    ensures var a, z := Register(m, key, bids, r), Register(m, key, bids, k);
            && (forall b | b in a :: b in z && z[b] == a[b])
            && z.Keys == a.Keys + (set b | b in bids[r..k])
  {
    if r < k {
      RegisterGrow(m, key, bids, r, k - 1);
      assert bids[r..k] == bids[r..k - 1] + [bids[k - 1]];
    }
  }

  // ---------- Subtrees ----------

  /** m is c or lies below it. */
  ghost predicate Below(t: Trie, c: NodeId, m: NodeId)
    requires Domains(t) && c in t.arena && m in t.arena
  {
    m == c || (t.arena[c].value != [] && Full(t, c) <= t.start[m])
  }

  ghost function Subtree(t: Trie, c: NodeId): set<NodeId>
    requires Domains(t) && c in t.arena
  {
    set m | m in t.arena && Below(t, c, m)
  }

  ghost function Subtrees(t: Trie, cs: set<NodeId>): set<NodeId>
    requires Domains(t)
  {
    set m, c | c in cs && c in t.arena && m in t.arena && Below(t, c, m) :: m
  }

  ghost function BidsOf(t: Trie, ns: set<NodeId>): set<Bid> {
    set b | b in t.reg && b < |t.owner| && t.owner[b].Some? && t.owner[b].value in ns
  }

  /** A node that starts at or below the end of n lies below one of n's children. */
  lemma {:induction false} BelowChild(t: Trie, n: NodeId, m: NodeId) returns (c: NodeId)
    requires Inv(t) && n in t.arena && t.arena[n].value != [] && m in t.arena && Full(t, n) <= t.start[m]
    ensures c in t.arena[n].children.Ids() && c in t.arena && Below(t, c, m)
    decreases |t.start[m]|
  {
    FullIsLocated(t, n);
    RootIsEmpty(t);
    assert NodeOk(t, m) && NodeOk(t, ROOT);
    assert m != ROOT;
    ParentIsLive(t, m);
    var p := t.parent[m];
    FullIsLocated(t, p);
    if p == n {
      c := m;
    } else {
      var v := t.arena[p].value;
      if !(Full(t, n) <= t.start[p]) {
        assert v[..|v|] == v;
        OutsideCut(t, n, |t.arena[n].value| - 1, p, |v| - 1) by {
          assert t.arena[n].value[..|t.arena[n].value|] == t.arena[n].value;
        }
        assert false;
      }
      c := BelowChild(t, n, p);
      assert Full(t, p)[..|t.start[p]|] == t.start[p];
    }
  }

  lemma SubtreeSplit(t: Trie, c: NodeId)
    requires Inv(t) && c in t.arena && c != ROOT && t.arena[c].value != []
    ensures Subtree(t, c) == {c} + Subtrees(t, t.arena[c].children.Ids())
    ensures c !in Subtrees(t, t.arena[c].children.Ids())
    ensures |Subtree(t, c)| == 1 + |Subtrees(t, t.arena[c].children.Ids())|
  {
    var kids := t.arena[c].children.Ids();
    forall m | m in Subtree(t, c) && m != c
      ensures m in Subtrees(t, kids)
    {
      var d := BelowChild(t, c, m);
    }
    forall m | m in Subtrees(t, kids)
      ensures m in Subtree(t, c) && m != c
    {
      var d :| d in kids && d in t.arena && Below(t, d, m);
      assert DownOk(t, c, d);
      assert Full(t, d)[..|t.start[d]|] == t.start[d];
    }
  }

  /** A node without a label is an empty placeholder. */
  lemma PlaceholderIsAlone(t: Trie, c: NodeId)
    requires Inv(t) && c in t.arena && c != ROOT
    ensures c in Subtree(t, c)
    ensures t.arena[c].IsEmpty() <==> t.arena[c].value == []
    ensures t.arena[c].value == [] ==> Subtree(t, c) == {c}
    ensures |t.arena[c].payload| == |t.arena[c].value|
  {
    assert NodeOk(t, c);
  }

  lemma SiblingsApart(t: Trie, n: NodeId, c: NodeId, d: NodeId, m: NodeId)
    requires Inv(t) && n in t.arena && c in t.arena[n].children.Ids() && d in t.arena[n].children.Ids()
    requires c in t.arena && d in t.arena && m in t.arena && Below(t, c, m) && Below(t, d, m)
    ensures c == d
  {
    assert DownOk(t, n, c) && DownOk(t, n, d);
    if c != d {
      var k := |Full(t, n)|;
      assert t.arena[c].value != [] ==> Full(t, c)[k] == t.arena[c].value[0];
      assert t.arena[d].value != [] ==> Full(t, d)[k] == t.arena[d].value[0];
      if m != c && m != d { SiblingsDiffer(t, n, c, d); }
      assert false;
    }
  }

  /** What a cut at position k of n frees: exactly the subtrees of n's children. */
  lemma FreedByCut(t: Trie, n: NodeId, k: nat)
    requires Inv(t) && n in t.arena && n != ROOT && k < |t.arena[n].value|
    ensures forall m | m in t.arena ::
              Upto(t.start[n], t.arena[n].value, k) <= t.start[m] <==> m in Subtrees(t, t.arena[n].children.Ids())
  {
    var v := t.arena[n].value;
    var p := Upto(t.start[n], v, k);
    assert p <= Full(t, n) by { assert Full(t, n)[..|p|] == p; }
    SubtreeSplit(t, n);
    forall m | m in t.arena && p <= t.start[m]
      ensures m in Subtrees(t, t.arena[n].children.Ids())
    {
      CutReaches(t, n, k, m);
    }
  }

  lemma {:induction false} CutReaches(t: Trie, n: NodeId, k: nat, m: NodeId)
    requires Inv(t) && n in t.arena && n != ROOT && k < |t.arena[n].value| && m in t.arena
    requires Upto(t.start[n], t.arena[n].value, k) <= t.start[m]
    ensures Full(t, n) <= t.start[m] && m != n
    decreases |t.start[m]|
  {
    assert NodeOk(t, ROOT) && NodeOk(t, m);
    RootIsEmpty(t);
    ParentIsLive(t, m);
    var p := t.parent[m];
    FullIsLocated(t, p);
    var v := t.arena[p].value;
    if Upto(t.start[n], t.arena[n].value, k) <= t.start[p] {
      CutReaches(t, n, k, p);
      assert t.start[p] <= Full(t, p);
    } else {
      assert v[..|v|] == v;
      OutsideCut(t, n, k, p, |v| - 1);
    }
  }

  /** What a cut at position k of n unregisters: the bids of n from position k on and those below n. */
  lemma CutRegistry(t: Trie, n: NodeId, k: nat, b: Bid)
    requires Inv(t) && n in t.arena && n != ROOT && k < |t.arena[n].value| && b in t.reg
    ensures Upto(t.start[n], t.arena[n].value, k) <= t.reg[b] <==>
            b in BidsOf(t, Subtrees(t, t.arena[n].children.Ids())) ||
            (exists i | k <= i < |t.arena[n].payload| :: b in t.arena[n].payload[i])
  {
    assert BidOk(t, b) && PathOk(t, t.reg[b]);
    var (m, i) := t.at[t.reg[b]];
    assert NodeOk(t, m) && NodeOk(t, n);
    var p := Upto(t.start[n], t.arena[n].value, k);
    UptoMonotone(t.start[n], t.arena[n].value);
    FreedByCut(t, n, k);
    assert t.start[m] <= t.reg[b];
    if p <= t.reg[b] && !(p <= t.start[m]) {
      OutsideCut(t, n, k, m, i);
    }
    if j: nat :| k <= j < |t.arena[n].payload| && b in t.arena[n].payload[j] {
      OnePosition(t, b, m, i, n, j);
    }
  }
}
