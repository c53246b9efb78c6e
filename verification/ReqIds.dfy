/** Which requests claim which hash paths, as the simulator's per-request trie records it.

    A trie node is named by its root path; its owners are the requests whose claim passes through
    it. Beside the trie an index maps each hash to the requests whose claim contains it.
  */
module ReqIds {
  import opened Basics
  import opened Prefixes
  import opened Registry

  datatype Tree = Tree(nodes: map<Path, set<Rid>>, index: map<Hash, set<Rid>>)

  ghost predicate Rooted(t: Tree) {
    PrefixClosed(t.nodes.Keys) && [] !in t.nodes
  }

  // ---------- Operations ----------

  /** The nodes a claim of p passes through. */
  function Along(p: Path): (r: set<Path>)
    ensures forall q :: q in r <==> q != [] && q <= p
  {
    assert forall q: Path | q != [] && q <= p :: q == p[..|q|];
    set k | 0 < k <= |p| :: p[..k]
  }

  function Hashes(p: Path): set<Hash> {
    set h | h in p
  }

  function Owners<K>(m: map<K, set<Rid>>, k: K): set<Rid> {
    if k in m then m[k] else {}
  }

  function ClaimNodes(nodes: map<Path, set<Rid>>, p: Path, r: Rid): map<Path, set<Rid>> {
    map q | q in nodes.Keys + Along(p) :: Owners(nodes, q) + if q in Along(p) then {r} else {}
  }

  function ClaimIndex(index: map<Hash, set<Rid>>, p: Path, r: Rid): map<Hash, set<Rid>> {
    map h | h in index.Keys + Hashes(p) :: Owners(index, h) + if h in p then {r} else {}
  }

  /** Request r claims every node along p and every hash of p. */
  function Claim(t: Tree, p: Path, r: Rid): Tree {
    Tree(ClaimNodes(t.nodes, p, r), ClaimIndex(t.index, p, r))
  }

  /** Request r leaves the nodes along p. */
  function Strip(nodes: map<Path, set<Rid>>, p: Path, r: Rid): map<Path, set<Rid>> {
    map q | q in nodes :: if q in Along(p) then nodes[q] - {r} else nodes[q]
  }

  /** At q and below there are only nodes along p that nobody owns. */
  ghost predicate Dead(nodes: map<Path, set<Rid>>, p: Path, q: Path) {
    forall x | x in nodes && q <= x :: x in Along(p) && nodes[x] == {}
  }

  ghost function Prune(nodes: map<Path, set<Rid>>, p: Path): map<Path, set<Rid>> {
    map q | q in nodes && !(q in Along(p) && Dead(nodes, p, q)) :: nodes[q]
  }

  function Unlist(index: map<Hash, set<Rid>>, p: Path, r: Rid): map<Hash, set<Rid>> {
    map h | h in index && !(h in p && index[h] - {r} == {}) :: if h in p then index[h] - {r} else index[h]
  }

  /** Request r gives up its claim of p; what nobody claims any more disappears. */
  ghost function Release(t: Tree, p: Path, r: Rid): Tree {
    Tree(Prune(Strip(t.nodes, p, r), p), Unlist(t.index, p, r))
  }

  /** A first-level node goes with everything below it, together with its hash's index entry. */
  function Evict(t: Tree, h: Hash): Tree {
    if [h] in t.nodes
    then Tree(map q | q in t.nodes && !([h] <= q) :: t.nodes[q], t.index - {h})
    else t
  }

  // ---------- Without evictions: exactly the claims ----------

  type Claims = map<Rid, Path>

  ghost function Claimants(c: Claims, q: Path): set<Rid> {
    set r | r in c && q in Along(c[r])
  }

  ghost function Containing(c: Claims, h: Hash): set<Rid> {
    set r | r in c && h in c[r]
  }

  ghost predicate NodeExact(t: Tree, c: Claims, q: Path) {
    && (q in t.nodes <==> Claimants(c, q) != {})
    && (q in t.nodes ==> t.nodes[q] == Claimants(c, q))
  }

  ghost predicate HashExact(t: Tree, c: Claims, h: Hash) {
    && (h in t.index <==> Containing(c, h) != {})
    && (h in t.index ==> t.index[h] == Containing(c, h))
  }

  /** The tree holds the claims and nothing else. */
  ghost predicate Exact(t: Tree, c: Claims) {
    && (forall q {:trigger NodeExact(t, c, q)} :: NodeExact(t, c, q))
    && (forall h {:trigger HashExact(t, c, h)} :: HashExact(t, c, h))
  }

  lemma ExactClaim(t: Tree, c: Claims, p: Path, r: Rid)
    requires Exact(t, c) && r !in c
    ensures Exact(Claim(t, p, r), c[r := p])
  {
    hide Claim, NodeExact, HashExact;
    var t', c' := Claim(t, p, r), c[r := p];
    forall q
      ensures NodeExact(t', c', q)
    {
      assert NodeExact(t, c, q);
      NodeClaimed(t, c, p, r, q);
    }
    forall h
      ensures HashExact(t', c', h)
    {
      assert HashExact(t, c, h);
      HashClaimed(t, c, p, r, h);
    }
  }

  lemma NodeClaimed(t: Tree, c: Claims, p: Path, r: Rid, q: Path)
    requires NodeExact(t, c, q) && r !in c
    ensures NodeExact(Claim(t, p, r), c[r := p], q)
  {
    assert Claimants(c[r := p], q) == Claimants(c, q) + if q in Along(p) then {r} else {};
  }

  lemma HashClaimed(t: Tree, c: Claims, p: Path, r: Rid, h: Hash)
    requires HashExact(t, c, h) && r !in c
    ensures HashExact(Claim(t, p, r), c[r := p], h)
  {
    assert Containing(c[r := p], h) == Containing(c, h) + if h in p then {r} else {};
  }

  lemma PrefixOfPrefix(p: Path, q: Path, x: Path)
    requires x in Along(p) && q <= x && q != []
    ensures q in Along(p)
  {
    assert q == p[..|q|];
  }

  lemma ExactRelease(t: Tree, c: Claims, r: Rid)
    requires Exact(t, c) && r in c
    ensures Exact(Release(t, c[r], r), c - {r})
  {
    var p, c' := c[r], c - {r};
    var t' := Release(t, p, r);
    var s := Strip(t.nodes, p, r);
    forall q
      ensures NodeExact(t', c', q)
    {
      assert NodeExact(t, c, q);
      assert Claimants(c', q) == Claimants(c, q) - {r};
      if q in t.nodes && q in Along(p) {
        if s[q] == {} {
          assert t.nodes[q] <= {r};
          forall x | x in s && q <= x
            ensures x in Along(p) && s[x] == {}
          {
            assert NodeExact(t, c, x);
            forall y | y in Claimants(c, x)
              ensures y == r
            {
              PrefixOfPrefix(c[y], q, x);
              assert y in Claimants(c, q) && y in t.nodes[q];
            }
          }
        } else {
          assert !Dead(s, p, q);
        }
      }
    }
    forall h
      ensures HashExact(t', c', h)
    {
      assert HashExact(t, c, h);
      assert Containing(c', h) == Containing(c, h) - if h in p then {r} else {};
    }
  }

  /** The claims determine the tree. */
  lemma ExactUnique(t: Tree, t': Tree, c: Claims)
    requires Exact(t, c) && Exact(t', c)
    ensures t == t'
  {
    forall q
      ensures q in t.nodes <==> q in t'.nodes
      ensures q in t.nodes ==> t.nodes[q] == t'.nodes[q]
    {
      assert NodeExact(t, c, q) && NodeExact(t', c, q);
    }
    forall h
      ensures h in t.index <==> h in t'.index
      ensures h in t.index ==> t.index[h] == t'.index[h]
    {
      assert HashExact(t, c, h) && HashExact(t', c, h);
    }
    assert t.nodes == t'.nodes && t.index == t'.index;
  }

  /** Claiming for a new request and releasing again restores trie and index exactly. */
  lemma ClaimThenRelease(t: Tree, c: Claims, p: Path, r: Rid)
    requires Exact(t, c) && r !in c
    ensures Release(Claim(t, p, r), p, r) == t
  {
    ExactClaim(t, c, p, r);
    ExactRelease(Claim(t, p, r), c[r := p], r);
    assert c[r := p] - {r} == c;
    ExactUnique(Release(Claim(t, p, r), p, r), t, c);
  }

  lemma ExactRooted(t: Tree, c: Claims)
    requires Exact(t, c)
    ensures Rooted(t)
  {
    forall p, k | p in t.nodes && 0 < k <= |p|
      ensures p[..k] in t.nodes
    {
      assert NodeExact(t, c, p) && NodeExact(t, c, p[..k]);
      var r :| r in Claimants(c, p);
      PrefixOfPrefix(c[r], p[..k], p);
      assert r in Claimants(c, p[..k]);
    }
    assert NodeExact(t, c, []);
  }

  /** The match of a query is its longest common prefix with any claim. */
  lemma ExactMatch(t: Tree, c: Claims, q: Path)
    requires Exact(t, c)
    ensures forall r | r in c :: Lcp(c[r], q) <= Match(t.nodes.Keys, q)
    ensures Match(t.nodes.Keys, q) == 0 || exists r :: r in c && Lcp(c[r], q) == Match(t.nodes.Keys, q)
  {
    ExactRooted(t, c);
    var m := Match(t.nodes.Keys, q);
    forall r | r in c
      ensures Lcp(c[r], q) <= m
    {
      var k := Lcp(c[r], q);
      if k > 0 {
        assert c[r][..k] in Along(c[r]);
        assert NodeExact(t, c, q[..k]);
        assert r in Claimants(c, q[..k]);
        MatchIsThreshold(t.nodes.Keys, q, k);
      }
    }
    if m > 0 {
      assert NodeExact(t, c, q[..m]);
      var r :| r in Claimants(c, q[..m]);
      var k :| 0 < k <= |c[r]| && c[r][..k] == q[..m];
      assert k == m;
      forall l | 0 <= l < m
        ensures c[r][l] == q[l]
      {
        assert c[r][..m][l] == q[..m][l];
      }
      assert Lcp(c[r], q) == m;
    }
  }

  // ---------- With evictions: no claim in use is cut ----------

  /** Request r owns every node along its claim p and is listed for every hash of it. */
  ghost predicate Holds(t: Tree, p: Path, r: Rid) {
    && (forall q | q in Along(p) :: q in t.nodes && r in t.nodes[q])
    && (forall h | h in p :: h in t.index && r in t.index[h])
  }

  lemma RootedAfter(t: Tree, p: Path, r: Rid, h: Hash)
    requires Rooted(t)
    ensures Rooted(Claim(t, p, r)) && Rooted(Release(t, p, r)) && Rooted(Evict(t, h))
  {
    RootedClaim(t, p, r);
    RootedRelease(t, p, r);
    forall q, k | q in Evict(t, h).nodes && 0 < k <= |q|
      ensures q[..k] in Evict(t, h).nodes
    {
      assert [h] in t.nodes && [h] <= q[..k] ==> [h] <= q;
    }
  }

  lemma RootedClaim(t: Tree, p: Path, r: Rid)
    requires Rooted(t)
    ensures Rooted(Claim(t, p, r))
  {
    forall q, k | q in Claim(t, p, r).nodes && 0 < k <= |q|
      ensures q[..k] in Claim(t, p, r).nodes
    {
      if q in Along(p) { PrefixOfPrefix(p, q[..k], q); }
    }
  }

  lemma RootedRelease(t: Tree, p: Path, r: Rid)
    requires Rooted(t)
    ensures Rooted(Release(t, p, r))
  {
    var s := Strip(t.nodes, p, r);
    forall q, k | q in Prune(s, p) && 0 < k <= |q|
      ensures q[..k] in Prune(s, p)
    {
      DeadBelow(s, p, q[..k], q);
    }
  }

  lemma DeadBelow(nodes: map<Path, set<Rid>>, p: Path, q: Path, x: Path)
    requires x in nodes && q <= x
    ensures Dead(nodes, p, q) ==> x in Along(p) && Dead(nodes, p, x)
  {
    forall y | y in nodes && x <= y
      ensures q <= y
    {
      assert y[..|q|] == x[..|q|];
    }
  }

  /** Neither a claim nor a release of another request loosens what r holds. */
  lemma HoldsAfter(t: Tree, p: Path, r: Rid, p': Path, r': Rid)
    requires Holds(t, p, r)
    ensures Holds(Claim(t, p', r'), p, r)
    ensures r != r' ==> Holds(Release(t, p', r'), p, r)
  {
    if r != r' {
      var s := Strip(t.nodes, p', r');
      forall q | q in Along(p)
        ensures q in Prune(s, p') && r in Prune(s, p')[q]
      {
        assert r in s[q];
        assert !Dead(s, p', q);
      }
      forall h | h in p
        ensures h in Unlist(t.index, p', r')
      {
        assert r in t.index[h] - {r'};
      }
    }
  }

  lemma HoldsClaimed(t: Tree, p: Path, r: Rid)
    ensures Holds(Claim(t, p, r), p, r)
  {
  }

  /** An eviction of a hash that r is not listed for leaves r alone. */
  lemma HoldsEvict(t: Tree, p: Path, r: Rid, h: Hash)
    requires Holds(t, p, r) && r !in Owners(t.index, h)
    ensures Holds(Evict(t, h), p, r)
  {
    assert h !in p;
    forall q | q in Along(p)
      ensures !([h] <= q)
    {
      assert q[0] in p;
    }
  }

  /** What is held is matched in full. */
  lemma HoldsMatches(t: Tree, p: Path, r: Rid)
    requires Rooted(t) && Holds(t, p, r)
    ensures Match(t.nodes.Keys, p) == |p|
  {
    if p != [] {
      assert p[..|p|] in Along(p);
      MatchIsThreshold(t.nodes.Keys, p, |p|);
    }
  }

  // ---------- While requests are on their way out ----------

  /** The owners of node q are claimants of it; at most claimants among `leaving` are missing. */
  ghost predicate NodeNear(t: Tree, c: Claims, leaving: set<Rid>, q: Path) {
    && (q in t.nodes ==> t.nodes[q] != {})
    && Owners(t.nodes, q) <= Claimants(c, q) <= Owners(t.nodes, q) + leaving
  }

  ghost predicate HashNear(t: Tree, c: Claims, leaving: set<Rid>, h: Hash) {
    && (h in t.index ==> t.index[h] != {})
    && Owners(t.index, h) <= Containing(c, h) <= Owners(t.index, h) + leaving
  }

  /** Whoever owns a node owns the nodes above it. */
  ghost predicate Nested(t: Tree) {
    forall q, x | x in t.nodes && q <= x && q != [] :: q in t.nodes && t.nodes[x] <= t.nodes[q]
  }

  /** The tree holds the claims, but for parts of those of the requests that are leaving. */
  ghost predicate Near(t: Tree, c: Claims, leaving: set<Rid>) {
    && (forall q {:trigger NodeNear(t, c, leaving, q)} :: NodeNear(t, c, leaving, q))
    && (forall h {:trigger HashNear(t, c, leaving, h)} :: HashNear(t, c, leaving, h))
    && Nested(t)
  }

  lemma ExactIsNear(t: Tree, c: Claims, leaving: set<Rid>)
    requires Exact(t, c)
    ensures Near(t, c, leaving)
  {
    forall q
      ensures NodeNear(t, c, leaving, q)
    {
      assert NodeExact(t, c, q);
    }
    forall h
      ensures HashNear(t, c, leaving, h)
    {
      assert HashExact(t, c, h);
    }
    forall q, x | x in t.nodes && q <= x && q != []
      ensures q in t.nodes && t.nodes[x] <= t.nodes[q]
    {
      assert NodeExact(t, c, q) && NodeExact(t, c, x);
      ClaimantsNested(c, q, x);
    }
  }

  lemma ClaimantsNested(c: Claims, q: Path, x: Path)
    requires q <= x && q != []
    ensures Claimants(c, x) <= Claimants(c, q)
  {
    forall r | r in Claimants(c, x)
      ensures r in Claimants(c, q)
    {
      PrefixOfPrefix(c[r], q, x);
    }
  }

  lemma NearIsExact(t: Tree, c: Claims)
    requires Near(t, c, {})
    ensures Exact(t, c)
  {
    forall q
      ensures NodeExact(t, c, q)
    {
      assert NodeNear(t, c, {}, q);
    }
    forall h
      ensures HashExact(t, c, h)
    {
      assert HashNear(t, c, {}, h);
    }
  }

  lemma NearNobody(t: Tree, c: Claims, leaving: set<Rid>, r: Rid)
    requires Near(t, c, leaving) && r !in c
    ensures Near(t, c, leaving - {r})
  {
    forall q
      ensures NodeNear(t, c, leaving - {r}, q)
    {
      assert NodeNear(t, c, leaving, q);
    }
    forall h
      ensures HashNear(t, c, leaving - {r}, h)
    {
      assert HashNear(t, c, leaving, h);
    }
  }

  /** An eviction of a hash that only leaving requests own takes away parts of their claims only. */
  lemma NearEvict(t: Tree, c: Claims, leaving: set<Rid>, h: Hash)
    requires Near(t, c, leaving) && Owners(t.index, h) <= leaving
    ensures Near(Evict(t, h), c, leaving)
  {
    var t' := Evict(t, h);
    assert HashNear(t, c, leaving, h);
    forall q
      ensures NodeNear(t', c, leaving, q)
    {
      assert NodeNear(t, c, leaving, q);
      if q in t.nodes && q !in t'.nodes {
        forall r | r in Claimants(c, q)
          ensures r in leaving
        {
          assert q[0] == h;
          assert r in Containing(c, h);
        }
      }
    }
    forall l
      ensures HashNear(t', c, leaving, l)
    {
      assert HashNear(t, c, leaving, l);
    }
    forall q, x | x in t'.nodes && q <= x && q != []
      ensures q in t'.nodes && t'.nodes[x] <= t'.nodes[q]
    {
    }
  }

  lemma NodeReleased(t: Tree, c: Claims, leaving: set<Rid>, r: Rid, q: Path)
    requires Near(t, c, leaving) && r in c && q in t.nodes && q in Along(c[r]) && t.nodes[q] <= {r}
    ensures Dead(Strip(t.nodes, c[r], r), c[r], q)
  {
    var s := Strip(t.nodes, c[r], r);
    forall x | x in s && q <= x
      ensures x in Along(c[r]) && s[x] == {}
    {
      assert NodeNear(t, c, leaving, x);
      assert t.nodes[x] <= t.nodes[q];
      assert r in t.nodes[x];
    }
  }

  /** The nodes after a release. */
  lemma ReleasedNode(t: Tree, c: Claims, leaving: set<Rid>, r: Rid, q: Path)
    requires Near(t, c, leaving) && r in c
    ensures var t' := Release(t, c[r], r);
            && (q in t'.nodes <==> q in t.nodes && t.nodes[q] - {r} != {})
            && (q in t'.nodes ==> t'.nodes[q] == t.nodes[q] - {r})
  {
    assert NodeNear(t, c, leaving, q);
    var s := Strip(t.nodes, c[r], r);
    if q in t.nodes && q in Along(c[r]) {
      if t.nodes[q] <= {r} {
        NodeReleased(t, c, leaving, r, q);
      } else {
        assert q in s && s[q] != {};
      }
    }
  }

  lemma NodeStaysNear(t: Tree, c: Claims, leaving: set<Rid>, r: Rid, q: Path)
    requires Near(t, c, leaving) && r in c
    ensures NodeNear(Release(t, c[r], r), c - {r}, leaving - {r}, q)
  {
    assert NodeNear(t, c, leaving, q);
    hide Near, Release;
    ReleasedNode(t, c, leaving, r, q);
    assert Claimants(c - {r}, q) == Claimants(c, q) - {r};
  }

  lemma HashStaysNear(t: Tree, c: Claims, leaving: set<Rid>, r: Rid, h: Hash)
    requires Near(t, c, leaving) && r in c
    ensures HashNear(Release(t, c[r], r), c - {r}, leaving - {r}, h)
  {
    assert HashNear(t, c, leaving, h);
    hide Near, Prune, Strip;
    assert Containing(c - {r}, h) == Containing(c, h) - {r};
  }

  /** A release takes a leaving request out, claim and all. */
  lemma NearRelease(t: Tree, c: Claims, leaving: set<Rid>, r: Rid)
    requires Near(t, c, leaving) && r in c
    ensures Near(Release(t, c[r], r), c - {r}, leaving - {r})
  {
    hide Release, NodeNear, HashNear;
    var t' := Release(t, c[r], r);
    forall q
      ensures NodeNear(t', c - {r}, leaving - {r}, q)
    {
      NodeStaysNear(t, c, leaving, r, q);
    }
    forall h
      ensures HashNear(t', c - {r}, leaving - {r}, h)
    {
      HashStaysNear(t, c, leaving, r, h);
    }
    forall q, x | x in t'.nodes && q <= x && q != []
      ensures q in t'.nodes && t'.nodes[x] <= t'.nodes[q]
    {
      ReleasedNode(t, c, leaving, r, q);
      ReleasedNode(t, c, leaving, r, x);
    }
  }
}
