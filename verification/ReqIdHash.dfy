/** The simulator's trie of request claims, updated in place along one path at a time. */
module ReqIdHash {
  import opened Basics
  import opened Registry
  import opened ReqIds

  // ---------- One more element ----------

  lemma AlongStep(p: Path, i: nat)
    requires i < |p|
    ensures Along(p[..i + 1]) == Along(p[..i]) + {p[..i + 1]}
  {
    var a, z, last := Along(p[..i]), Along(p[..i + 1]), p[..i + 1];
    forall q | q in z
      ensures q in a || q == last
    {
      assert q == last[..|q|];
      assert |q| <= i ==> q == p[..i][..|q|];
    }
    forall q | q in a
      ensures q in z
    {
      assert q == p[..i][..|q|] == last[..|q|];
    }
    assert last in z;
  }

  lemma NodesStep(nodes: map<Path, set<Rid>>, p: Path, r: Rid, i: nat)
    requires i < |p|
    ensures var a, z := ClaimNodes(nodes, p[..i], r), ClaimNodes(nodes, p[..i + 1], r);
            z == a[p[..i + 1] := Owners(a, p[..i + 1]) + {r}]
  {
    AlongStep(p, i);
    var a, z := ClaimNodes(nodes, p[..i], r), ClaimNodes(nodes, p[..i + 1], r);
    var b := a[p[..i + 1] := Owners(a, p[..i + 1]) + {r}];
    assert z.Keys == b.Keys;
    forall q | q in z
      ensures z[q] == b[q]
    {
    }
  }

  lemma IndexStep(index: map<Hash, set<Rid>>, p: Path, r: Rid, i: nat)
    requires i < |p|
    ensures var a, z := ClaimIndex(index, p[..i], r), ClaimIndex(index, p[..i + 1], r);
            z == a[p[i] := Owners(a, p[i]) + {r}]
  {
    assert p[..i + 1] == p[..i] + [p[i]];
    var a, z := ClaimIndex(index, p[..i], r), ClaimIndex(index, p[..i + 1], r);
    var b := a[p[i] := Owners(a, p[i]) + {r}];
    assert z.Keys == b.Keys;
    forall h | h in z
      ensures z[h] == b[h]
    {
    }
  }

  lemma ClaimNothing(t: Tree, r: Rid)
    ensures ClaimNodes(t.nodes, [], r) == t.nodes && ClaimIndex(t.index, [], r) == t.index
  {
    var a, z := ClaimNodes(t.nodes, [], r), ClaimIndex(t.index, [], r);
    assert Along([]) == {};
    assert a.Keys == t.nodes.Keys && z.Keys == t.index.Keys;
    assert forall q | q in a :: a[q] == t.nodes[q];
    assert forall h | h in z :: z[h] == t.index[h];
  }

  lemma StripStep(nodes: map<Path, set<Rid>>, p: Path, r: Rid, i: nat)
    requires i < |p|
    ensures var a, z := Strip(nodes, p[..i], r), Strip(nodes, p[..i + 1], r);
            z == if p[..i + 1] in nodes then a[p[..i + 1] := a[p[..i + 1]] - {r}] else a
  {
    AlongStep(p, i);
  }

  /** Beyond a missing node there is nothing to strip. */
  lemma StripEnd(nodes: map<Path, set<Rid>>, p: Path, r: Rid, i: nat)
    requires PrefixClosed(nodes.Keys) && i < |p| && p[..i + 1] !in nodes
    ensures Strip(nodes, p, r) == Strip(nodes, p[..i], r)
  {
    forall q | q in nodes && q in Along(p)
      ensures q in Along(p[..i])
    {
      LongerIsMissing(nodes, p, q, i);
    }
  }

  lemma LongerIsMissing(nodes: map<Path, set<Rid>>, p: Path, q: Path, i: nat)
    requires PrefixClosed(nodes.Keys) && q in nodes && q <= p && i < |p|
    ensures p[..i + 1] !in nodes ==> |q| <= i
  {
    assert i + 1 <= |q| ==> q[..i + 1] == p[..i + 1];
  }

  lemma StripKeys(nodes: map<Path, set<Rid>>, p: Path, r: Rid)
    ensures Strip(nodes, p, r).Keys == nodes.Keys
  {
  }

  lemma PruneAll(nodes: map<Path, set<Rid>>, p: Path)
    requires PrefixClosed(nodes.Keys) && [] !in nodes
    ensures PruneFrom(nodes, p, 0) == Prune(nodes, p)
  {
  }

  lemma UnlistNothing(index: map<Hash, set<Rid>>, r: Rid)
    ensures Unlist(index, [], r) == index
  {
  }

  lemma UnlistStep(index: map<Hash, set<Rid>>, p: Path, r: Rid, i: nat)
    requires i < |p|
    ensures var a, z := Unlist(index, p[..i], r), Unlist(index, p[..i + 1], r);
            z == if p[i] !in a then a
                 else if a[p[i]] - {r} == {} then a - {p[i]}
                 else a[p[i] := a[p[i]] - {r}]
  {
    assert p[..i + 1] == p[..i] + [p[i]];
    var a, z := Unlist(index, p[..i], r), Unlist(index, p[..i + 1], r);
    if p[i] in a && p[i] in p[..i] {
      assert a[p[i]] - {r} == a[p[i]];
    }
    assert forall h | h in z :: h in a && (h != p[i] ==> z[h] == a[h]);
    assert forall h | h in a && h != p[i] :: h in z;
  }

  lemma ReleaseNothing(t: Tree, r: Rid)
    ensures Release(t, [], r) == t
  {
    assert Along([]) == {};
    var s := Strip(t.nodes, [], r);
    assert s == t.nodes;
    assert Prune(s, []) == t.nodes && Unlist(t.index, [], r) == t.index;
  }

  /** What pruning from depth i on leaves. */
  ghost function PruneFrom(nodes: map<Path, set<Rid>>, p: Path, i: nat): map<Path, set<Rid>> {
    map q | q in nodes && !(q in Along(p) && |q| > i && Dead(nodes, p, q)) :: nodes[q]
  }

  lemma PruneNothing(nodes: map<Path, set<Rid>>, p: Path, i: nat)
    requires PrefixClosed(nodes.Keys) && i <= |p| && (i < |p| ==> p[..i + 1] !in nodes)
    ensures PruneFrom(nodes, p, i) == nodes
  {
    forall q | q in nodes && q in Along(p)
      ensures |q| <= i
    {
      if i < |p| { LongerIsMissing(nodes, p, q, i); }
    }
  }

  ghost predicate Childless(nodes: map<Path, set<Rid>>, q: Path) {
    forall x | x in nodes :: !(|x| == |q| + 1 && q <= x)
  }

  /** A node whose subtree has been pruned is dead exactly if it has neither owner nor child left. */
  lemma PruneHere(nodes: map<Path, set<Rid>>, p: Path, i: nat)
    requires PrefixClosed(nodes.Keys) && i < |p| && p[..i + 1] in nodes
    ensures var q, rest := p[..i + 1], PruneFrom(nodes, p, i + 1);
            && q in rest && rest[q] == nodes[q]
            && (Dead(nodes, p, q) <==> rest[q] == {} && Childless(rest, q))
            && PruneFrom(nodes, p, i) == if rest[q] == {} && Childless(rest, q) then rest - {q} else rest
  {
    var q, rest := p[..i + 1], PruneFrom(nodes, p, i + 1);
    assert q in Along(p);
    if Dead(nodes, p, q) {
      forall x | x in rest && |x| == |q| + 1
        ensures !(q <= x)
      {
        if q <= x { DeadBelow(nodes, p, q, x); }
      }
    }
    if rest[q] == {} && Childless(rest, q) {
      forall x | x in nodes && q <= x
        ensures x in Along(p) && nodes[x] == {}
      {
        if x != q {
          var y := x[..i + 2];
          assert y in nodes && q <= y;
          DeadBelow(nodes, p, y, x);
        }
      }
    }
    forall x | x in Along(p) && |x| == i + 1
      ensures x == q
    {
    }
  }

  class RadixTreeReqIdHash {
    var nodes: map<Path, set<Rid>>
    var hashOwners: map<Hash, set<Rid>>
    var epoch: nat

    function Value(): Tree
      reads this
    {
      Tree(nodes, hashOwners)
    }

    ghost predicate Valid()
      reads this
    {
      Rooted(Value())
    }

    constructor ()
      ensures Valid() && Value() == Tree(map[], map[]) && epoch == 0
    {
      nodes, hashOwners, epoch := map[], map[], 0;
    }

    /** Registers the claim of request rid over the path `hashes`. */
    method InsertHashes(hashes: Path, rid: Rid)
      requires Valid()
      modifies this
      ensures Valid() && Value() == Claim(old(Value()), hashes, rid)
      ensures epoch == old(epoch) + if hashes == [] then 0 else 1
    {
      hide ClaimNodes, ClaimIndex, Rooted;
      ClaimNothing(Value(), rid);
      RootedClaim(Value(), hashes, rid);
      if hashes == [] {
        return;
      }
      for i := 0 to |hashes|
        invariant nodes == ClaimNodes(old(nodes), hashes[..i], rid) && hashOwners == old(hashOwners)
                  && epoch == old(epoch)
      {
        NodesStep(old(nodes), hashes, rid, i);
        var node := hashes[..i + 1];
        nodes := nodes[node := (if node in nodes then nodes[node] else {}) + {rid}];
      }
      assert hashes[..|hashes|] == hashes;
      for i := 0 to |hashes|
        invariant nodes == ClaimNodes(old(nodes), hashes, rid) && epoch == old(epoch)
        invariant hashOwners == ClaimIndex(old(hashOwners), hashes[..i], rid)
      {
        IndexStep(old(hashOwners), hashes, rid, i);
        var h := hashes[i];
        hashOwners := hashOwners[h := (if h in hashOwners then hashOwners[h] else {}) + {rid}];
      }
      assert hashes[..|hashes|] == hashes;
      epoch := epoch + 1;
    }

    /** Drops the claim of request rid over `hashes` and prunes what nobody claims any more. */
    method RemoveByHashes(hashes: Path, rid: Rid)
      requires Valid()
      modifies this
      ensures Valid() && Value() == Release(old(Value()), hashes, rid)
      ensures epoch == old(epoch) + if hashes == [] then 0 else 1
    {
      hide Strip, Prune, PruneFrom, Unlist, PrefixClosed;
      ReleaseNothing(Value(), rid);
      if hashes == [] {
        return;
      }
      RootedRelease(Value(), hashes, rid);
      StripKeys(nodes, hashes, rid);
      PruneAll(Strip(nodes, hashes, rid), hashes);
      StripOwnerAlongPath(hashes, rid);
      PruneEmpty(hashes, 0);
      UnlistAll(hashes, rid);
      epoch := epoch + 1;
    }

    method UnlistAll(hashes: Path, rid: Rid)
      modifies this`hashOwners
      ensures hashOwners == Unlist(old(hashOwners), hashes, rid)
    {
      hide Unlist;
      UnlistNothing(hashOwners, rid);
      for i := 0 to |hashes|
        invariant hashOwners == Unlist(old(hashOwners), hashes[..i], rid)
      {
        UnlistStep(old(hashOwners), hashes, rid, i);
        var h := hashes[i];
        if h in hashOwners {
          hashOwners := hashOwners[h := hashOwners[h] - {rid}];
          if hashOwners[h] == {} {
            hashOwners := hashOwners - {h};
          }
        }
      }
      assert hashes[..|hashes|] == hashes;
    }

    method StripOwnerAlongPath(hashes: Path, rid: Rid)
      requires PrefixClosed(nodes.Keys)
      modifies this`nodes
      ensures nodes == Strip(old(nodes), hashes, rid)
    {
      for i := 0 to |hashes|
        invariant nodes == Strip(old(nodes), hashes[..i], rid)
      {
        StripStep(old(nodes), hashes, rid, i);
        var child := hashes[..i + 1];
        if child !in nodes {
          StripEnd(old(nodes), hashes, rid, i);
          return;
        }
        nodes := nodes[child := nodes[child] - {rid}];
      }
      assert hashes[..|hashes|] == hashes;
    }

    /** Removes the nodes along `hashes`, from depth i on, that have neither owner nor child; the
        deepest first. */
    method PruneEmpty(hashes: Path, i: nat)
      requires PrefixClosed(nodes.Keys) && i <= |hashes|
      modifies this`nodes
      ensures nodes == PruneFrom(old(nodes), hashes, i)
      decreases |hashes| - i
    {
      if i == |hashes| {
        PruneNothing(nodes, hashes, i);
        return;
      }
      var child := hashes[..i + 1];
      if child !in nodes {
        PruneNothing(nodes, hashes, i);
        return;
      }
      PruneHere(nodes, hashes, i);
      PruneEmpty(hashes, i + 1);
      var below := set x | x in nodes && |x| == |child| + 1 && child <= x;
      assert below == {} <==> Childless(nodes, child) by {
        if below == {} {
          forall x | x in nodes
            ensures !(|x| == |child| + 1 && child <= x)
          {
            assert x !in below;
          }
        }
      }
      if nodes[child] == {} && below == {} {
        nodes := nodes - {child};
      }
    }

    /** Length of the longest prefix of `hashes` in the trie. */
    method Get(hashes: Path) returns (len: nat)
      requires Valid()
      ensures len == Match(nodes.Keys, hashes)
    {
      len := 0;
      while len < |hashes| && hashes[..len + 1] in nodes
        invariant len <= |hashes| && (len == 0 || hashes[..len] in nodes)
      {
        len := len + 1;
      }
      forall j | len < j <= |hashes|
        ensures hashes[..j] !in nodes
      {
        assert hashes[..j][..len + 1] == hashes[..len + 1];
      }
      MatchUnique(nodes.Keys, hashes, len);
    }

    /** Drops a first-level node and everything below it. */
    method EvictOrphanHash(h: Hash)
      requires Valid()
      modifies this
      ensures Valid() && Value() == Evict(old(Value()), h)
    {
      RootedAfter(Value(), [], 0, h);
      if [h] in nodes {
        nodes := map q | q in nodes && !([h] <= q) :: nodes[q];
        hashOwners := hashOwners - {h};
        epoch := epoch + 1;
      }
    }
  }
}
