/** When the flat hash table and the radix trie answer alike.

    Both indexes are fed the same insertions and removals. Keys and queries are chained: a hash
    stands for one whole root path, which `root` recovers. */
module IndexAgreement {
  import opened Registry
  import opened HashTable
  import BlockHashes

  type Root = Hash -> Path

  ghost predicate Chained(root: Root, q: Path) {
    forall k | 0 < k <= |q| :: root(q[k - 1]) == q[..k]
  }

  /** The hash h ends the prefix q[..k]. */
  ghost predicate Ends(q: Path, k: int, h: Hash) {
    0 < k <= |q| && q[k - 1] == h
  }

  /** Equal hashes end equal prefixes. */
  ghost predicate OnePathPerHash(paths: set<Path>) {
    forall p, q, i, j, h | p in paths && q in paths && Ends(p, i, h) && Ends(q, j, h) :: p[..i] == q[..j]
  }

  /** The prefix that one of `paths` ends with h. */
  ghost function RootOf(paths: set<Path>, h: Hash): Path {
    if exists q, k :: q in paths && Ends(q, k, h)
    then var q, k :| q in paths && Ends(q, k, h); q[..k]
    else []
  }

  ghost function RootIn(paths: set<Path>): Root {
    h => RootOf(paths, h)
  }

  lemma ChainedByRootOf(paths: set<Path>, q: Path)
    requires OnePathPerHash(paths) && q in paths
    ensures Chained(RootIn(paths), q)
  {
    var root := RootIn(paths);
    forall k | 0 < k <= |q|
      ensures root(q[k - 1]) == q[..k]
    {
      assert Ends(q, k, q[k - 1]);
    }
  }

  ghost function PromptHashes(mix: BlockHashes.Mix, prompts: set<seq<BlockHashes.Token>>, size: nat): set<Path>
    requires size > 0
  {
    set t | t in prompts :: BlockHashes.Hashed(mix, t, size, BlockHashes.SEED)
  }

  /** The hash sequences of prompts are chained, given a hash function without collisions. */
  lemma PromptsAreChained(mix: BlockHashes.Mix, prompts: set<seq<BlockHashes.Token>>, size: nat)
    requires size > 0 && BlockHashes.CollisionFree(mix)
    ensures OnePathPerHash(PromptHashes(mix, prompts, size))
  {
    hide BlockHashes.Hashed;
    var paths := PromptHashes(mix, prompts, size);
    forall p, q, i, j, h | p in paths && q in paths && Ends(p, i, h) && Ends(q, j, h)
      ensures p[..i] == q[..j]
    {
      var a :| a in prompts && p == BlockHashes.Hashed(mix, a, size, BlockHashes.SEED);
      var b :| b in prompts && q == BlockHashes.Hashed(mix, b, size, BlockHashes.SEED);
      BlockHashes.SameHashSamePath(mix, a, b, size, i - 1, j - 1);
    }
  }

  /** The two indexes know the same bids, and the table has the last hash of each bid's path. */
  ghost predicate Aligned(root: Root, m: Reg, t: Tab) {
    && m.Keys == t.Keys
    && (forall b | b in m :: m[b] != [] && Chained(root, m[b]) && t[b] == m[b][|m[b]| - 1])
  }

  lemma {:induction false} LeadingIsMatch(known: set<Hash>, paths: set<Path>, q: Path, i: nat)
    requires i <= |q| && PrefixClosed(paths)
    requires forall k | 0 < k <= |q| :: q[k - 1] in known <==> q[..k] in paths
    requires i <= Match(paths, q)
    ensures LeadingFrom(known, q, i) == Match(paths, q)
    decreases |q| - i
  {
    if i < |q| {
      MatchIsThreshold(paths, q, i + 1);
      assert q[i + 1 - 1] in known <==> q[..i + 1] in paths;
      if q[i] in known {
        LeadingIsMatch(known, paths, q, i + 1);
      }
    }
  }

  /** The last hash of a chained path is cached just when the path is registered. */
  lemma LastHashKnown(root: Root, m: Reg, t: Tab, q: Path, k: nat)
    requires Aligned(root, m, t) && Chained(root, q) && 0 < k <= |q|
    ensures q[k - 1] in t.Values <==> q[..k] in m.Values
  {
    if q[k - 1] in t.Values {
      var b :| b in t && t[b] == q[k - 1];
      assert b in m;
      assert root(m[b][|m[b]| - 1]) == m[b][..|m[b]|] == m[b];
      assert m[b] == q[..k];
    }
    if q[..k] in m.Values {
      var b :| b in m && m[b] == q[..k];
      assert b in t && t[b] == q[k - 1];
    }
  }

  lemma AlignedGet(root: Root, m: Reg, t: Tab, q: Path)
    requires Aligned(root, m, t) && Chained(root, q) && PrefixClosed(m.Values)
    ensures Leading(t.Values, q) == Match(m.Values, q)
  {
    forall k | 0 < k <= |q|
      ensures q[k - 1] in t.Values <==> q[..k] in m.Values
    {
      LastHashKnown(root, m, t, q, k);
    }
    LeadingIsMatch(t.Values, m.Values, q, 0);
  }

  lemma ChainedPrefix(root: Root, q: Path, k: nat)
    requires Chained(root, q) && k <= |q|
    ensures Chained(root, q[..k])
  {
    forall j | 0 < j <= k
      ensures root(q[..k][j - 1]) == q[..k][..j]
    {
      assert q[..k][..j] == q[..j];
    }
  }

  lemma FitsTable(root: Root, m: Reg, t: Tab, key: Path, bids: seq<Bid>)
    requires Aligned(root, m, t) && Fits(m, key, bids)
    ensures TabFits(t, key, bids)
  {
  }

  /** A bid supplied by the insertion, and one that was known before, end up aligned. */
  lemma AlignedBid(root: Root, m: Reg, t: Tab, key: Path, bids: seq<Bid>, b: Bid)
    requires |key| == |bids| && Aligned(root, m, t) && WellFormed(m) && Fits(m, key, bids) && Chained(root, key)
             && TabFits(t, key, bids)
    ensures var m', t' := Insert(m, key, bids), Recorded(t, key, bids, |bids|);
            && (b in m' <==> b in t')
            && (b in m' ==> m'[b] != [] && Chained(root, m'[b]) && t'[b] == m'[b][|m'[b]| - 1])
  {
    hide Insert, Recorded, WellFormed, Match, InsertOk, TabFits, Fits;
    RecordedEffect(t, key, bids, |bids|);
    InsertEffect(m, key, bids);
    if b in bids {
      InsertExact(m, key, bids);
      var i :| 0 <= i < |bids| && bids[i] == b;
      ChainedPrefix(root, key, i + 1);
    }
  }

  /** An insertion that fits the trie also fits the table and keeps the two aligned. */
  lemma AlignedInsert(root: Root, m: Reg, t: Tab, key: Path, bids: seq<Bid>)
    requires Aligned(root, m, t) && WellFormed(m) && Fits(m, key, bids) && Chained(root, key)
    ensures TabFits(t, key, bids)
    ensures Aligned(root, Insert(m, key, bids), Recorded(t, key, bids, |bids|))
  {
    hide Insert, Recorded, WellFormed, TabFits, Fits, Chained;
    FitsTable(root, m, t, key, bids);
    FitsLength(m, key, bids);
    var m', t' := Insert(m, key, bids), Recorded(t, key, bids, |bids|);
    forall b
      ensures b in m' <==> b in t'
      ensures b in m' ==> m'[b] != [] && Chained(root, m'[b]) && t'[b] == m'[b][|m'[b]| - 1]
    {
      AlignedBid(root, m, t, key, bids, b);
    }
  }

  /** A removal keeps the two aligned when, and only when, it empties no position above a bid it keeps. */
  lemma AlignedRemove(root: Root, m: Reg, t: Tab, bids: seq<Bid>)
    requires Aligned(root, m, t) && WellFormed(m)
    ensures Aligned(root, Remove(m, bids), t - BidSet(bids)) <==> NoCascade(m, BidSet(bids))
  {
    var gone := BidSet(bids);
    RemoveExact(m, bids);
    RemoveClosedForm(m, bids);
    var m' := Remove(m, bids);
    if Aligned(root, m', t - gone) {
      assert m'.Keys == t.Keys - gone;
      assert m' == m - gone;
    }
  }

  /** In the table a position still answers after a removal just when a bid outside the batch holds it. */
  lemma StillKnown(root: Root, m: Reg, t: Tab, gone: set<Bid>, q: Path, k: nat)
    requires Aligned(root, m, t) && Chained(root, q) && 0 < k <= |q|
    ensures q[k - 1] in (t - gone).Values <==> Held(m, gone, q[..k])
  {
    if q[k - 1] in (t - gone).Values {
      var b :| b in t - gone && (t - gone)[b] == q[k - 1];
      assert b in m && b !in gone;
      assert root(m[b][|m[b]| - 1]) == m[b][..|m[b]|] == m[b];
      assert m[b] == q[..k];
    }
    if Held(m, gone, q[..k]) {
      var b :| b in m && b !in gone && m[b] == q[..k];
      assert b in t - gone && (t - gone)[b] == q[k - 1];
    }
  }

  /** Right after a removal the two still answer alike, whatever the removal cut. */
  lemma RemovalGet(root: Root, m: Reg, t: Tab, bids: seq<Bid>, q: Path)
    requires Aligned(root, m, t) && WellFormed(m) && Chained(root, q)
    ensures Leading((t - BidSet(bids)).Values, q) == Match(Remove(m, bids).Values, q)
  {
    var gone := BidSet(bids);
    var m' := Remove(m, bids);
    RemoveClosedForm(m, bids);
    var r := Leading((t - gone).Values, q);
    forall k | 0 < k <= |q|
      ensures q[..k] in m'.Values <==> k <= r
    {
      SurvivesUpTo(root, m, t, gone, q, k, r);
    }
    MatchUnique(m'.Values, q, r);
  }

  lemma SurvivesUpTo(root: Root, m: Reg, t: Tab, gone: set<Bid>, q: Path, k: nat, r: nat)
    requires Aligned(root, m, t) && Chained(root, q) && 0 < k <= |q|
    requires r == Leading((t - gone).Values, q)
    ensures q[..k] in Survivors(m, gone).Values <==> k <= r
  {
    var s := Survivors(m, gone);
    if k <= r {
      forall j | 0 < j <= k
        ensures Held(m, gone, q[..k][..j])
      {
        StillKnown(root, m, t, gone, q, j);
        assert q[..k][..j] == q[..j];
      }
      assert q[..k][..k] == q[..k];
      var b :| b in m && b !in gone && m[b] == q[..k];
      assert b in s && s[b] == q[..k];
    }
    if q[..k] in s.Values && r < k {
      var b :| b in s && s[b] == q[..k];
      assert Held(m, gone, m[b][..r + 1]);
      assert q[..k][..r + 1] == q[..r + 1];
      StillKnown(root, m, t, gone, q, r + 1);
      assert false;
    }
  }

  // ---------- A removal that cuts more than its batch is felt later ----------

  /** After one more insertion the two answer q alike. */
  ghost predicate AgreeAfter(m: Reg, t: Tab, key: Path, bids: seq<Bid>, q: Path)
    requires |key| == |bids|
  {
    Leading(Recorded(t, key, bids, |bids|).Values, q) == Match(Insert(m, key, bids).Values, q)
  }

  /** Whatever insertion comes next, the two answer every chained query alike. */
  ghost predicate AgreeNext(root: Root, m: Reg, t: Tab) {
    forall key, bids, q | Fits(m, key, bids) && TabFits(t, key, bids) && Chained(root, key) && Chained(root, q) ::
      AgreeAfter(m, t, key, bids, q)
  }

  lemma {:induction false} AllBelow(s: set<Bid>) returns (n: Bid)
    ensures forall b | b in s :: b < n
    decreases s
  {
    if s == {} {
      n := 0;
    } else {
      var b :| b in s;
      var n1 := AllBelow(s - {b});
      n := if n1 <= b then b + 1 else n1;
      assert forall c | c in s :: c == b || c in s - {b};
    }
  }

  /** A bid the trie dropped with a cut position does not come back when the gap is filled. */
  lemma LostForGood(m: Reg, gone: set<Bid>, p: Path, k: nat, unused: seq<Bid>)
    requires WellFormed(Survivors(m, gone))
    requires 0 < k < |p| && !Held(m, gone, p[..k])
    requires Fits(Survivors(m, gone), p[..|p| - 1], unused)
    ensures Match(Insert(Survivors(m, gone), p[..|p| - 1], unused).Values, p) < |p|
  {
    hide Insert, Fits;
    var s := Survivors(m, gone);
    InsertExact(s, p[..|p| - 1], unused);
    InsertPaths(s, p[..|p| - 1], unused);
    forall c | c in s
      ensures s[c] != p
    {
      assert k <= |m[c]| ==> Held(m, gone, m[c][..k]);
    }
    assert p[..|p|] == p;
  }

  /** The table does answer with it: every hash of its path is cached again. */
  lemma Resurrected(t: Tab, p: Path, b: Bid, unused: seq<Bid>)
    requires p != [] && b in t && t[b] == p[|p| - 1]
    requires |unused| == |p| - 1 && TabFits(t, p[..|p| - 1], unused)
    ensures Leading(Recorded(t, p[..|p| - 1], unused, |unused|).Values, p) == |p|
  {
    hide Recorded, TabFits;
    var key := p[..|p| - 1];
    var t' := Recorded(t, key, unused, |unused|);
    RecordedEffect(t, key, unused, |unused|);
    forall i | 0 <= i < |p|
      ensures p[i] in t'.Values
    {
      var c := if i < |key| then unused[i] else b;
      assert c in t' && t'[c] == p[i];
    }
  }

  lemma UnusedBids(m: Reg, t: Tab, key: Path) returns (unused: seq<Bid>)
    ensures Fits(m, key, unused) && TabFits(t, key, unused)
  {
    var n := AllBelow(m.Keys + t.Keys);
    unused := seq(|key|, i requires 0 <= i < |key| => n + i);
    assert forall i | 0 <= i < |key| :: unused[i] !in m.Keys + t.Keys;
  }

  /** A cascade leaves a bid in the table that the trie has dropped; filling the gap above it again
      makes the table answer with it and the trie not. */
  lemma CascadeIsFelt(root: Root, m: Reg, t: Tab, bids: seq<Bid>)
    requires Aligned(root, m, t) && WellFormed(m) && !NoCascade(m, BidSet(bids))
    ensures !AgreeNext(root, Remove(m, bids), t - BidSet(bids))
  {
    hide Remove, Survivors, Recorded, Insert, WellFormed, Fits, TabFits, Match, Leading;
    var gone := BidSet(bids);
    var m', t' := Remove(m, bids), t - gone;
    RemoveClosedForm(m, bids);
    var b, k :| b in m && b !in gone && 0 < k <= |m[b]| && !Held(m, gone, m[b][..k]);
    var p := m[b];
    assert k < |p| by {
      assert p[..|p|] == p && Held(m, gone, p);
    }
    assert Chained(root, p);
    var key := p[..|p| - 1];
    ChainedPrefix(root, p, |p| - 1);
    var unused := UnusedBids(m', t', key);
    FitsLength(m', key, unused);
    LostForGood(m, gone, p, k, unused);
    Resurrected(t', p, b, unused);
    assert !AgreeAfter(m', t', key, unused, p);
  }

  lemma FitsLength(m: Reg, key: Path, bids: seq<Bid>)
    requires Fits(m, key, bids)
    ensures |bids| == |key|
  {
  }

  /** The exact condition: from an aligned state, the two indexes keep answering alike through any
      next insertion if and only if the removal took no more from the trie than its batch. */
  lemma RemovalIsHarmless(root: Root, m: Reg, t: Tab, bids: seq<Bid>)
    requires Aligned(root, m, t) && WellFormed(m)
    ensures AgreeNext(root, Remove(m, bids), t - BidSet(bids)) <==> NoCascade(m, BidSet(bids))
  {
    if NoCascade(m, BidSet(bids)) {
      var m', t' := Remove(m, bids), t - BidSet(bids);
      AlignedRemove(root, m, t, bids);
      RemoveClosedForm(m, bids);
      forall key, supply, q | Fits(m', key, supply) && TabFits(t', key, supply) && Chained(root, key)
        && Chained(root, q)
        ensures AgreeAfter(m', t', key, supply, q)
      {
        AlignedInsert(root, m', t', key, supply);
        InsertExact(m', key, supply);
        InsertWellFormed(m', key, supply);
        AlignedGet(root, Insert(m', key, supply), Recorded(t', key, supply, |supply|), q);
      }
    } else {
      CascadeIsFelt(root, m, t, bids);
    }
  }

  // ---------- Whole runs ----------

  ghost function TabAfter(ops: seq<Op>): Tab
    requires Legal(ops)
  {
    if ops == [] then map[]
    else
      var t, last := TabAfter(ops[..|ops| - 1]), ops[|ops| - 1];
      match last
      case Supply(key, bids) => Recorded(t, key, bids, |bids|)
      case Discard(bids) => t - BidSet(bids)
  }

  /** Every key of the run is chained and no removal takes more from the trie than its batch. */
  ghost predicate Tidy(root: Root, ops: seq<Op>)
    requires Legal(ops)
  {
    ops != [] ==>
      && Tidy(root, ops[..|ops| - 1])
      && match ops[|ops| - 1]
         case Supply(key, _) => Chained(root, key)
         case Discard(bids) => NoCascade(After(ops[..|ops| - 1]), BidSet(bids))
  }

  lemma {:induction false} RunAligned(root: Root, ops: seq<Op>)
    requires Legal(ops) && Tidy(root, ops)
    ensures Aligned(root, After(ops), TabAfter(ops))
  {
    if ops != [] {
      var before, last := ops[..|ops| - 1], ops[|ops| - 1];
      RunAligned(root, before);
      RunProvenance(before);
      match last
      case Supply(key, bids) =>
        AlignedInsert(root, After(before), TabAfter(before), key, bids);
      case Discard(bids) =>
        AlignedRemove(root, After(before), TabAfter(before), bids);
    }
  }

  /** After any such run the flat table and the trie answer every chained query alike. */
  lemma RunAgrees(root: Root, ops: seq<Op>, q: Path)
    requires Legal(ops) && Tidy(root, ops) && Chained(root, q)
    ensures Leading(TabAfter(ops).Values, q) == Match(After(ops).Values, q)
  {
    RunAligned(root, ops);
    RunProvenance(ops);
    AlignedGet(root, After(ops), TabAfter(ops), q);
  }
}
