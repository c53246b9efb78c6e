/** The abstract state of the KV-cache prefix index.

    The engine names cache blocks by block ids ("bids"). A block caches one hash of a
    request's chained hash sequence, so it stands for a whole root-anchored path of
    hashes. Everything the production trie remembers is a map from bids to such paths;
    its tree shape, placeholders, edge splits and child containers are representation.
  */
module Registry {
  type Hash = nat
  type Bid = nat
  type Path = seq<Hash>
  type Reg = map<Bid, Path>

  ghost predicate PrefixClosed(paths: set<Path>) {
    forall p, k | p in paths && 0 < k <= |p| :: p[..k] in paths
  }

  /** What every reachable registry satisfies. */
  ghost predicate WellFormed(m: Reg) {
    && PrefixClosed(m.Values)
    && (forall b | b in m :: m[b] != [])
  }

  /** Length of the longest prefix of q[..k] that is one of `paths` (0 when there is none). */
  function Longest(paths: set<Path>, q: Path, k: nat): (r: nat)
    requires k <= |q|
    ensures r <= k
    ensures r > 0 ==> q[..r] in paths
    ensures forall j | r < j <= k :: q[..j] !in paths
  {
    if k == 0 then 0
    else if q[..k] in paths then k
    else Longest(paths, q, k - 1)
  }

  function Match(paths: set<Path>, q: Path): nat {
    Longest(paths, q, |q|)
  }

  /** `Match` is the only number with these two properties. */
  lemma MatchUnique(paths: set<Path>, q: Path, r: nat)
    requires r <= |q|
    requires r == 0 || q[..r] in paths
    requires forall j | r < j <= |q| :: q[..j] !in paths
    ensures r == Match(paths, q)
  {
  }

  /** In a prefix-closed set a query matches at every length up to `Match`, and at none beyond. */
  lemma MatchIsThreshold(paths: set<Path>, q: Path, k: nat)
    requires PrefixClosed(paths)
    requires 0 < k <= |q|
    ensures q[..k] in paths <==> k <= Match(paths, q)
  {
    var r := Match(paths, q);
    if k <= r {
      assert q[..r] in paths;
      assert q[..r][..k] == q[..k];
    }
  }

  ghost predicate InRange(bids: seq<Bid>, n: nat) {
    forall i | 0 <= i < |bids| :: bids[i] < n
  }

  // ---------- Insertion ----------

  /** A bid that is already known stays where it is. */
  function Note(m: Reg, b: Bid, p: Path): Reg {
    if b in m then m else m[b := p]
  }

  /** Register bids[i] at key[..i+1] for i < k, leaving every bid that is already known where it is. */
  function Register(m: Reg, key: Path, bids: seq<Bid>, k: nat): Reg
    requires k <= |key| == |bids|
  {
    if k == 0 then m else Note(Register(m, key, bids, k - 1), bids[k - 1], key[..k])
  }

  lemma RegisterStep(m: Reg, key: Path, bids: seq<Bid>, k: nat)
    requires k < |key| == |bids|
    ensures Register(m, key, bids, k + 1) == Note(Register(m, key, bids, k), bids[k], key[..k + 1])
  {
  }

  function Insert(m: Reg, key: Path, bids: seq<Bid>): Reg
    requires |key| == |bids|
  {
    Register(m, key, bids, |key|)
  }

  /** A bid supplied for a position that is not in the tree yet is unknown, and is not supplied for an
      earlier position as well. Where it holds the assertions of the insertion code hold. One branch asks
      for less: where a leaf is extended, a bid may already point at that leaf. Such a bid ends at two
      positions of the leaf, and no registry describes that (`RepeatFitsNoTrie`). */
  ghost predicate InsertOk(m: Reg, key: Path, bids: seq<Bid>) {
    && |key| == |bids|
    && (forall i | Match(m.Values, key) <= i < |bids| :: bids[i] !in m)
    && (forall i, j | 0 <= j < i < |bids| && Match(m.Values, key) <= i :: bids[j] != bids[i])
  }

  lemma {:induction false} RegisterKeeps(m: Reg, key: Path, bids: seq<Bid>, k: nat)
    requires k <= |key| == |bids|
    ensures forall b | b in m :: b in Register(m, key, bids, k) && Register(m, key, bids, k)[b] == m[b]
    ensures forall b | b in Register(m, key, bids, k) && b !in m ::
              exists i | 0 <= i < k :: bids[i] == b && Register(m, key, bids, k)[b] == key[..i + 1]
    ensures forall i | 0 <= i < k :: bids[i] in Register(m, key, bids, k)
  {
    if k > 0 {
      RegisterKeeps(m, key, bids, k - 1);
    }
  }

  /** The effect of an insertion, bid by bid: earlier registrations keep their paths; a supplied bid
      that was unknown ends at the prefix of the key it was first supplied for; nothing else enters. */
  lemma {:induction false} InsertEffect(m: Reg, key: Path, bids: seq<Bid>)
    requires |key| == |bids|
    ensures var m' := Insert(m, key, bids);
            && (forall b | b in m :: b in m' && m'[b] == m[b])
            && (forall b :: b in m' <==> b in m || b in bids)
            && (forall i | 0 <= i < |bids| && bids[i] !in m && bids[i] !in bids[..i] :: m'[bids[i]] == key[..i + 1])
  {
    RegisterKeeps(m, key, bids, |key|);
    forall i | 0 <= i < |bids| && bids[i] !in m && bids[i] !in bids[..i]
      ensures Insert(m, key, bids)[bids[i]] == key[..i + 1]
    {
      RegisterFirst(m, key, bids, i, |key|);
    }
  }

  lemma {:induction false} RegisterFirst(m: Reg, key: Path, bids: seq<Bid>, i: nat, k: nat)
    requires i < k <= |key| == |bids|
    requires bids[i] !in m && bids[i] !in bids[..i]
    ensures bids[i] in Register(m, key, bids, k) && Register(m, key, bids, k)[bids[i]] == key[..i + 1]
  {
    if k == i + 1 {
      RegisterKeeps(m, key, bids, i);
      assert forall j | 0 <= j < i :: bids[j] == bids[..i][j] != bids[i];
    } else {
      RegisterFirst(m, key, bids, i, k - 1);
    }
  }

  /** Bid i is new where it is supplied. */
  predicate NewAt(m: Reg, bids: seq<Bid>, i: nat)
    requires i < |bids|
  {
    bids[i] !in m && bids[i] !in bids[..i]
  }

  /** Registration brings in a bid's own prefix of the key when the bid is new, and no other path. */
  lemma NewPaths(m: Reg, key: Path, bids: seq<Bid>, p: Path)
    requires |key| == |bids|
    ensures p in Insert(m, key, bids).Values <==>
            p in m.Values || (0 < |p| <= |key| && p == key[..|p|] && NewAt(m, bids, |p| - 1))
  {
    var m' := Insert(m, key, bids);
    InsertEffect(m, key, bids);
    if p in m'.Values {
      var b :| b in m' && m'[b] == p;
      if b in m {
        assert m[b] == p;
      } else {
        var i := FirstSupply(m, bids, b);
      }
    }
    if p in m.Values {
      var b :| b in m && m[b] == p;
      assert m'[b] == p;
    } else if 0 < |p| <= |key| && p == key[..|p|] && NewAt(m, bids, |p| - 1) {
      assert m'[bids[|p| - 1]] == p;
    }
  }

  /** Where a bid that is unknown is supplied first. */
  lemma FirstSupply(m: Reg, bids: seq<Bid>, b: Bid) returns (i: nat)
    requires b !in m && b in bids
    ensures i < |bids| && bids[i] == b && NewAt(m, bids, i)
  {
    var j :| 0 <= j < |bids| && bids[j] == b;
    i := 0;
    while bids[i] != b
      invariant i <= j && b !in bids[..i]
      decreases j - i
    {
      i := i + 1;
    }
  }

  /** The tree holds the old paths and every prefix of the key after an insertion exactly when the bids
      for the positions the tree does not have yet are new. */
  lemma InsertPaths(m: Reg, key: Path, bids: seq<Bid>)
    requires WellFormed(m) && |key| == |bids|
    ensures (forall p :: p in Insert(m, key, bids).Values <==>
                         p in m.Values || (0 < |p| <= |key| && p == key[..|p|])) <==> InsertOk(m, key, bids)
  {
    var paths, r := Insert(m, key, bids).Values, Match(m.Values, key);
    forall p
      ensures p in paths <==> p in m.Values || (0 < |p| <= |key| && p == key[..|p|] && NewAt(m, bids, |p| - 1))
    {
      NewPaths(m, key, bids, p);
    }
    OkIsNew(m, key, bids);
    forall i | 0 <= i < |key|
      ensures key[..i + 1] in paths <==> i < r || NewAt(m, bids, i)
    {
      assert |key[..i + 1]| == i + 1;
      MatchIsThreshold(m.Values, key, i + 1);
    }
    if InsertOk(m, key, bids) {
      forall p | 0 < |p| <= |key| && p == key[..|p|]
        ensures p in paths
      {
        assert key[..(|p| - 1) + 1] == p;
      }
    } else {
      var i :| r <= i < |bids| && !NewAt(m, bids, i);
      assert key[..i + 1] !in paths && key[..i + 1] == key[..|key[..i + 1]|];
    }
  }

  lemma OkIsNew(m: Reg, key: Path, bids: seq<Bid>)
    requires |key| == |bids|
    ensures InsertOk(m, key, bids) <==> forall i | Match(m.Values, key) <= i < |bids| :: NewAt(m, bids, i)
  {
    var r := Match(m.Values, key);
    forall i | r <= i < |bids|
      ensures NewAt(m, bids, i) <==> bids[i] !in m && forall j | 0 <= j < i :: bids[j] != bids[i]
    {
      assert forall j | 0 <= j < i :: bids[..i][j] == bids[j];
    }
  }

  /** Beyond the match, no position gets a new bid after one that gets none. */
  ghost predicate NoGap(m: Reg, key: Path, bids: seq<Bid>) {
    forall i, j | Match(m.Values, key) <= i < j < |bids| && NewAt(m, bids, j) :: NewAt(m, bids, i)
  }

  /** The registered paths stay prefix-closed and non-empty exactly when the new bids leave no gap; in
      particular when all bids beyond the match are new. */
  lemma InsertWellFormed(m: Reg, key: Path, bids: seq<Bid>)
    requires WellFormed(m) && |key| == |bids|
    ensures WellFormed(Insert(m, key, bids)) <==> NoGap(m, key, bids)
    ensures InsertOk(m, key, bids) ==> WellFormed(Insert(m, key, bids))
  {
    OkIsNew(m, key, bids);
    NeverEmpty(m, key, bids);
    if NoGap(m, key, bids) {
      forall p, k | p in Insert(m, key, bids).Values && 0 < k <= |p|
        ensures p[..k] in Insert(m, key, bids).Values
      {
        NoGapCloses(m, key, bids, p, k);
      }
    } else {
      GapOpens(m, key, bids);
    }
  }

  lemma NeverEmpty(m: Reg, key: Path, bids: seq<Bid>)
    requires WellFormed(m) && |key| == |bids|
    ensures forall b | b in Insert(m, key, bids) :: Insert(m, key, bids)[b] != []
  {
    RegisterKeeps(m, key, bids, |key|);
  }

  lemma GapOpens(m: Reg, key: Path, bids: seq<Bid>)
    requires |key| == |bids| && !NoGap(m, key, bids)
    ensures !PrefixClosed(Insert(m, key, bids).Values)
  {
    var i, j :| Match(m.Values, key) <= i < j < |bids| && NewAt(m, bids, j) && !NewAt(m, bids, i);
    var p, q := key[..j + 1], key[..i + 1];
    NewPaths(m, key, bids, p);
    NewPaths(m, key, bids, q);
    assert p[..i + 1] == q;
  }

  lemma NoGapCloses(m: Reg, key: Path, bids: seq<Bid>, p: Path, k: nat)
    requires WellFormed(m) && |key| == |bids| && p in Insert(m, key, bids).Values && 0 < k <= |p|
    requires NoGap(m, key, bids)
    ensures p[..k] in Insert(m, key, bids).Values
  {
    NewPaths(m, key, bids, p);
    NewPaths(m, key, bids, p[..k]);
    if p !in m.Values {
      assert p[..k] == key[..k];
      MatchIsThreshold(m.Values, key, k);
    }
  }

  /** How many of the prefixes key[..1], ..., key[..k] are not among `paths`. */
  function Absent(paths: set<Path>, key: Path, k: nat): (n: nat)
    requires k <= |key|
  {
    if k == 0 then 0 else Absent(paths, key, k - 1) + if key[..k] in paths then 0 else 1
  }

  /** The number reported by an insertion counts the prefixes of the key the tree did not have. */
  lemma {:induction false} InsertCount(m: Reg, key: Path, k: nat)
    requires WellFormed(m) && k <= |key|
    ensures Absent(m.Values, key, k) == if k <= Match(m.Values, key) then 0 else k - Match(m.Values, key)
  {
    if k > 0 {
      InsertCount(m, key, k - 1);
      MatchIsThreshold(m.Values, key, k);
    }
  }

  // ---------- Removal ----------

  /** Removing one bid. While an alias still holds its position nothing else changes;
      otherwise the position is cut and every registration at or below it goes with it. */
  function RemoveOne(m: Reg, b: Bid): Reg {
    if b !in m then m
    else
      var p := m[b];
      if exists c | c in m :: c != b && m[c] == p
      then m - {b}
      else map c | c in m && !(p <= m[c]) :: m[c]
  }

  /** Removing the only holder of a position removes exactly the bids at or below it. */
  lemma RemoveOneCut(m: Reg, b: Bid, gone: set<Bid>)
    requires b in m && (forall c | c in m && m[c] == m[b] :: c == b)
    requires forall c :: c in gone <==> c in m && m[b] <= m[c]
    ensures RemoveOne(m, b) == map c | c in m && !(m[b] <= m[c]) :: m[c]
    ensures |RemoveOne(m, b)| == |m| - |gone|
  {
    var m1 := RemoveOne(m, b);
    assert m1.Keys == m.Keys - gone && gone <= m.Keys;
    assert |m1| == |m1.Keys| && |m| == |m.Keys|;
  }

  /** The removal loop visits its list from the back. */
  function Remove(m: Reg, bids: seq<Bid>): Reg {
    if bids == [] then m
    else Remove(RemoveOne(m, bids[|bids| - 1]), bids[..|bids| - 1])
  }

  ghost function BidSet(bids: seq<Bid>): set<Bid> {
    set b | b in bids
  }

  ghost predicate Held(m: Reg, gone: set<Bid>, p: Path) {
    exists c :: c in m && c !in gone && m[c] == p
  }

  /** The bids outside `gone` all of whose prefixes are held by some bid outside `gone`. */
  ghost function Survivors(m: Reg, gone: set<Bid>): Reg {
    map b | b in m && b !in gone && (forall k | 0 < k <= |m[b]| :: Held(m, gone, m[b][..k])) :: m[b]
  }

  lemma RemoveOneWellFormed(m: Reg, b: Bid)
    requires WellFormed(m)
    ensures WellFormed(RemoveOne(m, b))
  {
    var m1 := RemoveOne(m, b);
    forall p, k | p in m1.Values && 0 < k <= |p|
      ensures p[..k] in m1.Values
    {
      var c :| c in m1 && m1[c] == p;
      assert p in m.Values;
      assert p[..k] in m.Values;
      var d :| d in m && m[d] == p[..k];
      assert b in m && m[b] <= p[..k] ==> m[b] <= p;
      if b in m && d == b && exists e | e in m :: e != b && m[e] == m[b] {
        var e :| e in m && e != b && m[e] == m[b];
        assert m1[e] == p[..k];
      } else {
        assert m1[d] == p[..k];
      }
    }
  }

  /** Removing b first and the set B afterwards leaves the survivors of removing both at once. */
  lemma SurvivorsStep(m: Reg, b: Bid, B: set<Bid>)
    requires WellFormed(m)
    ensures Survivors(RemoveOne(m, b), B) == Survivors(m, B + {b})
  {
    var m1 := RemoveOne(m, b);
    if b in m {
      var p := m[b];
      var aliased := exists c | c in m :: c != b && m[c] == p;
      // below a cut position nobody survives, elsewhere the same bids hold the same positions
      forall q: Path | aliased || !(p <= q)
        ensures Held(m1, B, q) <==> Held(m, B + {b}, q)
      {
        if Held(m, B + {b}, q) {
          var c :| c in m && c !in B + {b} && m[c] == q;
          assert c in m1 && m1[c] == q;
        }
        if Held(m1, B, q) {
          var c :| c in m1 && c !in B && m1[c] == q;
          assert c in m && m[c] == q && c != b;
        }
      }
      forall c | c in m
        ensures c in Survivors(m1, B) <==> c in Survivors(m, B + {b})
      {
        var q := m[c];
        if !aliased && p <= q {
          assert c !in m1;
          assert q[..|p|] == p;
          assert !Held(m, B + {b}, q[..|p|]);
        } else {
          assert forall k | 0 < k <= |q| && !aliased :: !(p <= q[..k]) by {
            forall k | 0 < k <= |q| && p <= q[..k]
              ensures p <= q
            {
            }
          }
          assert c != b ==> c in m1 && m1[c] == q;
        }
      }
    } else {
      assert forall q: Path :: Held(m, B, q) <==> Held(m, B + {b}, q) by {
        forall q: Path | Held(m, B, q)
          ensures Held(m, B + {b}, q)
        {
          var c :| c in m && c !in B && m[c] == q;
          assert c in m && c !in B + {b} && m[c] == q;
        }
      }
    }
  }

  lemma SurvivorsOfNothing(m: Reg)
    requires WellFormed(m)
    ensures Survivors(m, {}) == m
  {
    forall b, k | b in m && 0 < k <= |m[b]|
      ensures Held(m, {}, m[b][..k])
    {
      assert m[b] in m.Values;
      assert m[b][..k] in m.Values;
    }
  }

  /** Removal has an order-free closed form, in spite of the cascades inside the loop. */
  lemma {:induction false} RemoveClosedForm(m: Reg, bids: seq<Bid>)
    requires WellFormed(m)
    ensures Remove(m, bids) == Survivors(m, BidSet(bids))
    ensures WellFormed(Remove(m, bids))
    decreases |bids|
  {
    if bids == [] {
      SurvivorsOfNothing(m);
      assert BidSet(bids) == {};
    } else {
      var last, rest := bids[|bids| - 1], bids[..|bids| - 1];
      RemoveOneWellFormed(m, last);
      RemoveClosedForm(RemoveOne(m, last), rest);
      SurvivorsStep(m, last, BidSet(rest));
      assert BidSet(rest) + {last} == BidSet(bids) by {
        forall b | b in bids
          ensures b in BidSet(rest) + {last}
        {
          var i :| 0 <= i < |bids| && bids[i] == b;
          assert i < |rest| ==> rest[i] == b;
        }
      }
    }
  }

  lemma RemoveOrderFree(m: Reg, bids: seq<Bid>, bids': seq<Bid>)
    requires WellFormed(m)
    requires forall b :: b in bids <==> b in bids'
    ensures Remove(m, bids) == Remove(m, bids')
  {
    RemoveClosedForm(m, bids);
    RemoveClosedForm(m, bids');
    assert BidSet(bids) == BidSet(bids');
  }

  /** No bid outside the batch sits below a position that the batch empties. */
  ghost predicate NoCascade(m: Reg, gone: set<Bid>) {
    forall b, k | b in m && b !in gone && 0 < k <= |m[b]| :: Held(m, gone, m[b][..k])
  }

  /** A removal drops exactly the batch when, and only when, nothing outside the batch sits below
      a position the batch empties. */
  lemma RemoveExact(m: Reg, bids: seq<Bid>)
    requires WellFormed(m)
    ensures Remove(m, bids) == m - BidSet(bids) <==> NoCascade(m, BidSet(bids))
  {
    var gone := BidSet(bids);
    RemoveClosedForm(m, bids);
    var s := Survivors(m, gone);
    if s == m - gone {
      forall b, k | b in m && b !in gone && 0 < k <= |m[b]|
        ensures Held(m, gone, m[b][..k])
      {
        assert b in m - gone;
        assert b in s;
      }
    }
  }

  lemma {:induction false} DistinctSize(bids: seq<Bid>)
    requires forall i, j | 0 <= i < j < |bids| :: bids[i] != bids[j]
    ensures |BidSet(bids)| == |bids|
  {
    if bids == [] {
      assert BidSet(bids) == {};
    } else {
      var rest, last := bids[..|bids| - 1], bids[|bids| - 1];
      DistinctSize(rest);
      OneMoreBid(rest, last);
      assert bids == rest + [last];
      assert last !in rest by {
        assert forall i | 0 <= i < |rest| :: rest[i] == bids[i];
      }
    }
  }

  lemma OneMoreBid(rest: seq<Bid>, last: Bid)
    ensures BidSet(rest + [last]) == BidSet(rest) + {last}
  {
  }

  lemma SubsetOfSameSize(a: set<Bid>, b: set<Bid>)
    requires a <= b && |a| >= |b|
    ensures a == b
  {
    if x :| x in b && x !in a {
      SmallerSubset(a, b - {x});
    }
  }

  lemma {:induction false} SmallerSubset(a: set<Bid>, b: set<Bid>)
    requires a <= b
    ensures |a| <= |b|
  {
    if a != {} {
      var x :| x in a;
      SmallerSubset(a - {x}, b - {x});
    }
  }

  lemma {:induction false} RemoveShrinks(m: Reg, bids: seq<Bid>)
    ensures forall b | b in Remove(m, bids) :: b in m && b !in BidSet(bids) && Remove(m, bids)[b] == m[b]
    decreases |bids|
  {
    if bids != [] {
      RemoveShrinks(RemoveOne(m, bids[|bids| - 1]), bids[..|bids| - 1]);
      OneMoreBid(bids[..|bids| - 1], bids[|bids| - 1]);
      assert bids == bids[..|bids| - 1] + [bids[|bids| - 1]];
    }
  }

  lemma SameSizeRest(m: Reg, m': Reg, gone: set<Bid>)
    requires gone <= m.Keys && forall b | b in m' :: b in m && b !in gone && m'[b] == m[b]
    ensures |m| - |m'| <= |gone| <==> m' == m - gone
  {
    assert m'.Keys <= m.Keys - gone;
    assert |m| == |m.Keys| && |m'| == |m'.Keys| && |m.Keys - gone| == |m.Keys| - |gone|;
    if |m'| >= |m| - |gone| {
      SubsetOfSameSize(m'.Keys, m.Keys - gone);
    }
    if m' == m - gone {
      assert m'.Keys == m.Keys - gone;
    }
  }

  /** The debug assertion that a batch of distinct known bids removes no more bids than it lists holds
      when, and only when, no bid it spares lies below a position it empties. */
  lemma RemovesOnlyBatch(m: Reg, bids: seq<Bid>)
    requires WellFormed(m) && (forall i, j | 0 <= i < j < |bids| :: bids[i] != bids[j])
    requires forall b | b in bids :: b in m
    ensures |m| - |Remove(m, bids)| <= |bids| <==> NoCascade(m, BidSet(bids))
  {
    hide Remove, NoCascade, WellFormed;
    DistinctSize(bids);
    RemoveExact(m, bids);
    RemoveShrinks(m, bids);
    SameSizeRest(m, Remove(m, bids), BidSet(bids));
  }

  // ---------- Runs ----------

  datatype Op = Supply(key: Path, bids: seq<Bid>) | Discard(bids: seq<Bid>)

  /** Each bid supplied with a key is unknown or already sits at that same position. */
  ghost predicate Fits(m: Reg, key: Path, bids: seq<Bid>) {
    && |key| == |bids|
    && (forall i | 0 <= i < |bids| && bids[i] in m :: m[bids[i]] == key[..i + 1])
    && (forall i, j | 0 <= i < j < |bids| :: bids[i] != bids[j])
  }

  ghost predicate Allowed(m: Reg, op: Op) {
    op.Supply? ==> Fits(m, op.key, op.bids)
  }

  ghost function Apply(m: Reg, op: Op): Reg
    requires Allowed(m, op)
  {
    match op
    case Supply(key, bids) => Insert(m, key, bids)
    case Discard(bids) => Remove(m, bids)
  }

  /** Every operation of a run that starts from the empty registry is allowed where it is reached. */
  ghost predicate Legal(ops: seq<Op>)
    decreases |ops|, 0
  {
    ops != [] ==> Legal(ops[..|ops| - 1]) && Allowed(After(ops[..|ops| - 1]), ops[|ops| - 1])
  }

  ghost function After(ops: seq<Op>): Reg
    requires Legal(ops)
    decreases |ops|, 1
  {
    if ops == [] then map[] else Apply(After(ops[..|ops| - 1]), ops[|ops| - 1])
  }

  /** Such an insertion meets the code's own demands, and every supplied bid ends at exactly its
      prefix of the key, whether or not that prefix was in the tree. */
  lemma InsertExact(m: Reg, key: Path, bids: seq<Bid>)
    requires WellFormed(m) && Fits(m, key, bids)
    ensures InsertOk(m, key, bids)
    ensures forall i | 0 <= i < |bids| ::
              bids[i] in Insert(m, key, bids) && Insert(m, key, bids)[bids[i]] == key[..i + 1]
  {
    forall i | 0 <= i < |bids| && bids[i] in m
      ensures i < Match(m.Values, key)
    {
      assert m[bids[i]] in m.Values;
      MatchIsThreshold(m.Values, key, i + 1);
    }
    InsertEffect(m, key, bids);
    assert forall i | 0 <= i < |bids| :: bids[i] !in bids[..i];
  }

  lemma ApplyWellFormed(m: Reg, op: Op)
    requires WellFormed(m) && Allowed(m, op)
    ensures WellFormed(Apply(m, op))
  {
    match op
    case Supply(key, bids) =>
      InsertExact(m, key, bids);
      InsertWellFormed(m, key, bids);
    case Discard(bids) =>
      RemoveClosedForm(m, bids);
  }

  ghost predicate SuppliedAt(op: Op, b: Bid, p: Path) {
    op.Supply? && 0 < |p| <= |op.key| && |op.key| == |op.bids| && p == op.key[..|p|] && op.bids[|p| - 1] == b
  }

  /** The k-th operation supplied b for path p and no later one removed b. */
  ghost predicate Source(ops: seq<Op>, k: nat, b: Bid, p: Path) {
    && k < |ops| && SuppliedAt(ops[k], b, p)
    && (forall j | k < j < |ops| && ops[j].Discard? :: b !in ops[j].bids)
  }

  ghost predicate HasSource(ops: seq<Op>, b: Bid, p: Path) {
    exists k :: Source(ops, k, b, p)
  }

  /** An operation that supplies nothing new for b and does not remove it leaves its source standing. */
  lemma SourceStays(before: seq<Op>, last: Op, b: Bid, p: Path)
    requires HasSource(before, b, p) && (last.Discard? ==> b !in last.bids)
    ensures HasSource(before + [last], b, p)
  {
    var k :| Source(before, k, b, p);
    assert Source(before + [last], k, b, p);
  }

  lemma SourceStarts(before: seq<Op>, last: Op, b: Bid, p: Path)
    requires SuppliedAt(last, b, p)
    ensures HasSource(before + [last], b, p)
  {
    assert Source(before + [last], |before|, b, p);
  }

  /** A bid that one operation leaves registered was either registered there before and not removed,
      or supplied for that place just now. */
  lemma ApplySource(m: Reg, op: Op, b: Bid)
    requires WellFormed(m) && Allowed(m, op) && b in Apply(m, op)
    ensures (b in m && m[b] == Apply(m, op)[b] && (op.Discard? ==> b !in op.bids)) || SuppliedAt(op, b, Apply(m, op)[b])
  {
    match op
    case Supply(key, bids) =>
      InsertEffect(m, key, bids);
      InsertExact(m, key, bids);
      if b !in m {
        var i :| 0 <= i < |bids| && bids[i] == b;
        assert SuppliedAt(op, b, key[..i + 1]);
      }
    case Discard(bids) =>
      RemoveClosedForm(m, bids);
  }

  /** In every reachable registry the paths are prefix-closed, and each registration goes back to an
      insertion that supplied this bid for this path and that no later removal of the bid undid. */
  lemma {:induction false} RunProvenance(ops: seq<Op>)
    requires Legal(ops)
    ensures WellFormed(After(ops))
    ensures forall b | b in After(ops) :: HasSource(ops, b, After(ops)[b])
    decreases |ops|
  {
    if ops != [] {
      var before, last := ops[..|ops| - 1], ops[|ops| - 1];
      assert before + [last] == ops;
      RunProvenance(before);
      ApplyWellFormed(After(before), last);
      forall b | b in After(ops)
        ensures HasSource(ops, b, After(ops)[b])
      {
        ApplySource(After(before), last, b);
        if SuppliedAt(last, b, After(ops)[b]) {
          SourceStarts(before, last, b, After(ops)[b]);
        } else {
          SourceStays(before, last, b, After(ops)[b]);
        }
      }
    }
  }

  // ---------- A removal that takes more than its batch ----------

  /** A run reaches a registry from which removing one bid removes another as well. */
  lemma CascadeReached()
    ensures var ops := [Supply([1, 2], [1, 2])];
            && Legal(ops) && Legal(ops + [Discard([1])])
            && var m := After(ops);
               && !NoCascade(m, BidSet([1])) && |m| - |Remove(m, [1])| == 2 && After(ops + [Discard([1])]) == map[]
  {
    var op, key := Supply([1, 2], [1, 2]), [1, 2];
    LegalOne(op);
    var m: Reg := map[1 := [1], 2 := [1, 2]];
    assert Insert(map[], key, [1, 2]) == m by {
      assert key[..1] == [1] && key[..2] == [1, 2];
      assert Register(map[], key, [1, 2], 1) == map[1 := [1]];
    }
    LegalMore([op], Discard([1]));
    assert RemoveOne(m, 1) == map[] by {
      assert m[1] <= m[2];
    }
    assert [1][..0] == [];
    assert Remove(m, [1]) == Remove(RemoveOne(m, 1), []) == map[];
    assert !NoCascade(m, BidSet([1])) by {
      assert m[2][..1] == [1];
      assert !Held(m, BidSet([1]), m[2][..1]);
    }
    assert m.Keys == {1, 2} && |m| == |m.Keys|;
  }

  lemma LegalOne(op: Op)
    requires Allowed(map[], op)
    ensures Legal([op]) && After([op]) == Apply(map[], op)
  {
    assert [op][..0] == [];
  }

  lemma LegalMore(ops: seq<Op>, op: Op)
    requires Legal(ops) && Allowed(After(ops), op)
    ensures Legal(ops + [op]) && After(ops + [op]) == Apply(After(ops), op)
  {
    assert (ops + [op])[..|ops|] == ops;
  }
}
