/** The other prefix index a scheduler can be built with: a flat table from hashes to the bids that
    cache them, and the reverse table from bids to hashes. */
module HashTable {
  import opened Options
  import opened Registry

  /** What the two tables stand for: which hash each known bid caches. */
  type Tab = map<Bid, Hash>

  /** Record bids[i] for hashes[i], i < k, leaving every bid that is already known alone. */
  function Recorded(m: Tab, hashes: Path, bids: seq<Bid>, k: nat): Tab
    requires k <= |hashes| == |bids|
  {
    if k == 0 then m
    else
      var m1 := Recorded(m, hashes, bids, k - 1);
      if bids[k - 1] in m1 then m1 else m1[bids[k - 1] := hashes[k - 1]]
  }

  /** What the assertions of the insertion demand: a bid is never supplied for two hashes. */
  ghost predicate TabFits(m: Tab, hashes: Path, bids: seq<Bid>) {
    && |hashes| == |bids|
    && (forall i | 0 <= i < |bids| && bids[i] in m :: m[bids[i]] == hashes[i])
    && (forall i, j | 0 <= i < j < |bids| && bids[i] == bids[j] :: hashes[i] == hashes[j])
  }

  lemma {:induction false} RecordedEffect(m: Tab, hashes: Path, bids: seq<Bid>, k: nat)
    requires TabFits(m, hashes, bids) && k <= |bids|
    ensures forall b | b in m :: b in Recorded(m, hashes, bids, k) && Recorded(m, hashes, bids, k)[b] == m[b]
    ensures forall i | 0 <= i < k ::
              bids[i] in Recorded(m, hashes, bids, k) && Recorded(m, hashes, bids, k)[bids[i]] == hashes[i]
    ensures forall b | b in Recorded(m, hashes, bids, k) && b !in m :: exists i :: 0 <= i < k && bids[i] == b
  {
    if k > 0 {
      RecordedEffect(m, hashes, bids, k - 1);
      var m1 := Recorded(m, hashes, bids, k - 1);
      var b := bids[k - 1];
      if b in m1 && b !in m {
        var i :| 0 <= i < k - 1 && bids[i] == b;
        assert hashes[i] == hashes[k - 1];
      }
    }
  }

  lemma RecordedNothing(m: Tab, hashes: Path, bids: seq<Bid>)
    requires |hashes| == |bids|
    ensures Recorded(m, hashes, bids, 0) == m
  {
  }

  lemma NextFits(m: Tab, hashes: Path, bids: seq<Bid>, i: nat)
    requires TabFits(m, hashes, bids) && i < |bids|
    ensures var m1 := Recorded(m, hashes, bids, i);
            && (bids[i] in m1 ==> m1[bids[i]] == hashes[i])
            && Recorded(m, hashes, bids, i + 1) == if bids[i] in m1 then m1 else m1[bids[i] := hashes[i]]
  {
    RecordedEffect(m, hashes, bids, i + 1);
  }

  /** How many hashes of q[i..] come before the first one that nobody caches. */
  function LeadingFrom(known: set<Hash>, q: Path, i: nat): (r: nat)
    requires i <= |q|
    ensures i <= r <= |q|
    ensures forall j | i <= j < r :: q[j] in known
    ensures r < |q| ==> q[r] !in known
    decreases |q| - i
  {
    if i == |q| || q[i] !in known then i else LeadingFrom(known, q, i + 1)
  }

  function Leading(known: set<Hash>, q: Path): nat {
    LeadingFrom(known, q, 0)
  }

  ghost predicate ListFits(table: map<Hash, seq<Bid>>, hashes: seq<Option<Hash>>, h: Hash)
    requires h in table
  {
    && table[h] != []
    && (forall i, j | 0 <= i < j < |table[h]| :: table[h][i] != table[h][j])
    && (forall b | b in table[h] :: b < |hashes| && hashes[b] == Some(h))
  }

  ghost predicate BidFits(table: map<Hash, seq<Bid>>, hashes: seq<Option<Hash>>, b: Bid)
    requires b < |hashes| && hashes[b].Some?
  {
    hashes[b].value in table && b in table[hashes[b].value]
  }

  /** The bids under a hash, bid joining them. */
  function Listed(table: map<Hash, seq<Bid>>, h: Hash, bid: Bid): seq<Bid> {
    if h in table then table[h] + [bid] else [bid]
  }

  lemma ListRecorded(table: map<Hash, seq<Bid>>, hashes: seq<Option<Hash>>, h: Hash, bid: Bid, l: Hash)
    requires bid < |hashes| && hashes[bid].None? && (l == h || l in table)
    requires l in table ==> ListFits(table, hashes, l)
    ensures ListFits(table[h := Listed(table, h, bid)], hashes[bid := Some(h)], l)
  {
  }

  lemma BidRecorded(table: map<Hash, seq<Bid>>, hashes: seq<Option<Hash>>, h: Hash, bid: Bid, b: Bid)
    requires bid < |hashes| && b < |hashes| && (b == bid || (hashes[b].Some? && BidFits(table, hashes, b)))
    ensures BidFits(table[h := Listed(table, h, bid)], hashes[bid := Some(h)], b)
  {
  }

  class HashTableBlockHash {
    var table: map<Hash, seq<Bid>>
    var blockToHash: seq<Option<Hash>>
    var epoch: nat

    /** The list under a hash is not empty, has no repetition and names bids of that hash. */
    ghost predicate ListOk(h: Hash)
      requires h in table
      reads this`table, this`blockToHash
    {
      ListFits(table, blockToHash, h)
    }

    ghost predicate BidListed(b: Bid)
      requires b < |blockToHash| && blockToHash[b].Some?
      reads this`table, this`blockToHash
    {
      BidFits(table, blockToHash, b)
    }

    /** The two tables are mutually inverse. */
    ghost predicate Valid()
      reads this`table, this`blockToHash
    {
      && (forall h {:trigger ListOk(h)} | h in table :: ListOk(h))
      && (forall b: Bid {:trigger BidListed(b)} | b < |blockToHash| && blockToHash[b].Some? :: BidListed(b))
    }

    ghost function Contents(): (m: Tab)
      reads this`table, this`blockToHash
    {
      map b: Bid | 0 <= b < |blockToHash| && blockToHash[b].Some? :: blockToHash[b].value
    }

    constructor (numBlocks: nat)
      ensures Valid() && Contents() == map[] && |blockToHash| == numBlocks && epoch == 0
    {
      table := map[];
      blockToHash := seq(numBlocks, _ => None);
      epoch := 0;
    }

    lemma KeysAreHashes()
      requires Valid()
      ensures table.Keys == Contents().Values
    {
      forall h | h in table
        ensures h in Contents().Values
      {
        assert ListOk(h);
        var b := table[h][0];
        assert b in table[h];
        assert b in Contents() && Contents()[b] == h;
      }
      forall h | h in Contents().Values
        ensures h in table
      {
        var b :| b in Contents() && Contents()[b] == h;
        assert BidListed(b);
      }
    }

    method Insert(hashes: Path, bids: seq<Bid>) returns (n: nat)
      requires Valid() && |hashes| == |bids| && InRange(bids, |blockToHash|) && TabFits(Contents(), hashes, bids)
      modifies this
      ensures Valid() && Contents() == Recorded(old(Contents()), hashes, bids, |bids|)
      ensures n == |Contents()| - |old(Contents())|
      ensures |blockToHash| == old(|blockToHash|) && epoch == old(epoch) + 1
    {
      hide TabFits, Recorded, ListOk, BidListed, Valid;
      n := 0;
      ghost var m := Contents();
      RecordedNothing(m, hashes, bids);
      for i := 0 to |bids|
        invariant Valid() && Contents() == Recorded(m, hashes, bids, i)
        invariant n == |Contents()| - |m|
        invariant |blockToHash| == old(|blockToHash|) && epoch == old(epoch)
      {
        NextFits(m, hashes, bids, i);
        var added := Record(hashes[i], bids[i]);
        n := if added then n + 1 else n;
      }
      epoch := epoch + 1;
    }

    method Record(h: Hash, bid: Bid) returns (added: bool)
      requires Valid() && bid < |blockToHash|
      requires bid in Contents() ==> Contents()[bid] == h
      modifies this`table, this`blockToHash
      ensures Valid() && |blockToHash| == old(|blockToHash|)
      ensures added == (bid !in old(Contents()))
      ensures Contents() == if added then old(Contents())[bid := h] else old(Contents())
      ensures |Contents()| == |old(Contents())| + if added then 1 else 0
    {
      hide ListFits, BidFits;
      RecordedAlready(h, bid);
      if h in table && bid in table[h] {
        return false;
      }
      ghost var table0, hashes0 := table, blockToHash;
      blockToHash := blockToHash[bid := Some(h)];
      if h in table {
        table := table[h := table[h] + [bid]];
      } else {
        table := table[h := [bid]];
      }
      added := true;
      assert Contents() == old(Contents())[bid := h];
      forall l | l in table
        ensures ListOk(l)
      {
        assert l in table0 ==> old(ListOk(l));
        ListRecorded(table0, hashes0, h, bid, l);
      }
      forall b: Bid | b < |blockToHash| && blockToHash[b].Some?
        ensures BidListed(b)
      {
        assert b != bid ==> old(BidListed(b));
        BidRecorded(table0, hashes0, h, bid, b);
      }
    }

    lemma RecordedAlready(h: Hash, bid: Bid)
      requires Valid() && bid < |blockToHash| && (bid in Contents() ==> Contents()[bid] == h)
      ensures h in table && bid in table[h] <==> bid in Contents()
    {
      assert bid in Contents() ==> BidListed(bid);
      assert h in table ==> ListOk(h);
    }

    method Get(hashes: Path) returns (matched: nat)
      requires Valid()
      ensures matched == Leading(Contents().Values, hashes)
    {
      KeysAreHashes();
      matched := 0;
      while matched < |hashes| && hashes[matched] in table
        invariant matched <= |hashes|
        invariant Leading(Contents().Values, hashes) == LeadingFrom(Contents().Values, hashes, matched)
      {
        matched := matched + 1;
      }
    }

    method Remove(bids: seq<Bid>)
      requires Valid() && InRange(bids, |blockToHash|)
      modifies this
      ensures Valid() && Contents() == old(Contents()) - (set b | b in bids)
      ensures |blockToHash| == old(|blockToHash|) && epoch == old(epoch) + 1
    {
      for i := 0 to |bids|
        invariant Valid() && Contents() == old(Contents()) - (set b | b in bids[..i])
        invariant |blockToHash| == old(|blockToHash|) && epoch == old(epoch)
      {
        Drop(bids[i]);
        assert bids[..i + 1] == bids[..i] + [bids[i]];
      }
      assert bids[..|bids|] == bids;
      epoch := epoch + 1;
    }

    method Drop(bid: Bid)
      requires Valid() && bid < |blockToHash|
      modifies this`table, this`blockToHash
      ensures Valid() && Contents() == old(Contents()) - {bid} && |blockToHash| == old(|blockToHash|)
    {
      if blockToHash[bid].None? {
        assert Contents() == Contents() - {bid};
        return;
      }
      var h := blockToHash[bid].value;
      assert BidListed(bid) && ListOk(h);
      blockToHash := blockToHash[bid := None];
      var bids := table[h];
      var pos :| 0 <= pos < |bids| && bids[pos] == bid;
      var rest := bids[..pos] + bids[pos + 1..];
      table := if rest == [] then table - {h} else table[h := rest];
      Spliced(bids, pos);
      forall l | l in table
        ensures ListOk(l)
      {
        assert old(ListOk(l));
        assert l == h ==> table[l] == rest;
        assert l != h ==> table[l] == old(table[l]) && bid !in table[l];
      }
      forall b: Bid | b < |blockToHash| && blockToHash[b].Some?
        ensures BidListed(b)
      {
        assert old(BidListed(b));
      }
      assert Valid();
    }

    /** Taking out the only occurrence of an element keeps the others, each once. */
    static lemma Spliced(s: seq<Bid>, pos: nat)
      requires pos < |s| && (forall i, j | 0 <= i < j < |s| :: s[i] != s[j])
      ensures var r := s[..pos] + s[pos + 1..];
              && (forall b :: b in r <==> b in s && b != s[pos])
              && (forall i, j | 0 <= i < j < |r| :: r[i] != r[j])
    {
      var r := s[..pos] + s[pos + 1..];
      assert forall i | 0 <= i < |r| :: r[i] == s[if i < pos then i else i + 1];
      forall b | b in s && b != s[pos]
        ensures b in r
      {
        var i :| 0 <= i < |s| && s[i] == b;
        assert r[if i < pos then i else i - 1] == b;
      }
    }
  }
}
