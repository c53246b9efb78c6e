/** The two indexes side by side: fed the same operations, they answer alike. */
module IndexRuns {
  import opened Registry
  import opened HashTable
  import opened IndexAgreement
  import RadixTree

  /** Every bid of the run is a block of the engine. */
  ghost predicate BidsBelow(ops: seq<Op>, numBlocks: nat) {
    forall i | 0 <= i < |ops| :: InRange(ops[i].bids, numBlocks)
  }

  lemma OneMore(root: Root, ops: seq<Op>, i: nat)
    requires i < |ops| && Legal(ops[..i + 1]) && Tidy(root, ops[..i + 1])
    ensures Legal(ops[..i]) && Tidy(root, ops[..i]) && Allowed(After(ops[..i]), ops[i])
    ensures After(ops[..i + 1]) == Apply(After(ops[..i]), ops[i])
    ensures match ops[i]
            case Supply(key, bids) =>
              && InsertOk(After(ops[..i]), key, bids) && TabFits(TabAfter(ops[..i]), key, bids)
              && TabAfter(ops[..i + 1]) == Recorded(TabAfter(ops[..i]), key, bids, |bids|)
            case Discard(bids) => TabAfter(ops[..i + 1]) == TabAfter(ops[..i]) - BidSet(bids)
  {
    assert ops[..i + 1][..i] == ops[..i];
    RunAligned(root, ops[..i]);
    RunProvenance(ops[..i]);
    if ops[i].Supply? {
      InsertExact(After(ops[..i]), ops[i].key, ops[i].bids);
      FitsTable(root, After(ops[..i]), TabAfter(ops[..i]), ops[i].key, ops[i].bids);
    }
  }

  lemma {:induction false} Prefix(root: Root, ops: seq<Op>, i: nat)
    requires i <= |ops| && Legal(ops) && Tidy(root, ops)
    ensures Legal(ops[..i]) && Tidy(root, ops[..i])
    decreases |ops|
  {
    if i < |ops| {
      Prefix(root, ops[..|ops| - 1], i);
      assert ops[..|ops| - 1][..i] == ops[..i];
    } else {
      assert ops[..i] == ops;
    }
  }

  ghost predicate Fed(trie: RadixTree.RadixTreeBlockHash, table: HashTableBlockHash, m: Reg, t: Tab, numBlocks: nat)
    reads trie, table
  {
    && trie.Valid() && |trie.owner| == numBlocks && trie.Contents() == m
    && table.Valid() && |table.blockToHash| == numBlocks && table.Contents() == t
  }

  method FeedInsertion(trie: RadixTree.RadixTreeBlockHash, table: HashTableBlockHash, key: Path, bids: seq<Bid>,
                       ghost m: Reg, ghost t: Tab, numBlocks: nat)
    requires Fed(trie, table, m, t, numBlocks)
    requires |key| == |bids| && InRange(bids, numBlocks) && InsertOk(m, key, bids) && TabFits(t, key, bids)
    modifies trie, table
    ensures Fed(trie, table, Insert(m, key, bids), Recorded(t, key, bids, |bids|), numBlocks)
  {
    hide InsertOk, TabFits, Insert, Recorded, RadixTree.LeafTakes;
    var added, ok := trie.Insert(key, bids);
    var recorded := table.Insert(key, bids);
  }

  method FeedRemoval(trie: RadixTree.RadixTreeBlockHash, table: HashTableBlockHash, bids: seq<Bid>,
                     ghost m: Reg, ghost t: Tab, numBlocks: nat)
    requires Fed(trie, table, m, t, numBlocks) && InRange(bids, numBlocks)
    modifies trie, table
    ensures Fed(trie, table, Remove(m, bids), t - BidSet(bids), numBlocks)
  {
    hide Remove;
    trie.Remove(bids);
    table.Remove(bids);
  }

  /** Feeds one run to a fresh trie and a fresh table and puts one query to both. */
  method RunBoth(ghost root: Root, ops: seq<Op>, numBlocks: nat, q: Path) returns (inTrie: nat, inTable: nat)
    requires Legal(ops) && Tidy(root, ops) && Chained(root, q) && BidsBelow(ops, numBlocks)
    ensures inTrie == inTable == Match(After(ops).Values, q)
  {
    hide Legal, Tidy, After, TabAfter, InsertOk, TabFits, Recorded, Match, Leading, Chained, Fed;
    var trie := new RadixTree.RadixTreeBlockHash(numBlocks);
    var table := new HashTableBlockHash(numBlocks);
    Start(root, ops);
    FedAtStart(trie, table, numBlocks);
    for i := 0 to |ops|
      invariant fresh(trie) && fresh(table)
      invariant Legal(ops[..i]) && Fed(trie, table, After(ops[..i]), TabAfter(ops[..i]), numBlocks)
    {
      Prefix(root, ops, i + 1);
      OneMore(root, ops, i);
      match ops[i] {
        case Supply(key, bids) =>
          FeedInsertion(trie, table, key, bids, After(ops[..i]), TabAfter(ops[..i]), numBlocks);
        case Discard(bids) =>
          FeedRemoval(trie, table, bids, After(ops[..i]), TabAfter(ops[..i]), numBlocks);
      }
    }
    assert ops[..|ops|] == ops;
    RunAgrees(root, ops, q);
    inTrie, inTable := AskBoth(trie, table, After(ops), TabAfter(ops), numBlocks, q);
  }

  method AskBoth(trie: RadixTree.RadixTreeBlockHash, table: HashTableBlockHash, ghost m: Reg, ghost t: Tab,
                 numBlocks: nat, q: Path)
    returns (inTrie: nat, inTable: nat)
    requires Fed(trie, table, m, t, numBlocks)
    ensures inTrie == Match(m.Values, q) && inTable == Leading(t.Values, q)
  {
    inTrie := trie.Get(q);
    inTable := table.Get(q);
  }

  lemma FedAtStart(trie: RadixTree.RadixTreeBlockHash, table: HashTableBlockHash, numBlocks: nat)
    requires trie.Valid() && |trie.owner| == numBlocks && trie.Contents() == map[]
    requires table.Valid() && |table.blockToHash| == numBlocks && table.Contents() == map[]
    ensures Fed(trie, table, map[], map[], numBlocks)
  {
  }

  lemma Start(root: Root, ops: seq<Op>)
    ensures Legal(ops[..0]) && Tidy(root, ops[..0]) && After(ops[..0]) == map[] && TabAfter(ops[..0]) == map[]
  {
  }
}
