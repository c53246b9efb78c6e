/** The four levels side by side: after the same insertions they answer every query alike, with the longest
    agreement of the query with any inserted key.
  */
module LadderRuns {
  import opened Registry
  import opened Ladder
  import M = LadderSeq
  import Level0
  import Level1
  import Level2
  import Level3

  lemma BuildStep(items: seq<Item>, i: nat)
    requires AllOk(items) && i < |items|
    ensures AllOk(items[..i]) && AllOk(items[..i + 1]) && items[i].Ok()
    ensures Build(items[..i + 1]) == Put(Build(items[..i]), items[i].key, items[i].payload, 0)
  {
    assert items[..i + 1][..i] == items[..i];
  }

  method RunLevel0(items: seq<Item>, query: Path) returns (n: nat)
    requires AllOk(items)
    ensures n == Best(items, query)
  {
    hide Put, Len, M.Abs;
    var t := new Level0.RadixTreeMap();
    for i := 0 to |items|
      invariant t.Valid() && AllOk(items[..i]) && M.Abs(t.roots) == Build(items[..i]) && fresh(t)
    {
      BuildStep(items, i);
      t.Insert(items[i].key, items[i].payload);
    }
    assert items[..|items|] == items;
    BuildLen(items, query);
    n := t.PrefixLen(query);
  }

  method RunLevel1(items: seq<Item>, query: Path) returns (n: nat)
    requires AllOk(items)
    ensures n == Best(items, query)
  {
    hide Put, Len, M.Abs;
    var t := new Level1.RadixTreeMap();
    for i := 0 to |items|
      invariant t.Valid() && AllOk(items[..i]) && M.Abs(t.roots) == Build(items[..i]) && fresh(t)
    {
      BuildStep(items, i);
      t.Insert(items[i].key, items[i].payload);
    }
    assert items[..|items|] == items;
    BuildLen(items, query);
    n := t.PrefixLen(query);
  }

  method RunLevel2(items: seq<Item>, query: Path) returns (n: nat)
    requires AllOk(items)
    ensures n == Best(items, query)
  {
    hide Put, Len, M.Abs;
    var t := new Level2.RadixTreeMap();
    for i := 0 to |items|
      invariant t.Valid() && AllOk(items[..i]) && M.Abs(t.models) == Build(items[..i]) && fresh(t) && fresh(t.repr)
    {
      BuildStep(items, i);
      t.Insert(items[i].key, items[i].payload);
    }
    assert items[..|items|] == items;
    BuildLen(items, query);
    n := t.PrefixLen(query);
  }

  method RunLevel3(items: seq<Item>, query: Path) returns (n: nat)
    requires AllOk(items)
    ensures n == Best(items, query)
  {
    hide Put, Len, Level3.Abs;
    var t := new Level3.RadixTreeMap();
    for i := 0 to |items|
      invariant t.Valid() && AllOk(items[..i]) && Level3.Abs(t.roots) == Build(items[..i]) && fresh(t)
    {
      BuildStep(items, i);
      t.Insert(items[i].key, items[i].payload);
    }
    assert items[..|items|] == items;
    BuildLen(items, query);
    n := t.PrefixLen(query);
  }

  /** One sequence of insertions and one query, at all four levels. */
  method RunAll(items: seq<Item>, query: Path) returns (n0: nat, n1: nat, n2: nat, n3: nat)
    requires AllOk(items)
    ensures n0 == n1 == n2 == n3 == Best(items, query)
  {
    n0 := RunLevel0(items, query);
    n1 := RunLevel1(items, query);
    n2 := RunLevel2(items, query);
    n3 := RunLevel3(items, query);
  }
}
