/** The elementary changes that the trie's operations are made of, each preserving the invariant. */
module TrieSteps {
  import opened Options
  import opened Registry
  import opened TrieStore

  // ---------- Collecting a placeholder ----------

  /** Node p drops its placeholder child c, which is freed; `ch` is what remains of p's children. */
  ghost function Collect(t: Trie, p: NodeId, c: NodeId, ch: Children): Trie
    requires p in t.arena
  {
    t.(arena := (t.arena - {c})[p := t.arena[p].(children := ch)],
       start := t.start - {c},
       parent := t.parent - {c})
  }

  ghost predicate CanCollect(t: Trie, p: NodeId, c: NodeId, ch: Children) {
    && Inv(t) && p in t.arena && c in t.arena[p].children.Ids()
    && c in t.arena && t.arena[c].value == []
    && ch.Ids() == t.arena[p].children.Ids() - {c} && KidsOk(t.arena, ch)
  }

  lemma CollectInv(t: Trie, p: NodeId, c: NodeId, ch: Children)
    requires CanCollect(t, p, c, ch)
    ensures Inv(Collect(t, p, c, ch))
  {
    CollectEdges(t, p, c, ch);
    CollectPlaces(t, p, c, ch);
    CollectBids(t, p, c, ch);
  }

  lemma CollectDomains(t: Trie, p: NodeId, c: NodeId, ch: Children)
    requires CanCollect(t, p, c, ch)
    ensures p != c && c != ROOT && NodeOk(t, c) && NodeOk(t, p) && DownOk(t, p, c)
    ensures t.arena[c].children.Ids() == {} && t.arena[c].payload == []
    ensures Domains(Collect(t, p, c, ch)) && Collect(t, p, c, ch).arena.Keys == t.arena.Keys - {c}
  {
    assert DownOk(t, p, c) && NodeOk(t, c) && NodeOk(t, p);
    assert p != c;
    assert Collect(t, p, c, ch).arena.Keys == t.arena.Keys - {c};
  }

  lemma CollectEdges(t: Trie, p: NodeId, c: NodeId, ch: Children)
    requires CanCollect(t, p, c, ch)
    ensures var t' := Collect(t, p, c, ch); Domains(t') && Edges(t')
  {
    hide Places, Bids, NodeOk, DownOk, UpOk, KidsOk;
    CollectDomains(t, p, c, ch);
    var t' := Collect(t, p, c, ch);
    forall n | n in t'.arena
      ensures NodeOk(t', n)
    {
      assert NodeOk(t, n);
      CollectNode(t, p, c, ch, n);
    }
    forall n, d | n in t'.arena && d in t'.arena[n].children.Ids()
      ensures DownOk(t', n, d)
    {
      assert DownOk(t, n, d);
      CollectDown(t, p, c, ch, n, d);
    }
    forall d | d in t'.arena && d != ROOT
      ensures UpOk(t', d)
    {
      assert UpOk(t, d);
      CollectUp(t, p, c, ch, d);
    }
  }

  lemma CollectNode(t: Trie, p: NodeId, c: NodeId, ch: Children, n: NodeId)
    requires CanCollect(t, p, c, ch) && p != c && n in t.arena && n != c && NodeOk(t, n)
    requires Domains(Collect(t, p, c, ch))
    ensures NodeOk(Collect(t, p, c, ch), n)
  {
    hide Edges, Places, Bids;
    KidsFrame(t.arena, Collect(t, p, c, ch).arena, Collect(t, p, c, ch).arena[n].children);
  }

  lemma CollectDown(t: Trie, p: NodeId, c: NodeId, ch: Children, n: NodeId, d: NodeId)
    requires CanCollect(t, p, c, ch) && p != c && DownOk(t, p, c) && n in t.arena && n != c && DownOk(t, n, d)
    requires Domains(Collect(t, p, c, ch)) && d in Collect(t, p, c, ch).arena[n].children.Ids()
    ensures DownOk(Collect(t, p, c, ch), n, d)
  {
    hide Edges, Places, Bids, KidsOk;
  }

  lemma CollectUp(t: Trie, p: NodeId, c: NodeId, ch: Children, d: NodeId)
    requires CanCollect(t, p, c, ch) && p != c && t.arena[c].children.Ids() == {} && d in t.arena && d != c
    requires Domains(Collect(t, p, c, ch)) && UpOk(t, d)
    ensures UpOk(Collect(t, p, c, ch), d)
  {
    hide Edges, Places, Bids, KidsOk;
  }

  lemma CollectPlaces(t: Trie, p: NodeId, c: NodeId, ch: Children)
    requires CanCollect(t, p, c, ch)
    ensures var t' := Collect(t, p, c, ch); Domains(t') && Places(t')
  {
    CollectDomains(t, p, c, ch);
    var t' := Collect(t, p, c, ch);
    forall n, i: nat | n in t'.arena && i < |t'.arena[n].value|
      ensures PosOk(t', n, i)
    {
      assert PosOk(t, n, i);
    }
    forall q | q in t'.at
      ensures PathOk(t', q)
    {
      assert PathOk(t, q);
      assert t.at[q].0 in t'.arena;
    }
  }

  lemma CollectBids(t: Trie, p: NodeId, c: NodeId, ch: Children)
    requires CanCollect(t, p, c, ch)
    ensures var t' := Collect(t, p, c, ch); Domains(t') && Bids(t')
  {
    CollectDomains(t, p, c, ch);
    var t' := Collect(t, p, c, ch);
    forall n, i: nat | n in t'.arena && i < |t'.arena[n].payload|
      ensures SlotOk(t', n, i)
    {
      assert SlotOk(t, n, i);
    }
    forall b | b in t'.reg
      ensures BidOk(t', b)
    {
      assert BidOk(t, b) && PathOk(t, t.reg[b]);
      assert t.at[t.reg[b]].0 in t'.arena;
    }
  }

  // ---------- Aliases ----------

  /** Bid b joins the holders of position i of node n. */
  ghost function AddAlias(t: Trie, n: NodeId, i: nat, b: Bid): Trie
    requires Domains(t) && n in t.arena && i < |t.arena[n].payload| && i < |t.arena[n].value| && b < |t.owner|
  {
    var nd := t.arena[n];
    t.(arena := t.arena[n := nd.(payload := nd.payload[i := nd.payload[i] + [b]])],
       owner := t.owner[b := Some(n)],
       reg := t.reg[b := Upto(t.start[n], nd.value, i)])
  }

  /** What the invariant says about one live position. */
  lemma AtPosition(t: Trie, n: NodeId, i: nat)
    requires Inv(t) && n in t.arena && (i < |t.arena[n].value| || i < |t.arena[n].payload|)
    ensures |t.arena[n].payload| == |t.arena[n].value| && PosOk(t, n, i) && SlotOk(t, n, i)
  {
    assert NodeOk(t, n);
  }

  /** What the invariant says about one registered bid. */
  lemma AtBid(t: Trie, b: Bid)
    requires Inv(t) && b in t.reg
    ensures BidOk(t, b) && b < |t.owner| && t.reg[b] in t.at && PathOk(t, t.reg[b])
    ensures var (n, i) := t.at[t.reg[b]]; n in t.arena && NodeOk(t, n) && t.start[n] <= t.reg[b]
  {
    assert BidOk(t, b) && PathOk(t, t.reg[b]);
    assert NodeOk(t, t.at[t.reg[b]].0);
  }

  lemma AddAliasInv(t: Trie, n: NodeId, i: nat, b: Bid)
    requires Inv(t) && n in t.arena && i < |t.arena[n].value| && b < |t.owner| && b !in t.reg
    requires i < |t.arena[n].payload|
    ensures Inv(AddAlias(t, n, i, b))
  {
    hide Edges, Places, PosOk, SlotOk, BidOk;
    var t' := AddAlias(t, n, i, b);
    AtPosition(t, n, i);
    SameSkeleton(t, t');
    forall m, j: nat | m in t'.arena && j < |t'.arena[m].payload|
      ensures SlotOk(t', m, j)
    {
      AtPosition(t, m, j);
      AddAliasSlot(t, n, i, b, m, j);
    }
    forall c | c in t'.reg
      ensures BidOk(t', c)
    {
      if c != b { assert BidOk(t, c); }
      AddAliasBid(t, n, i, b, c);
    }
  }

  lemma AddAliasSlot(t: Trie, n: NodeId, i: nat, b: Bid, m: NodeId, j: nat)
    requires Domains(t) && n in t.arena && i < |t.arena[n].value| && i < |t.arena[n].payload| && b < |t.owner|
    requires b !in t.reg && m in t.arena && j < |t.arena[m].payload| && SlotOk(t, m, j)
    ensures var t' := AddAlias(t, n, i, b); Domains(t') && SlotOk(t', m, j)
  {
  }

  lemma AddAliasBid(t: Trie, n: NodeId, i: nat, b: Bid, c: Bid)
    requires Domains(t) && n in t.arena && i < |t.arena[n].value| && i < |t.arena[n].payload| && b < |t.owner|
    requires PosOk(t, n, i) && c in AddAlias(t, n, i, b).reg && (c != b ==> BidOk(t, c))
    ensures BidOk(AddAlias(t, n, i, b), c)
  {
    var t' := AddAlias(t, n, i, b);
    assert t'.arena[n].payload[i][|t.arena[n].payload[i]|] == b;
  }

  /** Bid b leaves the holders of position i of node n; `rest` is who remains. */
  ghost function DropAlias(t: Trie, n: NodeId, i: nat, b: Bid, rest: seq<Bid>): Trie
    requires n in t.arena && i < |t.arena[n].payload| && b < |t.owner|
  {
    var nd := t.arena[n];
    t.(arena := t.arena[n := nd.(payload := nd.payload[i := rest])],
       owner := t.owner[b := None],
       reg := t.reg - {b})
  }

  ghost predicate CanDrop(t: Trie, n: NodeId, i: nat, b: Bid, rest: seq<Bid>) {
    && n in t.arena && i < |t.arena[n].payload| && b in t.arena[n].payload[i] && b < |t.owner|
    && rest != [] && Distinct(rest) && (forall c :: c in rest <==> c in t.arena[n].payload[i] && c != b)
  }

  lemma DropAliasInv(t: Trie, n: NodeId, i: nat, b: Bid, rest: seq<Bid>)
    requires Inv(t) && CanDrop(t, n, i, b, rest)
    ensures Inv(DropAlias(t, n, i, b, rest))
  {
    hide Edges, Places, PosOk, SlotOk, BidOk;
    var t' := DropAlias(t, n, i, b, rest);
    AtPosition(t, n, i);
    SameSkeleton(t, t');
    forall m, j: nat | m in t'.arena && j < |t'.arena[m].payload|
      ensures SlotOk(t', m, j)
    {
      AtPosition(t, m, j);
      DropAliasSlot(t, n, i, b, rest, m, j);
    }
    forall c | c in t'.reg
      ensures BidOk(t', c)
    {
      assert BidOk(t, c);
      DropAliasBid(t, n, i, b, rest, c);
    }
  }

  lemma DropAliasSlot(t: Trie, n: NodeId, i: nat, b: Bid, rest: seq<Bid>, m: NodeId, j: nat)
    requires Domains(t) && CanDrop(t, n, i, b, rest) && m in t.arena && j < |t.arena[m].payload|
    requires i < |t.arena[n].value| && PosOk(t, n, i) && SlotOk(t, n, i)
    requires j < |t.arena[m].value| && PosOk(t, m, j) && SlotOk(t, m, j)
    ensures var t' := DropAlias(t, n, i, b, rest); Domains(t') && SlotOk(t', m, j)
  {
  }

  lemma DropAliasBid(t: Trie, n: NodeId, i: nat, b: Bid, rest: seq<Bid>, c: Bid)
    requires CanDrop(t, n, i, b, rest) && c in t.reg && c != b && BidOk(t, c)
    ensures BidOk(DropAlias(t, n, i, b, rest), c)
  {
  }

  /** Changes confined to the bids leave nodes, edges and located paths alone. */
  lemma SameSkeleton(t: Trie, t': Trie)
    requires Inv(t)
    requires t'.start == t.start && t'.parent == t.parent && t'.at == t.at && t'.arena.Keys == t.arena.Keys
    requires forall n | n in t.arena :: t'.arena[n].value == t.arena[n].value &&
                                        t'.arena[n].children == t.arena[n].children &&
                                        |t'.arena[n].payload| == |t.arena[n].payload|
    ensures Domains(t') && Edges(t') && Places(t')
  {
    forall n | n in t'.arena
      ensures NodeOk(t', n)
    {
      assert NodeOk(t, n);
    }
    forall n, c | n in t'.arena && c in t'.arena[n].children.Ids()
      ensures DownOk(t', n, c)
    {
      assert DownOk(t, n, c);
    }
    forall c | c in t'.arena && c != ROOT
      ensures UpOk(t', c)
    {
      assert UpOk(t, c);
    }
    forall n, i: nat | n in t'.arena && i < |t'.arena[n].value|
      ensures PosOk(t', n, i)
    {
      assert PosOk(t, n, i);
    }
    forall p | p in t'.at
      ensures PathOk(t', p)
    {
      assert PathOk(t, p);
    }
  }

  /** The registry part of `Bids`. */
  ghost predicate Owned(t: Trie) {
    && (forall b {:trigger BidOk(t, b)} | b in t.reg :: BidOk(t, b))
    && (forall b {:trigger t.owner[b]} | 0 <= b < |t.owner| && t.owner[b].Some? :: b in t.reg)
  }

  /** The slot part of `Bids`. */
  ghost predicate Slots(t: Trie)
    requires Domains(t)
  {
    forall m, i: nat {:trigger SlotOk(t, m, i)} | m in t.arena && i < |t.arena[m].payload| :: SlotOk(t, m, i)
  }

  /** A child container stays well formed while its live children keep the first element of their labels. */
  lemma KidsFrame(arena: Arena, arena': Arena, ch: Children)
    requires KidsOk(arena, ch)
    requires forall d | d in ch.Ids() && d in arena' && arena'[d].value != [] ::
               d in arena && arena[d].value != [] && arena[d].value[0] == arena'[d].value[0]
    ensures KidsOk(arena', ch)
  {
  }

  /** The children part of `Edges`, on its own. */
  ghost predicate Links(t: Trie)
    requires Domains(t)
  {
    && (forall n, c {:trigger DownOk(t, n, c)} | n in t.arena && c in t.arena[n].children.Ids() :: DownOk(t, n, c))
    && (forall c {:trigger UpOk(t, c)} | c in t.arena && c != ROOT :: UpOk(t, c))
  }

  ghost predicate Nodes(t: Trie)
    requires Domains(t)
  {
    forall n {:trigger NodeOk(t, n)} | n in t.arena :: NodeOk(t, n)
  }

  lemma UptoAppendAt(s: Path, v: Path, w: Path, i: nat)
    requires i < |v + w|
    ensures Upto(s, v + w, i) == if i < |v| then Upto(s, v, i) else Upto(s + v, w, i - |v|)
  {
    if i < |v| {
      assert (v + w)[..i + 1] == v[..i + 1];
    } else {
      assert (v + w)[..i + 1] == v + w[..i - |v| + 1];
    }
  }

  lemma UptoMonotone(s: Path, v: Path)
    ensures forall i: nat, j: nat {:trigger Upto(s, v, i), Upto(s, v, j)} | i <= j < |v| ::
              Upto(s, v, i) <= Upto(s, v, j)
  {
    forall i: nat, j: nat | i <= j < |v|
      ensures Upto(s, v, i) <= Upto(s, v, j)
    {
      assert v[..j + 1][..i + 1] == v[..i + 1];
    }
  }

  /** A prefix of s + w that is no longer than s is a prefix of s. */
  lemma PrefixOfFirst(p: Path, s: Path, w: Path)
    ensures p <= s + w && |p| <= |s| ==> p <= s
  {
    assert (s + w)[..|s|] == s;
  }

  // ---------- Growing the tree ----------

  function Singles(bids: seq<Bid>): (r: seq<seq<Bid>>)
    ensures |r| == |bids| && forall i | 0 <= i < |bids| :: r[i] == [bids[i]]
  {
    seq(|bids|, i requires 0 <= i < |bids| => [bids[i]])
  }

  function Claim(owner: Owners, bids: set<Bid>, n: NodeId): (r: Owners)
    ensures |r| == |owner| && forall b | 0 <= b < |owner| :: r[b] == if b in bids then Some(n) else owner[b]
  {
    seq(|owner|, b requires 0 <= b < |owner| => if b in bids then Some(n) else owner[b])
  }

  /** Locate the paths base + key[..i+1] at positions off + i of node g. */
  ghost function Locate(at: map<Path, (NodeId, nat)>, base: Path, key: Path, g: NodeId, off: nat)
    : map<Path, (NodeId, nat)>
  {
    var added := set i: nat | i < |key| :: Upto(base, key, i);
    map p | p in at.Keys + added :: if p in at then at[p] else (g, if |p| > |base| then off + |p| - |base| - 1 else off)
  }

  /** `reg'` adds exactly the supplied bids to `reg`, bids[i] at base + key[..i+1]. */
  ghost predicate Attaches(reg: Reg, base: Path, key: Path, bids: seq<Bid>, reg': Reg) {
    && |bids| == |key|
    && reg'.Keys == reg.Keys + (set b | b in bids)
    && (forall b | b in reg && b !in bids :: reg'[b] == reg[b])
    && (forall i | 0 <= i < |bids| :: bids[i] in reg' && reg'[bids[i]] == Upto(base, key, i))
  }

  /** Where the rest of a key can be attached: its paths are new. */
  ghost predicate NewBranch(t: Trie, base: Path, key: Path, bids: seq<Bid>) {
    |bids| == |key| && key != [] && base + [key[0]] !in t.at && InRange(bids, |t.owner|)
  }

  /** Unknown and distinct bids. */
  ghost predicate NewBids(t: Trie, bids: seq<Bid>) {
    Distinct(bids) && (forall i | 0 <= i < |bids| :: bids[i] !in t.reg)
  }

  ghost predicate FreshTail(t: Trie, base: Path, key: Path, bids: seq<Bid>) {
    NewBranch(t, base, key, bids) && NewBids(t, bids)
  }

  lemma FreshPaths(t: Trie, base: Path, key: Path, i: nat)
    requires Inv(t) && key != [] && base + [key[0]] !in t.at && i < |key|
    ensures base + key[..i + 1] !in t.at
  {
    var p := base + key[..i + 1];
    if p in t.at {
      assert p[..|base| + 1] == base + [key[0]];
      PrefixIsLocated(t, p, |base| + 1);
      assert false;
    }
  }

  /** A walked leaf takes the rest of the key into its own label. */
  ghost function Extend(t: Trie, n: NodeId, key: Path, bids: seq<Bid>, reg': Reg): Trie
    requires Domains(t) && n in t.arena
  {
    var nd := t.arena[n];
    t.(arena := t.arena[n := nd.(value := nd.value + key, payload := nd.payload + Singles(bids))],
       owner := Claim(t.owner, (set b | b in bids), n),
       at := Locate(t.at, Full(t, n), key, n, |nd.value|),
       reg := reg')
  }

  ghost predicate CanExtend(t: Trie, n: NodeId, key: Path, bids: seq<Bid>, reg': Reg) {
    && Inv(t) && n in t.arena && t.arena[n].value != [] && t.arena[n].children.IsEmpty()
    && FreshTail(t, Full(t, n), key, bids) && Attaches(t.reg, Full(t, n), key, bids, reg')
  }

  lemma ExtendInv(t: Trie, n: NodeId, key: Path, bids: seq<Bid>, reg': Reg)
    requires CanExtend(t, n, key, bids, reg')
    ensures Inv(Extend(t, n, key, bids, reg'))
  {
    hide Extend, CanExtend, NodeOk, SlotOk, BidOk, Edges, Places;
    ExtendEdges(t, n, key, bids, reg');
    ExtendPlaces(t, n, key, bids, reg');
    ExtendSlots(t, n, key, bids, reg');
    ExtendTail(t, n, key, bids, reg');
  }

  lemma ExtendTail(t: Trie, n: NodeId, key: Path, bids: seq<Bid>, reg': Reg)
    requires CanExtend(t, n, key, bids, reg')
    ensures Owned(Extend(t, n, key, bids, reg'))
  {
    var nd := t.arena[n];
    assert NodeOk(t, n);
    ExtendTailAt(t, n, key, bids, reg');
  }

  lemma ExtendTailAt(t: Trie, n: NodeId, key: Path, bids: seq<Bid>, reg': Reg)
    requires CanExtend(t, n, key, bids, reg') && |t.arena[n].payload| == |t.arena[n].value|
    ensures Owned(Extend(t, n, key, bids, reg'))
  {
    hide Edges, Places, Bids, NodeOk, SlotOk, BidOk, Owned;
    TailBids(t, Extend(t, n, key, bids, reg'), Full(t, n), key, bids, n, |t.arena[n].value|);
  }

  /** No valid tree has this arena. */
  ghost predicate FitsNoTrie(arena: Arena) {
    forall t: Trie | t.arena == arena :: !Inv(t)
  }

  /** The code lets a leaf extension pass when each bid points nowhere or at the leaf. Where one already
      points at the leaf, or is supplied twice, the extended leaf repeats it and stands for no registry;
      together with `ExtendInv` this makes new, distinct bids the exact condition. */
  lemma ExtensionRepeats(t: Trie, n: NodeId, bids: seq<Bid>, arena: Arena)
    requires Inv(t) && n in t.arena && n in arena
    requires arena[n].payload == t.arena[n].payload + Singles(bids)
    requires forall b | b in bids :: b < |t.owner| && t.owner[b] in {None, Some(n)}
    requires !NewBids(t, bids)
    ensures FitsNoTrie(arena)
  {
    var i, j, b := Repeat(t, n, bids);
    forall t': Trie | t'.arena == arena
      ensures !Inv(t')
    {
      if Inv(t') { RepeatFitsNoTrie(t', b, n, i, j); }
    }
  }

  /** Two positions at which the extended payload holds the same bid. */
  lemma Repeat(t: Trie, n: NodeId, bids: seq<Bid>) returns (i: nat, j: nat, b: Bid)
    requires Inv(t) && n in t.arena && !NewBids(t, bids)
    requires forall b | b in bids :: b < |t.owner| && t.owner[b] in {None, Some(n)}
    ensures var payload := t.arena[n].payload + Singles(bids);
            i < j < |payload| && b in payload[i] && b in payload[j]
  {
    var former, added := t.arena[n].payload, Singles(bids);
    var payload := former + added;
    if Distinct(bids) {
      var k :| 0 <= k < |bids| && bids[k] in t.reg;
      b := bids[k];
      assert BidOk(t, b);
      i, j := t.at[t.reg[b]].1, |former| + k;
      assert payload[i] == former[i] && payload[j] == added[k];
    } else {
      var k, l :| 0 <= k < l < |bids| && bids[k] == bids[l];
      i, j, b := |former| + k, |former| + l, bids[k];
      assert payload[i] == added[k] && payload[j] == added[l];
    }
  }

  lemma ExtendEdges(t: Trie, n: NodeId, key: Path, bids: seq<Bid>, reg': Reg)
    requires CanExtend(t, n, key, bids, reg')
    ensures var t' := Extend(t, n, key, bids, reg'); Domains(t') && Edges(t')
  {
    hide Places, Bids, NodeOk, UpOk, DownOk;
    var t' := Extend(t, n, key, bids, reg');
    FullIsLocated(t, n);
    forall m | m in t'.arena
      ensures NodeOk(t', m)
    {
      assert NodeOk(t, m);
      ExtendNode(t, n, key, bids, reg', m);
    }
    forall m, d | m in t'.arena && d in t'.arena[m].children.Ids()
      ensures DownOk(t', m, d)
    {
      assert DownOk(t, m, d);
      ExtendDown(t, n, key, bids, reg', m, d);
    }
    forall d | d in t'.arena && d != ROOT
      ensures UpOk(t', d)
    {
      assert UpOk(t, d);
      ExtendUp(t, n, key, bids, reg', d);
    }
  }

  lemma ExtendNode(t: Trie, n: NodeId, key: Path, bids: seq<Bid>, reg': Reg, m: NodeId)
    requires Domains(t) && n in t.arena && n != ROOT && t.arena[n].value != [] && |key| == |bids|
    requires m in t.arena && NodeOk(t, m)
    ensures var t' := Extend(t, n, key, bids, reg'); Domains(t') && NodeOk(t', m)
  {
    KidsFrame(t.arena, Extend(t, n, key, bids, reg').arena, t.arena[m].children);
  }

  lemma ExtendDown(t: Trie, n: NodeId, key: Path, bids: seq<Bid>, reg': Reg, m: NodeId, d: NodeId)
    requires Domains(t) && n in t.arena && t.arena[n].children.IsEmpty()
    requires m in t.arena && d in t.arena[m].children.Ids() && DownOk(t, m, d)
    ensures var t' := Extend(t, n, key, bids, reg'); Domains(t') && DownOk(t', m, d)
  {
  }

  lemma ExtendUp(t: Trie, n: NodeId, key: Path, bids: seq<Bid>, reg': Reg, d: NodeId)
    requires Domains(t) && n in t.arena && d in t.arena && UpOk(t, d)
    ensures var t' := Extend(t, n, key, bids, reg'); Domains(t') && UpOk(t', d)
  {
  }

  lemma ExtendPlaces(t: Trie, n: NodeId, key: Path, bids: seq<Bid>, reg': Reg)
    requires CanExtend(t, n, key, bids, reg')
    ensures var t' := Extend(t, n, key, bids, reg'); Domains(t') && Places(t')
  {
    var t' := Extend(t, n, key, bids, reg');
    forall j: nat | j < |key|
      ensures Upto(Full(t, n), key, j) !in t.at
    {
      FreshPaths(t, Full(t, n), key, j);
    }
    forall m, i: nat | m in t'.arena && i < |t'.arena[m].value|
      ensures PosOk(t', m, i)
    {
      if i < |t.arena[m].value| { assert PosOk(t, m, i); }
      ExtendPos(t, n, key, bids, reg', m, i);
    }
    forall p | p in t'.at
      ensures PathOk(t', p)
    {
      if p in t.at { assert PathOk(t, p); }
      ExtendPath(t, n, key, bids, reg', p);
    }
  }

  lemma ExtendPos(t: Trie, n: NodeId, key: Path, bids: seq<Bid>, reg': Reg, m: NodeId, i: nat)
    requires Domains(t) && n in t.arena && m in t.arena
    requires i < |t.arena[m].value| ==> PosOk(t, m, i)
    requires forall j: nat | j < |key| :: Upto(Full(t, n), key, j) !in t.at
    requires i < |Extend(t, n, key, bids, reg').arena[m].value|
    ensures var t' := Extend(t, n, key, bids, reg'); Domains(t') && PosOk(t', m, i)
  {
    var s, v := t.start[n], t.arena[n].value;
    if m == n { UptoAppendAt(s, v, key, i); }
    if m == n && i >= |v| {
      assert Upto(s + v, key, i - |v|) in Locate(t.at, s + v, key, n, |v|);
    }
  }

  lemma ExtendPath(t: Trie, n: NodeId, key: Path, bids: seq<Bid>, reg': Reg, p: Path)
    requires Domains(t) && n in t.arena && p in Extend(t, n, key, bids, reg').at
    requires p in t.at ==> PathOk(t, p)
    ensures var t' := Extend(t, n, key, bids, reg'); Domains(t') && PathOk(t', p)
  {
    var s, v := t.start[n], t.arena[n].value;
    if p in t.at {
      var (m, i) := t.at[p];
      if m == n { UptoAppendAt(s, v, key, i); }
    } else {
      var i: nat :| i < |key| && p == Upto(Full(t, n), key, i);
      UptoAppendAt(s, v, key, |v| + i);
    }
  }

  lemma ExtendSlots(t: Trie, n: NodeId, key: Path, bids: seq<Bid>, reg': Reg)
    requires CanExtend(t, n, key, bids, reg')
    ensures var t' := Extend(t, n, key, bids, reg'); Domains(t') && Slots(t')
  {
    hide Edges, Places, NodeOk, SlotOk, PosOk, Upto;
    var t' := Extend(t, n, key, bids, reg');
    forall m, i: nat | m in t'.arena && i < |t'.arena[m].payload|
      ensures SlotOk(t', m, i)
    {
      if i < |t.arena[m].payload| {
        AtPosition(t, m, i);
        ExtendOldSlot(t, n, key, bids, reg', m, i);
      } else {
        SamePayload(t, n);
        ExtendNewSlot(t, n, key, bids, reg', i - |t.arena[n].payload|);
      }
    }
  }

  lemma SamePayload(t: Trie, n: NodeId)
    requires Inv(t) && n in t.arena
    ensures |t.arena[n].payload| == |t.arena[n].value|
  {
    assert NodeOk(t, n);
  }

  lemma ExtendOldSlot(t: Trie, n: NodeId, key: Path, bids: seq<Bid>, reg': Reg, m: NodeId, i: nat)
    requires CanExtend(t, n, key, bids, reg') && m in t.arena && i < |t.arena[m].payload| && SlotOk(t, m, i)
    ensures var t' := Extend(t, n, key, bids, reg'); Domains(t') && SlotOk(t', m, i)
  {
    hide Edges, Places, Bids;
    if m == n { UptoAppendAt(t.start[n], t.arena[n].value, key, i); }
  }

  lemma ExtendNewSlot(t: Trie, n: NodeId, key: Path, bids: seq<Bid>, reg': Reg, j: nat)
    requires Domains(t) && n in t.arena && |t.arena[n].payload| == |t.arena[n].value| && |bids| == |key|
    requires j < |bids| && bids[j] < |t.owner| && bids[j] in reg' && reg'[bids[j]] == Upto(Full(t, n), key, j)
    ensures var t' := Extend(t, n, key, bids, reg'); Domains(t') && SlotOk(t', n, |t.arena[n].payload| + j)
  {
    var t' := Extend(t, n, key, bids, reg');
    var s, v := t.start[n], t.arena[n].value;
    UptoAppendAt(s, v, key, |v| + j);
    assert t'.arena[n].payload[|v| + j] == Singles(bids)[j];
  }

  /** The bids of a grown tree are where the registry says, provided the tree grew at node g. */
  lemma TailBids(t: Trie, t': Trie, base: Path, key: Path, bids: seq<Bid>, g: NodeId, off: nat)
    requires Inv(t) && FreshTail(t, base, key, bids) && Attaches(t.reg, base, key, bids, t'.reg)
    requires t'.owner == Claim(t.owner, (set b | b in bids), g)
    requires t'.at == Locate(t.at, base, key, g, off)
    requires forall n | n in t.arena :: n in t'.arena && t.arena[n].payload <= t'.arena[n].payload
    requires g in t'.arena && |t'.arena[g].payload| == off + |bids|
    requires forall i | 0 <= i < |bids| :: t'.arena[g].payload[off + i] == [bids[i]]
    ensures Owned(t')
  {
    hide Edges, Places, NodeOk, SlotOk, BidOk, PathOk, Locate;
    forall b | b in t'.reg
      ensures BidOk(t', b)
    {
      if b in bids {
        var i :| 0 <= i < |bids| && bids[i] == b;
        FreshPaths(t, base, key, i);
        NewBidOk(t, t', base, key, bids, g, off, i);
      } else {
        AtBid(t, b);
        LocateKeeps(t.at, base, key, g, off, t.reg[b]);
        OldBidOk(t, t', b);
      }
    }
  }

  lemma LocateKeeps(at: map<Path, (NodeId, nat)>, base: Path, key: Path, g: NodeId, off: nat, p: Path)
    requires p in at
    ensures p in Locate(at, base, key, g, off) && Locate(at, base, key, g, off)[p] == at[p]
  {
  }

  lemma NewBidOk(t: Trie, t': Trie, base: Path, key: Path, bids: seq<Bid>, g: NodeId, off: nat, i: nat)
    requires i < |bids| == |key| && base + key[..i + 1] !in t.at && bids[i] < |t.owner|
    requires bids[i] in t'.reg && t'.reg[bids[i]] == Upto(base, key, i)
    requires t'.owner == Claim(t.owner, (set b | b in bids), g) && t'.at == Locate(t.at, base, key, g, off)
    requires g in t'.arena && off + i < |t'.arena[g].payload| && t'.arena[g].payload[off + i] == [bids[i]]
    ensures BidOk(t', bids[i])
  {
    assert Upto(base, key, i) in t'.at;
    assert t'.at[t'.reg[bids[i]]] == (g, off + i);
  }

  /** A bid stays in place while payloads only grow and neither it nor its path moves. */
  lemma OldBidOk(t: Trie, t': Trie, b: Bid)
    requires b in t.reg && BidOk(t, b) && t.at[t.reg[b]].0 in t.arena && b in t'.reg && t'.reg[b] == t.reg[b]
    requires |t'.owner| == |t.owner| && t'.owner[b] == t.owner[b]
    requires t.reg[b] in t'.at && t'.at[t.reg[b]] == t.at[t.reg[b]]
    requires forall n | n in t.arena :: n in t'.arena && t.arena[n].payload <= t'.arena[n].payload
    ensures BidOk(t', b)
  {
  }

  /** A walked node gets a new leaf child f; `ch` are its children from then on. */
  ghost function Sprout(t: Trie, n: NodeId, f: NodeId, ch: Children, key: Path, bids: seq<Bid>, reg': Reg): Trie
    requires Domains(t) && n in t.arena
  {
    t.(arena := t.arena[f := Node(Small([]), key, Singles(bids))][n := t.arena[n].(children := ch)],
       owner := Claim(t.owner, (set b | b in bids), f),
       start := t.start[f := Full(t, n)],
       parent := t.parent[f := n],
       at := Locate(t.at, Full(t, n), key, f, 0),
       reg := reg')
  }

  ghost predicate CanSprout(t: Trie, n: NodeId, f: NodeId, ch: Children, key: Path, bids: seq<Bid>, reg': Reg) {
    && Inv(t) && Live(t, n) && f !in t.arena
    && FreshTail(t, Full(t, n), key, bids) && Attaches(t.reg, Full(t, n), key, bids, reg')
    && ch.Ids() == t.arena[n].children.Ids() + {f}
    && KidsOk(t.arena[f := Node(Small([]), key, Singles(bids))], ch)
  }

  lemma SproutInv(t: Trie, n: NodeId, f: NodeId, ch: Children, key: Path, bids: seq<Bid>, reg': Reg)
    requires CanSprout(t, n, f, ch, key, bids, reg')
    ensures Inv(Sprout(t, n, f, ch, key, bids, reg'))
  {
    hide Sprout, CanSprout, NodeOk, SlotOk, BidOk, Places;
    SproutNodes(t, n, f, ch, key, bids, reg');
    SproutLinks(t, n, f, ch, key, bids, reg');
    SproutPlaces(t, n, f, ch, key, bids, reg');
    SproutSlots(t, n, f, ch, key, bids, reg');
    SproutTail(t, n, f, ch, key, bids, reg');
  }

  lemma SproutTail(t: Trie, n: NodeId, f: NodeId, ch: Children, key: Path, bids: seq<Bid>, reg': Reg)
    requires CanSprout(t, n, f, ch, key, bids, reg')
    ensures Owned(Sprout(t, n, f, ch, key, bids, reg'))
  {
    hide Edges, Places, Bids, KidsOk, Owned, FreshTail, Attaches, Locate, Claim;
    SproutPayloads(t, n, f, ch, key, bids, reg');
    TailBids(t, Sprout(t, n, f, ch, key, bids, reg'), Full(t, n), key, bids, f, 0);
  }

  lemma SproutPayloads(t: Trie, n: NodeId, f: NodeId, ch: Children, key: Path, bids: seq<Bid>, reg': Reg)
    requires Domains(t) && n in t.arena && f !in t.arena
    ensures var t' := Sprout(t, n, f, ch, key, bids, reg');
            && f in t'.arena && t'.arena[f].payload == Singles(bids)
            && forall m | m in t.arena :: m in t'.arena && t.arena[m].payload <= t'.arena[m].payload
  {
  }

  lemma SproutNodes(t: Trie, n: NodeId, f: NodeId, ch: Children, key: Path, bids: seq<Bid>, reg': Reg)
    requires CanSprout(t, n, f, ch, key, bids, reg')
    ensures var t' := Sprout(t, n, f, ch, key, bids, reg'); Domains(t') && Nodes(t')
  {
    hide Places, Bids, NodeOk, KidsOk, Attaches, Locate, Claim;
    var t' := Sprout(t, n, f, ch, key, bids, reg');
    assert NodeOk(t, n);
    SproutLeaf(t, n, f, ch, key, bids, reg');
    SproutGrown(t, n, f, ch, key, bids, reg');
    forall m | m in t'.arena
      ensures NodeOk(t', m)
    {
      if m != f && m != n {
        assert NodeOk(t, m);
        KidsAllocated(t, m);
        SproutNode(t, n, f, ch, key, bids, reg', m);
      }
    }
  }

  lemma KidsAllocated(t: Trie, n: NodeId)
    requires Inv(t) && n in t.arena
    ensures t.arena[n].children.Ids() <= t.arena.Keys
  {
    forall d | d in t.arena[n].children.Ids()
      ensures d in t.arena
    {
      assert DownOk(t, n, d);
    }
  }

  lemma SproutLeaf(t: Trie, n: NodeId, f: NodeId, ch: Children, key: Path, bids: seq<Bid>, reg': Reg)
    requires Domains(t) && n in t.arena && f !in t.arena && |key| == |bids| && key != []
    ensures var t' := Sprout(t, n, f, ch, key, bids, reg'); Domains(t') && NodeOk(t', f)
  {
  }

  lemma SproutGrown(t: Trie, n: NodeId, f: NodeId, ch: Children, key: Path, bids: seq<Bid>, reg': Reg)
    requires Domains(t) && Live(t, n) && f !in t.arena && NodeOk(t, n)
    requires KidsOk(t.arena[f := Node(Small([]), key, Singles(bids))], ch)
    ensures var t' := Sprout(t, n, f, ch, key, bids, reg'); Domains(t') && NodeOk(t', n)
  {
    hide KidsOk;
    KidsFrame(t.arena[f := Node(Small([]), key, Singles(bids))], Sprout(t, n, f, ch, key, bids, reg').arena, ch);
  }

  lemma SproutNode(t: Trie, n: NodeId, f: NodeId, ch: Children, key: Path, bids: seq<Bid>, reg': Reg, m: NodeId)
    requires Domains(t) && n in t.arena && f !in t.arena && m in t.arena && m != n && NodeOk(t, m)
    requires t.arena[m].children.Ids() <= t.arena.Keys
    ensures var t' := Sprout(t, n, f, ch, key, bids, reg'); Domains(t') && NodeOk(t', m)
  {
    hide KidsOk;
    KidsFrame(t.arena, Sprout(t, n, f, ch, key, bids, reg').arena, t.arena[m].children);
  }

  lemma SproutLinks(t: Trie, n: NodeId, f: NodeId, ch: Children, key: Path, bids: seq<Bid>, reg': Reg)
    requires CanSprout(t, n, f, ch, key, bids, reg')
    ensures var t' := Sprout(t, n, f, ch, key, bids, reg'); Domains(t') && Links(t')
  {
    hide Places, Bids, NodeOk, KidsOk, DownOk, UpOk;
    var t' := Sprout(t, n, f, ch, key, bids, reg');
    forall m, d | m in t'.arena && d in t'.arena[m].children.Ids()
      ensures DownOk(t', m, d)
    {
      if m != f {
        KidsAllocated(t, m);
        if d != f { assert DownOk(t, m, d); }
        SproutDown(t, n, f, ch, key, bids, reg', m, d);
      }
    }
    forall d | d in t'.arena && d != ROOT
      ensures UpOk(t', d)
    {
      if d != f { assert UpOk(t, d); }
      SproutUp(t, n, f, ch, key, bids, reg', d);
    }
  }

  lemma SproutDown(t: Trie, n: NodeId, f: NodeId, ch: Children, key: Path, bids: seq<Bid>, reg': Reg, m: NodeId,
                   d: NodeId)
    requires CanSprout(t, n, f, ch, key, bids, reg') && m in t.arena && t.arena[m].children.Ids() <= t.arena.Keys
    requires Domains(Sprout(t, n, f, ch, key, bids, reg'))
    requires d in Sprout(t, n, f, ch, key, bids, reg').arena[m].children.Ids() && (d != f ==> DownOk(t, m, d))
    ensures DownOk(Sprout(t, n, f, ch, key, bids, reg'), m, d)
  {
    hide Edges, Places, Bids, KidsOk;
  }

  lemma SproutUp(t: Trie, n: NodeId, f: NodeId, ch: Children, key: Path, bids: seq<Bid>, reg': Reg, d: NodeId)
    requires CanSprout(t, n, f, ch, key, bids, reg')
    requires d == f || (d in t.arena && UpOk(t, d))
    ensures var t' := Sprout(t, n, f, ch, key, bids, reg'); Domains(t') && UpOk(t', d)
  {
    hide Edges, Places, Bids, KidsOk;
  }

  lemma SproutPlaces(t: Trie, n: NodeId, f: NodeId, ch: Children, key: Path, bids: seq<Bid>, reg': Reg)
    requires CanSprout(t, n, f, ch, key, bids, reg')
    ensures var t' := Sprout(t, n, f, ch, key, bids, reg'); Domains(t') && Places(t')
  {
    hide Edges, Bids, PosOk, PathOk, Attaches, Locate, Claim;
    var t' := Sprout(t, n, f, ch, key, bids, reg');
    forall m, i: nat | m in t'.arena && i < |t'.arena[m].value|
      ensures PosOk(t', m, i)
    {
      if m == f {
        FreshPaths(t, Full(t, n), key, i);
        SproutPos(t, n, f, ch, key, bids, reg', i);
      } else {
        assert PosOk(t, m, i);
        SproutOldPos(t, n, f, ch, key, bids, reg', m, i);
      }
    }
    forall p | p in t'.at
      ensures PathOk(t', p)
    {
      if p in t.at {
        assert PathOk(t, p);
      }
      SproutPath(t, n, f, ch, key, bids, reg', p);
    }
  }

  lemma SproutOldPos(t: Trie, n: NodeId, f: NodeId, ch: Children, key: Path, bids: seq<Bid>, reg': Reg, m: NodeId,
                     i: nat)
    requires Domains(t) && n in t.arena && f !in t.arena && m in t.arena
    requires i < |t.arena[m].value| && PosOk(t, m, i)
    ensures var t' := Sprout(t, n, f, ch, key, bids, reg'); Domains(t') && PosOk(t', m, i)
  {
  }

  lemma SproutPos(t: Trie, n: NodeId, f: NodeId, ch: Children, key: Path, bids: seq<Bid>, reg': Reg, i: nat)
    requires Domains(t) && n in t.arena && f !in t.arena
    requires i < |key| && Upto(Full(t, n), key, i) !in t.at
    ensures var t' := Sprout(t, n, f, ch, key, bids, reg'); Domains(t') && PosOk(t', f, i)
  {
    assert Upto(Full(t, n), key, i) in Locate(t.at, Full(t, n), key, f, 0);
  }

  lemma SproutPath(t: Trie, n: NodeId, f: NodeId, ch: Children, key: Path, bids: seq<Bid>, reg': Reg, p: Path)
    requires Domains(t) && n in t.arena && f !in t.arena
    requires p in Sprout(t, n, f, ch, key, bids, reg').at && (p in t.at ==> PathOk(t, p))
    ensures var t' := Sprout(t, n, f, ch, key, bids, reg'); Domains(t') && PathOk(t', p)
  {
    if p !in t.at {
      var i: nat :| i < |key| && p == Upto(Full(t, n), key, i);
    }
  }

  lemma SproutSlots(t: Trie, n: NodeId, f: NodeId, ch: Children, key: Path, bids: seq<Bid>, reg': Reg)
    requires CanSprout(t, n, f, ch, key, bids, reg')
    ensures var t' := Sprout(t, n, f, ch, key, bids, reg'); Domains(t') && Slots(t')
  {
    hide Edges, Places, NodeOk, SlotOk, PosOk, Upto;
    var t' := Sprout(t, n, f, ch, key, bids, reg');
    forall m, i: nat | m in t'.arena && i < |t'.arena[m].payload|
      ensures SlotOk(t', m, i)
    {
      if m == f {
        SproutNewSlot(t, n, f, ch, key, bids, reg', i);
      } else {
        assert SlotOk(t, m, i);
        SproutOldSlot(t, n, f, ch, key, bids, reg', m, i);
      }
    }
  }

  lemma SproutOldSlot(t: Trie, n: NodeId, f: NodeId, ch: Children, key: Path, bids: seq<Bid>, reg': Reg, m: NodeId,
                      i: nat)
    requires CanSprout(t, n, f, ch, key, bids, reg') && m in t.arena && i < |t.arena[m].payload| && SlotOk(t, m, i)
    ensures var t' := Sprout(t, n, f, ch, key, bids, reg'); Domains(t') && SlotOk(t', m, i)
  {
    hide Edges, Places, Bids, KidsOk;
  }

  lemma SproutNewSlot(t: Trie, n: NodeId, f: NodeId, ch: Children, key: Path, bids: seq<Bid>, reg': Reg, j: nat)
    requires Domains(t) && n in t.arena && f !in t.arena && |bids| == |key|
    requires j < |bids| && bids[j] < |t.owner| && bids[j] in reg' && reg'[bids[j]] == Upto(Full(t, n), key, j)
    ensures var t' := Sprout(t, n, f, ch, key, bids, reg'); Domains(t') && SlotOk(t', f, j)
  {
  }

  // ---------- Splitting an edge ----------

  /** Label and payload of n beyond position k move, with n's children, to the new node s. */
  ghost function Split(t: Trie, n: NodeId, k: nat, s: NodeId, owner': Owners): Trie
    requires Domains(t) && n in t.arena && k <= |t.arena[n].value| && k <= |t.arena[n].payload|
  {
    var nd := t.arena[n];
    Trie(
      t.arena[s := Node(nd.children, nd.value[k..], nd.payload[k..])]
             [n := Node(Small([s]), nd.value[..k], nd.payload[..k])],
      owner',
      t.start[s := t.start[n] + nd.value[..k]],
      map c | c in t.parent.Keys + {s} :: if c == s then n else if t.parent[c] == n then s else t.parent[c],
      map p | p in t.at :: if t.at[p].0 == n && t.at[p].1 >= k then (s, t.at[p].1 - k) else t.at[p],
      t.reg)
  }

  /** The owner table after a split: the bids of the moved positions point to s. */
  ghost predicate Reowned(t: Trie, n: NodeId, k: nat, s: NodeId, owner': Owners)
    requires n in t.arena && k <= |t.arena[n].payload|
  {
    && |owner'| == |t.owner|
    && (forall b | 0 <= b < |t.owner| ::
          owner'[b] ==
          if exists i | k <= i < |t.arena[n].payload| :: b in t.arena[n].payload[i] then Some(s) else t.owner[b])
  }

  ghost predicate CanSplit(t: Trie, n: NodeId, k: nat, s: NodeId, owner': Owners) {
    && Inv(t) && n in t.arena && n != ROOT && 0 < k < |t.arena[n].value| && s !in t.arena
    && k <= |t.arena[n].payload| && Reowned(t, n, k, s, owner')
  }

  lemma SplitInv(t: Trie, n: NodeId, k: nat, s: NodeId, owner': Owners)
    requires CanSplit(t, n, k, s, owner')
    ensures Inv(Split(t, n, k, s, owner'))
  {
    SplitNodes(t, n, k, s, owner');
    SplitLinks(t, n, k, s, owner');
    SplitPlaces(t, n, k, s, owner');
    SplitSlots(t, n, k, s, owner');
    SplitBids(t, n, k, s, owner');
  }

  lemma UptoSplit(s: Path, v: Path, k: nat)
    requires k <= |v|
    ensures forall i: nat {:trigger Upto(s, v[..k], i)} | i < k :: Upto(s, v[..k], i) == Upto(s, v, i)
    ensures forall i: nat {:trigger Upto(s + v[..k], v[k..], i)} | i < |v| - k ::
              Upto(s + v[..k], v[k..], i) == Upto(s, v, k + i)
  {
    assert v[..k] + v[k..] == v;
    forall i: nat | i < |v|
      ensures Upto(s, v, i) == if i < k then Upto(s, v[..k], i) else Upto(s + v[..k], v[k..], i - k)
    {
      UptoAppendAt(s, v[..k], v[k..], i);
    }
  }

  lemma SplitNodes(t: Trie, n: NodeId, k: nat, s: NodeId, owner': Owners)
    requires CanSplit(t, n, k, s, owner')
    ensures var t' := Split(t, n, k, s, owner'); Domains(t') && Nodes(t')
  {
    var t' := Split(t, n, k, s, owner');
    var v := t.arena[n].value;
    assert NodeOk(t, n) && NodeOk(t, ROOT);
    assert Domains(t');
    forall m | m in t'.arena
      ensures NodeOk(t', m)
    {
      var g := if m == s then n else m;
      assert NodeOk(t, g);
      forall d | d in t.arena[g].children.Ids()
        ensures d in t.arena
      {
        assert DownOk(t, g, d);
      }
      KidsFrame(t.arena, t'.arena, t.arena[g].children);
    }
  }

  lemma SplitLinks(t: Trie, n: NodeId, k: nat, s: NodeId, owner': Owners)
    requires CanSplit(t, n, k, s, owner')
    ensures var t' := Split(t, n, k, s, owner'); Domains(t') && Links(t')
  {
    hide Places, Bids, NodeOk, KidsOk, DownOk, UpOk, Reowned;
    var t' := Split(t, n, k, s, owner');
    assert Domains(t');
    KidsAllocated(t, n);
    forall m, d | m in t'.arena && d in t'.arena[m].children.Ids()
      ensures DownOk(t', m, d)
    {
      if m != n { assert DownOk(t, if m == s then n else m, d); }
      SplitDown(t, n, k, s, owner', m, d);
    }
    forall d | d in t'.arena && d != ROOT
      ensures UpOk(t', d)
    {
      if d != s { assert UpOk(t, d); }
      SplitUp(t, n, k, s, owner', d);
    }
  }

  lemma SplitDown(t: Trie, n: NodeId, k: nat, s: NodeId, owner': Owners, m: NodeId, d: NodeId)
    requires Domains(t) && n in t.arena && k <= |t.arena[n].value| && k <= |t.arena[n].payload|
    requires s !in t.arena && (m in t.arena || m == s)
    requires m == n || DownOk(t, if m == s then n else m, d)
    requires d in Split(t, n, k, s, owner').arena[m].children.Ids()
    ensures var t' := Split(t, n, k, s, owner'); Domains(t') && DownOk(t', m, d)
  {
    var v := t.arena[n].value;
    assert (t.start[n] + v[..k]) + v[k..] == t.start[n] + v;
  }

  lemma SplitUp(t: Trie, n: NodeId, k: nat, s: NodeId, owner': Owners, d: NodeId)
    requires Domains(t) && n in t.arena && k <= |t.arena[n].value| && k <= |t.arena[n].payload|
    requires s !in t.arena && (d == s || (d in t.arena && UpOk(t, d)))
    ensures var t' := Split(t, n, k, s, owner'); Domains(t') && UpOk(t', d)
  {
  }

  lemma SplitPlaces(t: Trie, n: NodeId, k: nat, s: NodeId, owner': Owners)
    requires CanSplit(t, n, k, s, owner')
    ensures var t' := Split(t, n, k, s, owner'); Domains(t') && Places(t')
  {
    var t' := Split(t, n, k, s, owner');
    var st, v := t.start[n], t.arena[n].value;
    UptoSplit(st, v, k);
    forall m, i: nat | m in t'.arena && i < |t'.arena[m].value|
      ensures PosOk(t', m, i)
    {
      if m == s {
        assert PosOk(t, n, k + i);
        assert Upto(st + v[..k], v[k..], i) == Upto(st, v, k + i);
      } else {
        assert PosOk(t, m, i);
      }
    }
    forall p | p in t'.at
      ensures PathOk(t', p)
    {
      assert PathOk(t, p);
      var (m, i) := t.at[p];
      if m == n && i >= k {
        assert Upto(st + v[..k], v[k..], i - k) == p;
      }
    }
  }

  /** A bid sits at one position only. */
  lemma OnePosition(t: Trie, b: Bid, n: NodeId, i: nat, m: NodeId, j: nat)
    requires Inv(t) && n in t.arena && m in t.arena
    requires i < |t.arena[n].payload| && b in t.arena[n].payload[i]
    requires j < |t.arena[m].payload| && b in t.arena[m].payload[j]
    ensures n == m && i == j
  {
    assert SlotOk(t, n, i) && SlotOk(t, m, j) && PosOk(t, n, i) && PosOk(t, m, j);
  }

  lemma SplitSlots(t: Trie, n: NodeId, k: nat, s: NodeId, owner': Owners)
    requires CanSplit(t, n, k, s, owner')
    ensures var t' := Split(t, n, k, s, owner'); Domains(t') && Slots(t')
  {
    var t' := Split(t, n, k, s, owner');
    var nd, st, v := t.arena[n], t.start[n], t.arena[n].value;
    UptoSplit(st, v, k);
    assert NodeOk(t, n);
    forall m, i: nat | m in t'.arena && i < |t'.arena[m].payload|
      ensures SlotOk(t', m, i)
    {
      if m == s {
        assert SlotOk(t, n, k + i);
        assert Upto(st + v[..k], v[k..], i) == Upto(st, v, k + i);
        assert nd.payload[k..][i] == nd.payload[k + i];
      } else {
        assert SlotOk(t, m, i);
        forall b | b in t.arena[m].payload[i]
          ensures owner'[b] == t.owner[b]
        {
          if j :| k <= j < |nd.payload| && b in nd.payload[j] {
            OnePosition(t, b, m, i, n, j);
          }
        }
        if m == n { assert nd.payload[..k][i] == nd.payload[i]; }
      }
    }
  }

  lemma SplitBids(t: Trie, n: NodeId, k: nat, s: NodeId, owner': Owners)
    requires CanSplit(t, n, k, s, owner')
    ensures var t' := Split(t, n, k, s, owner');
            && Domains(t')
            && (forall b {:trigger BidOk(t', b)} | b in t'.reg :: BidOk(t', b))
            && (forall b {:trigger t'.owner[b]} | 0 <= b < |t'.owner| && t'.owner[b].Some? :: b in t'.reg)
  {
    var t' := Split(t, n, k, s, owner');
    var nd := t.arena[n];
    assert NodeOk(t, n);
    forall b | b in t'.reg
      ensures BidOk(t', b)
    {
      assert BidOk(t, b) && PathOk(t, t.reg[b]);
      var (m, i) := t.at[t.reg[b]];
      assert NodeOk(t, m);
      if j :| k <= j < |nd.payload| && b in nd.payload[j] {
        OnePosition(t, b, m, i, n, j);
        assert nd.payload[k..][i - k] == nd.payload[i];
      } else if m == n {
        assert nd.payload[..k][i] == nd.payload[i];
      }
    }
    forall b | 0 <= b < |t'.owner| && t'.owner[b].Some?
      ensures b in t'.reg
    {
      if i :| k <= i < |nd.payload| && b in nd.payload[i] {
        assert SlotOk(t, n, i);
      }
    }
  }

  // ---------- Cutting a position ----------

  /** Everything at or below path p goes: the rest of n's label from position k on, and all of n's
      descendants. `ch` is the emptied child container of n. */
  ghost function Cut(t: Trie, n: NodeId, k: nat, ch: Children, owner': Owners): Trie
    requires Domains(t) && n in t.arena && k < |t.arena[n].value| && k <= |t.arena[n].payload|
  {
    var nd := t.arena[n];
    var p := Upto(t.start[n], nd.value, k);
    var keep := map m | m in t.arena && !(p <= t.start[m]) :: t.arena[m];
    Trie(
      keep[n := Node(ch, nd.value[..k], nd.payload[..k])],
      owner',
      map m | m in t.start && !(p <= t.start[m]) :: t.start[m],
      map m | m in t.parent && m in t.start && !(p <= t.start[m]) :: t.parent[m],
      map q | q in t.at && !(p <= q) :: t.at[q],
      map b | b in t.reg && !(p <= t.reg[b]) :: t.reg[b])
  }

  ghost predicate CanCut(t: Trie, n: NodeId, k: nat, ch: Children, owner': Owners) {
    && Inv(t) && n in t.arena && k < |t.arena[n].value| && k <= |t.arena[n].payload|
    && ch.IsEmpty() && |owner'| == |t.owner|
    && (forall b | 0 <= b < |owner'| ::
          owner'[b] == if b in t.reg && Upto(t.start[n], t.arena[n].value, k) <= t.reg[b] then None else t.owner[b])
  }

  lemma CutInv(t: Trie, n: NodeId, k: nat, ch: Children, owner': Owners)
    requires CanCut(t, n, k, ch, owner')
    ensures Inv(Cut(t, n, k, ch, owner'))
  {
    CutNodes(t, n, k, ch, owner');
    CutLinks(t, n, k, ch, owner');
    CutPlaces(t, n, k, ch, owner');
    CutBids(t, n, k, ch, owner');
  }

  /** A node that starts outside the cut lies outside it altogether, unless it is the cut node itself. */
  lemma OutsideCut(t: Trie, n: NodeId, k: nat, m: NodeId, i: nat)
    requires Inv(t) && n in t.arena && k < |t.arena[n].value| && m in t.arena && i < |t.arena[m].value|
    requires var p := Upto(t.start[n], t.arena[n].value, k);
             !(p <= t.start[m]) && p <= Upto(t.start[m], t.arena[m].value, i)
    ensures m == n && k <= i
  {
    var p := Upto(t.start[n], t.arena[n].value, k);
    var s, v := t.start[m], t.arena[m].value;
    assert PosOk(t, n, k);
    PrefixOfFirst(p, s, v[..i + 1]);
    var j := |p| - |s| - 1;
    assert PosOk(t, m, j);
    assert p == (s + v[..i + 1])[..|p|] == Upto(s, v, j);
  }

  lemma CutDomains(t: Trie, n: NodeId, k: nat, ch: Children, owner': Owners)
    requires CanCut(t, n, k, ch, owner')
    ensures n != ROOT && NodeOk(t, n) && NodeOk(t, ROOT)
    ensures Domains(Cut(t, n, k, ch, owner'))
    ensures forall m :: m in Cut(t, n, k, ch, owner').arena <==>
                        m in t.arena && !(Upto(t.start[n], t.arena[n].value, k) <= t.start[m])
  {
    assert NodeOk(t, n) && NodeOk(t, ROOT);
    var t' := Cut(t, n, k, ch, owner');
    assert t'.start.Keys == t'.arena.Keys;
    assert t'.parent.Keys == t'.arena.Keys;
  }

  lemma CutNodes(t: Trie, n: NodeId, k: nat, ch: Children, owner': Owners)
    requires CanCut(t, n, k, ch, owner')
    ensures var t' := Cut(t, n, k, ch, owner'); Domains(t') && Nodes(t')
  {
    hide Places, Bids;
    CutDomains(t, n, k, ch, owner');
    var t' := Cut(t, n, k, ch, owner');
    var p := Upto(t.start[n], t.arena[n].value, k);
    forall m | m in t'.arena
      ensures NodeOk(t', m)
    {
      assert NodeOk(t, m);
      forall d | d in t.arena[m].children.Ids()
        ensures d in t.arena
      {
        assert DownOk(t, m, d);
      }
      KidsFrame(t.arena, t'.arena, t.arena[m].children);
    }
  }

  lemma CutLinks(t: Trie, n: NodeId, k: nat, ch: Children, owner': Owners)
    requires CanCut(t, n, k, ch, owner')
    ensures var t' := Cut(t, n, k, ch, owner'); Domains(t') && Links(t')
  {
    hide Places, Bids, NodeOk, KidsOk, DownOk, UpOk;
    CutDomains(t, n, k, ch, owner');
    var t' := Cut(t, n, k, ch, owner');
    forall m, d | m in t'.arena && d in t'.arena[m].children.Ids()
      ensures DownOk(t', m, d)
    {
      assert DownOk(t, m, d);
      CutDown(t, n, k, ch, owner', m, d);
    }
    forall d | d in t'.arena && d != ROOT
      ensures UpOk(t', d)
    {
      ParentIsLive(t, d);
      CutUp(t, n, k, ch, owner', d);
    }
  }

  lemma CutDown(t: Trie, n: NodeId, k: nat, ch: Children, owner': Owners, m: NodeId, d: NodeId)
    requires CanCut(t, n, k, ch, owner') && m in t.arena && DownOk(t, m, d)
    requires Domains(Cut(t, n, k, ch, owner')) && m in Cut(t, n, k, ch, owner').arena
    requires d in Cut(t, n, k, ch, owner').arena[m].children.Ids()
    ensures DownOk(Cut(t, n, k, ch, owner'), m, d)
  {
    hide Edges, Places, Bids;
    var p := Upto(t.start[n], t.arena[n].value, k);
    var v := t.arena[m].value;
    assert v[..|v|] == v;
    if v != [] && p <= t.start[d] {
      OutsideCut(t, n, k, m, |v| - 1);
    }
  }

  lemma CutUp(t: Trie, n: NodeId, k: nat, ch: Children, owner': Owners, d: NodeId)
    requires CanCut(t, n, k, ch, owner') && d in t.arena
    requires t.parent[d] in t.arena && d in t.arena[t.parent[d]].children.Ids() && t.start[d] == Full(t, t.parent[d])
    requires Domains(Cut(t, n, k, ch, owner')) && d in Cut(t, n, k, ch, owner').arena
    ensures UpOk(Cut(t, n, k, ch, owner'), d)
  {
    hide Edges, Places, Bids;
    var p := Upto(t.start[n], t.arena[n].value, k);
    assert p <= Full(t, n) by { assert Full(t, n)[..|p|] == p; }
    assert t.start[t.parent[d]] <= t.start[d];
  }

  lemma CutPlaces(t: Trie, n: NodeId, k: nat, ch: Children, owner': Owners)
    requires CanCut(t, n, k, ch, owner')
    ensures var t' := Cut(t, n, k, ch, owner'); Domains(t') && Places(t')
  {
    CutDomains(t, n, k, ch, owner');
    var t' := Cut(t, n, k, ch, owner');
    var p := Upto(t.start[n], t.arena[n].value, k);
    UptoSplit(t.start[n], t.arena[n].value, k);
    UptoMonotone(t.start[n], t.arena[n].value);
    forall m, i: nat | m in t'.arena && i < |t'.arena[m].value|
      ensures PosOk(t', m, i)
    {
      assert PosOk(t, m, i);
      if p <= Upto(t.start[m], t.arena[m].value, i) {
        OutsideCut(t, n, k, m, i);
      }
    }
    forall q | q in t'.at
      ensures PathOk(t', q)
    {
      assert PathOk(t, q);
      var (m, i) := t.at[q];
      assert t.start[m] <= q;
    }
  }

  lemma CutBids(t: Trie, n: NodeId, k: nat, ch: Children, owner': Owners)
    requires CanCut(t, n, k, ch, owner')
    ensures var t' := Cut(t, n, k, ch, owner'); Domains(t') && Bids(t')
  {
    hide Edges, Places, NodeOk, SlotOk, BidOk, PosOk, PathOk, Upto;
    CutDomains(t, n, k, ch, owner');
    var t' := Cut(t, n, k, ch, owner');
    forall m, i: nat | m in t'.arena && i < |t'.arena[m].payload|
      ensures SlotOk(t', m, i)
    {
      AtPosition(t, m, i);
      CutSlot(t, n, k, ch, owner', m, i);
    }
    forall b | b in t'.reg
      ensures BidOk(t', b)
    {
      AtBid(t, b);
      CutBid(t, n, k, ch, owner', b);
    }
  }

  lemma CutSlot(t: Trie, n: NodeId, k: nat, ch: Children, owner': Owners, m: NodeId, i: nat)
    requires CanCut(t, n, k, ch, owner') && m in Cut(t, n, k, ch, owner').arena
    requires i < |Cut(t, n, k, ch, owner').arena[m].payload|
    requires m in t.arena && i < |t.arena[m].payload| == |t.arena[m].value| && SlotOk(t, m, i)
    requires Domains(Cut(t, n, k, ch, owner')) && n != ROOT
    ensures SlotOk(Cut(t, n, k, ch, owner'), m, i)
  {
    hide Edges, Places, Bids;
    UptoSplit(t.start[n], t.arena[n].value, k);
    if Upto(t.start[n], t.arena[n].value, k) <= Upto(t.start[m], t.arena[m].value, i) {
      OutsideCut(t, n, k, m, i);
    }
  }

  lemma CutBid(t: Trie, n: NodeId, k: nat, ch: Children, owner': Owners, b: Bid)
    requires CanCut(t, n, k, ch, owner') && b in Cut(t, n, k, ch, owner').reg
    requires BidOk(t, b) && PathOk(t, t.reg[b]) && t.at[t.reg[b]].0 in t.arena && t.start[t.at[t.reg[b]].0] <= t.reg[b]
    ensures BidOk(Cut(t, n, k, ch, owner'), b)
  {
    hide Edges, Places, Bids;
    UptoMonotone(t.start[n], t.arena[n].value);
  }

}
