/** The prefix tree that all levels of the lowering ladder represent: per node an edge label with one
    payload element for each label element, and children under the first elements of their labels.
  */
module Ladder {
  import opened Basics
  import opened Prefixes
  import opened Registry

  type Payload = seq<nat>

  datatype Tree = Tree(value: Path, payload: Payload, kids: Forest)

  type Forest = map<Hash, Tree>

  ghost predicate WfTree(t: Tree) {
    && t.value != [] && |t.payload| == |t.value|
    && (forall h | h in t.kids :: WfTree(t.kids[h]) && t.kids[h].value[0] == h)
  }

  ghost predicate Wf(f: Forest) {
    forall h | h in f :: WfTree(f[h]) && f[h].value[0] == h
  }

  // ---------- Agreement ----------

  /** How far v from i on and q from j on agree. */
  function Agree(v: Path, i: nat, q: Path, j: nat): (r: nat)
    requires i <= |v| && j <= |q|
    ensures i + r <= |v| && j + r <= |q|
    ensures i + r < |v| && j + r < |q| ==> v[i + r] != q[j + r]
    decreases |v| - i
  {
    if i < |v| && j < |q| && v[i] == q[j] then 1 + Agree(v, i + 1, q, j + 1) else 0
  }

  lemma {:induction false} AgreeIsLcp(a: Path, b: Path, i: nat)
    requires i <= |a| && i <= |b|
    ensures Agree(a, i, b, i) == Lcp(a[i..], b[i..])
    decreases |a| - i
  {
    if i < |a| && i < |b| && a[i] == b[i] {
      AgreeIsLcp(a, b, i + 1);
      assert a[i..][1..] == a[i + 1..] && b[i..][1..] == b[i + 1..];
    }
  }

  /** Length of the common prefix of key and q, given that they agree up to o. */
  function Common(key: Path, q: Path, o: nat): (r: nat)
    requires o <= |key| && o <= |q|
    ensures o <= r <= |key| && r <= |q|
  {
    o + Agree(key, o, q, o)
  }

  /** A key and a query that leave a label at different places part at the first of them. */
  lemma {:induction false} CommonThree(v: Path, i: nat, key: Path, q: Path, o: nat)
    requires i <= |v| && o <= |key| && o <= |q| && Agree(v, i, key, o) != Agree(v, i, q, o)
    ensures Common(key, q, o) == o + Min(Agree(v, i, key, o), Agree(v, i, q, o))
    decreases |v| - i
  {
    if Agree(v, i, key, o) > 0 && Agree(v, i, q, o) > 0 {
      CommonThree(v, i + 1, key, q, o + 1);
    }
  }

  /** A key and a query that both follow a label for m elements agree on these. */
  lemma {:induction false} CommonSkip(v: Path, i: nat, key: Path, q: Path, o: nat, m: nat)
    requires i <= |v| && o <= |key| && o <= |q| && m <= Agree(v, i, key, o) && m <= Agree(v, i, q, o)
    ensures o + m <= |key| && o + m <= |q| && Common(key, q, o) == Common(key, q, o + m)
    decreases m
  {
    if m > 0 {
      CommonSkip(v, i + 1, key, q, o + 1, m - 1);
    }
  }

  lemma CommonStops(key: Path, q: Path, o: nat)
    requires o <= |key| && o <= |q| && (o < |key| && o < |q| ==> key[o] != q[o])
    ensures Common(key, q, o) == o
  {
  }

  lemma {:induction false} AgreeOfPrefix(v: Path, i: nat, q: Path, o: nat, m: nat)
    requires i <= m <= |v| && o <= |q|
    ensures Agree(v[..m], i, q, o) == Min(m - i, Agree(v, i, q, o))
    decreases m - i
  {
    if i < m && o < |q| && v[i] == q[o] {
      AgreeOfPrefix(v, i + 1, q, o + 1, m);
    }
  }

  lemma {:induction false} AgreeOfSuffix(v: Path, m: nat, i: nat, q: Path, o: nat)
    requires m + i <= |v| && o <= |q|
    ensures Agree(v[m..], i, q, o) == Agree(v, m + i, q, o)
    decreases |v| - i
  {
    if m + i < |v| && o < |q| && v[m + i] == q[o] {
      AgreeOfSuffix(v, m, i + 1, q, o + 1);
    }
  }

  lemma {:induction false} AgreeSkip(v: Path, i: nat, q: Path, o: nat, m: nat)
    requires i <= |v| && o <= |q| && m <= Agree(v, i, q, o)
    ensures i + m <= |v| && o + m <= |q| && Agree(v, i, q, o) == m + Agree(v, i + m, q, o + m)
    decreases m
  {
    if m > 0 {
      AgreeSkip(v, i + 1, q, o + 1, m - 1);
    }
  }

  // ---------- Lookup ----------

  /** Length of the longest prefix of q that the forest spells from offset o on. */
  function Len(f: Forest, q: Path, o: nat): (r: nat)
    requires Wf(f) && o <= |q|
    ensures o <= r <= |q|
    decreases |q| - o, 1
  {
    if o < |q| && q[o] in f then TreeLen(f[q[o]], q, o) else o
  }

  function TreeLen(t: Tree, q: Path, o: nat): (r: nat)
    requires WfTree(t) && o < |q| && t.value[0] == q[o]
    ensures o < r <= |q|
    decreases |q| - o, 0
  {
    var m := Agree(t.value, 0, q, o);
    if m < |t.value| then o + m else Len(t.kids, q, o + m)
  }

  // ---------- Insertion ----------

  function Leaf(key: Path, payload: Payload, o: nat): (r: Tree)
    requires o < |key| == |payload|
    ensures WfTree(r) && r.value[0] == key[o]
  {
    Tree(key[o..], payload[o..], map[])
  }

  function Put(f: Forest, key: Path, payload: Payload, o: nat): (r: Forest)
    requires Wf(f) && o < |key| == |payload|
    ensures Wf(r)
    decreases |key| - o, 1
  {
    f[key[o] := if key[o] in f then TreePut(f[key[o]], key, payload, o) else Leaf(key, payload, o)]
  }

  function TreePut(t: Tree, key: Path, payload: Payload, o: nat): (r: Tree)
    requires WfTree(t) && o < |key| == |payload| && t.value[0] == key[o]
    ensures WfTree(r) && r.value[0] == key[o]
    decreases |key| - o, 0
  {
    var m := Agree(t.value, 0, key, o);
    if m == |t.value| && o + m == |key| then t.(payload := payload[o..])
    else if m == |t.value| then t.(kids := Put(t.kids, key, payload, o + m))
    else Split(t, key, payload, o, m)
  }

  /** The label splits after m elements; the rest of the key, if any, branches off. */
  function Split(t: Tree, key: Path, payload: Payload, o: nat, m: nat): (r: Tree)
    requires WfTree(t) && o < |key| == |payload| && 0 < m < |t.value| && o + m <= |key|
    requires o + m < |key| ==> t.value[m] != key[o + m]
    ensures WfTree(r) && r.value == t.value[..m]
  {
    var suffix := Tree(t.value[m..], t.payload[m..], t.kids);
    assert WfTree(suffix) && suffix.value[0] == t.value[m];
    var kids := map[t.value[m] := suffix];
    Tree(t.value[..m], t.payload[..m], if o + m < |key| then kids[key[o + m] := Leaf(key, payload, o + m)] else kids)
  }

  // ---------- What an insertion adds ----------

  lemma LeafLen(key: Path, payload: Payload, o: nat, q: Path)
    requires o < |key| == |payload| && o < |q| && key[o] == q[o]
    ensures TreeLen(Leaf(key, payload, o), q, o) == Common(key, q, o)
  {
    AgreeOfSuffix(key, o, 0, q, o);
  }

  /** After an insertion a query matches as far as it did before or as far as it agrees with the key,
      whichever is longer. */
  lemma {:induction false} PutLen(f: Forest, key: Path, payload: Payload, o: nat, q: Path)
    requires Wf(f) && o < |key| == |payload| && o <= |q|
    ensures Len(Put(f, key, payload, o), q, o) == Max(Len(f, q, o), Common(key, q, o))
    decreases |key| - o, 1
  {
    hide TreePut, TreeLen, Common;
    if o == |q| || q[o] != key[o] {
      CommonStops(key, q, o);
    } else if key[o] in f {
      TreePutLen(f[key[o]], key, payload, o, q);
    } else {
      LeafLen(key, payload, o, q);
    }
  }

  lemma {:induction false} TreePutLen(t: Tree, key: Path, payload: Payload, o: nat, q: Path)
    requires WfTree(t) && o < |key| == |payload| && t.value[0] == key[o] && o < |q| && q[o] == key[o]
    ensures TreeLen(TreePut(t, key, payload, o), q, o) == Max(TreeLen(t, q, o), Common(key, q, o))
    decreases |key| - o, 0
  {
    hide TreePut, TreeLen, Len, Put, Agree, Common, WfTree;
    var m := Agree(t.value, 0, key, o);
    if m < |t.value| {
      PutSplits(t, key, payload, o);
      SplitLen(t, key, payload, o, m, q);
    } else {
      if o + m < |key| { PutDescends(t, key, payload, o); } else { PutEnds(t, key, payload, o); }
      LabelLen(t, q, o);
      LabelLen(TreePut(t, key, payload, o), q, o);
      if Agree(t.value, 0, q, o) < m {
        CommonThree(t.value, 0, key, q, o);
      } else {
        CommonSkip(t.value, 0, key, q, o, m);
        if o + m < |key| {
          PutLen(t.kids, key, payload, o + m, q);
        } else {
          CommonStops(key, q, o + m);
        }
      }
    }
  }

  lemma PutSplits(t: Tree, key: Path, payload: Payload, o: nat)
    requires WfTree(t) && o < |key| == |payload| && t.value[0] == key[o] && Agree(t.value, 0, key, o) < |t.value|
    ensures 0 < Agree(t.value, 0, key, o)
    ensures TreePut(t, key, payload, o) == Split(t, key, payload, o, Agree(t.value, 0, key, o))
  {
    StartsAgreed(t.value, key, o);
    hide Split, Put, Agree, WfTree;
  }

  lemma PutEnds(t: Tree, key: Path, payload: Payload, o: nat)
    requires WfTree(t) && o < |key| == |payload| && t.value[0] == key[o]
    requires Agree(t.value, 0, key, o) == |t.value| && o + |t.value| == |key|
    ensures TreePut(t, key, payload, o) == t.(payload := payload[o..])
  {
    hide Split, Put, Agree, WfTree;
  }

  lemma PutDescends(t: Tree, key: Path, payload: Payload, o: nat)
    requires WfTree(t) && o < |key| == |payload| && t.value[0] == key[o]
    requires Agree(t.value, 0, key, o) == |t.value| && o + |t.value| < |key|
    ensures 0 < |t.value| && Wf(t.kids)
            && TreePut(t, key, payload, o) == t.(kids := Put(t.kids, key, payload, o + |t.value|))
  {
    StartsAgreed(t.value, key, o);
    hide Split, Put, Agree;
  }

  lemma LabelLen(t: Tree, q: Path, o: nat)
    requires WfTree(t) && o < |q| && t.value[0] == q[o]
    ensures var n := Agree(t.value, 0, q, o);
            Wf(t.kids) && TreeLen(t, q, o) == if n < |t.value| then o + n else Len(t.kids, q, o + n)
  {
    hide Agree, Len;
  }

  lemma StartsAgreed(v: Path, q: Path, o: nat)
    requires v != [] && o < |q| && v[0] == q[o]
    ensures Agree(v, 0, q, o) > 0
  {
  }

  /** Which branch a query takes beyond a split. */
  lemma SplitBranches(t: Tree, key: Path, payload: Payload, o: nat, m: nat, q: Path)
    requires WfTree(t) && o < |key| == |payload| && 0 < m < |t.value| && o + m <= |key| && o + m <= |q|
    requires o + m < |key| ==> t.value[m] != key[o + m]
    ensures var r := Split(t, key, payload, o, m);
            Len(r.kids, q, o + m) ==
              if o + m == |q| then o + m
              else if o + m < |key| && q[o + m] == key[o + m] then TreeLen(Leaf(key, payload, o + m), q, o + m)
              else if q[o + m] == t.value[m] then TreeLen(Tree(t.value[m..], t.payload[m..], t.kids), q, o + m)
              else o + m
  {
    hide Agree, TreeLen, Leaf;
  }

  /** The split-off suffix is matched like the end of the old label. */
  lemma SuffixLen(t: Tree, q: Path, o: nat, m: nat)
    requires WfTree(t) && 0 < m < |t.value| && o + m < |q| && t.value[0] == q[o]
    requires m <= Agree(t.value, 0, q, o) && t.value[m] == q[o + m]
    ensures TreeLen(Tree(t.value[m..], t.payload[m..], t.kids), q, o + m) == TreeLen(t, q, o)
  {
    AgreeSkip(t.value, 0, q, o, m);
    AgreeOfSuffix(t.value, m, 0, q, o + m);
    hide Agree;
  }

  /** A query that ends or turns off where the label splits. */
  lemma StopInLabel(t: Tree, q: Path, o: nat, m: nat)
    requires WfTree(t) && o < |q| && t.value[0] == q[o] && m < |t.value| && m <= Agree(t.value, 0, q, o)
    requires o + m == |q| || q[o + m] != t.value[m]
    ensures TreeLen(t, q, o) == o + m
  {
    AgreeSkip(t.value, 0, q, o, m);
  }

  /** The upper part of a split label. */
  lemma SplitTop(t: Tree, key: Path, payload: Payload, o: nat, m: nat, q: Path)
    requires WfTree(t) && o < |key| == |payload| && 0 < m < |t.value| && o + m <= |key|
    requires o + m < |key| ==> t.value[m] != key[o + m]
    requires o < |q| && t.value[0] == q[o]
    ensures var r, n := Split(t, key, payload, o, m), Agree(t.value, 0, q, o);
            if n < m then TreeLen(r, q, o) == o + n == TreeLen(t, q, o)
            else o + m <= |q| && TreeLen(r, q, o) == Len(r.kids, q, o + m)
  {
    AgreeOfPrefix(t.value, 0, q, o, m);
    hide Split, Len, Agree;
  }

  /** A query below a split label. */
  lemma SplitLen(t: Tree, key: Path, payload: Payload, o: nat, m: nat, q: Path)
    requires WfTree(t) && o < |key| == |payload| && m == Agree(t.value, 0, key, o) && 0 < m < |t.value|
    requires o < |q| && t.value[0] == key[o] == q[o]
    ensures TreeLen(Split(t, key, payload, o, m), q, o) == Max(TreeLen(t, q, o), Common(key, q, o))
  {
    hide Split, Len, TreeLen, Agree, Common, WfTree, Leaf;
    SplitTop(t, key, payload, o, m, q);
    if Agree(t.value, 0, q, o) < m {
      CommonThree(t.value, 0, key, q, o);
    } else {
      CommonSkip(t.value, 0, key, q, o, m);
      SplitBranches(t, key, payload, o, m, q);
      if o + m == |q| || q[o + m] != t.value[m] { StopInLabel(t, q, o, m); }
      if o + m == |q| {
        CommonStops(key, q, o + m);
      } else if o + m < |key| && q[o + m] == key[o + m] {
        LeafLen(key, payload, o + m, q);
      } else {
        CommonStops(key, q, o + m);
        if q[o + m] == t.value[m] { SuffixLen(t, q, o, m); }
      }
    }
  }

  // ---------- Any sequence of insertions ----------

  datatype Item = Item(key: Path, payload: Payload) {
    predicate Ok() {
      key != [] && |key| == |payload|
    }
  }

  ghost predicate AllOk(items: seq<Item>) {
    forall i | 0 <= i < |items| :: items[i].Ok()
  }

  function Build(items: seq<Item>): (f: Forest)
    requires AllOk(items)
    ensures Wf(f)
  {
    if items == [] then map[]
    else Put(Build(items[..|items| - 1]), items[|items| - 1].key, items[|items| - 1].payload, 0)
  }

  /** The longest agreement of q with any inserted key. */
  function Best(items: seq<Item>, q: Path): nat {
    if items == [] then 0 else Max(Best(items[..|items| - 1], q), Lcp(items[|items| - 1].key, q))
  }

  lemma {:induction false} BestIsMax(items: seq<Item>, q: Path)
    ensures forall i | 0 <= i < |items| :: Lcp(items[i].key, q) <= Best(items, q)
    ensures Best(items, q) == 0 || exists i :: 0 <= i < |items| && Lcp(items[i].key, q) == Best(items, q)
  {
    if items != [] {
      var rest := items[..|items| - 1];
      BestIsMax(rest, q);
      assert forall i | 0 <= i < |rest| :: rest[i] == items[i];
      if Best(items, q) == Best(rest, q) != 0 {
        var i :| 0 <= i < |rest| && Lcp(rest[i].key, q) == Best(rest, q);
        assert Lcp(items[i].key, q) == Best(items, q);
      }
    }
  }

  /** After any insertions, a lookup finds the longest agreement of the query with any inserted key. */
  lemma {:induction false} BuildLen(items: seq<Item>, q: Path)
    requires AllOk(items)
    ensures Len(Build(items), q, 0) == Best(items, q)
  {
    if items != [] {
      var last := items[|items| - 1];
      BuildLen(items[..|items| - 1], q);
      PutLen(Build(items[..|items| - 1]), last.key, last.payload, 0, q);
      AgreeIsLcp(last.key, q, 0);
      assert last.key[0..] == last.key && q[0..] == q;
    }
  }
}
