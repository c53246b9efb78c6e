/** Which payload the ladder's trees keep for a path: what insertions file, and what they overwrite. */
module LadderPayload {
  import opened Basics
  import opened Options
  import opened Prefixes
  import opened Registry
  import opened Ladder

  // ---------- Reading the payload ----------

  /** The payload element filed for path q, whose first o elements have been followed. */
  function At(f: Forest, q: Path, o: nat): Option<nat>
    requires Wf(f) && o < |q|
    decreases |q| - o, 1
  {
    if q[o] in f then TreeAt(f[q[o]], q, o) else None
  }

  function TreeAt(t: Tree, q: Path, o: nat): Option<nat>
    requires WfTree(t) && o < |q| && t.value[0] == q[o]
    decreases |q| - o, 0
  {
    StartsAgreed(t.value, q, o);
    var m := Agree(t.value, 0, q, o);
    if o + m == |q| then Some(t.payload[m - 1])
    else if m < |t.value| then None
    else At(t.kids, q, o + m)
  }

  /** From which place on an insertion overwrites payload that is there: the beginning of the node at whose end the
      key ends, if it ends at a node's end. */
  function Reset(f: Forest, key: Path, o: nat): (r: nat)
    requires Wf(f) && o < |key|
    ensures o <= r <= |key|
    decreases |key| - o, 1
  {
    if key[o] in f then TreeReset(f[key[o]], key, o) else |key|
  }

  function TreeReset(t: Tree, key: Path, o: nat): (r: nat)
    requires WfTree(t) && o < |key| && t.value[0] == key[o]
    ensures o <= r <= |key|
    decreases |key| - o, 0
  {
    StartsAgreed(t.value, key, o);
    var m := Agree(t.value, 0, key, o);
    if m < |t.value| then |key|
    else if o + m == |key| then o
    else Reset(t.kids, key, o + m)
  }

  /** An element is filed for exactly the paths that a lookup follows to their end. */
  lemma {:induction false} AtLen(f: Forest, q: Path, o: nat)
    requires Wf(f) && o < |q|
    ensures At(f, q, o).Some? <==> Len(f, q, o) == |q|
    decreases |q| - o, 1
  {
    hide TreeAt, TreeLen, Agree;
    if q[o] in f {
      TreeAtLen(f[q[o]], q, o);
    }
  }

  lemma {:induction false} TreeAtLen(t: Tree, q: Path, o: nat)
    requires WfTree(t) && o < |q| && t.value[0] == q[o]
    ensures TreeAt(t, q, o).Some? <==> TreeLen(t, q, o) == |q|
    decreases |q| - o, 0
  {
    StartsAgreed(t.value, q, o);
    hide At, Len, Agree;
    var m := Agree(t.value, 0, q, o);
    if m == |t.value| {
      if o + m < |q| { AtLen(t.kids, q, o + m); } else { NothingBelow(t.kids, q); }
    }
  }

  lemma NothingBelow(f: Forest, q: Path)
    requires Wf(f)
    ensures Len(f, q, |q|) == |q|
  {
  }

  // ---------- What an insertion files ----------

  /** The insertion of key files its element for path q. */
  predicate Files(key: Path, q: Path, o: nat, was: Option<nat>, reset: nat)
    requires o <= |key| && o <= |q|
  {
    Common(key, q, o) == |q| && (was.None? || |q| > reset)
  }

  lemma LeafAt(key: Path, payload: Payload, o: nat, q: Path)
    requires o < |key| == |payload| && o < |q| && key[o] == q[o]
    ensures TreeAt(Leaf(key, payload, o), q, o) ==
            if Common(key, q, o) == |q| then Some(payload[|q| - 1]) else None
  {
    AgreeOfSuffix(key, o, 0, q, o);
    StartsAgreed(key[o..], q, o);
  }

  /** After an insertion the path q has the key's element if q begins the key and either had none or ends in the node
      that the insertion overwrites; and otherwise the element it had. */
  lemma {:induction false} PutAt(f: Forest, key: Path, payload: Payload, o: nat, q: Path)
    requires Wf(f) && o < |key| == |payload| && o < |q|
    ensures At(Put(f, key, payload, o), q, o) ==
            if Files(key, q, o, At(f, q, o), Reset(f, key, o)) then Some(payload[|q| - 1]) else At(f, q, o)
    decreases |key| - o, 1
  {
    hide TreePut, TreeAt, TreeReset, Common, Agree;
    if q[o] != key[o] {
      CommonStops(key, q, o);
    } else if key[o] in f {
      TreePutAt(f[key[o]], key, payload, o, q);
    } else {
      LeafAt(key, payload, o, q);
    }
  }

  lemma LabelAt(t: Tree, q: Path, o: nat)
    requires WfTree(t) && o < |q| && t.value[0] == q[o]
    ensures var n := Agree(t.value, 0, q, o);
            && 0 < n && Wf(t.kids) && |t.payload| == |t.value|
            && TreeAt(t, q, o) == if o + n == |q| then Some(t.payload[n - 1])
                                  else if n < |t.value| then None else At(t.kids, q, o + n)
  {
    StartsAgreed(t.value, q, o);
    hide Agree, At;
  }

  lemma LabelReset(t: Tree, key: Path, o: nat)
    requires WfTree(t) && o < |key| && t.value[0] == key[o]
    ensures var m := Agree(t.value, 0, key, o);
            && Wf(t.kids)
            && TreeReset(t, key, o) == if m < |t.value| then |key| else if o + m == |key| then o
                                       else Reset(t.kids, key, o + m)
  {
    hide Agree, Reset;
  }

  lemma {:induction false} TreePutAt(t: Tree, key: Path, payload: Payload, o: nat, q: Path)
    requires WfTree(t) && o < |key| == |payload| && t.value[0] == key[o] && o < |q| && q[o] == key[o]
    ensures TreeAt(TreePut(t, key, payload, o), q, o) ==
            if Files(key, q, o, TreeAt(t, q, o), TreeReset(t, key, o)) then Some(payload[|q| - 1]) else TreeAt(t, q, o)
    decreases |key| - o, 0
  {
    hide TreePut, TreeAt, TreeReset, At, Put, Agree, Common, WfTree, Wf, Split;
    var m := Agree(t.value, 0, key, o);
    LabelReset(t, key, o);
    LabelAt(t, q, o);
    if m < |t.value| {
      PutSplits(t, key, payload, o);
      SplitAt(t, key, payload, o, m, q);
    } else if o + m == |key| {
      PutEnds(t, key, payload, o);
      EndAt(t, key, payload, o, q);
    } else {
      PutDescends(t, key, payload, o);
      LabelAt(TreePut(t, key, payload, o), q, o);
      if Agree(t.value, 0, q, o) < m {
        CommonThree(t.value, 0, key, q, o);
      } else {
        CommonSkip(t.value, 0, key, q, o, m);
        if o + m < |q| { PutAt(t.kids, key, payload, o + m, q); }
      }
    }
  }

  /** A key that ends at the node's end overwrites the whole node. */
  lemma EndAt(t: Tree, key: Path, payload: Payload, o: nat, q: Path)
    requires WfTree(t) && o < |key| == |payload| && t.value[0] == key[o] && o < |q| && q[o] == key[o]
    requires Agree(t.value, 0, key, o) == |t.value| && o + |t.value| == |key|
    ensures WfTree(t.(payload := payload[o..]))
    ensures TreeAt(t.(payload := payload[o..]), q, o) ==
            if Common(key, q, o) == |q| then Some(payload[|q| - 1]) else TreeAt(t, q, o)
  {
    var t' := t.(payload := payload[o..]);
    assert WfTree(t');
    hide TreeAt, At, Agree, Common, WfTree;
    LabelAt(t, q, o);
    LabelAt(t', q, o);
    if Agree(t.value, 0, q, o) < |t.value| {
      CommonThree(t.value, 0, key, q, o);
    } else {
      CommonSkip(t.value, 0, key, q, o, |t.value|);
      CommonStops(key, q, |key|);
    }
  }

  /** Which branch a path takes beyond a split. */
  lemma SplitBranchesAt(t: Tree, key: Path, payload: Payload, o: nat, m: nat, q: Path)
    requires WfTree(t) && o < |key| == |payload| && 0 < m < |t.value| && o + m <= |key| && o + m < |q|
    requires o + m < |key| ==> t.value[m] != key[o + m]
    ensures var r := Split(t, key, payload, o, m);
            At(r.kids, q, o + m) ==
              if o + m < |key| && q[o + m] == key[o + m] then TreeAt(Leaf(key, payload, o + m), q, o + m)
              else if q[o + m] == t.value[m] then TreeAt(Tree(t.value[m..], t.payload[m..], t.kids), q, o + m)
              else None
  {
    hide Agree, TreeAt, Leaf;
  }

  lemma SuffixWf(t: Tree, m: nat, n: nat)
    requires WfTree(t) && 0 < m < |t.value|
    ensures |t.payload| == |t.value| && Wf(t.kids)
    ensures var r := Tree(t.value[m..], t.payload[m..], t.kids);
            && WfTree(r) && r.value[0] == t.value[m] && |r.value| == |r.payload|
            && (0 < n <= |t.value| - m ==> r.payload[n - 1] == t.payload[m + n - 1])
  {
  }

  /** The split-off suffix keeps what was filed below the old label. */
  lemma SuffixAt(t: Tree, q: Path, o: nat, m: nat)
    requires WfTree(t) && 0 < m < |t.value| && o + m < |q| && t.value[0] == q[o]
    requires m <= Agree(t.value, 0, q, o) && t.value[m] == q[o + m] && |t.payload| == |t.value|
    ensures TreeAt(Tree(t.value[m..], t.payload[m..], t.kids), q, o + m) == TreeAt(t, q, o)
  {
    hide Agree, TreeAt, At, WfTree, Wf;
    AgreeSkip(t.value, 0, q, o, m);
    SuffixWf(t, m, Agree(t.value, 0, q, o) - m);
    AgreeOfSuffix(t.value, m, 0, q, o + m);
    LabelAt(t, q, o);
    LabelAt(Tree(t.value[m..], t.payload[m..], t.kids), q, o + m);
  }

  lemma SplitTop(t: Tree, key: Path, payload: Payload, o: nat, m: nat)
    requires WfTree(t) && o < |key| == |payload| && 0 < m < |t.value| && o + m <= |key|
    requires o + m < |key| ==> t.value[m] != key[o + m]
    ensures var r := Split(t, key, payload, o, m);
            WfTree(r) && r.value == t.value[..m] && r.payload == t.payload[..m] && r.value[0] == t.value[0]
  {
  }

  /** The upper part of a split label. */
  lemma SplitTopAt(t: Tree, key: Path, payload: Payload, o: nat, m: nat, q: Path)
    requires WfTree(t) && o < |key| == |payload| && 0 < m < |t.value| && o + m <= |key|
    requires o + m < |key| ==> t.value[m] != key[o + m]
    requires o < |q| && t.value[0] == q[o]
    ensures var r, n := Split(t, key, payload, o, m), Agree(t.value, 0, q, o);
            TreeAt(r, q, o) ==
            if n < m || o + m == |q| then (if o + n == |q| then Some(t.payload[n - 1]) else None)
            else At(r.kids, q, o + m)
  {
    hide At, Agree, TreeAt, Split, WfTree, Wf;
    SplitTop(t, key, payload, o, m);
    AgreeOfPrefix(t.value, 0, q, o, m);
    LabelAt(t, q, o);
    LabelAt(Split(t, key, payload, o, m), q, o);
  }

  /** A path in the label splits without losing its element. */
  lemma SplitAt(t: Tree, key: Path, payload: Payload, o: nat, m: nat, q: Path)
    requires WfTree(t) && o < |key| == |payload| && m == Agree(t.value, 0, key, o) && 0 < m < |t.value|
    requires o < |q| && t.value[0] == key[o] == q[o]
    ensures TreeAt(Split(t, key, payload, o, m), q, o) ==
            if Common(key, q, o) == |q| && TreeAt(t, q, o).None? then Some(payload[|q| - 1]) else TreeAt(t, q, o)
  {
    hide Split, At, TreeAt, Agree, Common, WfTree, Leaf;
    LabelAt(t, q, o);
    SplitTopAt(t, key, payload, o, m, q);
    if Agree(t.value, 0, q, o) < m {
      CommonThree(t.value, 0, key, q, o);
    } else if o + m < |q| {
      CommonSkip(t.value, 0, key, q, o, m);
      SplitBranchesAt(t, key, payload, o, m, q);
      if o + m < |key| && q[o + m] == key[o + m] {
        LeafAt(key, payload, o + m, q);
        TurnsOff(t, q, o, m);
      } else {
        CommonStops(key, q, o + m);
        if q[o + m] == t.value[m] { SuffixAt(t, q, o, m); } else { TurnsOff(t, q, o, m); }
      }
    }
  }

  /** A path that leaves the label after m elements. */
  lemma TurnsOff(t: Tree, q: Path, o: nat, m: nat)
    requires WfTree(t) && 0 < m < |t.value| && o + m < |q| && t.value[0] == q[o]
    requires m <= Agree(t.value, 0, q, o) && t.value[m] != q[o + m]
    ensures TreeAt(t, q, o) == None && Agree(t.value, 0, q, o) == m
  {
    AgreeSkip(t.value, 0, q, o, m);
    LabelAt(t, q, o);
  }

  // ---------- Any sequence of insertions ----------

  /** Insertion i supplies element x for path q. */
  ghost predicate Supplies(items: seq<Item>, i: nat, q: Path, x: nat) {
    i < |items| && 0 < |q| <= |items[i].key| == |items[i].payload| && items[i].key[..|q|] == q
    && items[i].payload[|q| - 1] == x
  }

  lemma CommonPrefix(key: Path, q: Path)
    ensures Common(key, q, 0) == |q| <==> |q| <= |key| && key[..|q|] == q
  {
    AgreeIsLcp(key, q, 0);
    assert key[0..] == key && q[0..] == q;
    LcpWhole(key, q);
  }

  lemma {:induction false} LcpWhole(a: Path, b: Path)
    ensures Lcp(a, b) == |b| <==> |b| <= |a| && a[..|b|] == b
  {
    if a != [] && b != [] && a[0] == b[0] {
      LcpWhole(a[1..], b[1..]);
      assert |b| <= |a| ==> a[..|b|] == [a[0]] + a[1..][..|b| - 1];
      assert b == [b[0]] + b[1..];
    } else if b != [] && |b| <= |a| {
      assert a[..|b|][0] == a[0];
    }
  }

  /** After any insertions a path has an element exactly if some inserted key begins with it, and the element is one
      that such an insertion supplied for it. */
  lemma {:induction false} BuildAt(items: seq<Item>, q: Path)
    requires AllOk(items) && q != []
    ensures At(Build(items), q, 0).Some? <==> exists i: nat, x :: Supplies(items, i, q, x)
    ensures At(Build(items), q, 0).Some? ==> exists i: nat :: Supplies(items, i, q, At(Build(items), q, 0).value)
  {
    hide At, Put, Common, Reset;
    if items == [] {
      NothingThere(q);
    } else {
      var n := |items| - 1;
      var rest, last := items[..n], items[n];
      assert forall i | 0 <= i < n :: rest[i] == items[i];
      BuildAt(rest, q);
      PutAt(Build(rest), last.key, last.payload, 0, q);
      CommonPrefix(last.key, q);
      assert forall i: nat, x :: Supplies(rest, i, q, x) ==> Supplies(items, i, q, x);
      assert forall i: nat, x | i < n :: Supplies(items, i, q, x) ==> Supplies(rest, i, q, x);
      if last.Ok() && Common(last.key, q, 0) == |q| {
        assert Supplies(items, n, q, last.payload[|q| - 1]);
      }
    }
  }

  lemma NothingThere(q: Path)
    requires q != []
    ensures At(map[], q, 0).None?
  {
  }
}
