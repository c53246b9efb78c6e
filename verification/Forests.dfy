/** Lists of trees that start differently, as forests. */
module Forests {
  import opened Registry
  import opened Ladder

  /** Well-formed trees, no two starting alike. */
  ghost predicate Apart(ts: seq<Tree>) {
    && (forall i | 0 <= i < |ts| :: WfTree(ts[i]))
    && (forall i, j | 0 <= i < j < |ts| :: ts[i].value[0] != ts[j].value[0])
  }

  ghost function Heads(ts: seq<Tree>): set<Hash> {
    if ts == [] then {} else (if ts[0].value == [] then {} else {ts[0].value[0]}) + Heads(ts[1..])
  }

  /** Position of the first tree that starts with h. */
  ghost function IndexOf(ts: seq<Tree>, h: Hash): (i: nat)
    requires h in Heads(ts)
    ensures i < |ts| && ts[i].value != [] && ts[i].value[0] == h
  {
    if ts[0].value != [] && ts[0].value[0] == h then 0 else 1 + IndexOf(ts[1..], h)
  }

  ghost function ForestOf(ts: seq<Tree>): Forest {
    map h | h in Heads(ts) :: ts[IndexOf(ts, h)]
  }

  lemma {:induction false} HeadsAre(ts: seq<Tree>, h: Hash)
    ensures h in Heads(ts) <==> exists i :: 0 <= i < |ts| && ts[i].value != [] && ts[i].value[0] == h
  {
    if ts != [] {
      HeadsAre(ts[1..], h);
      assert forall i | 1 <= i < |ts| :: ts[i] == ts[1..][i - 1];
    }
  }

  lemma ForestHeads(ts: seq<Tree>, h: Hash)
    ensures h in ForestOf(ts) <==> h in Heads(ts)
    ensures h in Heads(ts) ==> ForestOf(ts)[h] == ts[IndexOf(ts, h)]
  {
  }

  lemma ForestAt(ts: seq<Tree>, i: nat)
    requires Apart(ts) && i < |ts|
    ensures ts[i].value[0] in ForestOf(ts) && ForestOf(ts)[ts[i].value[0]] == ts[i]
  {
    HeadsAre(ts, ts[i].value[0]);
  }

  lemma ForestWf(ts: seq<Tree>)
    requires Apart(ts)
    ensures Wf(ForestOf(ts))
  {
    forall h | h in ForestOf(ts)
      ensures WfTree(ForestOf(ts)[h]) && ForestOf(ts)[h].value[0] == h
    {
      ForestHeads(ts, h);
    }
  }

  lemma ForestAbsent(ts: seq<Tree>, h: Hash)
    requires Apart(ts) && forall i | 0 <= i < |ts| :: ts[i].value[0] != h
    ensures h !in ForestOf(ts)
  {
    HeadsAre(ts, h);
  }

  /** A list stands for the forest that holds exactly its trees under their first elements. */
  lemma ForestUnique(ts: seq<Tree>, f: Forest)
    requires Apart(ts)
    requires forall i | 0 <= i < |ts| :: ts[i].value[0] in f && f[ts[i].value[0]] == ts[i]
    requires forall h | h in f :: h in Heads(ts)
    ensures ForestOf(ts) == f
  {
    var g := ForestOf(ts);
    hide ForestOf, Heads, IndexOf, WfTree;
    forall h
      ensures h in g <==> h in f
      ensures h in g ==> g[h] == f[h]
    {
      ForestHeads(ts, h);
      if h in Heads(ts) { HeadIndex(ts, h); }
    }
  }

  lemma HeadIndex(ts: seq<Tree>, h: Hash)
    requires h in Heads(ts)
    ensures IndexOf(ts, h) < |ts| && ts[IndexOf(ts, h)].value != [] && ts[IndexOf(ts, h)].value[0] == h
  {
  }

  lemma SetHeads(ts: seq<Tree>, i: nat, t: Tree, h: Hash)
    requires i < |ts| && t.value != [] && ts[i].value != [] && t.value[0] == ts[i].value[0]
    ensures h in Heads(ts[i := t]) <==> h in Heads(ts)
  {
    var us := ts[i := t];
    HeadsAre(ts, h);
    HeadsAre(us, h);
    hide Heads;
    if j :| 0 <= j < |ts| && ts[j].value != [] && ts[j].value[0] == h {
      assert us[j].value[0] == h;
    }
  }

  lemma ForestSet(ts: seq<Tree>, i: nat, t: Tree)
    requires Apart(ts) && i < |ts| && WfTree(t) && t.value[0] == ts[i].value[0]
    ensures Apart(ts[i := t]) && ForestOf(ts[i := t]) == ForestOf(ts)[t.value[0] := t]
  {
    var us, f := ts[i := t], ForestOf(ts)[t.value[0] := t];
    assert Apart(us);
    hide ForestOf, Heads;
    forall j | 0 <= j < |us|
      ensures us[j].value[0] in f && f[us[j].value[0]] == us[j]
    {
      ForestAt(ts, j);
    }
    forall h | h in f
      ensures h in Heads(us)
    {
      ForestHeads(ts, h);
      ForestAt(ts, i);
      ForestHeads(ts, t.value[0]);
      SetHeads(ts, i, t, h);
    }
    ForestUnique(us, f);
  }

  function InsertAt<T>(f: seq<T>, i: nat, n: T): seq<T>
    requires i <= |f|
  {
    f[..i] + [n] + f[i..]
  }

  /** Where the elements of a list are after an insertion. */
  lemma Inserted<T>(f: seq<T>, i: nat, n: T)
    requires i <= |f|
    ensures |InsertAt(f, i, n)| == |f| + 1 && InsertAt(f, i, n)[i] == n
    ensures forall j {:trigger InsertAt(f, i, n)[j]} | 0 <= j < |InsertAt(f, i, n)| ::
              InsertAt(f, i, n)[j] == if j < i then f[j] else if j == i then n else f[j - 1]
  {
  }

  lemma InsertApart(ts: seq<Tree>, i: nat, t: Tree)
    requires Apart(ts) && i <= |ts| && WfTree(t) && forall j | 0 <= j < |ts| :: ts[j].value[0] != t.value[0]
    ensures Apart(InsertAt(ts, i, t))
  {
    Inserted(ts, i, t);
    var us := InsertAt(ts, i, t);
    hide InsertAt, WfTree;
    forall j, k | 0 <= j < k < |us|
      ensures us[j].value[0] != us[k].value[0]
    {
    }
  }

  lemma InsertHeads(ts: seq<Tree>, i: nat, t: Tree, h: Hash)
    requires i <= |ts| && t.value != []
    ensures h in Heads(InsertAt(ts, i, t)) <==> h in Heads(ts) || h == t.value[0]
  {
    var us := InsertAt(ts, i, t);
    HeadsAre(ts, h);
    HeadsAre(us, h);
    Inserted(ts, i, t);
    hide InsertAt, Heads;
    if j :| 0 <= j < |ts| && ts[j].value != [] && ts[j].value[0] == h {
      assert us[if j < i then j else j + 1] == ts[j];
    }
    if h == t.value[0] {
      assert us[i] == t;
    }
  }

  lemma ForestAdds(ts: seq<Tree>, i: nat, t: Tree)
    requires Apart(ts) && i <= |ts| && WfTree(t) && forall j | 0 <= j < |ts| :: ts[j].value[0] != t.value[0]
    ensures Apart(InsertAt(ts, i, t)) && ForestOf(InsertAt(ts, i, t)) == ForestOf(ts)[t.value[0] := t]
  {
    var us, f := InsertAt(ts, i, t), ForestOf(ts)[t.value[0] := t];
    InsertApart(ts, i, t);
    Inserted(ts, i, t);
    hide ForestOf, Heads, InsertAt;
    forall j | 0 <= j < |us|
      ensures us[j].value[0] in f && f[us[j].value[0]] == us[j]
    {
      if j != i {
        ForestAt(ts, if j < i then j else j - 1);
      }
    }
    forall h | h in f
      ensures h in Heads(us)
    {
      ForestHeads(ts, h);
      InsertHeads(ts, i, t, h);
    }
    ForestUnique(us, f);
  }

  /** One tree, and two. */
  lemma ForestOfTwo(s: Tree, t: Tree)
    requires WfTree(s) && WfTree(t) && s.value[0] != t.value[0]
    ensures Apart([s]) && ForestOf([s]) == map[s.value[0] := s]
    ensures ForestOf([s, t]) == ForestOf([t, s]) == map[s.value[0] := s][t.value[0] := t]
  {
    ForestOfOne(s);
    assert InsertAt([s], 1, t) == [s, t] && InsertAt([s], 0, t) == [t, s];
    ForestAdds([s], 1, t);
    ForestAdds([s], 0, t);
  }

  lemma ForestOfOne(s: Tree)
    requires WfTree(s)
    ensures Apart([s]) && ForestOf([s]) == map[s.value[0] := s]
  {
    assert ForestOf([]) == map[];
    assert InsertAt([], 0, s) == [s];
    ForestAdds([], 0, s);
  }

  // ---------- What the levels share ----------

  /** Where a child is, or where it belongs. */
  datatype Search = Found(at: nat) | Absent(ins: nat)

  /** How far a label and a query agree, their first elements being equal. */
  method Matched(v: Path, q: Path, o: nat) returns (m: nat)
    requires v != [] && o < |q| && v[0] == q[o]
    ensures m == Agree(v, 0, q, o) && 0 < m
  {
    m := 1;
    while m < |v| && o + m < |q|
      invariant 0 < m <= |v| && o + m <= |q|
      invariant Agree(v, 0, q, o) == m + Agree(v, m, q, o + m)
    {
      if v[m] != q[o + m] {
        break;
      }
      m := m + 1;
    }
  }
}
