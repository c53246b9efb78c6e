/** Progress of the requests in flight on one replica, as the latency simulator sees it. */
module Sched {
  import opened Basics

  datatype Req = Req(id: Rid, input: nat, processed: nat) {
    predicate Prefilling() {
      processed < input
    }

    /** Prompt tokens still to prefill. */
    function Owed(): nat {
      if processed < input then input - processed else 0
    }

    function Advance(n: nat): Req {
      this.(processed := processed + n)
    }
  }

  datatype Sched = Sched(waiting: seq<Req>, running: map<Rid, Req>) {
    function Admit(r: Req): Sched {
      this.(waiting := waiting + [r])
    }
  }

  // ---------- Identities ----------

  function QueueIds(q: seq<Req>): set<Rid> {
    if q == [] then {} else {q[0].id} + QueueIds(q[1..])
  }

  lemma {:induction false} QueueIdsAre(q: seq<Req>, k: Rid)
    ensures k in QueueIds(q) <==> exists i :: 0 <= i < |q| && q[i].id == k
  {
    if q != [] {
      QueueIdsAre(q[1..], k);
      assert forall i | 1 <= i < |q| :: q[i] == q[1..][i - 1];
    }
  }

  function InFlight(s: Sched): set<Rid> {
    QueueIds(s.waiting) + s.running.Keys
  }

  /** No request occurs twice, and every running request is filed under its own id. */
  ghost predicate Unique(s: Sched) {
    && (forall i, j | 0 <= i < j < |s.waiting| :: s.waiting[i].id != s.waiting[j].id)
    && (forall r | r in s.waiting :: r.id !in s.running)
    && (forall k | k in s.running :: s.running[k].id == k)
  }

  lemma {:induction false} QueueConcat(p: seq<Req>, q: seq<Req>)
    ensures QueueIds(p + q) == QueueIds(p) + QueueIds(q)
  {
    if p == [] {
      assert p + q == q;
    } else {
      QueueConcat(p[1..], q);
      assert (p + q)[1..] == p[1..] + q;
    }
  }

  lemma FlightAdmit(s: Sched, r: Req)
    ensures InFlight(s.Admit(r)) == InFlight(s) + {r.id}
  {
    QueueConcat(s.waiting, [r]);
  }

  /** An admission keeps ids unique just when its id is not in flight. */
  lemma UniqueAdmit(b: Sched, c: Req)
    ensures Unique(b.Admit(c)) <==> Unique(b) && c.id !in InFlight(b)
  {
    var s := b.Admit(c);
    QueueIdsAre(b.waiting, c.id);
    assert s.waiting[|b.waiting|] == c;
    assert c in s.waiting;
    assert forall r | r in b.waiting :: r in s.waiting;
    if Unique(s) {
      forall i, j | 0 <= i < j < |b.waiting|
        ensures b.waiting[i].id != b.waiting[j].id
      {
        assert b.waiting[i] == s.waiting[i] && b.waiting[j] == s.waiting[j];
      }
      forall i | 0 <= i < |b.waiting|
        ensures b.waiting[i].id != c.id
      {
        assert b.waiting[i] == s.waiting[i];
      }
    }
  }

  function Count(s: Sched): nat {
    |s.waiting| + |s.running|
  }

  // ---------- Sums ----------

  function OwedBySeq(q: seq<Req>): nat {
    if q == [] then 0 else q[0].Owed() + OwedBySeq(q[1..])
  }

  ghost function OwedByMap(m: map<Rid, Req>): nat {
    if m == map[] then 0
    else
      var k :| k in m;
      m[k].Owed() + OwedByMap(m - {k})
  }

  /** Prefill work owed by everything in flight. */
  ghost function Owed(s: Sched): nat {
    OwedBySeq(s.waiting) + OwedByMap(s.running)
  }

  lemma {:induction false} OwedByMapLess(m: map<Rid, Req>, x: Rid)
    requires x in m
    ensures OwedByMap(m) == m[x].Owed() + OwedByMap(m - {x})
    decreases |m|
  {
    var k :| k in m && OwedByMap(m) == m[k].Owed() + OwedByMap(m - {k});
    if k != x {
      OwedByMapLess(m - {k}, x);
      OwedByMapLess(m - {x}, k);
      assert m - {k} - {x} == m - {x} - {k};
    }
  }

  lemma OwedByMapSet(m: map<Rid, Req>, x: Rid, r: Req)
    ensures OwedByMap(m[x := r]) == r.Owed() + OwedByMap(m - {x})
    ensures OwedByMap(m[x := r]) == OwedByMap(m) + r.Owed() - if x in m then m[x].Owed() else 0
  {
    OwedByMapLess(m[x := r], x);
    assert m[x := r] - {x} == m - {x};
    if x in m {
      OwedByMapLess(m, x);
    } else {
      assert m - {x} == m;
    }
  }

  lemma {:induction false} OwedByMapZero(m: map<Rid, Req>)
    ensures OwedByMap(m) == 0 <==> forall k | k in m :: !m[k].Prefilling()
    decreases |m|
  {
    if m != map[] {
      var k :| k in m;
      var rest := m - {k};
      OwedByMapLess(m, k);
      OwedByMapZero(rest);
      assert OwedByMap(m) == 0 <==> OwedByMap(rest) == 0 && !m[k].Prefilling();
      if OwedByMap(rest) == 0 && !m[k].Prefilling() {
        forall x | x in m
          ensures !m[x].Prefilling()
        {
          assert x != k ==> !rest[x].Prefilling();
        }
      }
      if forall x | x in m :: !m[x].Prefilling() {
        forall x | x in rest
          ensures !rest[x].Prefilling()
        {
          assert !m[x].Prefilling();
        }
      }
    }
  }

  lemma {:induction false} OwedByConcat(p: seq<Req>, q: seq<Req>)
    ensures OwedBySeq(p + q) == OwedBySeq(p) + OwedBySeq(q)
  {
    if p == [] {
      assert p + q == q;
    } else {
      OwedByConcat(p[1..], q);
      assert (p + q)[1..] == p[1..] + q;
    }
  }

  // ---------- Deterministic order ----------

  predicate Least(s: set<Rid>, m: Rid) {
    m in s && forall x | x in s :: m <= x
  }

  lemma {:induction false} HasLeast(s: set<Rid>) returns (m: Rid)
    requires s != {}
    ensures Least(s, m)
    decreases |s|
  {
    m :| m in s;
    if s != {m} {
      var l := HasLeast(s - {m});
      assert forall x | x in s :: x == m || x in s - {m};
      m := Min(l, m);
    }
  }

  ghost predicate Increasing(s: seq<Rid>) {
    forall i, j | 0 <= i < j < |s| :: s[i] < s[j]
  }

  ghost predicate Lists(r: seq<Rid>, s: set<Rid>) {
    forall x :: x in r <==> x in s
  }

  lemma LeastFirst(s: set<Rid>, m: Rid, rest: seq<Rid>)
    requires Least(s, m) && Lists(rest, s - {m}) && Increasing(rest)
    ensures Lists([m] + rest, s) && Increasing([m] + rest)
  {
    forall i | 0 <= i < |rest|
      ensures m < rest[i]
    {
      assert rest[i] in rest;
    }
  }

  /** The elements of a set in increasing order. */
  function SortedIds(s: set<Rid>): (r: seq<Rid>)
    ensures Lists(r, s) && Increasing(r) && |r| == |s|
  {
    if s == {} then []
    else
      assert exists m :: Least(s, m) by { var m := HasLeast(s); }
      var m :| Least(s, m);
      LeastFirst(s, m, SortedIds(s - {m}));
      [m] + SortedIds(s - {m})
  }
}
