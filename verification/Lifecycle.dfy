/** Runs of the whole request path: queue runner, work loops and completion loops of all replicas.

    `handed` is what a work loop has pulled and its completion loop has not taken up yet. A completion loop
    takes two steps for a report, each ending in a decrement of the load counter under the lock; `pending`
    is what it carries from the first to the second, and anything else may happen in between. The history
    fields record all arrivals, the order in which the policy committed them and to whom, what each work
    loop has pulled, and whom each completion loop has counted out; no step depends on them.
  */
module Lifecycle {
  import opened Basics
  import opened Options
  import opened Except
  import opened Completion
  import opened QueueRunner

  datatype Sys = Sys(
    queue: Queue, handed: seq<seq<Entry>>, loops: seq<Loop>, pending: seq<Option<Pending>>,
    arrivals: seq<Entry>, order: seq<(Entry, nat)>, received: seq<seq<Entry>>, left: seq<set<Rid>>)

  datatype Happening =
    | Arrive(entry: Entry, decision: Option<nat>)
    | Pull(replica: nat, decisions: seq<Option<nat>>)
    | Open(replica: nat, report: Report)
    | Close(replica: nat)

  ghost predicate Sized(s: Sys, n: nat) {
    s.queue.Sized(n) && |s.handed| == |s.loops| == |s.pending| == |s.received| == |s.left| == n
  }

  /** Arrivals carry new ids, replicas exist, and engine reports are as their completion loop, which has
      finished with the last one, expects. */
  ghost predicate Legal(s: Sys, h: Happening, n: nat)
    requires Sized(s, n)
  {
    match h
    case Arrive(e, d) => e.rid !in Rids(s.arrivals) && Names(d, n)
    case Pull(i, ds) => i < n && AllName(ds, n)
    case Open(i, r) => i < n && s.pending[i].None? && Expected(Intake(s.loops[i], s.handed[i]), r)
    case Close(i) => i < n && s.pending[i].Some?
  }

  // ---------- Steps, with their history ----------

  ghost function CommitOne(s: Sys, r: nat): Sys
    requires s.queue.uncommit != [] && r < |s.queue.commits| == |s.queue.bs|
  {
    s.(queue := Commit(s.queue, r), order := s.order + [(s.queue.uncommit[0], r)])
  }

  ghost function Refill(s: Sys, i: nat, ds: seq<Option<nat>>): Sys
    requires i < |s.queue.commits| == |s.queue.bs| && AllName(ds, |s.queue.bs|)
    decreases |ds|
  {
    if s.queue.commits[i] != [] || s.queue.uncommit == [] || ds == [] || ds[0].None? then s
    else Refill(CommitOne(s, ds[0].value), i, ds[1..])
  }

  ghost function Hand(s: Sys, i: nat): Sys
    requires i < |s.queue.commits| && i < |s.handed| && i < |s.received|
  {
    var (q, out) := Pulled(s.queue, i);
    if out.None? then s
    else s.(queue := q, handed := s.handed[i := s.handed[i] + [out.value]],
            received := s.received[i := s.received[i] + [out.value]])
  }

  ghost function OpenTurn(s: Sys, i: nat, r: Report): Sys
    requires i < |s.queue.bs| && i < |s.handed| && i < |s.loops| && i < |s.pending| && i < |s.left|
  {
    var (m, p, n1) := Opened(s.loops[i], s.handed[i], r);
    s.(loops := s.loops[i := m], handed := s.handed[i := []], pending := s.pending[i := Some(p)],
       left := s.left[i := s.left[i] + OutFirst(s.loops[i], s.handed[i], r)],
       queue := s.queue.(bs := s.queue.bs[i := SatSub(s.queue.bs[i], n1)]))
  }

  ghost function CloseTurn(s: Sys, i: nat): Sys
    requires i < |s.queue.bs| && i < |s.loops| && i < |s.pending| && i < |s.left| && s.pending[i].Some?
  {
    var p := s.pending[i].value;
    var (l, n2) := Closed(s.loops[i], p);
    s.(loops := s.loops[i := l], pending := s.pending[i := None],
       left := s.left[i := s.left[i] + OutLast(s.loops[i], p)],
       queue := s.queue.(bs := s.queue.bs[i := SatSub(s.queue.bs[i], n2)]))
  }

  /** Both halves of a turn, one right after the other, are the whole turn. */
  lemma TurnIsStep(s: Sys, i: nat, r: Report)
    requires i < |s.queue.bs| && i < |s.handed| && i < |s.loops| && i < |s.pending| && i < |s.left|
    ensures var (m, n1, n2) := Step(s.loops[i], s.handed[i], r);
            CloseTurn(OpenTurn(s, i, r), i) ==
            s.(loops := s.loops[i := m], handed := s.handed[i := []], pending := s.pending[i := None],
               left := s.left[i := s.left[i] + Out(s.loops[i], s.handed[i], r)],
               queue := s.queue.(bs := s.queue.bs[i := SatSub(SatSub(s.queue.bs[i], n1), n2)]))
  {
    hide Opened, Closed, OutFirst, OutLast;
    var (m, p, n1) := Opened(s.loops[i], s.handed[i], r);
    assert s.left[i] + OutFirst(s.loops[i], s.handed[i], r) + OutLast(m, p)
           == s.left[i] + (OutFirst(s.loops[i], s.handed[i], r) + OutLast(m, p));
  }

  lemma {:induction false} RefillIs(s: Sys, i: nat, ds: seq<Option<nat>>, n: nat)
    requires Sized(s, n) && i < n && AllName(ds, n)
    ensures Refill(s, i, ds).queue == Refilled(s.queue, i, ds) && Sized(Refill(s, i, ds), n)
    decreases |ds|
  {
    if !(s.queue.commits[i] != [] || s.queue.uncommit == [] || ds == [] || ds[0].None?) {
      RefillIs(CommitOne(s, ds[0].value), i, ds[1..], n);
    }
  }

  ghost function Next(s: Sys, h: Happening, n: nat): (t: Sys)
    requires Sized(s, n) && Legal(s, h, n)
    ensures Sized(t, n)
  {
    match h
    case Arrive(e, d) =>
      var s1 := s.(queue := s.queue.(uncommit := s.queue.uncommit + [e]), arrivals := s.arrivals + [e]);
      if d.Some? then CommitOne(s1, d.value) else s1
    case Pull(i, ds) =>
      RefillIs(s, i, ds, n);
      Hand(Refill(s, i, ds), i)
    case Open(i, r) => OpenTurn(s, i, r)
    case Close(i) => CloseTurn(s, i)
  }

  /** What arrivals and pulls do to the queue is what the queue runner's methods are proved to do. */
  lemma QueueSteps(s: Sys, h: Happening, n: nat)
    requires Sized(s, n) && Legal(s, h, n)
    ensures h.Arrive? ==> Next(s, h, n).queue == Appended(s.queue, h.entry, h.decision)
    ensures h.Pull? ==> Next(s, h, n).queue == Pulled(Refilled(s.queue, h.replica, h.decisions), h.replica).0
  {
    hide Opened, Closed, Refilled, Refill;
    match h
    case Pull(i, ds) => RefillIs(s, i, ds, n);
    case _ =>
  }

  // ---------- Invariant ----------

  /** What the policy has given to replica i, in order. */
  ghost function Assigned(order: seq<(Entry, nat)>, i: nat): seq<Entry> {
    if order == [] then []
    else Assigned(order[..|order| - 1], i) + if order[|order| - 1].1 == i then [order[|order| - 1].0] else []
  }

  ghost function Committed(order: seq<(Entry, nat)>): seq<Entry> {
    if order == [] then [] else Committed(order[..|order| - 1]) + [order[|order| - 1].0]
  }

  /** Ids do not repeat. */
  ghost predicate Apart(q: seq<Entry>) {
    q == [] || (q[|q| - 1].rid !in Rids(q[..|q| - 1]) && Apart(q[..|q| - 1]))
  }

  /** Replica i: its load counter is the number of requests committed to it, handed to it or held by it;
      it has been given what it has pulled and what is still committed, in order; its completion loop is
      well formed and has traces only of requests it took up; and of these it holds those it has not counted
      out, and no others. */
  ghost predicate ReplicaOk(s: Sys, i: nat)
    requires i < |s.queue.bs| && i < |s.queue.commits| && i < |s.handed| && i < |s.loops| && i < |s.received|
             && i < |s.left| && i < |s.pending|
  {
    && s.queue.bs[i] == |s.queue.commits[i]| + |s.handed[i]| + Held(s.loops[i])
    && Assigned(s.order, i) == s.received[i] + s.queue.commits[i]
    && |s.handed[i]| <= |s.received[i]|
    && s.handed[i] == s.received[i][|s.received[i]| - |s.handed[i]|..]
    && LoopFits(s.loops[i], s.pending[i], Rids(TakenUp(s, i)))
    && HeldIds(s.loops[i]) + s.left[i] == Rids(TakenUp(s, i)) && HeldIds(s.loops[i]) !! s.left[i]
  }

  /** A completion loop, between turns or in the middle of one, that has traces only of `taken`. */
  ghost predicate LoopFits(l: Loop, pending: Option<Pending>, taken: set<Rid>) {
    match pending
    case None => LoopOk(l) && forall k | Tracked(l, k) :: k in taken
    case Some(p) => MidOk(l, p) && forall k | Tracked(p.taken, k) :: k in taken
  }

  lemma FitsOk(l: Loop, pending: Option<Pending>, taken: set<Rid>)
    requires LoopFits(l, pending, taken)
    ensures LoopOk(l)
  {
  }

  /** What completion loop i has taken up. */
  ghost function TakenUp(s: Sys, i: nat): seq<Entry>
    requires i < |s.handed| && i < |s.received| && |s.handed[i]| <= |s.received[i]|
  {
    s.received[i][..|s.received[i]| - |s.handed[i]|]
  }

  ghost predicate SysOk(s: Sys, n: nat) {
    && Sized(s, n) && Apart(s.arrivals)
    && s.arrivals == Committed(s.order) + s.queue.uncommit
    && (forall j | 0 <= j < |s.order| :: s.order[j].1 < n)
    && (forall i: nat {:trigger ReplicaOk(s, i)} | i < n :: ReplicaOk(s, i))
  }

  lemma {:induction false} RidsConcat(p: seq<Entry>, q: seq<Entry>)
    ensures Rids(p + q) == Rids(p) + Rids(q)
  {
    if q == [] {
      assert p + q == p;
    } else {
      RidsConcat(p, q[..|q| - 1]);
      assert (p + q)[..|p + q| - 1] == p + q[..|q| - 1];
    }
  }

  lemma {:induction false} ApartConcat(p: seq<Entry>, q: seq<Entry>)
    ensures Apart(p + q) <==> Apart(p) && Apart(q) && Rids(p) !! Rids(q)
  {
    if q == [] {
      assert p + q == p;
    } else {
      var r := q[..|q| - 1];
      ApartConcat(p, r);
      RidsConcat(p, r);
      assert (p + q)[..|p + q| - 1] == p + r;
    }
  }

  lemma {:induction false} AssignedApart(order: seq<(Entry, nat)>, i: nat)
    ensures Rids(Assigned(order, i)) <= Rids(Committed(order))
    ensures Apart(Committed(order)) ==> Apart(Assigned(order, i))
  {
    if order != [] {
      var rest, last := order[..|order| - 1], order[|order| - 1];
      AssignedApart(rest, i);
      RidsConcat(Committed(rest), [last.0]);
      RidsConcat(Assigned(rest, i), [last.0]);
      ApartConcat(Committed(rest), [last.0]);
      ApartConcat(Assigned(rest, i), [last.0]);
      assert Rids([last.0]) == {last.0.rid};
      assert Assigned(order, i) == if last.1 == i then Assigned(rest, i) + [last.0] else Assigned(rest, i);
    }
  }

  /** Two replicas are never given the same request. */
  lemma {:induction false} AssignedOnce(order: seq<(Entry, nat)>, i: nat, j: nat)
    requires Apart(Committed(order)) && i != j
    ensures Rids(Assigned(order, i)) !! Rids(Assigned(order, j))
  {
    if order != [] {
      var rest, last := order[..|order| - 1], order[|order| - 1];
      ApartConcat(Committed(rest), [last.0]);
      assert Rids([last.0]) == {last.0.rid};
      AssignedOnce(rest, i, j);
      AssignedApart(rest, i);
      AssignedApart(rest, j);
      RidsConcat(Assigned(rest, i), [last.0]);
      RidsConcat(Assigned(rest, j), [last.0]);
      assert Assigned(order, i) == if last.1 == i then Assigned(rest, i) + [last.0] else Assigned(rest, i);
      assert Assigned(order, j) == if last.1 == j then Assigned(rest, j) + [last.0] else Assigned(rest, j);
    }
  }

  lemma {:induction false} ApartIsNew(q: seq<Entry>)
    requires Apart(q)
    ensures forall i, j | 0 <= i < j < |q| :: q[i].rid != q[j].rid
  {
    if q != [] {
      var rest := q[..|q| - 1];
      ApartIsNew(rest);
      forall i | 0 <= i < |rest|
        ensures q[i].rid != q[|q| - 1].rid
      {
        RidsAre(rest, q[|q| - 1].rid);
        assert rest[i] == q[i];
      }
      assert forall i | 0 <= i < |rest| :: rest[i] == q[i];
    }
  }

  // ---------- Every step keeps it ----------

  lemma CommitKeeps(s: Sys, r: nat, n: nat)
    requires SysOk(s, n) && s.queue.uncommit != [] && r < n
    ensures SysOk(CommitOne(s, r), n)
  {
    hide ReplicaOk, Assigned, Committed, Apart;
    var t := CommitOne(s, r);
    OrderGrows(s.order, s.queue.uncommit[0], r);
    assert s.queue.uncommit == [s.queue.uncommit[0]] + t.queue.uncommit;
    forall i: nat | i < n
      ensures ReplicaOk(t, i)
    {
      assert ReplicaOk(s, i);
      CommitReplica(s, r, i);
    }
  }

  lemma OrderGrows(order: seq<(Entry, nat)>, e: Entry, r: nat)
    ensures Committed(order + [(e, r)]) == Committed(order) + [e]
    ensures forall i: nat :: Assigned(order + [(e, r)], i) == Assigned(order, i) + if i == r then [e] else []
  {
    assert (order + [(e, r)])[..|order|] == order;
  }

  lemma CommitReplica(s: Sys, r: nat, i: nat)
    requires s.queue.uncommit != [] && r < |s.queue.commits| == |s.queue.bs|
    requires i < |s.queue.bs| && i < |s.handed| && i < |s.loops| && i < |s.received| && i < |s.left|
             && i < |s.pending| && ReplicaOk(s, i)
    ensures ReplicaOk(CommitOne(s, r), i)
  {
    hide LoopFits, Held, HeldIds, Rids, Assigned;
    OrderGrows(s.order, s.queue.uncommit[0], r);
    var more := if i == r then [s.queue.uncommit[0]] else [];
    assert s.received[i] + s.queue.commits[i] + more == s.received[i] + (s.queue.commits[i] + more);
  }

  lemma ArriveKeeps(s: Sys, e: Entry, n: nat)
    requires SysOk(s, n) && e.rid !in Rids(s.arrivals)
    ensures SysOk(s.(queue := s.queue.(uncommit := s.queue.uncommit + [e]), arrivals := s.arrivals + [e]), n)
  {
    hide LoopFits, Held, HeldIds, Rids, Assigned, Committed;
    var t := s.(queue := s.queue.(uncommit := s.queue.uncommit + [e]), arrivals := s.arrivals + [e]);
    assert t.arrivals[..|s.arrivals|] == s.arrivals;
    assert t.arrivals == Committed(s.order) + t.queue.uncommit;
    forall i: nat | i < n
      ensures ReplicaOk(t, i)
    {
      assert ReplicaOk(s, i);
    }
  }

  lemma {:induction false} RefillKeeps(s: Sys, i: nat, ds: seq<Option<nat>>, n: nat)
    requires SysOk(s, n) && i < n && AllName(ds, n)
    ensures SysOk(Refill(s, i, ds), n)
    decreases |ds|
  {
    hide ReplicaOk, CommitOne;
    if !(s.queue.commits[i] != [] || s.queue.uncommit == [] || ds == [] || ds[0].None?) {
      CommitKeeps(s, ds[0].value, n);
      RefillKeeps(CommitOne(s, ds[0].value), i, ds[1..], n);
    }
  }

  lemma HandKeeps(s: Sys, i: nat, n: nat)
    requires SysOk(s, n) && i < n
    ensures SysOk(Hand(s, i), n)
  {
    hide LoopFits, Held, HeldIds, Rids, Assigned;
    var t := Hand(s, i);
    forall j: nat | j < n
      ensures ReplicaOk(t, j)
    {
      assert ReplicaOk(s, j);
      if j == i && s.queue.commits[i] != [] {
        var e := s.queue.commits[i][0];
        assert s.queue.commits[i] == [e] + t.queue.commits[i];
        assert t.received[i] == s.received[i] + [e];
        var k := |s.received[i]| - |s.handed[i]|;
        assert t.received[i][..k] == s.received[i][..k];
        assert t.received[i][k..] == s.received[i][k..] + [e];
      }
    }
  }

  /** What a replica has been handed comes after, and apart from, what its completion loop has taken up. */
  lemma HandedApart(s: Sys, i: nat, n: nat)
    requires SysOk(s, n) && i < n
    ensures |s.handed[i]| <= |s.received[i]| && Rids(TakenUp(s, i)) + Rids(s.handed[i]) == Rids(s.received[i])
    ensures Rids(TakenUp(s, i)) !! Rids(s.handed[i]) && Apart(s.handed[i]) && Apart(TakenUp(s, i))
  {
    hide LoopFits, Held, HeldIds, Assigned, Committed, Rids, Apart;
    assert ReplicaOk(s, i);
    assert s.received[i] == TakenUp(s, i) + s.handed[i];
    ApartConcat(Committed(s.order), s.queue.uncommit);
    AssignedApart(s.order, i);
    ApartConcat(s.received[i], s.queue.commits[i]);
    ApartConcat(TakenUp(s, i), s.handed[i]);
    RidsConcat(TakenUp(s, i), s.handed[i]);
  }

  /** It is new to the completion loop. */
  lemma HandedIsNew(s: Sys, i: nat, n: nat)
    requires SysOk(s, n) && i < n && s.pending[i].None?
    ensures LoopOk(s.loops[i]) && New(s.loops[i], s.handed[i])
  {
    hide LoopOk, Held, HeldIds, Tracked, Assigned, Rids, Apart;
    assert ReplicaOk(s, i);
    HandedApart(s, i, n);
    ApartIsNew(s.handed[i]);
    forall j | 0 <= j < |s.handed[i]|
      ensures !Tracked(s.loops[i], s.handed[i][j].rid)
    {
      RidsAre(s.handed[i], s.handed[i][j].rid);
    }
  }

  /** Of the ids taken up (t), those held (h) and those counted out (o) make up all; the ids handed over (n)
      come in, and of all these the next turn holds h' and counts out o'. */
  lemma LeftSets(h: set<Rid>, o: set<Rid>, t: set<Rid>, n: set<Rid>, h': set<Rid>, o': set<Rid>)
    requires h + o == t && h !! o && t !! n && h' + o' == h + n && h' !! o'
    ensures h' + (o + o') == t + n && h' !! o + o' && o !! o'
  {
    assert forall k | k in o :: k in t;
  }

  /** Replica i is as the invariant wants it when its lists, its loop and its sets are. */
  lemma ReplicaFits(s: Sys, i: nat)
    requires i < |s.queue.bs| && i < |s.queue.commits| && i < |s.handed| && i < |s.loops| && i < |s.received|
             && i < |s.left| && i < |s.pending|
    requires s.queue.bs[i] == |s.queue.commits[i]| + Held(s.loops[i]) && s.handed[i] == []
    requires Assigned(s.order, i) == s.received[i] + s.queue.commits[i]
    requires LoopFits(s.loops[i], s.pending[i], Rids(s.received[i]))
    requires HeldIds(s.loops[i]) + s.left[i] == Rids(s.received[i]) && HeldIds(s.loops[i]) !! s.left[i]
    ensures ReplicaOk(s, i)
  {
    hide LoopFits, Held, HeldIds, Assigned, Rids;
    assert TakenUp(s, i) == s.received[i];
    assert s.received[i][|s.received[i]|..] == [];
  }

  /** The first half of a turn counts out exactly the finished requests, none of them for the second time,
      and the counter does not saturate. */
  lemma OpenKeeps(s: Sys, i: nat, r: Report, n: nat)
    requires SysOk(s, n) && i < n && s.pending[i].None? && Expected(Intake(s.loops[i], s.handed[i]), r)
    ensures SysOk(OpenTurn(s, i, r), n)
    ensures var out := OutFirst(s.loops[i], s.handed[i], r);
            |out| == Opened(s.loops[i], s.handed[i], r).2 <= s.queue.bs[i] && out !! s.left[i]
  {
    hide Opened, LoopOk, New, Held, HeldIds, Tracked, Assigned, Committed, Rids, MidOk, Expected, OutFirst, Apart,
         Intake;
    HandedApart(s, i, n);
    HandedIsNew(s, i, n);
    assert ReplicaOk(s, i);
    OpenedConserves(s.loops[i], s.handed[i], r);
    var t := OpenTurn(s, i, r);
    LeftSets(HeldIds(s.loops[i]), s.left[i], Rids(TakenUp(s, i)), Rids(s.handed[i]), HeldIds(t.loops[i]),
             OutFirst(s.loops[i], s.handed[i], r));
    ReplicaFits(t, i);
    OthersKeep(s, t, i, n);
  }

  /** What concerns one replica leaves the others as they were. */
  lemma OthersKeep(s: Sys, t: Sys, i: nat, n: nat)
    requires SysOk(s, n) && Sized(t, n) && i < n && ReplicaOk(t, i)
    requires t.order == s.order && t.arrivals == s.arrivals && t.received == s.received
             && t.queue.uncommit == s.queue.uncommit && t.queue.commits == s.queue.commits
    requires forall j | 0 <= j < n && j != i ::
               && t.queue.bs[j] == s.queue.bs[j] && t.handed[j] == s.handed[j] && t.loops[j] == s.loops[j]
               && t.pending[j] == s.pending[j] && t.left[j] == s.left[j]
    ensures SysOk(t, n)
  {
    hide LoopFits, Held, HeldIds, Assigned, Committed, Rids, Apart;
    forall j: nat | j < n
      ensures ReplicaOk(t, j)
    {
      assert ReplicaOk(s, j);
      if j != i { SameReplica(s, t, j); }
    }
  }

  lemma SameReplica(s: Sys, t: Sys, j: nat)
    requires j < |s.queue.bs| && j < |s.queue.commits| && j < |s.handed| && j < |s.loops| && j < |s.received|
             && j < |s.left| && j < |s.pending|
    requires j < |t.queue.bs| && j < |t.queue.commits| && j < |t.handed| && j < |t.loops| && j < |t.received|
             && j < |t.left| && j < |t.pending|
    requires t.order == s.order && t.received[j] == s.received[j] && t.queue.commits[j] == s.queue.commits[j]
    requires t.queue.bs[j] == s.queue.bs[j] && t.handed[j] == s.handed[j] && t.loops[j] == s.loops[j]
             && t.pending[j] == s.pending[j] && t.left[j] == s.left[j]
    requires ReplicaOk(s, j)
    ensures ReplicaOk(t, j)
  {
    hide LoopFits, Held, HeldIds, Assigned, Rids;
  }

  /** The second half counts out exactly the requests that leave in it, none of them for the second time,
      and the counter does not saturate either. */
  lemma CloseKeeps(s: Sys, i: nat, n: nat)
    requires SysOk(s, n) && i < n && s.pending[i].Some?
    ensures SysOk(CloseTurn(s, i), n)
    ensures var out := OutLast(s.loops[i], s.pending[i].value);
            |out| == Closed(s.loops[i], s.pending[i].value).1 <= s.queue.bs[i] && out !! s.left[i]
  {
    hide Closed, LoopOk, Held, HeldIds, Tracked, Assigned, Committed, Rids, MidOk, OutLast, Apart;
    assert ReplicaOk(s, i);
    ClosedConserves(s.loops[i], s.pending[i].value);
    var t := CloseTurn(s, i);
    LeftSets(HeldIds(s.loops[i]), s.left[i], Rids(TakenUp(s, i)), {}, HeldIds(t.loops[i]),
             OutLast(s.loops[i], s.pending[i].value));
    CloseFits(s, t, i);
    OthersKeep(s, t, i, n);
  }

  /** A replica whose loop counted out a few of the requests it held. */
  lemma CloseFits(s: Sys, t: Sys, i: nat)
    requires i < |s.queue.bs| && i < |s.queue.commits| && i < |s.handed| && i < |s.loops| && i < |s.received|
             && i < |s.left| && i < |s.pending| && ReplicaOk(s, i)
    requires i < |t.queue.bs| && i < |t.queue.commits| && i < |t.handed| && i < |t.loops| && i < |t.received|
             && i < |t.left| && i < |t.pending|
    requires t.order == s.order && t.received[i] == s.received[i] && t.queue.commits[i] == s.queue.commits[i]
             && t.handed[i] == s.handed[i]
    requires t.queue.bs[i] - Held(t.loops[i]) == s.queue.bs[i] - Held(s.loops[i])
    requires LoopFits(t.loops[i], t.pending[i], Rids(TakenUp(s, i)))
    requires HeldIds(t.loops[i]) + t.left[i] == Rids(TakenUp(s, i)) && HeldIds(t.loops[i]) !! t.left[i]
    ensures ReplicaOk(t, i)
  {
    hide LoopFits, Held, HeldIds, Assigned, Rids;
    assert TakenUp(t, i) == TakenUp(s, i);
  }

  lemma NextKeeps(s: Sys, h: Happening, n: nat)
    requires SysOk(s, n) && Legal(s, h, n)
    ensures SysOk(Next(s, h, n), n)
  {
    hide ReplicaOk, CommitOne, Hand, OpenTurn, CloseTurn, Refill, Expected;
    match h
    case Arrive(e, d) =>
      ArriveKeeps(s, e, n);
      if d.Some? {
        CommitKeeps(s.(queue := s.queue.(uncommit := s.queue.uncommit + [e]), arrivals := s.arrivals + [e]),
                    d.value, n);
      }
    case Pull(i, ds) =>
      RefillKeeps(s, i, ds, n);
      HandKeeps(Refill(s, i, ds), i, n);
    case Open(i, r) =>
      OpenKeeps(s, i, r, n);
    case Close(i) =>
      CloseKeeps(s, i, n);
  }

  // ---------- Runs ----------

  ghost function Start(n: nat): Sys {
    Sys(Queue([], seq(n, _ => []), seq(n, _ => 0)), seq(n, _ => []), seq(n, _ => Loop(map[], map[], Ext(map[], []))),
        seq(n, _ => None), [], [], seq(n, _ => []), seq(n, _ => {}))
  }

  ghost predicate LegalRun(s: Sys, hs: seq<Happening>, n: nat)
    requires Sized(s, n)
    decreases |hs|
  {
    hs == [] || (Legal(s, hs[0], n) && LegalRun(Next(s, hs[0], n), hs[1..], n))
  }

  ghost function Run(s: Sys, hs: seq<Happening>, n: nat): Sys
    requires Sized(s, n) && LegalRun(s, hs, n)
    decreases |hs|
  {
    if hs == [] then s else Run(Next(s, hs[0], n), hs[1..], n)
  }

  lemma {:induction false} RunKeeps(s: Sys, hs: seq<Happening>, n: nat)
    requires SysOk(s, n) && LegalRun(s, hs, n)
    ensures SysOk(Run(s, hs, n), n)
    decreases |hs|
  {
    hide Next, Legal;
    if hs != [] {
      NextKeeps(s, hs[0], n);
      RunKeeps(Next(s, hs[0], n), hs[1..], n);
    }
  }

  /** In every run, at every step boundary: the load counter of each replica is the number of requests in
      its commit buffer, handed to its completion loop, and held there with or without an exception; and
      what a replica has received, followed by what is committed to it, is the subsequence of the arrivals
      that the policy gave it. */
  lemma LoadIsReal(hs: seq<Happening>, n: nat, i: nat)
    requires LegalRun(Start(n), hs, n) && i < n
    ensures var s := Run(Start(n), hs, n);
            && Sized(s, n)
            && s.queue.bs[i] == |s.queue.commits[i]| + |s.handed[i]| + |s.loops[i].entries| + |s.loops[i].ext.entries|
            && s.received[i] + s.queue.commits[i] == Assigned(s.order, i)
            && s.arrivals == Committed(s.order) + s.queue.uncommit
  {
    StartOk(n);
    RunKeeps(Start(n), hs, n);
    assert ReplicaOk(Run(Start(n), hs, n), i);
  }

  lemma StartOk(n: nat)
    ensures SysOk(Start(n), n)
  {
    var s := Start(n);
    forall i: nat | i < n
      ensures ReplicaOk(s, i)
    {
      assert LoopOk(s.loops[i]) by {
        assert forall k :: IdOk(s.loops[i], k);
      }
    }
  }

  // ---------- Where a request is ----------

  datatype Place =
    | Uncommitted | CommittedTo(i: nat) | HandedTo(i: nat) | HeldBy(i: nat) | ExceptedAt(i: nat) | CountedOutBy(i: nat)

  ghost predicate Sits(s: Sys, n: nat, k: Rid, p: Place)
    requires Sized(s, n)
  {
    match p
    case Uncommitted => k in Rids(s.queue.uncommit)
    case CommittedTo(i) => i < n && k in Rids(s.queue.commits[i])
    case HandedTo(i) => i < n && k in Rids(s.handed[i])
    case HeldBy(i) => i < n && k in s.loops[i].entries
    case ExceptedAt(i) => i < n && k in s.loops[i].ext.entries
    case CountedOutBy(i) => i < n && k in s.left[i]
  }

  /** What replica i has been given falls into three parts without common ids: taken up, handed to its
      completion loop, and committed to it; and what was taken up falls into what its completion loop
      holds, with or without an exception, and what it has counted out. */
  lemma GivenParts(s: Sys, n: nat, i: nat) returns (taken: set<Rid>)
    requires SysOk(s, n) && i < n
    ensures taken + Rids(s.handed[i]) + Rids(s.queue.commits[i]) == Rids(Assigned(s.order, i))
    ensures taken !! Rids(s.handed[i]) && taken !! Rids(s.queue.commits[i])
            && Rids(s.handed[i]) !! Rids(s.queue.commits[i])
    ensures s.loops[i].entries.Keys + s.loops[i].ext.entries.Keys + s.left[i] == taken
    ensures s.loops[i].entries.Keys !! s.loops[i].ext.entries.Keys
    ensures s.left[i] !! s.loops[i].entries.Keys + s.loops[i].ext.entries.Keys
    ensures Rids(Assigned(s.order, i)) <= Rids(Committed(s.order))
  {
    hide LoopOk, MidOk, Held, Tracked, Assigned, Rids;
    assert ReplicaOk(s, i);
    HandedApart(s, i, n);
    FitsOk(s.loops[i], s.pending[i], Rids(TakenUp(s, i)));
    taken := Rids(TakenUp(s, i));
    assert s.received[i] == TakenUp(s, i) + s.handed[i];
    RidsConcat(s.received[i], s.queue.commits[i]);
    ApartConcat(Committed(s.order), s.queue.uncommit);
    AssignedApart(s.order, i);
    ApartConcat(s.received[i], s.queue.commits[i]);
    ApartConcat(TakenUp(s, i), s.handed[i]);
    HeldApart(s.loops[i]);
  }

  /** A request at a replica has been given to it, and is in one place there. */
  lemma SitsGiven(s: Sys, n: nat, k: Rid, p: Place)
    requires SysOk(s, n) && Sits(s, n, k, p) && !p.Uncommitted?
    ensures p.i < n && k in Rids(Assigned(s.order, p.i)) && k in Rids(Committed(s.order))
    ensures forall q | Sits(s, n, k, q) && !q.Uncommitted? && q.i == p.i :: q == p
  {
    hide ReplicaOk, Rids, Assigned, Committed;
    var taken := GivenParts(s, n, p.i);
  }

  /** A request that was given to a replica is somewhere there, or was counted out there. */
  lemma GivenSits(s: Sys, n: nat, k: Rid, i: nat) returns (p: Place)
    requires SysOk(s, n) && i < n && k in Rids(Assigned(s.order, i))
    ensures Sits(s, n, k, p)
  {
    hide ReplicaOk, Rids, Assigned, Committed;
    var taken := GivenParts(s, n, i);
    p := if k in Rids(s.queue.commits[i]) then CommittedTo(i)
         else if k in Rids(s.handed[i]) then HandedTo(i)
         else if k in s.loops[i].entries then HeldBy(i)
         else if k in s.loops[i].ext.entries then ExceptedAt(i)
         else CountedOutBy(i);
  }

  /** No request is ever in two places, or counted out twice, or still somewhere after it was counted out. */
  lemma OnePlace(s: Sys, n: nat, k: Rid, p: Place, q: Place)
    requires SysOk(s, n) && Sits(s, n, k, p) && Sits(s, n, k, q)
    ensures p == q
  {
    hide ReplicaOk, Rids, Assigned, Committed, Apart;
    ApartConcat(Committed(s.order), s.queue.uncommit);
    if !p.Uncommitted? { SitsGiven(s, n, k, p); }
    if !q.Uncommitted? { SitsGiven(s, n, k, q); }
    if !p.Uncommitted? && !q.Uncommitted? && p.i != q.i {
      AssignedOnce(s.order, p.i, q.i);
      assert false;
    }
  }

  /** Every commitment went to some replica. */
  lemma {:induction false} CommittedGiven(order: seq<(Entry, nat)>, k: Rid) returns (i: nat)
    requires k in Rids(Committed(order))
    ensures k in Rids(Assigned(order, i)) && exists j :: 0 <= j < |order| && order[j].1 == i
  {
    var rest, last := order[..|order| - 1], order[|order| - 1];
    RidsConcat(Committed(rest), [last.0]);
    assert Rids([last.0]) == {last.0.rid};
    if k == last.0.rid {
      i := last.1;
      RidsConcat(Assigned(rest, i), [last.0]);
    } else {
      i := CommittedGiven(rest, k);
      RidsConcat(Assigned(rest, i), [last.0]);
      assert Assigned(order, i) == if last.1 == i then Assigned(rest, i) + [last.0] else Assigned(rest, i);
      var j :| 0 <= j < |rest| && rest[j].1 == i;
      assert order[j].1 == i;
    }
  }

  /** In every run, an id that has arrived is in exactly one place, where having been counted out by a
      replica's completion loop is one of the places; and an id that has not arrived is in none. */
  lemma ExactlyOnePlace(hs: seq<Happening>, n: nat, k: Rid)
    requires LegalRun(Start(n), hs, n)
    ensures var s := Run(Start(n), hs, n);
            && Sized(s, n)
            && (k in Rids(s.arrivals) <==> exists p :: Sits(s, n, k, p))
            && (forall p, q | Sits(s, n, k, p) && Sits(s, n, k, q) :: p == q)
  {
    hide SysOk, Sits, Rids, Committed, Assigned;
    StartOk(n);
    RunKeeps(Start(n), hs, n);
    var s := Run(Start(n), hs, n);
    SysIsSized(s, n);
    if k in Rids(s.arrivals) {
      var p := ArrivedSits(s, n, k);
    }
    forall p | Sits(s, n, k, p)
      ensures k in Rids(s.arrivals)
    {
      SitsArrived(s, n, k, p);
    }
    forall p, q | Sits(s, n, k, p) && Sits(s, n, k, q)
      ensures p == q
    {
      OnePlace(s, n, k, p, q);
    }
  }

  lemma SysIsSized(s: Sys, n: nat)
    requires SysOk(s, n)
    ensures Sized(s, n)
  {
  }

  lemma ArrivedSits(s: Sys, n: nat, k: Rid) returns (p: Place)
    requires SysOk(s, n) && k in Rids(s.arrivals)
    ensures Sits(s, n, k, p)
  {
    hide ReplicaOk, Rids, Assigned, Committed, Apart;
    RidsConcat(Committed(s.order), s.queue.uncommit);
    if k in Rids(s.queue.uncommit) {
      p := Uncommitted;
    } else {
      var i := CommittedGiven(s.order, k);
      p := GivenSits(s, n, k, i);
    }
  }

  lemma SitsArrived(s: Sys, n: nat, k: Rid, p: Place)
    requires SysOk(s, n) && Sits(s, n, k, p)
    ensures k in Rids(s.arrivals)
  {
    hide ReplicaOk, Rids, Assigned, Committed, Apart;
    RidsConcat(Committed(s.order), s.queue.uncommit);
    if !p.Uncommitted? { SitsGiven(s, n, k, p); }
  }

  /** How many requests a replica has been given, it still counts or has counted out. */
  lemma CountedOutOnce(hs: seq<Happening>, n: nat, i: nat)
    requires LegalRun(Start(n), hs, n) && i < n
    ensures var s := Run(Start(n), hs, n);
            Sized(s, n) && |Assigned(s.order, i)| == s.queue.bs[i] + |s.left[i]|
  {
    hide Assigned, Rids, LoopOk, Tracked, HeldIds, Held, Run, LegalRun;
    StartOk(n);
    RunKeeps(Start(n), hs, n);
    var s := Run(Start(n), hs, n);
    assert ReplicaOk(s, i);
    TakenSize(s, n, i);
  }

  lemma TakenSize(s: Sys, n: nat, i: nat)
    requires SysOk(s, n) && i < n
    ensures |s.handed[i]| <= |s.received[i]| && |TakenUp(s, i)| == Held(s.loops[i]) + |s.left[i]|
  {
    hide Assigned, Committed, Rids, Apart, LoopOk, MidOk, Tracked, HeldIds, Held;
    assert ReplicaOk(s, i);
    HandedApart(s, i, n);
    FitsOk(s.loops[i], s.pending[i], Rids(TakenUp(s, i)));
    ApartSize(TakenUp(s, i));
    HeldApart(s.loops[i]);
    LessOut(Rids(TakenUp(s, i)), s.left[i]);
    assert Rids(TakenUp(s, i)) - s.left[i] == HeldIds(s.loops[i]);
  }

  lemma {:induction false} ApartSize(q: seq<Entry>)
    requires Apart(q)
    ensures |Rids(q)| == |q|
  {
    if q != [] {
      ApartSize(q[..|q| - 1]);
    }
  }
}
