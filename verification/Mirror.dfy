/** The speculative prefix cache of one replica: claims of the requests dispatched to it, kept in step
    with the engine's reports.
  */
module Mirror {
  import opened Basics
  import opened Prefixes
  import opened Registry
  import opened ReqIds
  import opened ReqIdHash
  import opened Sched
  import Snapshot

  datatype Mirrored = Mirrored(tree: Tree, claims: Claims)

  // ---------- Transitions ----------

  ghost function Removed(m: Mirrored, r: Rid): Mirrored {
    if r in m.claims then Mirrored(Release(m.tree, m.claims[r], r), m.claims - {r}) else m
  }

  /** A repeated claim replaces the former one; an empty claim is ignored. */
  ghost function Inserted(m: Mirrored, r: Rid, p: Path): Mirrored {
    if p == [] then m
    else
      var m1 := Removed(m, r);
      Mirrored(Claim(m1.tree, p, r), m1.claims[r := p])
  }

  /** An evicted hash is dropped unless one of its owners is in flight. */
  ghost function Evicted(m: Mirrored, h: Hash, flight: set<Rid>): Mirrored {
    if Owners(m.tree.index, h) !! flight then m.(tree := Evict(m.tree, h)) else m
  }

  ghost function EvictedAll(m: Mirrored, hs: seq<Hash>, flight: set<Rid>): Mirrored {
    if hs == [] then m else Evicted(EvictedAll(m, hs[..|hs| - 1], flight), hs[|hs| - 1], flight)
  }

  ghost function RemovedEnded(m: Mirrored, outs: seq<Snapshot.Output>): Mirrored {
    if outs == [] then m
    else
      var m1 := RemovedEnded(m, outs[..|outs| - 1]);
      if outs[|outs| - 1].finished then Removed(m1, outs[|outs| - 1].rid) else m1
  }

  ghost function RemovedAll(m: Mirrored, ids: seq<Rid>): Mirrored {
    if ids == [] then m else Removed(RemovedAll(m, ids[..|ids| - 1]), ids[|ids| - 1])
  }

  /** One report absorbed; `flight` are the requests in flight after it. */
  ghost function Absorbed(m: Mirrored, r: Snapshot.Report, flight: set<Rid>): Mirrored {
    RemovedAll(RemovedAll(RemovedEnded(EvictedAll(m, r.evicted, flight), r.outputs), r.aborted), r.preempted)
  }

  // ---------- Runs ----------

  datatype World = World(sched: Sched, mirror: Mirrored)

  datatype Event = Admit(rid: Rid, input: nat, hashes: Path) | Step(report: Snapshot.Report)

  ghost function Next(w: World, e: Event): World {
    match e
    case Admit(rid, input, hashes) => World(w.sched.Admit(Req(rid, input, 0)), Inserted(w.mirror, rid, hashes))
    case Step(report) =>
      var s := Snapshot.Synced(w.sched, report);
      World(s, Absorbed(w.mirror, report, InFlight(s)))
  }

  ghost function Run(w: World, es: seq<Event>): World {
    if es == [] then w else Next(Run(w, es[..|es| - 1]), es[|es| - 1])
  }

  /** Ids are unique: nobody is admitted while in flight. */
  ghost predicate FreshRun(w: World, es: seq<Event>) {
    es == [] ||
    (FreshRun(w, es[..|es| - 1]) &&
     (es[|es| - 1].Admit? ==> es[|es| - 1].rid !in InFlight(Run(w, es[..|es| - 1]).sched)))
  }

  ghost const EMPTY := World(Sched([], map[]), Mirrored(Tree(map[], map[]), map[]))

  // ---------- Evictions never cut a request in flight ----------

  ghost predicate HeldBy(m: Mirrored, r: Rid)
    requires r in m.claims
  {
    m.claims[r] != [] && Holds(m.tree, m.claims[r], r)
  }

  /** The claims of the requests in `keep` are whole. */
  ghost predicate Intact(m: Mirrored, keep: set<Rid>) {
    && Rooted(m.tree)
    && (forall r {:trigger HeldBy(m, r)} | r in m.claims && r in keep :: HeldBy(m, r))
  }

  lemma IntactRemoved(m: Mirrored, r: Rid, keep: set<Rid>)
    requires Intact(m, keep)
    ensures Intact(Removed(m, r), keep) && Removed(m, r).claims == m.claims - {r}
  {
    var m' := Removed(m, r);
    if r in m.claims {
      RootedRelease(m.tree, m.claims[r], r);
      forall x | x in m'.claims && x in keep
        ensures HeldBy(m', x)
      {
        assert HeldBy(m, x);
        HoldsAfter(m.tree, m.claims[x], x, m.claims[r], r);
      }
    }
  }

  lemma IntactInserted(m: Mirrored, r: Rid, p: Path, keep: set<Rid>)
    requires Intact(m, keep)
    ensures Intact(Inserted(m, r, p), if p == [] then keep else keep + {r})
    ensures Inserted(m, r, p).claims == if p == [] then m.claims else m.claims[r := p]
  {
    if p != [] {
      var m1, m' := Removed(m, r), Inserted(m, r, p);
      IntactRemoved(m, r, keep);
      RootedClaim(m1.tree, p, r);
      HoldsClaimed(m1.tree, p, r);
      forall x | x in m'.claims && x in keep + {r}
        ensures HeldBy(m', x)
      {
        if x != r {
          assert HeldBy(m1, x);
          HoldsAfter(m1.tree, m1.claims[x], x, p, r);
        }
      }
    }
  }

  lemma IntactEvicted(m: Mirrored, h: Hash, flight: set<Rid>)
    requires Intact(m, flight)
    ensures Intact(Evicted(m, h, flight), flight) && Evicted(m, h, flight).claims == m.claims
  {
    var m' := Evicted(m, h, flight);
    RootedAfter(m.tree, [], 0, h);
    if Owners(m.tree.index, h) !! flight {
      forall x | x in m'.claims && x in flight
        ensures HeldBy(m', x)
      {
        assert HeldBy(m, x);
        HoldsEvict(m.tree, m.claims[x], x, h);
      }
    }
  }

  lemma {:induction false} IntactEvictedAll(m: Mirrored, hs: seq<Hash>, flight: set<Rid>)
    requires Intact(m, flight)
    ensures Intact(EvictedAll(m, hs, flight), flight) && EvictedAll(m, hs, flight).claims == m.claims
  {
    if hs != [] {
      IntactEvictedAll(m, hs[..|hs| - 1], flight);
      IntactEvicted(EvictedAll(m, hs[..|hs| - 1], flight), hs[|hs| - 1], flight);
    }
  }

  lemma {:induction false} IntactRemovedEnded(m: Mirrored, outs: seq<Snapshot.Output>, keep: set<Rid>)
    requires Intact(m, keep)
    ensures Intact(RemovedEnded(m, outs), keep) && RemovedEnded(m, outs).claims == m.claims - Snapshot.Ended(outs)
  {
    hide Removed;
    if outs != [] {
      IntactRemovedEnded(m, outs[..|outs| - 1], keep);
      IntactRemoved(RemovedEnded(m, outs[..|outs| - 1]), outs[|outs| - 1].rid, keep);
    }
  }

  lemma {:induction false} IntactRemovedAll(m: Mirrored, ids: seq<Rid>, keep: set<Rid>)
    requires Intact(m, keep)
    ensures Intact(RemovedAll(m, ids), keep) && RemovedAll(m, ids).claims == m.claims - Elems(ids)
  {
    hide Removed;
    if ids != [] {
      IntactRemovedAll(m, ids[..|ids| - 1], keep);
      IntactRemoved(RemovedAll(m, ids[..|ids| - 1]), ids[|ids| - 1], keep);
    }
  }

  /** Absorbing a report releases exactly the finished, aborted and preempted requests. */
  lemma IntactAbsorbed(m: Mirrored, r: Snapshot.Report, flight: set<Rid>)
    requires Intact(m, flight)
    ensures Intact(Absorbed(m, r, flight), flight)
    ensures Absorbed(m, r, flight).claims ==
            m.claims - Snapshot.Ended(r.outputs) - Elems(r.aborted) - Elems(r.preempted)
  {
    hide Intact, EvictedAll, RemovedEnded, RemovedAll;
    var m1 := EvictedAll(m, r.evicted, flight);
    IntactEvictedAll(m, r.evicted, flight);
    IntactRemovedEnded(m1, r.outputs, flight);
    IntactRemovedAll(RemovedEnded(m1, r.outputs), r.aborted, flight);
    IntactRemovedAll(RemovedAll(RemovedEnded(m1, r.outputs), r.aborted), r.preempted, flight);
  }

  /** The invariant of every run with unique ids: whoever is mirrored is in flight and holds its whole
      claim, so that no eviction has cut it. */
  ghost predicate Safe(w: World) {
    && Unique(w.sched) && w.mirror.claims.Keys <= InFlight(w.sched)
    && Intact(w.mirror, InFlight(w.sched))
  }

  lemma SafeNext(w: World, e: Event)
    requires Safe(w) && (e.Admit? ==> e.rid !in InFlight(w.sched))
    ensures Safe(Next(w, e))
  {
    hide Unique, Intact, Absorbed, Snapshot.Synced;
    match e
    case Admit(rid, input, hashes) =>
      UniqueAdmit(w.sched, Req(rid, input, 0));
      FlightAdmit(w.sched, Req(rid, input, 0));
      IntactInserted(w.mirror, rid, hashes, InFlight(w.sched));
      IntactLess(Inserted(w.mirror, rid, hashes), if hashes == [] then InFlight(w.sched) else InFlight(w.sched) + {rid},
                 InFlight(w.sched) + {rid});
    case Step(report) =>
      Snapshot.SyncShrinks(w.sched, report);
      var s := Snapshot.Synced(w.sched, report);
      IntactLess(w.mirror, InFlight(w.sched), InFlight(s));
      IntactAbsorbed(w.mirror, report, InFlight(s));
  }

  lemma IntactLess(m: Mirrored, keep: set<Rid>, keep': set<Rid>)
    requires Intact(m, keep) && forall r | r in m.claims && r in keep' :: r in keep
    ensures Intact(m, keep')
  {
  }

  /** Over any run of admissions with unique ids and of engine steps, whatever they evict, every
      mirrored request is in flight, is listed as an owner of each of its hashes, and still matches
      with its full hash sequence. */
  lemma {:induction false} EvictionsNeverCut(es: seq<Event>, r: Rid)
    requires FreshRun(EMPTY, es) && r in Run(EMPTY, es).mirror.claims
    ensures var w := Run(EMPTY, es);
            var p := w.mirror.claims[r];
            && r in InFlight(w.sched) && p != []
            && Match(w.mirror.tree.nodes.Keys, p) == |p|
            && (forall h | h in p :: r in Owners(w.mirror.tree.index, h))
  {
    hide Unique, InFlight, Run;
    RunSafe(es);
    var w := Run(EMPTY, es);
    assert HeldBy(w.mirror, r);
    HoldsMatches(w.mirror.tree, w.mirror.claims[r], r);
  }

  lemma {:induction false} RunSafe(es: seq<Event>)
    requires FreshRun(EMPTY, es)
    ensures Safe(Run(EMPTY, es))
  {
    if es != [] {
      RunSafe(es[..|es| - 1]);
      SafeNext(Run(EMPTY, es[..|es| - 1]), es[|es| - 1]);
    }
  }

  // ---------- The mirror is exact ----------

  ghost predicate NearTo(m: Mirrored, leaving: set<Rid>) {
    Near(m.tree, m.claims, leaving)
  }

  lemma NearRemoved(m: Mirrored, leaving: set<Rid>, r: Rid)
    requires NearTo(m, leaving)
    ensures NearTo(Removed(m, r), leaving - {r})
  {
    if r in m.claims {
      NearRelease(m.tree, m.claims, leaving, r);
    } else {
      NearNobody(m.tree, m.claims, leaving, r);
    }
  }

  lemma {:induction false} NearRemovedEnded(m: Mirrored, leaving: set<Rid>, outs: seq<Snapshot.Output>)
    requires NearTo(m, leaving)
    ensures NearTo(RemovedEnded(m, outs), leaving - Snapshot.Ended(outs))
  {
    hide NearTo, Removed;
    if outs == [] {
      assert leaving - {} == leaving;
    } else {
      var rest, o := outs[..|outs| - 1], outs[|outs| - 1];
      NearRemovedEnded(m, leaving, rest);
      NearRemoved(RemovedEnded(m, rest), leaving - Snapshot.Ended(rest), o.rid);
      assert leaving - Snapshot.Ended(outs) ==
             leaving - Snapshot.Ended(rest) - if o.finished then {o.rid} else {};
      assert leaving - Snapshot.Ended(rest) - {} == leaving - Snapshot.Ended(rest);
    }
  }

  lemma {:induction false} NearRemovedAll(m: Mirrored, leaving: set<Rid>, ids: seq<Rid>)
    requires NearTo(m, leaving)
    ensures NearTo(RemovedAll(m, ids), leaving - Elems(ids))
  {
    hide NearTo, Removed;
    if ids == [] {
      assert leaving - {} == leaving;
    } else {
      var rest, k := ids[..|ids| - 1], ids[|ids| - 1];
      NearRemovedAll(m, leaving, rest);
      NearRemoved(RemovedAll(m, rest), leaving - Elems(rest), k);
      assert leaving - Elems(ids) == leaving - Elems(rest) - {k};
    }
  }

  /** An eviction takes away no more than parts of the claims of requests that are not in flight any more. */
  lemma NearEvicted(m: Mirrored, leaving: set<Rid>, h: Hash, flight: set<Rid>)
    requires NearTo(m, leaving) && m.claims.Keys <= flight + leaving
    ensures NearTo(Evicted(m, h, flight), leaving) && Evicted(m, h, flight).claims == m.claims
  {
    if Owners(m.tree.index, h) !! flight {
      assert HashNear(m.tree, m.claims, leaving, h);
      forall r | r in Owners(m.tree.index, h)
        ensures r in leaving
      {
        assert r in Containing(m.claims, h);
      }
      NearEvict(m.tree, m.claims, leaving, h);
    }
  }

  lemma {:induction false} NearEvictedAll(m: Mirrored, leaving: set<Rid>, hs: seq<Hash>, flight: set<Rid>)
    requires NearTo(m, leaving) && m.claims.Keys <= flight + leaving
    ensures NearTo(EvictedAll(m, hs, flight), leaving) && EvictedAll(m, hs, flight).claims == m.claims
  {
    hide NearTo, Evicted;
    if hs != [] {
      NearEvictedAll(m, leaving, hs[..|hs| - 1], flight);
      NearEvicted(EvictedAll(m, hs[..|hs| - 1], flight), leaving, hs[|hs| - 1], flight);
    }
  }

  /** A report leaves an exact mirror exact, whatever it evicts, if every request that has left the flight by
      then is among those it finishes or aborts. */
  lemma ExactAbsorbed(m: Mirrored, r: Snapshot.Report, flight: set<Rid>)
    requires NearTo(m, {}) && m.claims.Keys <= flight + Snapshot.Ended(r.outputs) + Elems(r.aborted)
    ensures NearTo(Absorbed(m, r, flight), {})
  {
    hide NearTo, EvictedAll, RemovedEnded, RemovedAll, Snapshot.Ended, Elems;
    var leaving := Snapshot.Ended(r.outputs) + Elems(r.aborted);
    NearLeaving(m, leaving);
    NearEvictedAll(m, leaving, r.evicted, flight);
    var m1 := EvictedAll(m, r.evicted, flight);
    NearRemovedEnded(m1, leaving, r.outputs);
    var m2 := RemovedEnded(m1, r.outputs);
    NearRemovedAll(m2, leaving - Snapshot.Ended(r.outputs), r.aborted);
    var m3 := RemovedAll(m2, r.aborted);
    assert leaving - Snapshot.Ended(r.outputs) - Elems(r.aborted) == {};
    NearRemovedAll(m3, {}, r.preempted);
    assert {} - Elems(r.preempted) == {};
  }

  lemma NearLeaving(m: Mirrored, leaving: set<Rid>)
    requires NearTo(m, {})
    ensures NearTo(m, leaving)
  {
    NearIsExact(m.tree, m.claims);
    ExactIsNear(m.tree, m.claims, leaving);
  }

  lemma ExactInserted(m: Mirrored, r: Rid, p: Path)
    requires NearTo(m, {})
    ensures NearTo(Inserted(m, r, p), {})
  {
    if p != [] {
      NearRemoved(m, {}, r);
      var m1 := Removed(m, r);
      assert {} - {r} == {};
      RemovedClaims(m, r);
      NearIsExact(m1.tree, m1.claims);
      ExactClaim(m1.tree, m1.claims, p, r);
      ExactIsNear(Inserted(m, r, p).tree, Inserted(m, r, p).claims, {});
    }
  }

  lemma RemovedClaims(m: Mirrored, r: Rid)
    ensures r !in Removed(m, r).claims
  {
  }

  /** In every run with unique ids, whatever it evicts, the trie and its index hold the mirrored claims and nothing
      else: a node exists exactly where a claim passes, and its owners are those claimants. The evictions that
      pass arbitration take away only what the same report releases anyway. */
  lemma {:induction false} RunExact(es: seq<Event>)
    requires FreshRun(EMPTY, es)
    ensures var m := Run(EMPTY, es).mirror; Exact(m.tree, m.claims)
  {
    RunNear(es);
    var m := Run(EMPTY, es).mirror;
    NearIsExact(m.tree, m.claims);
  }

  lemma {:induction false} RunNear(es: seq<Event>)
    requires FreshRun(EMPTY, es)
    ensures NearTo(Run(EMPTY, es).mirror, {})
  {
    hide NearTo, Absorbed, Inserted, Snapshot.Synced, Safe, InFlight;
    if es == [] {
      NearEmpty();
    } else {
      var before, e := es[..|es| - 1], es[|es| - 1];
      var w := Run(EMPTY, before);
      RunNear(before);
      match e
      case Admit(rid, input, hashes) => ExactInserted(w.mirror, rid, hashes);
      case Step(report) =>
        RunSafe(before);
        LeftByReport(w, report);
        ExactAbsorbed(w.mirror, report, InFlight(Snapshot.Synced(w.sched, report)));
    }
  }

  lemma LeftByReport(w: World, r: Snapshot.Report)
    requires Safe(w)
    ensures w.mirror.claims.Keys <= InFlight(Snapshot.Synced(w.sched, r)) + Snapshot.Ended(r.outputs) + Elems(r.aborted)
  {
    hide Unique, InFlight, Snapshot.Synced, Intact;
    Snapshot.SyncShrinks(w.sched, r);
  }

  lemma NearEmpty()
    ensures NearTo(EMPTY.mirror, {})
  {
    ExactEmpty();
    ExactIsNear(Tree(map[], map[]), map[], {});
  }

  lemma ExactEmpty()
    ensures Exact(Tree(map[], map[]), map[])
  {
  }

  /** What an eviction does to the node at the first j elements of q. */
  lemma EvictedNode(t: Tree, h: Hash, q: Path, j: nat)
    requires Rooted(t) && 0 < j <= |q|
    ensures q[..j] in Evict(t, h).nodes <==> q[..j] in t.nodes && q[0] != h
  {
    assert q[..j][..1] == [q[0]];
    assert q[0] == h <==> [h] <= q[..j];
  }

  /** What an eviction does to lookups, in any state: a hash none of whose owners is in flight matches no more;
      nothing else changes. */
  lemma EvictedMatch(m: Mirrored, h: Hash, flight: set<Rid>, q: Path)
    requires Rooted(m.tree)
    ensures var m' := Evicted(m, h, flight);
            Match(m'.tree.nodes.Keys, q) ==
            if q != [] && q[0] == h && Owners(m.tree.index, h) !! flight then 0 else Match(m.tree.nodes.Keys, q)
  {
    hide Evict, Rooted, Match;
    var t, t' := m.tree, Evicted(m, h, flight).tree;
    var n := if q != [] && q[0] == h && Owners(t.index, h) !! flight then 0 else Match(t.nodes.Keys, q);
    MatchIs(t.nodes.Keys, q);
    forall j | 0 < j <= |q|
      ensures q[..j] in Evict(t, h).nodes <==> q[..j] in t.nodes && q[0] != h
    {
      EvictedNode(t, h, q, j);
    }
    MatchUnique(t'.nodes.Keys, q, n);
  }

  /** Nor is anybody listed for it then, if it was there to match; the lists of other hashes stay. */
  lemma EvictedOwners(m: Mirrored, h: Hash, flight: set<Rid>, l: Hash)
    requires Rooted(m.tree)
    ensures var m' := Evicted(m, h, flight);
            Owners(m'.tree.index, l) ==
            if l == h && Match(m.tree.nodes.Keys, [h]) == 1 && Owners(m.tree.index, h) !! flight then {}
            else Owners(m.tree.index, l)
  {
    assert [h][..1] == [h];
    MatchIsThreshold(m.tree.nodes.Keys, [h], 1);
  }

  lemma MatchIs(paths: set<Path>, q: Path)
    ensures Match(paths, q) <= |q| && (Match(paths, q) > 0 ==> q[..Match(paths, q)] in paths)
    ensures forall j | Match(paths, q) < j <= |q| :: q[..j] !in paths
  {
  }

  /** In every run the match of a query is its longest agreement with a request that is mirrored and in flight. */
  lemma RunMatch(es: seq<Event>, q: Path)
    requires FreshRun(EMPTY, es)
    ensures var w := Run(EMPTY, es);
            var n := Match(w.mirror.tree.nodes.Keys, q);
            && (forall r | r in w.mirror.claims :: Lcp(w.mirror.claims[r], q) <= n)
            && (n == 0 || exists r :: r in w.mirror.claims && r in InFlight(w.sched) && Lcp(w.mirror.claims[r], q) == n)
  {
    hide Exact, Match, InFlight, Intact;
    RunExact(es);
    RunSafe(es);
    ExactMatch(Run(EMPTY, es).mirror.tree, Run(EMPTY, es).mirror.claims, q);
  }

  // ---------- The mirror in place ----------

  class IncrementalMirror {
    const tree: RadixTreeReqIdHash
    var byRequest: Claims

    ghost function Value(): Mirrored
      reads this, tree
    {
      Mirrored(tree.Value(), byRequest)
    }

    ghost predicate Valid()
      reads this, tree
    {
      tree.Valid()
    }

    constructor ()
      ensures Valid() && Value() == EMPTY.mirror && fresh(tree)
    {
      tree := new RadixTreeReqIdHash();
      byRequest := map[];
    }

    method InsertRequest(rid: Rid, hashes: Path)
      requires Valid()
      modifies this, tree
      ensures Valid() && Value() == Inserted(old(Value()), rid, hashes)
    {
      if hashes == [] {
        return;
      }
      RemoveRequest(rid);
      tree.InsertHashes(hashes, rid);
      byRequest := byRequest[rid := hashes];
    }

    method RemoveRequest(rid: Rid)
      requires Valid()
      modifies this, tree
      ensures Valid() && Value() == Removed(old(Value()), rid)
    {
      if rid in byRequest {
        var prev := byRequest[rid];
        byRequest := byRequest - {rid};
        tree.RemoveByHashes(prev, rid);
      }
    }

    method PrefixMatch(hashes: Path) returns (n: nat)
      requires Valid()
      ensures n == Match(Value().tree.nodes.Keys, hashes)
    {
      n := tree.Get(hashes);
    }

    /** Absorbs one engine report, the snapshot having absorbed it before. */
    method ApplySse(m: Snapshot.Report, sched: Snapshot.SchedSnapshot)
      requires Valid()
      modifies this, tree
      ensures Valid() && Value() == Absorbed(old(Value()), m, InFlight(sched.Value()))
    {
      ghost var flight := InFlight(sched.Value());
      ghost var m0 := Value();
      for i := 0 to |m.evicted|
        invariant Valid() && Value() == EvictedAll(m0, m.evicted[..i], flight)
      {
        assert m.evicted[..i + 1][..i] == m.evicted[..i];
        var busy := AnyInFlight(m.evicted[i], sched);
        if !busy {
          tree.EvictOrphanHash(m.evicted[i]);
        }
      }
      assert m.evicted[..|m.evicted|] == m.evicted;
      RemoveReported(m);
    }

    /** The finished, aborted and preempted requests of a report. */
    method RemoveReported(m: Snapshot.Report)
      requires Valid()
      modifies this, tree
      ensures Valid()
      ensures Value() == RemovedAll(RemovedAll(RemovedEnded(old(Value()), m.outputs), m.aborted), m.preempted)
    {
      ghost var m0 := Value();
      for i := 0 to |m.outputs|
        invariant Valid() && Value() == RemovedEnded(m0, m.outputs[..i])
      {
        assert m.outputs[..i + 1][..i] == m.outputs[..i];
        if m.outputs[i].finished {
          RemoveRequest(m.outputs[i].rid);
        }
      }
      assert m.outputs[..|m.outputs|] == m.outputs;
      RemoveEach(m.aborted);
      RemoveEach(m.preempted);
    }

    method RemoveEach(ids: seq<Rid>)
      requires Valid()
      modifies this, tree
      ensures Valid() && Value() == RemovedAll(old(Value()), ids)
    {
      for i := 0 to |ids|
        invariant Valid() && Value() == RemovedAll(old(Value()), ids[..i])
      {
        assert ids[..i + 1][..i] == ids[..i];
        RemoveRequest(ids[i]);
      }
      assert ids[..|ids|] == ids;
    }

    /** Whether an owner of the hash is in flight. */
    method AnyInFlight(h: Hash, sched: Snapshot.SchedSnapshot) returns (r: bool)
      ensures r <==> !(Owners(Value().tree.index, h) !! InFlight(sched.Value()))
    {
      var todo := if h in tree.hashOwners then tree.hashOwners[h] else {};
      while todo != {}
        invariant todo <= Owners(tree.hashOwners, h)
        invariant forall x | x in Owners(tree.hashOwners, h) && x !in todo :: x !in InFlight(sched.Value())
        decreases todo
      {
        var x :| x in todo;
        var busy := sched.IsInFlight(x);
        if busy {
          return true;
        }
        todo := todo - {x};
      }
      return false;
    }
  }
}
