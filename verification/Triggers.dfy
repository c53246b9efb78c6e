/** Runs of a replica's predictor context: queries, admissions and engine reports in any order, where no
    request id is admitted twice and nobody is queried after being admitted.
  */
module Triggers {
  import opened Basics
  import opened Options
  import opened Sched
  import opened Rollout
  import opened EphemeralRollout
  import Syncing

  /** The part of the context that queries depend on; `admitted` records every id ever admitted. */
  datatype Ctx = Ctx(sched: Sched, eph: Option<Ephemeral>, lastStep: nat, admitted: set<Rid>)

  /** The environment of a query is the model as calibrated by then. */
  datatype Trigger = Query(c: Req, env: Env) | Admission(rid: Rid, input: nat) | Step(report: Snapshot.Report)

  ghost predicate Legal(x: Ctx, t: Trigger) {
    match t
    case Query(c, env) => env.Ok() && c.id !in x.admitted
    case Admission(rid, _) => rid !in x.admitted
    case Step(_) => true
  }

  ghost function Next(x: Ctx, t: Trigger): Ctx
    requires EphOk(x.eph) && Legal(x, t)
  {
    match t
    case Query(c, env) => x.(eph := Some(Queried(x.eph, x.sched, c, x.lastStep, env)))
    case Admission(rid, input) =>
      Ctx(x.sched.Admit(Req(rid, input, 0)), Admitted(x.eph, rid), x.lastStep, x.admitted + {rid})
    case Step(m) => Ctx(Snapshot.Synced(x.sched, m), Seen(x.eph, m), m.stepId, x.admitted)
  }

  // ---------- Invariant ----------

  /** A state whose requests occur once each, and are all among `ids`. */
  ghost predicate Within(s: Sched, ids: set<Rid>) {
    Unique(s) && InFlight(s) <= ids
  }

  /** The snapshot and the state a query would join only hold admitted requests; the end of a rollout
      may hold the candidate besides. */
  ghost predicate CtxOk(x: Ctx) {
    && EphOk(x.eph) && Within(x.sched, x.admitted)
    && (x.eph.Some? ==>
          && Within(x.eph.value.tail, x.admitted + CandidateIds(x.eph.value))
          && (x.eph.value.savepoint.Some? ==> Within(x.eph.value.savepoint.value.1, x.admitted)))
  }

  function CandidateIds(e: Ephemeral): set<Rid> {
    if e.cand.Some? then {e.cand.value} else {}
  }

  lemma JoinsWithin(x: Ctx)
    requires CtxOk(x)
    ensures Within(Joins(x.eph, x.sched).1, x.admitted)
  {
    hide Within;
    if x.eph.Some? && x.eph.value.cand.None? {
      assert x.admitted + {} == x.admitted;
    }
  }

  lemma RollWithin(b: Sched, c: Req, buf: Buffer, env: Env, ids: set<Rid>)
    requires env.Ok() && Within(b, ids) && c.id !in ids
    ensures Unique(b.Admit(c))
    ensures Within(Roll(b.Admit(c), c.id, buf, env).1, ids + {c.id})
  {
    hide Unique, InFlight, Roll;
    UniqueAdmit(b, c);
    FlightAdmit(b, c);
    RollKeepsIds(b.Admit(c), c.id, buf, env);
  }

  lemma QueryKeeps(x: Ctx, c: Req, env: Env)
    requires CtxOk(x) && env.Ok() && c.id !in x.admitted
    ensures CtxOk(Next(x, Query(c, env)))
  {
    hide Within, Roll;
    EphOkKept(x.eph, x.sched, c, x.lastStep, env, 0, Snapshot.Report(0, [], [], [], [], 0));
    JoinsWithin(x);
    var (base, tail) := Joins(x.eph, x.sched);
    RollWithin(tail, c, Unmarked(base, Some(c.id)), env, x.admitted);
    RollWithin(tail, c, Buffer(Some(c.id), [], None, None, None), env, x.admitted);
  }

  lemma AdmissionKeeps(x: Ctx, rid: Rid, input: nat)
    requires CtxOk(x) && rid !in x.admitted
    ensures CtxOk(Next(x, Admission(rid, input)))
  {
    hide Unique, InFlight;
    UniqueAdmit(x.sched, Req(rid, input, 0));
    FlightAdmit(x.sched, Req(rid, input, 0));
    assert x.admitted + {rid} + {} == x.admitted + {rid};
  }

  lemma StepKeeps(x: Ctx, m: Snapshot.Report)
    requires CtxOk(x)
    ensures CtxOk(Next(x, Step(m)))
  {
    hide Unique, InFlight, HasPrefill, Matches, Snapshot.Synced;
    EphOkSeen(x.eph, m);
    Snapshot.SyncShrinks(x.sched, m);
  }

  lemma NextKeeps(x: Ctx, t: Trigger)
    requires CtxOk(x) && Legal(x, t)
    ensures CtxOk(Next(x, t))
  {
    hide CtxOk, Next;
    match t
    case Query(c, env) => QueryKeeps(x, c, env);
    case Admission(rid, input) => AdmissionKeeps(x, rid, input);
    case Step(m) => StepKeeps(x, m);
  }

  // ---------- Runs ----------

  const IDLE := Ctx(Sched([], map[]), None, 0, {})

  lemma IdleOk()
    ensures CtxOk(IDLE)
  {
  }

  /** Every trigger of a run that starts from the idle context is legal where it comes. */
  ghost predicate LegalRun(ts: seq<Trigger>)
    decreases |ts|, 0
  {
    ts != [] ==> LegalRun(ts[..|ts| - 1]) && Legal(Run(ts[..|ts| - 1]), ts[|ts| - 1])
  }

  ghost function Run(ts: seq<Trigger>): (x: Ctx)
    requires LegalRun(ts)
    ensures CtxOk(x)
    decreases |ts|, 1
  {
    if ts == [] then IdleOk(); IDLE
    else
      var x, t := Run(ts[..|ts| - 1]), ts[|ts| - 1];
      NextKeeps(x, t); Next(x, t)
  }

  /** The step the engine reported last. */
  function LastReported(ts: seq<Trigger>): nat {
    if ts == [] then 0
    else match ts[|ts| - 1]
      case Step(m) => m.stepId
      case _ => LastReported(ts[..|ts| - 1])
  }

  /** In every reachable context a cached rollout starts right after the step reported last. */
  lemma {:induction false} ReachableAnchor(ts: seq<Trigger>)
    requires LegalRun(ts)
    ensures var x := Run(ts);
            x.lastStep == LastReported(ts) && (x.eph.Some? ==> x.eph.value.anchor == LastReported(ts))
  {
    hide CtxOk, Roll, HasPrefill, Matches, Snapshot.Synced;
    if ts != [] {
      ReachableAnchor(ts[..|ts| - 1]);
    }
  }

  /** The trigger is no report with a row for request k, and none that aborts it. */
  ghost predicate Silent(t: Trigger, k: Rid) {
    t.Step? ==>
      && Syncing.OneRow(t.report) && k !in t.report.aborted
      && forall i | 0 <= i < |t.report.outputs| :: t.report.outputs[i].rid != k
  }

  lemma SilentStep(s: Sched, m: Snapshot.Report, k: Rid)
    requires Unique(s) && Silent(Step(m), k) && Syncing.WhereIs(s, k).Queued?
    ensures Syncing.WhereIs(Snapshot.Synced(s, m), k) == Syncing.WhereIs(s, k)
  {
    hide Unique, Syncing.WhereIs, Snapshot.Synced, Syncing.Split;
    var w := Syncing.SyncTurns(s, m, k);
  }

  lemma AdmitWhere(s: Sched, r: Req, k: Rid)
    requires Unique(s.Admit(r))
    ensures Syncing.WhereIs(s.Admit(r), k) == if k == r.id then Syncing.Queued(r) else Syncing.WhereIs(s, k)
  {
    UniqueAdmit(s, r);
    QueueConcat(s.waiting, [r]);
    if k in QueueIds(s.waiting + [r]) && k !in s.running {
      AppendPosition(s.waiting, r, k);
    }
    Snapshot.UniqueSets(s.Admit(r));
  }

  lemma {:induction false} AppendPosition(q: seq<Req>, r: Req, k: Rid)
    requires k in QueueIds(q + [r])
    ensures (q + [r])[Snapshot.Position(q + [r], k)] == if k in QueueIds(q) then q[Snapshot.Position(q, k)] else r
  {
    if q == [] {
      assert q + [r] == [r];
    } else {
      assert (q + [r])[1..] == q[1..] + [r];
      if q[0].id != k {
        AppendPosition(q[1..], r, k);
      }
    }
  }

  /** In every reachable context a request that no report has mentioned since its admission waits, and its whole prompt
      is still to be computed. */
  lemma {:induction false} AdmittedWaits(ts: seq<Trigger>, i: nat, k: Rid, input: nat)
    requires LegalRun(ts) && i < |ts| && ts[i] == Admission(k, input)
    requires forall j | i < j < |ts| :: Silent(ts[j], k)
    ensures k in Run(ts).admitted && Syncing.WhereIs(Run(ts).sched, k) == Syncing.Queued(Req(k, input, 0))
    decreases |ts|
  {
    hide EphOk, Unique, InFlight, Snapshot.Synced, Syncing.WhereIs, Silent, Queried, Seen, Admitted;
    var n := |ts| - 1;
    var x := Run(ts[..n]);
    SchedUnique(x);
    SchedUnique(Run(ts));
    if i < n {
      AdmittedWaits(ts[..n], i, k, input);
      match ts[n] {
        case Query(_, _) =>
        case Admission(rid, len) => AdmitWhere(x.sched, Req(rid, len, 0), k);
        case Step(m) => SilentStep(x.sched, m, k);
      }
    } else {
      AdmitWhere(x.sched, Req(k, input, 0), k);
    }
  }

  lemma SchedUnique(x: Ctx)
    requires CtxOk(x)
    ensures Unique(x.sched)
  {
  }

  /** In every reachable context: of two queries for a new request that differ in its cache hits only,
      the one with more hits starts it in the same step and lets its prefill span no more steps. */
  lemma ReachableMoreHits(ts: seq<Trigger>, c1: Req, c2: Req, env: Env)
    requires LegalRun(ts) && env.Ok() && c1.id !in Run(ts).admitted
    requires c1.id == c2.id && c1.input == c2.input && c1.processed <= c2.processed < c2.input
    ensures var x := Run(ts);
            var b1, b2 := Queried(x.eph, x.sched, c1, x.lastStep, env).buffer,
              Queried(x.eph, x.sched, c2, x.lastStep, env).buffer;
            var g1, g2 := GistOf(b1), GistOf(b2);
            && NoLater(b1, b2)
            && (g1.chunkedPrefillSteps.Some? && g2.chunkedPrefillSteps.Some? ==>
                  g2.chunkedPrefillSteps.value <= g1.chunkedPrefillSteps.value)
  {
    hide Within, Unique, Queried, Joins, NoLater, GistOf, Run, LegalRun;
    var x := Run(ts);
    JoinsUnique(x, c1, env);
    JoinsUnique(x, c2, env);
    QueryMoreHits(x.eph, x.sched, c1, c2, x.lastStep, env);
  }

  lemma JoinsUnique(x: Ctx, c: Req, env: Env)
    requires CtxOk(x) && env.Ok() && c.id !in x.admitted
    ensures Unique(Joins(x.eph, x.sched).1.Admit(c))
  {
    hide Within, Joins, Unique;
    JoinsWithin(x);
    RollWithin(Joins(x.eph, x.sched).1, c, Unmarked(Joins(x.eph, x.sched).0, Some(c.id)), env, x.admitted);
  }

  /** In every reachable context: a query for a new request that owes prefill, with n requests ahead and
      more than n tokens a step, runs first come first served and within the bound. */
  lemma ReachableFcfs(ts: seq<Trigger>, c: Req, env: Env)
    requires LegalRun(ts) && env.Ok() && c.id !in Run(ts).admitted && c.Prefilling()
    requires var x := Run(ts);
             && env.tokens > Count(Joins(x.eph, x.sched).1)
             && |Joins(x.eph, x.sched).0.slots| + Bound(Joins(x.eph, x.sched).1, c, env) + 1 <= MAX_SLOTS
    ensures var x := Run(ts);
            var base, r := Unmarked(Joins(x.eph, x.sched).0, Some(c.id)),
              Queried(x.eph, x.sched, c, x.lastStep, env).buffer;
            && r.begin.Some? && r.end.Some? && Ran(r, base, r.begin.value, r.end.value, c.id)
            && |r.slots| <= |base.slots| + Bound(Joins(x.eph, x.sched).1, c, env) + 1
            && OthersDone(After(Joins(x.eph, x.sched).1.Admit(c), env.tokens, r.begin.value - |base.slots| + 1), c.id)
            && AllDone(Queried(x.eph, x.sched, c, x.lastStep, env).tail)
  {
    hide Within, Unique, Queried, Joins, Ran, GistOf, Run, LegalRun, After, AllDone, OthersDone, Bound;
    var x := Run(ts);
    JoinsUnique(x, c, env);
    QueryFcfs(x.eph, x.sched, c, x.lastStep, env);
  }
}
