/** A run in which a query for one request changes the answer for another.

    A long request is queried on an idle replica and admitted; its rollout stops at the slot cap, still
    prefilling. The engine then runs exactly the steps it predicts, and the last report says besides
    that the request was aborted. The baseline is spent; a query in between decides whether the next one
    is rebuilt from the snapshot, which is idle, or continues from the end of the baseline, which is not.
  */
module SpentRun {
  import opened Basics
  import opened Options
  import opened Sched
  import opened Slots
  import opened Rollout
  import opened Ahead
  import opened EphemeralRollout
  import opened Triggers

  const LONG := Req(1, 300, 0)
  const OTHER := Req(2, 1, 0)
  const NEXT := Req(3, 1, 0)

  ghost function OneToken(): Env {
    Env(1, 1, _ => 0.0)
  }

  function Running(i: nat, aborted: seq<Rid>): Snapshot.Report {
    Snapshot.Report(1, [Snapshot.Output(LONG.id, Snapshot.Prefill, false, i)], [], [], aborted, i + 1)
  }

  function Reports(): seq<Snapshot.Report> {
    seq(MAX_SLOTS - 1, i requires 0 <= i < MAX_SLOTS - 1 => Running(i, [])) + [Running(MAX_SLOTS - 1, [LONG.id])]
  }

  // ---------- Runs that end with engine reports ----------

  function StepsOf(ms: seq<Snapshot.Report>): (ts: seq<Trigger>)
    ensures |ts| == |ms|
  {
    if ms == [] then [] else StepsOf(ms[..|ms| - 1]) + [Step(ms[|ms| - 1])]
  }

  lemma {:induction false} RunSteps(ts: seq<Trigger>, ms: seq<Snapshot.Report>)
    requires LegalRun(ts)
    ensures LegalRun(ts + StepsOf(ms))
    ensures var x, y := Run(ts), Run(ts + StepsOf(ms));
            y.eph == SeenAll(x.eph, ms) && y.sched == Snapshot.SyncAll(x.sched, ms) && y.admitted == x.admitted
  {
    hide Seen, Snapshot.Synced, CtxOk;
    if ms == [] {
      assert ts + StepsOf(ms) == ts;
    } else {
      var before := ms[..|ms| - 1];
      RunSteps(ts, before);
      RunMore(ts + StepsOf(before), Step(ms[|ms| - 1]));
      assert ts + StepsOf(ms) == ts + StepsOf(before) + [Step(ms[|ms| - 1])];
    }
  }

  lemma RunMore(ts: seq<Trigger>, t: Trigger)
    requires LegalRun(ts) && Legal(Run(ts), t)
    ensures LegalRun(ts + [t]) && Run(ts + [t]) == Next(Run(ts), t)
  {
    assert (ts + [t])[..|ts|] == ts;
  }

  lemma {:induction false} SyncAllShrinks(s: Sched, ms: seq<Snapshot.Report>)
    requires Unique(s)
    ensures Unique(Snapshot.SyncAll(s, ms)) && InFlight(Snapshot.SyncAll(s, ms)) <= InFlight(s)
    ensures ms != [] ==> InFlight(Snapshot.SyncAll(s, ms)) <= InFlight(s) - Elems(ms[|ms| - 1].aborted)
  {
    hide Unique, InFlight, Snapshot.Synced, Snapshot.Ended;
    if ms != [] {
      SyncAllShrinks(s, ms[..|ms| - 1]);
      Snapshot.SyncShrinks(Snapshot.SyncAll(s, ms[..|ms| - 1]), ms[|ms| - 1]);
    }
  }

  // ---------- A rollout that the cap stops ----------

  /** k alone runs, and owes prefill. */
  ghost predicate Single(s: Sched, k: Rid) {
    Alone(s, k) && s.running.Keys == {k}
  }

  predicate OnlyPrefill(slot: RolloutSlot, k: Rid) {
    slot.prefill == [k] && slot.decode == []
  }

  lemma StepSingle(s: Sched, k: Rid, buf: Buffer)
    requires Single(s, k) && buf.begin.Some? && buf.decode.None? && s.running[k].Owed() > 1
    ensures var (s', buf', o) := SimulateOneSlot(s, k, buf, OneToken());
            && Single(s', k) && s'.running[k].Owed() == s.running[k].Owed() - 1
            && buf'.begin == buf.begin && buf'.decode.None? && buf'.slots == buf.slots
            && o.Some? && OnlyPrefill(o.value, k)
  {
    StepAlone(s, k, buf, OneToken());
    assert |s.running| == |s.running.Keys| == 1;
    assert Decoders(s) == {};
  }

  lemma {:induction false} RollCapped(s: Sched, k: Rid, buf: Buffer)
    requires Single(s, k) && buf.begin.Some? && buf.decode.None? && |buf.slots| <= MAX_SLOTS
    requires s.running[k].Owed() > MAX_SLOTS - |buf.slots|
    requires forall j | 0 <= j < |buf.slots| :: OnlyPrefill(buf.slots[j], k)
    ensures var (r, tail) := Roll(s, k, buf, OneToken());
            && |r.slots| == MAX_SLOTS && Single(tail, k)
            && (forall j | 0 <= j < MAX_SLOTS :: OnlyPrefill(r.slots[j], k))
    decreases MAX_SLOTS - |buf.slots|
  {
    hide SimulateOneSlot, OnlyPrefill, Alone;
    if |buf.slots| < MAX_SLOTS {
      StepSingle(s, k, buf);
      var s', pushed := RollUnfold(s, k, buf, OneToken());
      RollCapped(s', k, pushed);
    }
  }

  lemma LongForward()
    ensures var b := Sched([], map[]);
            && Decoders(b.Admit(LONG)) == {}
            && Forward(b.Admit(LONG), 1) == Pass([], map[LONG.id := LONG.Advance(1)], 0, [Chunk(LONG.id, 1, 0)])
  {
    hide Pull, Continue;
    var b := Sched([], map[]);
    ForwardIdle(b, 1);
    ForwardCandidate(b, LONG, 1);
    assert Decoders(b) == {} && Decoders(b.Admit(LONG)) == {};
    assert |SortedIds({})| == 0;
    assert Start(b, 1) == Pass([], map[], 1, []);
    assert Forward(b.Admit(LONG), 1) == Give(Start(b, 1), LONG, 1);
  }

  /** The first step of the long request on an idle replica. */
  lemma LongStarts()
    ensures var buf := Buffer(Some(LONG.id), [], None, None, None);
            var (s', buf', o) := SimulateOneSlot(Sched([], map[]).Admit(LONG), LONG.id, buf, OneToken());
            && Single(s', LONG.id) && s'.running[LONG.id] == LONG.Advance(1)
            && buf'.begin == Some(0) && buf'.decode.None? && buf'.slots == []
            && o.Some? && OnlyPrefill(o.value, LONG.id)
  {
    hide Forward;
    LongForward();
    assert ChunkIds([Chunk(LONG.id, 1, 0)]) == [LONG.id];
    assert |SortedIds({})| == 0;
  }

  lemma LongRolls()
    ensures var e := FromScratch(Sched([], map[]), LONG, 0, OneToken());
            && |e.buffer.slots| == MAX_SLOTS && Single(e.tail, LONG.id)
            && (forall j | 0 <= j < MAX_SLOTS :: OnlyPrefill(e.buffer.slots[j], LONG.id))
  {
    hide SimulateOneSlot, OnlyPrefill, Alone;
    LongStarts();
    var s', pushed := RollUnfold(Sched([], map[]).Admit(LONG), LONG.id, Buffer(Some(LONG.id), [], None, None, None),
                                 OneToken());
    RollCapped(s', LONG.id, pushed);
  }

  // ---------- The run ----------

  ghost function Dispatch(): seq<Trigger> {
    [Query(LONG, OneToken()), Admission(LONG.id, LONG.input)]
  }

  lemma Dispatched()
    ensures LegalRun(Dispatch())
    ensures var x := Run(Dispatch());
            && x.eph == Admitted(Some(FromScratch(Sched([], map[]), LONG, 0, OneToken())), LONG.id)
            && x.sched == Sched([LONG], map[]) && x.admitted == {LONG.id}
  {
    hide Roll;
    assert LegalRun([]) && Run([]) == Triggers.IDLE;
    RunMore([], Query(LONG, OneToken()));
    assert [] + [Query(LONG, OneToken())] == [Query(LONG, OneToken())];
    RunMore([Query(LONG, OneToken())], Admission(LONG.id, LONG.input));
    assert [Query(LONG, OneToken())] + [Admission(LONG.id, LONG.input)] == Dispatch();
  }

  lemma ReportsMatch(slots: seq<RolloutSlot>)
    requires |slots| == MAX_SLOTS && forall j | 0 <= j < MAX_SLOTS :: OnlyPrefill(slots[j], LONG.id)
    ensures forall i | 0 <= i < MAX_SLOTS :: RanAs(slots[i], Reports()[i])
  {
    forall i | 0 <= i < MAX_SLOTS
      ensures RanAs(slots[i], Reports()[i])
    {
      var m := Reports()[i];
      assert m.outputs == [Snapshot.Output(LONG.id, Snapshot.Prefill, false, i)];
      assert OnlyPrefill(slots[i], LONG.id);
      assert RowSays(m, LONG.id, Snapshot.Prefill) by { assert m.outputs[0].rid == LONG.id; }
    }
  }

  /** The baseline of the run is popped down to nothing, and ends in a state that is still busy. */
  lemma BaselineSpent()
    ensures LegalRun(Dispatch())
    ensures var e := Run(Dispatch()).eph;
            && e.Some? && e.value.cand.None? && |e.value.buffer.slots| == MAX_SLOTS
            && Spent(SeenAll(e, Reports())) && Single(SeenAll(e, Reports()).value.tail, LONG.id)
  {
    hide Roll, OnlyPrefill, Seen, Single, RanAs, Reports;
    Dispatched();
    LongRolls();
    var e := Run(Dispatch()).eph.value;
    ReportsMatch(e.buffer.slots);
    ReportsLength();
    SeenRun(e, Reports());
  }

  lemma ReportsLength()
    ensures |Reports()| == MAX_SLOTS && Reports()[MAX_SLOTS - 1].aborted == [LONG.id]
  {
  }

  /** The aborted request was the last one in flight. */
  lemma IdleAgain(s: Sched)
    requires Unique(s) && InFlight(s) <= {LONG.id}
    ensures Snapshot.SyncAll(s, Reports()) == Sched([], map[])
  {
    hide Reports, Snapshot.Synced;
    ReportsLength();
    SyncAllShrinks(s, Reports());
    assert LONG.id in Elems([LONG.id]);
    var t := Snapshot.SyncAll(s, Reports());
    assert InFlight(t) == {};
    EmptyQueue(t.waiting);
    assert t.running.Keys == {};
  }

  lemma EmptyQueue(q: seq<Req>)
    ensures QueueIds(q) == {} ==> q == []
  {
  }

  lemma BusyEnd(tail: Sched)
    requires Single(tail, LONG.id)
    ensures Forward(tail, 1).budget <= 0 && Forward(Sched([], map[]), 1).budget > 0
  {
    ForwardAlone(tail, LONG.id, 1);
    ForwardIdle(Sched([], map[]), 1);
    assert |tail.running| == |tail.running.Keys| == 1;
    assert Decoders(Sched([], map[])) == {};
  }

  lemma WithQuery()
    ensures LegalRun(Dispatch())
    ensures LegalRun(Dispatch() + [Query(OTHER, OneToken())])
    ensures var x, y := Run(Dispatch()), Run(Dispatch() + [Query(OTHER, OneToken())]);
            y == x.(eph := Some(Queried(x.eph, x.sched, OTHER, x.lastStep, OneToken())))
  {
    hide Queried, FromScratch;
    Dispatched();
    RunMore(Dispatch(), Query(OTHER, OneToken()));
  }

  /** Both runs are legal and differ only in a query for OTHER; after them NEXT is answered differently. */
  lemma SpentExample()
    ensures LegalRun(Dispatch() + StepsOf(Reports()))
    ensures LegalRun(Dispatch() + [Query(OTHER, OneToken())] + StepsOf(Reports()))
    ensures var x := Run(Dispatch() + StepsOf(Reports()));
            var y := Run(Dispatch() + [Query(OTHER, OneToken())] + StepsOf(Reports()));
            && Spent(x.eph) && x.sched == y.sched && NEXT.id !in x.admitted + y.admitted
            && Queried(x.eph, x.sched, NEXT, 0, OneToken()) != Queried(y.eph, y.sched, NEXT, 0, OneToken())
  {
    hide Queried, FromScratch, Roll, Reports, SeenAll, Snapshot.SyncAll, Recovers, Run, LegalRun, Single, Forward,
         Unique, InFlight;
    BaselineSpent();
    Dispatched();
    WithQuery();
    var x0 := Run(Dispatch());
    RunSteps(Dispatch(), Reports());
    RunSteps(Dispatch() + [Query(OTHER, OneToken())], Reports());
    RecoversFirst(x0.eph.value, x0.sched, OTHER, x0.lastStep, OneToken(), Reports());
    LongWaits();
    IdleAgain(x0.sched);
    var e1, e2 := SeenAll(Some(Queried(x0.eph, x0.sched, OTHER, x0.lastStep, OneToken())), Reports()),
      SeenAll(x0.eph, Reports());
    BusyEnd(e2.value.tail);
    NextIsNew(e2.value.tail);
    assert !SameAhead(Sched([], map[]), e2.value.tail, 1, 0);
    SpentBaseline(e1, e2, Sched([], map[]), NEXT, 0, OneToken());
  }

  lemma LongWaits()
    ensures Unique(Sched([LONG], map[])) && InFlight(Sched([LONG], map[])) <= {LONG.id}
  {
    var s := Sched([], map[]);
    assert s.Admit(LONG) == Sched([LONG], map[]);
    UniqueAdmit(s, LONG);
    FlightAdmit(s, LONG);
    assert InFlight(s) == {};
  }

  lemma NextIsNew(tail: Sched)
    requires Single(tail, LONG.id)
    ensures Unique(tail.Admit(NEXT)) && Unique(Sched([], map[]).Admit(NEXT))
  {
    assert QueueIds(tail.waiting) == {} && InFlight(Sched([], map[])) == {};
    UniqueAdmit(tail, NEXT);
    UniqueAdmit(Sched([], map[]), NEXT);
  }

  /** A query on a baseline, and reports that spend the baseline, leave nothing to recover. */
  lemma RecoversFirst(e: Ephemeral, sched: Sched, c: Req, anchor: nat, env: Env, ms: seq<Snapshot.Report>)
    requires EphOk(Some(e)) && e.cand.None? && e.buffer.slots != [] && env.Ok() && Spent(SeenAll(Some(e), ms))
    ensures var e1 := SeenAll(Some(Queried(Some(e), sched, c, anchor, env)), ms);
            EphOk(e1) && EphOk(SeenAll(Some(e), ms)) && Baseline(e1).None?
  {
    hide Roll, SeenAll, Seen;
    RollExtends(e.tail.Admit(c), c.id, Unmarked(e.buffer, Some(c.id)), env);
    RecoversRun(Some(Queried(Some(e), sched, c, anchor, env)), Some(e), ms);
  }
}
