/** Turns of the completion loop in a row: who leaves a replica, told from the reports alone. */
module Turns {
  import opened Basics
  import opened Options
  import opened Except
  import opened Completion

  // ---------- The state of one id ----------

  /** What the exception context notes of id k. */
  function StateAt(x: Ext, k: Rid): Option<State> {
    if k in Ids(x.states) then Some(At(x.states, k)) else None
  }

  lemma NewState(x: Ext, e: Event, k: Rid)
    requires Ok(x) && (e.Abort? || e.Fault?) && !Tracks(x, e.rid) && e.entry.rid == e.rid
    ensures StateAt(Put(x, e).0, k) ==
            if k != e.rid then StateAt(x, k) else Some(if e.Abort? then WaitingTerm(false) else Faulted(true))
  {
    PutKeeps(x, e);
    if k in Ids(x.states) || k == e.rid {
      AppendAt(x.states, e.rid, if e.Abort? then WaitingTerm(false) else Faulted(true), k);
    }
  }

  lemma ExitState(x: Ext, j: Rid, k: Rid)
    requires Ok(x) && Tracks(x, j) && j != k
    ensures StateAt(Put(x, Exit(j)).0, k) == StateAt(x, k)
  {
    PutKeeps(x, Exit(j));
    if k in Ids(x.states) {
      AloneKeeps(x, Exit(j), k);
    }
  }

  lemma TermState(x: Ext, j: Rid, k: Rid)
    requires Ok(x) && Tracks(x, j)
    ensures StateAt(Put(x, Term(j)).0, k) == if j == k then None else StateAt(x, k)
  {
    PutKeeps(x, Term(j));
    if k in Ids(x.states) && j != k {
      AloneKeeps(x, Term(j), k);
    }
  }

  lemma CleanState(x: Ext, k: Rid)
    requires Ok(x)
    ensures StateAt(Cleaned(x), k) ==
            match StateAt(x, k)
            case None => None
            case Some(st) => if DropReady(st) then None else Some(Clear(st))
  {
    CleanKeeps(x);
    if k in Ids(x.states) {
      AtHolding(x.states, k);
      if k !in Ready(x.states) {
        KeptAt(x.states, k);
      }
    }
  }

  /** An id with a trace but no entry has exited; one with an entry is due for the cleanup if it is a fault
      that no live signal has refreshed. */
  lemma StateTells(x: Ext, k: Rid)
    requires Ok(x)
    ensures k in x.entries <==> StateAt(x, k).Some? && !StateAt(x, k).value.Exited?
    ensures k in Ready(x.states) <==> StateAt(x, k) == Some(Faulted(false))
    ensures Tracks(x, k) <==> StateAt(x, k).Some?
  {
    Subsets(x.states);
    if k in Ids(x.states) {
      AtHolding(x.states, k);
    }
  }

  // ---------- The passes of a turn ----------

  lemma {:induction false} TallyState(l: Loop, rows: seq<Row>, k: Rid)
    requires LoopOk(l) && k !in Finished(rows) && forall f | f in Finished(rows) :: Tracked(l, f)
    ensures StateAt(Tally(l, rows).0, k) == StateAt(l.ext, k)
  {
    if rows != [] {
      var rest, row := rows[..|rows| - 1], rows[|rows| - 1];
      TallyState(l, rest, k);
      TallyCounts(l, rest);
      if row.finished && row.rid !in l.entries {
        hide Ok, Tracks, Put, StateAt;
        assert row.rid in Finished(rows);
        assert Tracked(l, row.rid);
        ExitState(Tally(l, rest).0, row.rid, k);
      }
    }
  }

  lemma WithdrawState(l: Loop, j: Rid, fault: bool, k: Rid)
    requires LoopOk(l) && j in l.entries
    ensures StateAt(Withdraw(l, j, fault).ext, k) ==
            if k != j then StateAt(l.ext, k) else Some(if fault then Faulted(true) else WaitingTerm(false))
  {
    assert IdOk(l, j);
    hide StateAt, Put;
    NewState(l.ext, if fault then Fault(j, l.entries[j]) else Abort(j, l.entries[j]), k);
  }

  lemma {:induction false} AbortAllState(l: Loop, cancel: seq<Rid>, k: Rid)
    requires LoopOk(l) && Distinct(cancel) && forall j | j in Elems(cancel) :: j in l.entries
    ensures StateAt(AbortAll(l, cancel).ext, k) ==
            if k in Elems(cancel) then Some(WaitingTerm(false)) else StateAt(l.ext, k)
    decreases |cancel|
  {
    hide LoopOk, Withdraw, StateAt;
    if cancel != [] {
      var j, rest := cancel[|cancel| - 1], cancel[..|cancel| - 1];
      var m := Withdraw(l, j, false);
      WithdrawKeeps(l, j, false);
      WithdrawState(l, j, false, k);
      forall i | i in Elems(rest)
        ensures i in m.entries
      {
        assert MovedId(l, m, {j}, i);
      }
      AbortAllState(m, rest, k);
    }
  }

  lemma {:induction false} FaultAllState(l: Loop, faults: seq<Rid>, skip: seq<Rid>, k: Rid)
    requires LoopOk(l) && Distinct(faults) && forall j | j in Unskipped(faults, skip) :: j in l.entries
    ensures StateAt(FaultAll(l, faults, skip).ext, k) ==
            if k in Unskipped(faults, skip) then Some(Faulted(true)) else StateAt(l.ext, k)
    decreases |faults|
  {
    hide LoopOk, Withdraw, StateAt;
    if faults != [] {
      var j, rest := faults[|faults| - 1], faults[..|faults| - 1];
      FaultAllState(l, rest, skip, k);
      FaultAllKeeps(l, rest, skip);
      if j !in skip {
        var m := FaultAll(l, rest, skip);
        assert MovedId(l, m, Unskipped(rest, skip), j);
        UnskippedAre(rest, skip, j);
        WithdrawState(m, j, true, k);
      }
    }
  }

  lemma {:induction false} TermAllState(l: Loop, terms: seq<Rid>, k: Rid)
    requires LoopOk(l) && Distinct(terms) && forall j | j in Elems(terms) :: Tracks(l.ext, j)
    ensures StateAt(TermAll(l, terms).0.ext, k) == if k in Elems(terms) then None else StateAt(l.ext, k)
    decreases |terms|
  {
    hide LoopOk, Put, StateAt, Tracks;
    if terms != [] {
      var rest, j := terms[..|terms| - 1], terms[|terms| - 1];
      TermAllState(l, rest, k);
      TermAllCounts(l, rest);
      TermStep(TermAll(l, rest).0, j, k);
    }
  }

  lemma TermStep(l: Loop, j: Rid, k: Rid)
    requires LoopOk(l) && Tracks(l.ext, j)
    ensures Handled(l.ext, Term(j)) && StateAt(Put(l.ext, Term(j)).0, k) == if j == k then None else StateAt(l.ext, k)
  {
    TermState(l.ext, j, k);
  }

  // ---------- One turn ----------

  /** Between turns no fault is marked as live: the cleanup has cleared every mark. */
  ghost predicate Calm(l: Loop) {
    forall k :: StateAt(l.ext, k) != Some(Faulted(true))
  }

  /** A row of the report says that request k is finished. */
  ghost predicate FinishedIn(r: Report, k: Rid) {
    exists i :: 0 <= i < |r.rows| && r.rows[i].rid == k && r.rows[i].finished
  }

  /** A row of the report finds the client of request k gone, and does not finish it. */
  ghost predicate HungUpIn(r: Report, k: Rid) {
    exists i :: 0 <= i < |r.rows| && r.rows[i].rid == k && r.rows[i].hungUp && !r.rows[i].finished
  }

  lemma {:induction false} FinishedAre(rows: seq<Row>, k: Rid)
    ensures k in Finished(rows) <==> exists i :: 0 <= i < |rows| && rows[i].rid == k && rows[i].finished
  {
    if rows != [] {
      var rest := rows[..|rows| - 1];
      FinishedAre(rest, k);
      assert forall i | 0 <= i < |rest| :: rest[i] == rows[i];
    }
  }

  lemma {:induction false} HungUpAre(rows: seq<Row>, k: Rid)
    ensures k in HungUp(rows) <==>
            exists i :: 0 <= i < |rows| && rows[i].rid == k && rows[i].hungUp && !rows[i].finished
  {
    if rows != [] {
      var rest := rows[..|rows| - 1];
      HungUpAre(rest, k);
      assert forall i | 0 <= i < |rest| :: rest[i] == rows[i];
    }
  }

  /** Fast and slow path leave the state of an unfinished request alone; a finished one has none that is
      still to be handed out. */
  lemma MidState(l: Loop, r: Report, k: Rid)
    requires LoopOk(l) && Expected(l, r)
    ensures var (x, n) := Tally(l, r.rows);
            var m := Deliver(l.(ext := x), r.rows).0;
            && m.ext == x && (k !in Finished(r.rows) ==> StateAt(x, k) == StateAt(l.ext, k))
  {
    hide LoopOk, Tracks, Tally, Deliver, Distinct, OneRowEach, Finished, HungUp, Ok, StateAt;
    TallyCounts(l, r.rows);
    var x := Tally(l, r.rows).0;
    TalliedOk(l, x);
    DeliverCounts(l.(ext := x), r.rows);
    if k !in Finished(r.rows) {
      TallyState(l, r.rows, k);
    }
  }

  /** Abortions and faults. */
  lemma ExceptedState(m: Loop, p: Pending, k: Rid)
    requires MidOk(m, p)
    ensures var b := BeforeTerms(m, p);
            && LoopOk(b) && HeldIds(b) == HeldIds(m)
            && Distinct(p.report.terms) && (forall j | j in Elems(p.report.terms) :: Tracks(b.ext, j))
            && StateAt(b.ext, k) ==
               if k in Elems(p.cancel) then Some(WaitingTerm(false))
               else if k in Elems(p.report.faults) then Some(Faulted(true))
               else StateAt(m.ext, k)
  {
    hide LoopOk, Tracks, AbortAll, FaultAll, Distinct, OneRowEach, Moved, Expected, Delivered, HeldIds, Held,
         Elems, StateAt;
    var l, r := p.taken, p.report;
    AbortsHeld(l, m, p.cancel, r);
    AbortAllKeeps(m, p.cancel);
    AbortAllState(m, p.cancel, k);
    var l1 := AbortAll(m, p.cancel);
    FaultsHeld(l, m, l1, r, p.cancel);
    FaultAllKeeps(l1, r.faults, p.cancel);
    FaultAllState(l1, r.faults, p.cancel, k);
    var b := FaultAll(l1, r.faults, p.cancel);
    HeldMoved(m, l1, Elems(p.cancel));
    HeldMoved(l1, b, Unskipped(r.faults, p.cancel));
    TermsTracked(l, m, l1, b, r, p.cancel);
    UnskippedAre(r.faults, p.cancel, k);
    ElemsAre(p.cancel, k);
  }

  /** Terminations and the cleanup. */
  lemma EndState(b: Loop, terms: seq<Rid>, k: Rid)
    requires LoopOk(b) && Distinct(terms) && forall j | j in Elems(terms) :: Tracks(b.ext, j)
    ensures var c := TermAll(b, terms).0;
            && (k in b.ext.entries && k in Elems(terms) <==> k in HeldIds(b) && k in Elems(terms))
            && (k in Ready(c.ext.states) <==> k !in Elems(terms) && StateAt(b.ext, k) == Some(Faulted(false)))
            && (StateAt(b.ext, k) == Some(Faulted(false)) ==> k in HeldIds(b))
            && StateAt(CleanUp(c).0.ext, k) ==
               if k in Elems(terms) then None
               else match StateAt(b.ext, k)
                    case None => None
                    case Some(st) => if DropReady(st) then None else Some(Clear(st))
  {
    hide StateAt, Tracks, TermAll, Distinct, Elems;
    TermAllCounts(b, terms);
    TermAllState(b, terms, k);
    var c := TermAll(b, terms).0;
    StateTells(c.ext, k);
    StateTells(b.ext, k);
    CleanState(c.ext, k);
    assert IdOk(b, k);
  }

  /** The second decrement, and the state of an id after the turn. */
  lemma ClosedState(m: Loop, p: Pending, k: Rid)
    requires MidOk(m, p)
    ensures k in OutLast(m, p) <==>
            k in HeldIds(m) && (k in Elems(p.report.terms)
                                || (k !in Elems(p.cancel) && k !in Elems(p.report.faults)
                                    && StateAt(m.ext, k) == Some(Faulted(false))))
    ensures StateAt(Closed(m, p).0.ext, k) ==
            if k in Elems(p.report.terms) then None
            else if k in Elems(p.cancel) then Some(WaitingTerm(false))
            else if k in Elems(p.report.faults) then Some(Faulted(false))
            else match StateAt(m.ext, k)
                 case None => None
                 case Some(st) => if DropReady(st) then None else Some(Clear(st))
  {
    hide StateAt, Tracks, TermAll, CleanUp, Distinct, Elems, LoopOk, MidOk, HeldIds, BeforeTerms, Ready;
    ExceptedState(m, p, k);
    EndState(BeforeTerms(m, p), p.report.terms, k);
  }

  /** A fault the report leaves behind: the backend reports it, the client is not found gone in the same report,
      and no termination names the request. */
  ghost predicate LeftFaulted(r: Report, k: Rid) {
    k in r.faults && !HungUpIn(r, k) && k !in r.terms
  }

  /** Where id k stands when fast and slow path are through. */
  lemma OpenedState(l: Loop, handed: seq<Entry>, r: Report, k: Rid)
    requires LoopOk(l) && New(l, handed) && Expected(Intake(l, handed), r)
    ensures var (m, p, n1) := Opened(l, handed, r);
            && MidOk(m, p)
            && (k in HeldIds(m) <==> (k in HeldIds(l) || k in Rids(handed)) && !FinishedIn(r, k))
            && (k in OutFirst(l, handed, r) <==> (k in HeldIds(l) || k in Rids(handed)) && FinishedIn(r, k))
            && (FinishedIn(r, k) ==> StateAt(m.ext, k).None? || StateAt(m.ext, k).value.Exited?)
            && (!FinishedIn(r, k) ==> StateAt(m.ext, k) == StateAt(l.ext, k))
            && (k in Elems(p.cancel) ==> HungUpIn(r, k))
            && (k in r.faults && HungUpIn(r, k) ==> k in Elems(p.cancel))
            && (Tracks(l.ext, k) ==> k !in Elems(p.cancel) && k !in r.faults)
  {
    hide LoopOk, Tracks, Intake, Tally, Deliver, Distinct, OneRowEach, HeldIds, StateAt, Rids;
    OpenedConserves(l, handed, r);
    var (m, p, n1) := Opened(l, handed, r);
    IntakeKeeps(l, handed);
    IntakeIds(l, handed);
    MidState(p.taken, r, k);
    DeliveredHeld(p.taken, m, p.cancel, r);
    assert DeliveredId(p.taken, m, p.cancel, r, k);
    FinishedAre(r.rows, k);
    HungUpAre(r.rows, k);
    ElemsAre(r.faults, k);
    LoopStateTells(m, k);
    LoopStateTells(p.taken, k);
  }

  lemma OpenedHungUp(l: Loop, handed: seq<Entry>, r: Report, k: Rid)
    requires LoopOk(l) && New(l, handed) && Expected(Intake(l, handed), r)
    ensures var (m, p, n1) := Opened(l, handed, r);
            HungUpIn(r, k) && k in HeldIds(m) ==> k in Elems(p.cancel) || Tracks(m.ext, k)
  {
    hide LoopOk, Tracks, Intake, Tally, Deliver, Distinct, OneRowEach, StateAt, Rids, Elems, Expected;
    OpenedConserves(l, handed, r);
    var (m, p, n1) := Opened(l, handed, r);
    assert DeliveredId(p.taken, m, p.cancel, r, k);
    HungUpAre(r.rows, k);
    LoopStateTells(m, k);
    Traced(m.ext, k);
  }

  lemma Traced(x: Ext, k: Rid)
    ensures Tracks(x, k) <==> StateAt(x, k).Some?
  {
  }

  lemma LoopStateTells(l: Loop, k: Rid)
    requires LoopOk(l)
    ensures k in l.ext.entries <==> StateAt(l.ext, k).Some? && !StateAt(l.ext, k).value.Exited?
    ensures k in Ready(l.ext.states) <==> StateAt(l.ext, k) == Some(Faulted(false))
    ensures k in Ready(l.ext.states) ==> k in HeldIds(l) && Tracks(l.ext, k)
    ensures Tracks(l.ext, k) ==> k !in l.entries
  {
    StateTells(l.ext, k);
    assert IdOk(l, k);
  }

  /** Whom a turn counts out, told from the report: the first decrement takes off the finished requests, the
      second those whose termination is acknowledged and the faults the last turn left behind. */
  lemma TurnOut(l: Loop, handed: seq<Entry>, r: Report, k: Rid)
    requires LoopOk(l) && Calm(l) && New(l, handed) && Expected(Intake(l, handed), r)
    ensures var (m, p, n1) := Opened(l, handed, r);
            && (k in OutFirst(l, handed, r) <==> (k in HeldIds(l) || k in Rids(handed)) && FinishedIn(r, k))
            && (k in OutLast(m, p) <==>
                (k in HeldIds(l) || k in Rids(handed)) && !FinishedIn(r, k)
                && (k in r.terms || k in Ready(l.ext.states)))
    ensures var l' := Step(l, handed, r).0;
            StateAt(l'.ext, k) != Some(Faulted(true)) && (k in Ready(l'.ext.states) <==> LeftFaulted(r, k))
  {
    hide LoopOk, Tracks, Intake, Opened, Closed, HeldIds, StateAt, Rids, MidOk, OutFirst, OutLast, Ready, Elems,
         FinishedIn, HungUpIn, New, Expected;
    OpenedState(l, handed, r, k);
    var (m, p, n1) := Opened(l, handed, r);
    OpenedKeeps(l, handed, r);
    ClosedState(m, p, k);
    ClosedConserves(m, p);
    LoopStateTells(l, k);
    LoopStateTells(Closed(m, p).0, k);
    ElemsAre(r.terms, k);
    ElemsAre(r.faults, k);
  }

  lemma OpenedKeeps(l: Loop, handed: seq<Entry>, r: Report)
    ensures Opened(l, handed, r).1.report == r
  {
  }

  // ---------- Runs of turns ----------

  /** What one turn is given: the requests newly handed over and the engine's report. */
  datatype Turn = Turn(handed: seq<Entry>, report: Report)

  function After(ts: seq<Turn>): Loop {
    if ts == [] then Loop(map[], map[], Ext(map[], []))
    else
      var t := ts[|ts| - 1];
      Step(After(ts[..|ts| - 1]), t.handed, t.report).0
  }

  ghost predicate LegalTurns(ts: seq<Turn>) {
    ts == [] || (var l, t := After(ts[..|ts| - 1]), ts[|ts| - 1];
                 LegalTurns(ts[..|ts| - 1]) && New(l, t.handed) && Expected(Intake(l, t.handed), t.report))
  }

  /** Turn j of the run leaves a fault of k behind. */
  ghost predicate LeftBy(ts: seq<Turn>, j: int, k: Rid) {
    0 <= j < |ts| && LeftFaulted(ts[j].report, k)
  }

  lemma {:induction false} TurnsKeep(ts: seq<Turn>)
    requires LegalTurns(ts)
    ensures LoopOk(After(ts)) && Calm(After(ts))
    ensures forall k :: k in Ready(After(ts).ext.states) <==> LeftBy(ts, |ts| - 1, k)
  {
    hide New, Expected, Step, LoopOk, Ready, LeftFaulted;
    if ts == [] {
      NothingYet();
    } else {
      var before, t := ts[..|ts| - 1], ts[|ts| - 1];
      TurnsKeep(before);
      StepConserves(After(before), t.handed, t.report);
      forall k
        ensures StateAt(After(ts).ext, k) != Some(Faulted(true))
        ensures k in Ready(After(ts).ext.states) <==> LeftFaulted(t.report, k)
      {
        TurnOut(After(before), t.handed, t.report, k);
      }
    }
  }

  lemma NothingYet()
    ensures After([]).entries == map[] && After([]).ext == Ext(map[], []) && LoopOk(After([])) && Ready([]) == {}
  {
    assert forall k :: IdOk(After([]), k);
  }

  /** The requests that are with the replica once the last turn has taken up its requests. */
  ghost function Present(ts: seq<Turn>): set<Rid>
    requires ts != []
  {
    HeldIds(After(ts[..|ts| - 1])) + Rids(ts[|ts| - 1].handed)
  }

  ghost function OutByRow(ts: seq<Turn>): set<Rid>
    requires ts != []
  {
    set k | k in Present(ts) && FinishedIn(ts[|ts| - 1].report, k)
  }

  ghost function OutByTermOrFault(ts: seq<Turn>): set<Rid>
    requires ts != []
  {
    set k | k in Present(ts) && !FinishedIn(ts[|ts| - 1].report, k)
            && (k in ts[|ts| - 1].report.terms || LeftBy(ts, |ts| - 2, k))
  }

  /** In every run, a turn's first decrement is the number of requests its rows finish; the second is the
      number of the others that its terminations name or that the turn before has left behind as faulted.
      They leave, and nobody else. */
  lemma TurnsCountOut(ts: seq<Turn>)
    requires LegalTurns(ts) && ts != []
    ensures var t := ts[|ts| - 1];
            var (l, n1, n2) := Step(After(ts[..|ts| - 1]), t.handed, t.report);
            && n1 == |OutByRow(ts)| && n2 == |OutByTermOrFault(ts)|
            && HeldIds(l) == Present(ts) - OutByRow(ts) - OutByTermOrFault(ts)
  {
    hide New, Expected, Opened, Closed, LoopOk, Ready, LeftFaulted, FinishedIn, OutFirst, OutLast, MidOk, HeldIds,
         Rids, After, StateAt;
    var before, t := ts[..|ts| - 1], ts[|ts| - 1];
    var l := BeforeTurn(ts);
    OpenedConserves(l, t.handed, t.report);
    var (m, p, n1) := Opened(l, t.handed, t.report);
    ClosedConserves(m, p);
    forall k
      ensures k in OutFirst(l, t.handed, t.report) <==> k in OutByRow(ts)
      ensures k in OutLast(m, p) <==> k in OutByTermOrFault(ts)
    {
      TurnOut(l, t.handed, t.report, k);
      assert LeftBy(before, |before| - 1, k) <==> LeftBy(ts, |ts| - 2, k);
    }
    assert OutFirst(l, t.handed, t.report) == OutByRow(ts) && OutLast(m, p) == OutByTermOrFault(ts);
  }

  lemma BeforeTurn(ts: seq<Turn>) returns (l: Loop)
    requires LegalTurns(ts) && ts != []
    ensures l == After(ts[..|ts| - 1]) && LoopOk(l) && Calm(l)
    ensures forall k :: k in Ready(l.ext.states) <==> LeftBy(ts[..|ts| - 1], |ts| - 2, k)
    ensures var t := ts[|ts| - 1]; New(l, t.handed) && Expected(Intake(l, t.handed), t.report)
    ensures After(ts) == Step(l, ts[|ts| - 1].handed, ts[|ts| - 1].report).0
  {
    hide New, Expected, Step, LoopOk, Ready, LeftBy, StateAt, Intake;
    l := After(ts[..|ts| - 1]);
    TurnsKeep(ts[..|ts| - 1]);
  }

  // ---------- Who is held ----------

  ghost predicate HandedIn(t: Turn, k: Rid) {
    exists i :: 0 <= i < |t.handed| && t.handed[i].rid == k
  }

  /** Neither a row nor a termination of turn j ends request k. */
  ghost predicate Unended(ts: seq<Turn>, j: nat, k: Rid)
    requires j < |ts|
  {
    !FinishedIn(ts[j].report, k) && k !in ts[j].report.terms
  }

  lemma HeldStep(ts: seq<Turn>, k: Rid)
    requires LegalTurns(ts) && ts != []
    ensures k in HeldIds(After(ts)) <==>
            && (k in HeldIds(After(ts[..|ts| - 1])) || HandedIn(ts[|ts| - 1], k))
            && Unended(ts, |ts| - 1, k) && !LeftBy(ts, |ts| - 2, k)
  {
    hide New, Expected, Step, LoopOk, Ready, LeftFaulted, FinishedIn, StateAt, Intake, LegalTurns, HeldIds;
    TurnsCountOut(ts);
    RidsAre(ts[|ts| - 1].handed, k);
    LegalBefore(ts, |ts| - 1);
  }

  lemma {:induction false} LegalBefore(ts: seq<Turn>, j: nat)
    requires LegalTurns(ts) && j <= |ts|
    ensures LegalTurns(ts[..j])
    decreases |ts|
  {
    hide New, Expected, Step, After, Intake;
    if j < |ts| {
      LegalBefore(ts[..|ts| - 1], j);
      assert ts[..|ts| - 1][..j] == ts[..j];
    } else {
      assert ts[..j] == ts;
    }
  }

  /** A fault is left behind for a request that is held, so not for one about to be handed in. */
  lemma LeftIsHeld(ts: seq<Turn>, k: Rid)
    requires LegalTurns(ts) && LeftBy(ts, |ts| - 1, k)
    ensures k in HeldIds(After(ts)) && Tracks(After(ts).ext, k)
  {
    hide New, Expected, Step, LoopOk, Ready, LeftFaulted, StateAt, HeldIds, LegalTurns, After, Tracks;
    TurnsKeep(ts);
    LoopStateTells(After(ts), k);
  }

  /** Request k, taken up in turn i, gets through turn j: neither a row nor a termination ends it, and no earlier turn
      since i has left a fault of it behind. */
  ghost predicate GetsThrough(ts: seq<Turn>, i: nat, j: nat, k: Rid)
    requires j < |ts|
  {
    Unended(ts, j, k) && (i < j ==> !LeftBy(ts, j - 1, k))
  }

  /** The replica holds a request exactly as long as it gets through each turn since the one that took it up. */
  lemma {:induction false} HeldSince(ts: seq<Turn>, i: nat, k: Rid)
    requires LegalTurns(ts) && i < |ts| && HandedIn(ts[i], k) && forall j | i < j < |ts| :: !HandedIn(ts[j], k)
    ensures k in HeldIds(After(ts)) <==> forall j | i <= j < |ts| :: GetsThrough(ts, i, j, k)
    decreases |ts|
  {
    hide LegalTurns, After, HeldIds, HandedIn, GetsThrough, Unended, LeftBy;
    var n := |ts| - 1;
    var before := ts[..n];
    LastTurn(ts, i, k);
    if i < n {
      LegalBefore(ts, n);
      HeldSince(before, i, k);
      forall j: nat | i <= j < n
        ensures GetsThrough(before, i, j, k) == GetsThrough(ts, i, j, k)
      {
        SamePast(ts, i, j, k);
      }
    }
  }

  lemma LastTurn(ts: seq<Turn>, i: nat, k: Rid)
    requires LegalTurns(ts) && i < |ts| && HandedIn(ts[i], k) && forall j | i < j < |ts| :: !HandedIn(ts[j], k)
    ensures k in HeldIds(After(ts)) <==>
            (i == |ts| - 1 || k in HeldIds(After(ts[..|ts| - 1]))) && GetsThrough(ts, i, |ts| - 1, k)
  {
    hide LegalTurns, After, HeldIds, HandedIn, Unended, LeftBy;
    HeldStep(ts, k);
    if i == |ts| - 1 {
      NoFaultBefore(ts, k);
    }
  }

  lemma SamePast(ts: seq<Turn>, i: nat, j: nat, k: Rid)
    requires j < |ts| - 1
    ensures GetsThrough(ts[..|ts| - 1], i, j, k) == GetsThrough(ts, i, j, k)
    ensures Unended(ts[..|ts| - 1], j, k) == Unended(ts, j, k)
  {
  }

  lemma NoFaultBefore(ts: seq<Turn>, k: Rid)
    requires LegalTurns(ts) && ts != [] && HandedIn(ts[|ts| - 1], k)
    ensures !LeftBy(ts, |ts| - 2, k)
  {
    hide Expected, Step, LoopOk, Ready, LeftFaulted, StateAt, HeldIds, After, Intake, Tracks;
    if LeftBy(ts, |ts| - 2, k) {
      LeftIsHeld(ts[..|ts| - 1], k);
      assert false;
    }
  }

  /** A request that is already in the exception context, or whose client a row finds gone, is in the exception
      context after the turn if it is still held; the former cannot fault again. */
  lemma ExceptedStep(ts: seq<Turn>, k: Rid)
    requires LegalTurns(ts) && ts != []
    ensures Tracks(After(ts[..|ts| - 1]).ext, k) ==> k !in ts[|ts| - 1].report.faults
    ensures k in HeldIds(After(ts)) && (Tracks(After(ts[..|ts| - 1]).ext, k) || HungUpIn(ts[|ts| - 1].report, k)) ==>
              Tracks(After(ts).ext, k)
  {
    hide New, Expected, Opened, Closed, LoopOk, Ready, FinishedIn, HungUpIn, OutLast, MidOk, HeldIds, Rids, After,
         StateAt, Intake, LegalTurns, Elems, LeftBy;
    var t := ts[|ts| - 1];
    var l := BeforeTurn(ts);
    OpenedState(l, t.handed, t.report, k);
    OpenedHungUp(l, t.handed, t.report, k);
    var (m, p, n1) := Opened(l, t.handed, t.report);
    ClosedState(m, p, k);
    ClosedConserves(m, p);
    Traced(l.ext, k);
    Traced(m.ext, k);
    Traced(Closed(m, p).0.ext, k);
  }

  /** A request whose client has hung up waits for the backend: no cleanup counts it out, and it is held until
      a later row finishes it or a later termination names it. */
  lemma {:induction false} HungUpWaits(ts: seq<Turn>, i: nat, k: Rid)
    requires LegalTurns(ts) && i < |ts| && HungUpIn(ts[i].report, k) && k in HeldIds(After(ts[..i + 1]))
    requires forall j | i < j < |ts| :: !HandedIn(ts[j], k)
    ensures k in HeldIds(After(ts)) <==> forall j | i < j < |ts| :: Unended(ts, j, k)
    ensures k in HeldIds(After(ts)) ==> Tracks(After(ts).ext, k) && !LeftBy(ts, |ts| - 1, k)
    decreases |ts|
  {
    hide LegalTurns, After, HeldIds, HandedIn, Unended, Tracks, HungUpIn;
    ExceptedStep(ts, k);
    var before := ts[..|ts| - 1];
    if i == |ts| - 1 {
      assert ts[..i + 1] == ts;
    } else {
      LegalBefore(ts, |ts| - 1);
      assert before[..i + 1] == ts[..i + 1];
      HungUpWaits(before, i, k);
      HeldStep(ts, k);
      forall j | i < j < |before|
        ensures Unended(before, j, k) == Unended(ts, j, k)
      {
        SamePast(ts, i, j, k);
      }
    }
  }

  /** A fault that a turn leaves behind is still held after that turn and no longer after the next one, which
      counts it out at its second decrement unless a row finishes it. */
  lemma FaultGoes(ts: seq<Turn>, k: Rid)
    requires LegalTurns(ts) && LeftBy(ts, |ts| - 2, k)
    ensures k in HeldIds(After(ts[..|ts| - 1])) && k !in HeldIds(After(ts))
    ensures k in OutByTermOrFault(ts) <==> !FinishedIn(ts[|ts| - 1].report, k)
  {
    hide LegalTurns, After, HeldIds, Tracks, FinishedIn, LeftFaulted;
    var before := ts[..|ts| - 1];
    LegalBefore(ts, |ts| - 1);
    LeftIsHeld(before, k);
    HeldStep(ts, k);
  }

  // ---------- Phases ----------

  function PhaseAt(l: Loop, k: Rid): Option<Phase> {
    if k in l.phases then Some(l.phases[k]) else None
  }

  /** The phase a row's request is in, going by the row. */
  function RowPhase(row: Row): Phase {
    if row.decode then Decoding else Prefilling
  }

  lemma {:induction false} IntakePhase(l: Loop, handed: seq<Entry>, k: Rid)
    ensures PhaseAt(Intake(l, handed), k) == if k in Rids(handed) then Some(Waiting) else PhaseAt(l, k)
  {
    if handed != [] {
      IntakePhase(l, handed[..|handed| - 1], k);
    }
  }

  /** The phase of request k after the rows: an excepted one keeps it, a held one goes by its row and leaves when
      the row finishes it. */
  lemma {:induction false} DeliverPhase(l: Loop, rows: seq<Row>, k: Rid)
    requires OneRowEach(rows)
    ensures var m := Deliver(l, rows).0;
            && (k in m.entries ==> k in l.entries)
            && ((forall i | 0 <= i < |rows| :: rows[i].rid != k) ==>
                  PhaseAt(m, k) == PhaseAt(l, k) && (k in m.entries <==> k in l.entries))
            && (forall i | 0 <= i < |rows| && rows[i].rid == k ::
                  PhaseAt(m, k) ==
                  if PhaseAt(l, k).None? || (k in l.entries && rows[i].finished) then None
                  else Some(if l.phases[k] == Excepted then Excepted else RowPhase(rows[i])))
  {
    if rows != [] {
      var rest := rows[..|rows| - 1];
      assert forall i | 0 <= i < |rest| :: rest[i] == rows[i];
      DeliverPhase(l, rest, k);
    }
  }

  lemma {:induction false} AbortAllPhase(l: Loop, cancel: seq<Rid>, k: Rid)
    requires LoopOk(l) && Distinct(cancel) && forall j | j in Elems(cancel) :: j in l.entries
    ensures PhaseAt(AbortAll(l, cancel), k) ==
            if k in Elems(cancel) && k in l.phases then Some(Excepted) else PhaseAt(l, k)
    decreases |cancel|
  {
    if cancel != [] {
      var j, rest := cancel[|cancel| - 1], cancel[..|cancel| - 1];
      var m := Withdraw(l, j, false);
      WithdrawKeeps(l, j, false);
      hide LoopOk, IdOk, Put;
      forall i | i in Elems(rest)
        ensures i in m.entries
      {
        assert MovedId(l, m, {j}, i);
      }
      AbortAllPhase(m, rest, k);
    }
  }

  lemma {:induction false} FaultAllPhase(l: Loop, faults: seq<Rid>, skip: seq<Rid>, k: Rid)
    requires LoopOk(l) && Distinct(faults) && forall j | j in Unskipped(faults, skip) :: j in l.entries
    ensures PhaseAt(FaultAll(l, faults, skip), k) ==
            if k in Unskipped(faults, skip) && k in l.phases then Some(Excepted) else PhaseAt(l, k)
    decreases |faults|
  {
    if faults != [] {
      var j, rest := faults[|faults| - 1], faults[..|faults| - 1];
      FaultAllPhase(l, rest, skip, k);
      FaultAllKeeps(l, rest, skip);
      hide LoopOk, IdOk, Put;
      if j !in skip {
        assert MovedId(l, FaultAll(l, rest, skip), Unskipped(rest, skip), j);
        UnskippedAre(rest, skip, j);
      }
    }
  }

  lemma {:induction false} TermAllPhase(l: Loop, terms: seq<Rid>, k: Rid)
    ensures PhaseAt(TermAll(l, terms).0, k) == if k in Elems(terms) then None else PhaseAt(l, k)
  {
    hide Put;
    if terms != [] {
      TermAllPhase(l, terms[..|terms| - 1], k);
    }
  }

  /** The phase of id k is right: it has one exactly if the replica has a trace of it, and it is the excepted
      phase exactly in the exception context. */
  ghost predicate PhaseOk(l: Loop, k: Rid) {
    && (k in l.phases <==> Tracked(l, k))
    && (k in l.phases ==> (l.phases[k] == Excepted <==> Tracks(l.ext, k)))
  }

  /** What the rows make of the phase of a held request. */
  ghost predicate GoesByRow(was: Option<Phase>, rows: seq<Row>, now: Option<Phase>, k: Rid) {
    && (forall i | 0 <= i < |rows| && rows[i].rid == k :: now == Some(RowPhase(rows[i])))
    && ((forall i | 0 <= i < |rows| :: rows[i].rid != k) ==> now == was)
  }

  lemma TakenPhase(l: Loop, handed: seq<Entry>, k: Rid)
    requires LoopOk(l) && PhaseOk(l, k) && New(l, handed)
    ensures PhaseOk(Intake(l, handed), k)
    ensures PhaseAt(Intake(l, handed), k) == if k in Rids(handed) then Some(Waiting) else PhaseAt(l, k)
  {
    hide LoopOk, New, Intake, Rids, Tracks;
    IntakeKeeps(l, handed);
    IntakePhase(l, handed, k);
    HandedApart(l, handed, k);
  }

  lemma RowsPhase(l: Loop, m: Loop, cancel: seq<Rid>, r: Report, k: Rid)
    requires LoopOk(l) && LoopOk(m) && PhaseOk(l, k) && OneRowEach(r.rows) && DeliveredId(l, m, cancel, r, k)
    requires m == Deliver(l.(ext := Tally(l, r.rows).0), r.rows).0
    ensures PhaseOk(m, k) && (k in m.entries ==> GoesByRow(PhaseAt(l, k), r.rows, PhaseAt(m, k), k))
  {
    hide LoopOk, Tally, Deliver, OneRowEach, Finished, HungUp, Tracks;
    DeliverPhase(l.(ext := Tally(l, r.rows).0), r.rows, k);
    FinishedAre(r.rows, k);
    TrackedApart(m, k);
    TrackedApart(l, k);
  }

  /** The phases once fast and slow path are through. */
  lemma OpenedPhase(l: Loop, handed: seq<Entry>, r: Report, k: Rid)
    requires LoopOk(l) && PhaseOk(l, k) && New(l, handed) && Expected(Intake(l, handed), r)
    ensures var (m, p, n1) := Opened(l, handed, r);
            && MidOk(m, p) && PhaseOk(m, k)
            && (k in m.entries ==>
                  GoesByRow(if k in Rids(handed) then Some(Waiting) else PhaseAt(l, k), r.rows, PhaseAt(m, k), k))
  {
    hide LoopOk, Tracks, Intake, Tally, Deliver, Distinct, Rids, Elems, OneRowEach, PhaseOk, GoesByRow, DeliveredId,
         PhaseAt, New;
    OpenedConserves(l, handed, r);
    IntakeKeeps(l, handed);
    TakenPhase(l, handed, k);
    var (m, p, n1) := Opened(l, handed, r);
    assert DeliveredId(p.taken, m, p.cancel, r, k);
    RowsPhase(p.taken, m, p.cancel, r, k);
  }

  /** The phases after abortions and faults. */
  lemma ExceptedPhase(m: Loop, p: Pending, k: Rid)
    requires MidOk(m, p) && PhaseOk(m, k)
    ensures var b := BeforeTerms(m, p);
            && PhaseOk(b, k) && (k in b.entries ==> k in m.entries && PhaseAt(b, k) == PhaseAt(m, k))
  {
    hide LoopOk, Tracks, AbortAll, FaultAll, Distinct, OneRowEach, Expected, Delivered, Elems, Held;
    var l, r := p.taken, p.report;
    AbortsHeld(l, m, p.cancel, r);
    AbortAllKeeps(m, p.cancel);
    AbortAllPhase(m, p.cancel, k);
    var l1 := AbortAll(m, p.cancel);
    FaultsHeld(l, m, l1, r, p.cancel);
    FaultAllKeeps(l1, r.faults, p.cancel);
    FaultAllPhase(l1, r.faults, p.cancel, k);
    var b := FaultAll(l1, r.faults, p.cancel);
    assert MovedId(m, l1, Elems(p.cancel), k) && MovedId(l1, b, Unskipped(r.faults, p.cancel), k);
    TrackedApart(m, k);
    TrackedApart(l1, k);
    TrackedApart(b, k);
  }

  /** The phases after terminations and the cleanup. */
  lemma EndPhase(b: Loop, terms: seq<Rid>, k: Rid)
    requires LoopOk(b) && PhaseOk(b, k) && Distinct(terms) && forall j | j in Elems(terms) :: Tracks(b.ext, j)
    ensures var e := CleanUp(TermAll(b, terms).0).0;
            && PhaseOk(e, k) && e.entries == b.entries && (k in e.entries ==> PhaseAt(e, k) == PhaseAt(b, k))
  {
    hide StateAt, Tracks, TermAll, Distinct, Elems, Ready;
    TermAllCounts(b, terms);
    TermAllPhase(b, terms, k);
    var c := TermAll(b, terms).0;
    CleanKeeps(c.ext);
    CleanTraces(c.ext, k);
    TrackedApart(b, k);
    TrackedApart(c, k);
    ReadyTracked(c.ext, k);
  }

  lemma CleanTraces(x: Ext, k: Rid)
    requires Ok(x)
    ensures Tracks(Cleaned(x), k) <==> Tracks(x, k) && k !in Ready(x.states)
  {
    CleanKeeps(x);
  }

  lemma ReadyTracked(x: Ext, k: Rid)
    ensures k in Ready(x.states) ==> Tracks(x, k)
  {
    Subsets(x.states);
  }

  /** In every run exactly the requests with a trace have a phase, the excepted one exactly in the exception
      context. A held request goes by its last row: the phase that row says, or else the one it had, which is
      that of a waiting request when it is taken up. */
  lemma {:induction false} PhasesTell(ts: seq<Turn>, k: Rid)
    requires LegalTurns(ts)
    ensures PhaseOk(After(ts), k)
    ensures ts != [] && k in After(ts).entries ==>
              var t, before := ts[|ts| - 1], After(ts[..|ts| - 1]);
              GoesByRow(if HandedIn(t, k) then Some(Waiting) else PhaseAt(before, k),
                        t.report.rows, PhaseAt(After(ts), k), k)
  {
    hide New, Expected, Opened, Closed, LoopOk, Ready, MidOk, Rids, StateAt, Intake, LeftBy, PhaseOk, GoesByRow,
         PhaseAt;
    if ts == [] {
      NoPhaseYet(k);
    } else {
      var t := ts[|ts| - 1];
      var l := BeforeTurn(ts);
      PhasesTell(ts[..|ts| - 1], k);
      OpenedPhase(l, t.handed, t.report, k);
      RidsAre(t.handed, k);
      var (m, p, n1) := Opened(l, t.handed, t.report);
      ExceptedPhase(m, p, k);
      ExceptedState(m, p, k);
      EndPhase(BeforeTerms(m, p), p.report.terms, k);
      ClosedIs(m, p);
    }
  }

  lemma NoPhaseYet(k: Rid)
    ensures PhaseOk(After([]), k)
  {
  }

  lemma ClosedIs(m: Loop, p: Pending)
    ensures Closed(m, p).0 == CleanUp(TermAll(BeforeTerms(m, p), p.report.terms).0).0
  {
  }

  lemma TrackedApart(l: Loop, k: Rid)
    requires LoopOk(l)
    ensures Tracks(l.ext, k) ==> k !in l.entries
  {
    assert IdOk(l, k);
  }

  lemma HandedApart(l: Loop, handed: seq<Entry>, k: Rid)
    requires New(l, handed)
    ensures k in Rids(handed) ==> !Tracked(l, k)
  {
    RidsAre(handed, k);
  }
}
