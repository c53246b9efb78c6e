/** The completion loop of a replica: what one engine report does to the requests it holds, and how many
    of them it counts out of the replica's batch size.
  */
module Completion {
  import opened Basics
  import opened Except

  datatype Phase = Waiting | Prefilling | Decoding | Excepted

  /** One output row: a prefill or decode state, whether the request is finished, and whether its frontend
      has hung up. */
  datatype Row = Row(rid: Rid, decode: bool, finished: bool, hungUp: bool)

  /** One engine report, with the backend errors that have come in by then and the abortions the backend
      acknowledges. */
  datatype Report = Report(rows: seq<Row>, faults: seq<Rid>, terms: seq<Rid>)

  datatype Loop = Loop(entries: map<Rid, Entry>, phases: map<Rid, Phase>, ext: Ext)

  // ---------- Transitions ----------

  function Transition(p: Phase, decode: bool): Phase {
    match p
    case Excepted => Excepted
    case _ => if decode then Decoding else Prefilling
  }

  /** Newly posted requests become visible. */
  function Intake(l: Loop, handed: seq<Entry>): Loop {
    if handed == [] then l
    else
      var m, e := Intake(l, handed[..|handed| - 1]), handed[|handed| - 1];
      m.(entries := m.entries[e.rid := e], phases := m.phases[e.rid := Waiting])
  }

  /** Fast path: the finished requests are counted; those in the exception context leave it. */
  function Tally(l: Loop, rows: seq<Row>): (Ext, nat) {
    if rows == [] then (l.ext, 0)
    else
      var (x, n), row := Tally(l, rows[..|rows| - 1]), rows[|rows| - 1];
      if !row.finished then (x, n)
      else if row.rid in l.entries then (x, n + 1)
      else if !Handled(x, Exit(row.rid)) then (x, n)
      else
        var (x', out) := Put(x, Exit(row.rid));
        (x', if out.Some? then n + 1 else n)
  }

  /** Slow path of one row: generations are passed on, finished requests leave, and requests whose
      frontend has hung up are noted for abortion. */
  function DeliverRow(l: Loop, cancel: seq<Rid>, row: Row): (Loop, seq<Rid>) {
    var l1 :=
      if row.rid in l.phases then l.(phases := l.phases[row.rid := Transition(l.phases[row.rid], row.decode)]) else l;
    if row.rid !in l1.entries then (l1, cancel)
    else
      var c1 := if row.hungUp then cancel + [row.rid] else cancel;
      if row.finished
      then (l1.(entries := l1.entries - {row.rid}, phases := l1.phases - {row.rid}),
            if c1 != [] && c1[|c1| - 1] == row.rid then c1[..|c1| - 1] else c1)
      else (l1, c1)
  }

  function Deliver(l: Loop, rows: seq<Row>): (Loop, seq<Rid>) {
    if rows == [] then (l, [])
    else
      var (m, c) := Deliver(l, rows[..|rows| - 1]);
      DeliverRow(m, c, rows[|rows| - 1])
  }

  /** A held request moves to the exception context. */
  function Withdraw(l: Loop, k: Rid, fault: bool): Loop {
    if k !in l.entries then l
    else
      var e := if fault then Fault(k, l.entries[k]) else Abort(k, l.entries[k]);
      Loop(l.entries - {k}, if k in l.phases then l.phases[k := Excepted] else l.phases, Put(l.ext, e).0)
  }

  /** Abortions are taken up from the last one noted. */
  function AbortAll(l: Loop, cancel: seq<Rid>): Loop
    decreases |cancel|
  {
    if cancel == [] then l else AbortAll(Withdraw(l, cancel[|cancel| - 1], false), cancel[..|cancel| - 1])
  }

  /** Backend errors, except those of requests aborted in the same step. */
  function FaultAll(l: Loop, faults: seq<Rid>, skip: seq<Rid>): Loop {
    if faults == [] then l
    else
      var m, k := FaultAll(l, faults[..|faults| - 1], skip), faults[|faults| - 1];
      if k in skip then m else Withdraw(m, k, true)
  }

  /** Acknowledged abortions are counted out unless their request has exited. */
  function TermAll(l: Loop, terms: seq<Rid>): (Loop, nat) {
    if terms == [] then (l, 0)
    else
      var (m, n), k := TermAll(l, terms[..|terms| - 1]), terms[|terms| - 1];
      if !Handled(m.ext, Term(k)) then (m.(phases := m.phases - {k}), n)
      else
        var (x, out) := Put(m.ext, Term(k));
        (Loop(m.entries, m.phases - {k}, x), if out.Some? then n + 1 else n)
  }

  function CleanUp(l: Loop): (Loop, nat) {
    (Loop(l.entries, l.phases - Ready(l.ext.states), Cleaned(l.ext)), |Ready(l.ext.states)|)
  }

  /** What a turn carries over from its first decrement of the batch size to its second: the loop as it was
      when the report was absorbed, the requests whose client hung up, and the report. */
  datatype Pending = Pending(taken: Loop, cancel: seq<Rid>, report: Report)

  /** A turn up to its first decrement, which takes off the requests the fast path counts. */
  function Opened(l: Loop, handed: seq<Entry>, r: Report): (Loop, Pending, nat) {
    var l1 := Intake(l, handed);
    var (x, n) := Tally(l1, r.rows);
    var (m, cancel) := Deliver(l1.(ext := x), r.rows);
    (m, Pending(l1, cancel, r), n)
  }

  /** The context before terminations are handled. */
  function BeforeTerms(m: Loop, p: Pending): Loop {
    FaultAll(AbortAll(m, p.cancel), p.report.faults, p.cancel)
  }

  /** The rest of a turn: abortions, faults, terminations and the cleanup, for the second decrement. */
  function Closed(m: Loop, p: Pending): (Loop, nat) {
    var (l3, n3) := TermAll(BeforeTerms(m, p), p.report.terms);
    var (l4, n4) := CleanUp(l3);
    (l4, n3 + n4)
  }

  /** The whole turn: the new state, and what the two decrements take off. */
  function Step(l: Loop, handed: seq<Entry>, r: Report): (Loop, nat, nat) {
    var (m, p, n1) := Opened(l, handed, r);
    var (l', n2) := Closed(m, p);
    (l', n1, n2)
  }

  // ---------- Invariant ----------

  /** A held request has a phase and no trace in the exception context; a request in the exception
      context has no phase but the one that says so. */
  ghost predicate IdOk(l: Loop, k: Rid) {
    && (k in l.entries ==> l.entries[k].rid == k && k in l.phases && !Tracks(l.ext, k))
    && (k in l.ext.entries ==> Tracks(l.ext, k) && (k in l.phases ==> l.phases[k] == Excepted))
  }

  ghost predicate LoopOk(l: Loop) {
    Ok(l.ext) && forall k {:trigger IdOk(l, k)} :: IdOk(l, k)
  }

  /** The requests a replica holds. */
  function Held(l: Loop): nat {
    |l.entries| + |l.ext.entries|
  }

  function HeldIds(l: Loop): set<Rid> {
    l.entries.Keys + l.ext.entries.Keys
  }

  /** The replica has a trace of id k. */
  predicate Tracked(l: Loop, k: Rid) {
    k in l.entries || Tracks(l.ext, k)
  }

  ghost predicate New(l: Loop, handed: seq<Entry>) {
    && (forall i | 0 <= i < |handed| :: !Tracked(l, handed[i].rid))
    && (forall i, j | 0 <= i < j < |handed| :: handed[i].rid != handed[j].rid)
  }

  function Rids(handed: seq<Entry>): set<Rid> {
    if handed == [] then {} else Rids(handed[..|handed| - 1]) + {handed[|handed| - 1].rid}
  }

  function Finished(rows: seq<Row>): set<Rid> {
    if rows == [] then {}
    else Finished(rows[..|rows| - 1]) + if rows[|rows| - 1].finished then {rows[|rows| - 1].rid} else {}
  }

  function HungUp(rows: seq<Row>): set<Rid> {
    if rows == [] then {}
    else
      var row := rows[|rows| - 1];
      HungUp(rows[..|rows| - 1]) + if row.hungUp && !row.finished then {row.rid} else {}
  }

  ghost predicate Distinct(ids: seq<Rid>) {
    ids == [] || (ids[|ids| - 1] !in Elems(ids[..|ids| - 1]) && Distinct(ids[..|ids| - 1]))
  }

  ghost predicate OneRowEach(rows: seq<Row>) {
    rows == [] || (OneRowEach(rows[..|rows| - 1])
                   && forall i | 0 <= i < |rows| - 1 :: rows[i].rid != rows[|rows| - 1].rid)
  }

  /** What the loop expects of a report, l being the state after the intake: at most one row for each
      request; finished requests known; faults reported once, for requests held and not finished;
      abortions acknowledged once, for requests in the exception context. */
  ghost predicate Expected(l: Loop, r: Report) {
    && OneRowEach(r.rows) && (forall k | k in Finished(r.rows) :: Tracked(l, k))
    && Distinct(r.faults) && (forall k | k in Elems(r.faults) :: k in l.entries && k !in Finished(r.rows))
    && Distinct(r.terms)
    && (forall k | k in Elems(r.terms) ::
          Tracks(l.ext, k) || (k in HungUp(r.rows) && k in l.entries) || k in Elems(r.faults))
  }

  // ---------- Step by step ----------

  lemma SizeLess<V>(m: map<Rid, V>, k: Rid)
    ensures |m - {k}| == |m| - if k in m then 1 else 0
  {
    assert (m - {k}).Keys == m.Keys - {k};
    assert |m - {k}| == |(m - {k}).Keys| && |m| == |m.Keys|;
  }

  lemma SizeMore<V>(m: map<Rid, V>, k: Rid, v: V)
    ensures |m[k := v]| == |m| + if k in m then 0 else 1
  {
    assert m[k := v].Keys == m.Keys + {k};
    assert |m[k := v]| == |m[k := v].Keys| && |m| == |m.Keys|;
  }

  lemma IntakeOne(l: Loop, e: Entry)
    requires LoopOk(l) && !Tracked(l, e.rid)
    ensures var m := l.(entries := l.entries[e.rid := e], phases := l.phases[e.rid := Waiting]);
            LoopOk(m) && Held(m) == Held(l) + 1
  {
    hide Ok, Tracks;
    SizeMore(l.entries, e.rid, e);
    var m := l.(entries := l.entries[e.rid := e], phases := l.phases[e.rid := Waiting]);
    forall k
      ensures IdOk(m, k)
    {
      assert IdOk(l, k);
    }
  }

  lemma {:induction false} IntakeKeeps(l: Loop, handed: seq<Entry>)
    requires LoopOk(l) && New(l, handed)
    ensures var m := Intake(l, handed);
            && LoopOk(m) && Held(m) == Held(l) + |handed| && m.ext == l.ext
            && (forall k :: k in m.entries <==> k in l.entries || k in Rids(handed))
  {
    if handed != [] {
      var rest, e := handed[..|handed| - 1], handed[|handed| - 1];
      assert New(l, rest) && (forall i | 0 <= i < |rest| :: rest[i] == handed[i]);
      IntakeKeeps(l, rest);
      RidsAre(rest, e.rid);
      hide LoopOk, Tracks;
      IntakeOne(Intake(l, rest), e);
    }
  }

  lemma {:induction false} RidsAre(handed: seq<Entry>, k: Rid)
    ensures k in Rids(handed) <==> exists i :: 0 <= i < |handed| && handed[i].rid == k
  {
    if handed != [] {
      var rest := handed[..|handed| - 1];
      RidsAre(rest, k);
      assert forall i | 0 <= i < |rest| :: rest[i] == handed[i];
    }
  }

  lemma HeldApart(l: Loop)
    requires LoopOk(l)
    ensures l.entries.Keys !! l.ext.entries.Keys && |HeldIds(l)| == Held(l)
  {
    EntriesTracked(l.ext);
    forall k | k in l.entries
      ensures k !in l.ext.entries
    {
      assert IdOk(l, k);
    }
    assert |l.entries| == |l.entries.Keys| && |l.ext.entries| == |l.ext.entries.Keys|;
  }

  /** How many finished rows concern requests held outside the exception context. */
  function Leaving(entries: map<Rid, Entry>, rows: seq<Row>): nat {
    if rows == [] then 0
    else
      var row := rows[|rows| - 1];
      Leaving(entries, rows[..|rows| - 1]) + if row.finished && row.rid in entries then 1 else 0
  }

  /** The fast path counts each finished request: those that leave in the slow path and those that leave
      the exception context now. */
  lemma {:induction false} TallyCounts(l: Loop, rows: seq<Row>)
    requires LoopOk(l) && forall k | k in Finished(rows) :: Tracked(l, k)
    ensures var (x, n) := Tally(l, rows);
            && Ok(x) && (forall k :: Tracks(x, k) <==> Tracks(l.ext, k))
            && (forall k :: k in x.entries <==> k in l.ext.entries && k !in Finished(rows))
            && |x.entries| + n == |l.ext.entries| + Leaving(l.entries, rows)
  {
    if rows != [] {
      var rest, row := rows[..|rows| - 1], rows[|rows| - 1];
      TallyCounts(l, rest);
      HeldApart(l);
      var (x, n) := Tally(l, rest);
      if row.finished && row.rid !in l.entries {
        hide Ok, Tracks, Put;
        assert row.rid in Finished(rows);
        assert Tracked(l, row.rid);
        PutExit(x, row.rid);
        SizeLess(x.entries, row.rid);
      }
    }
  }

  lemma TalliedOk(l: Loop, x: Ext)
    requires LoopOk(l) && Ok(x) && (forall k :: Tracks(x, k) <==> Tracks(l.ext, k))
    requires forall k | k in x.entries :: k in l.ext.entries
    ensures LoopOk(l.(ext := x))
  {
    EntriesTracked(x);
    forall k
      ensures IdOk(l.(ext := x), k)
    {
      assert IdOk(l, k);
    }
  }

  lemma DeliverOne(l: Loop, cancel: seq<Rid>, row: Row)
    requires LoopOk(l) && Distinct(cancel) && row.rid !in Elems(cancel)
    ensures var (m, c) := DeliverRow(l, cancel, row);
            var held := row.rid in l.entries;
            && LoopOk(m) && m.ext == l.ext
            && (forall k :: k in m.entries <==> k in l.entries && !(row.finished && k == row.rid))
            && |m.entries| == |l.entries| - (if row.finished && held then 1 else 0)
            && c == if held && row.hungUp && !row.finished then cancel + [row.rid] else cancel
  {
    hide DeliverRow, LoopOk, Distinct, Elems;
    DeliverEntries(l, cancel, row);
    DeliverCancel(l, cancel, row);
    DeliverIds(l, cancel, row);
  }

  lemma DeliverEntries(l: Loop, cancel: seq<Rid>, row: Row)
    ensures var (m, c) := DeliverRow(l, cancel, row);
            && m.ext == l.ext
            && m.entries == (if row.finished then l.entries - {row.rid} else l.entries)
            && |m.entries| == |l.entries| - (if row.finished && row.rid in l.entries then 1 else 0)
  {
    SizeLess(l.entries, row.rid);
    assert row.rid !in l.entries ==> l.entries - {row.rid} == l.entries;
  }

  lemma DeliverCancel(l: Loop, cancel: seq<Rid>, row: Row)
    requires row.rid !in Elems(cancel)
    ensures DeliverRow(l, cancel, row).1 ==
            if row.rid in l.entries && row.hungUp && !row.finished then cancel + [row.rid] else cancel
  {
    assert (cancel + [row.rid])[..|cancel|] == cancel;
    assert cancel != [] ==> cancel[|cancel| - 1] in Elems(cancel);
  }

  lemma DeliverIds(l: Loop, cancel: seq<Rid>, row: Row)
    requires LoopOk(l)
    ensures LoopOk(DeliverRow(l, cancel, row).0)
  {
    hide Ok, Tracks;
    var m := DeliverRow(l, cancel, row).0;
    forall k
      ensures IdOk(m, k)
    {
      assert IdOk(l, k);
    }
  }

  lemma ElemsMore(ids: seq<Rid>, k: Rid)
    ensures Elems(ids + [k]) == Elems(ids) + {k}
    ensures Distinct(ids) && k !in Elems(ids) ==> Distinct(ids + [k])
  {
    assert (ids + [k])[..|ids|] == ids;
  }

  lemma {:induction false} DeliverCounts(l: Loop, rows: seq<Row>)
    requires LoopOk(l) && OneRowEach(rows)
    ensures var (m, cancel) := Deliver(l, rows);
            && LoopOk(m) && m.ext == l.ext
            && (forall k :: k in m.entries <==> k in l.entries && k !in Finished(rows))
            && |m.entries| + Leaving(l.entries, rows) == |l.entries|
            && Distinct(cancel) && (forall k :: k in Elems(cancel) <==> k in HungUp(rows) && k in l.entries)
  {
    if rows != [] {
      var rest, row := rows[..|rows| - 1], rows[|rows| - 1];
      DeliverCounts(l, rest);
      RowsAre(rest, row.rid);
      hide LoopOk, DeliverRow, Distinct;
      var (m, c) := Deliver(l, rest);
      DeliverOne(m, c, row);
      ElemsMore(c, row.rid);
    }
  }

  lemma {:induction false} RowsAre(rows: seq<Row>, k: Rid)
    requires forall i | 0 <= i < |rows| :: rows[i].rid != k
    ensures k !in Finished(rows) && k !in HungUp(rows)
  {
    if rows != [] {
      var rest := rows[..|rows| - 1];
      assert forall i | 0 <= i < |rest| :: rest[i] == rows[i];
      RowsAre(rest, k);
    }
  }

  /** Id k has moved from l's entries to the exception context of m if it is in `gone`, and nowhere
      otherwise. */
  ghost predicate MovedId(l: Loop, m: Loop, gone: set<Rid>, k: Rid) {
    && (k in m.entries <==> k in l.entries && k !in gone)
    && (k in m.ext.entries <==> k in l.ext.entries || k in gone)
    && (Tracks(m.ext, k) <==> Tracks(l.ext, k) || k in gone)
  }

  ghost predicate Moved(l: Loop, m: Loop, gone: set<Rid>) {
    && (forall k {:trigger MovedId(l, m, gone, k)} :: MovedId(l, m, gone, k))
    && Held(m) == Held(l)
  }

  lemma MovedTrans(l: Loop, m: Loop, n: Loop, a: set<Rid>, b: set<Rid>, c: set<Rid>)
    requires Moved(l, m, a) && Moved(m, n, b) && c == a + b
    ensures Moved(l, n, c)
  {
    hide Tracks, Held;
    forall k
      ensures MovedId(l, n, c, k)
    {
      assert MovedId(l, m, a, k) && MovedId(m, n, b, k);
    }
  }

  lemma SameHeld(l: Loop, m: Loop, k: Rid)
    requires k in l.entries && k !in l.ext.entries
    requires m.entries == l.entries - {k} && m.ext.entries == l.ext.entries[k := l.entries[k]]
    ensures Held(m) == Held(l)
  {
    SizeLess(l.entries, k);
    SizeMore(l.ext.entries, k, l.entries[k]);
  }

  lemma WithdrawIs(l: Loop, k: Rid, fault: bool)
    requires Ok(l.ext) && k in l.entries && l.entries[k].rid == k && !Tracks(l.ext, k)
    ensures var m := Withdraw(l, k, fault);
            && m.entries == l.entries - {k} && m.ext.entries == l.ext.entries[k := l.entries[k]]
            && m.phases == (if k in l.phases then l.phases[k := Excepted] else l.phases)
            && Ok(m.ext) && (forall j :: Tracks(m.ext, j) <==> Tracks(l.ext, j) || j == k)
  {
    PutNew(l.ext, if fault then Fault(k, l.entries[k]) else Abort(k, l.entries[k]));
  }

  lemma WithdrawId(l: Loop, m: Loop, k: Rid, j: Rid)
    requires k in l.entries && l.entries[k].rid == k && IdOk(l, j)
    requires m.entries == l.entries - {k} && m.ext.entries == l.ext.entries[k := l.entries[k]]
    requires m.phases == if k in l.phases then l.phases[k := Excepted] else l.phases
    requires Tracks(m.ext, j) <==> Tracks(l.ext, j) || j == k
    ensures IdOk(m, j) && MovedId(l, m, {k}, j)
  {
    hide Tracks;
  }

  lemma WithdrawKeeps(l: Loop, k: Rid, fault: bool)
    requires LoopOk(l) && k in l.entries
    ensures LoopOk(Withdraw(l, k, fault)) && Moved(l, Withdraw(l, k, fault), {k})
  {
    assert IdOk(l, k);
    WithdrawIs(l, k, fault);
    var m := Withdraw(l, k, fault);
    hide Withdraw, Ok, Tracks, Held;
    SameHeld(l, m, k);
    hide IdOk, MovedId;
    forall j
      ensures IdOk(m, j) && MovedId(l, m, {k}, j)
    {
      assert IdOk(l, j);
      WithdrawId(l, m, k, j);
    }
  }

  lemma {:induction false} AbortAllKeeps(l: Loop, cancel: seq<Rid>)
    requires LoopOk(l) && Distinct(cancel) && forall k | k in Elems(cancel) :: k in l.entries
    ensures LoopOk(AbortAll(l, cancel)) && Moved(l, AbortAll(l, cancel), Elems(cancel))
    decreases |cancel|
  {
    hide LoopOk, Withdraw, Tracks, Held;
    if cancel == [] {
      assert forall k :: MovedId(l, l, {}, k);
    } else {
      var k, rest := cancel[|cancel| - 1], cancel[..|cancel| - 1];
      var m := Withdraw(l, k, false);
      WithdrawKeeps(l, k, false);
      forall j | j in Elems(rest)
        ensures j in m.entries
      {
        assert MovedId(l, m, {k}, j);
      }
      AbortAllKeeps(m, rest);
      MovedTrans(l, m, AbortAll(m, rest), {k}, Elems(rest), Elems(cancel));
    }
  }

  /** The reported faults that are not skipped. */
  function Unskipped(faults: seq<Rid>, skip: seq<Rid>): set<Rid> {
    if faults == [] then {}
    else
      var k := faults[|faults| - 1];
      Unskipped(faults[..|faults| - 1], skip) + if k in skip then {} else {k}
  }

  lemma {:induction false} UnskippedAre(faults: seq<Rid>, skip: seq<Rid>, k: Rid)
    ensures k in Unskipped(faults, skip) <==> k in Elems(faults) && k !in skip
  {
    if faults != [] {
      UnskippedAre(faults[..|faults| - 1], skip, k);
    }
  }

  lemma {:induction false} FaultAllKeeps(l: Loop, faults: seq<Rid>, skip: seq<Rid>)
    requires LoopOk(l) && Distinct(faults) && forall k | k in Unskipped(faults, skip) :: k in l.entries
    ensures LoopOk(FaultAll(l, faults, skip)) && Moved(l, FaultAll(l, faults, skip), Unskipped(faults, skip))
    decreases |faults|
  {
    hide LoopOk, Withdraw, Tracks, Held;
    if faults == [] {
      assert forall k :: MovedId(l, l, {}, k);
    } else {
      var k, rest := faults[|faults| - 1], faults[..|faults| - 1];
      FaultAllKeeps(l, rest, skip);
      var m := FaultAll(l, rest, skip);
      if k !in skip {
        assert MovedId(l, m, Unskipped(rest, skip), k);
        UnskippedAre(rest, skip, k);
        WithdrawKeeps(m, k, true);
        MovedTrans(l, m, Withdraw(m, k, true), Unskipped(rest, skip), {k}, Unskipped(faults, skip));
      } else {
        assert Unskipped(faults, skip) == Unskipped(rest, skip);
      }
    }
  }

  lemma TermOne(l: Loop, k: Rid)
    requires LoopOk(l) && Tracks(l.ext, k)
    ensures var (x, out) := Put(l.ext, Term(k));
            var m := Loop(l.entries, l.phases - {k}, x);
            && LoopOk(m) && Held(m) + (if out.Some? then 1 else 0) == Held(l)
            && x.entries.Keys == l.ext.entries.Keys - {k}
            && (forall j :: Tracks(x, j) <==> Tracks(l.ext, j) && j != k)
  {
    PutTerm(l.ext, k);
    hide Ok, Tracks, Put, IdOk, LoopOk;
    SizeLess(l.ext.entries, k);
    TermIds(l, k, Put(l.ext, Term(k)).0);
  }

  lemma TermIds(l: Loop, k: Rid, x: Ext)
    requires LoopOk(l) && Tracks(l.ext, k) && Ok(x) && x.entries == l.ext.entries - {k}
    requires forall j :: Tracks(x, j) <==> Tracks(l.ext, j) && j != k
    ensures LoopOk(Loop(l.entries, l.phases - {k}, x))
  {
    hide Ok, Tracks;
    var m := Loop(l.entries, l.phases - {k}, x);
    assert IdOk(l, k);
    forall j
      ensures IdOk(m, j)
    {
      assert IdOk(l, j);
    }
  }

  lemma {:induction false} TermAllCounts(l: Loop, terms: seq<Rid>)
    requires LoopOk(l) && Distinct(terms) && forall k | k in Elems(terms) :: Tracks(l.ext, k)
    ensures var (m, n) := TermAll(l, terms);
            && LoopOk(m) && Held(m) + n == Held(l) && m.entries == l.entries
            && m.ext.entries.Keys == l.ext.entries.Keys - Elems(terms)
            && (forall k :: Tracks(m.ext, k) <==> Tracks(l.ext, k) && k !in Elems(terms))
    decreases |terms|
  {
    hide LoopOk, Put, Held;
    if terms != [] {
      TermAllCounts(l, terms[..|terms| - 1]);
      TermOne(TermAll(l, terms[..|terms| - 1]).0, terms[|terms| - 1]);
    }
  }

  lemma CleanUpCounts(l: Loop)
    requires LoopOk(l)
    ensures var (m, n) := CleanUp(l);
            && LoopOk(m) && Held(m) + n == Held(l) && m.entries == l.entries
            && m.ext.entries.Keys == l.ext.entries.Keys - Ready(l.ext.states)
               && Ready(l.ext.states) <= l.ext.entries.Keys
            && (forall k | Tracks(m.ext, k) :: Tracks(l.ext, k))
  {
    CleanKeeps(l.ext);
    Subsets(l.ext.states);
    var m := CleanUp(l).0;
    assert |m.ext.entries| == |m.ext.entries.Keys| && |l.ext.entries| == |l.ext.entries.Keys|;
    EntriesTracked(m.ext);
    forall k
      ensures IdOk(m, k)
    {
      assert IdOk(l, k);
    }
  }

  /** What fast and slow path have done to id k. */
  ghost predicate DeliveredId(l: Loop, m: Loop, cancel: seq<Rid>, r: Report, k: Rid) {
    && (k in m.entries <==> k in l.entries && k !in Finished(r.rows))
    && (k in m.ext.entries <==> k in l.ext.entries && k !in Finished(r.rows))
    && (Tracks(m.ext, k) <==> Tracks(l.ext, k))
    && (k in Elems(cancel) <==> k in HungUp(r.rows) && k in l.entries)
  }

  ghost predicate Delivered(l: Loop, m: Loop, cancel: seq<Rid>, r: Report) {
    forall k {:trigger DeliveredId(l, m, cancel, r, k)} :: DeliveredId(l, m, cancel, r, k)
  }

  /** Fast and slow path: the requests counted are those that leave. */
  lemma FirstHalf(l: Loop, r: Report)
    requires LoopOk(l) && Expected(l, r)
    ensures var (x, n) := Tally(l, r.rows);
            var (m, cancel) := Deliver(l.(ext := x), r.rows);
            LoopOk(m) && Held(m) + n == Held(l) && Distinct(cancel) && Delivered(l, m, cancel, r)
  {
    hide LoopOk, Tracks, Tally, Deliver, Distinct, OneRowEach, Finished, HungUp, Elems, Delivered, Ok;
    TallyCounts(l, r.rows);
    var (x, n) := Tally(l, r.rows);
    TalliedOk(l, x);
    DeliverCounts(l.(ext := x), r.rows);
    var (m, cancel) := Deliver(l.(ext := x), r.rows);
    DeliveredAll(l, m, cancel, r);
  }

  lemma DeliveredAll(l: Loop, m: Loop, cancel: seq<Rid>, r: Report)
    requires forall k :: k in m.entries <==> k in l.entries && k !in Finished(r.rows)
    requires forall k :: k in m.ext.entries <==> k in l.ext.entries && k !in Finished(r.rows)
    requires forall k :: Tracks(m.ext, k) <==> Tracks(l.ext, k)
    requires forall k :: k in Elems(cancel) <==> k in HungUp(r.rows) && k in l.entries
    ensures Delivered(l, m, cancel, r)
  {
    hide Tracks, Finished, HungUp, Elems;
    forall k
      ensures DeliveredId(l, m, cancel, r, k)
    {
    }
  }

  /** Abortions, faults, terminations and the cleanup: likewise. */
  lemma SecondHalf(l: Loop, m: Loop, cancel: seq<Rid>, r: Report)
    requires Expected(l, r) && LoopOk(m) && Distinct(cancel) && Delivered(l, m, cancel, r)
    ensures var l2 := FaultAll(AbortAll(m, cancel), r.faults, cancel);
            var (l3, n3) := TermAll(l2, r.terms);
            var (l4, n4) := CleanUp(l3);
            && LoopOk(l4) && Held(l4) + n3 + n4 == Held(m)
            && HeldIds(l4) == HeldIds(m) - (l2.ext.entries.Keys * Elems(r.terms)) - Ready(l3.ext.states)
            && (l2.ext.entries.Keys * Elems(r.terms)) + Ready(l3.ext.states) <= HeldIds(m)
            && (forall k | Tracked(l4, k) :: Tracked(l, k))
  {
    hide LoopOk, Tracks, AbortAll, FaultAll, TermAll, CleanUp, Distinct, OneRowEach, Moved, Expected, Delivered,
         HeldIds, Held,
      Tracked, Unskipped, Elems, Ready;
    AbortsHeld(l, m, cancel, r);
    AbortAllKeeps(m, cancel);
    var l1 := AbortAll(m, cancel);
    FaultsHeld(l, m, l1, r, cancel);
    FaultAllKeeps(l1, r.faults, cancel);
    var l2 := FaultAll(l1, r.faults, cancel);
    HeldMoved(m, l1, Elems(cancel));
    HeldMoved(l1, l2, Unskipped(r.faults, cancel));
    TermsTracked(l, m, l1, l2, r, cancel);
    NothingNew(l, m, l1, l2, r, cancel);
    EndCounts(l2, r.terms);
  }

  lemma EndSets(held: set<Rid>, excepted: set<Rid>, termed: set<Rid>, ready: set<Rid>)
    requires held !! excepted && ready <= excepted - termed
    ensures held + (excepted - termed - ready) == held + excepted - (excepted * termed) - ready
    ensures (excepted * termed) + ready <= held + excepted
  {
  }

  /** Terminations and the cleanup. */
  lemma EndCounts(l: Loop, terms: seq<Rid>)
    requires LoopOk(l) && Distinct(terms) && forall k | k in Elems(terms) :: Tracks(l.ext, k)
    ensures var (l3, n3) := TermAll(l, terms);
            var (l4, n4) := CleanUp(l3);
            && LoopOk(l4) && Held(l4) + n3 + n4 == Held(l)
            && HeldIds(l4) == HeldIds(l) - (l.ext.entries.Keys * Elems(terms)) - Ready(l3.ext.states)
            && (l.ext.entries.Keys * Elems(terms)) + Ready(l3.ext.states) <= HeldIds(l)
            && (forall k | Tracked(l4, k) :: Tracked(l, k))
  {
    hide LoopOk, Tracks, TermAll, CleanUp, Distinct, Held, HeldIds, Elems, Ready;
    TermAllCounts(l, terms);
    var l3 := TermAll(l, terms).0;
    CleanUpCounts(l3);
    HeldApart(l);
    EndSets(l.entries.Keys, l.ext.entries.Keys, Elems(terms), Ready(l3.ext.states));
    HeldUnion(l);
    HeldUnion(CleanUp(l3).0);
  }

  lemma HeldUnion(l: Loop)
    ensures HeldIds(l) == l.entries.Keys + l.ext.entries.Keys
  {
  }

  /** The requests the first decrement counts out: finished ones. */
  ghost function OutFirst(l: Loop, handed: seq<Entry>, r: Report): set<Rid> {
    HeldIds(Intake(l, handed)) * Finished(r.rows)
  }

  /** The requests the second decrement counts out: ones whose abortion the backend acknowledges, and faulted
      ones whose trace the cleanup drops. */
  ghost function OutLast(m: Loop, p: Pending): set<Rid> {
    var l := BeforeTerms(m, p);
    (l.ext.entries.Keys * Elems(p.report.terms)) + Ready(TermAll(l, p.report.terms).0.ext.states)
  }

  /** All the requests a turn counts out. */
  ghost function Out(l: Loop, handed: seq<Entry>, r: Report): set<Rid> {
    var (m, p, n1) := Opened(l, handed, r);
    OutFirst(l, handed, r) + OutLast(m, p)
  }

  lemma LessOut(a: set<Rid>, out: set<Rid>)
    requires out <= a
    ensures |a - out| == |a| - |out| && (a - out) + out == a
  {
    assert a == (a - out) + out;
  }

  /** Between its two decrements a turn has delivered the report to the loop that absorbed it. */
  ghost predicate MidOk(m: Loop, p: Pending) {
    LoopOk(m) && Expected(p.taken, p.report) && Distinct(p.cancel) && Delivered(p.taken, m, p.cancel, p.report)
  }

  /** The first half of a turn counts out exactly the requests that leave in it, each once. */
  lemma OpenedConserves(l: Loop, handed: seq<Entry>, r: Report)
    requires LoopOk(l) && New(l, handed) && Expected(Intake(l, handed), r)
    ensures var (m, p, n1) := Opened(l, handed, r);
            && MidOk(m, p) && Held(m) + n1 == Held(l) + |handed|
            && HeldIds(m) + OutFirst(l, handed, r) == HeldIds(l) + Rids(handed) && HeldIds(m) !! OutFirst(l, handed, r)
            && |OutFirst(l, handed, r)| == n1
            && (forall k | Tracked(p.taken, k) :: Tracked(l, k) || k in Rids(handed))
  {
    hide LoopOk, Tracks, Intake, Tally, Deliver, Delivered, Expected, Held, HeldIds, Tracked, Finished, Rids, Distinct;
    IntakeKeeps(l, handed);
    IntakeIds(l, handed);
    var l1 := Intake(l, handed);
    FirstHalf(l1, r);
    var (m, p, n1) := Opened(l, handed, r);
    DeliveredHeld(l1, m, p.cancel, r);
    HeldApart(l1);
    HeldApart(m);
    LessOut(HeldIds(l1), OutFirst(l, handed, r));
    assert HeldIds(m) == HeldIds(l1) - OutFirst(l, handed, r);
  }

  /** So does the second half. */
  lemma ClosedConserves(m: Loop, p: Pending)
    requires MidOk(m, p)
    ensures var (l, n2) := Closed(m, p);
            && LoopOk(l) && Held(l) + n2 == Held(m)
            && HeldIds(l) + OutLast(m, p) == HeldIds(m) && HeldIds(l) !! OutLast(m, p) && |OutLast(m, p)| == n2
            && (forall k | Tracked(l, k) :: Tracked(p.taken, k))
  {
    hide LoopOk, Tracks, TermAll, CleanUp, AbortAll, FaultAll, Delivered, Expected, Held, HeldIds, Tracked, Elems,
         Ready, Distinct;
    SecondHalf(p.taken, m, p.cancel, p.report);
    var (l, n2) := Closed(m, p);
    HeldApart(m);
    HeldApart(l);
    LessOut(HeldIds(m), OutLast(m, p));
    assert HeldIds(l) == HeldIds(m) - OutLast(m, p);
  }

  /** A turn counts out exactly the requests that leave, each once: the ids held before and the ids newly
      handed in are, without overlap, the ids held after and the ids counted out. It keeps the loop's
      invariant, and has no trace of an id that it did not have or take in. */
  lemma StepConserves(l: Loop, handed: seq<Entry>, r: Report)
    requires LoopOk(l) && New(l, handed) && Expected(Intake(l, handed), r)
    ensures var (m, n1, n2) := Step(l, handed, r);
            && LoopOk(m) && Held(m) + n1 + n2 == Held(l) + |handed|
            && HeldIds(m) + Out(l, handed, r) == HeldIds(l) + Rids(handed) && HeldIds(m) !! Out(l, handed, r)
            && |Out(l, handed, r)| == n1 + n2
            && (forall k | Tracked(m, k) :: Tracked(l, k) || k in Rids(handed))
  {
    hide Opened, Closed, LoopOk, New, Expected, Held, HeldIds, Tracked, Rids, MidOk, OutFirst, OutLast, Intake;
    OpenedConserves(l, handed, r);
    var (m, p, n1) := Opened(l, handed, r);
    ClosedConserves(m, p);
    TwoOuts(HeldIds(m), HeldIds(Closed(m, p).0), OutFirst(l, handed, r), OutLast(m, p));
  }

  lemma TwoOuts(m: set<Rid>, l: set<Rid>, a: set<Rid>, b: set<Rid>)
    requires m !! a && l + b == m && l !! b
    ensures l + (a + b) == m + a && l !! a + b && |a + b| == |a| + |b|
  {
    assert a !! b;
  }

  lemma IntakeIds(l: Loop, handed: seq<Entry>)
    requires LoopOk(l) && New(l, handed)
    ensures HeldIds(Intake(l, handed)) == HeldIds(l) + Rids(handed)
    ensures forall k | Tracked(Intake(l, handed), k) :: Tracked(l, k) || k in Rids(handed)
  {
    IntakeKeeps(l, handed);
  }

  lemma DeliveredHeld(l: Loop, m: Loop, cancel: seq<Rid>, r: Report)
    requires Delivered(l, m, cancel, r)
    ensures HeldIds(m) == HeldIds(l) - Finished(r.rows)
  {
    forall k
      ensures k in HeldIds(m) <==> k in HeldIds(l) - Finished(r.rows)
    {
      assert DeliveredId(l, m, cancel, r, k);
    }
  }

  lemma HeldMoved(l: Loop, m: Loop, gone: set<Rid>)
    requires Moved(l, m, gone) && gone <= l.entries.Keys
    ensures Held(m) == Held(l) && HeldIds(m) == HeldIds(l)
  {
    forall k
      ensures k in HeldIds(m) <==> k in HeldIds(l)
    {
      assert MovedId(l, m, gone, k);
    }
  }

  lemma AbortsHeld(l: Loop, m: Loop, cancel: seq<Rid>, r: Report)
    requires Expected(l, r) && Delivered(l, m, cancel, r)
    ensures forall k | k in Elems(cancel) :: k in m.entries
  {
    HungUpStay(r.rows);
    forall k | k in Elems(cancel)
      ensures k in m.entries
    {
      assert DeliveredId(l, m, cancel, r, k);
    }
  }

  /** After the abortions, the remaining faults concern requests still held. */
  lemma FaultsHeld(l: Loop, m: Loop, l1: Loop, r: Report, cancel: seq<Rid>)
    requires Expected(l, r) && Delivered(l, m, cancel, r) && Moved(m, l1, Elems(cancel))
    ensures Distinct(r.faults) && forall k | k in Unskipped(r.faults, cancel) :: k in l1.entries
  {
    forall k | k in Unskipped(r.faults, cancel)
      ensures k in l1.entries
    {
      UnskippedAre(r.faults, cancel, k);
      ElemsAre(cancel, k);
      assert DeliveredId(l, m, cancel, r, k) && MovedId(m, l1, Elems(cancel), k);
    }
  }

  /** After the faults, the acknowledged terminations concern requests in the exception context. */
  lemma TermsTracked(l: Loop, m: Loop, l1: Loop, l2: Loop, r: Report, cancel: seq<Rid>)
    requires Expected(l, r) && Delivered(l, m, cancel, r)
    requires Moved(m, l1, Elems(cancel)) && Moved(l1, l2, Unskipped(r.faults, cancel))
    ensures Distinct(r.terms) && forall k | k in Elems(r.terms) :: Tracks(l2.ext, k)
  {
    hide Tracks;
    forall k | k in Elems(r.terms)
      ensures Tracks(l2.ext, k)
    {
      UnskippedAre(r.faults, cancel, k);
      ElemsAre(cancel, k);
      assert DeliveredId(l, m, cancel, r, k);
      assert MovedId(m, l1, Elems(cancel), k) && MovedId(l1, l2, Unskipped(r.faults, cancel), k);
    }
  }

  lemma NothingNew(l: Loop, m: Loop, l1: Loop, l2: Loop, r: Report, cancel: seq<Rid>)
    requires Expected(l, r) && Delivered(l, m, cancel, r)
    requires Moved(m, l1, Elems(cancel)) && Moved(l1, l2, Unskipped(r.faults, cancel))
    ensures forall k | Tracked(l2, k) :: Tracked(l, k)
  {
    hide Tracks;
    forall k | Tracked(l2, k)
      ensures Tracked(l, k)
    {
      UnskippedAre(r.faults, cancel, k);
      assert DeliveredId(l, m, cancel, r, k);
      assert MovedId(m, l1, Elems(cancel), k) && MovedId(l1, l2, Unskipped(r.faults, cancel), k);
    }
  }

  lemma {:induction false} HungUpStay(rows: seq<Row>)
    requires OneRowEach(rows)
    ensures forall k | k in HungUp(rows) :: k !in Finished(rows)
  {
    if rows != [] {
      var rest := rows[..|rows| - 1];
      HungUpStay(rest);
      RowsAre(rest, rows[|rows| - 1].rid);
    }
  }

  // ---------- The loop in place ----------

  lemma {:induction false} FinishedPrefix(rows: seq<Row>, i: nat)
    requires i <= |rows|
    ensures forall k | k in Finished(rows[..i]) :: k in Finished(rows)
    decreases |rows|
  {
    if i < |rows| {
      FinishedPrefix(rows[..|rows| - 1], i);
      assert rows[..|rows| - 1][..i] == rows[..i];
    } else {
      assert rows[..i] == rows;
    }
  }

  /** A row of a finished request finds it among the held requests or in the exception context. */
  lemma RowHandled(l: Loop, rows: seq<Row>, i: nat)
    requires LoopOk(l) && i < |rows| && forall k | k in Finished(rows) :: Tracked(l, k)
    ensures rows[i].finished && rows[i].rid !in l.entries ==> Handled(Tally(l, rows[..i]).0, Exit(rows[i].rid))
  {
    FinishedPrefix(rows, i);
    FinishedPrefix(rows, i + 1);
    assert rows[..i + 1][..i] == rows[..i];
    assert rows[i].finished ==> rows[i].rid in Finished(rows[..i + 1]);
    TallyCounts(l, rows[..i]);
  }

  function SatSub(a: nat, b: nat): nat {
    if b <= a then a - b else 0
  }

  class CompletionLoop {
    var entries: map<Rid, Entry>
    var phases: map<Rid, Phase>
    const except: ExtContext

    function Value(): Loop
      reads this, except
    {
      Loop(entries, phases, except.Value())
    }

    constructor ()
      ensures Value() == Loop(map[], map[], Ext(map[], [])) && LoopOk(Value())
      ensures fresh(except)
    {
      entries, phases := map[], map[];
      except := new ExtContext();
    }

    /** One turn of the loop: takes up what the work loop has handed over, absorbs a report, and returns the
        replica's batch size after it. */
    method OnStep(handed: seq<Entry>, r: Report, bs0: nat) returns (bs: nat)
      requires LoopOk(Value()) && New(Value(), handed) && Expected(Intake(Value(), handed), r)
      modifies this, except
      ensures LoopOk(Value())
      ensures var (m, n1, n2) := Step(old(Value()), handed, r);
              Value() == m && bs == SatSub(SatSub(bs0, n1), n2)
    {
      hide LoopOk, New, Intake, Tally, Deliver, AbortAll, FaultAll, TermAll, CleanUp, Distinct, Expected, Delivered;
      ghost var l0 := Value();
      StepConserves(l0, handed, r);
      IntakeKeeps(l0, handed);
      TakeUp(handed);
      var n, cancel := FirstPaths(r);
      bs := SatSub(bs0, n);
      var n2 := Exceptions(Intake(l0, handed), r, cancel);
      bs := SatSub(bs, n2);
    }

    /** Fast and slow path. */
    method FirstPaths(r: Report) returns (n: nat, cancel: seq<Rid>)
      requires LoopOk(Value()) && Expected(Value(), r)
      modifies this, except
      ensures var l := old(Value());
              var (x, n') := Tally(l, r.rows);
              n == n' && (Value(), cancel) == Deliver(l.(ext := x), r.rows)
      ensures LoopOk(Value()) && Distinct(cancel) && Delivered(old(Value()), Value(), cancel, r)
    {
      hide LoopOk, Tally, Deliver, Distinct, Delivered, OneRowEach;
      FirstHalf(Value(), r);
      n := TallyRows(r.rows);
      cancel := DeliverRows(r.rows);
    }

    /** Abortions, faults, terminations and the cleanup. */
    method Exceptions(ghost l: Loop, r: Report, cancel: seq<Rid>) returns (n: nat)
      requires LoopOk(Value()) && Expected(l, r) && Distinct(cancel) && Delivered(l, Value(), cancel, r)
      modifies this, except
      ensures var (l3, n3) := TermAll(FaultAll(AbortAll(old(Value()), cancel), r.faults, cancel), r.terms);
              var (l4, n4) := CleanUp(l3);
              Value() == l4 && n == n3 + n4
    {
      hide LoopOk, AbortAll, FaultAll, TermAll, CleanUp, Distinct, Moved, Expected, Delivered;
      ghost var m := Value();
      AbortsHeld(l, m, cancel, r);
      AbortAllKeeps(m, cancel);
      OnFrontendAbort(cancel);
      ghost var l1 := Value();
      FaultsHeld(l, m, l1, r, cancel);
      FaultAllKeeps(l1, r.faults, cancel);
      OnBackendFault(r.faults, cancel);
      ghost var l2 := Value();
      TermsTracked(l, m, l1, l2, r, cancel);
      TermAllCounts(l2, r.terms);
      var n3 := OnTerm(r.terms);
      var n4 := EndCycle();
      n := n3 + n4;
    }

    method TakeUp(handed: seq<Entry>)
      modifies this
      ensures Value() == Intake(old(Value()), handed)
    {
      for i := 0 to |handed|
        invariant Value() == Intake(old(Value()), handed[..i])
      {
        assert handed[..i + 1][..i] == handed[..i];
        entries, phases := entries[handed[i].rid := handed[i]], phases[handed[i].rid := Waiting];
      }
      assert handed[..|handed|] == handed;
    }

    method TallyRows(rows: seq<Row>) returns (n: nat)
      requires LoopOk(Value()) && forall k | k in Finished(rows) :: Tracked(Value(), k)
      modifies except
      ensures (except.Value(), n) == Tally(old(Value()), rows)
    {
      hide LoopOk, Put, Tracked;
      n := 0;
      for i := 0 to |rows|
        invariant (except.Value(), n) == Tally(old(Value()), rows[..i])
      {
        assert rows[..i + 1][..i] == rows[..i];
        RowHandled(old(Value()), rows, i);
        if rows[i].finished {
          if rows[i].rid in entries {
            n := n + 1;
          } else {
            var out := except.PutEvent(Exit(rows[i].rid));
            if out.Some? {
              n := n + 1;
            }
          }
        }
      }
      assert rows[..|rows|] == rows;
    }

    method DeliverRows(rows: seq<Row>) returns (cancel: seq<Rid>)
      modifies this
      ensures (Value(), cancel) == Deliver(old(Value()), rows)
    {
      hide DeliverRow;
      cancel := [];
      for i := 0 to |rows|
        invariant (Value(), cancel) == Deliver(old(Value()), rows[..i])
      {
        assert rows[..i + 1][..i] == rows[..i];
        cancel := OnRow(rows[i], cancel);
      }
      assert rows[..|rows|] == rows;
    }

    method OnRow(row: Row, cancel0: seq<Rid>) returns (cancel: seq<Rid>)
      modifies this
      ensures (Value(), cancel) == DeliverRow(old(Value()), cancel0, row)
    {
      cancel := cancel0;
      if row.rid in phases {
        phases := phases[row.rid := Transition(phases[row.rid], row.decode)];
      }
      if row.rid in entries {
        if row.hungUp {
          cancel := cancel + [row.rid];
        }
        if row.finished {
          entries, phases := entries - {row.rid}, phases - {row.rid};
          if cancel != [] && cancel[|cancel| - 1] == row.rid {
            cancel := cancel[..|cancel| - 1];
          }
        }
      }
    }

    method OnFrontendAbort(cancel: seq<Rid>)
      requires LoopOk(Value()) && Distinct(cancel) && forall k | k in Elems(cancel) :: k in entries
      modifies this, except
      ensures Value() == AbortAll(old(Value()), cancel)
    {
      hide LoopOk, Withdraw, Put;
      var todo := cancel;
      while todo != []
        invariant LoopOk(Value()) && Distinct(todo) && forall k | k in Elems(todo) :: k in entries
        invariant AbortAll(Value(), todo) == AbortAll(old(Value()), cancel)
        decreases |todo|
      {
        var id, rest := todo[|todo| - 1], todo[..|todo| - 1];
        ghost var l := Value();
        WithdrawKeeps(l, id, false);
        WithdrawOne(id, false);
        forall k | k in Elems(rest)
          ensures k in entries
        {
          assert MovedId(l, Value(), {id}, k);
        }
        todo := rest;
      }
    }

    /** Moves one held request to the exception context. */
    method WithdrawOne(id: Rid, fault: bool)
      requires id in entries
      modifies this, except
      ensures Value() == Withdraw(old(Value()), id, fault)
    {
      hide Put;
      var entry := entries[id];
      entries := entries - {id};
      if id in phases {
        phases := phases[id := Excepted];
      }
      var out := except.PutEvent(if fault then Fault(id, entry) else Abort(id, entry));
    }

    method OnBackendFault(faults: seq<Rid>, skip: seq<Rid>)
      requires LoopOk(Value()) && Distinct(faults) && forall k | k in Unskipped(faults, skip) :: k in entries
      modifies this, except
      ensures Value() == FaultAll(old(Value()), faults, skip)
    {
      hide LoopOk, Withdraw;
      ghost var l0 := Value();
      for i := 0 to |faults|
        invariant Value() == FaultAll(l0, faults[..i], skip)
      {
        var id := faults[i];
        FaultInTurn(l0, faults, skip, i);
        if id !in skip {
          WithdrawOne(id, true);
        }
      }
      assert faults[..|faults|] == faults;
    }

    method OnTerm(terms: seq<Rid>) returns (n: nat)
      requires LoopOk(Value()) && Distinct(terms) && forall k | k in Elems(terms) :: Tracks(except.Value(), k)
      modifies this, except
      ensures (Value(), n) == TermAll(old(Value()), terms)
    {
      hide LoopOk, Put;
      n := 0;
      ghost var l0 := Value();
      for i := 0 to |terms|
        invariant (Value(), n) == TermAll(l0, terms[..i])
      {
        var id := terms[i];
        TermInTurn(l0, terms, i);
        phases := phases - {id};
        var out := except.PutEvent(Term(id));
        if out.Some? {
          n := n + 1;
        }
      }
      assert terms[..|terms|] == terms;
    }

    method EndCycle() returns (n: nat)
      requires LoopOk(Value())
      modifies this, except
      ensures (Value(), n) == CleanUp(old(Value()))
    {
      ghost var x := except.Value();
      var dropped := except.FilterDrop();
      DropsAre(x.states, x.entries);
      DropIdsAre(x.states, x.entries);
      ForgetPhases(dropped);
      n := |dropped|;
    }

    method ForgetPhases(dropped: seq<(Rid, Entry)>)
      modifies this`phases
      ensures phases == old(phases) - DropIds(dropped)
    {
      var todo := dropped;
      while todo != []
        invariant phases - DropIds(todo) == old(phases) - DropIds(dropped)
        decreases |todo|
      {
        assert phases - DropIds(todo) == phases - {todo[0].0} - DropIds(todo[1..]);
        phases := phases - {todo[0].0};
        todo := todo[1..];
      }
      assert phases - {} == phases;
    }
  }

  function DropIds(dropped: seq<(Rid, Entry)>): set<Rid> {
    if dropped == [] then {} else {dropped[0].0} + DropIds(dropped[1..])
  }

  lemma {:induction false} DropIdsAre(s: States, m: map<Rid, Entry>)
    requires Ready(s) <= m.Keys
    ensures DropIds(Drops(s, m)) == Ready(s)
  {
    if s != [] {
      DropIdsAre(s[1..], m);
    }
  }

  lemma {:induction false} PrefixElems(ids: seq<Rid>, i: nat)
    requires i <= |ids|
    ensures Elems(ids[..i]) <= Elems(ids) && (Distinct(ids) ==> Distinct(ids[..i]))
    decreases |ids|
  {
    if i < |ids| {
      PrefixElems(ids[..|ids| - 1], i);
      assert ids[..|ids| - 1][..i] == ids[..i];
    } else {
      assert ids[..i] == ids;
    }
  }

  /** When its turn comes, a fault that is not skipped concerns a request that is still held. */
  lemma FaultInTurn(l: Loop, faults: seq<Rid>, skip: seq<Rid>, i: nat)
    requires LoopOk(l) && Distinct(faults) && i < |faults| && forall k | k in Unskipped(faults, skip) :: k in l.entries
    ensures var m := FaultAll(l, faults[..i], skip);
            && FaultAll(l, faults[..i + 1], skip) == (if faults[i] in skip then m else Withdraw(m, faults[i], true))
            && (faults[i] !in skip ==> faults[i] in m.entries)
  {
    hide LoopOk, Withdraw;
    assert faults[..i + 1][..i] == faults[..i];
    PrefixElems(faults, i);
    PrefixElems(faults, i + 1);
    forall k
      ensures k in Unskipped(faults[..i], skip) <==> k in Elems(faults[..i]) && k !in skip
      ensures k in Unskipped(faults, skip) <==> k in Elems(faults) && k !in skip
    {
      UnskippedAre(faults[..i], skip, k);
      UnskippedAre(faults, skip, k);
    }
    FaultAllKeeps(l, faults[..i], skip);
    assert MovedId(l, FaultAll(l, faults[..i], skip), Unskipped(faults[..i], skip), faults[i]);
  }

  lemma TermInTurn(l: Loop, terms: seq<Rid>, i: nat)
    requires LoopOk(l) && Distinct(terms) && i < |terms| && forall k | k in Elems(terms) :: Tracks(l.ext, k)
    ensures var (m, n) := TermAll(l, terms[..i]);
            && Handled(m.ext, Term(terms[i]))
            && TermAll(l, terms[..i + 1]) ==
               (var (x, out) := Put(m.ext, Term(terms[i]));
                (Loop(m.entries, m.phases - {terms[i]}, x), if out.Some? then n + 1 else n))
  {
    hide LoopOk, Put;
    assert terms[..i + 1][..i] == terms[..i];
    PrefixElems(terms, i);
    PrefixElems(terms, i + 1);
    TermAllCounts(l, terms[..i]);
    assert Tracks(TermAll(l, terms[..i]).0.ext, terms[i]);
  }

}
