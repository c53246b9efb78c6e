/** The queued-prefill counter of one replica and how prediction errors leave it.

    An admission adds the tokens it expects to be uncached; each engine step takes off the tokens it
    prefilled and, for a request whose prefill is reported, the error of the prediction. */
module PrefillLedger {
  import opened Basics
  import opened Options
  import opened BlockHashes

  /** A PREFILL row of a step report. */
  datatype Row = Row(id: Rid, hitTokens: nat, finished: bool)

  /** Tokens a new request is expected to prefill; the subtraction saturates. */
  function NewTokens(inputLen: nat, pred: nat): nat {
    if BLOCK * pred <= inputLen then inputLen - BLOCK * pred else 0
  }

  /** The prediction is a number of matched hashes of the prompt, so it never saturates. */
  lemma NeverSaturates(mix: Mix, input: seq<Token>, pred: nat)
    requires pred <= |Hashed(mix, input, BLOCK, SEED)|
    ensures NewTokens(|input|, pred) == |input| - BLOCK * pred
  {
    FullBlocksHashed(mix, input, SEED);
  }

  /** Sum of the prediction errors, in tokens, of the known requests that are reported unfinished. */
  function Errors(pred: map<Rid, nat>, rows: seq<Row>): int {
    if rows == [] then 0
    else
      (if !rows[0].finished && rows[0].id in pred then rows[0].hitTokens - BLOCK * pred[rows[0].id] else 0)
      + Errors(pred, rows[1..])
  }

  class PrefillCounter {
    var prefillTokens: int
    var entries: map<Rid, BlockHashState>

    ghost predicate Valid()
      reads this, entries.Values
    {
      forall id | id in entries :: entries[id].blockSize == BLOCK && entries[id].predHit.Some?
    }

    ghost function Predictions(): map<Rid, nat>
      reads this, entries.Values
      requires Valid()
    {
      map id | id in entries :: entries[id].predHit.value
    }

    constructor ()
      ensures Valid() && prefillTokens == 0 && entries == map[]
    {
      prefillTokens, entries := 0, map[];
    }

    /** The canonical mutation after a routing decision: record the prediction, queue the rest. */
    method ApplyDefaultAfter(id: Rid, state: BlockHashState, inputLen: nat, hits: nat)
      requires Valid() && id !in entries && state !in entries.Values
      requires state.blockSize == BLOCK && state.predHit == None
      modifies this, state`predHit
      ensures Valid() && entries == old(entries)[id := state]
      ensures Predictions() == old(Predictions())[id := hits]
      ensures prefillTokens == old(prefillTokens) + NewTokens(inputLen, hits)
    {
      state.SetPredBlockHits(hits);
      var cached := hits * state.blockSize;
      prefillTokens := prefillTokens + if cached <= inputLen then inputLen - cached else 0;
      entries := entries[id := state];
    }

    /** One step report: the prefilled tokens come off, and with them the error of each prediction
        that this report settles. */
    method OnStep(stepTokens: nat, rows: seq<Row>)
      requires Valid()
      requires forall i | 0 <= i < |rows| && !rows[i].finished && rows[i].id in entries ::
                 rows[i].hitTokens % BLOCK == 0
      modifies this`prefillTokens, set s | s in entries.Values :: s`realHit, set s | s in entries.Values :: s`syncNblks
      ensures Valid() && Predictions() == old(Predictions())
      ensures prefillTokens == old(prefillTokens) - stepTokens - Errors(Predictions(), rows)
    {
      var dec: int := stepTokens;
      for i := 0 to |rows|
        invariant Valid() && Predictions() == old(Predictions()) && prefillTokens == old(prefillTokens)
        invariant dec + Errors(Predictions(), rows[i..]) == stepTokens + Errors(Predictions(), rows)
      {
        var row := rows[i];
        assert rows[i..][0] == row && rows[i..][1..] == rows[i + 1..];
        if !row.finished && row.id in entries {
          assert row.id in entries.Keys && entries[row.id] in entries.Values;
          var diff := entries[row.id].SetRealTokenHitsGetDiff(row.hitTokens);
          dec := dec + diff * BLOCK;
        }
      }
      prefillTokens := prefillTokens - dec;
    }
  }

  // ---------- Whole runs ----------

  /** A request whose prefill has not been reported yet, with the prefill already done for it. */
  datatype Pending = Pending(id: Rid, input: nat, pred: nat, done: nat)

  /** The counter beside what it stands for: the unreported requests, and the errors of the requests
      that finished in their prefill report. */
  datatype Ledger = Ledger(tokens: int, open: seq<Pending>, residue: int)

  /** An admission, or a step that prefills some tokens of some requests and reports others. */
  datatype Event = Admit(id: Rid, input: nat, pred: nat) | Step(chunks: seq<(Rid, nat)>, rows: seq<Row>)

  function Missing(p: Pending): int {
    NewTokens(p.input, p.pred) - p.done
  }

  function AllMissing(open: seq<Pending>): int {
    if open == [] then 0 else Missing(open[0]) + AllMissing(open[1..])
  }

  predicate Has(open: seq<Pending>, id: Rid) {
    exists i :: 0 <= i < |open| && open[i].id == id
  }

  function Find(open: seq<Pending>, id: Rid): (p: Pending)
    requires Has(open, id)
    ensures p.id == id && p in open
  {
    if open[0].id == id then open[0] else Find(open[1..], id)
  }

  function Bump(open: seq<Pending>, id: Rid, n: nat): seq<Pending> {
    if open == [] then []
    else if open[0].id == id then [open[0].(done := open[0].done + n)] + open[1..]
    else [open[0]] + Bump(open[1..], id, n)
  }

  function Close(open: seq<Pending>, id: Rid): seq<Pending> {
    if open == [] then []
    else if open[0].id == id then open[1..]
    else [open[0]] + Close(open[1..], id)
  }

  function ChunkSum(chunks: seq<(Rid, nat)>): nat {
    if chunks == [] then 0 else chunks[0].1 + ChunkSum(chunks[1..])
  }

  function Worked(open: seq<Pending>, chunks: seq<(Rid, nat)>): seq<Pending>
    decreases |chunks|
  {
    if chunks == [] then open else Worked(Bump(open, chunks[0].0, chunks[0].1), chunks[1..])
  }

  /** What the reports of one step do: close their requests, correct the counter for an unfinished
      one, and leave the error of a finished one behind. */
  function Reported(l: Ledger, rows: seq<Row>): Ledger
    decreases |rows|
  {
    if rows == [] then l
    else if !Has(l.open, rows[0].id) then Reported(l, rows[1..])
    else
      var row, p := rows[0], Find(l.open, rows[0].id);
      var error := row.hitTokens - BLOCK * p.pred;
      Reported(Ledger(if row.finished then l.tokens else l.tokens - error, Close(l.open, row.id),
                      if row.finished then l.residue + error else l.residue), rows[1..])
  }

  function Next(l: Ledger, e: Event): Ledger {
    match e
    case Admit(id, input, pred) =>
      Ledger(l.tokens + NewTokens(input, pred), l.open + [Pending(id, input, pred, 0)], l.residue)
    case Step(chunks, rows) =>
      Reported(Ledger(l.tokens - ChunkSum(chunks), Worked(l.open, chunks), l.residue), rows)
  }

  /** What the engine promises of its reports: a request is reported once, when exactly the part of
      its prompt that it did not find cached has been prefilled. */
  ghost predicate RowsOk(open: seq<Pending>, rows: seq<Row>)
    decreases |rows|
  {
    rows != [] ==>
      && Has(open, rows[0].id)
      && Find(open, rows[0].id).done + rows[0].hitTokens == Find(open, rows[0].id).input
      && RowsOk(Close(open, rows[0].id), rows[1..])
  }

  ghost predicate ChunksOk(open: seq<Pending>, chunks: seq<(Rid, nat)>)
    decreases |chunks|
  {
    chunks != [] ==> Has(open, chunks[0].0) && ChunksOk(Bump(open, chunks[0].0, chunks[0].1), chunks[1..])
  }

  ghost predicate EventOk(l: Ledger, e: Event) {
    match e
    case Admit(id, input, pred) => !Has(l.open, id) && BLOCK * pred <= input
    case Step(chunks, rows) => ChunksOk(l.open, chunks) && RowsOk(Worked(l.open, chunks), rows)
  }

  /** The counter is exactly what is still to be prefilled, plus the errors left behind. */
  ghost predicate Exact(l: Ledger) {
    && l.tokens == AllMissing(l.open) + l.residue
    && (forall p | p in l.open :: BLOCK * p.pred <= p.input)
  }

  lemma {:induction false} BumpEffect(open: seq<Pending>, id: Rid, n: nat)
    requires Has(open, id) && (forall p | p in open :: BLOCK * p.pred <= p.input)
    ensures AllMissing(Bump(open, id, n)) == AllMissing(open) - n
    ensures forall p | p in Bump(open, id, n) :: BLOCK * p.pred <= p.input
  {
    if open[0].id == id {
      assert Bump(open, id, n)[1..] == open[1..];
    } else {
      BumpEffect(open[1..], id, n);
      assert Bump(open, id, n)[1..] == Bump(open[1..], id, n);
    }
  }

  lemma {:induction false} CloseEffect(open: seq<Pending>, id: Rid)
    requires Has(open, id)
    ensures AllMissing(Close(open, id)) == AllMissing(open) - Missing(Find(open, id))
    ensures forall p | p in Close(open, id) :: p in open
  {
    if open[0].id != id {
      CloseEffect(open[1..], id);
      assert Close(open, id)[1..] == Close(open[1..], id);
    }
  }

  lemma {:induction false} WorkedEffect(open: seq<Pending>, chunks: seq<(Rid, nat)>)
    requires ChunksOk(open, chunks) && (forall p | p in open :: BLOCK * p.pred <= p.input)
    ensures AllMissing(Worked(open, chunks)) == AllMissing(open) - ChunkSum(chunks)
    ensures forall p | p in Worked(open, chunks) :: BLOCK * p.pred <= p.input
    decreases |chunks|
  {
    if chunks != [] {
      BumpEffect(open, chunks[0].0, chunks[0].1);
      WorkedEffect(Bump(open, chunks[0].0, chunks[0].1), chunks[1..]);
    }
  }

  /** A report settles its request: whatever was predicted, a correction leaves nothing of it in the
      counter, and without one exactly the error stays. */
  lemma {:induction false} ReportedExact(l: Ledger, rows: seq<Row>)
    requires Exact(l) && RowsOk(l.open, rows)
    ensures Exact(Reported(l, rows))
    ensures |Reported(l, rows).open| == |l.open| - |rows|
    decreases |rows|
  {
    if rows != [] {
      var row, p := rows[0], Find(l.open, rows[0].id);
      CloseEffect(l.open, row.id);
      assert Missing(p) == row.hitTokens - BLOCK * p.pred;
      var error := row.hitTokens - BLOCK * p.pred;
      CloseLength(l.open, row.id);
      ReportedExact(Ledger(if row.finished then l.tokens else l.tokens - error, Close(l.open, row.id),
                           if row.finished then l.residue + error else l.residue), rows[1..]);
    }
  }

  lemma {:induction false} CloseLength(open: seq<Pending>, id: Rid)
    requires Has(open, id)
    ensures |Close(open, id)| == |open| - 1
  {
    if open[0].id != id {
      CloseLength(open[1..], id);
    }
  }

  lemma {:induction false} MissingOfMore(open: seq<Pending>, p: Pending)
    ensures AllMissing(open + [p]) == AllMissing(open) + Missing(p)
  {
    if open != [] {
      MissingOfMore(open[1..], p);
      assert (open + [p])[1..] == open[1..] + [p];
    }
  }

  lemma NextExact(l: Ledger, e: Event)
    requires Exact(l) && EventOk(l, e)
    ensures Exact(Next(l, e))
  {
    match e
    case Admit(id, input, pred) =>
      MissingOfMore(l.open, Pending(id, input, pred, 0));
    case Step(chunks, rows) =>
      WorkedEffect(l.open, chunks);
      ReportedExact(Ledger(l.tokens - ChunkSum(chunks), Worked(l.open, chunks), l.residue), rows);
  }

  /** The predictions on record are those of the open requests. */
  ghost predicate OnRecord(open: seq<Pending>, pred: map<Rid, nat>) {
    forall p | p in open :: p.id in pred && pred[p.id] == p.pred
  }

  /** The ledger's counter moves as `PrefillCounter.OnStep` moves its own. */
  lemma {:induction false} CounterFollows(l: Ledger, pred: map<Rid, nat>, rows: seq<Row>)
    requires RowsOk(l.open, rows) && OnRecord(l.open, pred)
    ensures Reported(l, rows).tokens == l.tokens - Errors(pred, rows)
    decreases |rows|
  {
    if rows != [] {
      var row, p := rows[0], Find(l.open, rows[0].id);
      var error := row.hitTokens - BLOCK * p.pred;
      CloseEffect(l.open, row.id);
      CounterFollows(Ledger(if row.finished then l.tokens else l.tokens - error, Close(l.open, row.id),
                            if row.finished then l.residue + error else l.residue), pred, rows[1..]);
    }
  }

  lemma {:induction false} WorkKeepsRecord(open: seq<Pending>, chunks: seq<(Rid, nat)>, pred: map<Rid, nat>)
    requires OnRecord(open, pred)
    ensures OnRecord(Worked(open, chunks), pred)
    decreases |chunks|
  {
    if chunks != [] {
      BumpKeepsRecord(open, chunks[0].0, chunks[0].1, pred);
      WorkKeepsRecord(Bump(open, chunks[0].0, chunks[0].1), chunks[1..], pred);
    }
  }

  lemma {:induction false} BumpKeepsRecord(open: seq<Pending>, id: Rid, n: nat, pred: map<Rid, nat>)
    requires OnRecord(open, pred)
    ensures OnRecord(Bump(open, id, n), pred)
  {
    if open != [] && open[0].id != id {
      BumpKeepsRecord(open[1..], id, n, pred);
    }
  }

  /** One step of the ledger takes off the counter what the step report makes the code take off. */
  lemma StepFollows(l: Ledger, pred: map<Rid, nat>, chunks: seq<(Rid, nat)>, rows: seq<Row>)
    requires EventOk(l, Step(chunks, rows)) && OnRecord(l.open, pred)
    ensures Next(l, Step(chunks, rows)).tokens == l.tokens - ChunkSum(chunks) - Errors(pred, rows)
  {
    WorkKeepsRecord(l.open, chunks, pred);
    CounterFollows(Ledger(l.tokens - ChunkSum(chunks), Worked(l.open, chunks), l.residue), pred, rows);
  }

  ghost predicate RunOk(l: Ledger, events: seq<Event>)
    decreases |events|
  {
    events != [] ==> EventOk(l, events[0]) && RunOk(Next(l, events[0]), events[1..])
  }

  function Run(l: Ledger, events: seq<Event>): Ledger
    decreases |events|
  {
    if events == [] then l else Run(Next(l, events[0]), events[1..])
  }

  lemma {:induction false} RunExact(l: Ledger, events: seq<Event>)
    requires Exact(l) && RunOk(l, events)
    ensures Exact(Run(l, events))
    decreases |events|
  {
    if events != [] {
      NextExact(l, events[0]);
      RunExact(Next(l, events[0]), events[1..]);
    }
  }

  ghost predicate NoneFinishes(events: seq<Event>) {
    forall i, j | 0 <= i < |events| && events[i].Step? && 0 <= j < |events[i].rows| :: !events[i].rows[j].finished
  }

  lemma {:induction false} NoResidue(l: Ledger, rows: seq<Row>)
    requires forall j | 0 <= j < |rows| :: !rows[j].finished
    ensures Reported(l, rows).residue == l.residue
    decreases |rows|
  {
    if rows != [] {
      if !Has(l.open, rows[0].id) {
        NoResidue(l, rows[1..]);
      } else {
        var row, p := rows[0], Find(l.open, rows[0].id);
        NoResidue(Ledger(l.tokens - (row.hitTokens - BLOCK * p.pred), Close(l.open, row.id), l.residue), rows[1..]);
      }
    }
  }

  lemma {:induction false} RunResidue(l: Ledger, events: seq<Event>)
    requires NoneFinishes(events)
    ensures Run(l, events).residue == l.residue
    decreases |events|
  {
    if events != [] {
      var e := events[0];
      if e.Step? {
        NoResidue(Ledger(l.tokens - ChunkSum(e.chunks), Worked(l.open, e.chunks), l.residue), e.rows);
      }
      RunResidue(Next(l, e), events[1..]);
    }
  }

  const IDLE := Ledger(0, [], 0)

  lemma IdleExact()
    ensures Exact(IDLE) && IDLE.residue == 0
  {
  }

  lemma ExactCounter(l: Ledger)
    requires Exact(l)
    ensures l.tokens == AllMissing(l.open) + l.residue && (l.open == [] ==> AllMissing(l.open) == 0)
  {
  }

  /** Prediction errors cancel: from an idle replica, along any run in which no request finishes in
      its prefill report, the counter is the uncached tokens still predicted for unreported requests
      less the prefill done for them; it is back at zero once all are reported, whatever was predicted. */
  lemma PredictionErrorCancels(events: seq<Event>)
    requires RunOk(IDLE, events) && NoneFinishes(events)
    ensures Run(IDLE, events).tokens == AllMissing(Run(IDLE, events).open)
    ensures Run(IDLE, events).open == [] ==> Run(IDLE, events).tokens == 0
  {
    hide Run, RunOk, NoneFinishes, Exact, AllMissing;
    IdleExact();
    RunExact(IDLE, events);
    RunResidue(IDLE, events);
    ExactCounter(Run(IDLE, events));
  }

  /** In general, when all requests are reported, the counter is off by exactly the errors of those
      that finished in their prefill report: it is zero if and only if these errors add up to zero. */
  lemma ErrorsLeftBehind(events: seq<Event>)
    requires RunOk(IDLE, events) && Run(IDLE, events).open == []
    ensures Run(IDLE, events).tokens == Run(IDLE, events).residue
  {
    RunExact(IDLE, events);
  }

  /** One request that finishes in its prefill report brings the counter back to zero just when its
      prediction was right. */
  lemma FinishedRequestDrifts(id: Rid, input: nat, pred: nat, hits: nat)
    requires BLOCK * pred <= input && BLOCK * hits <= input
    ensures var run := [Admit(id, input, pred), Step([(id, input - BLOCK * hits)], [Row(id, BLOCK * hits, true)])];
            && RunOk(IDLE, run)
            && (Run(IDLE, run).tokens == 0 <==> pred == hits)
  {
    var admit, step := Admit(id, input, pred), Step([(id, input - BLOCK * hits)], [Row(id, BLOCK * hits, true)]);
    var l1 := Ledger(NewTokens(input, pred), [Pending(id, input, pred, 0)], 0);
    assert Next(IDLE, admit) == l1;
    OneReport(l1, id, input - BLOCK * hits, Row(id, BLOCK * hits, true));
    TwoEvents(IDLE, admit, step);
  }

  lemma TwoEvents(l: Ledger, e: Event, f: Event)
    ensures Run(l, [e, f]) == Next(Next(l, e), f)
    ensures RunOk(l, [e, f]) <==> EventOk(l, e) && EventOk(Next(l, e), f)
  {
    assert [e, f][1..] == [f] && [f][1..] == [];
    var l1 := Next(l, e);
    assert Run(l1, [f]) == Run(Next(l1, f), [f][1..]);
    assert RunOk(l1, [f]) <==> EventOk(l1, f) && RunOk(Next(l1, f), [f][1..]);
  }

  lemma OneReport(l: Ledger, id: Rid, n: nat, row: Row)
    requires |l.open| == 1 && l.open[0].id == id == row.id && row.finished
    requires l.open[0].done + n + row.hitTokens == l.open[0].input
    ensures EventOk(l, Step([(id, n)], [row]))
    ensures Next(l, Step([(id, n)], [row]))
            == Ledger(l.tokens - n, [], l.residue + row.hitTokens - BLOCK * l.open[0].pred)
  {
    var chunks := [(id, n)];
    var p := l.open[0];
    var work := Bump(l.open, id, n);
    assert work == [p.(done := p.done + n)];
    assert work[0].id == id && l.open[0].id == id;
    assert Has(work, id) && Has(l.open, id);
    assert chunks[1..] == [] && [row][1..] == [];
    assert Worked(l.open, chunks) == Worked(work, chunks[1..]) == work;
    assert ChunkSum(chunks) == n;
    assert ChunksOk(l.open, chunks);
    assert Close(work, id) == [];
    assert RowsOk(work, [row]);
    var l1 := Ledger(l.tokens - n, work, l.residue);
    var l2 := Ledger(l.tokens - n, [], l.residue + row.hitTokens - BLOCK * p.pred);
    assert Reported(l1, [row]) == Reported(l2, [row][1..]) == l2;
  }
}
