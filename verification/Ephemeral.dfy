/** The cached rollout of a replica: how a query reuses it, and how admissions and engine reports
    change it.
  */
module EphemeralRollout {
  import opened Basics
  import opened Options
  import opened Sched
  import opened Rollout
  import opened Ahead
  import Snapshot

  /** `savepoint` holds the number of leading slots that predate the candidate, and the state at their
      end. */
  datatype Ephemeral = Ephemeral(
    cand: Option<Rid>, buffer: Buffer, anchor: nat, tail: Sched, savepoint: Option<(nat, Sched)>)

  // ---------- Query ----------

  /** A candidate whose leading `hits` blocks are cached. */
  function Candidate(id: Rid, input: nat, hits: nat, blockSize: nat): Req {
    Req(id, input, Min(hits * blockSize, input))
  }

  function Unmarked(buf: Buffer, cand: Option<Rid>): Buffer {
    Buffer(cand, buf.slots, None, None, None)
  }

  /** The candidate-free rollout that can be recovered from a cached one. */
  function Baseline(e: Option<Ephemeral>): Option<(Buffer, Sched)>
    requires e.Some? && e.value.savepoint.Some? ==> e.value.savepoint.value.0 <= |e.value.buffer.slots|
  {
    match e
    case None => None
    case Some(e) =>
      if e.cand.None? then Some((e.buffer, e.tail))
      else match e.savepoint {
        case None => None
        case Some((idx, tail)) =>
          if idx > 0 then Some((Unmarked(e.buffer.(slots := e.buffer.slots[..idx]), None), tail)) else None
      }
  }

  /** What every cached rollout satisfies: a savepoint exists only beside a candidate, and splits off a
      non-empty part of the slots. */
  ghost predicate EphOk(e: Option<Ephemeral>) {
    e.Some? ==>
      && e.value.buffer.cand == e.value.cand
      && (e.value.savepoint.Some? ==> e.value.cand.Some? && 1 <= e.value.savepoint.value.0 <= |e.value.buffer.slots|)
  }

  function FromScratch(sched: Sched, c: Req, anchor: nat, env: Env): Ephemeral
    requires env.Ok()
  {
    var (buf, tail) := Roll(sched.Admit(c), c.id, Buffer(Some(c.id), [], None, None, None), env);
    Ephemeral(Some(c.id), buf, anchor, tail, None)
  }

  function Extend(base: Buffer, tail: Sched, c: Req, anchor: nat, env: Env): Ephemeral
    requires env.Ok()
  {
    var savepoint := if base.slots != [] then Some((|base.slots|, tail)) else None;
    var (buf, tail') := Roll(tail.Admit(c), c.id, Unmarked(base, Some(c.id)), env);
    Ephemeral(Some(c.id), buf, anchor, tail', savepoint)
  }

  /** The cached rollout after a query for candidate c. */
  function Queried(e: Option<Ephemeral>, sched: Sched, c: Req, anchor: nat, env: Env): Ephemeral
    requires env.Ok() && EphOk(e)
  {
    match Baseline(e)
    case Some((base, tail)) => Extend(base, tail, c, anchor, env)
    case None => FromScratch(sched, c, anchor, env)
  }

  datatype Gist = Gist(ttft: Option<real>, chunkedPrefillSteps: Option<nat>, inDecode: Option<real>)

  function LatencySum(slots: seq<RolloutSlot>): real {
    if slots == [] then 0.0 else LatencySum(slots[..|slots| - 1]) + slots[|slots| - 1].latency
  }

  function GistOf(b: Buffer): Gist {
    Gist(
      match b.end { case Some(i) => Some(LatencySum(b.slots[..Min(i + 1, |b.slots|)])) case None => None },
      if b.begin.Some? && b.end.Some? && b.end.value >= b.begin.value
      then Some(b.end.value - b.begin.value + 1) else None,
      if b.decode.Some? && b.decode.value < |b.slots| then Some(b.slots[b.decode.value].latency) else None)
  }

  // ---------- Admission and engine reports ----------

  /** Admitting the cached candidate turns its rollout into the baseline; any other admission drops it. */
  function Admitted(e: Option<Ephemeral>, rid: Rid): Option<Ephemeral> {
    if e.Some? && e.value.cand == Some(rid)
    then Some(e.value.(cand := None, buffer := e.value.buffer.(cand := None), savepoint := None))
    else None
  }

  function HasPrefill(m: Snapshot.Report): bool {
    m.prefillTokens > 0 || exists o :: o in m.outputs && o.state.Prefill?
  }

  function Reported(m: Snapshot.Report, st: Snapshot.OutState): set<Rid> {
    set o | o in m.outputs && o.state == st :: o.rid
  }

  function Known(slot: RolloutSlot): bool {
    slot.prefill != [] || slot.decode != []
  }

  /** The engine ran the requests the slot predicted, in the same roles. */
  function Matches(slot: RolloutSlot, m: Snapshot.Report): bool {
    && (set r | r in slot.prefill) == Reported(m, Snapshot.Prefill)
    && (set r | r in slot.decode) == Reported(m, Snapshot.Decode)
  }

  function Earlier(i: Option<nat>): Option<nat> {
    match i
    case None => None
    case Some(n) => Some(if n > 0 then n - 1 else 0)
  }

  /** The head of the rollout has happened. */
  function Popped(e: Ephemeral, step: nat): Ephemeral
    requires e.buffer.slots != []
  {
    var b := e.buffer;
    e.(buffer := Buffer(b.cand, b.slots[1..], Earlier(b.begin), Earlier(b.end), Earlier(b.decode)),
       anchor := step,
       savepoint := match e.savepoint {
         case None => None
         case Some((idx, tail)) => if idx > 1 then Some((idx - 1, tail)) else None
       })
  }

  /** A rollout survives a report of a prefilling step that ran what its head predicted. */
  function Seen(e: Option<Ephemeral>, m: Snapshot.Report): Option<Ephemeral> {
    if e.None? || !HasPrefill(m) then None
    else if e.value.buffer.slots == [] then None
    else
      var head := e.value.buffer.slots[0];
      if Known(head) && Matches(head, m) then Some(Popped(e.value, m.stepId)) else None
  }

  function SeenAll(e: Option<Ephemeral>, ms: seq<Snapshot.Report>): Option<Ephemeral> {
    if ms == [] then e else Seen(SeenAll(e, ms[..|ms| - 1]), ms[|ms| - 1])
  }

  // ---------- Invariant ----------

  lemma EphOkSeen(e: Option<Ephemeral>, m: Snapshot.Report)
    requires EphOk(e)
    ensures EphOk(Seen(e, m))
  {
    hide HasPrefill, Matches;
  }

  /** Every trigger keeps the savepoint inside the slots, and only beside a candidate. */
  lemma EphOkKept(e: Option<Ephemeral>, sched: Sched, c: Req, anchor: nat, env: Env, rid: Rid, m: Snapshot.Report)
    requires EphOk(e) && env.Ok()
    ensures EphOk(Some(Queried(e, sched, c, anchor, env))) && EphOk(Admitted(e, rid)) && EphOk(Seen(e, m))
  {
    hide Roll, HasPrefill, Matches;
    RollExtends(sched.Admit(c), c.id, Buffer(Some(c.id), [], None, None, None), env);
    match Baseline(e) {
      case Some((base, tail)) => RollExtends(tail.Admit(c), c.id, Unmarked(base, Some(c.id)), env);
      case None =>
    }
  }

  // ---------- Savepoint recovery is transparent ----------

  /** e1 has served a query that e2 has not: either both recover the same baseline, or neither has one. */
  ghost predicate Recovers(e1: Option<Ephemeral>, e2: Option<Ephemeral>)
    requires EphOk(e1) && EphOk(e2)
  {
    || (e2.None? && Baseline(e1).None?)
    || (&& e1.Some? && e1.value.cand.Some? && e1.value.savepoint.Some?
        && e2.Some? && e2.value.cand.None? && e2.value.savepoint.None?
        && e2.value.buffer.slots == e1.value.buffer.slots[..e1.value.savepoint.value.0]
        && e2.value.tail == e1.value.savepoint.value.1)
  }

  /** The baseline has been popped down to nothing. */
  ghost predicate Spent(e: Option<Ephemeral>) {
    e.Some? && e.value.cand.None? && e.value.buffer.slots == []
  }

  lemma RecoversSeen(e1: Option<Ephemeral>, e2: Option<Ephemeral>, m: Snapshot.Report)
    requires EphOk(e1) && EphOk(e2) && (Recovers(e1, e2) || (Spent(e2) && Baseline(e1).None?))
    ensures EphOk(Seen(e1, m)) && EphOk(Seen(e2, m))
    ensures Recovers(Seen(e1, m), Seen(e2, m)) || (Spent(Seen(e2, m)) && Baseline(Seen(e1, m)).None?)
  {
    hide HasPrefill, Matches, Known;
    if Recovers(e1, e2) && e2.Some? {
      var idx := e1.value.savepoint.value.0;
      assert e1.value.buffer.slots[..idx][0] == e1.value.buffer.slots[0];
      assert e1.value.buffer.slots[..idx][1..] == e1.value.buffer.slots[1..][..idx - 1];
    }
  }

  lemma {:induction false} RecoversRun(e1: Option<Ephemeral>, e2: Option<Ephemeral>, ms: seq<Snapshot.Report>)
    requires EphOk(e1) && EphOk(e2) && Recovers(e1, e2)
    ensures EphOk(SeenAll(e1, ms)) && EphOk(SeenAll(e2, ms))
    ensures Recovers(SeenAll(e1, ms), SeenAll(e2, ms)) || (Spent(SeenAll(e2, ms)) && Baseline(SeenAll(e1, ms)).None?)
  {
    hide Recovers, Seen, EphOk, Spent, Baseline;
    if ms != [] {
      RecoversRun(e1, e2, ms[..|ms| - 1]);
      RecoversSeen(SeenAll(e1, ms[..|ms| - 1]), SeenAll(e2, ms[..|ms| - 1]), ms[|ms| - 1]);
    }
  }

  /** Equal recovered baselines make equal queries. */
  lemma RecoversQuery(e1: Option<Ephemeral>, e2: Option<Ephemeral>, sched: Sched, c: Req, anchor: nat, env: Env)
    requires EphOk(e1) && EphOk(e2) && env.Ok() && Recovers(e1, e2)
    ensures Queried(e1, sched, c, anchor, env) == Queried(e2, sched, c, anchor, env)
  {
    hide Roll;
  }

  /** A query for one candidate leaves no trace in the answer for another: from a non-empty baseline e,
      querying c1, absorbing any engine reports, and querying c2 gives the very rollout that the reports
      and c2 alone give, unless the reports have popped exactly the whole baseline. */
  lemma SavepointTransparent(
      e: Ephemeral, sched: Sched, c1: Req, anchor: nat, env: Env, ms: seq<Snapshot.Report>,
      sched': Sched, c2: Req, anchor': nat, env': Env)
    requires EphOk(Some(e)) && e.cand.None? && e.buffer.slots != [] && env.Ok() && env'.Ok()
    requires !Spent(SeenAll(Some(e), ms))
    ensures var e1 := SeenAll(Some(Queried(Some(e), sched, c1, anchor, env)), ms);
            var e2 := SeenAll(Some(e), ms);
            EphOk(e1) && EphOk(e2) && Queried(e1, sched', c2, anchor', env') == Queried(e2, sched', c2, anchor', env')
  {
    hide Roll, SeenAll, Seen;
    var q := Queried(Some(e), sched, c1, anchor, env);
    RollExtends(e.tail.Admit(c1), c1.id, Unmarked(e.buffer, Some(c1.id)), env);
    RecoversRun(Some(q), Some(e), ms);
    RecoversQuery(SeenAll(Some(q), ms), SeenAll(Some(e), ms), sched', c2, anchor', env');
  }

  // ---------- A spent baseline ----------

  /** Once the baseline is spent, the cached rollout that served a query is rebuilt from the current
      snapshot, while the one that did not continues from the baseline's end. Their answers agree if and
      only if the two states run alike ahead of the candidate; which candidate it is does not matter. */
  lemma SpentBaseline(
      e1: Option<Ephemeral>, e2: Option<Ephemeral>, sched: Sched, c: Req, anchor: nat, env: Env)
    requires EphOk(e1) && EphOk(e2) && env.Ok() && Spent(e2) && Baseline(e1).None?
    requires Unique(sched.Admit(c)) && Unique(e2.value.tail.Admit(c))
    ensures Queried(e1, sched, c, anchor, env) == Queried(e2, sched, c, anchor, env) <==>
            SameAhead(sched, e2.value.tail, env.tokens, 0)
  {
    hide Roll, Unique, SameAhead;
    RollSame(sched, e2.value.tail, c, Buffer(Some(c.id), [], None, None, None), env);
  }

  /** The exact condition for a query to leave no trace: whatever reports came in between, the next answer is
      the one it would have been without it if and only if the reports did not spend the whole baseline, or
      the snapshot and the baseline's end run alike. */
  lemma SavepointExact(
      e: Ephemeral, sched: Sched, c1: Req, anchor: nat, env: Env, ms: seq<Snapshot.Report>,
      sched': Sched, c2: Req, anchor': nat, env': Env)
    requires EphOk(Some(e)) && e.cand.None? && e.buffer.slots != [] && env.Ok() && env'.Ok()
    requires Unique(sched'.Admit(c2)) && Unique(e.tail.Admit(c2))
    ensures var e1 := SeenAll(Some(Queried(Some(e), sched, c1, anchor, env)), ms);
            var e2 := SeenAll(Some(e), ms);
            && EphOk(e1) && EphOk(e2)
            && (Queried(e1, sched', c2, anchor', env') == Queried(e2, sched', c2, anchor', env') <==>
                (Spent(e2) ==> SameAhead(sched', e.tail, env'.tokens, 0)))
  {
    hide Roll, SeenAll, Seen, SameAhead, Unique;
    var q := Queried(Some(e), sched, c1, anchor, env);
    RollExtends(e.tail.Admit(c1), c1.id, Unmarked(e.buffer, Some(c1.id)), env);
    RecoversRun(Some(q), Some(e), ms);
    SeenKeepsTail(Some(e), ms);
    if Spent(SeenAll(Some(e), ms)) {
      SpentBaseline(SeenAll(Some(q), ms), SeenAll(Some(e), ms), sched', c2, anchor', env');
    } else {
      RecoversQuery(SeenAll(Some(q), ms), SeenAll(Some(e), ms), sched', c2, anchor', env');
    }
  }

  lemma {:induction false} SeenKeepsTail(e: Option<Ephemeral>, ms: seq<Snapshot.Report>)
    ensures SeenAll(e, ms).Some? ==> e.Some? && SeenAll(e, ms).value.tail == e.value.tail
  {
    hide HasPrefill, Matches, Known;
    if ms != [] {
      SeenKeepsTail(e, ms[..|ms| - 1]);
    }
  }

  // ---------- What a query promises ----------

  /** The rollout a candidate joins: the recovered baseline, or nothing, and the state at its end. */
  function Joins(e: Option<Ephemeral>, sched: Sched): (Buffer, Sched)
    requires EphOk(e)
  {
    match Baseline(e)
    case Some((base, tail)) => (base, tail)
    case None => (Buffer(None, [], None, None, None), sched)
  }

  /** More cache hits never make a query's answer worse: the candidate starts in the same step and its
      prefill spans no more steps. */
  lemma QueryMoreHits(e: Option<Ephemeral>, sched: Sched, c1: Req, c2: Req, anchor: nat, env: Env)
    requires env.Ok() && EphOk(e)
    requires c1.id == c2.id && c1.input == c2.input && c1.processed <= c2.processed < c2.input
    requires Unique(Joins(e, sched).1.Admit(c1)) && Unique(Joins(e, sched).1.Admit(c2))
    ensures var b1, b2 := Queried(e, sched, c1, anchor, env).buffer, Queried(e, sched, c2, anchor, env).buffer;
            var g1, g2 := GistOf(b1), GistOf(b2);
            && NoLater(b1, b2)
            && (g1.chunkedPrefillSteps.Some? && g2.chunkedPrefillSteps.Some? ==>
                  g2.chunkedPrefillSteps.value <= g1.chunkedPrefillSteps.value)
  {
    hide Roll, Unique;
    MoreHitsNeverHurt(Joins(e, sched).1, c1, c2, Unmarked(Joins(e, sched).0, Some(c1.id)), env);
  }

  lemma RanGist(r: Buffer, base: Buffer, x: nat, y: nat, k: Rid)
    requires Ran(r, base, x, y, k)
    ensures GistOf(r).chunkedPrefillSteps == Some(y - x + 1)
  {
  }

  /** A query under load: with n requests ahead and more than n tokens a step, its rollout runs first
      come first served and stays within the bound. */
  lemma QueryFcfs(e: Option<Ephemeral>, sched: Sched, c: Req, anchor: nat, env: Env)
    requires env.Ok() && EphOk(e) && c.Prefilling() && Unique(Joins(e, sched).1.Admit(c))
    requires env.tokens > Count(Joins(e, sched).1)
    requires |Joins(e, sched).0.slots| + Bound(Joins(e, sched).1, c, env) + 1 <= MAX_SLOTS
    ensures var base, r := Unmarked(Joins(e, sched).0, Some(c.id)), Queried(e, sched, c, anchor, env).buffer;
            && r.begin.Some? && r.end.Some? && Ran(r, base, r.begin.value, r.end.value, c.id)
            && |r.slots| <= |base.slots| + Bound(Joins(e, sched).1, c, env) + 1
            && GistOf(r).chunkedPrefillSteps == Some(r.end.value - r.begin.value + 1)
            && OthersDone(After(Joins(e, sched).1.Admit(c), env.tokens, r.begin.value - |base.slots| + 1), c.id)
            && AllDone(Queried(e, sched, c, anchor, env).tail)
  {
    hide Roll, Unique, Ran, After, AllDone, OthersDone, Bound, GistOf;
    var base := Unmarked(Joins(e, sched).0, Some(c.id));
    RollCandidate(Joins(e, sched).1, c, base, env);
    var r := Queried(e, sched, c, anchor, env).buffer;
    RanGist(r, base, r.begin.value, r.end.value, c.id);
  }

  // ---------- Which reports a rollout survives ----------

  /** A row of the report has request r in state st. */
  ghost predicate RowSays(m: Snapshot.Report, r: Rid, st: Snapshot.OutState) {
    exists i :: 0 <= i < |m.outputs| && m.outputs[i].rid == r && m.outputs[i].state == st
  }

  /** The reported step did some prefill, and ran exactly the requests of the slot, of which there are some, in the
      roles the slot gives them. */
  ghost predicate RanAs(slot: RolloutSlot, m: Snapshot.Report) {
    && (|slot.prefill| > 0 || |slot.decode| > 0)
    && (m.prefillTokens > 0 || exists r :: RowSays(m, r, Snapshot.Prefill))
    && (forall r :: r in slot.prefill <==> RowSays(m, r, Snapshot.Prefill))
    && (forall r :: r in slot.decode <==> RowSays(m, r, Snapshot.Decode))
  }

  lemma ReportedRows(m: Snapshot.Report, st: Snapshot.OutState, r: Rid)
    ensures r in Reported(m, st) <==> RowSays(m, r, st)
  {
    if r in Reported(m, st) {
      var o :| o in m.outputs && o.state == st && o.rid == r;
      var i :| 0 <= i < |m.outputs| && m.outputs[i] == o;
    }
    if i :| 0 <= i < |m.outputs| && m.outputs[i].rid == r && m.outputs[i].state == st {
      assert m.outputs[i] in m.outputs;
    }
  }

  lemma PrefillReported(m: Snapshot.Report)
    ensures HasPrefill(m) <==> m.prefillTokens > 0 || exists r :: RowSays(m, r, Snapshot.Prefill)
  {
    if o :| o in m.outputs && o.state.Prefill? {
      ReportedRows(m, Snapshot.Prefill, o.rid);
    }
    if r :| RowSays(m, r, Snapshot.Prefill) {
      ReportedRows(m, Snapshot.Prefill, r);
    }
  }

  /** One report. */
  lemma SeenOne(e: Ephemeral, m: Snapshot.Report)
    ensures Seen(Some(e), m).Some? <==> |e.buffer.slots| > 0 && RanAs(e.buffer.slots[0], m)
    ensures Seen(Some(e), m).Some? ==> Seen(Some(e), m).value == Popped(e, m.stepId)
  {
    hide HasPrefill, RowSays, Reported;
    PrefillReported(m);
    forall r, st
      ensures r in Reported(m, st) <==> RowSays(m, r, st)
    {
      ReportedRows(m, st, r);
    }
  }

  /** A marker after n steps have happened. */
  function Ago(i: Option<nat>, n: nat): Option<nat> {
    match i
    case None => None
    case Some(j) => Some(if j > n then j - n else 0)
  }

  /** What is left of rollout e once its first n steps have happened: the other slots, the markers counted from
      there, and the same end; the baseline beside a candidate as long as it has slots left. */
  ghost predicate LeftOf(e: Ephemeral, o: Ephemeral, n: nat)
    requires n <= |e.buffer.slots|
  {
    && o.cand == e.cand && o.tail == e.tail && o.buffer.cand == e.buffer.cand
    && o.buffer.slots == e.buffer.slots[n..]
    && o.buffer.begin == Ago(e.buffer.begin, n) && o.buffer.end == Ago(e.buffer.end, n)
    && o.buffer.decode == Ago(e.buffer.decode, n)
    && o.savepoint == (match e.savepoint
                       case None => None
                       case Some((idx, tail)) => if idx > n then Some((idx - n, tail)) else None)
  }

  /** A rollout survives a run of reports if and only if it has a slot for each, and each report ran as its slot
      says. What is left is then the rollout without these slots. */
  lemma {:induction false} SeenRun(e: Ephemeral, ms: seq<Snapshot.Report>)
    requires EphOk(Some(e))
    ensures SeenAll(Some(e), ms).Some? <==>
            |ms| <= |e.buffer.slots| && forall i | 0 <= i < |ms| :: RanAs(e.buffer.slots[i], ms[i])
    ensures SeenAll(Some(e), ms).Some? ==>
              var o := SeenAll(Some(e), ms).value;
              LeftOf(e, o, |ms|) && o.anchor == if ms == [] then e.anchor else ms[|ms| - 1].stepId
  {
    hide Seen, RanAs;
    if ms != [] {
      var before, m := ms[..|ms| - 1], ms[|ms| - 1];
      SeenRun(e, before);
      if SeenAll(Some(e), before).Some? {
        SeenOne(SeenAll(Some(e), before).value, m);
        assert forall i | 0 <= i < |before| :: before[i] == ms[i];
      } else {
        NeverAgain(m);
        assert forall i | 0 <= i < |before| :: before[i] == ms[i];
      }
    }
  }

  lemma NeverAgain(m: Snapshot.Report)
    ensures Seen(None, m) == None
  {
  }
}
