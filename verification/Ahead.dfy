/** When two states run alike for every candidate that joins at the back of the queue. */
module Ahead {
  import opened Basics
  import opened Sched
  import opened Slots
  import opened Rollout

  /** One step, without a candidate, schedules the same from both states, decodes the same requests at the
      same point, and leaves budget over in both or in neither. */
  ghost predicate SameStep(s: Sched, t: Sched, tokens: nat) {
    && Forward(s, tokens).chunks == Forward(t, tokens).chunks
    && SameDecoding(s, t)
    && (Forward(s, tokens).budget > 0 <==> Forward(t, tokens).budget > 0)
  }

  ghost predicate SameDecoding(s: Sched, t: Sched) {
    && Decoders(s) == Decoders(t)
    && (forall k | k in Decoders(s) :: s.running[k].processed == t.running[k].processed)
  }

  /** The steps from both states are the same up to the first one that leaves budget over, which ends with the
      same requests running; or up to the slot cap, where the states are the same. Neither a candidate nor the
      latency model plays a part in this. */
  ghost predicate SameAhead(s: Sched, t: Sched, tokens: nat, slots: nat)
    decreases MAX_SLOTS - slots
  {
    if slots >= MAX_SLOTS then s == t
    else
      && SameStep(s, t, tokens)
      && if Forward(s, tokens).budget > 0 then Forward(s, tokens).running == Forward(t, tokens).running
         else SameAhead(Forward(s, tokens).ToSched(), Forward(t, tokens).ToSched(), tokens, slots + 1)
  }

  // ---------- A slot tells what was scheduled ----------

  lemma ChunksListed(a: seq<Chunk>, b: seq<Chunk>)
    requires ChunkIds(a) == ChunkIds(b) && ChunkSizes(a) == ChunkSizes(b) && ChunkStarts(a) == ChunkStarts(b)
    ensures a == b
  {
    assert |a| == |ChunkIds(a)| == |b|;
    forall i | 0 <= i < |a|
      ensures a[i] == b[i]
    {
      assert ChunkIds(a)[i] == ChunkIds(b)[i] && ChunkSizes(a)[i] == ChunkSizes(b)[i];
      assert ChunkStarts(a)[i] == ChunkStarts(b)[i];
    }
  }

  lemma DecodersListed(s: Sched, t: Sched)
    requires SortedIds(Decoders(s)) == SortedIds(Decoders(t))
    ensures Decoders(s) == Decoders(t)
  {
    forall k
      ensures k in Decoders(s) <==> k in Decoders(t)
    {
      assert k in SortedIds(Decoders(s)) <==> k in Decoders(s);
    }
  }

  lemma ProgressListed(s: Sched, t: Sched)
    requires Decoders(s) == Decoders(t)
    ensures var ids := SortedIds(Decoders(s));
            && (forall k | k in ids :: k in s.running && k in t.running)
            && (Progress(s, ids) == Progress(t, ids) <==> SameDecoding(s, t))
  {
    var ids := SortedIds(Decoders(s));
    forall k | k in ids
      ensures k in s.running && k in t.running
    {
      assert k in Decoders(s);
    }
    if Progress(s, ids) == Progress(t, ids) {
      forall k | k in Decoders(s)
        ensures s.running[k].processed == t.running[k].processed
      {
        var i :| 0 <= i < |ids| && ids[i] == k;
        assert Progress(s, ids)[i] == Progress(t, ids)[i];
      }
    }
    if SameDecoding(s, t) {
      forall i | 0 <= i < |ids|
        ensures Progress(s, ids)[i] == Progress(t, ids)[i]
      {
        assert ids[i] in ids;
      }
    }
  }

  lemma SlotIs(s: Sched, k: Rid, buf: Buffer, env: Env)
    requires env.Ok() && SimulateOneSlot(s, k, buf, env).2.Some?
    ensures var chunks, ids := Forward(s, env.tokens).chunks, SortedIds(Decoders(s));
            && (forall j | j in ids :: j in s.running)
            && SimulateOneSlot(s, k, buf, env).2.value ==
               (var b := MakeBatch(s, chunks, ids, env.blockSize);
                RolloutSlot(b, env.predict(b), ChunkIds(chunks), ids))
  {
    hide Forward, Mark, MakeBatch;
  }

  lemma BatchTells(s: Sched, chunks: seq<Chunk>, ids: seq<Rid>, blockSize: nat)
    requires blockSize >= 1 && (forall j | j in ids :: j in s.running)
    ensures var b := MakeBatch(s, chunks, ids, blockSize);
            && b.prefillTokens == ChunkSizes(chunks) && b.prefillComputed == ChunkStarts(chunks)
            && b.decodeComputed == Progress(s, ids)
  {
  }

  lemma SameBatch(s: Sched, t: Sched, chunks: seq<Chunk>, ids: seq<Rid>, blockSize: nat)
    requires blockSize >= 1 && (forall j | j in ids :: j in s.running && j in t.running)
    requires Progress(s, ids) == Progress(t, ids)
    ensures MakeBatch(s, chunks, ids, blockSize) == MakeBatch(t, chunks, ids, blockSize)
  {
  }

  /** Two slots are the same just when they schedule the same chunks and decode alike. */
  lemma SlotTells(s: Sched, t: Sched, k: Rid, buf: Buffer, env: Env)
    requires env.Ok() && SimulateOneSlot(s, k, buf, env).2.Some? && SimulateOneSlot(t, k, buf, env).2.Some?
    ensures SimulateOneSlot(s, k, buf, env).2 == SimulateOneSlot(t, k, buf, env).2 <==>
            Forward(s, env.tokens).chunks == Forward(t, env.tokens).chunks && SameDecoding(s, t)
  {
    hide SimulateOneSlot, Forward, MakeBatch, Progress, ChunkIds, ChunkSizes, ChunkStarts, SameDecoding, Decoders;
    var a, b := Forward(s, env.tokens).chunks, Forward(t, env.tokens).chunks;
    var o1, o2 := SimulateOneSlot(s, k, buf, env).2, SimulateOneSlot(t, k, buf, env).2;
    SlotIs(s, k, buf, env);
    SlotIs(t, k, buf, env);
    BatchTells(s, a, SortedIds(Decoders(s)), env.blockSize);
    BatchTells(t, b, SortedIds(Decoders(t)), env.blockSize);
    if o1 == o2 {
      ChunksListed(a, b);
      DecodersListed(s, t);
      ProgressListed(s, t);
    }
    if a == b && SameDecoding(s, t) {
      SameDecoders(s, t);
      ProgressListed(s, t);
      SameBatch(s, t, a, SortedIds(Decoders(s)), env.blockSize);
    }
  }

  lemma SameDecoders(s: Sched, t: Sched)
    requires SameDecoding(s, t)
    ensures Decoders(s) == Decoders(t)
  {
  }

  /** The first new slot of a rollout is the slot of its first step. */
  lemma RollFirst(s: Sched, k: Rid, buf: Buffer, env: Env)
    requires env.Ok() && |buf.slots| < MAX_SLOTS && SimulateOneSlot(s, k, buf, env).2.Some?
    ensures var r := Roll(s, k, buf, env).0;
            |r.slots| > |buf.slots| && r.slots[|buf.slots|] == SimulateOneSlot(s, k, buf, env).2.value
  {
    hide SimulateOneSlot;
    var (s', buf', o) := SimulateOneSlot(s, k, buf, env);
    var pushed := buf'.(slots := buf.slots + [o.value]);
    if pushed.decode.None? {
      RollExtends(s', k, pushed, env);
    }
    ExtendsTrans(Roll(s, k, buf, env).0.slots, buf.slots, o.value);
  }

  // ---------- The step that serves the candidate ----------

  lemma ServedPass(b: Sched, c: Req, tokens: nat)
    requires Unique(b.Admit(c)) && Forward(b, tokens).budget > 0 && c.Prefilling()
    ensures var q, p := Forward(b, tokens), Forward(b.Admit(c), tokens);
            var got := Min(c.Owed(), q.budget);
            && q.waiting == [] && p == Give(q, c, got) && c.id !in q.running
            && Decoders(b.Admit(c)) == Decoders(b) && c.id !in b.running
            && (forall j | j in q.running :: !q.running[j].Prefilling())
  {
    hide Forward, Owed;
    UniqueAdmit(b, c);
    ForwardCandidate(b, c, tokens);
    SlotConserves(b, tokens);
    ForwardDone(b, tokens);
    LeftOver(b, tokens);
    assert c.id !in InFlight(Forward(b, tokens).ToSched());
  }

  /** Budget is left over only when nobody waits any more. */
  lemma LeftOver(s: Sched, tokens: nat)
    ensures Forward(s, tokens).budget > 0 ==> Forward(s, tokens).waiting == []
  {
    PullEnds(Continue(SortedIds(Prefillers(s)), Start(s, tokens)));
  }

  lemma {:induction false} PullEnds(p: Pass)
    ensures Pull(p).budget <= 0 || Pull(p).waiting == []
    decreases |p.waiting|
  {
    if p.budget > 0 && p.waiting != [] {
      PullEnds(PullOne(p));
    }
  }

  lemma AdmittedDecoding(s: Sched, t: Sched, c: Req)
    ensures SameDecoding(s.Admit(c), t.Admit(c)) <==> SameDecoding(s, t)
  {
    assert Decoders(s.Admit(c)) == Decoders(s) && Decoders(t.Admit(c)) == Decoders(t);
  }

  /** From the step that serves it on, only the candidate changes. */
  lemma {:induction false} RestStands(s: Sched, k: Rid, buf: Buffer, env: Env)
    requires env.Ok() && k in s.running && s.running[k].id == k && OthersDone(s, k)
    ensures var t := Roll(s, k, buf, env).1;
            t.running.Keys == s.running.Keys && forall j | j in s.running && j != k :: t.running[j] == s.running[j]
    decreases MAX_SLOTS - |buf.slots|
  {
    hide Mark, MakeBatch;
    if |buf.slots| < MAX_SLOTS {
      RestStep(s, k, env.tokens);
      hide Forward;
      var (s', buf', o) := SimulateOneSlot(s, k, buf, env);
      if o.Some? && buf'.(slots := buf.slots + [o.value]).decode.None? {
        RestStands(s', k, buf'.(slots := buf.slots + [o.value]), env);
      }
    }
  }

  lemma RestStep(s: Sched, k: Rid, tokens: nat)
    requires k in s.running && s.running[k].id == k && OthersDone(s, k)
    ensures var t := Forward(s, tokens).ToSched();
            && t.running.Keys == s.running.Keys && OthersDone(t, k) && t.running[k].id == k
            && (forall j | j in s.running && j != k :: t.running[j] == s.running[j])
  {
    if s.running[k].Prefilling() {
      ForwardAlone(s, k, tokens);
    } else {
      ForwardIdle(s, tokens);
    }
  }

  /** The two rollouts are the same from the step that serves the candidate on. */
  lemma ServedSame(s: Sched, t: Sched, c: Req, buf: Buffer, env: Env)
    requires env.Ok() && Unique(s.Admit(c)) && Unique(t.Admit(c)) && c.Prefilling()
    requires buf.begin.None? && buf.decode.None? && |buf.slots| < MAX_SLOTS
    requires Forward(s, env.tokens).budget > 0 && Forward(t, env.tokens).budget > 0
    requires SameStep(s, t, env.tokens) && Forward(s, env.tokens).running == Forward(t, env.tokens).running
    ensures Roll(s.Admit(c), c.id, buf, env) == Roll(t.Admit(c), c.id, buf, env)
  {
    hide Forward, Mark, MakeBatch, Unique, Decoders, SimulateOneSlot;
    SameBudget(s, t, env.tokens);
    ServedPass(s, c, env.tokens);
    ServedPass(t, c, env.tokens);
    assert Forward(s.Admit(c), env.tokens) == Forward(t.Admit(c), env.tokens);
    SameFirstStep(s.Admit(c), t.Admit(c), c.id, buf, env);
  }

  /** The rest of the budget follows from what was handed out. */
  lemma SameBudget(s: Sched, t: Sched, tokens: nat)
    requires SameStep(s, t, tokens)
    ensures Forward(s, tokens).budget == Forward(t, tokens).budget
  {
    hide Forward;
    BudgetLeft(s, tokens);
    BudgetLeft(t, tokens);
  }

  lemma BudgetLeft(s: Sched, tokens: nat)
    ensures Forward(s, tokens).budget == tokens - |Decoders(s)| - SizeOf(Forward(s, tokens).chunks)
  {
    var ids, p := SortedIds(Prefillers(s)), Start(s, tokens);
    ContinueBudget(ids, p);
    PullBudget(Continue(ids, p));
  }

  lemma GiveBudget(p: Pass, r: Req, c: nat)
    ensures Give(p, r, c).budget + SizeOf(Give(p, r, c).chunks) == p.budget + SizeOf(p.chunks)
  {
    assert Give(p, r, c).chunks[..|p.chunks|] == p.chunks;
  }

  lemma {:induction false} ContinueBudget(ids: seq<Rid>, p: Pass)
    ensures Continue(ids, p).budget + SizeOf(Continue(ids, p).chunks) == p.budget + SizeOf(p.chunks)
    decreases |ids|
  {
    hide SizeOf, Give;
    if ids != [] && p.budget > 0 {
      var c := if ids[0] in p.running then Min(p.running[ids[0]].Owed(), p.budget) else 0;
      if c != 0 {
        GiveBudget(p, p.running[ids[0]], c);
      }
      ContinueBudget(ids[1..], if c == 0 then p else Give(p, p.running[ids[0]], c));
    }
  }

  lemma {:induction false} PullBudget(p: Pass)
    ensures Pull(p).budget + SizeOf(Pull(p).chunks) == p.budget + SizeOf(p.chunks)
    decreases |p.waiting|
  {
    if p.budget > 0 && p.waiting != [] {
      var next, rest := p.waiting[0], p.(waiting := p.waiting[1..]);
      GiveBudget(rest, next, Min(next.Owed(), p.budget));
      PullBudget(PullOne(p));
    }
  }

  /** Equal passes over equal decoders make equal rollouts. */
  lemma SameFirstStep(x: Sched, y: Sched, k: Rid, buf: Buffer, env: Env)
    requires env.Ok() && Forward(x, env.tokens) == Forward(y, env.tokens) && SameDecoding(x, y)
    ensures |buf.slots| < MAX_SLOTS ==> Roll(x, k, buf, env) == Roll(y, k, buf, env)
  {
    hide Forward, Mark, Progress;
    ProgressListed(x, y);
  }

  /** Conversely, equal rollouts come from equal steps. */
  lemma ServedApart(s: Sched, t: Sched, c: Req, buf: Buffer, env: Env)
    requires env.Ok() && Unique(s.Admit(c)) && Unique(t.Admit(c)) && c.Prefilling()
    requires buf.begin.None? && buf.decode.None? && |buf.slots| < MAX_SLOTS
    requires Forward(s, env.tokens).budget > 0 && Forward(t, env.tokens).budget > 0
    requires Roll(s.Admit(c), c.id, buf, env) == Roll(t.Admit(c), c.id, buf, env)
    ensures SameStep(s, t, env.tokens) && Forward(s, env.tokens).running == Forward(t, env.tokens).running
  {
    hide Forward, Unique, Decoders, SimulateOneSlot, SameDecoding, Roll;
    StepServed(s, c, buf, env);
    StepServed(t, c, buf, env);
    RollFirst(s.Admit(c), c.id, buf, env);
    RollFirst(t.Admit(c), c.id, buf, env);
    SlotTells(s.Admit(c), t.Admit(c), c.id, buf, env);
    AdmittedDecoding(s, t, c);
    ServedPass(s, c, env.tokens);
    ServedPass(t, c, env.tokens);
    LastDropped(Forward(s, env.tokens).chunks, Forward(t, env.tokens).chunks, Forward(s.Admit(c), env.tokens).chunks);
    ServedRunning(s, c, buf, env);
    ServedRunning(t, c, buf, env);
  }

  lemma LastDropped(a: seq<Chunk>, b: seq<Chunk>, all: seq<Chunk>)
    requires |all| > 0 && |all| == |a| + 1 == |b| + 1 && all[..|a|] == a && all[..|b|] == b
    ensures a == b
  {
  }

  /** The rollout's end shows who ran beside the candidate when it was first served. */
  lemma ServedRunning(b: Sched, c: Req, buf: Buffer, env: Env)
    requires env.Ok() && Unique(b.Admit(c)) && c.Prefilling()
    requires buf.begin.None? && buf.decode.None? && |buf.slots| < MAX_SLOTS && Forward(b, env.tokens).budget > 0
    ensures Forward(b, env.tokens).running == Roll(b.Admit(c), c.id, buf, env).1.running - {c.id}
  {
    hide Forward, Unique, Decoders, SimulateOneSlot;
    StepServed(b, c, buf, env);
    ServedPass(b, c, env.tokens);
    var s', pushed := RollUnfold(b.Admit(c), c.id, buf, env);
    RestStands(s', c.id, pushed, env);
  }

  // ---------- Whole rollouts ----------

  /** While those ahead use up the budget, the candidate changes nothing but the queue's end. */
  lemma BehindRoll(b: Sched, c: Req, buf: Buffer, env: Env) returns (pushed: Buffer)
    requires env.Ok() && Unique(b.Admit(c)) && Forward(b, env.tokens).budget <= 0
    requires buf.decode.None? && |buf.slots| < MAX_SLOTS
    ensures var o := SimulateOneSlot(b, c.id, buf, env).2;
            && o.Some? && pushed == buf.(slots := buf.slots + [o.value])
            && Roll(b.Admit(c), c.id, buf, env) == Roll(Forward(b, env.tokens).ToSched().Admit(c), c.id, pushed, env)
            && |Roll(b.Admit(c), c.id, buf, env).0.slots| > |buf.slots|
            && Roll(b.Admit(c), c.id, buf, env).0.slots[..|buf.slots| + 1] == pushed.slots
            && Unique(Forward(b, env.tokens).ToSched().Admit(c))
            && c.id !in o.value.prefill
  {
    hide Forward, Unique, SimulateOneSlot;
    StepBehind(b, c, buf, env);
    BehindFacts(b, c, env.tokens);
    var s';
    s', pushed := RollUnfold(b.Admit(c), c.id, buf, env);
    RollExtends(s', c.id, pushed, env);
  }

  // ---------- A fully cached candidate ----------

  /** Where budget is left over, a fully cached candidate joins the running requests without a chunk. */
  lemma CachedPass(b: Sched, c: Req, tokens: nat)
    requires Unique(b.Admit(c)) && Forward(b, tokens).budget > 0 && !c.Prefilling()
    ensures var q, p := Forward(b, tokens), Forward(b.Admit(c), tokens);
            && q.waiting == [] && p == q.(running := q.running[c.id := c]) && c.id !in q.running
            && Decoders(b.Admit(c)) == Decoders(b) && c.id !in b.running
            && (forall j | j in q.running :: !q.running[j].Prefilling())
            && c.id !in ChunkIds(q.chunks)
  {
    hide Forward, Owed, Unique, ChunkIds;
    UniqueAdmit(b, c);
    ForwardCandidate(b, c, tokens);
    SlotConserves(b, tokens);
    ForwardDone(b, tokens);
    LeftOver(b, tokens);
    ForeignChunks(b, tokens, c.id);
  }

  /** No chunk of a pass goes to an id that is not in flight. */
  lemma ForeignChunks(b: Sched, tokens: nat, k: Rid)
    requires Unique(b) && k !in InFlight(b)
    ensures k !in Forward(b, tokens).running && k !in ChunkIds(Forward(b, tokens).chunks)
  {
    hide Forward, Owed;
    SlotConserves(b, tokens);
    var q := Forward(b, tokens);
    assert k !in InFlight(q.ToSched());
    var n := ForwardAccount(b, tokens);
    forall i | 0 <= i < |q.chunks|
      ensures q.chunks[i].id != k
    {
      assert ChunkOk(Base(b, n), q, i);
    }
  }

  /** Its step is the step of those ahead, or no step when they have none. */
  lemma CachedStep(b: Sched, c: Req, buf: Buffer, env: Env)
    requires env.Ok() && Unique(b.Admit(c)) && Forward(b, env.tokens).budget > 0 && !c.Prefilling()
    ensures var (s', buf', o) := SimulateOneSlot(b.Admit(c), c.id, buf, env);
            && s' == Sched([], Forward(b, env.tokens).running[c.id := c]) && buf' == buf
            && o == SimulateOneSlot(b, c.id, buf, env).2
  {
    hide Forward, Unique;
    CachedPass(b, c, env.tokens);
    var ids := SortedIds(Decoders(b));
    assert c.id !in ids;
    assert Progress(b.Admit(c), ids) == Progress(b, ids);
    assert buf == Mark(buf, c.id, |buf.slots|, Forward(b.Admit(c), env.tokens), ids);
  }

  lemma CachedRoll(b: Sched, c: Req, buf: Buffer, env: Env)
    requires env.Ok() && Unique(b.Admit(c)) && Forward(b, env.tokens).budget > 0 && !c.Prefilling()
    requires buf.decode.None? && |buf.slots| < MAX_SLOTS
    ensures var (r, tail) := Roll(b.Admit(c), c.id, buf, env);
            var o := SimulateOneSlot(b, c.id, buf, env).2;
            && Forward(b, env.tokens).running == tail.running - {c.id}
            && (o.None? ==> r.slots == buf.slots)
            && (o.Some? ==> |r.slots| > |buf.slots| && r.slots[|buf.slots|] == o.value)
  {
    hide Forward, Unique, SimulateOneSlot;
    CachedPass(b, c, env.tokens);
    CachedStep(b, c, buf, env);
    var q := Forward(b, env.tokens);
    var s' := Sched([], q.running[c.id := c]);
    if SimulateOneSlot(b, c.id, buf, env).2.Some? {
      RollFirst(b.Admit(c), c.id, buf, env);
      var s'', pushed := RollUnfold(b.Admit(c), c.id, buf, env);
      RestStands(s', c.id, pushed, env);
    }
  }

  lemma CachedIff(s: Sched, t: Sched, c: Req, buf: Buffer, env: Env)
    requires env.Ok() && Unique(s.Admit(c)) && Unique(t.Admit(c)) && !c.Prefilling()
    requires buf.decode.None? && |buf.slots| < MAX_SLOTS
    requires Forward(s, env.tokens).budget > 0 && Forward(t, env.tokens).budget > 0
    ensures Roll(s.Admit(c), c.id, buf, env) == Roll(t.Admit(c), c.id, buf, env) <==>
            SameStep(s, t, env.tokens) && Forward(s, env.tokens).running == Forward(t, env.tokens).running
  {
    hide Forward, Unique, SimulateOneSlot, SameDecoding;
    CachedRoll(s, c, buf, env);
    CachedRoll(t, c, buf, env);
    CachedStep(s, c, buf, env);
    CachedStep(t, c, buf, env);
    SlotOrNone(s, t, c.id, buf, env);
  }

  /** Two steps yield the same, a slot or none, just when they schedule the same and decode alike. */
  lemma SlotOrNone(s: Sched, t: Sched, k: Rid, buf: Buffer, env: Env)
    requires env.Ok()
    ensures SimulateOneSlot(s, k, buf, env).2 == SimulateOneSlot(t, k, buf, env).2 <==>
            Forward(s, env.tokens).chunks == Forward(t, env.tokens).chunks && SameDecoding(s, t)
  {
    hide Forward, Mark, MakeBatch;
    if SimulateOneSlot(s, k, buf, env).2.Some? && SimulateOneSlot(t, k, buf, env).2.Some? {
      SlotTells(s, t, k, buf, env);
    } else {
      NothingDecodes(s);
      NothingDecodes(t);
    }
  }

  lemma NothingDecodes(s: Sched)
    ensures SortedIds(Decoders(s)) == [] <==> Decoders(s) == {}
  {
    if k :| k in Decoders(s) {
      assert k in SortedIds(Decoders(s));
    }
  }

  /** Only one of the two leaves budget over: their first steps differ, and the rollouts show it. */
  lemma CachedMixed(s: Sched, t: Sched, c: Req, buf: Buffer, env: Env)
    requires env.Ok() && Unique(s.Admit(c)) && Unique(t.Admit(c)) && !c.Prefilling()
    requires buf.decode.None? && |buf.slots| < MAX_SLOTS
    requires Forward(s, env.tokens).budget > 0 && Forward(t, env.tokens).budget <= 0
    ensures Roll(s.Admit(c), c.id, buf, env) != Roll(t.Admit(c), c.id, buf, env)
  {
    hide Forward, Unique, SimulateOneSlot, SameDecoding, Roll;
    CachedRoll(s, c, buf, env);
    var pushed := BehindRoll(t, c, buf, env);
    assert pushed.slots[|buf.slots|] == SimulateOneSlot(t, c.id, buf, env).2.value;
    SlotOrNone(s, t, c.id, buf, env);
    BudgetLeft(s, env.tokens);
    BudgetLeft(t, env.tokens);
    if SameDecoding(s, t) {
      SameDecoders(s, t);
    }
  }

  // ---------- Every candidate ----------

  /** The answer to a new request is the same from two states if and only if these run alike ahead of it. */
  lemma {:induction false} RollSame(s: Sched, t: Sched, c: Req, buf: Buffer, env: Env)
    requires env.Ok() && Unique(s.Admit(c)) && Unique(t.Admit(c))
    requires buf.begin.None? && buf.decode.None?
    ensures Roll(s.Admit(c), c.id, buf, env) == Roll(t.Admit(c), c.id, buf, env) <==>
            SameAhead(s, t, env.tokens, |buf.slots|)
    decreases MAX_SLOTS - |buf.slots|
  {
    hide Forward, Unique, SimulateOneSlot, SameStep, Roll;
    if |buf.slots| >= MAX_SLOTS {
      CapSame(s, t, c, buf, env);
    } else if Forward(s, env.tokens).budget > 0 && Forward(t, env.tokens).budget > 0 {
      if c.Prefilling() {
        ServedIff(s, t, c, buf, env);
      } else {
        CachedIff(s, t, c, buf, env);
      }
    } else if Forward(s, env.tokens).budget <= 0 && Forward(t, env.tokens).budget <= 0 {
      BehindIff(s, t, c, buf, env);
      var pushed1 := BehindRoll(s, c, buf, env);
      var pushed2 := BehindRoll(t, c, buf, env);
      if SameStep(s, t, env.tokens) {
        RollSame(Forward(s, env.tokens).ToSched(), Forward(t, env.tokens).ToSched(), c, pushed1, env);
      }
    } else {
      MixedDiffer(s, t, c, buf, env);
    }
  }

  lemma CapSame(s: Sched, t: Sched, c: Req, buf: Buffer, env: Env)
    requires env.Ok() && |buf.slots| >= MAX_SLOTS
    ensures Roll(s.Admit(c), c.id, buf, env) == Roll(t.Admit(c), c.id, buf, env) <==> s == t
  {
    assert s.Admit(c).waiting[..|s.waiting|] == s.waiting && t.Admit(c).waiting[..|t.waiting|] == t.waiting;
    if s.Admit(c) == t.Admit(c) {
      assert |s.waiting| + 1 == |t.waiting| + 1;
    }
  }

  lemma ServedIff(s: Sched, t: Sched, c: Req, buf: Buffer, env: Env)
    requires env.Ok() && Unique(s.Admit(c)) && Unique(t.Admit(c)) && c.Prefilling()
    requires buf.begin.None? && buf.decode.None? && |buf.slots| < MAX_SLOTS
    requires Forward(s, env.tokens).budget > 0 && Forward(t, env.tokens).budget > 0
    ensures Roll(s.Admit(c), c.id, buf, env) == Roll(t.Admit(c), c.id, buf, env) <==>
            SameStep(s, t, env.tokens) && Forward(s, env.tokens).running == Forward(t, env.tokens).running
  {
    hide Forward, Unique, SimulateOneSlot, SameStep, Roll;
    if Roll(s.Admit(c), c.id, buf, env) == Roll(t.Admit(c), c.id, buf, env) {
      ServedApart(s, t, c, buf, env);
    }
    if SameStep(s, t, env.tokens) && Forward(s, env.tokens).running == Forward(t, env.tokens).running {
      ServedSame(s, t, c, buf, env);
    }
  }

  /** While both states use up the budget, equal rollouts mean equal steps, and these equal buffers. */
  lemma BehindIff(s: Sched, t: Sched, c: Req, buf: Buffer, env: Env)
    requires env.Ok() && Unique(s.Admit(c)) && Unique(t.Admit(c)) && buf.decode.None? && |buf.slots| < MAX_SLOTS
    requires Forward(s, env.tokens).budget <= 0 && Forward(t, env.tokens).budget <= 0
    ensures Roll(s.Admit(c), c.id, buf, env) == Roll(t.Admit(c), c.id, buf, env) ==> SameStep(s, t, env.tokens)
    ensures SameStep(s, t, env.tokens) ==>
              SimulateOneSlot(s, c.id, buf, env).2 == SimulateOneSlot(t, c.id, buf, env).2
  {
    hide Forward, Unique, SimulateOneSlot, SameDecoding, Roll;
    var pushed1 := BehindRoll(s, c, buf, env);
    var pushed2 := BehindRoll(t, c, buf, env);
    SlotTells(s, t, c.id, buf, env);
    if Roll(s.Admit(c), c.id, buf, env) == Roll(t.Admit(c), c.id, buf, env) {
      assert pushed1.slots[|buf.slots|] == pushed2.slots[|buf.slots|];
    }
  }

  lemma MixedDiffer(s: Sched, t: Sched, c: Req, buf: Buffer, env: Env)
    requires env.Ok() && Unique(s.Admit(c)) && Unique(t.Admit(c))
    requires buf.begin.None? && buf.decode.None? && |buf.slots| < MAX_SLOTS
    requires (Forward(s, env.tokens).budget > 0) != (Forward(t, env.tokens).budget > 0)
    ensures Roll(s.Admit(c), c.id, buf, env) != Roll(t.Admit(c), c.id, buf, env)
    ensures !SameStep(s, t, env.tokens)
  {
    hide Forward, Unique, SimulateOneSlot, Roll;
    if c.Prefilling() {
      FirstServes(s, c, buf, env);
      FirstServes(t, c, buf, env);
    } else if Forward(s, env.tokens).budget > 0 {
      CachedMixed(s, t, c, buf, env);
    } else {
      CachedMixed(t, s, c, buf, env);
    }
  }

  /** The first new slot shows whether the candidate was served in it. */
  lemma FirstServes(b: Sched, c: Req, buf: Buffer, env: Env)
    requires env.Ok() && Unique(b.Admit(c)) && c.Prefilling()
    requires buf.begin.None? && buf.decode.None? && |buf.slots| < MAX_SLOTS
    ensures var r := Roll(b.Admit(c), c.id, buf, env).0;
            |r.slots| > |buf.slots| && (c.id in r.slots[|buf.slots|].prefill <==> Forward(b, env.tokens).budget > 0)
  {
    hide Forward, Unique, SimulateOneSlot, Roll;
    if Forward(b, env.tokens).budget > 0 {
      StepServed(b, c, buf, env);
      RollFirst(b.Admit(c), c.id, buf, env);
    } else {
      StepBehind(b, c, buf, env);
      RollFirst(b.Admit(c), c.id, buf, env);
    }
  }
}
