/** What the simulated steps of a rollout stand for, and what its markers and its answer tell about them. */
module Timeline {
  import opened Basics
  import opened Options
  import opened Sched
  import opened Slots
  import opened Rollout
  import opened EphemeralRollout

  // ---------- Who is served ----------

  ghost predicate Filed(m: map<Rid, Req>) {
    forall k | k in m :: m[k].id == k
  }

  /** The pass after the first of the running requests has had its turn. */
  function Head(ids: seq<Rid>, p: Pass): Pass
    requires ids != [] && p.budget > 0
  {
    var c := if ids[0] in p.running then Min(p.running[ids[0]].Owed(), p.budget) else 0;
    if c == 0 then p else Give(p, p.running[ids[0]], c)
  }

  /** Chunks of running requests go to the ids listed, and leave the other requests alone. */
  lemma {:induction false} ContinueServes(ids: seq<Rid>, p: Pass, k: Rid, i: nat)
    requires Filed(p.running)
    ensures var r := Continue(ids, p);
            && Filed(r.running) && r.running.Keys == p.running.Keys && |p.chunks| <= |r.chunks|
            && (i < |p.chunks| ==> r.chunks[i] == p.chunks[i])
            && (|p.chunks| <= i < |r.chunks| ==> r.chunks[i].id in ids && r.chunks[i].id in p.running)
            && (k in p.running && k !in ids ==> r.running[k] == p.running[k])
    decreases |ids|
  {
    if ids != [] && p.budget > 0 {
      ContinueServes(ids[1..], Head(ids, p), k, i);
      assert ids == [ids[0]] + ids[1..];
    }
  }

  /** A listed request that is left with prefill to do has used up the budget: nobody listed after it is
      served. */
  lemma {:induction false} ContinueInOrder(ids: seq<Rid>, p: Pass, j: nat, i: nat)
    requires Filed(p.running) && Increasing(ids) && j < |ids| && ids[j] in p.running
    ensures var r := Continue(ids, p);
            ids[j] in r.running && r.running[ids[j]].Prefilling() ==>
              r.budget <= 0 && (|p.chunks| <= i < |r.chunks| ==> r.chunks[i].id <= ids[j])
    decreases |ids|
  {
    if p.budget > 0 {
      var q := Head(ids, p);
      ContinueServes(ids[1..], q, ids[0], i);
      if j > 0 {
        assert ids[1..][j - 1] == ids[j];
        ContinueInOrder(ids[1..], q, j - 1, i);
      }
    }
  }

  /** Later chunks go to requests that were waiting, and leave the running ones alone. */
  lemma {:induction false} PullServes(p: Pass, k: Rid, i: nat)
    ensures var r := Pull(p);
            && |p.chunks| <= |r.chunks|
            && (i < |p.chunks| ==> r.chunks[i] == p.chunks[i])
            && (|p.chunks| <= i < |r.chunks| ==> p.budget > 0 && r.chunks[i].id in QueueIds(p.waiting))
            && (k in p.running && k !in QueueIds(p.waiting) ==> k in r.running && r.running[k] == p.running[k])
    decreases |p.waiting|
  {
    if p.budget > 0 && p.waiting != [] {
      PullServes(PullOne(p), k, i);
    }
  }

  lemma QueueApart(s: Sched, k: Rid)
    requires Unique(s) && k in s.running
    ensures k !in QueueIds(s.waiting)
  {
    QueueIdsAre(s.waiting, k);
    assert forall i | 0 <= i < |s.waiting| :: s.waiting[i] in s.waiting;
  }

  /** Order of service: a chunk goes to a running request that owed prefill or to one that was waiting. If a
      running request k still owes prefill after the step, then nobody waiting and nobody running with a larger
      id was served. */
  lemma SlotInOrder(s: Sched, tokens: nat, k: Rid, i: nat)
    requires Unique(s) && i < |Forward(s, tokens).chunks|
    ensures var p := Forward(s, tokens);
            var c := p.chunks[i].id;
            && (if c in s.running then s.running[c].Prefilling() else c in QueueIds(s.waiting))
            && (k in s.running && s.running[k].Prefilling() && k in p.running && p.running[k].Prefilling() ==>
                  c in s.running && c <= k)
  {
    hide Unique;
    var ids, start := SortedIds(Prefillers(s)), Start(s, tokens);
    var p1 := Continue(ids, start);
    UniqueFiled(s);
    ContinueServes(ids, start, k, i);
    PullServes(p1, k, i);
    ContinueQueue(ids, start);
    if k in s.running && s.running[k].Prefilling() {
      QueueApart(s, k);
      assert k in ids;
      var j :| 0 <= j < |ids| && ids[j] == k;
      ContinueInOrder(ids, start, j, i);
    }
    if Forward(s, tokens).chunks[i].id in s.running {
      QueueApart(s, Forward(s, tokens).chunks[i].id);
    }
  }

  lemma UniqueFiled(s: Sched)
    requires Unique(s)
    ensures Filed(s.running)
  {
  }

  lemma {:induction false} ContinueQueue(ids: seq<Rid>, p: Pass)
    ensures Continue(ids, p).waiting == p.waiting
    decreases |ids|
  {
    if ids != [] && p.budget > 0 {
      ContinueQueue(ids[1..], Head(ids, p));
    }
  }

  // ---------- What a slot stands for ----------

  /** Request k is in flight in state s, and stands as r. */
  ghost predicate Stands(s: Sched, k: Rid, r: Req) {
    r.id == k && ((k in s.running && s.running[k] == r) || r in s.waiting)
  }

  /** From s to t request k, which had `computed` tokens, was given n more. */
  ghost predicate Prefilled(s: Sched, t: Sched, k: Rid, computed: nat, n: nat) {
    n > 0 && k in t.running && t.running[k].processed == computed + n
    && Stands(s, k, t.running[k].(processed := computed))
  }

  /** The batch lists the prefill of the step from s to t, request by request. */
  ghost predicate ListsPrefill(s: Sched, t: Sched, slot: RolloutSlot) {
    && |slot.batch.prefillTokens| == |slot.batch.prefillComputed| == |slot.prefill|
    && (forall i | 0 <= i < |slot.prefill| ::
          Prefilled(s, t, slot.prefill[i], slot.batch.prefillComputed[i], slot.batch.prefillTokens[i]))
    && (forall i, j | 0 <= i < j < |slot.prefill| :: slot.prefill[i] != slot.prefill[j])
    && (forall k | k in t.running && k !in slot.prefill :: Stands(s, k, t.running[k]))
  }

  /** It lists the decoding requests of s in increasing order, with their progress. */
  ghost predicate ListsDecode(s: Sched, slot: RolloutSlot) {
    && Increasing(slot.decode)
    && (forall k :: k in slot.decode <==> k in s.running && !s.running[k].Prefilling())
    && |slot.batch.decodeComputed| == |slot.decode|
    && (forall i | 0 <= i < |slot.decode| ::
          slot.decode[i] in s.running && slot.batch.decodeComputed[i] == s.running[slot.decode[i]].processed)
  }

  /** Its size is the number of requests, its tokens are the prefill done and one for each decoding request, and
      the rounded number is the next multiple of the block size. */
  ghost predicate Totals(s: Sched, t: Sched, slot: RolloutSlot, blockSize: nat) {
    var b := slot.batch;
    && b.size == |slot.prefill| + |slot.decode|
    && b.numTokens == Owed(s) - Owed(t) + |slot.decode|
    && (exists q: nat :: b.numTokensRounded == q * blockSize)
    && b.numTokens <= b.numTokensRounded < b.numTokens + blockSize
  }

  /** The slot describes the step from s to t, and its latency is what the predictor says of that step. */
  ghost predicate Describes(s: Sched, t: Sched, slot: RolloutSlot, env: Env) {
    && ListsPrefill(s, t, slot) && ListsDecode(s, slot) && Totals(s, t, slot, env.blockSize)
    && slot.latency == env.predict(slot.batch)
  }

  lemma RoundsUp(n: nat, b: nat)
    requires b >= 1
    ensures exists q: nat :: RoundUp(n, b) == q * b
    ensures n <= RoundUp(n, b) < n + b
  {
    var q: nat := (n + b - 1) / b;
    assert RoundUp(n, b) == q * b;
    assert n + b - 1 == b * q + (n + b - 1) % b;
  }

  lemma {:induction false} BaseStands(s: Sched, n: nat, k: Rid)
    requires n <= |s.waiting| && k in Base(s, n) && forall j | j in s.running :: s.running[j].id == j
    ensures Stands(s, k, Base(s, n)[k])
  {
    if n > 0 {
      if k == s.waiting[n - 1].id {
        assert s.waiting[n - 1] in s.waiting;
      } else {
        BaseStands(s, n - 1, k);
      }
    }
  }

  lemma ChunkPrefills(s: Sched, p: Pass, n: nat, i: nat)
    requires Unique(s) && n <= |s.waiting| && Rows(Base(s, n), p) && i < |p.chunks|
    ensures Prefilled(s, p.ToSched(), p.chunks[i].id, p.chunks[i].computed, p.chunks[i].size)
  {
    assert ChunkOk(Base(s, n), p, i);
    BaseStands(s, n, p.chunks[i].id);
  }

  lemma RestStands(s: Sched, p: Pass, n: nat, k: Rid)
    requires Unique(s) && n <= |s.waiting| && Rows(Base(s, n), p)
    requires k in p.running && k !in ChunkIds(p.chunks)
    ensures Stands(s, k, p.running[k])
  {
    assert RowOk(Base(s, n), p, k);
    BaseStands(s, n, k);
    ServedListed(p.chunks, k);
  }

  lemma ServedListed(chunks: seq<Chunk>, k: Rid)
    ensures k in Served(chunks) ==> k in ChunkIds(chunks)
  {
    if k in Served(chunks) {
      ServedIsChunk(chunks, k);
      var i :| 0 <= i < |chunks| && chunks[i].id == k;
      assert ChunkIds(chunks)[i] == k;
    }
  }

  lemma PassLists(s: Sched, tokens: nat, slot: RolloutSlot)
    requires Unique(s)
    requires var c := Forward(s, tokens).chunks;
             slot.prefill == ChunkIds(c) && slot.batch.prefillTokens == ChunkSizes(c)
             && slot.batch.prefillComputed == ChunkStarts(c)
    ensures ListsPrefill(s, Forward(s, tokens).ToSched(), slot)
  {
    hide Forward, Unique, Rows, Prefilled, Stands;
    SlotIsFcfs(s, tokens);
    var p := Forward(s, tokens);
    var n := |s.waiting| - |p.waiting|;
    forall i | 0 <= i < |slot.prefill|
      ensures Prefilled(s, p.ToSched(), slot.prefill[i], slot.batch.prefillComputed[i], slot.batch.prefillTokens[i])
    {
      ChunkPrefills(s, p, n, i);
    }
    forall k | k in p.running && k !in slot.prefill
      ensures Stands(s, k, p.running[k])
    {
      RestStands(s, p, n, k);
    }
    ChunksApart(Base(s, n), p);
  }

  lemma ChunksApart(base: map<Rid, Req>, p: Pass)
    requires Rows(base, p)
    ensures forall i, j | 0 <= i < j < |p.chunks| :: p.chunks[i].id != p.chunks[j].id
  {
  }

  /** The parts of a simulated slot. */
  lemma SlotIs(s: Sched, cid: Rid, buf: Buffer, env: Env) returns (p: Pass, slot: RolloutSlot)
    requires env.Ok() && SimulateOneSlot(s, cid, buf, env).2.Some?
    ensures p == Forward(s, env.tokens) && slot == SimulateOneSlot(s, cid, buf, env).2.value
    ensures SimulateOneSlot(s, cid, buf, env).0 == p.ToSched()
    ensures slot.prefill == ChunkIds(p.chunks) && slot.decode == SortedIds(Decoders(s))
    ensures slot.batch.prefillTokens == ChunkSizes(p.chunks) && slot.batch.prefillComputed == ChunkStarts(p.chunks)
    ensures slot.batch.numTokens == SizeOf(p.chunks) + |slot.decode|
    ensures slot.batch.numTokensRounded == RoundUp(slot.batch.numTokens, env.blockSize)
    ensures slot.batch.size == |p.chunks| + |slot.decode|
    ensures (forall k | k in slot.decode :: k in s.running)
            && slot.batch.decodeComputed == Progress(s, slot.decode)
    ensures slot.latency == env.predict(slot.batch)
  {
    hide Forward, RoundUp, SizeOf, Progress, ChunkSizes, ChunkStarts, Mark;
    p := Forward(s, env.tokens);
    slot := SimulateOneSlot(s, cid, buf, env).2.value;
  }

  lemma DecodeLists(s: Sched, slot: RolloutSlot)
    requires slot.decode == SortedIds(Decoders(s)) && forall k | k in slot.decode :: k in s.running
    requires slot.batch.decodeComputed == Progress(s, slot.decode)
    ensures ListsDecode(s, slot)
  {
    forall i | 0 <= i < |slot.decode|
      ensures slot.decode[i] in s.running
    {
      assert slot.decode[i] in slot.decode;
    }
  }

  lemma PassTotals(s: Sched, slot: RolloutSlot, env: Env)
    requires env.Ok() && Unique(s)
    requires var p := Forward(s, env.tokens);
             slot.batch.numTokens == SizeOf(p.chunks) + |slot.decode| && slot.prefill == ChunkIds(p.chunks)
             && slot.batch.size == |p.chunks| + |slot.decode|
    requires slot.batch.numTokensRounded == RoundUp(slot.batch.numTokens, env.blockSize)
    ensures Totals(s, Forward(s, env.tokens).ToSched(), slot, env.blockSize)
  {
    hide Forward, RoundUp, SizeOf, Unique, Owed, Decoders;
    SlotConserves(s, env.tokens);
    RoundsUp(slot.batch.numTokens, env.blockSize);
  }

  /** Every simulated slot describes its step: whom it prefills and by how much, who decodes, and the totals the
      predictor is asked about. */
  lemma SlotDescribes(s: Sched, cid: Rid, buf: Buffer, env: Env)
    requires env.Ok() && Unique(s) && SimulateOneSlot(s, cid, buf, env).2.Some?
    ensures var (s', buf', o) := SimulateOneSlot(s, cid, buf, env);
            s' == After(s, env.tokens, 1) && Describes(s, s', o.value, env)
  {
    hide SimulateOneSlot, Forward, RoundUp, SizeOf, Unique, Owed, ListsPrefill, ListsDecode, Totals, Progress;
    var p, slot := SlotIs(s, cid, buf, env);
    PassLists(s, env.tokens, slot);
    DecodeLists(s, slot);
    PassTotals(s, slot, env);
    AfterOne(s, env.tokens);
  }

  lemma NoChunks(s: Sched, tokens: nat)
    requires Unique(s)
    ensures Forward(s, tokens).chunks == [] <==> SizeOf(Forward(s, tokens).chunks) == 0
  {
    hide Forward, Unique;
    SlotIsFcfs(s, tokens);
    var p := Forward(s, tokens);
    if p.chunks != [] {
      assert ChunkOk(Base(s, |s.waiting| - |p.waiting|), p, |p.chunks| - 1);
    }
  }

  /** A step yields no slot exactly if nobody decodes and no prefill is owed. */
  lemma SlotStops(s: Sched, cid: Rid, buf: Buffer, env: Env)
    requires env.Ok() && Unique(s)
    ensures SimulateOneSlot(s, cid, buf, env).2.None? <==> Decoders(s) == {} && Owed(s) == 0
    ensures SimulateOneSlot(s, cid, buf, env).0 == After(s, env.tokens, 1)
  {
    hide Forward, Unique, Owed, MakeBatch, Mark, SizeOf, Decoders;
    SlotConserves(s, env.tokens);
    NoChunks(s, env.tokens);
    AfterOne(s, env.tokens);
  }

  // ---------- Markers ----------

  /** `at` is the first step, counted from `n`, that prefills request k. */
  ghost predicate FirstPrefill(slots: seq<RolloutSlot>, n: nat, k: Rid, at: Option<nat>) {
    match at
    case None => forall j | n <= j < |slots| :: k !in slots[j].prefill
    case Some(i) => n <= i < |slots| && k in slots[i].prefill && forall j | n <= j < i :: k !in slots[j].prefill
  }

  /** `at` is the first step that decodes it. */
  ghost predicate FirstDecode(slots: seq<RolloutSlot>, n: nat, k: Rid, at: Option<nat>) {
    match at
    case None => forall j | n <= j < |slots| :: k !in slots[j].decode
    case Some(i) => n <= i < |slots| && k in slots[i].decode && forall j | n <= j < i :: k !in slots[j].decode
  }

  /** `at` is the last step that prefills it, if its prefill is complete. */
  ghost predicate LastPrefill(slots: seq<RolloutSlot>, n: nat, k: Rid, at: Option<nat>, s: Sched) {
    match at
    case None => forall j | n <= j < |slots| && k in slots[j].prefill :: k in s.running && s.running[k].Prefilling()
    case Some(i) =>
      && n <= i < |slots| && k in slots[i].prefill && (forall j | i < j < |slots| :: k !in slots[j].prefill)
      && k in s.running && !s.running[k].Prefilling()
  }

  /** The markers say when request k is prefilled and decoded in the slots from step n on, s being the state at
      their end. */
  ghost predicate Marked(s: Sched, b: Buffer, n: nat, k: Rid) {
    && FirstPrefill(b.slots, n, k, b.begin) && FirstDecode(b.slots, n, k, b.decode)
    && LastPrefill(b.slots, n, k, b.end, s)
  }

  /** What a step means for request k. */
  lemma StepOf(s: Sched, k: Rid, tokens: nat)
    requires Unique(s)
    ensures var p := Forward(s, tokens);
            && (k in ChunkIds(p.chunks) ==> k in p.running && (k in s.running ==> s.running[k].Prefilling()))
            && (k !in ChunkIds(p.chunks) && k in s.running ==> k in p.running && p.running[k] == s.running[k])
  {
    hide Forward, Unique, Rows;
    SlotIsFcfs(s, tokens);
    var p := Forward(s, tokens);
    var n := |s.waiting| - |p.waiting|;
    if k in ChunkIds(p.chunks) {
      var i :| 0 <= i < |p.chunks| && ChunkIds(p.chunks)[i] == k;
      ChunkPrefills(s, p, n, i);
      SlotInOrder(s, tokens, k, i);
    } else if k in s.running {
      BaseKeeps(s, n, k);
      RowsKeys(Base(s, n), p, k);
      RestStands(s, p, n, k);
      StandsOnce(s, k, p.running[k]);
    }
  }

  lemma {:induction false} BaseKeeps(s: Sched, n: nat, k: Rid)
    requires n <= |s.waiting| && k in s.running
    ensures k in Base(s, n)
  {
    if n > 0 {
      BaseKeeps(s, n - 1, k);
    }
  }

  lemma RowsKeys(base: map<Rid, Req>, p: Pass, k: Rid)
    requires Rows(base, p) && k in base
    ensures k in p.running
  {
  }

  lemma StandsOnce(s: Sched, k: Rid, r: Req)
    requires Unique(s) && Stands(s, k, r) && k in s.running
    ensures r == s.running[k]
  {
  }

  lemma FirstPrefillMore(slots: seq<RolloutSlot>, n: nat, k: Rid, at: Option<nat>, slot: RolloutSlot)
    requires n <= |slots| && FirstPrefill(slots, n, k, at)
    ensures FirstPrefill(slots + [slot], n, k, if k in slot.prefill && at.None? then Some(|slots|) else at)
  {
    assert forall j | 0 <= j < |slots| :: (slots + [slot])[j] == slots[j];
  }

  lemma FirstDecodeMore(slots: seq<RolloutSlot>, n: nat, k: Rid, slot: RolloutSlot)
    requires n <= |slots| && FirstDecode(slots, n, k, None)
    ensures FirstDecode(slots + [slot], n, k, if k in slot.decode then Some(|slots|) else None)
  {
    assert forall j | 0 <= j < |slots| :: (slots + [slot])[j] == slots[j];
  }

  /** The step from s to t, whose prefill goes to `ids`, completes what request k still owes or leaves it owing. */
  ghost predicate StepsTo(s: Sched, t: Sched, ids: seq<Rid>, k: Rid) {
    && (k in ids ==> k in t.running && (k in s.running ==> s.running[k].Prefilling()))
    && (k !in ids && k in s.running ==> k in t.running && t.running[k] == s.running[k])
  }

  lemma LastPrefillMore(
      slots: seq<RolloutSlot>, n: nat, k: Rid, at: Option<nat>, slot: RolloutSlot, s: Sched, t: Sched)
    requires n <= |slots| && LastPrefill(slots, n, k, at, s) && StepsTo(s, t, slot.prefill, k)
    ensures LastPrefill(slots + [slot], n, k,
                        if k in slot.prefill && !t.running[k].Prefilling() then Some(|slots|) else at, t)
  {
    assert forall j | 0 <= j < |slots| :: (slots + [slot])[j] == slots[j];
  }

  lemma LastPrefillSame(slots: seq<RolloutSlot>, n: nat, k: Rid, at: Option<nat>, s: Sched, t: Sched)
    requires LastPrefill(slots, n, k, at, s) && StepsTo(s, t, [], k)
    ensures LastPrefill(slots, n, k, at, t)
  {
  }

  /** How a step moves the markers. */
  lemma MarksOf(s: Sched, b: Buffer, k: Rid, env: Env)
    requires env.Ok() && Unique(s) && b.decode.None?
    ensures var (t, b', o) := SimulateOneSlot(s, k, b, env);
            && b'.slots == b.slots && StepsTo(s, t, if o.Some? then o.value.prefill else [], k)
            && (o.None? ==> b' == b)
            && (o.Some? ==>
                  && b'.begin == (if k in o.value.prefill && b.begin.None? then Some(|b.slots|) else b.begin)
                  && b'.end == (if k in o.value.prefill && !t.running[k].Prefilling() then Some(|b.slots|) else b.end)
                  && b'.decode == (if k in o.value.decode then Some(|b.slots|) else None))
  {
    hide Forward, Unique, MakeBatch;
    StepOf(s, k, env.tokens);
  }

  lemma MarkedStep(s: Sched, b: Buffer, n: nat, k: Rid, env: Env)
    requires env.Ok() && Unique(s) && Marked(s, b, n, k) && n <= |b.slots| && b.decode.None?
    ensures var (s', b', o) := SimulateOneSlot(s, k, b, env);
            && b'.slots == b.slots
            && Marked(s', match o case None => b' case Some(slot) => b'.(slots := b.slots + [slot]), n, k)
  {
    hide SimulateOneSlot, Unique, StepsTo, FirstPrefill, FirstDecode, LastPrefill;
    MarksOf(s, b, k, env);
    var (s', b', o) := SimulateOneSlot(s, k, b, env);
    match o {
      case None => LastPrefillSame(b.slots, n, k, b.end, s, s');
      case Some(slot) =>
        FirstPrefillMore(b.slots, n, k, b.begin, slot);
        FirstDecodeMore(b.slots, n, k, slot);
        LastPrefillMore(b.slots, n, k, b.end, slot, s, s');
    }
  }

  // ---------- A whole rollout ----------

  /** The slots from step n on describe, one by one, the steps that are simulated from s. */
  ghost predicate Simulates(slots: seq<RolloutSlot>, n: nat, s: Sched, env: Env) {
    forall j | n <= j < |slots| ::
      Describes(After(s, env.tokens, j - n), After(s, env.tokens, j - n + 1), slots[j], env)
  }

  ghost predicate Idle(s: Sched) {
    Decoders(s) == {} && Owed(s) == 0
  }

  /** A rollout whose steps lead to s ends at the cap, with the candidate's first decode, or when nothing is left
      to schedule; in the last case one more pass may take requests that owe nothing off the queue. */
  ghost predicate Ends(r: Buffer, tail: Sched, s: Sched, env: Env) {
    || ((|r.slots| >= MAX_SLOTS || r.decode == Some(|r.slots| - 1)) && tail == s)
    || (Idle(s) && tail == After(s, env.tokens, 1))
  }

  lemma SimulatesMore(slots: seq<RolloutSlot>, n: nat, s: Sched, s': Sched, env: Env)
    requires n < |slots| && s' == After(s, env.tokens, 1) && Simulates(slots, n + 1, s', env)
    requires Describes(s, s', slots[n], env)
    ensures Simulates(slots, n, s, env)
    ensures After(s, env.tokens, |slots| - n) == After(s', env.tokens, |slots| - n - 1)
  {
    hide Describes;
    AfterOne(s, env.tokens);
    forall j | n <= j < |slots|
      ensures Describes(After(s, env.tokens, j - n), After(s, env.tokens, j - n + 1), slots[j], env)
    {
      if j > n {
        assert After(s, env.tokens, j - n) == After(s', env.tokens, j - n - 1);
      }
    }
  }

  /** A rollout that may not go on. */
  lemma RollStops(s: Sched, k: Rid, b: Buffer, n: nat, env: Env)
    requires env.Ok() && Unique(s) && n <= |b.slots| && Marked(s, b, n, k) && b.decode.None?
    requires |b.slots| >= MAX_SLOTS || Idle(s)
    ensures var (r, tail) := Roll(s, k, b, env);
            r.slots == b.slots && Marked(tail, r, n, k) && Ends(r, tail, s, env)
  {
    hide SimulateOneSlot, Unique, Marked, Owed;
    if |b.slots| < MAX_SLOTS {
      MarkedStep(s, b, n, k, env);
      SlotStops(s, k, b, env);
    }
  }

  /** A rollout that goes on for a step. */
  lemma RollSteps(s: Sched, k: Rid, b: Buffer, n: nat, env: Env) returns (s': Sched, pushed: Buffer)
    requires env.Ok() && Unique(s) && n <= |b.slots| < MAX_SLOTS && Marked(s, b, n, k) && b.decode.None?
    requires !Idle(s)
    ensures s' == After(s, env.tokens, 1) && Unique(s') && Marked(s', pushed, n, k)
    ensures |pushed.slots| == |b.slots| + 1 && pushed.slots[..|b.slots|] == b.slots
    ensures Describes(s, s', pushed.slots[|b.slots|], env)
    ensures pushed.decode.None? || pushed.decode == Some(|b.slots|)
    ensures Roll(s, k, b, env) == if pushed.decode.Some? then (pushed, s') else Roll(s', k, pushed, env)
  {
    hide SimulateOneSlot, Forward, Unique, Marked, Describes, Owed;
    SlotStops(s, k, b, env);
    SlotDescribes(s, k, b, env);
    MarkedStep(s, b, n, k, env);
    SlotConserves(s, env.tokens);
    AfterOne(s, env.tokens);
    var t := SimulateOneSlot(s, k, b, env);
    s', pushed := t.0, t.1.(slots := b.slots + [t.2.value]);
    MarkedDecode(s, b, s', pushed, n, k);
  }

  /** A decode marker set by the last step points at it. */
  lemma MarkedDecode(s: Sched, b: Buffer, s': Sched, pushed: Buffer, n: nat, k: Rid)
    requires n <= |b.slots| && |pushed.slots| == |b.slots| + 1 && pushed.slots[..|b.slots|] == b.slots
    requires Marked(s, b, n, k) && b.decode.None? && Marked(s', pushed, n, k)
    ensures pushed.decode.None? || pushed.decode == Some(|b.slots|)
  {
    assert forall j | 0 <= j < |b.slots| :: pushed.slots[j] == b.slots[j];
  }

  lemma NothingNew(slots: seq<RolloutSlot>, s: Sched, env: Env)
    ensures Simulates(slots, |slots|, s, env) && After(s, env.tokens, 0) == s
  {
  }

  /** In any rollout, every new slot describes its step, the markers say when the candidate is prefilled and
      decoded, and the rollout goes on until it may end. */
  lemma {:induction false} RollTimeline(s: Sched, k: Rid, b: Buffer, env: Env, n: nat)
    requires env.Ok() && Unique(s) && n <= |b.slots| && Marked(s, b, n, k) && b.decode.None?
    ensures var (r, tail) := Roll(s, k, b, env);
            && |b.slots| <= |r.slots| && r.slots[..|b.slots|] == b.slots
            && Marked(tail, r, n, k) && Simulates(r.slots, |b.slots|, s, env)
            && Ends(r, tail, After(s, env.tokens, |r.slots| - |b.slots|), env)
    decreases MAX_SLOTS - |b.slots|
  {
    hide Roll, Unique, Marked, Describes, Simulates, After, Idle;
    NothingNew(b.slots, s, env);
    if |b.slots| >= MAX_SLOTS || Idle(s) {
      RollStops(s, k, b, n, env);
    } else {
      var s', pushed := RollSteps(s, k, b, n, env);
      if pushed.decode.Some? {
        NothingNew(pushed.slots, s', env);
      } else {
        RollTimeline(s', k, pushed, env, n);
      }
      var r := Roll(s, k, b, env).0;
      assert r.slots[..|b.slots| + 1] == pushed.slots;
      assert r.slots[..|b.slots|] == pushed.slots[..|b.slots|];
      assert r.slots[|b.slots|] == pushed.slots[|b.slots|];
      SimulatesMore(r.slots, |b.slots|, s, s', env);
    }
  }

  // ---------- The answer of a query ----------

  /** t[j] is the time at which step j begins, and the last one the time at which the last step ends. */
  ghost predicate Clock(t: seq<real>, slots: seq<RolloutSlot>) {
    |t| == |slots| + 1 && t[0] == 0.0 && forall j | 0 <= j < |slots| :: t[j + 1] == t[j] + slots[j].latency
  }

  lemma {:induction false} ClockSums(t: seq<real>, slots: seq<RolloutSlot>, n: nat)
    requires Clock(t, slots) && n <= |slots|
    ensures LatencySum(slots[..n]) == t[n]
  {
    if n > 0 {
      ClockSums(t, slots, n - 1);
      assert slots[..n][..n - 1] == slots[..n - 1];
    }
  }

  /** What the answer says of a marked rollout: the time from now to the end of the step that completes the
      candidate's prefill, the number of steps the prefill spans, and the latency of the first step that
      decodes it. */
  ghost predicate Tells(g: Gist, b: Buffer, t: seq<real>)
    requires Clock(t, b.slots)
    requires (b.end.Some? ==> b.begin.Some? && b.begin.value <= b.end.value < |b.slots|)
    requires (b.decode.Some? ==> b.decode.value < |b.slots|)
  {
    && g.ttft == (match b.end case None => None case Some(i) => Some(t[i + 1]))
    && g.chunkedPrefillSteps == (match b.end case None => None case Some(i) => Some(i - b.begin.value + 1))
    && g.inDecode == (match b.decode case None => None case Some(i) => Some(b.slots[i].latency))
  }

  lemma GistTells(b: Buffer, t: seq<real>)
    requires Clock(t, b.slots)
    requires (b.end.Some? ==> b.begin.Some? && b.begin.value <= b.end.value < |b.slots|)
    requires (b.decode.Some? ==> b.decode.value < |b.slots|)
    ensures Tells(GistOf(b), b, t)
  {
    if b.end.Some? {
      ClockSums(t, b.slots, b.end.value + 1);
    }
  }

  lemma MarkedInOrder(s: Sched, b: Buffer, n: nat, k: Rid)
    requires Marked(s, b, n, k)
    ensures b.end.Some? ==> b.begin.Some? && b.begin.value <= b.end.value < |b.slots|
    ensures b.decode.Some? ==> b.decode.value < |b.slots|
  {
  }

  /** The cached rollout q goes on from the slots `base` for candidate k, whose simulation starts in state s. */
  ghost predicate GoesOn(q: Ephemeral, base: seq<RolloutSlot>, s: Sched, k: Rid, env: Env) {
    var r := q.buffer;
    && |base| <= |r.slots| && r.slots[..|base|] == base
    && Marked(q.tail, r, |base|, k) && Simulates(r.slots, |base|, s, env)
    && Ends(r, q.tail, After(s, env.tokens, |r.slots| - |base|), env)
  }

  lemma RollGoesOn(s: Sched, k: Rid, base: seq<RolloutSlot>, env: Env)
    requires env.Ok() && Unique(s)
    ensures var (r, tail) := Roll(s, k, Buffer(Some(k), base, None, None, None), env);
            forall q: Ephemeral | q.buffer == r && q.tail == tail :: GoesOn(q, base, s, k, env)
  {
    hide Roll, Unique, Describes, After, Ends;
    RollTimeline(s, k, Buffer(Some(k), base, None, None, None), env, |base|);
  }

  /** Every query simulates, from the end of the slots it joins, the steps that serve the candidate; and its answer
      tells the times that follow from their latencies. */
  lemma QueryTells(e: Option<Ephemeral>, sched: Sched, c: Req, anchor: nat, env: Env, t: seq<real>)
    requires env.Ok() && EphOk(e) && Unique(Joins(e, sched).1.Admit(c))
    requires Clock(t, Queried(e, sched, c, anchor, env).buffer.slots)
    ensures var q := Queried(e, sched, c, anchor, env);
            && GoesOn(q, Joins(e, sched).0.slots, Joins(e, sched).1.Admit(c), c.id, env)
            && (q.buffer.end.Some? ==> q.buffer.begin.Some?
                                       && q.buffer.begin.value <= q.buffer.end.value < |q.buffer.slots|)
            && (q.buffer.decode.Some? ==> q.buffer.decode.value < |q.buffer.slots|)
            && Tells(GistOf(q.buffer), q.buffer, t)
  {
    hide Roll, Unique, GoesOn, GistOf, Tells, Clock;
    var q := Queried(e, sched, c, anchor, env);
    var base := Joins(e, sched).0.slots;
    RollGoesOn(Joins(e, sched).1.Admit(c), c.id, base, env);
    GoesOnMarked(q, base, Joins(e, sched).1.Admit(c), c.id, env);
    MarkedInOrder(q.tail, q.buffer, |base|, c.id);
    GistTells(q.buffer, t);
  }

  lemma GoesOnMarked(q: Ephemeral, base: seq<RolloutSlot>, s: Sched, k: Rid, env: Env)
    requires GoesOn(q, base, s, k, env)
    ensures Marked(q.tail, q.buffer, |base|, k)
  {
  }

  /** The rollout is answered in full: the time at which the step that completes the candidate's prefill ends, the
      number of steps since its first chunk, and the latency of the next step, which decodes it. */
  ghost predicate OnTime(r: Buffer, t: seq<real>)
    requires Clock(t, r.slots)
  {
    && r.begin.Some? && r.end.Some? && r.begin.value <= r.end.value && |r.slots| == r.end.value + 2
    && GistOf(r) == Gist(Some(t[r.end.value + 1]), Some(r.end.value - r.begin.value + 1),
                         Some(r.slots[r.end.value + 1].latency))
  }

  lemma RanOnTime(r: Buffer, base: Buffer, x: nat, y: nat, k: Rid, t: seq<real>)
    requires Ran(r, base, x, y, k) && Clock(t, r.slots)
    ensures r.begin == Some(x) && r.end == Some(y) && OnTime(r, t)
  {
    GistTells(r, t);
  }

  /** A query whose budget leaves room for the candidate beside n others is answered in full. */
  lemma QueryOnTime(e: Option<Ephemeral>, sched: Sched, c: Req, anchor: nat, env: Env, t: seq<real>)
    requires env.Ok() && EphOk(e) && c.Prefilling() && Unique(Joins(e, sched).1.Admit(c))
    requires env.tokens > Count(Joins(e, sched).1)
    requires |Joins(e, sched).0.slots| + Bound(Joins(e, sched).1, c, env) + 1 <= MAX_SLOTS
    requires Clock(t, Queried(e, sched, c, anchor, env).buffer.slots)
    ensures OnTime(Queried(e, sched, c, anchor, env).buffer, t)
  {
    hide *;
    QueryFcfs(e, sched, c, anchor, env);
    var r := Queried(e, sched, c, anchor, env).buffer;
    RanOnTime(r, Unmarked(Joins(e, sched).0, Some(c.id)), r.begin.value, r.end.value, c.id, t);
  }

  /** After an admission the next query joins the rollout of the request just admitted, if that is the one that
      was cached; otherwise it starts from the snapshot. */
  lemma AdmissionDecides(e: Ephemeral, rid: Rid, sched: Sched, c: Req, anchor: nat, env: Env)
    requires env.Ok() && EphOk(Some(e)) && Unique((if e.cand == Some(rid) then e.tail else sched).Admit(c))
    ensures EphOk(Admitted(Some(e), rid))
    ensures var q := Queried(Admitted(Some(e), rid), sched, c, anchor, env);
            if e.cand == Some(rid) then GoesOn(q, e.buffer.slots, e.tail.Admit(c), c.id, env)
            else GoesOn(q, [], sched.Admit(c), c.id, env)
  {
    hide Roll, Unique, GoesOn;
    if e.cand == Some(rid) {
      RollGoesOn(e.tail.Admit(c), c.id, e.buffer.slots, env);
    } else {
      RollGoesOn(sched.Admit(c), c.id, [], env);
    }
  }

  /** A candidate has its cached leading blocks computed, and owes the rest of its prompt: nothing if the blocks
      cover it. */
  lemma CandidateOwes(id: Rid, input: nat, hits: nat, blockSize: nat)
    ensures var c := Candidate(id, input, hits, blockSize);
            && c.id == id && c.processed + c.Owed() == input && (c.Owed() > 0 <==> hits * blockSize < input)
            && (c.Owed() > 0 ==> c.processed == hits * blockSize)
  {
    var cached: nat := hits * blockSize;
    assert Candidate(id, input, hits, blockSize).processed == Min(cached, input);
  }
}
