/** The latency rollout: engine steps simulated one after the other until a candidate decodes. */
module Rollout {
  import opened Basics
  import opened Options
  import opened Sched
  import opened Slots

  const MAX_SLOTS := 256

  /** What the latency predictor gets to see of one step. */
  datatype Batch = Batch(
    numTokens: nat, numTokensRounded: nat, prefillTokens: seq<nat>,
    prefillComputed: seq<nat>, decodeComputed: seq<nat>, size: nat)

  datatype RolloutSlot = RolloutSlot(batch: Batch, latency: real, prefill: seq<Rid>, decode: seq<Rid>)

  /** Simulated steps, with the first and last step that prefills the candidate and the first that
      decodes it. */
  datatype Buffer = Buffer(
    cand: Option<Rid>, slots: seq<RolloutSlot>, begin: Option<nat>, end: Option<nat>, decode: Option<nat>)

  datatype Env = Env(blockSize: nat, tokens: nat, predict: Batch -> real) {
    ghost predicate Ok() {
      blockSize >= 1 && tokens >= 1
    }
  }

  function ChunkIds(chunks: seq<Chunk>): (r: seq<Rid>)
    ensures |r| == |chunks| && forall i | 0 <= i < |r| :: r[i] == chunks[i].id
  {
    seq(|chunks|, i requires 0 <= i < |chunks| => chunks[i].id)
  }

  function ChunkSizes(chunks: seq<Chunk>): seq<nat> {
    seq(|chunks|, i requires 0 <= i < |chunks| => chunks[i].size)
  }

  function ChunkStarts(chunks: seq<Chunk>): seq<nat> {
    seq(|chunks|, i requires 0 <= i < |chunks| => chunks[i].computed)
  }

  /** Progress of the decoding requests, in order. */
  function Progress(s: Sched, ids: seq<Rid>): seq<nat>
    requires forall k | k in ids :: k in s.running
  {
    seq(|ids|, i requires 0 <= i < |ids| => assert ids[i] in ids; s.running[ids[i]].processed)
  }

  /** n rounded up to a multiple of b. */
  function RoundUp(n: nat, b: nat): nat
    requires b >= 1
  {
    (n + b - 1) / b * b
  }

  function MakeBatch(s: Sched, chunks: seq<Chunk>, decode: seq<Rid>, blockSize: nat): Batch
    requires blockSize >= 1 && (forall k | k in decode :: k in s.running)
  {
    var n := SizeOf(chunks) + |decode|;
    Batch(n, RoundUp(n, blockSize), ChunkSizes(chunks), ChunkStarts(chunks),
          Progress(s, decode), |chunks| + |decode|)
  }

  /** The candidate's markers after step number `step`, whose pass is p. */
  function Mark(buf: Buffer, cid: Rid, step: nat, p: Pass, decode: seq<Rid>): Buffer {
    var served := cid in ChunkIds(p.chunks);
    buf.(begin := if served && buf.begin.None? then Some(step) else buf.begin,
         end := if served && cid in p.running && !p.running[cid].Prefilling() then Some(step) else buf.end,
         decode := if cid in decode && buf.decode.None? then Some(step) else buf.decode)
  }

  /** One simulated step; no slot when nothing was scheduled. */
  function SimulateOneSlot(s: Sched, cid: Rid, buf: Buffer, env: Env): (Sched, Buffer, Option<RolloutSlot>)
    requires env.Ok()
  {
    var p, decode := Forward(s, env.tokens), SortedIds(Decoders(s));
    if p.chunks == [] && decode == [] then (p.ToSched(), buf, None)
    else
      var batch := MakeBatch(s, p.chunks, decode, env.blockSize);
      (p.ToSched(), Mark(buf, cid, |buf.slots|, p, decode),
       Some(RolloutSlot(batch, env.predict(batch), ChunkIds(p.chunks), decode)))
  }

  /** Steps until the candidate decodes, nothing is left to schedule, or the cap is reached. */
  function Roll(s: Sched, cid: Rid, buf: Buffer, env: Env): (Buffer, Sched)
    requires env.Ok()
    decreases MAX_SLOTS - |buf.slots|
  {
    if |buf.slots| >= MAX_SLOTS then (buf, s)
    else
      var (s', buf', o) := SimulateOneSlot(s, cid, buf, env);
      match o
      case None => (buf', s')
      case Some(slot) =>
        var pushed := buf'.(slots := buf.slots + [slot]);
        if pushed.decode.Some? then (pushed, s') else Roll(s', cid, pushed, env)
  }

  // ---------- Rounds ----------

  /** Steps needed to serve w tokens at d a step. */
  function Rounds(w: nat, d: nat): nat
    requires d >= 1
  {
    if w == 0 then 0 else 1 + Rounds(w - Min(w, d), d)
  }

  /** That many steps suffice, and one fewer does not: w / d rounded up. */
  lemma {:induction false} RoundsIsCeiling(w: nat, d: nat)
    requires d >= 1
    ensures w <= Rounds(w, d) * d < w + d
  {
    if w > d {
      RoundsIsCeiling(w - d, d);
      assert Rounds(w, d) * d == Rounds(w - d, d) * d + d;
    } else if w > 0 {
      assert Rounds(w, d) == 1;
    }
  }

  lemma {:induction false} RoundsMono(v: nat, w: nat, d: nat)
    requires d >= 1 && v <= w
    ensures Rounds(v, d) <= Rounds(w, d)
  {
    if v > 0 {
      RoundsMono(v - Min(v, d), w - Min(w, d), d);
    }
  }

  /** A step that serves at least d tokens, or all there are, saves a round. */
  lemma RoundsStep(w: nat, w': nat, d: nat)
    requires d >= 1 && w > 0 && w' <= w - Min(w, d)
    ensures 1 + Rounds(w', d) <= Rounds(w, d)
  {
    RoundsMono(w', w - Min(w, d), d);
  }

  // ---------- The candidate runs alone ----------

  /** Requests all past their prefill only decode. */
  lemma ForwardIdle(s: Sched, tokens: nat)
    requires s.waiting == [] && forall k | k in s.running :: !s.running[k].Prefilling()
    ensures Forward(s, tokens) == Start(s, tokens) && Decoders(s) == s.running.Keys
  {
    assert Prefillers(s) == {};
  }

  /** Nobody waits, and nobody but possibly k owes prefill. */
  ghost predicate OthersDone(s: Sched, k: Rid) {
    s.waiting == [] && forall j | j in s.running && j != k :: !s.running[j].Prefilling()
  }

  ghost predicate AllDone(s: Sched) {
    s.waiting == [] && forall j | j in s.running :: !s.running[j].Prefilling()
  }

  /** The state after n simulated steps. */
  function After(s: Sched, tokens: nat, n: nat): Sched
    decreases n
  {
    if n == 0 then s else After(Forward(s, tokens).ToSched(), tokens, n - 1)
  }

  /** Slot j decodes the candidate and prefills nobody. */
  ghost predicate DecodeSlot(slot: RolloutSlot, k: Rid) {
    slot.prefill == [] && k in slot.decode
  }

  lemma RollDecode(s: Sched, k: Rid, buf: Buffer, env: Env)
    requires env.Ok() && s.waiting == [] && k in s.running && (forall j | j in s.running :: !s.running[j].Prefilling())
    requires buf.decode.None?
    ensures var r := Roll(s, k, buf, env).0;
            && r.begin == buf.begin && r.end == buf.end
            && (|buf.slots| < MAX_SLOTS ==>
                  && |r.slots| == |buf.slots| + 1 && r.slots[..|buf.slots|] == buf.slots
                  && r.decode == Some(|buf.slots|) && DecodeSlot(r.slots[|buf.slots|], k)
                  && AllDone(Roll(s, k, buf, env).1))
  {
    ForwardIdle(s, env.tokens);
    if |buf.slots| < MAX_SLOTS {
      var (s', buf', o) := SimulateOneSlot(s, k, buf, env);
      assert k in SortedIds(Decoders(s));
      assert ChunkIds([]) == [];
    }
  }

  ghost predicate Extends(r: seq<RolloutSlot>, slots: seq<RolloutSlot>) {
    |slots| <= |r| && r[..|slots|] == slots
  }

  lemma ExtendsTrans(r: seq<RolloutSlot>, slots: seq<RolloutSlot>, slot: RolloutSlot)
    requires Extends(r, slots + [slot])
    ensures Extends(r, slots) && r[|slots|] == slot
  {
    assert r[..|slots| + 1][..|slots|] == (slots + [slot])[..|slots|];
    assert r[..|slots| + 1][|slots|] == slot;
  }

  /** One step of a candidate that alone owes prefill. */
  lemma StepAlone(s: Sched, k: Rid, buf: Buffer, env: Env)
    requires env.Ok() && Alone(s, k) && buf.begin.Some? && buf.decode.None?
    ensures var (s', buf', o) := SimulateOneSlot(s, k, buf, env);
            var room := env.tokens - (|s.running| - 1);
            && s'.waiting == [] && s'.running.Keys == s.running.Keys && |s'.running| == |s.running|
            && (forall j | j in s.running && j != k :: !s'.running[j].Prefilling())
            && s'.running[k].id == k
            && s'.running[k].Owed() == s.running[k].Owed() - Max(0, Min(s.running[k].Owed(), room))
            && buf'.begin == buf.begin && buf'.decode.None? && buf'.slots == buf.slots
            && buf'.end == (if s'.running[k].Prefilling() then buf.end else Some(|buf.slots|))
            && o.Some? && (room > 0 ==> o.value.prefill == [k])
  {
    hide Forward, MakeBatch, Alone;
    AloneForward(s, k, env.tokens);
    assert k !in SortedIds(Decoders(s));
    assert |SortedIds(Decoders(s))| == |s.running| - 1;
  }

  /** The pass behind that step. */
  lemma AloneForward(s: Sched, k: Rid, tokens: nat)
    requires Alone(s, k)
    ensures var p, room := Forward(s, tokens), tokens - (|s.running| - 1);
            && p.waiting == [] && p.running.Keys == s.running.Keys && |p.running| == |s.running|
            && (forall j | j in s.running && j != k :: !p.running[j].Prefilling())
            && k in s.running && p.running[k].id == k
            && p.running[k].Owed() == s.running[k].Owed() - Max(0, Min(s.running[k].Owed(), room))
            && s.running[k].Owed() > 0
            && ChunkIds(p.chunks) == if room > 0 then [k] else []
    ensures |Decoders(s)| == |s.running| - 1 && k !in Decoders(s)
  {
    hide Forward;
    ForwardAlone(s, k, tokens);
    var p := Forward(s, tokens);
    assert p.running.Keys == s.running.Keys;
    assert |p.running| == |p.running.Keys| && |s.running| == |s.running.Keys|;
  }

  /** The rollout r continued from buf: k was prefilled, alone, in every step up to step y, and decoded
      in the step after. */
  ghost predicate RanAlone(r: Buffer, buf: Buffer, y: nat, k: Rid) {
    && r.begin == buf.begin && r.end == Some(y) && r.decode == Some(y + 1)
    && Extends(r.slots, buf.slots) && |r.slots| == y + 2
    && (forall j | |buf.slots| <= j <= y :: r.slots[j].prefill == [k])
    && DecodeSlot(r.slots[y + 1], k)
  }

  lemma RollUnfold(s: Sched, k: Rid, buf: Buffer, env: Env) returns (s': Sched, pushed: Buffer)
    requires env.Ok() && |buf.slots| < MAX_SLOTS
    requires SimulateOneSlot(s, k, buf, env).2.Some? && SimulateOneSlot(s, k, buf, env).1.decode.None?
    ensures Roll(s, k, buf, env) == Roll(s', k, pushed, env)
    ensures var t := SimulateOneSlot(s, k, buf, env); s' == t.0 && pushed == t.1.(slots := buf.slots + [t.2.value])
  {
    var t := SimulateOneSlot(s, k, buf, env);
    s', pushed := t.0, t.1.(slots := buf.slots + [t.2.value]);
  }

  lemma RanAloneStep(r: Buffer, buf: Buffer, pushed: Buffer, slot: RolloutSlot, y: nat, k: Rid)
    requires RanAlone(r, pushed, y, k) && pushed.slots == buf.slots + [slot] && pushed.begin == buf.begin
    requires slot.prefill == [k]
    ensures RanAlone(r, buf, y, k)
  {
    ExtendsTrans(r.slots, buf.slots, slot);
  }

  lemma {:induction false} RollAlone(s: Sched, k: Rid, buf: Buffer, env: Env)
    requires env.Ok() && Alone(s, k) && buf.begin.Some? && buf.decode.None?
    requires env.tokens >= |s.running|
    requires |buf.slots| + Rounds(s.running[k].Owed(), env.tokens - |s.running| + 1) + 1 <= MAX_SLOTS
    ensures RanAlone(Roll(s, k, buf, env).0, buf,
                     |buf.slots| + Rounds(s.running[k].Owed(), env.tokens - |s.running| + 1) - 1, k)
    ensures AllDone(Roll(s, k, buf, env).1)
    decreases s.running[k].Owed()
  {
    var d := env.tokens - |s.running| + 1;
    hide SimulateOneSlot;
    var rounds := Rounds(s.running[k].Owed(), d);
    StepAlone(s, k, buf, env);
    var s', pushed := RollUnfold(s, k, buf, env);
    assert rounds == 1 + Rounds(s'.running[k].Owed(), d);
    var r := Roll(s', k, pushed, env).0;
    if s'.running[k].Prefilling() {
      RollAlone(s', k, pushed, env);
      RanAloneStep(r, buf, pushed, pushed.slots[|buf.slots|], |buf.slots| + rounds - 1, k);
    } else {
      RollDecode(s', k, pushed, env);
      ExtendsTrans(r.slots, buf.slots, pushed.slots[|buf.slots|]);
    }
  }

  // ---------- The candidate at the back of the queue ----------

  lemma OwedAdmit(b: Sched, c: Req)
    ensures Owed(b.Admit(c)) == Owed(b) + c.Owed()
  {
    OwedByConcat(b.waiting, [c]);
  }

  /** While those ahead use up the budget, the candidate gets nothing. */
  lemma BehindFacts(b: Sched, c: Req, tokens: nat)
    requires Unique(b.Admit(c)) && tokens >= 1 && Forward(b, tokens).budget <= 0
    ensures var q := Forward(b, tokens);
            && Forward(b.Admit(c), tokens) == q.(waiting := q.waiting + [c]) && Decoders(b.Admit(c)) == Decoders(b)
            && Unique(q.ToSched().Admit(c)) && Count(q.ToSched()) == Count(b)
            && c.id !in b.running && c.id !in ChunkIds(q.chunks) && (q.chunks == [] ==> Decoders(b) != {})
            && (tokens > Count(b) ==> Owed(q.ToSched()) <= Owed(b) - (tokens - Count(b)))
  {
    hide Forward, Owed;
    UniqueAdmit(b, c);
    ForwardCandidate(b, c, tokens);
    var q := Forward(b, tokens);
    SlotConserves(b, tokens);
    var n := ForwardAccount(b, tokens);
    UniqueAdmit(q.ToSched(), c);
    DecodersFew(b);
    forall i | 0 <= i < |q.chunks|
      ensures q.chunks[i].id != c.id
    {
      assert ChunkOk(Base(b, n), q, i);
    }
  }

  /** Such a step is a step of the others, and leaves the candidate at the back of the queue. */
  lemma StepBehind(b: Sched, c: Req, buf: Buffer, env: Env)
    requires env.Ok() && Unique(b.Admit(c)) && Forward(b, env.tokens).budget <= 0
    ensures var (s', buf', o) := SimulateOneSlot(b.Admit(c), c.id, buf, env);
            && s' == Forward(b, env.tokens).ToSched().Admit(c) && buf' == buf
            && o.Some? && o == SimulateOneSlot(b, c.id, buf, env).2
            && c.id !in o.value.prefill && c.id !in o.value.decode
  {
    hide Forward, Unique, Owed;
    BehindFacts(b, c, env.tokens);
    assert c.id !in SortedIds(Decoders(b));
    assert Progress(b.Admit(c), SortedIds(Decoders(b))) == Progress(b, SortedIds(Decoders(b)));
    assert buf == Mark(buf, c.id, |buf.slots|, Forward(b.Admit(c), env.tokens), SortedIds(Decoders(b)));
  }

  lemma DecodersFew(s: Sched)
    ensures |Decoders(s)| <= |s.running| <= Count(s)
  {
    SubsetFew(Decoders(s), s.running.Keys);
    assert |s.running| == |s.running.Keys|;
  }

  lemma {:induction false} SubsetFew<T>(a: set<T>, b: set<T>)
    requires a <= b
    ensures |a| <= |b|
  {
    if a != {} {
      var x :| x in a;
      SubsetFew(a - {x}, b - {x});
    }
  }

  /** Once those ahead leave budget over, the candidate gets it, and is the only one that can still owe
      prefill afterwards. */
  lemma ServedFacts(b: Sched, c: Req, tokens: nat)
    requires Unique(b.Admit(c)) && Forward(b, tokens).budget > 0 && c.Prefilling()
    ensures var q, p := Forward(b, tokens), Forward(b.Admit(c), tokens);
            var got := Min(c.Owed(), q.budget);
            && q.budget == tokens - |Decoders(b)| - Owed(b) && Decoders(b.Admit(c)) == Decoders(b)
            && p.waiting == [] && p.running == q.running[c.id := c.Advance(got)] && |p.running| == Count(b) + 1
            && (forall j | j in p.running && j != c.id :: !p.running[j].Prefilling())
            && c.id !in b.running && p.chunks != [] && c.id in ChunkIds(p.chunks)
  {
    hide Forward, Owed;
    UniqueAdmit(b, c);
    ForwardCandidate(b, c, tokens);
    var q := Forward(b, tokens);
    SlotConserves(b, tokens);
    var n := ForwardAccount(b, tokens);
    ForwardDone(b, tokens);
    var p := Forward(b.Admit(c), tokens);
    assert q.waiting == [];
    assert p == Give(q, c, Min(c.Owed(), q.budget));
    assert ChunkIds(p.chunks)[|q.chunks|] == c.id;
    assert c.id !in InFlight(q.ToSched());
    OneMoreKey(q.running, c.id, c.Advance(Min(c.Owed(), q.budget)));
    assert |p.running| == |p.running.Keys| && |q.running| == |q.running.Keys|;
  }

  lemma StepServed(b: Sched, c: Req, buf: Buffer, env: Env)
    requires env.Ok() && Unique(b.Admit(c)) && c.Prefilling() && buf.begin.None? && buf.decode.None?
    requires Forward(b, env.tokens).budget > 0
    ensures var (s', buf', o) := SimulateOneSlot(b.Admit(c), c.id, buf, env);
            var got := Min(c.Owed(), Forward(b, env.tokens).budget);
            && s' == Forward(b.Admit(c), env.tokens).ToSched()
            && buf'.begin == Some(|buf.slots|) && buf'.decode.None? && buf'.slots == buf.slots
            && buf'.end == (if got == c.Owed() then Some(|buf.slots|) else buf.end)
            && o.Some? && c.id in o.value.prefill
  {
    hide Forward, MakeBatch, Unique, Owed;
    ServedFacts(b, c, env.tokens);
    assert c.id !in SortedIds(Decoders(b));
  }

  // ---------- Results ----------

  /** The rollout r continued from buf: nothing for k before step x, a chunk for it in step x, a chunk
      for it and nobody else in every later step up to y, and its first decode in the step after. */
  ghost predicate Ran(r: Buffer, buf: Buffer, x: nat, y: nat, k: Rid) {
    && r.begin == Some(x) && r.end == Some(y) && r.decode == Some(y + 1)
    && Extends(r.slots, buf.slots) && |r.slots| == y + 2 && |buf.slots| <= x <= y
    && (forall j | |buf.slots| <= j < x :: k !in r.slots[j].prefill && k !in r.slots[j].decode)
    && k in r.slots[x].prefill
    && (forall j | x < j <= y :: r.slots[j].prefill == [k])
    && DecodeSlot(r.slots[y + 1], k)
  }

  lemma RanLater(r: Buffer, buf: Buffer, pushed: Buffer, slot: RolloutSlot, x: nat, y: nat, k: Rid)
    requires Ran(r, pushed, x, y, k) && pushed.slots == buf.slots + [slot] && k !in slot.prefill && k !in slot.decode
    ensures Ran(r, buf, x, y, k)
  {
    ExtendsTrans(r.slots, buf.slots, slot);
  }

  lemma RanNow(r: Buffer, buf: Buffer, pushed: Buffer, slot: RolloutSlot, y: nat, k: Rid)
    requires pushed.slots == buf.slots + [slot] && k in slot.prefill && pushed.begin == Some(|buf.slots|)
             && |buf.slots| <= y
    requires if y > |buf.slots| then RanAlone(r, pushed, y, k)
             else
               && r.begin == pushed.begin && r.end == Some(y) && r.decode == Some(y + 1)
               && Extends(r.slots, pushed.slots) && |r.slots| == y + 2 && DecodeSlot(r.slots[y + 1], k)
    ensures Ran(r, buf, |buf.slots|, y, k)
  {
    ExtendsTrans(r.slots, buf.slots, slot);
  }

  /** The bound on the steps of a rollout: all owed prefill at the pace left beside n - 1 decoders. */
  ghost function Bound(b: Sched, c: Req, env: Env): nat
    requires env.tokens > Count(b)
  {
    Rounds(Owed(b.Admit(c)), env.tokens - Count(b))
  }

  /** Candidate c was served out of `room`, and nobody else waits or owes prefill. */
  ghost predicate LeavesCandidate(b: Sched, c: Req, room: int, s: Sched) {
    && OthersDone(s, c.id) && c.id in s.running && |s.running| == Count(b) + 1
    && (s.running[c.id].Prefilling() ==> Alone(s, c.id))
    && s.running[c.id].Owed() == c.Owed() - Min(c.Owed(), room)
  }

  /** The rollout that started with `buf` gave k its first chunk in `slot`, the only one yet or not. */
  ghost predicate Starts(buf: Buffer, s: Sched, k: Rid, pushed: Buffer, slot: RolloutSlot)
    requires k in s.running
  {
    && pushed.slots == buf.slots + [slot] && k in slot.prefill
    && pushed.begin == Some(|buf.slots|) && pushed.decode.None?
    && pushed.end == if s.running[k].Owed() == 0 then Some(|buf.slots|) else buf.end
  }

  /** The step in which the candidate is first served: it leaves only the candidate owing prefill, if that. */
  lemma FirstServed(b: Sched, c: Req, buf: Buffer, env: Env)
    returns (s': Sched, pushed: Buffer, slot: RolloutSlot)
    requires env.Ok() && Unique(b.Admit(c)) && c.Prefilling() && buf.begin.None? && buf.decode.None?
    requires |buf.slots| < MAX_SLOTS && Forward(b, env.tokens).budget > 0
    ensures Roll(b.Admit(c), c.id, buf, env) == Roll(s', c.id, pushed, env)
    ensures s' == After(b.Admit(c), env.tokens, 1)
    ensures LeavesCandidate(b, c, Forward(b, env.tokens).budget, s') && Starts(buf, s', c.id, pushed, slot)
  {
    hide SimulateOneSlot, Forward, Unique, Owed;
    StepServed(b, c, buf, env);
    ServedFacts(b, c, env.tokens);
    s', pushed := RollUnfold(b.Admit(c), c.id, buf, env);
    slot := SimulateOneSlot(b.Admit(c), c.id, buf, env).2.value;
    AfterOne(b.Admit(c), env.tokens);
  }

  lemma AfterOne(s: Sched, tokens: nat)
    ensures After(s, tokens, 1) == Forward(s, tokens).ToSched()
  {
    assert After(Forward(s, tokens).ToSched(), tokens, 0) == Forward(s, tokens).ToSched();
  }

  /** One step serves d of what is owed ahead of the candidate and by it, or all of it. */
  lemma ServedRounds(b: Sched, c: Req, env: Env)
    requires env.tokens > Count(b) && Unique(b.Admit(c)) && c.Prefilling() && Forward(b, env.tokens).budget > 0
    ensures 1 + Rounds(c.Owed() - Min(c.Owed(), Forward(b, env.tokens).budget), env.tokens - Count(b))
            <= Bound(b, c, env)
  {
    hide Forward, Unique, Owed;
    OwedAdmit(b, c);
    ServedFacts(b, c, env.tokens);
    DecodersFew(b);
    RoundsStep(Owed(b.Admit(c)), c.Owed() - Min(c.Owed(), Forward(b, env.tokens).budget), env.tokens - Count(b));
  }

  /** The step in which the candidate is first served, and the steps it then takes. */
  lemma RollServed(b: Sched, c: Req, buf: Buffer, env: Env)
    requires env.Ok() && Unique(b.Admit(c)) && c.Prefilling() && buf.begin.None? && buf.decode.None?
    requires env.tokens > Count(b) && |buf.slots| + Bound(b, c, env) + 1 <= MAX_SLOTS
    requires Forward(b, env.tokens).budget > 0
    ensures var r := Roll(b.Admit(c), c.id, buf, env).0;
            r.end.Some? && Ran(r, buf, |buf.slots|, r.end.value, c.id)
              && |r.slots| <= |buf.slots| + Bound(b, c, env) + 1
    ensures OthersDone(After(b.Admit(c), env.tokens, 1), c.id) && AllDone(Roll(b.Admit(c), c.id, buf, env).1)
  {
    hide Forward, Unique, Bound, Roll, After, Ran, RanAlone, Extends, DecodeSlot;
    var k, d := c.id, env.tokens - Count(b);
    ServedRounds(b, c, env);
    var s', pushed, slot := FirstServed(b, c, buf, env);
    if s'.running[k].Owed() > 0 {
      RollAlone(s', k, pushed, env);
      ServedLater(Roll(s', k, pushed, env).0, buf, pushed, slot,
                  |buf.slots| + Rounds(s'.running[k].Owed(), d), k);
    } else {
      RollDecode(s', k, pushed, env);
      ServedAtOnce(Roll(s', k, pushed, env).0, buf, pushed, slot, k);
    }
  }

  lemma ServedLater(r: Buffer, buf: Buffer, pushed: Buffer, slot: RolloutSlot, y: nat, k: Rid)
    requires pushed.slots == buf.slots + [slot] && k in slot.prefill && pushed.begin == Some(|buf.slots|)
    requires |buf.slots| < y && RanAlone(r, pushed, y, k)
    ensures Ran(r, buf, |buf.slots|, y, k) && r.end == Some(y) && |r.slots| == y + 2
  {
    RanNow(r, buf, pushed, slot, y, k);
  }

  lemma ServedAtOnce(r: Buffer, buf: Buffer, pushed: Buffer, slot: RolloutSlot, k: Rid)
    requires pushed.slots == buf.slots + [slot] && k in slot.prefill && pushed.begin == Some(|buf.slots|)
    requires pushed.end == Some(|buf.slots|) && r.begin == pushed.begin && r.end == pushed.end
    requires |r.slots| == |pushed.slots| + 1 && r.slots[..|pushed.slots|] == pushed.slots
    requires r.decode == Some(|pushed.slots|) && DecodeSlot(r.slots[|pushed.slots|], k)
    ensures Ran(r, buf, |buf.slots|, |buf.slots|, k) && |r.slots| == |buf.slots| + 2
  {
    RanNow(r, buf, pushed, slot, |buf.slots|, k);
  }

  /** First come first served with a progress bound: a candidate that owes prefill waits until those
      ahead of it are served, is prefilled in every step from its first chunk to its last, without
      sharing any but the first with others, and decodes in the step after; all within the time it
      takes to serve everything owed beside n - 1 decoders, and one step more. After its first chunk
      nobody else waits or owes prefill, and at the end nobody does. */
  lemma {:induction false} RollCandidate(b: Sched, c: Req, buf: Buffer, env: Env)
    requires env.Ok() && Unique(b.Admit(c)) && c.Prefilling() && buf.begin.None? && buf.decode.None?
    requires env.tokens > Count(b) && |buf.slots| + Bound(b, c, env) + 1 <= MAX_SLOTS
    ensures var r := Roll(b.Admit(c), c.id, buf, env).0;
            && r.begin.Some? && r.end.Some? && Ran(r, buf, r.begin.value, r.end.value, c.id)
            && |r.slots| <= |buf.slots| + Bound(b, c, env) + 1
            && OthersDone(After(b.Admit(c), env.tokens, r.begin.value - |buf.slots| + 1), c.id)
            && AllDone(Roll(b.Admit(c), c.id, buf, env).1)
    decreases MAX_SLOTS - |buf.slots|
  {
    hide SimulateOneSlot, Forward, Unique, Owed;
    if Forward(b, env.tokens).budget > 0 {
      RollServed(b, c, buf, env);
    } else {
      StepBehind(b, c, buf, env);
      BehindFacts(b, c, env.tokens);
      var b' := Forward(b, env.tokens).ToSched();
      OwedAdmit(b, c);
      OwedAdmit(b', c);
      RoundsStep(Owed(b.Admit(c)), Owed(b'.Admit(c)), env.tokens - Count(b));
      var s', pushed := RollUnfold(b.Admit(c), c.id, buf, env);
      RollCandidate(b', c, pushed, env);
      var r := Roll(s', c.id, pushed, env).0;
      RanLater(r, buf, pushed, pushed.slots[|buf.slots|], r.begin.value, r.end.value, c.id);
      var served := r.begin.value - |buf.slots|;
      assert After(b.Admit(c), env.tokens, served + 1) == After(s', env.tokens, served);
    }
  }

  /** A candidate that is cached in full runs on an idle replica without a single simulated step. */
  lemma FullyCachedOnIdle(c: Req, buf: Buffer, env: Env)
    requires env.Ok() && !c.Prefilling() && buf.slots == []
    ensures Roll(Sched([], map[]).Admit(c), c.id, buf, env).0 == buf
  {
    var s := Sched([], map[]).Admit(c);
    assert Decoders(s) == {} && Prefillers(s) == {};
    var p := Start(s, env.tokens);
    assert Pull(PullOne(p)) == PullOne(p);
    assert Forward(s, env.tokens).chunks == [];
  }

  lemma {:induction false} RollExtends(s: Sched, k: Rid, buf: Buffer, env: Env)
    requires env.Ok()
    ensures Extends(Roll(s, k, buf, env).0.slots, buf.slots) && Roll(s, k, buf, env).0.cand == buf.cand
    decreases MAX_SLOTS - |buf.slots|
  {
    hide Forward;
    if |buf.slots| < MAX_SLOTS {
      var (s', buf', o) := SimulateOneSlot(s, k, buf, env);
      if o.Some? {
        var pushed := buf'.(slots := buf.slots + [o.value]);
        if pushed.decode.None? { RollExtends(s', k, pushed, env); }
        ExtendsTrans(Roll(s, k, buf, env).0.slots, buf.slots, o.value);
      }
    }
  }

  /** A rollout neither adds nor loses a request. */
  lemma {:induction false} RollKeepsIds(s: Sched, k: Rid, buf: Buffer, env: Env)
    requires env.Ok() && Unique(s)
    ensures Unique(Roll(s, k, buf, env).1) && InFlight(Roll(s, k, buf, env).1) == InFlight(s)
    decreases MAX_SLOTS - |buf.slots|
  {
    hide Forward, Unique, InFlight, Mark, MakeBatch;
    if |buf.slots| < MAX_SLOTS {
      SlotConserves(s, env.tokens);
      var (s', buf', o) := SimulateOneSlot(s, k, buf, env);
      if o.Some? && buf'.(slots := buf.slots + [o.value]).decode.None? {
        RollKeepsIds(s', k, buf'.(slots := buf.slots + [o.value]), env);
      }
    }
  }

  // ---------- More cache hits never hurt ----------

  /** A rollout keeps the candidate's first prefill step, and only ever moves its last one later. */
  lemma {:induction false} RollMarks(s: Sched, k: Rid, buf: Buffer, env: Env)
    requires env.Ok()
    ensures var r := Roll(s, k, buf, env).0;
            && (buf.begin.Some? ==> r.begin == buf.begin)
            && (r.end == buf.end || (r.end.Some? && r.end.value >= |buf.slots|))
    decreases MAX_SLOTS - |buf.slots|
  {
    hide Forward;
    if |buf.slots| < MAX_SLOTS {
      var (s', buf', o) := SimulateOneSlot(s, k, buf, env);
      if o.Some? && buf'.decode.None? {
        RollMarks(s', k, buf'.(slots := buf.slots + [o.value]), env);
      }
    }
  }

  /** r2 starts the candidate when r1 does, and finishes its prefill no later. */
  ghost predicate NoLater(r1: Buffer, r2: Buffer) {
    r1.begin == r2.begin && (r1.end.Some? ==> r2.end.Some? && r2.end.value <= r1.end.value)
  }

  /** The markers of two rollouts whose candidate is past its first chunk. */
  ghost predicate SameClock(buf1: Buffer, buf2: Buffer) {
    && |buf1.slots| == |buf2.slots| && buf1.begin == buf2.begin && buf1.begin.Some?
    && buf1.decode.None? && buf2.decode.None? && buf1.end.None?
  }

  /** Once the second rollout's candidate has finished, the first one's cannot finish earlier. */
  lemma FinishedFirst(s1: Sched, s2: Sched, k: Rid, buf1: Buffer, buf2: Buffer, env: Env)
    requires env.Ok() && |buf1.slots| == |buf2.slots| > 0 && buf1.begin == buf2.begin && buf1.begin.Some?
    requires buf2.decode.None? && buf2.end == Some(|buf2.slots| - 1)
    requires buf1.end.None? || buf1.end == buf2.end
    requires s2.waiting == [] && k in s2.running && (forall j | j in s2.running :: !s2.running[j].Prefilling())
    ensures NoLater(Roll(s1, k, buf1, env).0, Roll(s2, k, buf2, env).0)
  {
    hide SimulateOneSlot;
    RollDecode(s2, k, buf2, env);
    RollMarks(s1, k, buf1, env);
  }

  lemma {:induction false} AloneMoreHits(s1: Sched, s2: Sched, k: Rid, buf1: Buffer, buf2: Buffer, env: Env)
    requires env.Ok() && Alone(s1, k) && Alone(s2, k) && |s1.running| == |s2.running|
    requires s2.running[k].Owed() <= s1.running[k].Owed()
    requires SameClock(buf1, buf2) && buf2.end.None?
    ensures NoLater(Roll(s1, k, buf1, env).0, Roll(s2, k, buf2, env).0)
    decreases MAX_SLOTS - |buf1.slots|
  {
    hide SimulateOneSlot;
    StepAlone(s1, k, buf1, env);
    StepAlone(s2, k, buf2, env);
    if |buf1.slots| < MAX_SLOTS {
      var t1, pushed1 := RollUnfold(s1, k, buf1, env);
      var t2, pushed2 := RollUnfold(s2, k, buf2, env);
      if t2.running[k].Prefilling() {
        AloneMoreHits(t1, t2, k, pushed1, pushed2, env);
      } else {
        FinishedFirst(t1, t2, k, pushed1, pushed2, env);
      }
    }
  }

  /** The step that first serves the candidate is the same for both. */
  lemma ServedMoreHits(b: Sched, c1: Req, c2: Req, buf: Buffer, env: Env)
    requires env.Ok() && Unique(b.Admit(c1)) && Unique(b.Admit(c2))
    requires c1.id == c2.id && c1.input == c2.input && c1.processed <= c2.processed < c2.input
    requires buf.begin.None? && buf.end.None? && buf.decode.None? && |buf.slots| < MAX_SLOTS
    requires Forward(b, env.tokens).budget > 0
    ensures NoLater(Roll(b.Admit(c1), c1.id, buf, env).0, Roll(b.Admit(c2), c2.id, buf, env).0)
  {
    hide SimulateOneSlot, Forward, Unique, Owed;
    var k := c1.id;
    StepServed(b, c1, buf, env);
    StepServed(b, c2, buf, env);
    ServedFacts(b, c1, env.tokens);
    ServedFacts(b, c2, env.tokens);
    var t1, pushed1 := RollUnfold(b.Admit(c1), k, buf, env);
    var t2, pushed2 := RollUnfold(b.Admit(c2), k, buf, env);
    if t2.running[k].Prefilling() {
      AloneMoreHits(t1, t2, k, pushed1, pushed2, env);
    } else {
      FinishedFirst(t1, t2, k, pushed1, pushed2, env);
    }
  }

  /** Of two rollouts from the same state that differ in the candidate's cache hits only, and leave it
      some prefill to do, both start it in the same step, and the one with more hits finishes its
      prefill no later. */
  lemma {:induction false} MoreHitsNeverHurt(b: Sched, c1: Req, c2: Req, buf: Buffer, env: Env)
    requires env.Ok() && Unique(b.Admit(c1)) && Unique(b.Admit(c2))
    requires c1.id == c2.id && c1.input == c2.input && c1.processed <= c2.processed < c2.input
    requires buf.begin.None? && buf.end.None? && buf.decode.None?
    ensures NoLater(Roll(b.Admit(c1), c1.id, buf, env).0, Roll(b.Admit(c2), c2.id, buf, env).0)
    decreases MAX_SLOTS - |buf.slots|
  {
    hide SimulateOneSlot, Forward, Unique, Owed;
    if |buf.slots| < MAX_SLOTS {
      if Forward(b, env.tokens).budget > 0 {
        ServedMoreHits(b, c1, c2, buf, env);
      } else {
        StepBehind(b, c1, buf, env);
        StepBehind(b, c2, buf, env);
        BehindFacts(b, c1, env.tokens);
        BehindFacts(b, c2, env.tokens);
        var t1, pushed1 := RollUnfold(b.Admit(c1), c1.id, buf, env);
        var t2, pushed2 := RollUnfold(b.Admit(c2), c2.id, buf, env);
        assert pushed1 == pushed2;
        MoreHitsNeverHurt(Forward(b, env.tokens).ToSched(), c1, c2, pushed1, env);
      }
    }
  }
}
