/** The predictor context of one replica: its snapshot, its mirror, the online-corrected latency model
    and the cached rollout, driven by queries, admissions and engine reports.
  */
module PCtx {
  import opened Basics
  import opened Options
  import opened Registry
  import opened Sched
  import opened Slots
  import opened Rollout
  import opened EphemeralRollout
  import opened Snapshot
  import opened Mirror
  import Triggers

  class PCtx<Model(==)> {
    const predict: (Model, Batch) -> real
    const calibrate: (Model, Batch, real) -> Model
    const blockSize: nat
    const tokenBudget: nat
    const sched: SchedSnapshot
    const mirror: IncrementalMirror
    var model: Model
    var ephemeral: Option<Ephemeral>
    var lastStep: nat
    ghost var admitted: set<Rid>

    /** The state on values whose runs `Triggers` speaks about. */
    ghost function View(): Triggers.Ctx
      reads this, sched
    {
      Triggers.Ctx(sched.Value(), ephemeral, lastStep, admitted)
    }

    ghost predicate Valid()
      reads this, mirror, mirror.tree
    {
      mirror.Valid() && EphOk(ephemeral) && blockSize >= 1 && tokenBudget >= 1
    }

    function Environment(): (env: Env)
      requires blockSize >= 1 && tokenBudget >= 1
      reads this
      ensures env.Ok()
    {
      var m := model;
      Env(blockSize, tokenBudget, b => predict(m, b))
    }

    constructor (predict: (Model, Batch) -> real, calibrate: (Model, Batch, real) -> Model, model: Model,
                 blockSize: nat, tokenBudget: nat)
      ensures Valid() && ephemeral == None && lastStep == 0 && View() == Triggers.IDLE
      ensures sched.Value() == EMPTY.sched && mirror.Value() == EMPTY.mirror
      ensures this.blockSize == Max(blockSize, 1) && this.tokenBudget == Max(tokenBudget, 1)
      ensures fresh(sched) && fresh(mirror) && fresh(mirror.tree)
    {
      this.predict, this.calibrate, this.model := predict, calibrate, model;
      this.blockSize := if blockSize > 1 then blockSize else 1;
      this.tokenBudget := if tokenBudget > 1 then tokenBudget else 1;
      sched := new SchedSnapshot();
      mirror := new IncrementalMirror();
      ephemeral, lastStep, admitted := None, 0, {};
    }

    // ---------- One simulated step ----------

    /** The ids of the running requests that decode and of those that prefill, in increasing order. */
    method CollectRunning(s: Sched) returns (decoders: seq<Rid>, prefillers: seq<Rid>)
      ensures decoders == SortedIds(Decoders(s)) && prefillers == SortedIds(Prefillers(s))
    {
      var dec: set<Rid>, pre: set<Rid> := {}, {};
      var todo := s.running.Keys;
      while todo != {}
        invariant todo <= s.running.Keys
        invariant dec == (set k | k in s.running && k !in todo && !s.running[k].Prefilling())
        invariant pre == (set k | k in s.running && k !in todo && s.running[k].Prefilling())
        decreases todo
      {
        var k :| k in todo;
        if s.running[k].Prefilling() {
          pre := pre + {k};
        } else {
          dec := dec + {k};
        }
        todo := todo - {k};
      }
      assert dec == Decoders(s) && pre == Prefillers(s);
      decoders, prefillers := SortedIds(dec), SortedIds(pre);
    }

    /** One token for every decoding request. */
    method ServeDecoders(s: Sched, decoders: seq<Rid>, tokens: int) returns (computed: seq<nat>, budget: int)
      requires forall k | k in decoders :: k in s.running
      ensures computed == Progress(s, decoders) && budget == tokens - |decoders|
    {
      computed, budget := [], tokens;
      for i := 0 to |decoders|
        invariant |computed| == i && budget == tokens - i
        invariant forall j | 0 <= j < i :: decoders[j] in s.running && computed[j] == s.running[decoders[j]].processed
      {
        assert decoders[i] in decoders;
        computed := computed + [s.running[decoders[i]].processed];
        budget := budget - 1;
      }
      assert computed == Progress(s, decoders);
    }

    /** Running requests continue their prefill first. */
    method ServePrefillers(ids: seq<Rid>, p0: Pass) returns (p: Pass)
      ensures p == Continue(ids, p0)
    {
      p := p0;
      var i := 0;
      while i < |ids| && p.budget > 0
        invariant i <= |ids| && Continue(ids[i..], p) == Continue(ids, p0)
      {
        assert ids[i..][1..] == ids[i + 1..];
        if ids[i] in p.running {
          var r := p.running[ids[i]];
          var chunk := Min(r.Owed(), p.budget);
          if chunk > 0 {
            p := Give(p, r, chunk);
          }
        }
        i := i + 1;
      }
    }

    /** New requests are pulled from the queue while budget remains. */
    method PullWaiting(p0: Pass) returns (p: Pass)
      ensures p == Pull(p0)
    {
      p := p0;
      while p.budget > 0 && p.waiting != []
        invariant Pull(p) == Pull(p0)
        decreases |p.waiting|
      {
        var next := p.waiting[0];
        p := p.(waiting := p.waiting[1..]);
        var chunk := Min(next.Owed(), p.budget);
        if chunk == 0 {
          p := p.(running := p.running[next.id := next]);
        } else {
          p := Give(p, next, chunk);
        }
      }
    }

    /** Pulls a step's work out of the state. */
    method Schedule(s: Sched) returns (p: Pass, decoders: seq<Rid>, computed: seq<nat>)
      ensures p == Forward(s, tokenBudget) && decoders == SortedIds(Decoders(s)) && computed == Progress(s, decoders)
    {
      hide Continue, Pull, Progress;
      var prefillers;
      decoders, prefillers := CollectRunning(s);
      var budget;
      computed, budget := ServeDecoders(s, decoders, tokenBudget);
      p := ServePrefillers(prefillers, Pass(s.waiting, s.running, budget, []));
      p := PullWaiting(p);
    }

    /** Tracks the candidate's first and last prefill step and its first decode step. */
    method MarkCandidate(buf: Buffer, cid: Rid, p: Pass, decoders: seq<Rid>) returns (buf': Buffer)
      ensures buf' == Mark(buf, cid, |buf.slots|, p, decoders)
    {
      var step, prefillRids := |buf.slots|, ChunkIds(p.chunks);
      buf' := buf;
      if cid in prefillRids && buf'.begin.None? {
        buf' := buf'.(begin := Some(step));
      }
      if cid in prefillRids && cid in p.running && !p.running[cid].Prefilling() {
        buf' := buf'.(end := Some(step));
      }
      if cid in decoders && buf'.decode.None? {
        buf' := buf'.(decode := Some(step));
      }
    }

    /** The features of a step, as the predictor wants them. */
    method BuildBatch(ghost s: Sched, p: Pass, decoders: seq<Rid>, computed: seq<nat>) returns (batch: Batch)
      requires blockSize >= 1 && (forall k | k in decoders :: k in s.running) && computed == Progress(s, decoders)
      ensures batch == MakeBatch(s, p.chunks, decoders, blockSize)
    {
      hide Progress, RoundUp;
      var numTokens := SizeOf(p.chunks) + |decoders|;
      batch := Batch(numTokens, RoundUp(numTokens, blockSize), ChunkSizes(p.chunks), ChunkStarts(p.chunks), computed,
                     |p.chunks| + |decoders|);
    }

    method SimulateStep(s: Sched, cid: Rid, buf: Buffer) returns (s': Sched, buf': Buffer, slot: Option<RolloutSlot>)
      requires blockSize >= 1 && tokenBudget >= 1
      ensures (s', buf', slot) == SimulateOneSlot(s, cid, buf, Environment())
    {
      hide Forward, Mark, Progress, MakeBatch, SortedIds;
      var p, decoders, computed := Schedule(s);
      s', buf' := p.ToSched(), buf;
      if p.chunks == [] && decoders == [] {
        return s', buf', None;
      }
      var batch := BuildBatch(s, p, decoders, computed);
      buf' := MarkCandidate(buf, cid, p, decoders);
      slot := Some(RolloutSlot(batch, predict(model, batch), ChunkIds(p.chunks), decoders));
    }

    /** The slot loop, from scratch or from the end of a baseline. */
    method RunScheduleLoop(s: Sched, cid: Rid, start: Buffer) returns (buf: Buffer, tail: Sched)
      requires blockSize >= 1 && tokenBudget >= 1
      ensures (buf, tail) == Roll(s, cid, start, Environment())
    {
      hide SimulateOneSlot;
      buf, tail := start, s;
      while |buf.slots| < MAX_SLOTS
        invariant Roll(tail, cid, buf, Environment()) == Roll(s, cid, start, Environment())
        decreases MAX_SLOTS - |buf.slots|
      {
        var slots := buf.slots;
        var slot;
        tail, buf, slot := SimulateStep(tail, cid, buf);
        if slot.None? {
          return;
        }
        buf := buf.(slots := slots + [slot.value]);
        if buf.decode.Some? {
          return;
        }
      }
    }

    // ---------- Triggers ----------

    /** Speculative rollout for a candidate; `sctxHits` are its leading blocks in the confirmed cache. */
    method Query(cid: Rid, input: nat, hashes: Path, sctxHits: nat) returns (gist: Gist)
      requires Valid()
      modifies this`ephemeral
      ensures Valid()
      ensures var hits := Max(sctxHits, Match(mirror.Value().tree.nodes.Keys, hashes));
              var c := Candidate(cid, input, hits, blockSize);
              ephemeral == Some(Queried(old(ephemeral), sched.Value(), c, lastStep, Environment()))
              && gist == GistOf(ephemeral.value.buffer)
              && (cid !in admitted ==> View() == Triggers.Next(old(View()), Triggers.Query(c, Environment())))
    {
      hide Roll;
      var mirrorHits := mirror.PrefixMatch(hashes);
      var hits := if sctxHits > mirrorHits then sctxHits else mirrorHits;
      var c := Candidate(cid, input, hits, blockSize);
      EphOkKept(ephemeral, sched.Value(), c, lastStep, Environment(), cid, Report(0, [], [], [], [], 0));
      var baseline := Baseline(ephemeral);
      var buf, tail, savepoint;
      match baseline {
        case Some((b, baselineTail)) =>
          savepoint := if b.slots != [] then Some((|b.slots|, baselineTail)) else None;
          buf, tail := RunScheduleLoop(baselineTail.Admit(c), cid, Unmarked(b, Some(cid)));
        case None =>
          savepoint := None;
          buf, tail := RunScheduleLoop(sched.Value().Admit(c), cid, Buffer(Some(cid), [], None, None, None));
      }
      gist := GistOf(buf);
      ephemeral := Some(Ephemeral(Some(cid), buf, lastStep, tail, savepoint));
    }

    /** A request has been dispatched to this replica. */
    method OnAdmit(rid: Rid, input: nat, hashes: Path)
      requires Valid()
      modifies this`ephemeral, this`admitted, sched, mirror, mirror.tree
      ensures Valid()
      ensures World(sched.Value(), mirror.Value()) ==
              Next(World(old(sched.Value()), old(mirror.Value())), Admit(rid, input, hashes))
      ensures ephemeral == Admitted(old(ephemeral), rid)
      ensures rid !in old(admitted) ==> View() == Triggers.Next(old(View()), Triggers.Admission(rid, input))
    {
      admitted := admitted + {rid};
      sched.Admit(Req(rid, input, 0));
      mirror.InsertRequest(rid, hashes);
      match ephemeral {
        case Some(e) =>
          if e.cand == Some(rid) {
            ephemeral := Some(e.(cand := None, buffer := e.buffer.(cand := None), savepoint := None));
          } else {
            ephemeral := None;
          }
        case None =>
      }
    }

    /** The engine has reported a step, whose features were `batch`. */
    method OnSse(batch: Batch, m: Report, actual: real) returns (predicted: real)
      requires Valid()
      modifies this`model, this`ephemeral, this`lastStep, sched, mirror, mirror.tree
      ensures Valid() && lastStep == m.stepId
      ensures predicted == predict(old(model), batch) && model == calibrate(old(model), batch, actual)
      ensures World(sched.Value(), mirror.Value()) ==
              Next(World(old(sched.Value()), old(mirror.Value())), Step(m))
      ensures ephemeral == Seen(old(ephemeral), m)
      ensures View() == Triggers.Next(old(View()), Triggers.Step(m))
    {
      predicted := predict(model, batch);
      model := calibrate(model, batch, actual);
      sched.Sync(m);
      mirror.ApplySse(m, sched);
      lastStep := m.stepId;
      EphOkSeen(ephemeral, m);
      var engineHasPrefill := HasPrefill(m);
      match ephemeral {
        case Some(e) =>
          if !engineHasPrefill || e.buffer.slots == [] || !Known(e.buffer.slots[0]) || !Matches(e.buffer.slots[0], m) {
            ephemeral := None;
          } else {
            var b := e.buffer;
            var savepoint := e.savepoint;
            if savepoint.Some? {
              var idx := if savepoint.value.0 > 0 then savepoint.value.0 - 1 else 0;
              savepoint := if idx == 0 then None else Some((idx, savepoint.value.1));
            }
            ephemeral := Some(e.(
              buffer := Buffer(b.cand, b.slots[1..], Earlier(b.begin), Earlier(b.end), Earlier(b.decode)),
              anchor := m.stepId, savepoint := savepoint));
          }
        case None =>
      }
    }
  }
}
