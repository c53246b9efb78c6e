/** One simulated engine step under chunked prefill.

    Every decoding request takes one token of the step's budget. What is left goes, first come first
    served, to running requests that still prefill and then to the waiting queue.
  */
module Slots {
  import opened Basics
  import opened Sched

  /** Prefill tokens given to one request in one step, and its progress before. */
  datatype Chunk = Chunk(id: Rid, size: nat, computed: nat)

  datatype Pass = Pass(waiting: seq<Req>, running: map<Rid, Req>, budget: int, chunks: seq<Chunk>) {
    function ToSched(): Sched {
      Sched(waiting, running)
    }
  }

  function Decoders(s: Sched): set<Rid> {
    set k | k in s.running && !s.running[k].Prefilling()
  }

  function Prefillers(s: Sched): set<Rid> {
    set k | k in s.running && s.running[k].Prefilling()
  }

  /** The pass after request r has received c tokens. */
  function Give(p: Pass, r: Req, c: nat): Pass {
    p.(running := p.running[r.id := r.Advance(c)],
       budget := p.budget - c,
       chunks := p.chunks + [Chunk(r.id, c, r.processed)])
  }

  /** Serves the running requests `ids`, in order, while budget remains. */
  function Continue(ids: seq<Rid>, p: Pass): Pass {
    if ids == [] || p.budget <= 0 then p
    else if ids[0] !in p.running then Continue(ids[1..], p)
    else
      var c := Min(p.running[ids[0]].Owed(), p.budget);
      Continue(ids[1..], if c == 0 then p else Give(p, p.running[ids[0]], c))
  }

  /** Takes the head of the waiting queue into the running set. */
  function PullOne(p: Pass): Pass
    requires p.waiting != [] && p.budget > 0
  {
    var next, rest := p.waiting[0], p.(waiting := p.waiting[1..]);
    var c := Min(next.Owed(), p.budget);
    if c == 0 then rest.(running := p.running[next.id := next]) else Give(rest, next, c)
  }

  /** Serves the waiting queue while budget remains. */
  function Pull(p: Pass): Pass
    decreases |p.waiting|
  {
    if p.budget <= 0 || p.waiting == [] then p else Pull(PullOne(p))
  }

  function Start(s: Sched, tokens: nat): Pass {
    Pass(s.waiting, s.running, tokens - |Decoders(s)|, [])
  }

  /** The state and the chunks of one step with a budget of `tokens`. */
  function Forward(s: Sched, tokens: nat): Pass {
    Pull(Continue(SortedIds(Prefillers(s)), Start(s, tokens)))
  }

  function SizeOf(chunks: seq<Chunk>): nat {
    if chunks == [] then 0 else SizeOf(chunks[..|chunks| - 1]) + chunks[|chunks| - 1].size
  }

  // ---------- Accounting ----------

  /** The requests outside the queue once its first n have left it, none having progressed. */
  ghost function Base(s: Sched, n: nat): map<Rid, Req>
    requires n <= |s.waiting|
  {
    if n == 0 then s.running else Base(s, n - 1)[s.waiting[n - 1].id := s.waiting[n - 1]]
  }

  function Served(chunks: seq<Chunk>): (r: set<Rid>)
    ensures forall i | 0 <= i < |chunks| :: chunks[i].id in r
  {
    if chunks == [] then {} else Served(chunks[..|chunks| - 1]) + {chunks[|chunks| - 1].id}
  }

  /** Chunk i went to a running request, which advanced by exactly that much; only the last chunk can
      leave its request unfinished, and only by using up the budget. */
  ghost predicate ChunkOk(base: map<Rid, Req>, p: Pass, i: nat)
    requires i < |p.chunks|
  {
    var c := p.chunks[i];
    && c.size > 0 && c.id in p.running && c.id in base
    && c.computed == base[c.id].processed && p.running[c.id] == base[c.id].Advance(c.size)
    && (i < |p.chunks| - 1 || p.budget > 0 ==> !p.running[c.id].Prefilling())
  }

  /** A request that got no chunk did not progress. */
  ghost predicate RowOk(base: map<Rid, Req>, p: Pass, k: Rid) {
    k in base && k in p.running && (k !in Served(p.chunks) ==> p.running[k] == base[k])
  }

  ghost predicate Rows(base: map<Rid, Req>, p: Pass) {
    && p.running.Keys == base.Keys
    && (forall i {:trigger ChunkOk(base, p, i)} | 0 <= i < |p.chunks| :: ChunkOk(base, p, i))
    && (forall k {:trigger RowOk(base, p, k)} | k in base :: RowOk(base, p, k))
    && (forall i, j | 0 <= i < j < |p.chunks| :: p.chunks[i].id != p.chunks[j].id)
  }

  /** What a pass that started from s with budget b, and took n requests off the queue, accounts for. */
  ghost predicate Account(s: Sched, b: int, p: Pass, n: nat) {
    && n <= |s.waiting| && p.waiting == s.waiting[n..]
    && Rows(Base(s, n), p)
    && p.budget + SizeOf(p.chunks) == b && (b >= 0 ==> p.budget >= 0) && (b < 0 ==> p.budget == b)
    && Owed(p.ToSched()) + SizeOf(p.chunks) == Owed(s)
  }

  lemma More(chunks: seq<Chunk>, c: Chunk)
    ensures SizeOf(chunks + [c]) == SizeOf(chunks) + c.size
    ensures Served(chunks + [c]) == Served(chunks) + {c.id}
  {
    assert (chunks + [c])[..|chunks|] == chunks;
  }

  lemma {:induction false} BaseKeys(s: Sched, n: nat)
    requires n <= |s.waiting| && Unique(s)
    ensures forall i | n <= i < |s.waiting| :: s.waiting[i].id !in Base(s, n)
    ensures forall k | k in Base(s, n) :: Base(s, n)[k].id == k
  {
    if n == 0 {
      assert forall i | 0 <= i < |s.waiting| :: s.waiting[i] in s.waiting;
    } else {
      BaseKeys(s, n - 1);
    }
  }

  /** Chunks and rows after request r has received c tokens. */
  lemma GiveRows(base: map<Rid, Req>, p: Pass, r: Req, c: nat)
    requires Rows(base, p) && r.id in base && base[r.id] == r && r.id !in Served(p.chunks)
    requires p.budget > 0 && 0 < c == Min(r.Owed(), p.budget)
    ensures Rows(base, Give(p, r, c))
  {
    var p' := Give(p, r, c);
    var k0 := |p.chunks|;
    More(p.chunks, Chunk(r.id, c, r.processed));
    forall i | 0 <= i < |p'.chunks|
      ensures ChunkOk(base, p', i)
    {
      if i < k0 { assert ChunkOk(base, p, i) && p'.chunks[i] == p.chunks[i] && p.chunks[i].id in Served(p.chunks); }
    }
    forall k | k in base
      ensures RowOk(base, p', k)
    {
      assert RowOk(base, p, k);
    }
    forall i, j | 0 <= i < j < |p'.chunks|
      ensures p'.chunks[i].id != p'.chunks[j].id
    {
      assert p'.chunks[i] == p.chunks[i] && p.chunks[i].id in Served(p.chunks);
    }
  }

  /** A running request that has had nothing yet is served. */
  lemma GiveStep(s: Sched, b: int, p: Pass, n: nat, r: Req, c: nat)
    requires Unique(s) && Account(s, b, p, n) && r.id in Base(s, n) && Base(s, n)[r.id] == r
             && r.id !in Served(p.chunks)
    requires p.budget > 0 && 0 < c == Min(r.Owed(), p.budget)
    ensures Account(s, b, Give(p, r, c), n)
  {
    GiveRows(Base(s, n), p, r, c);
    More(p.chunks, Chunk(r.id, c, r.processed));
    assert RowOk(Base(s, n), p, r.id);
    OwedByMapSet(p.running, r.id, r.Advance(c));
  }

  function Moved(p: Pass): Pass
    requires p.waiting != []
  {
    p.(waiting := p.waiting[1..], running := p.running[p.waiting[0].id := p.waiting[0]])
  }

  lemma MoveRows(base: map<Rid, Req>, p: Pass)
    requires Rows(base, p) && p.waiting != [] && p.waiting[0].id !in base
    ensures Rows(base[p.waiting[0].id := p.waiting[0]], Moved(p))
    ensures p.waiting[0].id !in Served(p.chunks)
  {
    var h, p' := p.waiting[0], Moved(p);
    var base' := base[h.id := h];
    forall i | 0 <= i < |p'.chunks|
      ensures ChunkOk(base', p', i)
    {
      assert ChunkOk(base, p, i);
    }
    forall k | k in base'
      ensures RowOk(base', p', k)
    {
      if k in base { assert RowOk(base, p, k); }
    }
    ServedChunks(base, p, |p.chunks|, h.id);
    assert p.chunks[..|p.chunks|] == p.chunks;
  }

  lemma {:induction false} ServedChunks(base: map<Rid, Req>, p: Pass, i: nat, k: Rid)
    requires Rows(base, p) && k !in base && i <= |p.chunks|
    ensures k !in Served(p.chunks[..i])
  {
    if i > 0 {
      ServedChunks(base, p, i - 1, k);
      assert ChunkOk(base, p, i - 1);
      assert p.chunks[..i][..i - 1] == p.chunks[..i - 1];
    }
  }

  /** The head of the queue joins the running requests. */
  lemma MoveStep(s: Sched, b: int, p: Pass, n: nat)
    requires Unique(s) && Account(s, b, p, n) && p.waiting != []
    ensures Account(s, b, Moved(p), n + 1)
    ensures p.waiting[0].id in Base(s, n + 1) && Base(s, n + 1)[p.waiting[0].id] == p.waiting[0]
    ensures p.waiting[0].id !in Served(p.chunks)
  {
    var h := p.waiting[0];
    assert h == s.waiting[n];
    BaseKeys(s, n);
    MoveRows(Base(s, n), p);
    assert h.id !in p.running;
    OwedByMapSet(p.running, h.id, h);
  }

  lemma PullOneStep(s: Sched, b: int, p: Pass, n: nat)
    requires Unique(s) && Account(s, b, p, n) && p.waiting != [] && p.budget > 0
    ensures Account(s, b, PullOne(p), n + 1)
  {
    hide Account, Unique, PullOne, Moved, Give, Base, Served;
    var h := p.waiting[0];
    var c := Min(h.Owed(), p.budget);
    MoveStep(s, b, p, n);
    MovedGive(s, p, n);
    if c > 0 {
      GiveStep(s, b, Moved(p), n + 1, h, c);
    }
  }

  /** Serving the first waiting request is moving it and then giving it its chunk. */
  lemma MovedGive(s: Sched, p: Pass, n: nat)
    requires p.waiting != [] && p.budget > 0
    ensures Moved(p).budget == p.budget && Moved(p).chunks == p.chunks
    ensures var h := p.waiting[0];
            var c := Min(h.Owed(), p.budget);
            PullOne(p) == if c == 0 then Moved(p) else Give(Moved(p), h, c)
  {
    var h := p.waiting[0];
    var c := Min(h.Owed(), p.budget);
    assert p.running[h.id := h][h.id := h.Advance(c)] == p.running[h.id := h.Advance(c)];
  }

  // ---------- A whole step ----------

  lemma {:induction false} PullAccount(s: Sched, b: int, p: Pass, n: nat) returns (m: nat)
    requires Unique(s) && Account(s, b, p, n)
    ensures Account(s, b, Pull(p), m)
    ensures Pull(p).budget > 0 ==> Pull(p).waiting == []
    decreases |p.waiting|
  {
    m := n;
    if p.budget > 0 && p.waiting != [] {
      PullOneStep(s, b, p, n);
      m := PullAccount(s, b, PullOne(p), n + 1);
    }
  }

  ghost predicate Unserved(s: Sched, ids: seq<Rid>, p: Pass) {
    && Increasing(ids)
    && (forall i | 0 <= i < |ids| ::
          ids[i] in s.running && s.running[ids[i]].Prefilling() && ids[i] !in Served(p.chunks))
  }

  lemma {:induction false} ContinueAccount(s: Sched, b: int, ids: seq<Rid>, p: Pass)
    requires Unique(s) && Account(s, b, p, 0) && Unserved(s, ids, p)
    ensures Account(s, b, Continue(ids, p), 0)
    decreases |ids|
  {
    if ids != [] && p.budget > 0 {
      var k := ids[0];
      assert RowOk(s.running, p, k);
      var r := s.running[k];
      var c := Min(r.Owed(), p.budget);
      GiveStep(s, b, p, 0, r, c);
      More(p.chunks, Chunk(k, c, r.processed));
      forall i | 0 <= i < |ids[1..]|
        ensures ids[1..][i] in s.running && s.running[ids[1..][i]].Prefilling()
                && ids[1..][i] !in Served(Give(p, r, c).chunks)
      {
        assert ids[1..][i] == ids[i + 1] && ids[0] < ids[i + 1];
      }
      ContinueAccount(s, b, ids[1..], Give(p, r, c));
    }
  }

  lemma StartAccount(s: Sched, tokens: nat)
    requires Unique(s)
    ensures Account(s, tokens - |Decoders(s)|, Start(s, tokens), 0)
  {
    hide Decoders, Owed;
    assert Start(s, tokens).ToSched() == s;
  }

  lemma StartUnserved(s: Sched, tokens: nat)
    ensures Unserved(s, SortedIds(Prefillers(s)), Start(s, tokens))
  {
    var ids := SortedIds(Prefillers(s));
    forall i | 0 <= i < |ids|
      ensures ids[i] in Prefillers(s)
    {
      assert ids[i] in ids;
    }
  }

  /** The accounts of one step, which took n requests off the queue. */
  lemma ForwardAccount(s: Sched, tokens: nat) returns (n: nat)
    requires Unique(s)
    ensures Account(s, tokens - |Decoders(s)|, Forward(s, tokens), n)
    ensures Forward(s, tokens).budget > 0 ==> Forward(s, tokens).waiting == []
  {
    var p := Start(s, tokens);
    var ids := SortedIds(Prefillers(s));
    StartAccount(s, tokens);
    StartUnserved(s, tokens);
    ContinueAccount(s, p.budget, ids, p);
    n := PullAccount(s, p.budget, Continue(ids, p), 0);
  }

  // ---------- Leftover budget ----------

  /** While budget remains, only the requests still to be visited can owe prefill. */
  ghost predicate DoneBut(p: Pass, ids: seq<Rid>) {
    p.budget > 0 ==> forall k | k in p.running && p.running[k].Prefilling() :: k in ids
  }

  lemma {:induction false} ContinueDone(ids: seq<Rid>, p: Pass)
    requires DoneBut(p, ids) && (forall k | k in p.running :: p.running[k].id == k)
    ensures DoneBut(Continue(ids, p), [])
            && (forall k | k in Continue(ids, p).running :: Continue(ids, p).running[k].id == k)
    decreases |ids|
  {
    if ids != [] && p.budget > 0 {
      var c := if ids[0] in p.running then Min(p.running[ids[0]].Owed(), p.budget) else 0;
      var p' := if c == 0 then p else Give(p, p.running[ids[0]], c);
      forall k | k in p'.running && p'.running[k].Prefilling() && p'.budget > 0
        ensures k in ids[1..]
      {
        assert p.running[k].Prefilling();
        assert k in [ids[0]] + ids[1..];
      }
      ContinueDone(ids[1..], p');
    }
  }

  lemma {:induction false} PullDone(p: Pass)
    requires DoneBut(p, [])
    ensures DoneBut(Pull(p), [])
    decreases |p.waiting|
  {
    if p.budget > 0 && p.waiting != [] {
      PullDone(PullOne(p));
    }
  }

  lemma ForwardDone(s: Sched, tokens: nat)
    requires Unique(s)
    ensures Forward(s, tokens).budget > 0 ==>
            forall k | k in Forward(s, tokens).running :: !Forward(s, tokens).running[k].Prefilling()
  {
    var p := Start(s, tokens);
    var ids := SortedIds(Prefillers(s));
    ContinueDone(ids, p);
    PullDone(Continue(ids, p));
  }

  // ---------- Identities ----------

  lemma {:induction false} BaseIds(s: Sched, n: nat)
    requires n <= |s.waiting|
    ensures QueueIds(s.waiting[n..]) + Base(s, n).Keys == InFlight(s)
  {
    if n == 0 {
      assert s.waiting[0..] == s.waiting;
    } else {
      BaseIds(s, n - 1);
      assert s.waiting[n - 1..][1..] == s.waiting[n..];
    }
  }

  lemma BaseNew(s: Sched, n: nat)
    requires n < |s.waiting| && Unique(s)
    ensures s.waiting[n].id !in Base(s, n)
  {
    BaseKeys(s, n);
  }

  lemma {:induction false} BaseSize(s: Sched, n: nat)
    requires n <= |s.waiting| && Unique(s)
    ensures |Base(s, n).Keys| == |s.running.Keys| + n
  {
    hide Unique;
    if n > 0 {
      BaseSize(s, n - 1);
      BaseNew(s, n - 1);
      OneMoreKey(Base(s, n - 1), s.waiting[n - 1].id, s.waiting[n - 1]);
    }
  }

  lemma OneMoreKey(m: map<Rid, Req>, k: Rid, r: Req)
    requires k !in m
    ensures |m[k := r].Keys| == |m.Keys| + 1
  {
    assert m[k := r].Keys == m.Keys + {k};
  }

  lemma SameIds(s: Sched, p: Pass, n: nat)
    requires Unique(s) && n <= |s.waiting| && p.waiting == s.waiting[n..] && Rows(Base(s, n), p)
    ensures Unique(p.ToSched()) && InFlight(p.ToSched()) == InFlight(s) && Count(p.ToSched()) == Count(s)
  {
    BaseIds(s, n);
    BaseKeys(s, n);
    BaseSize(s, n);
    assert |p.running| == |p.running.Keys| && |s.running| == |s.running.Keys|;
    RowIds(Base(s, n), p);
    SuffixUnique(s, p, n);
  }

  lemma SuffixUnique(s: Sched, p: Pass, n: nat)
    requires Unique(s) && n <= |s.waiting| && p.waiting == s.waiting[n..]
    requires forall i | n <= i < |s.waiting| :: s.waiting[i].id !in p.running
    requires forall k | k in p.running :: p.running[k].id == k
    ensures Unique(p.ToSched())
  {
    forall r | r in p.waiting
      ensures r.id !in p.running
    {
      var i :| 0 <= i < |p.waiting| && p.waiting[i] == r;
      assert p.waiting[i] == s.waiting[n + i];
    }
  }

  lemma RowIds(base: map<Rid, Req>, p: Pass)
    requires Rows(base, p) && forall k | k in base :: base[k].id == k
    ensures forall k | k in p.running :: p.running[k].id == k
  {
    forall k | k in p.running
      ensures p.running[k].id == k
    {
      assert RowOk(base, p, k);
      if k in Served(p.chunks) { ServedIsChunk(p.chunks, k); }
      if i :| 0 <= i < |p.chunks| && p.chunks[i].id == k { assert ChunkOk(base, p, i); }
    }
  }

  lemma {:induction false} ServedIsChunk(chunks: seq<Chunk>, k: Rid)
    requires k in Served(chunks)
    ensures exists i :: 0 <= i < |chunks| && chunks[i].id == k
    decreases |chunks|
  {
    if chunks[|chunks| - 1].id != k {
      ServedIsChunk(chunks[..|chunks| - 1], k);
    }
  }

  // ---------- Results ----------

  /** A step hands out exactly as much prefill as is owed or fits beside the decoders, and what it
      hands out is what the requests no longer owe. Nothing enters or leaves the flight, the queue
      loses a prefix only, and while budget is left over nobody owes prefill. */
  lemma SlotConserves(s: Sched, tokens: nat)
    requires Unique(s)
    ensures var p := Forward(s, tokens);
            && SizeOf(p.chunks) == Min(Owed(s), Max(0, tokens - |Decoders(s)|))
            && Owed(p.ToSched()) == Owed(s) - SizeOf(p.chunks)
            && Unique(p.ToSched()) && InFlight(p.ToSched()) == InFlight(s) && Count(p.ToSched()) == Count(s)
            && (p.budget > 0 ==> Owed(p.ToSched()) == 0)
  {
    SlotSums(s, tokens);
    var n := ForwardAccount(s, tokens);
    SameIds(s, Forward(s, tokens), n);
  }

  lemma SlotSums(s: Sched, tokens: nat)
    requires Unique(s)
    ensures var p := Forward(s, tokens);
            && SizeOf(p.chunks) == Min(Owed(s), Max(0, tokens - |Decoders(s)|))
            && Owed(p.ToSched()) == Owed(s) - SizeOf(p.chunks)
            && (p.budget > 0 ==> Owed(p.ToSched()) == 0)
  {
    var n := ForwardAccount(s, tokens);
    ForwardDone(s, tokens);
    OwedByMapZero(Forward(s, tokens).running);
  }

  /** First come first served: a step takes requests off the front of the queue only, and `Rows` says
      how it treats those outside the queue: each chunk advances its request by exactly its size and
      everyone else stands still, nobody gets two chunks, and every chunk but the last finishes its
      request's prefill. */
  lemma SlotIsFcfs(s: Sched, tokens: nat)
    requires Unique(s)
    ensures var p := Forward(s, tokens);
            var n := |s.waiting| - |p.waiting|;
            0 <= n && p.waiting == s.waiting[n..] && Rows(Base(s, n), p)
  {
    var n := ForwardAccount(s, tokens);
    assert n == |s.waiting| - |Forward(s, tokens).waiting|;
  }

  // ---------- A request at the back of the queue ----------

  lemma {:induction false} ContinueIgnoresQueue(ids: seq<Rid>, p: Pass, w: seq<Req>)
    ensures Continue(ids, p.(waiting := w)) == Continue(ids, p).(waiting := w)
    decreases |ids|
  {
    if ids != [] && p.budget > 0 {
      var c := if ids[0] in p.running then Min(p.running[ids[0]].Owed(), p.budget) else 0;
      ContinueIgnoresQueue(ids[1..], if c == 0 then p else Give(p, p.running[ids[0]], c), w);
    }
  }

  lemma {:induction false} PullAppend(p: Pass, c: Req)
    ensures Pull(p.(waiting := p.waiting + [c])) ==
            if Pull(p).budget <= 0 then Pull(p).(waiting := Pull(p).waiting + [c])
            else PullOne(Pull(p).(waiting := [c]))
    decreases |p.waiting|
  {
    var p' := p.(waiting := p.waiting + [c]);
    if p.budget > 0 {
      if p.waiting == [] {
        assert p' == p.(waiting := [c]);
        assert Pull(PullOne(p')) == PullOne(p');
      } else {
        assert p'.waiting[1..] == p.waiting[1..] + [c];
        assert PullOne(p') == PullOne(p).(waiting := PullOne(p).waiting + [c]);
        PullAppend(PullOne(p), c);
      }
    }
  }

  /** A candidate at the back of the queue does not disturb those ahead of it, and is served with
      what they leave. */
  lemma ForwardCandidate(b: Sched, c: Req, tokens: nat)
    ensures var q := Forward(b, tokens);
            Forward(b.Admit(c), tokens) ==
            if q.budget <= 0 then q.(waiting := q.waiting + [c]) else PullOne(q.(waiting := [c]))
  {
    var ids := SortedIds(Prefillers(b));
    assert Prefillers(b.Admit(c)) == Prefillers(b) && Decoders(b.Admit(c)) == Decoders(b);
    var p := Start(b, tokens);
    ContinueIgnoresQueue(ids, p, b.waiting + [c]);
    ContinueIgnoresQueue(ids, p, b.waiting);
    assert p.(waiting := b.waiting) == p;
    assert Start(b.Admit(c), tokens) == p.(waiting := b.waiting + [c]);
    PullAppend(Continue(ids, p), c);
  }

  /** Only the running request k owes prefill, and nobody waits. */
  ghost predicate Alone(s: Sched, k: Rid) {
    && s.waiting == [] && k in s.running && s.running[k].id == k && s.running[k].Prefilling()
    && (forall j | j in s.running && j != k :: !s.running[j].Prefilling())
  }

  lemma ForwardAlone(s: Sched, k: Rid, tokens: nat)
    requires Alone(s, k)
    ensures Decoders(s) == s.running.Keys - {k} && |Decoders(s)| == |s.running| - 1
    ensures var room := tokens - (|s.running| - 1);
            Forward(s, tokens) == if room <= 0 then Start(s, tokens)
                                  else Give(Start(s, tokens), s.running[k], Min(s.running[k].Owed(), room))
  {
    assert Decoders(s) == s.running.Keys - {k};
    assert |s.running| == |s.running.Keys|;
    assert Prefillers(s) == {k};
    var ids := SortedIds(Prefillers(s));
    assert ids == [k] by { assert ids[0] in ids; }
    assert ids[1..] == [];
    var p := Start(s, tokens);
    if p.budget > 0 {
      var p' := Give(p, s.running[k], Min(s.running[k].Owed(), p.budget));
      assert Continue(ids, p) == Continue([], p') == p';
    }
  }
}
