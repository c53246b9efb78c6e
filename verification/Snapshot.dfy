/** The scheduling snapshot kept per replica, and how it absorbs one engine step. */
module Snapshot {
  import opened Basics
  import opened Sched

  datatype OutState = Prefill | Decode | Other

  /** One request's row in the report of an engine step. */
  datatype Output = Output(rid: Rid, state: OutState, finished: bool, prevComputed: nat)

  /** The report of an engine step; `evicted` lists hashes, the other lists request ids. */
  datatype Report = Report(
    prefillTokens: nat, outputs: seq<Output>, evicted: seq<nat>, preempted: seq<Rid>, aborted: seq<Rid>, stepId: nat)

  // ---------- Transitions ----------

  /** Index of the first queued request with id k. */
  function Position(q: seq<Req>, k: Rid): (r: nat)
    requires k in QueueIds(q)
    ensures r < |q| && q[r].id == k
  {
    if q[0].id == k then 0 else 1 + Position(q[1..], k)
  }

  /** Moves a waiting request to the running set. */
  function Promote(s: Sched, k: Rid): Sched {
    if k in QueueIds(s.waiting) then
      var i := Position(s.waiting, k);
      Sched(s.waiting[..i] + s.waiting[i + 1..], s.running[k := s.waiting[i]])
    else s
  }

  /** Moves a running request back to the front of the queue, its progress lost. */
  function Preempt(s: Sched, k: Rid): Sched {
    if k in s.running then Sched([s.running[k].(processed := 0)] + s.waiting, s.running - {k}) else s
  }

  function Without(q: seq<Req>, k: Rid): seq<Req> {
    if q == [] then []
    else if q[0].id == k then Without(q[1..], k)
    else [q[0]] + Without(q[1..], k)
  }

  function Drop(s: Sched, k: Rid): Sched {
    Sched(Without(s.waiting, k), s.running - {k})
  }

  function SetProgress(s: Sched, k: Rid, n: nat): Sched {
    if k in s.running then s.(running := s.running[k := s.running[k].(processed := n)]) else s
  }

  /** One output row; `chunk` is its share of the step's prefill tokens. */
  function Absorb(s: Sched, o: Output, chunk: nat): Sched {
    var s1 := if o.state.Other? || o.rid in s.running then s else Promote(s, o.rid);
    var s2 :=
      if o.rid !in s1.running then s1
      else match o.state {
        case Prefill => SetProgress(s1, o.rid, Min(o.prevComputed + chunk, Max(s1.running[o.rid].input, 1)))
        case Decode =>
          var done := if o.rid in s.running then s.running[o.rid].processed else s1.running[o.rid].input;
          SetProgress(s1, o.rid, 1 + done)
        case Other => s1
      };
    if o.finished then Drop(s2, o.rid) else s2
  }

  function PrefillRows(outs: seq<Output>): nat {
    if outs == [] then 0 else PrefillRows(outs[..|outs| - 1]) + if outs[|outs| - 1].state.Prefill? then 1 else 0
  }

  /** The share of prefill row number `seen`: an even split, the remainder going to the first rows. */
  function Share(tokens: nat, rows: nat, seen: nat): nat {
    if rows == 0 then 0 else tokens / rows + if seen < tokens % rows then 1 else 0
  }

  function ShareSum(tokens: nat, rows: nat, k: nat): nat {
    if k == 0 then 0 else ShareSum(tokens, rows, k - 1) + Share(tokens, rows, k - 1)
  }

  lemma {:induction false} SharesSoFar(tokens: nat, rows: nat, k: nat)
    requires 0 < rows && k <= rows
    ensures ShareSum(tokens, rows, k) == k * (tokens / rows) + Min(k, tokens % rows)
  {
    if k > 0 {
      SharesSoFar(tokens, rows, k - 1);
      assert k * (tokens / rows) == (k - 1) * (tokens / rows) + tokens / rows;
    }
  }

  /** The shares of all prefill rows add up to the step's prefill tokens. */
  lemma SharesAddUp(tokens: nat, rows: nat)
    requires rows > 0
    ensures ShareSum(tokens, rows, rows) == tokens
  {
    SharesSoFar(tokens, rows, rows);
  }

  /** The first n output rows absorbed. */
  function AbsorbRows(s: Sched, m: Report, n: nat): Sched
    requires n <= |m.outputs|
  {
    if n == 0 then s
    else
      Absorb(AbsorbRows(s, m, n - 1), m.outputs[n - 1],
             Share(m.prefillTokens, PrefillRows(m.outputs), PrefillRows(m.outputs[..n - 1])))
  }

  function PreemptAll(s: Sched, ids: seq<Rid>): Sched {
    if ids == [] then s else Preempt(PreemptAll(s, ids[..|ids| - 1]), ids[|ids| - 1])
  }

  function DropAll(s: Sched, ids: seq<Rid>): Sched {
    if ids == [] then s else Drop(DropAll(s, ids[..|ids| - 1]), ids[|ids| - 1])
  }

  function Synced(s: Sched, m: Report): Sched {
    DropAll(PreemptAll(AbsorbRows(s, m, |m.outputs|), m.preempted), m.aborted)
  }

  function SyncAll(s: Sched, ms: seq<Report>): Sched {
    if ms == [] then s else Synced(SyncAll(s, ms[..|ms| - 1]), ms[|ms| - 1])
  }

  // ---------- Who is in flight ----------

  /** No id occurs twice in the queue. */
  ghost predicate Apart(q: seq<Req>) {
    q != [] ==> q[0].id !in QueueIds(q[1..]) && Apart(q[1..])
  }

  lemma {:induction false} ApartIsUnique(q: seq<Req>)
    ensures Apart(q) <==> forall i, j | 0 <= i < j < |q| :: q[i].id != q[j].id
  {
    if q != [] {
      var t := q[1..];
      ApartIsUnique(t);
      QueueIdsAre(t, q[0].id);
      assert forall i | 0 <= i < |t| :: t[i] == q[i + 1];
      if Apart(q) {
        forall i, j | 0 <= i < j < |q|
          ensures q[i].id != q[j].id
        {
          assert t[j - 1] == q[j];
          assert i > 0 ==> t[i - 1] == q[i];
        }
      }
      if forall i, j | 0 <= i < j < |q| :: q[i].id != q[j].id {
        assert forall i, j | 0 <= i < j < |t| :: t[i] == q[i + 1] && t[j] == q[j + 1] && q[i + 1].id != q[j + 1].id;
      }
    }
  }

  /** `Unique`, in terms of sets of ids. */
  lemma UniqueSets(s: Sched)
    ensures Unique(s) <==>
            && Apart(s.waiting) && QueueIds(s.waiting) !! s.running.Keys
            && (forall k | k in s.running :: s.running[k].id == k)
  {
    ApartIsUnique(s.waiting);
    forall k
      ensures k in QueueIds(s.waiting) <==> exists i :: 0 <= i < |s.waiting| && s.waiting[i].id == k
    {
      QueueIdsAre(s.waiting, k);
    }
    if QueueIds(s.waiting) !! s.running.Keys {
      forall r | r in s.waiting
        ensures r.id !in s.running
      {
        var i :| 0 <= i < |s.waiting| && s.waiting[i] == r;
        assert r.id in QueueIds(s.waiting);
      }
    }
    if forall r | r in s.waiting :: r.id !in s.running {
      forall k | k in QueueIds(s.waiting)
        ensures k !in s.running
      {
        var i :| 0 <= i < |s.waiting| && s.waiting[i].id == k;
        assert s.waiting[i] in s.waiting;
      }
    }
  }

  lemma {:induction false} RemoveAt(q: seq<Req>, i: nat)
    requires i < |q| && Apart(q)
    ensures Apart(q[..i] + q[i + 1..]) && QueueIds(q[..i] + q[i + 1..]) == QueueIds(q) - {q[i].id}
  {
    if i == 0 {
      assert q[..0] + q[1..] == q[1..];
    } else {
      RemoveAt(q[1..], i - 1);
      assert q[1..][..i - 1] + q[1..][i..] == (q[..i] + q[i + 1..])[1..];
      QueueIdsAre(q[1..], q[i].id);
      assert q[1..][i - 1] == q[i];
    }
  }

  lemma {:induction false} WithoutIds(q: seq<Req>, k: Rid)
    ensures QueueIds(Without(q, k)) == QueueIds(q) - {k}
    ensures Apart(q) ==> Apart(Without(q, k))
  {
    if q != [] {
      WithoutIds(q[1..], k);
      if q[0].id != k {
        assert Without(q, k)[1..] == Without(q[1..], k);
      }
    }
  }

  lemma PromoteKeeps(s: Sched, k: Rid)
    requires Unique(s)
    ensures Unique(Promote(s, k)) && InFlight(Promote(s, k)) == InFlight(s)
  {
    UniqueSets(s);
    if k in QueueIds(s.waiting) {
      RemoveAt(s.waiting, Position(s.waiting, k));
    }
    UniqueSets(Promote(s, k));
  }

  lemma PreemptKeeps(s: Sched, k: Rid)
    requires Unique(s)
    ensures Unique(Preempt(s, k)) && InFlight(Preempt(s, k)) == InFlight(s)
  {
    UniqueSets(s);
    if k in s.running {
      assert Preempt(s, k).waiting[1..] == s.waiting;
    }
    UniqueSets(Preempt(s, k));
  }

  lemma DropShrinks(s: Sched, k: Rid)
    requires Unique(s)
    ensures Unique(Drop(s, k)) && InFlight(Drop(s, k)) == InFlight(s) - {k}
  {
    UniqueSets(s);
    WithoutIds(s.waiting, k);
    UniqueSets(Drop(s, k));
  }

  lemma SetProgressKeeps(s: Sched, k: Rid, n: nat)
    requires Unique(s)
    ensures Unique(SetProgress(s, k, n)) && InFlight(SetProgress(s, k, n)) == InFlight(s)
  {
    assert k in s.running ==> SetProgress(s, k, n).running.Keys == s.running.Keys;
  }

  function Ended(outs: seq<Output>): set<Rid> {
    if outs == [] then {}
    else Ended(outs[..|outs| - 1]) + if outs[|outs| - 1].finished then {outs[|outs| - 1].rid} else {}
  }

  lemma AbsorbShrinks(s: Sched, o: Output, chunk: nat)
    requires Unique(s)
    ensures Unique(Absorb(s, o, chunk))
    ensures InFlight(Absorb(s, o, chunk)) == InFlight(s) - if o.finished then {o.rid} else {}
  {
    hide Unique, InFlight, Promote, SetProgress, Drop;
    PromoteKeeps(s, o.rid);
    var s1 := if o.state.Other? || o.rid in s.running then s else Promote(s, o.rid);
    if o.rid in s1.running {
      SetProgressKeeps(s1, o.rid, Min(o.prevComputed + chunk, Max(s1.running[o.rid].input, 1)));
      SetProgressKeeps(s1, o.rid,
                       1 + if o.rid in s.running then s.running[o.rid].processed else s1.running[o.rid].input);
    }
    DropShrinks(Absorb(s, o.(finished := false), chunk), o.rid);
  }

  lemma {:induction false} AbsorbRowsShrinks(s: Sched, m: Report, n: nat)
    requires Unique(s) && n <= |m.outputs|
    ensures Unique(AbsorbRows(s, m, n)) && InFlight(AbsorbRows(s, m, n)) == InFlight(s) - Ended(m.outputs[..n])
  {
    hide Unique, InFlight, Absorb;
    if n > 0 {
      AbsorbRowsShrinks(s, m, n - 1);
      AbsorbShrinks(AbsorbRows(s, m, n - 1), m.outputs[n - 1],
                    Share(m.prefillTokens, PrefillRows(m.outputs), PrefillRows(m.outputs[..n - 1])));
      assert m.outputs[..n][..n - 1] == m.outputs[..n - 1];
    }
  }

  lemma {:induction false} PreemptAllKeeps(s: Sched, ids: seq<Rid>)
    requires Unique(s)
    ensures Unique(PreemptAll(s, ids)) && InFlight(PreemptAll(s, ids)) == InFlight(s)
  {
    hide Unique, InFlight, Preempt;
    if ids != [] {
      PreemptAllKeeps(s, ids[..|ids| - 1]);
      PreemptKeeps(PreemptAll(s, ids[..|ids| - 1]), ids[|ids| - 1]);
    }
  }

  lemma {:induction false} DropAllShrinks(s: Sched, ids: seq<Rid>)
    requires Unique(s)
    ensures Unique(DropAll(s, ids)) && InFlight(DropAll(s, ids)) == InFlight(s) - Elems(ids)
  {
    hide Unique, InFlight, Drop;
    if ids != [] {
      DropAllShrinks(s, ids[..|ids| - 1]);
      DropShrinks(DropAll(s, ids[..|ids| - 1]), ids[|ids| - 1]);
    }
  }

  /** Absorbing a step keeps ids unique across both queues, and the requests that leave the flight are
      exactly those reported finished or aborted; whatever else the report says about any id. */
  lemma SyncShrinks(s: Sched, m: Report)
    requires Unique(s)
    ensures Unique(Synced(s, m)) && InFlight(Synced(s, m)) == InFlight(s) - Ended(m.outputs) - Elems(m.aborted)
  {
    hide Unique, InFlight;
    AbsorbRowsShrinks(s, m, |m.outputs|);
    assert m.outputs[..|m.outputs|] == m.outputs;
    PreemptAllKeeps(AbsorbRows(s, m, |m.outputs|), m.preempted);
    DropAllShrinks(PreemptAll(AbsorbRows(s, m, |m.outputs|), m.preempted), m.aborted);
  }

  // ---------- The snapshot in place ----------

  class SchedSnapshot {
    var waiting: seq<Req>
    var running: map<Rid, Req>

    function Value(): Sched
      reads this
    {
      Sched(waiting, running)
    }

    constructor ()
      ensures Value() == Sched([], map[])
    {
      waiting, running := [], map[];
    }

    method Admit(r: Req)
      modifies this
      ensures Value() == old(Value()).Admit(r)
    {
      waiting := waiting + [r];
    }

    method PromoteToRunning(k: Rid)
      modifies this
      ensures Value() == Promote(old(Value()), k)
    {
      var i := 0;
      while i < |waiting| && waiting[i].id != k
        invariant i <= |waiting| && (k in QueueIds(waiting) <==> k in QueueIds(waiting[i..]))
        invariant k in QueueIds(waiting[i..]) ==> Position(waiting, k) == i + Position(waiting[i..], k)
      {
        assert waiting[i..][1..] == waiting[i + 1..];
        i := i + 1;
      }
      if i == |waiting| {
        assert waiting[i..] == [];
        return;
      }
      assert waiting[i..][0] == waiting[i];
      waiting, running := waiting[..i] + waiting[i + 1..], running[k := waiting[i]];
    }

    method PreemptRequest(k: Rid)
      modifies this
      ensures Value() == Preempt(old(Value()), k)
    {
      if k in running {
        waiting, running := [running[k].(processed := 0)] + waiting, running - {k};
      }
    }

    method DropRequest(k: Rid)
      modifies this
      ensures Value() == Drop(old(Value()), k)
    {
      running := running - {k};
      var kept := [];
      for i := 0 to |waiting|
        invariant waiting == old(waiting) && running == old(running) - {k}
        invariant kept + Without(waiting[i..], k) == Without(waiting, k)
      {
        assert waiting[i..][1..] == waiting[i + 1..];
        if waiting[i].id != k {
          kept := kept + [waiting[i]];
        }
      }
      assert waiting[|waiting|..] == [];
      waiting := kept;
    }

    method IsInFlight(k: Rid) returns (r: bool)
      ensures r <==> k in InFlight(Value())
    {
      if k in running {
        return true;
      }
      for i := 0 to |waiting|
        invariant k in QueueIds(waiting) <==> k in QueueIds(waiting[i..])
      {
        assert waiting[i..][1..] == waiting[i + 1..];
        if waiting[i].id == k {
          return true;
        }
      }
      assert waiting[|waiting|..] == [];
      return false;
    }

    /** Brings the snapshot in line with the engine after one step. */
    method Sync(m: Report)
      modifies this
      ensures Value() == Synced(old(Value()), m)
    {
      SyncRows(m);
      ghost var s1 := Value();
      for i := 0 to |m.preempted|
        invariant Value() == PreemptAll(s1, m.preempted[..i])
      {
        assert m.preempted[..i + 1][..i] == m.preempted[..i];
        PreemptRequest(m.preempted[i]);
      }
      assert m.preempted[..|m.preempted|] == m.preempted;
      ghost var s2 := Value();
      for i := 0 to |m.aborted|
        invariant Value() == DropAll(s2, m.aborted[..i])
      {
        assert m.aborted[..i + 1][..i] == m.aborted[..i];
        DropRequest(m.aborted[i]);
      }
      assert m.aborted[..|m.aborted|] == m.aborted;
    }

    method CountPrefill(outs: seq<Output>) returns (n: nat)
      ensures n == PrefillRows(outs)
    {
      n := 0;
      for i := 0 to |outs|
        invariant n == PrefillRows(outs[..i])
      {
        assert outs[..i + 1][..i] == outs[..i];
        if outs[i].state.Prefill? {
          n := n + 1;
        }
      }
      assert outs[..|outs|] == outs;
    }

    /** The output rows of a step, each prefilling one with its share of the step's prefill tokens. */
    method SyncRows(m: Report)
      modifies this
      ensures Value() == AbsorbRows(old(Value()), m, |m.outputs|)
    {
      var prefillCount := CountPrefill(m.outputs);
      var perChunk, remainder := 0, 0;
      if prefillCount > 0 {
        perChunk, remainder := m.prefillTokens / prefillCount, m.prefillTokens % prefillCount;
      }
      hide Absorb;
      var seen := 0;
      for i := 0 to |m.outputs|
        invariant seen == PrefillRows(m.outputs[..i])
        invariant Value() == AbsorbRows(old(Value()), m, i)
      {
        assert m.outputs[..i + 1][..i] == m.outputs[..i];
        var chunk := if seen < remainder then perChunk + 1 else perChunk;
        assert chunk == Share(m.prefillTokens, prefillCount, seen);
        AbsorbRow(m.outputs[i], chunk);
        if m.outputs[i].state.Prefill? {
          seen := seen + 1;
        }
      }
    }

    /** The transition of one output row. */
    method AbsorbRow(o: Output, chunk: nat)
      modifies this
      ensures Value() == Absorb(old(Value()), o, chunk)
    {
      match o.state {
        case Prefill =>
          if o.rid !in running {
            PromoteToRunning(o.rid);
          }
          if o.rid in running {
            var done := Min(o.prevComputed + chunk, Max(running[o.rid].input, 1));
            running := running[o.rid := running[o.rid].(processed := done)];
          }
        case Decode =>
          if o.rid !in running {
            PromoteToRunning(o.rid);
            if o.rid in running {
              running := running[o.rid := running[o.rid].(processed := running[o.rid].input)];
            }
          }
          if o.rid in running {
            running := running[o.rid := running[o.rid].(processed := running[o.rid].processed + 1)];
          }
        case Other =>
      }
      if o.finished {
        DropRequest(o.rid);
      }
    }
  }
}
