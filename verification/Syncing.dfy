/** What a step's report makes of each request of the snapshot, row by row. */
module Syncing {
  import opened Basics
  import opened Sched
  import opened Snapshot

  /** Where a request is. */
  datatype Where = Gone | Queued(r: Req) | Running(r: Req)

  function WhereIs(s: Sched, k: Rid): Where {
    if k in s.running then Running(s.running[k])
    else if k in QueueIds(s.waiting) then Queued(s.waiting[Position(s.waiting, k)])
    else Gone
  }

  // ---------- Shares ----------

  function Total(shares: seq<nat>): nat {
    if shares == [] then 0 else Total(shares[..|shares| - 1]) + shares[|shares| - 1]
  }

  /** The prefill tokens of the step are split over its prefill rows: evenly, the larger shares first. */
  ghost predicate Split(m: Report, shares: seq<nat>) {
    && |shares| == |m.outputs|
    && (forall i | 0 <= i < |shares| && !m.outputs[i].state.Prefill? :: shares[i] == 0)
    && (forall i, j | 0 <= i < j < |shares| && m.outputs[i].state.Prefill? && m.outputs[j].state.Prefill? ::
          shares[j] <= shares[i] <= shares[j] + 1)
    && (if exists i :: 0 <= i < |shares| && m.outputs[i].state.Prefill? then Total(shares) == m.prefillTokens
        else Total(shares) == 0)
  }

  /** The shares of the first n rows. */
  function Shares(m: Report, n: nat): (shares: seq<nat>)
    requires n <= |m.outputs|
    ensures |shares| == n
  {
    if n == 0 then []
    else
      Shares(m, n - 1) +
      [if m.outputs[n - 1].state.Prefill?
       then Share(m.prefillTokens, PrefillRows(m.outputs), PrefillRows(m.outputs[..n - 1])) else 0]
  }

  lemma {:induction false} SharesAre(m: Report, n: nat, i: nat)
    requires i < n <= |m.outputs|
    ensures Shares(m, n)[i] ==
            if m.outputs[i].state.Prefill?
            then Share(m.prefillTokens, PrefillRows(m.outputs), PrefillRows(m.outputs[..i])) else 0
  {
    if i < n - 1 {
      SharesAre(m, n - 1, i);
    }
  }

  lemma {:induction false} SharesTotal(m: Report, n: nat)
    requires n <= |m.outputs|
    ensures Total(Shares(m, n)) ==
            ShareSum(m.prefillTokens, PrefillRows(m.outputs), PrefillRows(m.outputs[..n]))
  {
    if n > 0 {
      SharesTotal(m, n - 1);
      assert m.outputs[..n][..n - 1] == m.outputs[..n - 1];
      assert Shares(m, n)[..n - 1] == Shares(m, n - 1);
    }
  }

  lemma {:induction false} PrefillRowsMore(outs: seq<Output>, i: nat, j: nat)
    requires i <= j <= |outs|
    ensures PrefillRows(outs[..i]) <= PrefillRows(outs[..j])
    ensures i < j && outs[i].state.Prefill? ==> PrefillRows(outs[..i]) < PrefillRows(outs[..j])
  {
    if i < j {
      PrefillRowsMore(outs, i, j - 1);
      assert outs[..j][..j - 1] == outs[..j - 1];
    }
  }

  lemma {:induction false} NoPrefillRows(outs: seq<Output>)
    ensures PrefillRows(outs) == 0 <==> forall i | 0 <= i < |outs| :: !outs[i].state.Prefill?
  {
    if outs != [] {
      var rest := outs[..|outs| - 1];
      NoPrefillRows(rest);
      assert forall i | 0 <= i < |rest| :: rest[i] == outs[i];
    }
  }

  lemma LargerFirst(tokens: nat, rows: nat, a: nat, b: nat)
    requires a <= b
    ensures Share(tokens, rows, b) <= Share(tokens, rows, a) <= Share(tokens, rows, b) + 1
  {
  }

  /** The shares are such a split. */
  lemma SharesSplit(m: Report)
    ensures Split(m, Shares(m, |m.outputs|))
  {
    hide Share, ShareSum, Shares, PrefillRows, Total;
    var n := |m.outputs|;
    var rows := PrefillRows(m.outputs);
    assert m.outputs[..n] == m.outputs;
    SharesTotal(m, n);
    NoPrefillRows(m.outputs);
    if rows > 0 {
      SharesAddUp(m.prefillTokens, rows);
    } else {
      NoShares(m.prefillTokens, rows);
    }
    forall i | 0 <= i < n
      ensures Shares(m, n)[i] ==
              if m.outputs[i].state.Prefill? then Share(m.prefillTokens, rows, PrefillRows(m.outputs[..i])) else 0
    {
      SharesAre(m, n, i);
    }
    forall i, j | 0 <= i < j < n && m.outputs[i].state.Prefill? && m.outputs[j].state.Prefill?
      ensures Shares(m, n)[j] <= Shares(m, n)[i] <= Shares(m, n)[j] + 1
    {
      PrefillRowsMore(m.outputs, i, j);
      LargerFirst(m.prefillTokens, rows, PrefillRows(m.outputs[..i]), PrefillRows(m.outputs[..j]));
    }
  }

  lemma NoShares(tokens: nat, rows: nat)
    ensures ShareSum(tokens, rows, 0) == 0
  {
  }

  // ---------- One request ----------

  lemma {:induction false} NobodyWithout(q: seq<Req>, k: Rid)
    requires k !in QueueIds(q)
    ensures Without(q, k) == q
  {
    if q != [] {
      NobodyWithout(q[1..], k);
    }
  }

  lemma {:induction false} RemovedIsWithout(q: seq<Req>, k: Rid)
    requires Apart(q) && k in QueueIds(q)
    ensures q[..Position(q, k)] + q[Position(q, k) + 1..] == Without(q, k)
  {
    if q[0].id == k {
      NobodyWithout(q[1..], k);
    } else {
      RemovedIsWithout(q[1..], k);
    }
  }

  lemma {:induction false} PositionWithout(q: seq<Req>, j: Rid, k: Rid)
    ensures var rest := Without(q, j);
            && (k in QueueIds(rest) <==> k in QueueIds(q) && k != j)
            && (k in QueueIds(rest) ==> rest[Position(rest, k)] == q[Position(q, k)])
  {
    WithoutIds(q, j);
    if q != [] {
      PositionWithout(q[1..], j, k);
      if q[0].id != j {
        assert Without(q, j)[1..] == Without(q[1..], j);
      }
    }
  }

  lemma PromoteWhere(s: Sched, j: Rid, k: Rid)
    requires Unique(s)
    ensures WhereIs(Promote(s, j), k) ==
            if k == j && WhereIs(s, k).Queued? then Running(WhereIs(s, k).r) else WhereIs(s, k)
  {
    UniqueSets(s);
    if j in QueueIds(s.waiting) {
      RemovedIsWithout(s.waiting, j);
      PositionWithout(s.waiting, j, k);
    }
  }

  lemma DropWhere(s: Sched, j: Rid, k: Rid)
    ensures WhereIs(Drop(s, j), k) == if k == j then Gone else WhereIs(s, k)
  {
    PositionWithout(s.waiting, j, k);
  }

  lemma PreemptWhere(s: Sched, j: Rid, k: Rid)
    requires Unique(s)
    ensures WhereIs(Preempt(s, j), k) ==
            if k == j && WhereIs(s, k).Running? then Queued(s.running[k].(processed := 0)) else WhereIs(s, k)
  {
    UniqueSets(s);
    if j in s.running {
      assert Preempt(s, j).waiting[1..] == s.waiting;
    }
  }

  lemma ProgressWhere(s: Sched, j: Rid, n: nat, k: Rid)
    ensures WhereIs(SetProgress(s, j, n), k) ==
            if k == j && WhereIs(s, k).Running? then Running(s.running[k].(processed := n)) else WhereIs(s, k)
  {
  }

  /** What a row with a share of the prefill makes of its request. An unfinished prefill row leaves it running at the
      progress the engine had before the step and the share, but not beyond its prompt; a decode row leaves it
      running with one token more, counted from the end of the prompt if it was still waiting. A finished request
      is gone, and any other row changes nothing. */
  ghost predicate RowTurns(before: Where, o: Output, share: nat, after: Where) {
    if before.Gone? || o.finished then after.Gone?
    else match o.state
      case Prefill => after == Running(before.r.(processed := Min(o.prevComputed + share, Max(before.r.input, 1))))
      case Decode =>
        after == Running(before.r.(processed := (if before.Running? then before.r.processed else before.r.input) + 1))
      case Other => after == before
  }

  lemma UnfinishedWhere(s: Sched, o: Output, chunk: nat, k: Rid)
    requires Unique(s) && !o.finished
    ensures k != o.rid ==> WhereIs(Absorb(s, o, chunk), k) == WhereIs(s, k)
    ensures k == o.rid ==> RowTurns(WhereIs(s, k), o, chunk, WhereIs(Absorb(s, o, chunk), k))
  {
    hide Unique, Promote, SetProgress;
    var s1 := if o.state.Other? || o.rid in s.running then s else Promote(s, o.rid);
    PromoteWhere(s, o.rid, k);
    PromoteWhere(s, o.rid, o.rid);
    if o.rid in s1.running {
      var prefilled := Min(o.prevComputed + chunk, Max(s1.running[o.rid].input, 1));
      var decoded := 1 + if o.rid in s.running then s.running[o.rid].processed else s1.running[o.rid].input;
      ProgressWhere(s1, o.rid, prefilled, k);
      ProgressWhere(s1, o.rid, decoded, k);
    }
  }

  lemma AbsorbWhere(s: Sched, o: Output, chunk: nat, k: Rid)
    requires Unique(s)
    ensures k != o.rid ==> WhereIs(Absorb(s, o, chunk), k) == WhereIs(s, k)
    ensures k == o.rid ==> RowTurns(WhereIs(s, k), o, chunk, WhereIs(Absorb(s, o, chunk), k))
  {
    hide Unique, Promote, SetProgress, Drop, WhereIs;
    UnfinishedWhere(s, o.(finished := false), chunk, k);
    DropWhere(Absorb(s, o.(finished := false), chunk), o.rid, k);
  }

  // ---------- A whole report ----------

  /** The report has at most one row for each request. */
  ghost predicate OneRow(m: Report) {
    forall i, j | 0 <= i < j < |m.outputs| :: m.outputs[i].rid != m.outputs[j].rid
  }

  /** What the rows of the report make of request k. */
  ghost predicate RowsTurn(before: Where, m: Report, shares: seq<nat>, k: Rid, after: Where)
    requires |shares| <= |m.outputs|
  {
    && ((forall i | 0 <= i < |shares| :: m.outputs[i].rid != k) ==> after == before)
    && (forall i | 0 <= i < |shares| && m.outputs[i].rid == k :: RowTurns(before, m.outputs[i], shares[i], after))
  }

  lemma NoShare(before: Where, o: Output, a: nat, b: nat, after: Where)
    requires o.state.Prefill? ==> a == b
    ensures RowTurns(before, o, a, after) == RowTurns(before, o, b, after)
  {
  }

  lemma RowsTurnMore(before: Where, m: Report, n: nat, k: Rid, then1: Where, now: Where, share: nat)
    requires OneRow(m) && n < |m.outputs| && RowsTurn(before, m, Shares(m, n), k, then1)
    requires m.outputs[n].state.Prefill? ==> share == Shares(m, n + 1)[n]
    requires if m.outputs[n].rid == k then RowTurns(then1, m.outputs[n], share, now) else now == then1
    ensures RowsTurn(before, m, Shares(m, n + 1), k, now)
  {
    hide RowTurns, Share, PrefillRows;
    assert forall i | 0 <= i < n :: Shares(m, n + 1)[i] == Shares(m, n)[i];
    NoShare(then1, m.outputs[n], share, Shares(m, n + 1)[n], now);
  }

  lemma {:induction false} RowsWhere(s: Sched, m: Report, n: nat, k: Rid)
    requires Unique(s) && OneRow(m) && n <= |m.outputs|
    ensures RowsTurn(WhereIs(s, k), m, Shares(m, n), k, WhereIs(AbsorbRows(s, m, n), k))
  {
    hide Unique, WhereIs, Absorb, RowTurns, Share, RowsTurn, OneRow, PrefillRows;
    if n == 0 {
      NoRows(WhereIs(s, k), m, k);
    } else {
      var before, o := AbsorbRows(s, m, n - 1), m.outputs[n - 1];
      var chunk := Share(m.prefillTokens, PrefillRows(m.outputs), PrefillRows(m.outputs[..n - 1]));
      RowsWhere(s, m, n - 1, k);
      AbsorbRowsShrinks(s, m, n - 1);
      AbsorbWhere(before, o, chunk, k);
      RowsTurnMore(WhereIs(s, k), m, n - 1, k, WhereIs(before, k), WhereIs(AbsorbRows(s, m, n), k), chunk);
    }
  }

  lemma NoRows(w: Where, m: Report, k: Rid)
    ensures RowsTurn(w, m, Shares(m, 0), k, w)
  {
  }

  lemma {:induction false} PreemptAllWhere(s: Sched, ids: seq<Rid>, k: Rid)
    requires Unique(s)
    ensures var w := WhereIs(s, k);
            WhereIs(PreemptAll(s, ids), k) == if k in ids && w.Running? then Queued(w.r.(processed := 0)) else w
  {
    hide Unique, Preempt;
    if ids != [] {
      var rest, j := ids[..|ids| - 1], ids[|ids| - 1];
      PreemptAllWhere(s, rest, k);
      PreemptAllKeeps(s, rest);
      PreemptWhere(PreemptAll(s, rest), j, k);
      assert ids == rest + [j];
    }
  }

  lemma {:induction false} DropAllWhere(s: Sched, ids: seq<Rid>, k: Rid)
    ensures WhereIs(DropAll(s, ids), k) == if k in ids then Gone else WhereIs(s, k)
  {
    hide Drop, WhereIs;
    if ids != [] {
      var rest, j := ids[..|ids| - 1], ids[|ids| - 1];
      DropAllWhere(s, rest, k);
      DropWhere(DropAll(s, rest), j, k);
      assert ids == rest + [j];
    }
  }

  /** Where request k is after the preemptions and abortions that follow the rows. */
  function ThenTurns(w: Where, m: Report, k: Rid): Where {
    if k in m.aborted then Gone
    else if k in m.preempted && w.Running? then Queued(w.r.(processed := 0))
    else w
  }

  /** What a report makes of every request: its row, with an even share of the step's prefill, says how it
      progresses; without a row it stands still. A running request that is then preempted is queued with its
      progress lost, and an aborted one is gone. */
  lemma SyncTurns(s: Sched, m: Report, k: Rid) returns (w: Where)
    requires Unique(s) && OneRow(m)
    ensures Split(m, Shares(m, |m.outputs|)) && RowsTurn(WhereIs(s, k), m, Shares(m, |m.outputs|), k, w)
    ensures WhereIs(Synced(s, m), k) == ThenTurns(w, m, k)
  {
    hide Unique, WhereIs, RowsTurn, Split;
    var s1 := AbsorbRows(s, m, |m.outputs|);
    w := WhereIs(s1, k);
    SharesSplit(m);
    RowsWhere(s, m, |m.outputs|, k);
    AbsorbRowsShrinks(s, m, |m.outputs|);
    PreemptAllWhere(s1, m.preempted, k);
    DropAllWhere(PreemptAll(s1, m.preempted), m.aborted, k);
  }

  // ---------- The order of the queue ----------

  function IdsOf(q: seq<Req>): seq<Rid> {
    if q == [] then [] else [q[0].id] + IdsOf(q[1..])
  }

  /** The ids that are not in `gone`, in the same order. */
  function Staying(ids: seq<Rid>, gone: set<Rid>): seq<Rid> {
    if ids == [] then []
    else if ids[0] in gone then Staying(ids[1..], gone)
    else [ids[0]] + Staying(ids[1..], gone)
  }

  /** The ids among `running` that the list names, the last one first. */
  function LastFirst(ids: seq<Rid>, running: set<Rid>): seq<Rid> {
    if ids == [] then []
    else
      var rest, k := ids[..|ids| - 1], ids[|ids| - 1];
      (if k in running && k !in rest then [k] else []) + LastFirst(rest, running)
  }

  lemma {:induction false} StayingTwice(ids: seq<Rid>, a: set<Rid>, b: set<Rid>)
    ensures Staying(Staying(ids, a), b) == Staying(ids, a + b)
  {
    if ids != [] {
      StayingTwice(ids[1..], a, b);
      if ids[0] !in a {
        assert Staying(ids, a)[1..] == Staying(ids[1..], a);
      }
    }
  }

  lemma {:induction false} AllStay(ids: seq<Rid>, gone: set<Rid>)
    requires forall k | k in ids :: k !in gone
    ensures Staying(ids, gone) == ids
  {
    if ids != [] {
      AllStay(ids[1..], gone);
    }
  }

  lemma {:induction false} IdsIn(q: seq<Req>, k: Rid)
    ensures k in IdsOf(q) <==> k in QueueIds(q)
  {
    if q != [] {
      IdsIn(q[1..], k);
    }
  }

  lemma {:induction false} WithoutStaying(q: seq<Req>, k: Rid)
    ensures IdsOf(Without(q, k)) == Staying(IdsOf(q), {k})
  {
    if q != [] {
      WithoutStaying(q[1..], k);
      assert IdsOf(q)[1..] == IdsOf(q[1..]);
      if q[0].id != k {
        assert Without(q, k)[1..] == Without(q[1..], k);
      }
    }
  }

  /** The row takes its request off the queue. */
  predicate TakesOff(o: Output) {
    o.state.Prefill? || o.state.Decode? || o.finished
  }

  lemma PromoteQueue(s: Sched, k: Rid)
    requires Unique(s)
    ensures IdsOf(Promote(s, k).waiting) == Staying(IdsOf(s.waiting), {k})
  {
    UniqueSets(s);
    if k in QueueIds(s.waiting) {
      RemovedIsWithout(s.waiting, k);
      WithoutStaying(s.waiting, k);
    } else {
      IdsIn(s.waiting, k);
      AllStay(IdsOf(s.waiting), {k});
    }
  }

  lemma RunningQueue(s: Sched, k: Rid)
    requires Unique(s) && k in s.running
    ensures IdsOf(s.waiting) == Staying(IdsOf(s.waiting), {k})
  {
    UniqueSets(s);
    IdsIn(s.waiting, k);
    AllStay(IdsOf(s.waiting), {k});
  }

  lemma DropQueue(s: Sched, k: Rid, q: seq<Rid>)
    requires IdsOf(s.waiting) == q || IdsOf(s.waiting) == Staying(q, {k})
    ensures IdsOf(Drop(s, k).waiting) == Staying(q, {k})
  {
    WithoutStaying(s.waiting, k);
    StayingTwice(q, {k}, {k});
    assert {k} + {k} == {k};
  }

  lemma AbsorbQueue(s: Sched, o: Output, chunk: nat)
    requires Unique(s)
    ensures IdsOf(Absorb(s, o, chunk).waiting) == Staying(IdsOf(s.waiting), if TakesOff(o) then {o.rid} else {})
  {
    hide Unique, Drop, Promote, Staying;
    PromoteQueue(s, o.rid);
    if o.rid in s.running {
      RunningQueue(s, o.rid);
    }
    AllStay(IdsOf(s.waiting), {});
    DropQueue(Absorb(s, o.(finished := false), chunk), o.rid, IdsOf(s.waiting));
  }

  /** The ids that rows take off the queue. */
  function TakenOff(outs: seq<Output>): set<Rid> {
    set o | o in outs && TakesOff(o) :: o.rid
  }

  lemma TakenOffMore(outs: seq<Output>, n: nat)
    requires n < |outs|
    ensures TakenOff(outs[..n + 1]) == TakenOff(outs[..n]) + if TakesOff(outs[n]) then {outs[n].rid} else {}
  {
    assert outs[..n + 1] == outs[..n] + [outs[n]];
  }

  lemma {:induction false} RowsQueue(s: Sched, m: Report, n: nat)
    requires Unique(s) && n <= |m.outputs|
    ensures IdsOf(AbsorbRows(s, m, n).waiting) == Staying(IdsOf(s.waiting), TakenOff(m.outputs[..n]))
  {
    hide Unique, Absorb, Share, TakesOff, Staying, TakenOff;
    if n == 0 {
      AllStay(IdsOf(s.waiting), {});
      NoneTaken(m.outputs);
    } else {
      var o := m.outputs[n - 1];
      RowsQueue(s, m, n - 1);
      AbsorbRowsShrinks(s, m, n - 1);
      AbsorbQueue(AbsorbRows(s, m, n - 1), o,
                  Share(m.prefillTokens, PrefillRows(m.outputs), PrefillRows(m.outputs[..n - 1])));
      StayingTwice(IdsOf(s.waiting), TakenOff(m.outputs[..n - 1]), if TakesOff(o) then {o.rid} else {});
      TakenOffMore(m.outputs, n - 1);
    }
  }

  lemma NoneTaken(outs: seq<Output>)
    ensures TakenOff(outs[..0]) == {}
  {
  }

  lemma PreemptQueue(s: Sched, k: Rid)
    requires Unique(s)
    ensures IdsOf(Preempt(s, k).waiting) == (if k in s.running then [k] else []) + IdsOf(s.waiting)
    ensures Preempt(s, k).running.Keys == s.running.Keys - {k}
  {
    if k in s.running {
      assert Preempt(s, k).waiting[1..] == s.waiting;
    }
  }

  lemma LastFirstMore(ids: seq<Rid>, running: set<Rid>, q: seq<Rid>)
    requires ids != []
    ensures var rest, k := ids[..|ids| - 1], ids[|ids| - 1];
            && Elems(ids) == Elems(rest) + {k}
            && (if k in running - Elems(rest) then [k] else []) + (LastFirst(rest, running) + q)
               == LastFirst(ids, running) + q
  {
    ElemsAre(ids[..|ids| - 1], ids[|ids| - 1]);
  }

  lemma {:induction false} PreemptAllQueue(s: Sched, ids: seq<Rid>)
    requires Unique(s)
    ensures IdsOf(PreemptAll(s, ids).waiting) == LastFirst(ids, s.running.Keys) + IdsOf(s.waiting)
    ensures PreemptAll(s, ids).running.Keys == s.running.Keys - Elems(ids)
  {
    hide Unique, Preempt, IdsOf, LastFirst, Elems;
    if ids == [] {
      NobodyFirst(s.running.Keys);
    } else {
      var rest, k := ids[..|ids| - 1], ids[|ids| - 1];
      PreemptAllQueue(s, rest);
      PreemptAllKeeps(s, rest);
      PreemptQueue(PreemptAll(s, rest), k);
      LastFirstMore(ids, s.running.Keys, IdsOf(s.waiting));
    }
  }

  lemma NobodyFirst(running: set<Rid>)
    ensures LastFirst([], running) == [] && Elems([]) == {}
  {
  }

  lemma {:induction false} DropAllQueue(s: Sched, ids: seq<Rid>)
    ensures IdsOf(DropAll(s, ids).waiting) == Staying(IdsOf(s.waiting), Elems(ids))
  {
    hide Unique;
    if ids == [] {
      AllStay(IdsOf(s.waiting), {});
    } else {
      var rest, k := ids[..|ids| - 1], ids[|ids| - 1];
      DropAllQueue(s, rest);
      WithoutStaying(DropAll(s, rest).waiting, k);
      StayingTwice(IdsOf(s.waiting), Elems(rest), {k});
    }
  }

  lemma {:induction false} StayingIn(ids: seq<Rid>, gone: set<Rid>, k: Rid)
    ensures k in Staying(ids, gone) <==> k in ids && k !in gone
  {
    if ids != [] {
      StayingIn(ids[1..], gone, k);
      assert ids == [ids[0]] + ids[1..];
    }
  }

  /** Who runs once the rows are absorbed: whoever is neither finished nor still queued. */
  function RunningThen(s: Sched, m: Report): set<Rid> {
    InFlight(s) - Ended(m.outputs) - (QueueIds(s.waiting) - TakenOff(m.outputs))
  }

  lemma RowsRunning(s: Sched, m: Report)
    requires Unique(s)
    ensures AbsorbRows(s, m, |m.outputs|).running.Keys == RunningThen(s, m)
  {
    hide Staying, IdsOf, TakenOff, Unique, AbsorbRows;
    var t := AbsorbRows(s, m, |m.outputs|);
    assert m.outputs[..|m.outputs|] == m.outputs;
    AbsorbRowsShrinks(s, m, |m.outputs|);
    RowsQueue(s, m, |m.outputs|);
    UniqueSets(t);
    forall k
      ensures k in QueueIds(t.waiting) <==> k in QueueIds(s.waiting) - TakenOff(m.outputs)
    {
      IdsIn(t.waiting, k);
      IdsIn(s.waiting, k);
      StayingIn(IdsOf(s.waiting), TakenOff(m.outputs), k);
    }
    assert InFlight(t) == QueueIds(t.waiting) + t.running.Keys;
  }

  /** The queue after a report: the running requests that are preempted, the last one first, then those that no
      row has taken off, in their old order; without the aborted ones. */
  lemma SyncQueue(s: Sched, m: Report)
    requires Unique(s)
    ensures IdsOf(Synced(s, m).waiting) ==
            Staying(LastFirst(m.preempted, RunningThen(s, m)) + Staying(IdsOf(s.waiting), TakenOff(m.outputs)),
                    Elems(m.aborted))
  {
    hide Staying, IdsOf, TakenOff, Unique, AbsorbRows, LastFirst, RunningThen, PreemptAll, DropAll, Elems;
    var t := AbsorbRows(s, m, |m.outputs|);
    assert m.outputs[..|m.outputs|] == m.outputs;
    AbsorbRowsShrinks(s, m, |m.outputs|);
    RowsQueue(s, m, |m.outputs|);
    RowsRunning(s, m);
    PreemptAllQueue(t, m.preempted);
    DropAllQueue(PreemptAll(t, m.preempted), m.aborted);
  }

  // ---------- Runs of reports ----------

  /** Row j of the report prefills request k without finishing it, and nothing else in the report concerns k. */
  ghost predicate PrefillRow(m: Report, j: nat, k: Rid) {
    && OneRow(m) && j < |m.outputs| && m.outputs[j].rid == k && m.outputs[j].state.Prefill? && !m.outputs[j].finished
    && k !in m.preempted && k !in m.aborted
  }

  /** The share of row j. */
  function ShareOf(m: Report, j: nat): nat {
    if j < |m.outputs| then Shares(m, |m.outputs|)[j] else 0
  }

  /** The shares of the rows `at` of a run of reports, one row each. */
  function SharesOver(ms: seq<Report>, at: seq<nat>): nat
    requires |at| == |ms|
  {
    if ms == [] then 0
    else SharesOver(ms[..|ms| - 1], at[..|at| - 1]) + ShareOf(ms[|ms| - 1], at[|at| - 1])
  }

  /** Each report prefills request k in row at[i], and the engine's count of its tokens is the sum of the shares
      reported before. */
  ghost predicate PrefillRun(ms: seq<Report>, at: seq<nat>, k: Rid)
    requires |at| == |ms|
  {
    ms == [] || (var m, j, before, rows := ms[|ms| - 1], at[|at| - 1], ms[..|ms| - 1], at[..|at| - 1];
                 && PrefillRun(before, rows, k) && PrefillRow(m, j, k)
                 && m.outputs[j].prevComputed == SharesOver(before, rows))
  }

  lemma PrefillTurns(s: Sched, m: Report, j: nat, k: Rid, r: Req)
    requires Unique(s) && PrefillRow(m, j, k) && !WhereIs(s, k).Gone? && WhereIs(s, k).r == r
    ensures WhereIs(Synced(s, m), k) ==
            Running(r.(processed := Min(m.outputs[j].prevComputed + ShareOf(m, j), Max(r.input, 1))))
  {
    hide Unique, WhereIs, Split, Shares, Synced;
    var w := SyncTurns(s, m, k);
  }

  /** A request that each report prefills has as its progress the sum of its shares, but not more than its prompt. */
  lemma {:induction false} PrefillAddsUp(s: Sched, ms: seq<Report>, at: seq<nat>, k: Rid, r: Req)
    requires Unique(s) && (WhereIs(s, k) == Queued(r) || WhereIs(s, k) == Running(r))
    requires |at| == |ms| && PrefillRun(ms, at, k)
    ensures Unique(SyncAll(s, ms))
    ensures if ms == [] then !WhereIs(SyncAll(s, ms), k).Gone? && WhereIs(SyncAll(s, ms), k).r == r
            else WhereIs(SyncAll(s, ms), k) == Running(r.(processed := Min(SharesOver(ms, at), Max(r.input, 1))))
  {
    hide Unique, WhereIs, ShareOf, Synced, PrefillRow;
    if ms != [] {
      var n := |ms| - 1;
      PrefillAddsUp(s, ms[..n], at[..n], k, r);
      var t := SyncAll(s, ms[..n]);
      SyncShrinks(t, ms[n]);
      PrefillTurns(t, ms[n], at[n], k, WhereIs(t, k).r);
    }
  }
}
