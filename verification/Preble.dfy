/** The Preble-BS policy: route by the longest cached prefix when it is long enough, and otherwise to
    the replica with the least batch-size history in its sliding window. */
module Preble {
  import opened Options
  import opened Windows

  datatype Obs = Obs(idx: nat, hitBlocks: nat, bsSum: int)

  function Plus(a: int, x: int): int { a + x }
  function Minus(a: int, x: int): int { a - x }

  lemma SumIsLawful()
    ensures Undoes(Plus, Minus) && Commutes(Plus)
  {
  }

  // ---------- Combinators ----------

  function Passing(target: seq<Obs>, pred: Obs -> bool): (r: seq<Obs>)
    ensures forall o | o in r :: o in target && pred(o)
    ensures forall o | o in target && pred(o) :: o in r
  {
    if target == [] then []
    else (if pred(target[0]) then [target[0]] else []) + Passing(target[1..], pred)
  }

  function FilterThen(target: seq<Obs>, pred: Obs -> bool, onPass: seq<Obs> -> Option<nat>,
                      onFail: seq<Obs> -> Option<nat>): Option<nat> {
    var passing := Passing(target, pred);
    if passing != [] then onPass(passing) else onFail(Passing(target, o => !pred(o)))
  }

  /** Among equal scores a minimum search keeps the first. */
  function FirstMin(target: seq<Obs>, k: nat): (r: nat)
    requires k < |target|
    ensures r <= k
    ensures forall j | 0 <= j <= k :: target[r].bsSum <= target[j].bsSum
    ensures forall j | 0 <= j < r :: target[r].bsSum < target[j].bsSum
  {
    if k == 0 then 0
    else
      var r := FirstMin(target, k - 1);
      if target[k].bsSum < target[r].bsSum then k else r
  }

  function SelectMinBySum(target: seq<Obs>): Option<nat> {
    if target == [] then None else Some(target[FirstMin(target, |target| - 1)].idx)
  }

  /** Order of the cache-aware branch: longer match first, then the smaller sum. */
  predicate Before(a: Obs, b: Obs) {
    a.hitBlocks < b.hitBlocks || (a.hitBlocks == b.hitBlocks && a.bsSum > b.bsSum)
  }

  /** Among equal scores a maximum search keeps the last. */
  function LastMax(target: seq<Obs>, k: nat): (r: nat)
    requires k < |target|
    ensures r <= k
    ensures forall j | 0 <= j <= k :: !Before(target[r], target[j])
    ensures forall j | r < j <= k :: Before(target[j], target[r])
  {
    if k == 0 then 0
    else
      var r := LastMax(target, k - 1);
      if Before(target[k], target[r]) then r else k
  }

  function SelectMaxByMatch(target: seq<Obs>): Option<nat> {
    if target == [] then None else Some(target[LastMax(target, |target| - 1)].idx)
  }

  function GlobalMatch(obs: seq<Obs>): (g: nat)
    ensures forall o | o in obs :: o.hitBlocks <= g
    ensures obs != [] ==> exists o :: o in obs && o.hitBlocks == g
  {
    if obs == [] then 0
    else
      var g := GlobalMatch(obs[1..]);
      if obs[0].hitBlocks > g || obs[1..] == [] then obs[0].hitBlocks else g
  }

  /** The share of the prompt that the deepest cached prefix covers, compared with the threshold. */
  predicate LongMatch(obs: seq<Obs>, blockSize: nat, inputLen: nat, threshold: real) {
    (GlobalMatch(obs) * blockSize) as real / (if inputLen > 1 then inputLen else 1) as real > threshold
  }

  function Body(obs: seq<Obs>, blockSize: nat, inputLen: nat, threshold: real): Option<nat> {
    FilterThen(obs, o => LongMatch(obs, blockSize, inputLen, threshold), SelectMaxByMatch, SelectMinBySum)
  }

  /** Observations are listed in replica order. */
  ghost predicate Indexed(obs: seq<Obs>) {
    forall i | 0 <= i < |obs| :: obs[i].idx == i
  }

  lemma {:induction false} PassingAll(target: seq<Obs>, pred: Obs -> bool)
    requires forall o | o in target :: pred(o)
    ensures Passing(target, pred) == target
  {
    if target != [] {
      PassingAll(target[1..], pred);
    }
  }

  lemma {:induction false} PassingNone(target: seq<Obs>, pred: Obs -> bool)
    requires forall o | o in target :: !pred(o)
    ensures Passing(target, pred) == []
  {
    if target != [] {
      PassingNone(target[1..], pred);
    }
  }

  /** The two branches of the policy. */
  lemma BodyCases(obs: seq<Obs>, blockSize: nat, inputLen: nat, threshold: real)
    requires Indexed(obs)
    ensures obs == [] ==> Body(obs, blockSize, inputLen, threshold) == None
    ensures obs != [] ==>
              var r := Body(obs, blockSize, inputLen, threshold);
              && r.Some? && r.value < |obs|
              && (LongMatch(obs, blockSize, inputLen, threshold) ==>
                    && obs[r.value].hitBlocks == GlobalMatch(obs)
                    && (forall o | o in obs && o.hitBlocks == GlobalMatch(obs) :: obs[r.value].bsSum <= o.bsSum)
                    && forall j | r.value < j < |obs| :: Before(obs[j], obs[r.value]))
              && (!LongMatch(obs, blockSize, inputLen, threshold) ==>
                    && (forall o | o in obs :: obs[r.value].bsSum <= o.bsSum)
                    && (forall j | 0 <= j < r.value :: obs[r.value].bsSum < obs[j].bsSum))
  {
    var pred := o => LongMatch(obs, blockSize, inputLen, threshold);
    if LongMatch(obs, blockSize, inputLen, threshold) {
      PassingAll(obs, pred);
      PassingNone(obs, o => !pred(o));
      if obs != [] {
        var r := LastMax(obs, |obs| - 1);
        var best :| best in obs && best.hitBlocks == GlobalMatch(obs);
        assert obs[r].hitBlocks == GlobalMatch(obs);
      }
    } else {
      PassingNone(obs, pred);
      PassingAll(obs, o => !pred(o));
    }
  }

  /** What the replica has cached covers more than the threshold share of the prompt. */
  predicate Covers(o: Obs, blockSize: nat, inputLen: nat, threshold: real) {
    (o.hitBlocks * blockSize) as real > threshold * (if inputLen > 1 then inputLen else 1) as real
  }

  lemma ShareAbove(covered: nat, len: nat, threshold: real)
    requires len > 0
    ensures covered as real / len as real > threshold <==> covered as real > threshold * len as real
  {
    var share := covered as real / len as real;
    assert share * len as real == covered as real;
    Scaled(share, threshold, len as real);
  }

  lemma Scaled(a: real, b: real, c: real)
    requires c > 0.0
    ensures a > b <==> a * c > b * c
  {
    if a > b {
      assert (a - b) * c > 0.0;
    } else {
      assert (b - a) * c >= 0.0;
    }
  }

  /** The comparison of the deepest match holds exactly if some replica's match covers enough. */
  lemma LongIsCovered(obs: seq<Obs>, blockSize: nat, inputLen: nat, threshold: real)
    requires obs != []
    ensures LongMatch(obs, blockSize, inputLen, threshold) <==>
            exists o :: o in obs && Covers(o, blockSize, inputLen, threshold)
  {
    hide GlobalMatch, LongMatch, Covers;
    var best := Deepest(obs);
    LongIsDeepest(obs, best, blockSize, inputLen, threshold);
    if o :| o in obs && Covers(o, blockSize, inputLen, threshold) {
      DeeperCovers(o, best, blockSize, inputLen, threshold);
    }
  }

  lemma Deepest(obs: seq<Obs>) returns (best: Obs)
    requires obs != []
    ensures best in obs && best.hitBlocks == GlobalMatch(obs) && forall o | o in obs :: o.hitBlocks <= best.hitBlocks
  {
    var g := GlobalMatch(obs);
    best :| best in obs && best.hitBlocks == g;
  }

  lemma LongIsDeepest(obs: seq<Obs>, best: Obs, blockSize: nat, inputLen: nat, threshold: real)
    requires best.hitBlocks == GlobalMatch(obs)
    ensures LongMatch(obs, blockSize, inputLen, threshold) <==> Covers(best, blockSize, inputLen, threshold)
  {
    hide GlobalMatch;
    ShareAbove(best.hitBlocks * blockSize, if inputLen > 1 then inputLen else 1, threshold);
  }

  lemma DeeperCovers(o: Obs, best: Obs, blockSize: nat, inputLen: nat, threshold: real)
    requires o.hitBlocks <= best.hitBlocks && Covers(o, blockSize, inputLen, threshold)
    ensures Covers(best, blockSize, inputLen, threshold)
  {
    TimesMono(o.hitBlocks, best.hitBlocks, blockSize);
  }

  lemma TimesMono(a: nat, b: nat, c: nat)
    requires a <= b
    ensures a * c <= b * c
  {
    assert (b - a) * c >= 0;
  }

  /** The policy picks a replica whenever there is one. If the match of some replica covers enough of the
      prompt it is the one with the longest match, among these the least loaded, among equals the last;
      otherwise it is the least loaded of all, among equals the first. */
  lemma BodyPicks(obs: seq<Obs>, blockSize: nat, inputLen: nat, threshold: real)
    requires Indexed(obs)
    ensures obs == [] ==> Body(obs, blockSize, inputLen, threshold) == None
    ensures obs != [] ==>
              var r := Body(obs, blockSize, inputLen, threshold);
              && r.Some? && r.value < |obs|
              && ((exists o :: o in obs && Covers(o, blockSize, inputLen, threshold)) ==>
                    forall j | 0 <= j < |obs| && j != r.value ::
                      var a, b := obs[r.value], obs[j];
                      || a.hitBlocks > b.hitBlocks
                      || (a.hitBlocks == b.hitBlocks && (a.bsSum < b.bsSum || (a.bsSum == b.bsSum && j < r.value))))
              && (!(exists o :: o in obs && Covers(o, blockSize, inputLen, threshold)) ==>
                    forall j | 0 <= j < |obs| && j != r.value ::
                      var a, b := obs[r.value], obs[j];
                      a.bsSum < b.bsSum || (a.bsSum == b.bsSum && r.value < j))
  {
    hide Body, LongMatch, GlobalMatch, Covers;
    BodyCases(obs, blockSize, inputLen, threshold);
    if obs != [] {
      LongIsCovered(obs, blockSize, inputLen, threshold);
      assert forall j | 0 <= j < |obs| :: obs[j] in obs;
    }
  }

  // ---------- Admissions ----------

  /** What routing looks at and changes in a replica: its batch size and its window. */
  datatype Rep = Rep(bs: nat, entries: seq<(Time, int)>)

  function Sum(entries: seq<(Time, int)>): int {
    Total(Plus, 0, entries)
  }

  function Expired(rep: Rep, now: Time, duration: nat): Rep {
    rep.(entries := Kept(rep.entries, now, duration))
  }

  function Observe(reps: seq<Rep>, hits: seq<nat>): (obs: seq<Obs>)
    requires |hits| == |reps|
    ensures |obs| == |reps| && Indexed(obs)
  {
    seq(|reps|, i requires 0 <= i < |reps| => Obs(i, hits[i], Sum(reps[i].entries)))
  }

  /** The chosen replica counts the request and records its new batch size. */
  function Admitted(rep: Rep, now: Time): Rep {
    Rep(rep.bs + 1, rep.entries + [(now, rep.bs + 1)])
  }

  function Commit(reps: seq<Rep>, chosen: Option<nat>, now: Time): seq<Rep>
    requires chosen.Some? ==> chosen.value < |reps|
  {
    if chosen.Some? then reps[chosen.value := Admitted(reps[chosen.value], now)] else reps
  }

  class Replica {
    var bs: nat
    const window: SlidingWindow<int, int>

    ghost predicate Valid()
      reads this, window
    {
      window.Valid() && window.add == Plus && window.sub == Minus && window.zero == 0
    }

    function View(): Rep
      reads this, window
    {
      Rep(bs, window.entries)
    }

    constructor (duration: nat)
      ensures Valid() && View() == Rep(0, []) && window.duration == duration && fresh(window)
    {
      SumIsLawful();
      bs := 0;
      window := new SlidingWindow(duration, 0, Plus, Minus);
    }

    method UpdateWithStep(now: Time)
      requires Valid()
      modifies window
      ensures Valid() && window.entries == old(window.entries) + [(now, bs)]
    {
      window.Push(now, bs);
    }
  }

  class PrebleBsQ {
    const replicas: seq<Replica>
    const duration: nat
    const threshold: real
    ghost var view: seq<Rep>

    ghost function Objects(): set<object> {
      (set r: Replica | r in replicas :: r as object) + (set r: Replica | r in replicas :: r.window as object)
    }

    /** No two replicas share state. */
    ghost predicate Apart() {
      forall i, j | 0 <= i < j < |replicas| :: replicas[i] != replicas[j] && replicas[i].window != replicas[j].window
    }

    ghost predicate Shows(i: nat)
      requires i < |replicas| == |view|
      reads this, Objects()
    {
      replicas[i].Valid() && replicas[i].window.duration == duration && replicas[i].View() == view[i]
    }

    ghost predicate Valid()
      reads this, Objects()
    {
      Apart() && |view| == |replicas| && (forall i: nat {:trigger Shows(i)} | i < |replicas| :: Shows(i))
    }

    constructor (n: nat, duration: nat, threshold: real)
      ensures Valid() && view == seq(n, _ => Rep(0, []))
      ensures this.duration == duration && this.threshold == threshold
    {
      var rs: seq<Replica> := [];
      for i := 0 to n
        invariant |rs| == i
        invariant forall j | 0 <= j < i :: fresh(rs[j]) && fresh(rs[j].window)
        invariant forall j | 0 <= j < i ::
                    rs[j].Valid() && rs[j].View() == Rep(0, []) && rs[j].window.duration == duration
        invariant forall j, k | 0 <= j < k < i :: rs[j] != rs[k] && rs[j].window != rs[k].window
      {
        var r := new Replica(duration);
        rs := rs + [r];
      }
      this.replicas, this.duration, this.threshold := rs, duration, threshold;
      view := seq(n, _ => Rep(0, []));
    }

    /** Each replica's window is expired as it is read. */
    method CaptureObservations(hits: seq<nat>, now: Time) returns (obs: seq<Obs>)
      requires Valid() && |hits| == |replicas|
      modifies this`view, Objects()
      ensures Valid() && |view| == |old(view)|
      ensures forall i | 0 <= i < |view| :: view[i] == Expired(old(view)[i], now, duration)
      ensures obs == Observe(view, hits)
    {
      obs := [];
      for i := 0 to |replicas|
        invariant Valid() && |view| == |old(view)| && |obs| == i
        invariant forall j | 0 <= j < i :: view[j] == Expired(old(view)[j], now, duration)
        invariant forall j | i <= j < |view| :: view[j] == old(view)[j]
        invariant forall j | 0 <= j < i :: obs[j] == Obs(j, hits[j], Sum(view[j].entries))
      {
        var sum := Read(i, now);
        obs := obs + [Obs(i, hits[i], sum)];
      }
    }

    method Read(i: nat, now: Time) returns (sum: int)
      requires Valid() && i < |replicas|
      modifies this`view, replicas[i].window
      ensures Valid() && view == old(view)[i := Expired(old(view)[i], now, duration)]
      ensures sum == Sum(view[i].entries)
    {
      assert Shows(i);
      sum := replicas[i].window.AggregateAt(now);
      view := view[i := Expired(view[i], now, duration)];
      forall j: nat | j < |replicas|
        ensures Shows(j)
      {
        assert old(Shows(j));
      }
    }

    /** Route one request: observe, decide, count it at the chosen replica and record the new size there. */
    method Admit(hits: seq<nat>, blockSize: nat, inputLen: nat, now: Time) returns (chosen: Option<nat>)
      requires Valid() && |hits| == |replicas|
      modifies this`view, Objects()
      ensures Valid() && |view| == |old(view)|
      ensures chosen.Some? ==> chosen.value < |view|
      ensures var seen := ExpiredAll(old(view), now, duration);
              && chosen == Body(Observe(seen, hits), blockSize, inputLen, threshold)
              && view == Commit(seen, chosen, now)
              && view == Route(old(view), hits, blockSize, inputLen, threshold, now, duration)
    {
      var obs := CaptureObservations(hits, now);
      assert view == ExpiredAll(old(view), now, duration);
      chosen := Body(obs, blockSize, inputLen, threshold);
      BodyCases(obs, blockSize, inputLen, threshold);
      if chosen.Some? {
        assert replicas[chosen.value] in replicas;
        Take(chosen.value, now);
      }
    }

    method Take(i: nat, now: Time)
      requires Valid() && i < |replicas|
      modifies this`view, replicas[i], replicas[i].window
      ensures Valid() && view == old(view)[i := Admitted(old(view)[i], now)]
    {
      assert Shows(i);
      replicas[i].bs := replicas[i].bs + 1;
      replicas[i].UpdateWithStep(now);
      view := view[i := Admitted(view[i], now)];
      forall j: nat | j < |replicas|
        ensures Shows(j)
      {
        assert old(Shows(j));
      }
    }
  }

  // ---------- Routing ----------

  function ExpiredAll(reps: seq<Rep>, now: Time, duration: nat): (r: seq<Rep>)
    ensures |r| == |reps|
  {
    seq(|reps|, i requires 0 <= i < |reps| => Expired(reps[i], now, duration))
  }

  /** One admission, on values: what `PrebleBsQ.Admit` does to its view. */
  function Route(
      reps: seq<Rep>, hits: seq<nat>, blockSize: nat, inputLen: nat, threshold: real, now: Time, duration: nat)
    : (r: seq<Rep>)
    requires |hits| == |reps|
    ensures |r| == |reps|
  {
    var seen := ExpiredAll(reps, now, duration);
    var obs := Observe(seen, hits);
    BodyCases(obs, blockSize, inputLen, threshold);
    Commit(seen, Body(obs, blockSize, inputLen, threshold), now)
  }

  // ---------- What a replica's window tells ----------

  /** A request that comes in at a time, and its cached blocks on each replica. */
  datatype Arrival = Arrival(hits: seq<nat>, inputLen: nat, now: Time)

  datatype Policy = Policy(blockSize: nat, threshold: real, duration: nat)

  ghost predicate InTime(n: nat, xs: seq<Arrival>) {
    && (forall i | 0 <= i < |xs| :: |xs[i].hits| == n)
    && (forall i, j | 0 <= i < j < |xs| :: xs[i].now <= xs[j].now)
  }

  lemma InTimeBefore(n: nat, xs: seq<Arrival>)
    requires InTime(n, xs) && xs != []
    ensures InTime(n, xs[..|xs| - 1])
  {
  }

  ghost function RunOf(n: nat, xs: seq<Arrival>, p: Policy): (r: seq<Rep>)
    requires InTime(n, xs)
    ensures |r| == n
    decreases |xs|
  {
    if xs == [] then seq(n, _ => Rep(0, []))
    else
      InTimeBefore(n, xs);
      var x := xs[|xs| - 1];
      Route(RunOf(n, xs[..|xs| - 1], p), x.hits, p.blockSize, x.inputLen, p.threshold, x.now, p.duration)
  }

  /** Whom the policy picks for the last arrival. */
  ghost function Pick(n: nat, xs: seq<Arrival>, p: Policy): Option<nat>
    requires InTime(n, xs) && xs != []
  {
    InTimeBefore(n, xs);
    var x := xs[|xs| - 1];
    Body(Observe(ExpiredAll(RunOf(n, xs[..|xs| - 1], p), x.now, p.duration), x.hits), p.blockSize, x.inputLen,
         p.threshold)
  }

  /** All admissions of replica i, with the number of requests it then had. */
  ghost function Log(n: nat, xs: seq<Arrival>, p: Policy, i: nat): seq<(Time, int)>
    requires InTime(n, xs)
    decreases |xs|
  {
    if xs == [] then []
    else
      InTimeBefore(n, xs);
      var before := Log(n, xs[..|xs| - 1], p, i);
      if Pick(n, xs, p) == Some(i) then before + [(xs[|xs| - 1].now, |before| + 1)] else before
  }

  lemma {:induction false} LogInOrder(n: nat, xs: seq<Arrival>, p: Policy, i: nat)
    requires InTime(n, xs)
    ensures InOrder(Log(n, xs, p, i))
    ensures forall e | e in Log(n, xs, p, i) :: xs != [] && e.0 <= xs[|xs| - 1].now
    decreases |xs|
  {
    hide Pick;
    if xs != [] {
      InTimeBefore(n, xs);
      LogInOrder(n, xs[..|xs| - 1], p, i);
      var before := Log(n, xs[..|xs| - 1], p, i);
      forall j | 0 <= j < |before|
        ensures before[j].0 <= xs[|xs| - 1].now
      {
        assert before[j] in before;
      }
    }
  }

  lemma {:induction false} KeptPush(entries: seq<(Time, int)>, e: (Time, int), now: Time, duration: nat)
    requires !TooOld(now, e.0, duration)
    ensures Kept(entries, now, duration) + [e] == Kept(entries + [e], now, duration)
  {
    if entries != [] {
      KeptPush(entries[1..], e, now, duration);
      assert (entries + [e])[1..] == entries[1..] + [e];
    }
  }

  /** One routing step, as replica i sees it. */
  lemma RouteOne(reps: seq<Rep>, x: Arrival, p: Policy, i: nat)
    requires |x.hits| == |reps| && i < |reps|
    ensures var seen := Expired(reps[i], x.now, p.duration);
            var obs := Observe(ExpiredAll(reps, x.now, p.duration), x.hits);
            var pick := Body(obs, p.blockSize, x.inputLen, p.threshold);
            Route(reps, x.hits, p.blockSize, x.inputLen, p.threshold, x.now, p.duration)[i] ==
            if pick == Some(i) then Rep(seen.bs + 1, seen.entries + [(x.now, seen.bs + 1)]) else seen
  {
    hide Body;
    BodyCases(Observe(ExpiredAll(reps, x.now, p.duration), x.hits), p.blockSize, x.inputLen, p.threshold);
  }

  lemma {:induction false} RunKeeps(n: nat, xs: seq<Arrival>, p: Policy, i: nat)
    requires InTime(n, xs) && i < n
    ensures var r, log := RunOf(n, xs, p)[i], Log(n, xs, p, i);
            && r.bs == |log|
            && (if xs == [] then r.entries == log == []
                else r.entries == Kept(log, xs[|xs| - 1].now, p.duration))
    decreases |xs|
  {
    hide Route, Body, Kept;
    if xs != [] {
      InTimeBefore(n, xs);
      var before, x := xs[..|xs| - 1], xs[|xs| - 1];
      RunKeeps(n, before, p, i);
      RouteOne(RunOf(n, before, p), x, p, i);
      var log := Log(n, before, p, i);
      if before != [] {
        ExpiryIsLazy(log, before[|before| - 1].now, x.now, p.duration);
      }
      KeptPush(log, (x.now, |log| + 1), x.now, p.duration);
    }
  }

  /** In every run of admissions, whatever is cached, the policy sees for each replica the sum of the batch sizes at
      those of its admissions that are no longer ago than the window, and the batch size is the number of all. */
  lemma SeesYoung(n: nat, xs: seq<Arrival>, p: Policy, x: Arrival, i: nat)
    requires InTime(n, xs + [x]) && InTime(n, xs) && i < n
    ensures |x.hits| == n && RunOf(n, xs, p)[i].bs == |Log(n, xs, p, i)|
    ensures exists m: nat ::
              && OldUpTo(Log(n, xs, p, i), m, x.now, p.duration)
              && Observe(ExpiredAll(RunOf(n, xs, p), x.now, p.duration), x.hits)[i] ==
                 Obs(i, x.hits[i], Sum(Log(n, xs, p, i)[m..]))
  {
    hide Route, Body, Kept, Log, RunOf, OldUpTo, Sum;
    var all, log := xs + [x], Log(n, xs, p, i);
    assert all[|xs|] == x;
    RunKeeps(n, xs, p, i);
    if xs != [] {
      assert all[|xs| - 1] == xs[|xs| - 1];
      ExpiryIsLazy(log, xs[|xs| - 1].now, x.now, p.duration);
    }
    LogInOrder(n, xs, p, i);
    KeptAreYoung(log, x.now, p.duration);
  }

  // ---------- Cold start: no burst ----------

  datatype Request = Request(inputLen: nat, now: Time)

  /** A run of admissions to replicas whose trees are empty, so that every match is zero. */
  function ColdRun(n: nat, requests: seq<Request>, blockSize: nat, threshold: real, duration: nat): (r: seq<Rep>)
    ensures |r| == n
  {
    if requests == [] then seq(n, _ => Rep(0, []))
    else
      var last := requests[|requests| - 1];
      Route(ColdRun(n, requests[..|requests| - 1], blockSize, threshold, duration), seq(n, _ => 0),
            blockSize, last.inputLen, threshold, last.now, duration)
  }

  function Triangle(k: nat): nat {
    if k == 0 then 0 else Triangle(k - 1) + k
  }

  lemma {:induction false} TriangleClosedForm(k: nat)
    ensures 2 * Triangle(k) == k * (k + 1)
  {
    if k > 0 {
      TriangleClosedForm(k - 1);
    }
  }

  lemma {:induction false} TriangleGrows(j: nat, k: nat)
    requires Triangle(j) <= Triangle(k)
    ensures j <= k
    decreases j
  {
    if j > k {
      TriangleBelow(k, j);
    }
  }

  lemma {:induction false} TriangleBelow(k: nat, j: nat)
    requires k < j
    ensures Triangle(k) < Triangle(j)
    decreases j
  {
    if k < j - 1 {
      TriangleBelow(k, j - 1);
    }
  }

  function Count(reps: seq<Rep>): nat {
    if reps == [] then 0 else Count(reps[..|reps| - 1]) + reps[|reps| - 1].bs
  }

  lemma {:induction false} CountOneMore(reps: seq<Rep>, i: nat, rep: Rep)
    requires i < |reps| && rep.bs == reps[i].bs + 1
    ensures Count(reps[i := rep]) == Count(reps) + 1
  {
    var n := |reps| - 1;
    if i == n {
      assert reps[i := rep][..n] == reps[..n];
    } else {
      CountOneMore(reps[..n], i, rep);
      assert reps[i := rep][..n] == reps[..n][i := rep];
    }
  }

  /** What every cold run keeps: nothing old enough to expire, the window of a replica with k requests
      sums to 1 + ... + k, and no two replicas differ by more than one request. */
  ghost predicate Balanced(reps: seq<Rep>, t0: Time) {
    && (forall i | 0 <= i < |reps| :: Sum(reps[i].entries) == Triangle(reps[i].bs))
    && (forall i, e | 0 <= i < |reps| && e in reps[i].entries :: e.0 >= t0)
    && (forall i, j | 0 <= i < |reps| && 0 <= j < |reps| :: reps[i].bs <= reps[j].bs + 1)
  }

  lemma NothingExpires(reps: seq<Rep>, t0: Time, now: Time, duration: nat)
    requires Balanced(reps, t0) && now <= t0 + duration
    ensures ExpiredAll(reps, now, duration) == reps
  {
    forall i | 0 <= i < |reps|
      ensures Expired(reps[i], now, duration) == reps[i]
    {
      AllYoung(reps[i].entries, now, duration);
    }
  }

  lemma NoMatchIsShort(obs: seq<Obs>, blockSize: nat, inputLen: nat, threshold: real)
    requires threshold >= 0.0 && (forall o | o in obs :: o.hitBlocks == 0)
    ensures !LongMatch(obs, blockSize, inputLen, threshold)
  {
    assert GlobalMatch(obs) == 0;
  }

  lemma PickLeast(reps: seq<Rep>, hits: seq<nat>, blockSize: nat, inputLen: nat, threshold: real)
    requires |hits| == |reps| && (forall i | 0 <= i < |hits| :: hits[i] == 0) && threshold >= 0.0 && reps != []
    requires forall i | 0 <= i < |reps| :: Sum(reps[i].entries) == Triangle(reps[i].bs)
    ensures var r := Body(Observe(reps, hits), blockSize, inputLen, threshold);
            r.Some? && r.value < |reps| && forall j | 0 <= j < |reps| :: reps[r.value].bs <= reps[j].bs
  {
    hide LongMatch, Body, Sum, Triangle, GlobalMatch;
    var obs := Observe(reps, hits);
    BodyCases(obs, blockSize, inputLen, threshold);
    NoMatchIsShort(obs, blockSize, inputLen, threshold);
    var r := Body(obs, blockSize, inputLen, threshold);
    forall j | 0 <= j < |reps|
      ensures reps[r.value].bs <= reps[j].bs
    {
      assert obs[j] in obs;
      TriangleGrows(reps[r.value].bs, reps[j].bs);
    }
  }

  lemma AdmittedSum(rep: Rep, now: Time)
    requires Sum(rep.entries) == Triangle(rep.bs)
    ensures Sum(Admitted(rep, now).entries) == Triangle(rep.bs + 1)
  {
    var entries := Admitted(rep, now).entries;
    assert entries[..|entries| - 1] == rep.entries;
  }

  /** One more request at a least busy replica keeps the balance. */
  lemma BalancedStep(reps: seq<Rep>, i: nat, now: Time, t0: Time)
    requires Balanced(reps, t0) && i < |reps| && now >= t0
    requires forall j | 0 <= j < |reps| :: reps[i].bs <= reps[j].bs
    ensures Balanced(reps[i := Admitted(reps[i], now)], t0)
  {
    hide Sum, Triangle;
    AdmittedSum(reps[i], now);
  }

  /** From a cold start, however the admissions fall on the replicas, the counts of any two replicas
      differ by at most one as long as nothing expires, and every request is counted once. */
  lemma {:induction false} NeverBursts(n: nat, requests: seq<Request>, blockSize: nat, threshold: real, duration: nat,
                                       t0: Time)
    requires threshold >= 0.0 && n > 0
    requires forall r | r in requests :: t0 <= r.now <= t0 + duration
    ensures Balanced(ColdRun(n, requests, blockSize, threshold, duration), t0)
    ensures Count(ColdRun(n, requests, blockSize, threshold, duration)) == |requests|
  {
    if requests == [] {
      NoneCounted(n);
    } else {
      var last := requests[|requests| - 1];
      var before := requests[..|requests| - 1];
      NeverBursts(n, before, blockSize, threshold, duration, t0);
      RouteBalances(ColdRun(n, before, blockSize, threshold, duration), blockSize, threshold, duration, t0, last);
    }
  }

  lemma RouteBalances(reps: seq<Rep>, blockSize: nat, threshold: real, duration: nat, t0: Time, r: Request)
    requires reps != [] && threshold >= 0.0 && Balanced(reps, t0) && t0 <= r.now <= t0 + duration
    ensures var reps' := Route(reps, seq(|reps|, _ => 0), blockSize, r.inputLen, threshold, r.now, duration);
            Balanced(reps', t0) && Count(reps') == Count(reps) + 1
  {
    hide Balanced, Body, Count, Triangle, Sum;
    var hits := seq(|reps|, _ => 0);
    NothingExpires(reps, t0, r.now, duration);
    BalancedSums(reps, t0);
    PickLeast(reps, hits, blockSize, r.inputLen, threshold);
    var i := Body(Observe(reps, hits), blockSize, r.inputLen, threshold).value;
    CountOneMore(reps, i, Admitted(reps[i], r.now));
    BalancedStep(reps, i, r.now, t0);
  }

  lemma BalancedSums(reps: seq<Rep>, t0: Time)
    requires Balanced(reps, t0)
    ensures forall i | 0 <= i < |reps| :: Sum(reps[i].entries) == Triangle(reps[i].bs)
  {
  }

  lemma {:induction false} NoneCounted(n: nat)
    ensures Count(seq(n, _ => Rep(0, []))) == 0
  {
    if n > 0 {
      NoneCounted(n - 1);
      assert seq(n, _ => Rep(0, []))[..n - 1] == seq(n - 1, _ => Rep(0, []));
    }
  }
}
