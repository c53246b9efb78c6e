/** The queue runner: arrivals wait in one queue until the policy gives the oldest of them to a replica,
    whose work loop then pulls it from that replica's commit buffer. What the policy decides is an input.
  */
module QueueRunner {
  import opened Options
  import opened Except

  datatype Queue = Queue(uncommit: seq<Entry>, commits: seq<seq<Entry>>, bs: seq<nat>) {
    predicate Sized(n: nat) {
      |commits| == |bs| == n
    }
  }

  /** The oldest uncommitted request goes to replica r, whose batch size counts it from now on. */
  function Commit(q: Queue, r: nat): Queue
    requires q.uncommit != [] && r < |q.commits| == |q.bs|
  {
    Queue(q.uncommit[1..], q.commits[r := q.commits[r] + [q.uncommit[0]]], q.bs[r := q.bs[r] + 1])
  }

  /** A decision names a replica, or declines. */
  predicate Names(d: Option<nat>, n: nat) {
    d.Some? ==> d.value < n
  }

  predicate AllName(ds: seq<Option<nat>>, n: nat) {
    forall i | 0 <= i < |ds| :: Names(ds[i], n)
  }

  function Appended(q: Queue, e: Entry, d: Option<nat>): Queue
    requires |q.commits| == |q.bs| && Names(d, |q.bs|)
  {
    var q1 := q.(uncommit := q.uncommit + [e]);
    if d.Some? then Commit(q1, d.value) else q1
  }

  /** Requests are committed, each as the policy decides, until replica i has one. */
  function Refilled(q: Queue, i: nat, ds: seq<Option<nat>>): (r: Queue)
    requires i < |q.commits| == |q.bs| && AllName(ds, |q.bs|)
    ensures |r.commits| == |r.bs| == |q.bs|
    decreases |ds|
  {
    if q.commits[i] != [] || q.uncommit == [] || ds == [] || ds[0].None? then q
    else Refilled(Commit(q, ds[0].value), i, ds[1..])
  }

  function Pulled(q: Queue, i: nat): (Queue, Option<Entry>)
    requires i < |q.commits|
  {
    if q.commits[i] == [] then (q, None)
    else (q.(commits := q.commits[i := q.commits[i][1..]]), Some(q.commits[i][0]))
  }

  /** The policy gives the request in place j to replica i, and each one before it to some replica. */
  predicate Reaches(ds: seq<Option<nat>>, i: nat, j: nat) {
    j < |ds| && ds[j] == Some(i) && forall l | 0 <= l < j :: ds[l].Some?
  }

  /** A replica that asks gets the request committed to it first, if there is one; and otherwise the oldest
      waiting request that the policy gives it, if the policy gets that far. Exactly the requests up to that
      one leave the queue. */
  lemma {:induction false} AskingGets(q: Queue, i: nat, ds: seq<Option<nat>>)
    requires i < |q.commits| == |q.bs| && AllName(ds, |q.bs|)
    ensures var (q', out) := Pulled(Refilled(q, i, ds), i);
            && (out.Some? <==> q.commits[i] != [] || exists j: nat :: j < |q.uncommit| && Reaches(ds, i, j))
            && (q.commits[i] != [] ==> out == Some(q.commits[i][0]) && q'.uncommit == q.uncommit)
            && (q.commits[i] == [] && out.Some? ==>
                  exists j: nat :: && j < |q.uncommit| && Reaches(ds, i, j)
                              && out == Some(q.uncommit[j]) && q'.uncommit == q.uncommit[j + 1..])
    decreases |ds|
  {
    if q.commits[i] == [] && q.uncommit != [] && ds != [] && ds[0].Some? {
      var q1, ds1 := Commit(q, ds[0].value), ds[1..];
      AskingGets(q1, i, ds1);
      if ds[0] == Some(i) {
        assert Reaches(ds, i, 0);
      } else {
        Later(ds, i);
        var (q', out) := Pulled(Refilled(q, i, ds), i);
        if out.Some? {
          var j: nat :| j < |q1.uncommit| && Reaches(ds1, i, j) && out == Some(q1.uncommit[j])
                   && q'.uncommit == q1.uncommit[j + 1..];
          assert Reaches(ds, i, j + 1);
          assert q.uncommit[j + 1] == q1.uncommit[j] && q.uncommit[j + 2..] == q1.uncommit[j + 1..];
        }
        if j: nat :| j < |q.uncommit| && Reaches(ds, i, j) {
          assert Reaches(ds1, i, j - 1);
        }
      }
    }
  }

  lemma Later(ds: seq<Option<nat>>, i: nat)
    requires ds != [] && ds[0].Some? && ds[0] != Some(i)
    ensures forall j: nat :: Reaches(ds[1..], i, j) <==> Reaches(ds, i, j + 1)
    ensures !Reaches(ds, i, 0)
  {
    forall j: nat
      ensures Reaches(ds[1..], i, j) <==> Reaches(ds, i, j + 1)
    {
      assert forall l | 0 < l < |ds| :: ds[l] == ds[1..][l - 1];
    }
  }

  // ---------- Runs of arrivals ----------

  function AppendAll(q: Queue, es: seq<Entry>, ds: seq<Option<nat>>): (r: Queue)
    requires |q.commits| == |q.bs| && |es| == |ds| && AllName(ds, |q.bs|)
    ensures |r.commits| == |r.bs| == |q.bs|
  {
    if es == [] then q
    else
      var n := |es| - 1;
      assert forall i | 0 <= i < n :: ds[..n][i] == ds[i];
      Appended(AppendAll(q, es[..n], ds[..n]), es[n], ds[n])
  }

  /** The replicas named, in order; a refusal names none. */
  function Named(ds: seq<Option<nat>>): seq<nat> {
    if ds == [] then []
    else Named(ds[..|ds| - 1]) + if ds[|ds| - 1].Some? then [ds[|ds| - 1].value] else []
  }

  /** Of the first |rs| requests those that `rs` gives to replica i. */
  function Given(es: seq<Entry>, rs: seq<nat>, i: nat): seq<Entry>
    requires |rs| <= |es|
  {
    if rs == [] then []
    else
      var n := |rs| - 1;
      Given(es, rs[..n], i) + if rs[n] == i then [es[n]] else []
  }

  lemma {:induction false} GivenPrefix(es: seq<Entry>, e: Entry, rs: seq<nat>, i: nat)
    requires |rs| <= |es|
    ensures Given(es + [e], rs, i) == Given(es, rs, i)
  {
    if rs != [] {
      GivenPrefix(es, e, rs[..|rs| - 1], i);
    }
  }

  /** The queue after arrivals es, the first |rs| of which have been committed, to the replicas rs. */
  ghost predicate InTurn(q: Queue, es: seq<Entry>, rs: seq<nat>) {
    && |rs| <= |es| && |q.commits| == |q.bs| && q.uncommit == es[|rs|..]
    && (forall i | 0 <= i < |q.bs| :: q.commits[i] == Given(es, rs, i) && q.bs[i] == |Given(es, rs, i)|)
  }

  lemma GivenMore(es: seq<Entry>, e: Entry, rs: seq<nat>, r: nat, i: nat)
    requires |rs| <= |es|
    ensures Given(es + [e], rs + [r], i) == Given(es, rs, i) + if r == i then [(es + [e])[|rs|]] else []
  {
    GivenPrefix(es, e, rs, i);
    assert (rs + [r])[..|rs|] == rs;
  }

  /** An arrival that the policy leaves waiting. */
  lemma WaitInTurn(q: Queue, es: seq<Entry>, rs: seq<nat>, e: Entry)
    requires InTurn(q, es, rs)
    ensures InTurn(q.(uncommit := q.uncommit + [e]), es + [e], rs)
  {
    assert (es + [e])[|rs|..] == es[|rs|..] + [e];
    forall i | 0 <= i < |q.bs|
      ensures Given(es + [e], rs, i) == Given(es, rs, i)
    {
      GivenPrefix(es, e, rs, i);
    }
  }

  /** One upon which the oldest waiting request is given to replica r. */
  lemma CommitInTurn(q: Queue, es: seq<Entry>, rs: seq<nat>, e: Entry, r: nat)
    requires InTurn(q, es, rs) && r < |q.bs|
    ensures InTurn(Commit(q.(uncommit := q.uncommit + [e]), r), es + [e], rs + [r])
  {
    hide Given;
    assert (es + [e])[|rs|..] == es[|rs|..] + [e];
    assert (es + [e])[|rs|..][1..] == (es + [e])[|rs| + 1..];
    forall i | 0 <= i < |q.bs|
      ensures Given(es + [e], rs + [r], i) == Given(es, rs, i) + if r == i then [(es + [e])[|rs|]] else []
    {
      GivenMore(es, e, rs, r, i);
    }
  }

  /** Each time the policy names a replica while arrivals come in, the oldest waiting request goes to it: after any
      arrivals the j-th one is with the replica named j-th, in order of arrival, and counted there; the others
      still wait. With a policy that never refuses nobody waits. */
  lemma {:induction false} ArrivalsInTurn(n: nat, es: seq<Entry>, ds: seq<Option<nat>>)
    requires |es| == |ds| && AllName(ds, n)
    ensures InTurn(AppendAll(Queue([], seq(n, _ => []), seq(n, _ => 0)), es, ds), es, Named(ds))
    ensures (forall i | 0 <= i < |ds| :: ds[i].Some?) ==> |Named(ds)| == |es|
  {
    hide Commit, InTurn;
    if es == [] {
      NothingInTurn(n);
    } else {
      var m := |es| - 1;
      assert forall i | 0 <= i < m :: ds[..m][i] == ds[i];
      ArrivalsInTurn(n, es[..m], ds[..m]);
      var q := AppendAll(Queue([], seq(n, _ => []), seq(n, _ => 0)), es[..m], ds[..m]);
      assert es[..m] + [es[m]] == es;
      if ds[m].Some? {
        CommitInTurn(q, es[..m], Named(ds[..m]), es[m], ds[m].value);
      } else {
        WaitInTurn(q, es[..m], Named(ds[..m]), es[m]);
        assert Named(ds) == Named(ds[..m]);
      }
    }
  }

  lemma NothingInTurn(n: nat)
    ensures InTurn(Queue([], seq(n, _ => []), seq(n, _ => 0)), [], [])
  {
  }

  class QueueTask {
    var uncommit: seq<Entry>
    var commits: seq<seq<Entry>>
    var bs: seq<nat>

    function Value(): Queue
      reads this
    {
      Queue(uncommit, commits, bs)
    }

    constructor (n: nat)
      ensures Value() == Queue([], seq(n, _ => []), seq(n, _ => 0))
    {
      uncommit, commits, bs := [], seq(n, _ => []), seq(n, _ => 0);
    }

    /** Policy decision r for the oldest request, with its effect on the replica's batch size. */
    method CommitFront(r: nat)
      requires uncommit != [] && r < |commits| == |bs|
      modifies this
      ensures Value() == Commit(old(Value()), r)
    {
      bs := bs[r := bs[r] + 1];
      var entry := uncommit[0];
      uncommit := uncommit[1..];
      commits := commits[r := commits[r] + [entry]];
    }

    method Append(entry: Entry, d: Option<nat>)
      requires |commits| == |bs| && Names(d, |bs|)
      modifies this
      ensures Value() == Appended(old(Value()), entry, d)
    {
      uncommit := uncommit + [entry];
      if d.Some? {
        CommitFront(d.value);
      }
    }

    method NextRequest(i: nat, ds: seq<Option<nat>>) returns (out: Option<Entry>)
      requires i < |commits| == |bs| && AllName(ds, |bs|)
      modifies this
      ensures (Value(), out) == Pulled(Refilled(old(Value()), i, ds), i)
    {
      var todo := ds;
      while commits[i] == [] && uncommit != [] && todo != [] && todo[0].Some?
        invariant i < |commits| == |bs| == |old(bs)| && AllName(todo, |bs|)
        invariant Refilled(Value(), i, todo) == Refilled(old(Value()), i, ds)
        decreases |todo|
      {
        CommitFront(todo[0].value);
        todo := todo[1..];
      }
      if commits[i] == [] {
        out := None;
      } else {
        out := Some(commits[i][0]);
        commits := commits[i := commits[i][1..]];
      }
    }
  }
}
