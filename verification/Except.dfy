/** The exception context of a replica: requests aborted by their frontend or faulted by the backend,
    until their last trace is gone.
  */
module Except {
  import opened Basics
  import opened Options

  datatype Entry = Entry(rid: Rid, input: nat)

  datatype State = WaitingTerm(live: bool) | Faulted(live: bool) | Exited(waitingTerm: bool)

  datatype Event =
    | Abort(rid: Rid, entry: Entry) | Fault(rid: Rid, entry: Entry)
    | Term(rid: Rid) | Exit(rid: Rid) | Live(rid: Rid)

  type States = seq<(Rid, State)>

  datatype Ext = Ext(entries: map<Rid, Entry>, states: States)

  // ---------- Transitions ----------

  function Ids(s: States): set<Rid> {
    if s == [] then {} else {s[0].0} + Ids(s[1..])
  }

  /** Index of the first state of id k. */
  function Find(s: States, k: Rid): (i: nat)
    requires k in Ids(s)
    ensures i < |s| && s[i].0 == k
  {
    if s[0].0 == k then 0 else 1 + Find(s[1..], k)
  }

  function At(s: States, k: Rid): State
    requires k in Ids(s)
  {
    s[Find(s, k)].1
  }

  function Set(s: States, k: Rid, st: State): States
    requires k in Ids(s)
  {
    s[Find(s, k) := (k, st)]
  }

  /** The states without the first one of id k. */
  function Delete(s: States, k: Rid): States
    requires k in Ids(s)
  {
    if s[0].0 == k then s[1..] else [s[0]] + Delete(s[1..], k)
  }

  lemma {:induction false} DeleteIs(s: States, k: Rid)
    requires k in Ids(s)
    ensures Delete(s, k) == s[..Find(s, k)] + s[Find(s, k) + 1..]
  {
    if s[0].0 != k {
      DeleteIs(s[1..], k);
    }
  }

  function OnLive(st: State): State {
    match st
    case WaitingTerm(_) => WaitingTerm(true)
    case Faulted(_) => Faulted(true)
    case Exited(w) => Exited(w)
  }

  /** An exit or a termination signal is only handled for an id that is tracked. */
  predicate Handled(x: Ext, e: Event) {
    (e.Exit? || e.Term?) ==> e.rid in Ids(x.states)
  }

  function Take(x: Ext, k: Rid): Option<Entry> {
    if k in x.entries then Some(x.entries[k]) else None
  }

  function Put(x: Ext, e: Event): (Ext, Option<Entry>)
    requires Handled(x, e)
  {
    match e
    case Abort(k, entry) => (Ext(x.entries[k := entry], x.states + [(k, WaitingTerm(false))]), None)
    case Fault(k, entry) => (Ext(x.entries[k := entry], x.states + [(k, Faulted(true))]), None)
    case Live(k) =>
      (if k in Ids(x.states) then x.(states := Set(x.states, k, OnLive(At(x.states, k)))) else x, None)
    case Exit(k) =>
      (match At(x.states, k)
       case WaitingTerm(_) => (Ext(x.entries - {k}, Set(x.states, k, Exited(true))), Take(x, k))
       case Faulted(_) => (Ext(x.entries - {k}, Set(x.states, k, Exited(false))), Take(x, k))
       case Exited(_) => (x, None))
    case Term(k) =>
      var rest := Delete(x.states, k);
      if At(x.states, k).Exited? then (x.(states := rest), None)
      else (Ext(x.entries - {k}, rest), Take(x, k))
  }

  predicate DropReady(st: State) {
    st == Faulted(false)
  }

  function Clear(st: State): State {
    match st
    case WaitingTerm(_) => WaitingTerm(false)
    case Faulted(_) => Faulted(false)
    case Exited(w) => Exited(w)
  }

  function Kept(s: States): States {
    if s == [] then []
    else if DropReady(s[0].1) then Kept(s[1..])
    else [(s[0].0, Clear(s[0].1))] + Kept(s[1..])
  }

  function Ready(s: States): set<Rid> {
    if s == [] then {} else (if DropReady(s[0].1) then {s[0].0} else {}) + Ready(s[1..])
  }

  /** What the cleanup hands out. */
  function Drops(s: States, m: map<Rid, Entry>): seq<(Rid, Entry)>
    requires Ready(s) <= m.Keys
  {
    if s == [] then []
    else if DropReady(s[0].1) then [(s[0].0, m[s[0].0])] + Drops(s[1..], m)
    else Drops(s[1..], m)
  }

  /** The context after the end-of-cycle cleanup; the entries of `Ready` ids come out. */
  function Cleaned(x: Ext): Ext {
    Ext(x.entries - Ready(x.states), Kept(x.states))
  }

  // ---------- Invariant ----------

  ghost predicate Apart(s: States) {
    s != [] ==> s[0].0 !in Ids(s[1..]) && Apart(s[1..])
  }

  /** The ids whose entry has not been taken. */
  function Holding(s: States): set<Rid> {
    if s == [] then {} else (if s[0].1.Exited? then {} else {s[0].0}) + Holding(s[1..])
  }

  ghost predicate Ok(x: Ext) {
    && Apart(x.states) && x.entries.Keys == Holding(x.states)
    && (forall k | k in x.entries :: x.entries[k].rid == k)
  }

  lemma {:induction false} Subsets(s: States)
    ensures Ready(s) <= Holding(s) <= Ids(s)
  {
    if s != [] { Subsets(s[1..]); }
  }

  lemma {:induction false} Append(s: States, k: Rid, st: State)
    ensures Ids(s + [(k, st)]) == Ids(s) + {k}
    ensures Holding(s + [(k, st)]) == Holding(s) + if st.Exited? then {} else {k}
    ensures Apart(s) && k !in Ids(s) ==> Apart(s + [(k, st)])
  {
    var t := s + [(k, st)];
    if s == [] {
      assert t[1..] == [];
    } else {
      Append(s[1..], k, st);
      assert t[1..] == s[1..] + [(k, st)];
    }
  }

  lemma {:induction false} AppendAt(s: States, k: Rid, st: State, j: Rid)
    requires j in Ids(s) || j == k
    ensures j in Ids(s + [(k, st)])
    ensures At(s + [(k, st)], j) == if j in Ids(s) then At(s, j) else st
  {
    var t := s + [(k, st)];
    if s != [] {
      assert t[1..] == s[1..] + [(k, st)];
      if s[0].0 != j { AppendAt(s[1..], k, st, j); }
    }
  }

  lemma {:induction false} Replace(s: States, k: Rid, st: State)
    requires Apart(s) && k in Ids(s)
    ensures var t := Set(s, k, st);
            && Ids(t) == Ids(s) && Apart(t)
            && Holding(t) == if st.Exited? then Holding(s) - {k} else Holding(s) + {k}
  {
    var t := Set(s, k, st);
    Subsets(s[1..]);
    if s[0].0 == k {
      assert t[1..] == s[1..];
    } else {
      Replace(s[1..], k, st);
      assert t[1..] == Set(s[1..], k, st);
    }
  }

  lemma {:induction false} ReplaceAt(s: States, k: Rid, st: State, j: Rid)
    requires k in Ids(s) && j in Ids(s)
    ensures j in Ids(Set(s, k, st)) && At(Set(s, k, st), j) == if j == k then st else At(s, j)
  {
    var t := Set(s, k, st);
    if s[0].0 == k {
      assert t[1..] == s[1..];
    } else {
      assert t[1..] == Set(s[1..], k, st);
      if s[0].0 != j { ReplaceAt(s[1..], k, st, j); }
    }
  }

  lemma {:induction false} DeleteIds(s: States, k: Rid)
    requires Apart(s) && k in Ids(s)
    ensures var t := Delete(s, k); Ids(t) == Ids(s) - {k} && Apart(t) && Holding(t) == Holding(s) - {k}
  {
    Subsets(s[1..]);
    if s[0].0 != k {
      DeleteIds(s[1..], k);
      assert Delete(s, k)[1..] == Delete(s[1..], k);
    }
  }

  lemma {:induction false} DeleteAt(s: States, k: Rid, j: Rid)
    requires k in Ids(s) && j in Ids(s) && j != k
    ensures j in Ids(Delete(s, k)) && At(Delete(s, k), j) == At(s, j)
  {
    if s[0].0 != k {
      assert Delete(s, k)[1..] == Delete(s[1..], k);
      if s[0].0 != j { DeleteAt(s[1..], k, j); }
    }
  }

  lemma {:induction false} AtHolding(s: States, k: Rid)
    requires Apart(s) && k in Ids(s)
    ensures k in Holding(s) <==> !At(s, k).Exited?
    ensures k in Ready(s) <==> DropReady(At(s, k))
  {
    Subsets(s[1..]);
    if s[0].0 != k { AtHolding(s[1..], k); }
  }

  lemma {:induction false} KeptIds(s: States)
    requires Apart(s)
    ensures Ids(Kept(s)) == Ids(s) - Ready(s) && Apart(Kept(s)) && Holding(Kept(s)) == Holding(s) - Ready(s)
  {
    if s != [] {
      KeptIds(s[1..]);
      Subsets(s[1..]);
    }
  }

  lemma {:induction false} KeptAt(s: States, j: Rid)
    requires Apart(s) && j in Ids(s) && j !in Ready(s)
    ensures j in Ids(Kept(s)) && At(Kept(s), j) == Clear(At(s, j))
  {
    if s[0].0 != j {
      KeptAt(s[1..], j);
    }
  }

  /** A new exception is one for an id that is not tracked yet, and carries that id's entry. */
  ghost predicate Fresh(x: Ext, e: Event) {
    (e.Abort? || e.Fault?) ==> e.rid !in Ids(x.states) && e.entry.rid == e.rid
  }

  /** Every event keeps ids unique and entries in step with states; an exit or termination hands out the
      entry exactly if it has not been taken yet. */
  lemma PutKeeps(x: Ext, e: Event)
    requires Ok(x) && Handled(x, e) && Fresh(x, e)
    ensures var (x', out) := Put(x, e);
            && Ok(x')
            && Ids(x'.states) == (match e
                 case Abort(k, _) => Ids(x.states) + {k}
                 case Fault(k, _) => Ids(x.states) + {k}
                 case Term(k) => Ids(x.states) - {k}
                 case _ => Ids(x.states))
            && x'.entries.Keys == (match e
                 case Abort(k, _) => x.entries.Keys + {k}
                 case Fault(k, _) => x.entries.Keys + {k}
                 case Live(_) => x.entries.Keys
                 case _ => x.entries.Keys - {e.rid})
            && (out.Some? <==> (e.Exit? || e.Term?) && e.rid in x.entries)
            && (out.Some? ==> out.value == x.entries[e.rid])
            && (forall k | k in x.entries && k in x'.entries :: x'.entries[k] == x.entries[k])
  {
    match e
    case Abort(k, _) =>
      Append(x.states, k, WaitingTerm(false));
      Subsets(x.states);
    case Fault(k, _) =>
      Append(x.states, k, Faulted(true));
      Subsets(x.states);
    case Live(k) =>
      if k in Ids(x.states) {
        AtHolding(x.states, k);
        Replace(x.states, k, OnLive(At(x.states, k)));
      }
    case Exit(k) =>
      AtHolding(x.states, k);
      Replace(x.states, k, Exited(At(x.states, k).WaitingTerm?));
    case Term(k) =>
      AtHolding(x.states, k);
      DeleteIds(x.states, k);
  }

  lemma {:induction false} DropsAre(s: States, m: map<Rid, Entry>)
    requires Apart(s) && Ready(s) <= m.Keys
    ensures |Drops(s, m)| == |Ready(s)|
    ensures forall i | 0 <= i < |Drops(s, m)| :: Drops(s, m)[i].0 in Ready(s) && Drops(s, m)[i].1 == m[Drops(s, m)[i].0]
  {
    if s != [] {
      DropsAre(s[1..], m);
      Subsets(s[1..]);
      if DropReady(s[0].1) {
        assert Ready(s[1..]) !! {s[0].0};
      }
    }
  }

  /** The cleanup keeps the invariant and finds every entry it is to hand out. */
  lemma CleanKeeps(x: Ext)
    requires Ok(x)
    ensures Ok(Cleaned(x)) && Ready(x.states) <= x.entries.Keys
    ensures Ids(Cleaned(x).states) == Ids(x.states) - Ready(x.states)
    ensures Cleaned(x).entries.Keys == x.entries.Keys - Ready(x.states)
  {
    Subsets(x.states);
    KeptIds(x.states);
  }

  // ---------- Event by event ----------

  /** The context has a trace of id j. */
  predicate Tracks(x: Ext, j: Rid) {
    j in Ids(x.states)
  }

  lemma EntriesTracked(x: Ext)
    requires Ok(x)
    ensures forall j | j in x.entries :: Tracks(x, j)
  {
    Subsets(x.states);
  }

  lemma PutNew(x: Ext, e: Event)
    requires Ok(x) && (e.Abort? || e.Fault?) && !Tracks(x, e.rid) && e.entry.rid == e.rid
    ensures var x' := Put(x, e).0;
            && Ok(x') && x'.entries == x.entries[e.rid := e.entry]
            && (forall j :: Tracks(x', j) <==> Tracks(x, j) || j == e.rid)
  {
    PutKeeps(x, e);
  }

  lemma PutExit(x: Ext, k: Rid)
    requires Ok(x) && Tracks(x, k)
    ensures var (x', out) := Put(x, Exit(k));
            && Ok(x') && x'.entries == x.entries - {k} && (out.Some? <==> k in x.entries)
            && (forall j :: Tracks(x', j) <==> Tracks(x, j))
  {
    PutKeeps(x, Exit(k));
    AtHolding(x.states, k);
  }

  lemma PutTerm(x: Ext, k: Rid)
    requires Ok(x) && Tracks(x, k)
    ensures var (x', out) := Put(x, Term(k));
            && Ok(x') && x'.entries == x.entries - {k} && (out.Some? <==> k in x.entries)
            && (forall j :: Tracks(x', j) <==> Tracks(x, j) && j != k)
  {
    PutKeeps(x, Term(k));
    AtHolding(x.states, k);
  }

  // ---------- Runs ----------

  datatype Act = Do(e: Event) | Clean

  function Next(x: Ext, a: Act): Ext
    requires a.Do? ==> Handled(x, a.e)
  {
    match a
    case Do(e) => Put(x, e).0
    case Clean => Cleaned(x)
  }

  /** A run that only reports exits and terminations of tracked ids, and new exceptions for untracked
      ones. */
  ghost predicate Legal(x: Ext, acts: seq<Act>)
    decreases |acts|
  {
    acts == [] || ((acts[0].Do? ==> Handled(x, acts[0].e) && Fresh(x, acts[0].e)) && Legal(Next(x, acts[0]), acts[1..]))
  }

  ghost function Run(x: Ext, acts: seq<Act>): Ext
    requires Legal(x, acts)
    decreases |acts|
  {
    if acts == [] then x else Run(Next(x, acts[0]), acts[1..])
  }

  /** Whether an act puts the entry of k in, and whether it hands it out. */
  ghost predicate PutsIn(a: Act, k: Rid) {
    a.Do? && (a.e.Abort? || a.e.Fault?) && a.e.rid == k
  }

  ghost predicate HandsOut(x: Ext, a: Act, k: Rid)
    requires a.Do? ==> Handled(x, a.e)
  {
    match a
    case Do(e) => Put(x, e).1.Some? && e.rid == k
    case Clean => k in Ready(x.states)
  }

  ghost function Ins(x: Ext, acts: seq<Act>, k: Rid): nat {
    if acts == [] then 0 else (if PutsIn(acts[0], k) then 1 else 0) + Ins(x, acts[1..], k)
  }

  ghost function Outs(x: Ext, acts: seq<Act>, k: Rid): nat
    requires Legal(x, acts)
    decreases |acts|
  {
    if acts == [] then 0 else (if HandsOut(x, acts[0], k) then 1 else 0) + Outs(Next(x, acts[0]), acts[1..], k)
  }

  lemma StepKeeps(x: Ext, a: Act, k: Rid)
    requires Ok(x) && (a.Do? ==> Handled(x, a.e) && Fresh(x, a.e))
    ensures Ok(Next(x, a))
    ensures (if k in x.entries then 1 else 0) + (if PutsIn(a, k) then 1 else 0) ==
            (if k in Next(x, a).entries then 1 else 0) + if HandsOut(x, a, k) then 1 else 0
  {
    Subsets(x.states);
    match a
    case Do(e) => PutKeeps(x, e);
    case Clean => CleanKeeps(x);
  }

  /** Over any run, every entry put in comes out at most once, and until it does it is still held: what
      went in is what came out and what is left. */
  lemma {:induction false} RunConserves(x: Ext, acts: seq<Act>, k: Rid)
    requires Ok(x) && Legal(x, acts)
    ensures Ok(Run(x, acts))
    ensures (if k in x.entries then 1 else 0) + Ins(x, acts, k) ==
            Outs(x, acts, k) + if k in Run(x, acts).entries then 1 else 0
    decreases |acts|
  {
    if acts != [] {
      StepKeeps(x, acts[0], k);
      RunConserves(Next(x, acts[0]), acts[1..], k);
      InsAnywhere(x, Next(x, acts[0]), acts[1..], k);
    }
  }

  lemma {:induction false} InsAnywhere(x: Ext, y: Ext, acts: seq<Act>, k: Rid)
    ensures Ins(x, acts, k) == Ins(y, acts, k)
  {
    if acts != [] { InsAnywhere(x, y, acts[1..], k); }
  }

  /** Nothing in the run concerns k, and the run has no cleanup. */
  ghost predicate Quiet(acts: seq<Act>, k: Rid) {
    forall i | 0 <= i < |acts| :: acts[i].Do? && acts[i].e.rid != k
  }

  lemma AloneKeeps(x: Ext, e: Event, k: Rid)
    requires Ok(x) && Handled(x, e) && Fresh(x, e) && e.rid != k && k in Ids(x.states)
    ensures k in Ids(Put(x, e).0.states) && At(Put(x, e).0.states, k) == At(x.states, k)
  {
    match e
    case Abort(j, _) => AppendAt(x.states, j, WaitingTerm(false), k);
    case Fault(j, _) => AppendAt(x.states, j, Faulted(true), k);
    case Live(j) => if j in Ids(x.states) { ReplaceAt(x.states, j, OnLive(At(x.states, j)), k); }
    case Exit(j) => ReplaceAt(x.states, j, Exited(At(x.states, j).WaitingTerm?), k);
    case Term(j) => DeleteAt(x.states, j, k);
  }

  lemma {:induction false} QuietKeeps(x: Ext, acts: seq<Act>, k: Rid)
    requires Ok(x) && Legal(x, acts) && Quiet(acts, k) && k in Ids(x.states)
    ensures Ok(Run(x, acts)) && k in Ids(Run(x, acts).states) && At(Run(x, acts).states, k) == At(x.states, k)
    ensures k in x.entries <==> k in Run(x, acts).entries
    ensures k in x.entries ==> Run(x, acts).entries[k] == x.entries[k]
    decreases |acts|
  {
    if acts != [] {
      AloneKeeps(x, acts[0].e, k);
      PutKeeps(x, acts[0].e);
      QuietKeeps(Next(x, acts[0]), acts[1..], k);
    }
  }

  /** A fault that nothing disturbs survives the first cleanup and is handed out by the second. */
  lemma UndisturbedFault(x: Ext, k: Rid, entry: Entry, first: seq<Act>, second: seq<Act>)
    requires Ok(x) && Fresh(x, Fault(k, entry)) && Quiet(first, k) && Quiet(second, k)
    requires Legal(Put(x, Fault(k, entry)).0, first)
    requires Legal(Cleaned(Run(Put(x, Fault(k, entry)).0, first)), second)
    ensures var x1 := Run(Put(x, Fault(k, entry)).0, first);
            var x2 := Run(Cleaned(x1), second);
            && k !in Ready(x1.states)
            && k in Ready(x2.states) && k in x2.entries && x2.entries[k] == entry
            && k !in Ids(Cleaned(x2).states) && k !in Cleaned(x2).entries
  {
    var x0 := Put(x, Fault(k, entry)).0;
    PutKeeps(x, Fault(k, entry));
    AppendAt(x.states, k, Faulted(true), k);
    QuietKeeps(x0, first, k);
    var x1 := Run(x0, first);
    AtHolding(x1.states, k);
    KeptAt(x1.states, k);
    CleanKeeps(x1);
    QuietKeeps(Cleaned(x1), second, k);
    var x2 := Run(Cleaned(x1), second);
    AtHolding(x2.states, k);
    CleanKeeps(x2);
  }

  /** Nothing in the run but live signals concerns k, and the run has no cleanup. */
  ghost predicate OnlyLive(acts: seq<Act>, k: Rid) {
    forall i | 0 <= i < |acts| :: acts[i].Do? && (acts[i].e.rid != k || acts[i].e.Live?)
  }

  lemma LiveStep(x: Ext, e: Event, k: Rid)
    requires Ok(x) && Handled(x, e) && Fresh(x, e) && Tracks(x, k) && At(x.states, k).Faulted?
    requires e.rid != k || e.Live?
    ensures var y := Put(x, e).0;
            && Ok(y) && Tracks(y, k) && At(y.states, k).Faulted?
            && (k in Ready(y.states) <==> k in Ready(x.states) && e != Live(k))
  {
    PutKeeps(x, e);
    AtHolding(x.states, k);
    AtHolding(Put(x, e).0.states, k);
    if e.rid != k {
      AloneKeeps(x, e, k);
    } else {
      ReplaceAt(x.states, k, OnLive(At(x.states, k)), k);
    }
  }

  /** A fault that is due at the next cleanup is kept from it exactly by a live signal in between. */
  lemma {:induction false} LiveKeeps(x: Ext, acts: seq<Act>, k: Rid)
    requires Ok(x) && Legal(x, acts) && OnlyLive(acts, k) && Tracks(x, k) && At(x.states, k).Faulted?
    ensures var y := Run(x, acts);
            && Ok(y) && Tracks(y, k) && At(y.states, k).Faulted?
            && (k in Ready(y.states) <==> k in Ready(x.states) && Do(Live(k)) !in acts)
    decreases |acts|
  {
    hide Put, Ready, Ok, Tracks, At;
    if acts != [] {
      LiveStep(x, acts[0].e, k);
      LiveKeeps(Next(x, acts[0]), acts[1..], k);
      assert acts == [acts[0]] + acts[1..];
    }
  }

  /** Id k has a trace before the run and after every act of it. */
  ghost predicate AlwaysTracked(x: Ext, acts: seq<Act>, k: Rid)
    requires Legal(x, acts)
    decreases |acts|
  {
    Tracks(x, k) && (acts != [] ==> AlwaysTracked(Next(x, acts[0]), acts[1..], k))
  }

  ghost predicate NoTerm(acts: seq<Act>, k: Rid) {
    forall i | 0 <= i < |acts| :: acts[i] != Do(Term(k))
  }

  lemma NoTermSplit(acts: seq<Act>, k: Rid)
    requires acts != []
    ensures NoTerm(acts, k) <==> acts[0] != Do(Term(k)) && NoTerm(acts[1..], k)
  {
    forall i | 1 <= i < |acts|
      ensures acts[i] == acts[1..][i - 1]
    {
    }
  }

  /** Any act but a termination leaves the state of an exited fault alone; the termination removes it. */
  lemma ExitedStep(x: Ext, a: Act, k: Rid)
    requires Ok(x) && Tracks(x, k) && At(x.states, k) == Exited(false)
    requires a.Do? ==> Handled(x, a.e) && Fresh(x, a.e)
    ensures a == Do(Term(k)) ==> !Tracks(Next(x, a), k)
    ensures a != Do(Term(k)) ==> Tracks(Next(x, a), k) && At(Next(x, a).states, k) == Exited(false)
    ensures Ok(Next(x, a))
  {
    StepKeeps(x, a, k);
    AtHolding(x.states, k);
    if a.Clean? {
      KeptAt(x.states, k);
    } else if a == Do(Term(k)) {
      PutTerm(x, k);
    } else if a.e.rid != k {
      AloneKeeps(x, a.e, k);
    } else if a.e.Live? {
      ReplaceAt(x.states, k, Exited(false), k);
    }
  }

  /** A faulted request that has exited keeps its trace for the whole run if and only if no termination
      names it, which the backend does not send for faults; the cleanup never removes it. */
  lemma {:induction false} ExitedFaultStays(x: Ext, acts: seq<Act>, k: Rid)
    requires Ok(x) && Legal(x, acts) && Tracks(x, k) && At(x.states, k) == Exited(false)
    ensures AlwaysTracked(x, acts, k) <==> NoTerm(acts, k)
    decreases |acts|
  {
    hide Next, NoTerm, Ok, Tracks;
    if acts == [] {
      NoTermEmpty(k);
    } else {
      ExitedStep(x, acts[0], k);
      NoTermSplit(acts, k);
      if acts[0] != Do(Term(k)) {
        ExitedFaultStays(Next(x, acts[0]), acts[1..], k);
      } else {
        NotTracked(Next(x, acts[0]), acts[1..], k);
      }
    }
  }

  lemma NoTermEmpty(k: Rid)
    ensures NoTerm([], k)
  {
  }

  lemma NotTracked(x: Ext, acts: seq<Act>, k: Rid)
    requires Legal(x, acts) && !Tracks(x, k)
    ensures !AlwaysTracked(x, acts, k)
  {
  }

  // ---------- The context in place ----------

  lemma CleanupStart(x: Ext)
    requires Ok(x)
    ensures Ready(x.states) <= x.entries.Keys && Apart(x.states) && {} !! Ids(x.states)
  {
    Subsets(x.states);
  }

  lemma CleanupEnd(x: Ext)
    ensures Kept([]) == [] && Ready([]) == {} && (Ready([]) <= x.entries.Keys ==> Drops([], x.entries) == [])
  {
  }

  /** What the cleanup does to the first state. */
  lemma CleanupHead(s: States, m: map<Rid, Entry>)
    requires s != [] && Apart(s) && Ready(s) <= m.Keys
    ensures Apart(s[1..]) && Ready(s[1..]) <= m.Keys && Ids(s) == {s[0].0} + Ids(s[1..]) && s[0].0 !in Ids(s[1..])
    ensures DropReady(s[0].1) ==>
              && s[0].0 in m && Kept(s) == Kept(s[1..]) && Ready(s) == {s[0].0} + Ready(s[1..])
              && Drops(s, m) == [(s[0].0, m[s[0].0])] + Drops(s[1..], m)
    ensures !DropReady(s[0].1) ==>
              && Kept(s) == [(s[0].0, Clear(s[0].1))] + Kept(s[1..]) && Ready(s) == Ready(s[1..])
              && Drops(s, m) == Drops(s[1..], m)
  {
  }

  class ExtContext {
    var entries: map<Rid, Entry>
    var states: States

    function Value(): Ext
      reads this
    {
      Ext(entries, states)
    }

    constructor ()
      ensures Value() == Ext(map[], []) && Ok(Value())
    {
      entries, states := map[], [];
    }

    /** Position of an id that is tracked. */
    method Position(k: Rid) returns (i: nat)
      requires k in Ids(states)
      ensures i == Find(states, k)
    {
      i := 0;
      while states[i].0 != k
        invariant i < |states| && k in Ids(states[i..]) && Find(states, k) == i + Find(states[i..], k)
        decreases |states| - i
      {
        assert states[i..][1..] == states[i + 1..];
        i := i + 1;
      }
      assert states[i..][0] == states[i];
    }

    method PutEvent(e: Event) returns (out: Option<Entry>)
      requires Handled(Value(), e)
      modifies this
      ensures (Value(), out) == Put(old(Value()), e)
    {
      out := None;
      match e
      case Abort(k, entry) =>
        entries, states := entries[k := entry], states + [(k, WaitingTerm(false))];
      case Fault(k, entry) =>
        entries, states := entries[k := entry], states + [(k, Faulted(true))];
      case Live(k) =>
        var tracked := Tracks(k);
        if tracked {
          var i := Position(k);
          states := states[i := (k, OnLive(states[i].1))];
        }
      case Exit(k) =>
        var i := Position(k);
        match states[i].1 {
          case WaitingTerm(_) =>
            states := states[i := (k, Exited(true))];
            out := RemoveEntry(k);
          case Faulted(_) =>
            states := states[i := (k, Exited(false))];
            out := RemoveEntry(k);
          case Exited(_) =>
        }
      case Term(k) =>
        var i := Position(k);
        DeleteIs(states, k);
        var hasEntry := !states[i].1.Exited?;
        states := states[..i] + states[i + 1..];
        if hasEntry {
          out := RemoveEntry(k);
        }
    }

    method Tracks(k: Rid) returns (r: bool)
      ensures r <==> k in Ids(states)
    {
      for i := 0 to |states|
        invariant k in Ids(states) <==> k in Ids(states[i..])
      {
        assert states[i..][1..] == states[i + 1..];
        if states[i].0 == k {
          return true;
        }
      }
      assert states[|states|..] == [];
      return false;
    }

    method RemoveEntry(k: Rid) returns (out: Option<Entry>)
      modifies this`entries
      ensures out == Take(old(Value()), k) && entries == old(entries) - {k}
    {
      if k in entries {
        out := Some(entries[k]);
        entries := entries - {k};
      } else {
        out := None;
      }
    }

    /** End-of-cycle cleanup; every entry it is to hand out is there. */
    method FilterDrop() returns (dropped: seq<(Rid, Entry)>)
      requires Ok(Value())
      modifies this
      ensures Value() == Cleaned(old(Value()))
      ensures Ready(old(states)) <= old(entries).Keys && dropped == Drops(old(states), old(entries))
    {
      hide Kept, Drops, Ready, Apart, Ids, Ok, DropReady;
      dropped := [];
      var rem, todo := [], states;
      ghost var gone: set<Rid> := {};
      ghost var x := Value();
      CleanupStart(x);
      while todo != []
        invariant states == x.states && entries == x.entries - gone
        invariant rem + Kept(todo) == Kept(x.states)
        invariant gone + Ready(todo) == Ready(x.states) && Apart(todo) && gone !! Ids(todo)
        invariant Ready(todo) <= x.entries.Keys
        invariant dropped + Drops(todo, x.entries) == Drops(x.states, x.entries)
        decreases |todo|
      {
        CleanupHead(todo, x.entries);
        var (k, st) := todo[0];
        if DropReady(st) {
          dropped := dropped + [(k, entries[k])];
          entries := entries - {k};
          gone := gone + {k};
        } else {
          rem := rem + [(k, Clear(st))];
        }
        todo := todo[1..];
      }
      CleanupEnd(x);
      states := rem;
    }
  }
}
