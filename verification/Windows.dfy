/** A time-windowed aggregate, kept up to date by adding what enters and subtracting what leaves. */
module Windows {
  type Time = nat

  /** The aggregate of a list of entries, oldest first. */
  function Total<T, A>(add: (A, T) -> A, zero: A, entries: seq<(Time, T)>): A {
    if entries == [] then zero
    else add(Total(add, zero, entries[..|entries| - 1]), entries[|entries| - 1].1)
  }

  /** The demand documented for an aggregate: subtracting what was just added undoes it. */
  ghost predicate Undoes<T(!new), A(!new)>(add: (A, T) -> A, sub: (A, T) -> A) {
    forall a, x :: sub(add(a, x), x) == a
  }

  /** What a window needs besides, because it subtracts the oldest entry and not the newest. */
  ghost predicate Commutes<T(!new), A(!new)>(add: (A, T) -> A) {
    forall a, x, y :: add(add(a, x), y) == add(add(a, y), x)
  }

  lemma {:induction false} OldestLast<T(!new), A(!new)>(add: (A, T) -> A, zero: A, entries: seq<(Time, T)>)
    requires Commutes(add) && entries != []
    ensures Total(add, zero, entries) == add(Total(add, zero, entries[1..]), entries[0].1)
  {
    var n := |entries| - 1;
    if n > 0 {
      OldestLast(add, zero, entries[..n]);
      assert entries[..n][1..] == entries[1..][..n - 1];
      var rest := Total(add, zero, entries[1..][..n - 1]);
      assert add(add(rest, entries[0].1), entries[n].1) == add(add(rest, entries[n].1), entries[0].1);
    }
  }

  /** With both laws, subtracting the oldest entry leaves the aggregate of the others. */
  lemma OldestOut<T(!new), A(!new)>(add: (A, T) -> A, sub: (A, T) -> A, zero: A, entries: seq<(Time, T)>)
    requires Undoes(add, sub) && Commutes(add) && entries != []
    ensures sub(Total(add, zero, entries), entries[0].1) == Total(add, zero, entries[1..])
  {
    OldestLast(add, zero, entries);
  }

  /** Subtracting the oldest entry leaves the aggregate of the others, whatever the window holds. */
  ghost predicate DropsOldest<T(!new), A(!new)>(add: (A, T) -> A, sub: (A, T) -> A) {
    forall zero, entries | entries != [] :: OldestGone(add, sub, zero, entries)
  }

  ghost predicate OldestGone<T, A>(add: (A, T) -> A, sub: (A, T) -> A, zero: A, entries: seq<(Time, T)>)
    requires entries != []
  {
    sub(Total(add, zero, entries), entries[0].1) == Total(add, zero, entries[1..])
  }

  lemma TotalMore<T, A>(add: (A, T) -> A, zero: A, entries: seq<(Time, T)>, e: (Time, T))
    ensures Total(add, zero, entries + [e]) == add(Total(add, zero, entries), e.1)
  {
    assert (entries + [e])[..|entries|] == entries;
  }

  lemma ThreeEntries<T, A>(add: (A, T) -> A, zero: A, x: T, y: T)
    ensures var e, f := (0, x), (0, y);
            && Total(add, zero, [e, f, e]) == add(add(add(zero, x), y), x)
            && Total(add, zero, [f, e]) == add(add(zero, y), x)
  {
    hide Total;
    var e: (Time, T), f: (Time, T) := (0, x), (0, y);
    NoTotal(add, zero);
    TotalMore(add, zero, [], e);
    TotalMore(add, zero, [], f);
    TotalMore(add, zero, [e], f);
    TotalMore(add, zero, [f], e);
    TotalMore(add, zero, [e, f], e);
    assert [] + [e] == [e] && [] + [f] == [f] && [e] + [f] == [e, f] && [f] + [e] == [f, e];
    assert [e, f] + [e] == [e, f, e];
  }

  lemma NoTotal<T, A>(add: (A, T) -> A, zero: A)
    ensures Total(add, zero, []) == zero
  {
  }

  /** A window that drops the oldest of x, y, x is left with y, x: undoing the last x tells that x and y
      commute. */
  lemma DroppingCommutes<T(!new), A(!new)>(add: (A, T) -> A, sub: (A, T) -> A, zero: A, x: T, y: T)
    requires Undoes(add, sub) && DropsOldest(add, sub)
    ensures add(add(zero, x), y) == add(add(zero, y), x)
  {
    var e: (Time, T), f: (Time, T) := (0, x), (0, y);
    ThreeEntries(add, zero, x, y);
    assert OldestGone(add, sub, zero, [e, f, e]);
    assert [e, f, e][1..] == [f, e];
    assert sub(add(add(add(zero, x), y), x), x) == add(add(zero, x), y);
  }

  /** For an aggregate that meets the documented law, commuting additions are exactly what a window needs. */
  lemma ExactlyCommuting<T(!new), A(!new)>(add: (A, T) -> A, sub: (A, T) -> A)
    requires Undoes(add, sub)
    ensures Commutes(add) <==> DropsOldest(add, sub)
  {
    if Commutes(add) {
      forall zero, entries: seq<(Time, T)> | entries != []
        ensures OldestGone(add, sub, zero, entries)
      {
        OldestOut(add, sub, zero, entries);
      }
    }
    if DropsOldest(add, sub) {
      forall a, x, y
        ensures add(add(a, x), y) == add(add(a, y), x)
      {
        DroppingCommutes(add, sub, a, x, y);
      }
    }
  }

  function StackAdd(a: seq<int>, x: int): seq<int> {
    a + [x]
  }

  function StackSub(a: seq<int>, x: int): seq<int> {
    if a == [] then a else a[..|a| - 1]
  }

  /** The documented law alone does not do: a stack satisfies it, does not commute, and gives up the wrong
      entry. */
  lemma UndoingIsNotEnough()
    ensures Undoes(StackAdd, StackSub) && !Commutes(StackAdd)
    ensures var entries: seq<(Time, int)> := [(0, 1), (0, 2)];
            StackSub(Total(StackAdd, [], entries), 1) == [1] && Total(StackAdd, [], entries[1..]) == [2]
  {
    var entries: seq<(Time, int)> := [(0, 1), (0, 2)];
    forall a, x
      ensures StackSub(StackAdd(a, x), x) == a
    {
    }
    TwoEntries(entries[0], entries[1]);
    assert entries[1..] == [entries[1]];
    assert StackAdd(StackAdd([], 1), 2)[0] != StackAdd(StackAdd([], 2), 1)[0];
  }

  lemma TwoEntries(e: (Time, int), f: (Time, int))
    ensures Total(StackAdd, [], [e]) == [e.1] && Total(StackAdd, [], [e, f]) == [e.1, f.1]
  {
    assert [e][..0] == [] && [e, f][..1] == [e];
  }

  function TooOld(now: Time, t: Time, duration: nat): bool {
    now > t && now - t > duration
  }

  /** What expiry leaves: it drops entries from the front up to the first that is young enough. */
  function Kept<T>(entries: seq<(Time, T)>, now: Time, duration: nat): seq<(Time, T)> {
    if entries != [] && TooOld(now, entries[0].0, duration) then Kept(entries[1..], now, duration) else entries
  }

  ghost predicate InOrder<T>(entries: seq<(Time, T)>) {
    forall i, j | 0 <= i < j < |entries| :: entries[i].0 <= entries[j].0
  }

  /** The first n entries, and no others, are older than the window is long. */
  ghost predicate OldUpTo<T>(entries: seq<(Time, T)>, n: nat, now: Time, duration: nat) {
    n <= |entries| && forall j | 0 <= j < |entries| :: j < n <==> entries[j].0 + duration < now
  }

  lemma {:induction false} AllYoung<T>(entries: seq<(Time, T)>, now: Time, duration: nat)
    requires forall e | e in entries :: now <= e.0 + duration
    ensures Kept(entries, now, duration) == entries
  {
  }

  /** Pushed in time order, exactly the entries no older than the window survive: stopping at the first of them
      loses none. */
  lemma {:induction false} KeptAreYoung<T>(entries: seq<(Time, T)>, now: Time, duration: nat)
    requires InOrder(entries)
    ensures exists n: nat :: OldUpTo(entries, n, now, duration) && Kept(entries, now, duration) == entries[n..]
  {
    if entries == [] || now <= entries[0].0 + duration {
      assert OldUpTo(entries, 0, now, duration);
    } else {
      var rest := entries[1..];
      KeptAreYoung(rest, now, duration);
      var n: nat :| OldUpTo(rest, n, now, duration) && Kept(rest, now, duration) == rest[n..];
      assert forall j | 0 < j < |entries| :: entries[j] == rest[j - 1];
      assert OldUpTo(entries, n + 1, now, duration);
      assert entries[n + 1..] == rest[n..];
    }
  }

  /** Expiring at a time and again later is expiring once, later; so the lazy expiry of a read is
      never observable. */
  lemma {:induction false} ExpiryIsLazy<T>(entries: seq<(Time, T)>, now: Time, later: Time, duration: nat)
    requires now <= later
    ensures Kept(Kept(entries, now, duration), later, duration) == Kept(entries, later, duration)
  {
    if entries != [] && TooOld(now, entries[0].0, duration) {
      ExpiryIsLazy(entries[1..], now, later, duration);
    }
  }

  class SlidingWindow<T(!new), A(!new)> {
    var entries: seq<(Time, T)>
    var agg: A
    const duration: nat
    const zero: A
    const add: (A, T) -> A
    const sub: (A, T) -> A

    ghost predicate Valid()
      reads this
    {
      Undoes(add, sub) && Commutes(add) && agg == Total(add, zero, entries)
    }

    constructor (duration: nat, zero: A, add: (A, T) -> A, sub: (A, T) -> A)
      requires Undoes(add, sub) && Commutes(add)
      ensures Valid() && entries == []
      ensures this.duration == duration && this.zero == zero && this.add == add && this.sub == sub
    {
      this.duration, this.zero, this.add, this.sub := duration, zero, add, sub;
      entries, agg := [], zero;
    }

    method Push(t: Time, item: T)
      requires Valid()
      modifies this
      ensures Valid() && entries == old(entries) + [(t, item)]
    {
      agg := add(agg, item);
      entries := entries + [(t, item)];
      assert entries[..|entries| - 1] == old(entries);
    }

    method Expire(now: Time)
      requires Valid()
      modifies this
      ensures Valid() && entries == Kept(old(entries), now, duration)
    {
      while entries != [] && TooOld(now, entries[0].0, duration)
        invariant Valid() && Kept(entries, now, duration) == Kept(old(entries), now, duration)
        decreases |entries|
      {
        var item := entries[0].1;
        OldestOut(add, sub, zero, entries);
        entries := entries[1..];
        agg := sub(agg, item);
      }
    }

    method AggregateAt(now: Time) returns (a: A)
      requires Valid()
      modifies this
      ensures Valid() && entries == Kept(old(entries), now, duration)
      ensures a == Total(add, zero, entries)
    {
      Expire(now);
      a := agg;
    }

    method LenAt(now: Time) returns (n: nat)
      requires Valid()
      modifies this
      ensures Valid() && entries == Kept(old(entries), now, duration) && n == |entries|
    {
      Expire(now);
      n := |entries|;
    }
  }
}
