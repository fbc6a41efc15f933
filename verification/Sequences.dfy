/** Slices of sequences. */
module Sequences {
  lemma TakeSnoc<T>(s: seq<T>, k: nat)
    requires k < |s|
    ensures s[..k + 1] == s[..k] + [s[k]] && s[..k + 1][..k] == s[..k]
  {
  }

  lemma TakeAll<T>(s: seq<T>)
    ensures s[..|s|] == s
  {
  }

  lemma InitAndLast<T>(s: seq<T>)
    requires s != []
    ensures s == s[..|s| - 1] + [s[|s| - 1]]
  {
  }

  lemma TakeOfSnoc<T>(s: seq<T>, x: T, k: nat)
    requires k <= |s|
    ensures (s + [x])[..k] == s[..k]
  {
  }

  lemma InitOfSnoc<T>(s: seq<T>, x: T)
    ensures (s + [x])[..|s + [x]| - 1] == s && (s + [x])[|s + [x]| - 1] == x
  {
  }

  lemma DropOfSnoc<T>(s: seq<T>, x: T, k: nat)
    requires k <= |s|
    ensures (s + [x])[k..] == s[k..] + [x]
  {
  }

  lemma NothingAppended<T>(s: seq<T>, more: seq<T>)
    ensures more == [] ==> s + more == s
  {
  }

  lemma AddedInTurn<T>(a: seq<T>, b: seq<T>, c: seq<T>)
    ensures (a + b) + c == a + (b + c)
  {
  }

  lemma SplitEqual<T>(a: seq<T>, b: seq<T>, k: nat)
    requires k <= |a| && k <= |b| && a[..k] == b[..k] && a[k..] == b[k..]
    ensures a == b
  {
    assert a == a[..k] + a[k..] && b == b[..k] + b[k..];
  }

  lemma SameHeadAndTail<T>(a: seq<T>, b: seq<T>)
    requires a != [] && b != [] && a[0] == b[0] && a[1..] == b[1..]
    ensures a == b
  {
    assert a == [a[0]] + a[1..] && b == [b[0]] + b[1..];
  }

  lemma TakeOfTake<T>(s: seq<T>, n: nat, k: nat)
    requires k <= n <= |s|
    ensures s[..n][..k] == s[..k]
  {
  }

  lemma UpdateInit<T>(s: seq<T>, last: T, i: nat, x: T)
    requires i < |s|
    ensures (s + [last])[i := x] == s[i := x] + [last]
  {
  }

  lemma UpdateLast<T>(s: seq<T>, last: T, x: T)
    ensures (s + [last])[|s| := x] == s + [x]
  {
  }

  lemma InsertedOnce<T>(s: seq<T>, k: nat, x: T)
    requires k <= |s|
    ensures multiset(s[..k] + [x] + s[k..]) == multiset(s) + multiset{x}
  {
    assert s == s[..k] + s[k..];
  }

  lemma AddedBetween<T>(a: seq<T>, x: T, b: seq<T>)
    ensures multiset(a + [x] + b) == multiset(a + b) + multiset{x}
  {
  }

  // ----- picking entries in order -----

  /** The positions of the entries that pass, in order. */
  ghost predicate Picks<T>(s: seq<T>, passes: T -> bool, at: seq<nat>) {
    && (forall j, k :: 0 <= j < k < |at| ==> at[j] < at[k])
    && (forall j :: 0 <= j < |at| ==> at[j] < |s| && passes(s[at[j]]))
    && forall i: nat :: i < |s| && passes(s[i]) ==> i in at
  }

  function PickedWith<T>(s: seq<T>, x: T, passes: T -> bool, at: seq<nat>): seq<nat> {
    if passes(x) then at + [|s|] else at
  }

  lemma PicksSnoc<T>(s: seq<T>, x: T, passes: T -> bool, at: seq<nat>)
    requires Picks(s, passes, at)
    ensures Picks(s + [x], passes, PickedWith(s, x, passes, at))
  {
    var all, more := s + [x], PickedWith(s, x, passes, at);
    forall i: nat | i < |all| && passes(all[i]) ensures i in more {
      if i < |s| {
        assert passes(s[i]);
      } else {
        assert more[|at|] == i;
      }
    }
  }

  /** `r` holds one result for each entry of `s` that passes, in order; those entries are at the positions `at`. */
  ghost predicate Collects<T, U>(s: seq<T>, passes: T -> bool, at: seq<nat>, result: (T, U) -> bool, r: seq<U>) {
    Picks(s, passes, at) && |r| == |at| && forall j :: 0 <= j < |at| ==> result(s[at[j]], r[j])
  }

  lemma CollectsSnoc<T, U>(s: seq<T>, x: T, passes: T -> bool, at: seq<nat>, result: (T, U) -> bool, r: seq<U>, y: U)
    requires Collects(s, passes, at, result, r) && (passes(x) ==> result(x, y))
    ensures Collects(s + [x], passes, PickedWith(s, x, passes, at), result, if passes(x) then r + [y] else r)
  {
    PicksSnoc(s, x, passes, at);
  }

  /** `r` holds the entries of `s` that pass, in order, found at the positions `at`. */
  ghost predicate Filters<T>(s: seq<T>, passes: T -> bool, at: seq<nat>, r: seq<T>) {
    Picks(s, passes, at) && |r| == |at| && forall j :: 0 <= j < |at| ==> r[j] == s[at[j]]
  }

  lemma FiltersSnoc<T>(s: seq<T>, x: T, passes: T -> bool, at: seq<nat>, r: seq<T>)
    requires Filters(s, passes, at, r)
    ensures Filters(s + [x], passes, PickedWith(s, x, passes, at), if passes(x) then r + [x] else r)
  {
    PicksSnoc(s, x, passes, at);
  }
}
