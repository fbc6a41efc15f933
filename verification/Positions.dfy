/** Book-keeping for a list whose used entries are erased round after round:
    how positions in the shortened list name positions in the original one. */
module Positions {
  import opened Chains
  import opened Segments
  import Sequences

  function NoneUsed(n: nat): seq<bool> {
    seq(n, _ => false)
  }

  function Free(used: seq<bool>): nat {
    if used == [] then 0
    else Free(used[..|used| - 1]) + if used[|used| - 1] then 0 else 1
  }

  /** The entries that are not used, in order. */
  function Kept<T>(xs: seq<T>, used: seq<bool>): (r: seq<T>)
    requires |xs| == |used|
    ensures |r| == Free(used)
    decreases |xs|
  {
    if xs == [] then []
    else
      var n := |xs| - 1;
      Kept(xs[..n], used[..n]) + if used[n] then [] else [xs[n]]
  }

  /** The original position of the `k`-th kept entry. */
  function At(used: seq<bool>, k: nat): (i: nat)
    requires k < Free(used)
    ensures i < |used| && !used[i]
    decreases |used|
  {
    var n := |used| - 1;
    if !used[n] && k == Free(used) - 1 then n else At(used[..n], k)
  }

  /** `used`, with the kept entries that `more` marks used as well. */
  function Overlay(used: seq<bool>, more: seq<bool>): (r: seq<bool>)
    requires |more| == Free(used)
    ensures |r| == |used|
    decreases |used|
  {
    if used == [] then []
    else
      var n, m := |used| - 1, |more| - 1;
      if used[n] then Overlay(used[..n], more) + [true]
      else Overlay(used[..n], more[..m]) + [more[m]]
  }

  function Lift(used: seq<bool>, p: Piece): Piece
    requires p.pos < Free(used)
  {
    Piece(At(used, p.pos), p.reversed)
  }

  function LiftAll(used: seq<bool>, pieces: seq<Piece>): (r: seq<Piece>)
    requires forall k :: 0 <= k < |pieces| ==> pieces[k].pos < Free(used)
    ensures |r| == |pieces|
    ensures forall k {:trigger r[k]} :: 0 <= k < |r| ==> r[k] == Lift(used, pieces[k])
  {
    seq(|pieces|, k requires 0 <= k < |pieces| => Lift(used, pieces[k]))
  }

  lemma {:induction false} AtOrdered(used: seq<bool>, j: nat, k: nat)
    requires j < k < Free(used)
    ensures At(used, j) < At(used, k)
    decreases |used|
  {
    var n := |used| - 1;
    if used[n] || k < Free(used) - 1 {
      AtOrdered(used[..n], j, k);
    }
  }

  lemma {:induction false} KeptAt<T>(xs: seq<T>, used: seq<bool>, k: nat)
    requires |xs| == |used| && k < Free(used)
    ensures Kept(xs, used)[k] == xs[At(used, k)]
    decreases |xs|
  {
    var n := |xs| - 1;
    if used[n] || k < Free(used) - 1 {
      KeptAt(xs[..n], used[..n], k);
    }
  }

  lemma {:induction false} NoneUsedKeepsAll<T>(xs: seq<T>)
    ensures Free(NoneUsed(|xs|)) == |xs|
    ensures Kept(xs, NoneUsed(|xs|)) == xs
    decreases |xs|
  {
    if xs != [] {
      var n := |xs| - 1;
      NoneUsedKeepsAll(xs[..n]);
      assert NoneUsed(|xs|)[..n] == NoneUsed(n);
    }
  }

  /** Erasing in two rounds is erasing once. */
  lemma {:induction false} KeptTwice<T>(xs: seq<T>, used: seq<bool>, more: seq<bool>)
    requires |xs| == |used| && |more| == Free(used)
    ensures Kept(Kept(xs, used), more) == Kept(xs, Overlay(used, more))
    decreases |xs|
  {
    if xs != [] {
      var n, m := |xs| - 1, |more| - 1;
      var over := Overlay(used, more);
      if used[n] {
        KeptTwice(xs[..n], used[..n], more);
        assert Kept(xs, used) == Kept(xs[..n], used[..n]);
        assert over[..n] == Overlay(used[..n], more);
      } else {
        KeptTwice(xs[..n], used[..n], more[..m]);
        assert over[..n] == Overlay(used[..n], more[..m]);
        assert Kept(xs, used)[..m] == Kept(xs[..n], used[..n]);
      }
    }
  }

  lemma {:induction false} OverlayNone(used: seq<bool>)
    ensures Overlay(used, NoneUsed(Free(used))) == used
    decreases |used|
  {
    if used != [] {
      var n := |used| - 1;
      OverlayNone(used[..n]);
      var none := NoneUsed(Free(used));
      if !used[n] {
        assert none[..|none| - 1] == NoneUsed(Free(used[..n]));
      }
    }
  }

  lemma {:induction false} OverlayMark(used: seq<bool>, more: seq<bool>, k: nat)
    requires |more| == Free(used) && k < |more|
    ensures Overlay(used, more[k := true]) == Overlay(used, more)[At(used, k) := true]
    decreases |used|
  {
    var n, m := |used| - 1, |more| - 1;
    if used[n] {
      OverlayMark(used[..n], more, k);
      Sequences.UpdateInit(Overlay(used[..n], more), true, At(used[..n], k), true);
    } else if k < m {
      OverlayMark(used[..n], more[..m], k);
      assert more[k := true][..m] == more[..m][k := true];
      Sequences.UpdateInit(Overlay(used[..n], more[..m]), more[m], At(used[..n], k), true);
    } else {
      assert more[k := true][..m] == more[..m];
      Sequences.UpdateLast(Overlay(used[..n], more[..m]), more[m], true);
    }
  }

  lemma {:induction false} OverlayMarkAll(used: seq<bool>, more: seq<bool>, pieces: seq<Piece>)
    requires |more| == Free(used)
    requires forall k :: 0 <= k < |pieces| ==> pieces[k].pos < |more|
    ensures Overlay(used, Mark(more, pieces)) == Mark(Overlay(used, more), LiftAll(used, pieces))
    decreases pieces
  {
    if pieces != [] {
      var p := pieces[0];
      OverlayMark(used, more, p.pos);
      OverlayMarkAll(used, more[p.pos := true], pieces[1..]);
      assert LiftAll(used, pieces)[1..] == LiftAll(used, pieces[1..]);
    }
  }

  /** What `pieces` leave of the shortened list is what their originals leave of the original list. */
  lemma KeptAfter<T>(xs: seq<T>, used: seq<bool>, pieces: seq<Piece>)
    requires |xs| == |used|
    requires forall k :: 0 <= k < |pieces| ==> pieces[k].pos < Free(used)
    ensures Kept(Kept(xs, used), Mark(NoneUsed(Free(used)), pieces)) == Kept(xs, Mark(used, LiftAll(used, pieces)))
  {
    var none := NoneUsed(Free(used));
    KeptTwice(xs, used, Mark(none, pieces));
    OverlayMarkAll(used, none, pieces);
    OverlayNone(used);
  }

  lemma LiftFresh(used: seq<bool>, pieces: seq<Piece>)
    requires Fresh(NoneUsed(Free(used)), pieces)
    ensures Fresh(used, LiftAll(used, pieces))
  {
    var up := LiftAll(used, pieces);
    forall j, k | 0 <= j < k < |up| ensures up[j].pos != up[k].pos {
      assert pieces[j].pos != pieces[k].pos;
      if pieces[j].pos < pieces[k].pos {
        AtOrdered(used, pieces[j].pos, pieces[k].pos);
      } else {
        AtOrdered(used, pieces[k].pos, pieces[j].pos);
      }
    }
  }

  lemma LiftOriented(pool: seq<Way>, used: seq<bool>, p: Piece)
    requires |pool| == |used| && p.pos < Free(used)
    ensures Oriented(pool, Lift(used, p)) == Oriented(Kept(pool, used), p)
  {
    KeptAt(pool, used, p.pos);
  }

  lemma {:induction false} LiftChain(pool: seq<Way>, used: seq<bool>, tail: int, pieces: seq<Piece>)
    requires |pool| == |used| && InPool(Kept(pool, used), pieces)
    ensures Chain(pool, LiftAll(used, pieces)) == Chain(Kept(pool, used), pieces)
    ensures Linked(pool, tail, LiftAll(used, pieces)) <==> Linked(Kept(pool, used), tail, pieces)
    decreases pieces
  {
    if pieces != [] {
      LiftOriented(pool, used, pieces[0]);
      assert LiftAll(used, pieces)[1..] == LiftAll(used, pieces[1..]);
      LiftChain(pool, used, Last(Oriented(pool, Lift(used, pieces[0]))), pieces[1..]);
    }
  }

  // ----- what marking takes out -----

  /** All segments of a list of ways. */
  function Total(ways: seq<seq<int>>): multiset<(int, int)> {
    if ways == [] then multiset{}
    else Total(ways[..|ways| - 1]) + Segs(ways[|ways| - 1])
  }

  lemma TotalSnoc(pool: seq<Way>, used: seq<bool>, n: nat)
    requires |pool| == |used| == n + 1
    ensures Total(Kept(pool, used)) ==
            Total(Kept(pool[..n], used[..n])) + if used[n] then multiset{} else Segs(pool[n])
  {
    var init := Kept(pool[..n], used[..n]);
    if used[n] {
      assert Kept(pool, used) == init;
    } else {
      assert (init + [pool[n]])[..|init|] == init;
    }
  }

  lemma {:induction false} FreeOne(used: seq<bool>, i: nat)
    requires i < |used| && !used[i]
    ensures Free(used) == Free(used[i := true]) + 1
    decreases |used|
  {
    var n := |used| - 1;
    if i < n {
      FreeOne(used[..n], i);
      assert used[i := true][..n] == used[..n][i := true];
    } else {
      assert used[i := true][..n] == used[..n];
    }
  }

  lemma {:induction false} TotalOne(pool: seq<Way>, used: seq<bool>, i: nat)
    requires |pool| == |used| && i < |used| && !used[i]
    ensures Total(Kept(pool, used)) == Total(Kept(pool, used[i := true])) + Segs(pool[i])
    decreases |pool|
  {
    var n, used' := |pool| - 1, used[i := true];
    TotalSnoc(pool, used, n);
    TotalSnoc(pool, used', n);
    if i < n {
      assert pool[..n][i] == pool[i];
      assert used'[..n] == used[..n][i := true];
      TotalOne(pool[..n], used[..n], i);
    } else {
      assert used'[..n] == used[..n];
    }
  }

  /** Every marked position leaves the list exactly once. */
  lemma {:induction false} MarkTakes(pool: seq<Way>, used: seq<bool>, pieces: seq<Piece>)
    requires |pool| == |used| && Fresh(used, pieces)
    ensures Free(used) == Free(Mark(used, pieces)) + |pieces|
    ensures Total(Kept(pool, used)) == Total(Kept(pool, Mark(used, pieces))) + PieceSegs(pool, pieces)
    decreases pieces
  {
    if pieces != [] {
      var p := pieces[0];
      assert pieces == [p] + pieces[1..];
      FreshSplit(used, p, pieces[1..]);
      FreeOne(used, p.pos);
      TotalOne(pool, used, p.pos);
      MarkTakes(pool, used[p.pos := true], pieces[1..]);
    }
  }
}
