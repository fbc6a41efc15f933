/** The undirected segments a way is made of, and how joining and turning ways keeps them. */
module Segments {
  import opened Chains

  /** The step from `a` to `b`, without direction; standing still is no segment. */
  function Hop(a: int, b: int): multiset<(int, int)> {
    if a == b then multiset{} else if a < b then multiset{(a, b)} else multiset{(b, a)}
  }

  function Segs(w: seq<int>): multiset<(int, int)> {
    if |w| < 2 then multiset{} else Hop(w[0], w[1]) + Segs(w[1..])
  }

  function PieceSegs(pool: seq<Way>, pieces: seq<Piece>): multiset<(int, int)>
    requires InPool(pool, pieces)
  {
    if pieces == [] then multiset{} else Segs(pool[pieces[0].pos]) + PieceSegs(pool, pieces[1..])
  }

  lemma {:induction false} SegsConcat(a: Way, b: Way)
    ensures Segs(a + b) == Segs(a) + Hop(Last(a), b[0]) + Segs(b)
    decreases |a|
  {
    if |a| == 1 {
      assert (a + b)[1..] == b;
    } else {
      assert (a + b)[1..] == a[1..] + b;
      SegsConcat(a[1..], b);
    }
  }

  lemma {:induction false} SegsReversed(w: seq<int>)
    ensures Segs(Reversed(w)) == Segs(w)
    decreases |w|
  {
    if |w| >= 2 {
      var back := Reversed(w[1..]);
      assert Reversed(w) == back + [w[0]];
      SegsConcat(back, [w[0]]);
      SegsReversed(w[1..]);
    }
  }

  /** A linked chain has exactly the segments of its pieces: the doubled junctions add none. */
  lemma {:induction false} ChainSegs(pool: seq<Way>, tail: int, pieces: seq<Piece>)
    requires InPool(pool, pieces) && Linked(pool, tail, pieces)
    ensures Segs(Chain(pool, pieces)) == PieceSegs(pool, pieces)
    decreases pieces
  {
    if pieces != [] {
      var w, rest := Oriented(pool, pieces[0]), pieces[1..];
      SegsReversed(pool[pieces[0].pos]);
      ChainSegs(pool, Last(w), rest);
      if rest == [] {
        assert w + Chain(pool, rest) == w;
      } else {
        ChainEnds(pool, Last(w), rest);
        SegsConcat(w, Chain(pool, rest));
      }
    }
  }
}
