/** Open ways joined end to end: orientation, chains of pieces, and when a chain closes into a ring. */
module Chains {
  import Sequences

  /** A way as the ring search needs it: `front()` and `back()` are read unguarded. */
  type Way = w: seq<int> | |w| > 0 witness [0]

  /** One use of a way: its position in the list of open ways, and the direction it is walked in. */
  datatype Piece = Piece(pos: nat, reversed: bool)

  function Last(w: Way): int {
    w[|w| - 1]
  }

  predicate Closed(w: seq<int>) {
    |w| > 1 && w[0] == w[|w| - 1]
  }

  function Reversed(w: seq<int>): (r: seq<int>)
    ensures |r| == |w|
    ensures forall k {:trigger r[k]} :: 0 <= k < |w| ==> r[k] == w[|w| - 1 - k]
  {
    seq(|w|, k requires 0 <= k < |w| => w[|w| - 1 - k])
  }

  predicate InPool(pool: seq<Way>, pieces: seq<Piece>) {
    forall k :: 0 <= k < |pieces| ==> pieces[k].pos < |pool|
  }

  function Oriented(pool: seq<Way>, p: Piece): (w: Way)
    requires p.pos < |pool|
  {
    if p.reversed then Reversed(pool[p.pos]) else pool[p.pos]
  }

  /** The whole of every piece, one after the other; a junction node appears twice. */
  function Chain(pool: seq<Way>, pieces: seq<Piece>): seq<int>
    requires InPool(pool, pieces)
  {
    if pieces == [] then [] else Oriented(pool, pieces[0]) + Chain(pool, pieces[1..])
  }

  /** Every piece starts at the node where the one before it ends; the first starts at `tail`. */
  predicate Linked(pool: seq<Way>, tail: int, pieces: seq<Piece>)
    requires InPool(pool, pieces)
    decreases pieces
  {
    pieces == [] ||
    (Oriented(pool, pieces[0])[0] == tail && Linked(pool, Last(Oriented(pool, pieces[0])), pieces[1..]))
  }

  /** Where a chain that starts at `tail` ends. */
  function EndOf(pool: seq<Way>, tail: int, pieces: seq<Piece>): int
    requires InPool(pool, pieces)
    decreases pieces
  {
    if pieces == [] then tail else EndOf(pool, Last(Oriented(pool, pieces[0])), pieces[1..])
  }

  /** The pieces use distinct positions, none of them used before. */
  predicate Fresh(used: seq<bool>, pieces: seq<Piece>) {
    && (forall k :: 0 <= k < |pieces| ==> pieces[k].pos < |used| && !used[pieces[k].pos])
    && (forall j, k :: 0 <= j < k < |pieces| ==> pieces[j].pos != pieces[k].pos)
  }

  function Mark(used: seq<bool>, pieces: seq<Piece>): (r: seq<bool>)
    requires forall k :: 0 <= k < |pieces| ==> pieces[k].pos < |used|
    ensures |r| == |used|
    decreases pieces
  {
    if pieces == [] then used else Mark(used[pieces[0].pos := true], pieces[1..])
  }

  /** `pieces` are free, continue the chain `nodes`, and close it. */
  ghost predicate Closing(pool: seq<Way>, used: seq<bool>, nodes: Way, pieces: seq<Piece>)
    requires |pool| == |used|
  {
    Fresh(used, pieces) && Linked(pool, Last(nodes), pieces) && Closed(nodes + Chain(pool, pieces))
  }

  ghost predicate CanClose(pool: seq<Way>, used: seq<bool>, nodes: Way)
    requires |pool| == |used|
  {
    exists pieces :: Closing(pool, used, nodes, pieces)
  }

  /** A ring: free pieces in any order and any directions, joined end to end, closing on themselves. */
  ghost predicate Ring(pool: seq<Way>, used: seq<bool>, pieces: seq<Piece>)
    requires |pool| == |used|
  {
    && pieces != []
    && Fresh(used, pieces)
    && Linked(pool, Oriented(pool, pieces[0])[0], pieces)
    && Closed(Chain(pool, pieces))
  }

  ghost predicate CanRing(pool: seq<Way>, used: seq<bool>)
    requires |pool| == |used|
  {
    exists pieces :: Ring(pool, used, pieces)
  }

  /** A way touches the chain's end with its head or its tail (model.cpp:224). */
  predicate Attaches(way: Way, tail: int) {
    way[0] == tail || Last(way) == tail
  }

  /** The direction the search gives an attaching way: forwards whenever its head fits. */
  function Attached(way: Way, tail: int): (w: Way)
  {
    if way[0] == tail then way else Reversed(way)
  }

  lemma ChainOfCons(pool: seq<Way>, p: Piece, rest: seq<Piece>)
    requires p.pos < |pool| && InPool(pool, rest)
    ensures InPool(pool, [p] + rest) && Chain(pool, [p] + rest) == Oriented(pool, p) + Chain(pool, rest)
  {
    assert ([p] + rest)[1..] == rest;
  }

  /** Chains follow one another node by node: nothing is dropped where they meet. */
  lemma {:induction false} ChainAppend(pool: seq<Way>, a: seq<Piece>, b: seq<Piece>)
    requires InPool(pool, a) && InPool(pool, b)
    ensures InPool(pool, a + b) && Chain(pool, a + b) == Chain(pool, a) + Chain(pool, b)
    decreases a
  {
    if a == [] {
      assert a + b == b;
    } else {
      var p, rest := a[0], a[1..];
      assert a == [p] + rest;
      Sequences.AddedInTurn([p], rest, b);
      ChainAppend(pool, rest, b);
      ChainOfCons(pool, p, rest);
      ChainOfCons(pool, p, rest + b);
      Sequences.AddedInTurn(Oriented(pool, p), Chain(pool, rest), Chain(pool, b));
    }
  }

  /** A chain of one piece is its way, forwards or backwards. */
  lemma ChainOfOne(pool: seq<Way>, p: Piece)
    requires p.pos < |pool|
    ensures Chain(pool, [p]) == if p.reversed then Reversed(pool[p.pos]) else pool[p.pos]
  {
    assert [p] + [] == [p];
    ChainOfCons(pool, p, []);
  }

  // ----- taking one piece off or putting one on -----

  lemma FreshSplit(used: seq<bool>, p: Piece, rest: seq<Piece>)
    requires Fresh(used, [p] + rest)
    ensures p.pos < |used| && !used[p.pos] && Fresh(used[p.pos := true], rest)
  {
    var all := [p] + rest;
    assert all[0] == p;
    forall k | 0 <= k < |rest| ensures rest[k].pos < |used| && !used[rest[k].pos] && rest[k].pos != p.pos {
      assert all[k + 1] == rest[k] && all[0].pos != all[k + 1].pos;
    }
    forall j, k | 0 <= j < k < |rest| ensures rest[j].pos != rest[k].pos {
      assert all[j + 1] == rest[j] && all[k + 1] == rest[k];
    }
  }

  lemma FreshJoin(used: seq<bool>, p: Piece, rest: seq<Piece>)
    requires p.pos < |used| && !used[p.pos] && Fresh(used[p.pos := true], rest)
    ensures Fresh(used, [p] + rest)
  {
    var all, used' := [p] + rest, used[p.pos := true];
    forall k | 0 <= k < |rest| ensures rest[k].pos < |used| && !used[rest[k].pos] && rest[k].pos != p.pos {
      assert !used'[rest[k].pos];
    }
  }

  lemma FreshCons(used: seq<bool>, p: Piece, rest: seq<Piece>)
    ensures Fresh(used, [p] + rest) <==> p.pos < |used| && !used[p.pos] && Fresh(used[p.pos := true], rest)
  {
    if Fresh(used, [p] + rest) {
      FreshSplit(used, p, rest);
    } else if p.pos < |used| && !used[p.pos] && Fresh(used[p.pos := true], rest) {
      FreshJoin(used, p, rest);
    }
  }

  lemma {:induction false} LinkedSnoc(pool: seq<Way>, tail: int, pieces: seq<Piece>, p: Piece)
    requires InPool(pool, pieces) && p.pos < |pool|
    ensures InPool(pool, pieces + [p])
    ensures Linked(pool, tail, pieces + [p]) <==>
            Linked(pool, tail, pieces) && Oriented(pool, p)[0] == EndOf(pool, tail, pieces)
    ensures EndOf(pool, tail, pieces + [p]) == Last(Oriented(pool, p))
    ensures |Chain(pool, pieces + [p])| == |Chain(pool, pieces)| + |pool[p.pos]|
    decreases pieces
  {
    var all := pieces + [p];
    if pieces == [] {
      assert all == [p];
      assert all[1..] == [];
    } else {
      assert all[0] == pieces[0] && all[1..] == pieces[1..] + [p];
      LinkedSnoc(pool, Last(Oriented(pool, pieces[0])), pieces[1..], p);
    }
  }

  lemma {:induction false} ChainEnds(pool: seq<Way>, tail: int, pieces: seq<Piece>)
    requires InPool(pool, pieces) && pieces != []
    ensures |Chain(pool, pieces)| > 0
    ensures Chain(pool, pieces)[0] == Oriented(pool, pieces[0])[0]
    ensures Last(Chain(pool, pieces)) == EndOf(pool, tail, pieces)
    decreases pieces
  {
    if |pieces| > 1 {
      ChainEnds(pool, Last(Oriented(pool, pieces[0])), pieces[1..]);
    }
  }

  lemma ClosedExtension(pool: seq<Way>, nodes: Way, pieces: seq<Piece>)
    requires InPool(pool, pieces)
    ensures Closed(nodes + Chain(pool, pieces)) <==>
            nodes[0] == EndOf(pool, Last(nodes), pieces) && |nodes| + |Chain(pool, pieces)| > 1
  {
    if pieces != [] {
      ChainEnds(pool, Last(nodes), pieces);
    }
  }

  // ----- what one level of the search decides -----

  /** The search's choice at position `i` can be completed. */
  ghost predicate ClosesVia(pool: seq<Way>, used: seq<bool>, nodes: Way, i: nat)
    requires |pool| == |used|
  {
    && i < |used| && !used[i]
    && Attaches(pool[i], Last(nodes))
    && CanClose(pool, used[i := true], nodes + Attached(pool[i], Last(nodes)))
  }

  lemma ClosingCons(pool: seq<Way>, used: seq<bool>, nodes: Way, p: Piece, rest: seq<Piece>)
    requires |pool| == |used|
    requires p.pos < |used| && !used[p.pos] && Oriented(pool, p)[0] == Last(nodes)
    ensures Closing(pool, used, nodes, [p] + rest) <==>
            Closing(pool, used[p.pos := true], nodes + Oriented(pool, p), rest)
  {
    FreshCons(used, p, rest);
    var all := [p] + rest;
    assert all[1..] == rest;
    if Fresh(used, all) {
      assert InPool(pool, all) && InPool(pool, rest);
      assert nodes + Chain(pool, all) == (nodes + Oriented(pool, p)) + Chain(pool, rest);
    }
  }

  /** Only the end points and the length of the chain so far matter for closing it. */
  lemma ClosingSameEnds(pool: seq<Way>, used: seq<bool>, a: Way, b: Way, pieces: seq<Piece>)
    requires |pool| == |used|
    requires a[0] == b[0] && Last(a) == Last(b) && |a| == |b|
    ensures Closing(pool, used, a, pieces) ==> Closing(pool, used, b, pieces)
  {
    if Closing(pool, used, a, pieces) {
      ClosedExtension(pool, a, pieces);
      ClosedExtension(pool, b, pieces);
    }
  }

  lemma ClosesViaSound(pool: seq<Way>, used: seq<bool>, nodes: Way, i: nat)
    requires |pool| == |used|
    requires ClosesVia(pool, used, nodes, i)
    ensures CanClose(pool, used, nodes)
  {
    var tail := Last(nodes);
    var p := Piece(i, pool[i][0] != tail);
    assert Oriented(pool, p) == Attached(pool[i], tail);
    var rest :| Closing(pool, used[i := true], nodes + Attached(pool[i], tail), rest);
    ClosingCons(pool, used, nodes, p, rest);
  }

  /** Trying an attaching way in one direction only loses nothing. */
  lemma ClosesViaComplete(pool: seq<Way>, used: seq<bool>, nodes: Way, pieces: seq<Piece>)
    requires |pool| == |used|
    requires Closing(pool, used, nodes, pieces) && pieces != []
    ensures ClosesVia(pool, used, nodes, pieces[0].pos)
  {
    var tail, p, rest := Last(nodes), pieces[0], pieces[1..];
    assert pieces == [p] + rest;
    ClosingCons(pool, used, nodes, p, rest);
    var i := p.pos;
    var chosen := nodes + Attached(pool[i], tail);
    ClosingSameEnds(pool, used[i := true], nodes + Oriented(pool, p), chosen, rest);
    assert Closing(pool, used[i := true], chosen, rest);
  }

  lemma CanCloseUnfold(pool: seq<Way>, used: seq<bool>, nodes: Way)
    requires |pool| == |used| && !Closed(nodes)
    ensures CanClose(pool, used, nodes) <==> exists i: nat :: ClosesVia(pool, used, nodes, i)
  {
    if CanClose(pool, used, nodes) {
      var pieces :| Closing(pool, used, nodes, pieces);
      assert nodes + Chain(pool, []) == nodes;
      ClosesViaComplete(pool, used, nodes, pieces);
    }
    if i: nat :| ClosesVia(pool, used, nodes, i) {
      ClosesViaSound(pool, used, nodes, i);
    }
  }

  lemma ClosedCanClose(pool: seq<Way>, used: seq<bool>, nodes: Way)
    requires |pool| == |used| && Closed(nodes)
    ensures CanClose(pool, used, nodes)
  {
    assert nodes + Chain(pool, []) == nodes;
    assert Closing(pool, used, nodes, []);
  }

  // ----- starting every way forwards only -----

  function Flip(p: Piece): Piece {
    Piece(p.pos, !p.reversed)
  }

  /** The same pieces walked from the other end. */
  function Backwards(pieces: seq<Piece>): (r: seq<Piece>)
    ensures |r| == |pieces|
    ensures forall k {:trigger r[k]} :: 0 <= k < |pieces| ==> r[k] == Flip(pieces[|pieces| - 1 - k])
  {
    seq(|pieces|, k requires 0 <= k < |pieces| => Flip(pieces[|pieces| - 1 - k]))
  }

  lemma BackwardsCons(pieces: seq<Piece>)
    requires pieces != []
    ensures Backwards(pieces) == Backwards(pieces[1..]) + [Flip(pieces[0])]
  {
  }

  lemma FlippedEnds(pool: seq<Way>, p: Piece)
    requires p.pos < |pool|
    ensures Oriented(pool, Flip(p))[0] == Last(Oriented(pool, p))
    ensures Last(Oriented(pool, Flip(p))) == Oriented(pool, p)[0]
  {
  }

  lemma {:induction false} BackwardsLinked(pool: seq<Way>, tail: int, pieces: seq<Piece>)
    requires InPool(pool, pieces) && Linked(pool, tail, pieces)
    ensures InPool(pool, Backwards(pieces))
    ensures Linked(pool, EndOf(pool, tail, pieces), Backwards(pieces))
    ensures EndOf(pool, EndOf(pool, tail, pieces), Backwards(pieces)) == tail
    ensures |Chain(pool, Backwards(pieces))| == |Chain(pool, pieces)|
    decreases pieces
  {
    if pieces != [] {
      var p, rest := pieces[0], pieces[1..];
      var next := Last(Oriented(pool, p));
      BackwardsLinked(pool, next, rest);
      BackwardsCons(pieces);
      FlippedEnds(pool, p);
      LinkedSnoc(pool, EndOf(pool, next, rest), Backwards(rest), Flip(p));
    }
  }

  lemma FreshBackwards(used: seq<bool>, p: Piece, rest: seq<Piece>)
    requires Fresh(used, [p] + rest)
    ensures Fresh(used, [Flip(p)] + Backwards(rest))
  {
    FreshCons(used, p, rest);
    FreshCons(used, Flip(p), Backwards(rest));
  }

  /** A ring seen from its first piece. */
  lemma RingFrom(pool: seq<Way>, used: seq<bool>, p: Piece, rest: seq<Piece>)
    requires |pool| == |used| && Fresh(used, [p] + rest)
    requires p.pos < |pool| && InPool(pool, rest)
    ensures Ring(pool, used, [p] + rest) <==>
            && Linked(pool, Last(Oriented(pool, p)), rest)
            && EndOf(pool, Last(Oriented(pool, p)), rest) == Oriented(pool, p)[0]
            && |Oriented(pool, p)| + |Chain(pool, rest)| > 1
  {
    FreshCons(used, p, rest);
    assert ([p] + rest)[1..] == rest;
    ClosedExtension(pool, Oriented(pool, p), rest);
  }

  /** Turning a ring round makes it start with the same way walked forwards. */
  lemma RingStartsForwards(pool: seq<Way>, used: seq<bool>, pieces: seq<Piece>) returns (turned: seq<Piece>)
    requires |pool| == |used|
    requires Ring(pool, used, pieces)
    ensures Ring(pool, used, turned) && turned[0] == Piece(pieces[0].pos, false)
  {
    var p, rest := pieces[0], pieces[1..];
    assert pieces == [p] + rest;
    if !p.reversed {
      turned := pieces;
    } else {
      turned := [Flip(p)] + Backwards(rest);
      FreshSplit(used, p, rest);
      FreshBackwards(used, p, rest);
      RingFrom(pool, used, p, rest);
      RingFrom(pool, used, Flip(p), Backwards(rest));
      FlippedEnds(pool, p);
      BackwardsLinked(pool, Last(Oriented(pool, p)), rest);
    }
  }

  /** From an empty chain: some way taken forwards can be completed. */
  ghost predicate RingVia(pool: seq<Way>, used: seq<bool>, i: nat)
    requires |pool| == |used|
  {
    i < |used| && !used[i] && CanClose(pool, used[i := true], pool[i])
  }

  lemma RingCons(pool: seq<Way>, used: seq<bool>, i: nat, rest: seq<Piece>)
    requires |pool| == |used|
    requires i < |used| && !used[i]
    ensures Ring(pool, used, [Piece(i, false)] + rest) <==> Closing(pool, used[i := true], pool[i], rest)
  {
    var all := [Piece(i, false)] + rest;
    FreshCons(used, Piece(i, false), rest);
    assert all[1..] == rest;
  }

  lemma CanRingUnfold(pool: seq<Way>, used: seq<bool>)
    requires |pool| == |used|
    ensures CanRing(pool, used) <==> exists i: nat :: RingVia(pool, used, i)
  {
    if CanRing(pool, used) {
      var pieces :| Ring(pool, used, pieces);
      var turned := RingStartsForwards(pool, used, pieces);
      var i := turned[0].pos;
      assert turned == [Piece(i, false)] + turned[1..];
      RingCons(pool, used, i, turned[1..]);
      assert RingVia(pool, used, i);
    }
    if i: nat :| RingVia(pool, used, i) {
      var rest :| Closing(pool, used[i := true], pool[i], rest);
      RingCons(pool, used, i, rest);
    }
  }
}
