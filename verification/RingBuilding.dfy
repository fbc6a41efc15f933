/** Assembling rings from the open ways of a multipolygon (model.cpp:196-281). */
module RingBuilding {
  import opened Chains
  import opened Positions
  import Sequences

  /** The numbers name ways of the table that have at least one node. */
  ghost predicate Usable(ways: seq<seq<int>>, nums: seq<nat>) {
    forall k :: 0 <= k < |nums| ==> nums[k] < |ways| && |ways[nums[k]]| > 0
  }

  function Pool(ways: seq<seq<int>>, nums: seq<nat>): (pool: seq<Way>)
    requires Usable(ways, nums)
    ensures |pool| == |nums|
    ensures forall k {:trigger pool[k]} :: 0 <= k < |nums| ==> pool[k] == ways[nums[k]]
  {
    seq(|nums|, k requires 0 <= k < |nums| && nums[k] < |ways| && |ways[nums[k]]| > 0 => ways[nums[k]])
  }

  // ----- the backtracking search -----

  /** Taking position `i` next can be completed. */
  ghost predicate Via(pool: seq<Way>, used: seq<bool>, nodes: seq<int>, i: nat)
    requires |pool| == |used|
  {
    if nodes == [] then RingVia(pool, used, i) else ClosesVia(pool, used, nodes, i)
  }

  /** No position before `i` can be completed at this level. */
  ghost predicate NoneVia(pool: seq<Way>, used: seq<bool>, nodes: seq<int>, i: nat)
    requires |pool| == |used|
  {
    i == 0 || (NoneVia(pool, used, nodes, i - 1) && !Via(pool, used, nodes, i - 1))
  }

  /** The pieces are the first completable choice at every level, and stop as soon as the chain is closed. */
  ghost predicate Leading(pool: seq<Way>, used: seq<bool>, nodes: seq<int>, pieces: seq<Piece>)
    requires |pool| == |used|
    decreases pieces
  {
    if Closed(nodes) then pieces == []
    else
      && pieces != [] && pieces[0].pos < |used|
      && pieces[0].reversed == (nodes != [] && pool[pieces[0].pos][0] != Last(nodes))
      && NoneVia(pool, used, nodes, pieces[0].pos)
      && Leading(pool, used[pieces[0].pos := true], nodes + Oriented(pool, pieces[0]), pieces[1..])
  }

  /** What a successful search has done to `used` and `nodes`. */
  ghost predicate Extended(pool: seq<Way>, used0: seq<bool>, nodes0: seq<int>,
                           used1: seq<bool>, nodes1: seq<int>, pieces: seq<Piece>)
    requires |pool| == |used0|
  {
    && Fresh(used0, pieces)
    && used1 == Mark(used0, pieces)
    && nodes1 == nodes0 + Chain(pool, pieces)
    && Closed(nodes1)
    && (nodes0 != [] ==> Linked(pool, Last(nodes0), pieces))
    && (nodes0 == [] ==> Ring(pool, used0, pieces))
  }

  /** Some completion of what the chain holds so far exists. */
  ghost predicate Solvable(pool: seq<Way>, used: seq<bool>, nodes: seq<int>)
    requires |pool| == |used|
  {
    if nodes == [] then CanRing(pool, used) else CanClose(pool, used, nodes)
  }

  lemma {:induction false} NoneViaMeans(pool: seq<Way>, used: seq<bool>, nodes: seq<int>, i: nat, j: nat)
    requires |pool| == |used| && NoneVia(pool, used, nodes, i) && j < i
    ensures !Via(pool, used, nodes, j)
    decreases i
  {
    if j == i - 1 {
    } else {
      NoneViaMeans(pool, used, nodes, i - 1, j);
    }
  }

  lemma {:induction false} SomeVia(pool: seq<Way>, used: seq<bool>, nodes: seq<int>, i: nat) returns (j: nat)
    requires |pool| == |used| && !NoneVia(pool, used, nodes, i)
    ensures j < i && Via(pool, used, nodes, j)
    decreases i
  {
    if Via(pool, used, nodes, i - 1) {
      j := i - 1;
    } else {
      j := SomeVia(pool, used, nodes, i - 1);
    }
  }

  /** Once some position can be completed, the level can be. */
  lemma ViaSolves(pool: seq<Way>, used: seq<bool>, nodes: seq<int>, i: nat)
    requires |pool| == |used| && !Closed(nodes)
    requires Via(pool, used, nodes, i)
    ensures Solvable(pool, used, nodes)
  {
    if nodes == [] {
      CanRingUnfold(pool, used);
    } else {
      CanCloseUnfold(pool, used, nodes);
    }
  }

  lemma SolvesVia(pool: seq<Way>, used: seq<bool>, nodes: seq<int>) returns (i: nat)
    requires |pool| == |used| && !Closed(nodes) && Solvable(pool, used, nodes)
    ensures i < |used| && Via(pool, used, nodes, i)
  {
    if nodes == [] {
      CanRingUnfold(pool, used);
      i :| RingVia(pool, used, i);
    } else {
      CanCloseUnfold(pool, used, nodes);
      i :| ClosesVia(pool, used, nodes, i);
    }
  }

  /** A chain not yet closed can be completed exactly when some position can be chosen next. */
  lemma SolvableUnfold(pool: seq<Way>, used: seq<bool>, nodes: seq<int>)
    requires |pool| == |used| && !Closed(nodes)
    ensures Solvable(pool, used, nodes) <==> !NoneVia(pool, used, nodes, |used|)
  {
    if NoneVia(pool, used, nodes, |used|) {
      if Solvable(pool, used, nodes) {
        var i := SolvesVia(pool, used, nodes);
        NoneViaMeans(pool, used, nodes, |used|, i);
      }
    } else {
      var i := SomeVia(pool, used, nodes, |used|);
      ViaSolves(pool, used, nodes, i);
    }
  }

  /** The two vectors `TrackRec` receives by reference. */
  class Tracker {
    var used: seq<bool>
    var nodes: seq<int>

    constructor (n: nat)
      ensures used == NoneUsed(n) && nodes == []
    {
      used, nodes := NoneUsed(n), [];
    }

    /** The search proper; its two branches, by whether the chain is still empty, are the next two methods. */
    method TrackRec(open: seq<nat>, ways: seq<seq<int>>) returns (ok: bool, ghost pieces: seq<Piece>)
      requires Usable(ways, open) && |used| == |open|
      modifies this
      ensures ok <==> old(Solvable(Pool(ways, open), used, nodes))
      ensures ok ==> Extended(Pool(ways, open), old(used), old(nodes), used, nodes, pieces)
      ensures ok ==> Leading(Pool(ways, open), old(used), old(nodes), pieces)
      ensures !ok ==> used == old(used) && nodes == old(nodes)
      decreases Free(used), 1
    {
      if nodes == [] {
        ok, pieces := Start(open, ways);
      } else {
        ok, pieces := Continue(open, ways);
      }
    }

    method Start(open: seq<nat>, ways: seq<seq<int>>) returns (ok: bool, ghost pieces: seq<Piece>)
      requires Usable(ways, open) && |used| == |open| && nodes == []
      modifies this
      ensures ok <==> Solvable(Pool(ways, open), old(used), [])
      ensures ok ==> Extended(Pool(ways, open), old(used), [], used, nodes, pieces)
      ensures ok ==> Leading(Pool(ways, open), old(used), [], pieces)
      ensures !ok ==> used == old(used) && nodes == []
      decreases Free(used), 0
    {
      ghost var pool, used0 := Pool(ways, open), used;
      SolvableUnfold(pool, used0, []);
      for i := 0 to |open|
        invariant used == used0 && nodes == []
        invariant NoneVia(pool, used0, [], i)
      {
        if !used[i] {
          FreeOne(used, i);
          used := used[i := true];
          nodes := ways[open[i]];
          ok, pieces := TrackRec(open, ways);
          if ok {
            StartFound(pool, used0, i, used, nodes, pieces);
            return true, [Piece(i, false)] + pieces;
          }
          nodes := [];
          used := used[i := false];
          assert used == used0;
        }
      }
      return false, [];
    }

    method Continue(open: seq<nat>, ways: seq<seq<int>>) returns (ok: bool, ghost pieces: seq<Piece>)
      requires Usable(ways, open) && |used| == |open| && nodes != []
      modifies this
      ensures ok <==> Solvable(Pool(ways, open), old(used), old(nodes))
      ensures ok ==> Extended(Pool(ways, open), old(used), old(nodes), used, nodes, pieces)
      ensures ok ==> Leading(Pool(ways, open), old(used), old(nodes), pieces)
      ensures !ok ==> used == old(used) && nodes == old(nodes)
      decreases Free(used), 0, 1
    {
      ghost var pool, used0, nodes0 := Pool(ways, open), used, nodes;
      var head, tail := nodes[0], nodes[|nodes| - 1];
      if head == tail && |nodes| > 1 {
        ClosedCanClose(pool, used0, nodes0);
        assert nodes0 + Chain(pool, []) == nodes0;
        return true, [];
      }
      SolvableUnfold(pool, used0, nodes0);
      for i := 0 to |open|
        invariant used == used0 && nodes == nodes0
        invariant NoneVia(pool, used0, nodes0, i)
      {
        if !used[i] {
          ok, pieces := TryWay(open, ways, i);
          if ok {
            ViaSolves(pool, used0, nodes0, i);
            return;
          }
        }
      }
      return false, [];
    }

    /** The body of the second loop for one free way (model.cpp:221-235). */
    method TryWay(open: seq<nat>, ways: seq<seq<int>>, i: nat) returns (ok: bool, ghost pieces: seq<Piece>)
      requires Usable(ways, open) && |used| == |open| && nodes != []
      requires i < |open| && !used[i] && !Closed(nodes)
      requires NoneVia(Pool(ways, open), used, nodes, i)
      modifies this
      ensures ok <==> ClosesVia(Pool(ways, open), old(used), old(nodes), i)
      ensures ok ==> Extended(Pool(ways, open), old(used), old(nodes), used, nodes, pieces)
      ensures ok ==> Leading(Pool(ways, open), old(used), old(nodes), pieces)
      ensures !ok ==> used == old(used) && nodes == old(nodes)
      decreases Free(used), 0, 0
    {
      ghost var pool, used0, nodes0 := Pool(ways, open), used, nodes;
      var tail := nodes[|nodes| - 1];
      var way := ways[open[i]];
      assert way == pool[i];
      if way[0] == tail || way[|way| - 1] == tail {
        FreeOne(used, i);
        used := used[i := true];
        var len := |nodes|;
        if way[0] == tail {
          nodes := nodes + way;
        } else {
          nodes := nodes + Reversed(way);
        }
        assert nodes == nodes0 + Attached(pool[i], tail);
        ok, pieces := TrackRec(open, ways);
        if ok {
          ExtensionFound(pool, used0, nodes0, i, used, nodes, pieces);
          LeadingCons(pool, used0, nodes0, Piece(i, way[0] != tail), pieces);
          return true, [Piece(i, way[0] != tail)] + pieces;
        }
        nodes := nodes[..len];
        used := used[i := false];
        assert used == used0 && nodes == nodes0;
      }
      return false, [];
    }
  }

  lemma LeadingCons(pool: seq<Way>, used: seq<bool>, nodes: seq<int>, p: Piece, rest: seq<Piece>)
    requires |pool| == |used| && p.pos < |used| && !Closed(nodes) && NoneVia(pool, used, nodes, p.pos)
    requires p.reversed == (nodes != [] && pool[p.pos][0] != Last(nodes))
    requires Leading(pool, used[p.pos := true], nodes + Oriented(pool, p), rest)
    ensures Leading(pool, used, nodes, [p] + rest)
  {
    assert ([p] + rest)[1..] == rest;
  }

  lemma ChainCons(pool: seq<Way>, used: seq<bool>, p: Piece, rest: seq<Piece>)
    requires |pool| == |used| && p.pos < |used| && !used[p.pos] && Fresh(used[p.pos := true], rest)
    ensures Fresh(used, [p] + rest) && Mark(used, [p] + rest) == Mark(used[p.pos := true], rest)
    ensures Chain(pool, [p] + rest) == Oriented(pool, p) + Chain(pool, rest)
    ensures Linked(pool, Oriented(pool, p)[0], [p] + rest) <==> Linked(pool, Last(Oriented(pool, p)), rest)
  {
    FreshJoin(used, p, rest);
    assert ([p] + rest)[1..] == rest;
  }

  lemma ExtensionFound(pool: seq<Way>, used0: seq<bool>, nodes0: Way, i: nat,
                       used1: seq<bool>, nodes1: seq<int>, rest: seq<Piece>)
    requires |pool| == |used0| && i < |used0| && !used0[i] && Attaches(pool[i], Last(nodes0))
    requires Extended(pool, used0[i := true], nodes0 + Attached(pool[i], Last(nodes0)), used1, nodes1, rest)
    ensures Extended(pool, used0, nodes0, used1, nodes1, [Piece(i, pool[i][0] != Last(nodes0))] + rest)
  {
    var p := Piece(i, pool[i][0] != Last(nodes0));
    assert Oriented(pool, p) == Attached(pool[i], Last(nodes0));
    ChainCons(pool, used0, p, rest);
    assert nodes0 + Chain(pool, [p] + rest) == (nodes0 + Oriented(pool, p)) + Chain(pool, rest);
  }

  lemma RingFound(pool: seq<Way>, used0: seq<bool>, i: nat,
                  used1: seq<bool>, nodes1: seq<int>, rest: seq<Piece>)
    requires |pool| == |used0| && i < |used0| && !used0[i]
    requires Extended(pool, used0[i := true], pool[i], used1, nodes1, rest)
    ensures Extended(pool, used0, [], used1, nodes1, [Piece(i, false)] + rest)
  {
    var all := [Piece(i, false)] + rest;
    RingCons(pool, used0, i, rest);
    assert all[1..] == rest;
    assert [] + Chain(pool, all) == pool[i] + Chain(pool, rest);
  }

  /** A completion of the way at `i` taken forwards is what a search from an empty chain is to find. */
  lemma StartFound(pool: seq<Way>, used0: seq<bool>, i: nat, used1: seq<bool>, nodes1: seq<int>, rest: seq<Piece>)
    requires |pool| == |used0| && i < |used0| && !used0[i] && NoneVia(pool, used0, [], i)
    requires CanClose(pool, used0[i := true], pool[i])
    requires Extended(pool, used0[i := true], pool[i], used1, nodes1, rest)
    requires Leading(pool, used0[i := true], pool[i], rest)
    ensures CanRing(pool, used0)
    ensures Extended(pool, used0, [], used1, nodes1, [Piece(i, false)] + rest)
    ensures Leading(pool, used0, [], [Piece(i, false)] + rest)
  {
    ViaSolves(pool, used0, [], i);
    RingFound(pool, used0, i, used1, nodes1, rest);
    assert [] + pool[i] == pool[i];
    LeadingCons(pool, used0, [], Piece(i, false), rest);
  }

  // ----- one ring out of the open ways -----

  function Marked(open: seq<nat>, used: seq<bool>): (r: seq<int>)
    requires |open| == |used|
    ensures |r| == |open|
    ensures forall k {:trigger r[k]} :: 0 <= k < |open| ==> r[k] == if used[k] then -1 else open[k]
  {
    seq(|open|, k requires 0 <= k < |open| => if used[k] then -1 else open[k] as int)
  }

  /** The ring's nodes, or none; the entries it used are overwritten with -1 (model.cpp:241-251). */
  method Track(open: seq<nat>, ways: seq<seq<int>>)
    returns (nodes: seq<int>, marked: seq<int>, ghost pieces: seq<Piece>)
    requires Usable(ways, open) && open != []
    ensures nodes == [] <==> !CanRing(Pool(ways, open), NoneUsed(|open|))
    ensures nodes == [] ==> pieces == [] && marked == open
    ensures nodes != [] ==> Ring(Pool(ways, open), NoneUsed(|open|), pieces)
    ensures nodes != [] ==> Leading(Pool(ways, open), NoneUsed(|open|), [], pieces)
    ensures nodes != [] ==> nodes == Chain(Pool(ways, open), pieces)
    ensures nodes != [] ==> marked == Marked(open, Mark(NoneUsed(|open|), pieces))
  {
    var t := new Tracker(|open|);
    var ok;
    ok, pieces := t.TrackRec(open, ways);
    marked := open;
    if ok {
      for i := 0 to |open|
        invariant |marked| == |open|
        invariant forall k :: 0 <= k < i ==> marked[k] == if t.used[k] then -1 else open[k]
        invariant forall k :: i <= k < |open| ==> marked[k] == open[k]
      {
        if t.used[i] {
          marked := marked[i := -1];
        }
      }
      assert [] + Chain(Pool(ways, open), pieces) == Chain(Pool(ways, open), pieces);
    } else {
      pieces := [];
    }
    nodes := t.nodes;
  }

  /** `erase(remove_if(v < 0))` (model.cpp:270). */
  method EraseNegative(marked: seq<int>, ghost open: seq<nat>, ghost used: seq<bool>) returns (kept: seq<nat>)
    requires |open| == |used| && marked == Marked(open, used)
    ensures kept == Kept(open, used)
  {
    kept := [];
    for i := 0 to |marked|
      invariant kept == Kept(open[..i], used[..i])
    {
      assert open[..i + 1][..i] == open[..i] && used[..i + 1][..i] == used[..i];
      if marked[i] >= 0 {
        kept := kept + [marked[i]];
      }
    }
    assert open[..|marked|] == open && used[..|marked|] == used;
  }

  // ----- the outer loop -----

  function ClosedOf(ways: seq<seq<int>>, nums: seq<nat>): seq<nat>
    requires Usable(ways, nums)
  {
    if nums == [] then []
    else
      var n := |nums| - 1;
      ClosedOf(ways, nums[..n]) + if Closed(ways[nums[n]]) then [nums[n]] else []
  }

  function OpenOf(ways: seq<seq<int>>, nums: seq<nat>): (r: seq<nat>)
    requires Usable(ways, nums)
    ensures Usable(ways, r)
    ensures forall k :: 0 <= k < |r| ==> !Closed(ways[r[k]])
  {
    if nums == [] then []
    else
      var n := |nums| - 1;
      OpenOf(ways, nums[..n]) + if Closed(ways[nums[n]]) then [] else [nums[n]]
  }

  function Flatten(groups: seq<seq<Piece>>): seq<Piece> {
    if groups == [] then [] else Flatten(groups[..|groups| - 1]) + groups[|groups| - 1]
  }

  /** The numbers of `count` ways appended to a table of `size` ways. */
  function Numbers(size: nat, count: nat): (r: seq<nat>)
    ensures |r| == count
    ensures forall k :: 0 <= k < count ==> r[k] == size + k
  {
    seq(count, k requires 0 <= k => size + k)
  }

  /** Ring by ring: the pieces of `groups[k]` make a ring, whose nodes are `rings[k]`. */
  ghost predicate AllRings(pool: seq<Way>, groups: seq<seq<Piece>>, rings: seq<seq<int>>) {
    |groups| == |rings| &&
    (groups == [] ||
     var n := |groups| - 1;
     && AllRings(pool, groups[..n], rings[..n])
     && Ring(pool, NoneUsed(|pool|), groups[n])
     && rings[n] == Chain(pool, groups[n]))
  }

  /** The new ways are rings of open ways, and no position of the open list is consumed twice. */
  ghost predicate Partial(ways: seq<seq<int>>, open: seq<nat>, ways': seq<seq<int>>, groups: seq<seq<Piece>>)
    requires Usable(ways, open)
  {
    && |ways| <= |ways'| && ways'[..|ways|] == ways
    && AllRings(Pool(ways, open), groups, ways'[|ways|..])
    && Fresh(NoneUsed(|open|), Flatten(groups))
  }

  /** The open ways no ring has consumed. */
  function Leftover(ways: seq<seq<int>>, open: seq<nat>, groups: seq<seq<Piece>>): (r: seq<nat>)
    requires Usable(ways, open)
    requires Fresh(NoneUsed(|open|), Flatten(groups))
  {
    Kept(open, Mark(NoneUsed(|open|), Flatten(groups)))
  }

  lemma KeptUsable(ways: seq<seq<int>>, open: seq<nat>, used: seq<bool>)
    requires Usable(ways, open) && |used| == |open|
    ensures Usable(ways, Kept(open, used))
    ensures Pool(ways, Kept(open, used)) == Kept(Pool(ways, open), used)
  {
    var kept, pool := Kept(open, used), Pool(ways, open);
    forall k | 0 <= k < |kept|
      ensures kept[k] < |ways| && |ways[kept[k]]| > 0 && ways[kept[k]] == Kept(pool, used)[k]
    {
      KeptAt(open, used, k);
      KeptAt(pool, used, k);
    }
  }

  /** What `BuildRings` does to one list of way numbers: the open ways are split between the new rings,
      appended to the way table, and a rest that admits no ring. */
  ghost predicate RingsBuilt(ways: seq<seq<int>>, nums: seq<nat>, ways': seq<seq<int>>,
                             result: seq<nat>, groups: seq<seq<Piece>>)
    requires Usable(ways, nums)
  {
    var open := OpenOf(ways, nums);
    && Partial(ways, open, ways', groups)
    && result == ClosedOf(ways, nums) + Numbers(|ways|, |groups|)
    && var rest := Leftover(ways, open, groups);
    && Usable(ways, rest)
    && !CanRing(Pool(ways, rest), NoneUsed(|rest|))
  }

  lemma {:induction false} MarkAppend(used: seq<bool>, first: seq<Piece>, more: seq<Piece>)
    requires forall k :: 0 <= k < |first| ==> first[k].pos < |used|
    requires forall k :: 0 <= k < |more| ==> more[k].pos < |used|
    ensures Mark(used, first + more) == Mark(Mark(used, first), more)
    decreases first
  {
    if first == [] {
      assert first + more == more;
    } else {
      assert (first + more)[1..] == first[1..] + more;
      MarkAppend(used[first[0].pos := true], first[1..], more);
    }
  }

  lemma {:induction false} FreshAppend(used: seq<bool>, first: seq<Piece>, more: seq<Piece>)
    requires Fresh(used, first) && Fresh(Mark(used, first), more)
    ensures Fresh(used, first + more)
    decreases first
  {
    if first == [] {
      assert first + more == more;
    } else {
      var p, rest := first[0], first[1..];
      assert first == [p] + rest;
      FreshSplit(used, p, rest);
      FreshAppend(used[p.pos := true], rest, more);
      FreshJoin(used, p, rest + more);
      assert first + more == [p] + (rest + more);
    }
  }

  lemma LiftRing(pool: seq<Way>, used: seq<bool>, pieces: seq<Piece>)
    requires |pool| == |used|
    requires Ring(Kept(pool, used), NoneUsed(Free(used)), pieces)
    ensures Ring(pool, NoneUsed(|pool|), LiftAll(used, pieces))
    ensures Fresh(used, LiftAll(used, pieces))
    ensures Chain(pool, LiftAll(used, pieces)) == Chain(Kept(pool, used), pieces)
  {
    LiftFresh(used, pieces);
    LiftOriented(pool, used, pieces[0]);
    LiftChain(pool, used, Oriented(pool, Lift(used, pieces[0]))[0], pieces);
  }

  /** The split so far, while the loop runs. */
  ghost predicate Progress(ways0: seq<seq<int>>, open0: seq<nat>, ways: seq<seq<int>>, open: seq<nat>,
                           groups: seq<seq<Piece>>)
    requires Usable(ways0, open0)
  {
    Partial(ways0, open0, ways, groups) && open == Leftover(ways0, open0, groups) && Usable(ways0, open)
  }

  lemma PartialGrows(ways: seq<seq<int>>, open: seq<nat>, ways': seq<seq<int>>, groups: seq<seq<Piece>>,
                     ring: seq<int>, group: seq<Piece>)
    requires Usable(ways, open) && Partial(ways, open, ways', groups)
    requires Fresh(Mark(NoneUsed(|open|), Flatten(groups)), group)
    requires Ring(Pool(ways, open), NoneUsed(|open|), group) && ring == Chain(Pool(ways, open), group)
    ensures Partial(ways, open, ways' + [ring], groups + [group])
    ensures Leftover(ways, open, groups + [group]) ==
            Kept(open, Mark(Mark(NoneUsed(|open|), Flatten(groups)), group))
  {
    FreshAppend(NoneUsed(|open|), Flatten(groups), group);
    MarkAppend(NoneUsed(|open|), Flatten(groups), group);
    Sequences.InitOfSnoc(groups, group);
    Sequences.InitOfSnoc(ways'[|ways|..], ring);
    Sequences.TakeOfSnoc(ways', ring, |ways|);
    Sequences.DropOfSnoc(ways', ring, |ways|);
  }

  function Push(closed: seq<nat>, number: nat): seq<nat> {
    closed + [number]
  }

  /** A list with the numbers of `count` appended ways pushed behind it, one by one. */
  function Pushed(closed: seq<nat>, size: nat, count: nat): seq<nat> {
    if count == 0 then closed else Push(Pushed(closed, size, count - 1), size + count - 1)
  }

  lemma PushedOne(closed: seq<nat>, size: nat, count: nat, number: nat)
    requires number == size + count
    ensures Pushed(closed, size, count + 1) == Push(Pushed(closed, size, count), number)
  {
  }

  lemma {:induction false} PushedNumbers(closed: seq<nat>, size: nat, count: nat)
    ensures Pushed(closed, size, count) == closed + Numbers(size, count)
    decreases count
  {
    if count > 0 {
      PushedNumbers(closed, size, count - 1);
      assert Numbers(size, count) == Numbers(size, count - 1) + [size + count - 1];
    }
  }

  lemma RoundShortens(pool: seq<Way>, pieces: seq<Piece>)
    requires Ring(pool, NoneUsed(|pool|), pieces)
    ensures Free(Mark(NoneUsed(|pool|), pieces)) < |pool|
  {
    MarkTakes(pool, NoneUsed(|pool|), pieces);
    NoneUsedKeepsAll(pool);
  }

  /** A ring of the rest, named by its original positions. */
  lemma LiftedGroup(ways0: seq<seq<int>>, open0: seq<nat>, used: seq<bool>, pieces: seq<Piece>)
    returns (group: seq<Piece>)
    requires Usable(ways0, open0) && |used| == |open0| && Usable(ways0, Kept(open0, used))
    requires Ring(Pool(ways0, Kept(open0, used)), NoneUsed(Free(used)), pieces)
    ensures group == LiftAll(used, pieces)
    ensures Fresh(used, group) && Ring(Pool(ways0, open0), NoneUsed(|open0|), group)
    ensures Chain(Pool(ways0, open0), group) == Chain(Pool(ways0, Kept(open0, used)), pieces)
    ensures Kept(open0, Mark(used, group)) == Kept(Kept(open0, used), Mark(NoneUsed(Free(used)), pieces))
  {
    group := LiftAll(used, pieces);
    KeptUsable(ways0, open0, used);
    LiftRing(Pool(ways0, open0), used, pieces);
    KeptAfter(open0, used, pieces);
  }

  /** One more ring out of the rest keeps the split. */
  lemma Round(ways0: seq<seq<int>>, open0: seq<nat>, ways: seq<seq<int>>, open: seq<nat>, groups: seq<seq<Piece>>,
              pieces: seq<Piece>) returns (group: seq<Piece>)
    requires Usable(ways0, open0) && Progress(ways0, open0, ways, open, groups)
    requires Ring(Pool(ways0, open), NoneUsed(|open|), pieces)
    ensures Progress(ways0, open0, ways + [Chain(Pool(ways0, open), pieces)],
                     Kept(open, Mark(NoneUsed(|open|), pieces)), groups + [group])
    ensures |ways| == |ways0| + |groups|
    ensures group == LiftAll(Mark(NoneUsed(|open0|), Flatten(groups)), pieces)
  {
    var used := Mark(NoneUsed(|open0|), Flatten(groups));
    group := LiftedGroup(ways0, open0, used, pieces);
    PartialGrows(ways0, open0, ways, groups, Chain(Pool(ways0, open), pieces), group);
    KeptUsable(ways0, open, Mark(NoneUsed(|open|), pieces));
  }

  /** The ring the search finds in the pool: the first in trial order. */
  ghost predicate FirstRing(pool: seq<Way>, pieces: seq<Piece>) {
    Ring(pool, NoneUsed(|pool|), pieces) && Leading(pool, NoneUsed(|pool|), [], pieces)
  }

  /** The group is the first ring of the ways not yet used, named by original positions. */
  ghost predicate LedBy(ways: seq<seq<int>>, open: seq<nat>, used: seq<bool>, group: seq<Piece>)
    requires |used| == |open|
  {
    Usable(ways, Kept(open, used)) &&
    exists pieces :: FirstRing(Pool(ways, Kept(open, used)), pieces) && group == LiftAll(used, pieces)
  }

  /** The group is the first ring of what the groups before it leave. */
  ghost predicate LedNext(ways: seq<seq<int>>, open: seq<nat>, before: seq<seq<Piece>>, group: seq<Piece>) {
    && Fresh(NoneUsed(|open|), Flatten(before))
    && LedBy(ways, open, Mark(NoneUsed(|open|), Flatten(before)), group)
  }

  ghost predicate LedAt(ways: seq<seq<int>>, open: seq<nat>, groups: seq<seq<Piece>>, k: nat)
    requires k < |groups|
  {
    LedNext(ways, open, groups[..k], groups[k])
  }

  /** Round by round each group is. */
  ghost predicate Led(ways: seq<seq<int>>, open: seq<nat>, groups: seq<seq<Piece>>) {
    forall k: nat :: k < |groups| ==> LedAt(ways, open, groups, k)
  }

  lemma LedGrows(ways: seq<seq<int>>, open: seq<nat>, groups: seq<seq<Piece>>, pieces: seq<Piece>, group: seq<Piece>)
    requires Led(ways, open, groups) && Fresh(NoneUsed(|open|), Flatten(groups))
    requires var used := Mark(NoneUsed(|open|), Flatten(groups));
             && Usable(ways, Kept(open, used)) && FirstRing(Pool(ways, Kept(open, used)), pieces)
             && group == LiftAll(used, pieces)
    ensures Led(ways, open, groups + [group])
  {
    var all := groups + [group];
    forall k: nat | k < |all| ensures LedAt(ways, open, all, k) {
      Sequences.TakeOfSnoc(groups, group, k);
      if k < |groups| {
        assert LedAt(ways, open, groups, k);
      } else {
        Sequences.TakeAll(groups);
      }
    }
  }

  /** One ring and the open ways it leaves, or nothing (model.cpp:267-270). */
  method NextRing(ways: seq<seq<int>>, open: seq<nat>,
                  ghost ways0: seq<seq<int>>, ghost open0: seq<nat>, ghost groups: seq<seq<Piece>>)
    returns (newNodes: seq<int>, open': seq<nat>, ghost groups': seq<seq<Piece>>)
    requires Usable(ways0, open0) && Progress(ways0, open0, ways, open, groups) && open != []
    requires Led(ways0, open0, groups)
    ensures Led(ways0, open0, groups')
    ensures newNodes != [] ==> Progress(ways0, open0, ways + [newNodes], open', groups') && |open'| < |open|
    ensures newNodes != [] ==> |groups'| == |groups| + 1 && |ways| == |ways0| + |groups|
    ensures newNodes == [] ==> open' == open && groups' == groups && !CanRing(Pool(ways0, open), NoneUsed(|open|))
  {
    TableGrown(ways0, ways, open);
    var marked;
    ghost var pieces;
    newNodes, marked, pieces := Track(open, ways);
    open', groups' := open, groups;
    if newNodes != [] {
      ghost var group := Round(ways0, open0, ways, open, groups, pieces);
      LedGrows(ways0, open0, groups, pieces, group);
      RoundShortens(Pool(ways0, open), pieces);
      groups' := groups + [group];
      open' := EraseNegative(marked, open, Mark(NoneUsed(|open|), pieces));
    }
  }

  class Multipolygon {
    var outer: seq<nat>
    var inner: seq<nat>

    constructor (o: seq<nat>, i: seq<nat>)
      ensures outer == o && inner == i
    {
      outer, inner := o, i;
    }
  }

  /** The way table and the ring assembly over it. */
  class RingModel {
    var ways: seq<seq<int>>

    constructor (table: seq<seq<int>>)
      ensures ways == table
    {
      ways := table;
    }

    /** The work on one list of way numbers (model.cpp:259-277). */
    method Process(nums: seq<nat>) returns (result: seq<nat>, ghost groups: seq<seq<Piece>>)
      requires Usable(ways, nums)
      modifies this
      ensures RingsBuilt(old(ways), nums, ways, result, groups)
      ensures Led(old(ways), OpenOf(old(ways), nums), groups)
    {
      ghost var ways0 := ways;
      var closed: seq<nat>, open: seq<nat>;
      closed, open := Separate(nums);
      groups := [];
      NoneUsedKeepsAll(open);
      ghost var open0, closed0 := open, closed;
      while open != []
        invariant Progress(ways0, open0, ways, open, groups) && Led(ways0, open0, groups)
        invariant closed == Pushed(closed0, |ways0|, |groups|)
        decreases |open|
      {
        ghost var count := |groups|;
        var newNodes;
        newNodes, open, groups := NextRing(ways, open, ways0, open0, groups);
        if newNodes == [] {
          break;
        }
        PushedOne(closed0, |ways0|, count, |ways|);
        closed := Push(closed, |ways|);
        ways := ways + [newNodes];
      }
      Finished(ways0, nums, ways, open, groups);
      result := closed;
    }

    /** Partition of the way numbers into closed and open ones (model.cpp:261-264). */
    method Separate(nums: seq<nat>) returns (closed: seq<nat>, open: seq<nat>)
      requires Usable(ways, nums)
      ensures closed == ClosedOf(ways, nums) && open == OpenOf(ways, nums)
    {
      closed, open := [], [];
      for i := 0 to |nums|
        invariant closed == ClosedOf(ways, nums[..i]) && open == OpenOf(ways, nums[..i])
      {
        assert nums[..i + 1][..i] == nums[..i];
        if Closed(ways[nums[i]]) {
          closed := closed + [nums[i]];
        } else {
          open := open + [nums[i]];
        }
      }
      assert nums[..|nums|] == nums;
    }

    /** Both lists of a multipolygon, outer first (model.cpp:253-281). */
    method BuildRings(mp: Multipolygon)
      returns (ghost between: seq<seq<int>>, ghost outerGroups: seq<seq<Piece>>, ghost innerGroups: seq<seq<Piece>>)
      requires Usable(ways, mp.outer) && Usable(ways, mp.inner)
      modifies this, mp
      ensures RingsBuilt(old(ways), old(mp.outer), between, mp.outer, outerGroups)
      ensures Led(old(ways), OpenOf(old(ways), old(mp.outer)), outerGroups)
      ensures Usable(between, old(mp.inner)) && RingsBuilt(between, old(mp.inner), ways, mp.inner, innerGroups)
      ensures Led(between, OpenOf(between, old(mp.inner)), innerGroups)
    {
      var outer: seq<nat>, inner: seq<nat>;
      outer, outerGroups := Process(mp.outer);
      mp.outer := outer;
      between := ways;
      TableGrown(old(ways), between, mp.inner);
      inner, innerGroups := Process(mp.inner);
      mp.inner := inner;
    }
  }

  lemma TableGrown(ways: seq<seq<int>>, ways': seq<seq<int>>, nums: seq<nat>)
    requires Usable(ways, nums) && |ways| <= |ways'| && ways'[..|ways|] == ways
    ensures Usable(ways', nums) && Pool(ways', nums) == Pool(ways, nums)
  {
    forall k | 0 <= k < |nums| ensures nums[k] < |ways'| && ways'[nums[k]] == ways[nums[k]] {
      assert ways'[..|ways|][nums[k]] == ways'[nums[k]];
    }
  }

  lemma NoRingInNothing(pool: seq<Way>)
    requires pool == []
    ensures !CanRing(pool, NoneUsed(|pool|))
  {
    forall pieces ensures !Ring(pool, NoneUsed(|pool|), pieces) {
    }
  }

  lemma Finished(ways0: seq<seq<int>>, nums: seq<nat>, ways: seq<seq<int>>, open: seq<nat>, groups: seq<seq<Piece>>)
    requires Usable(ways0, nums) && Progress(ways0, OpenOf(ways0, nums), ways, open, groups)
    requires open == [] || !CanRing(Pool(ways0, open), NoneUsed(|open|))
    ensures RingsBuilt(ways0, nums, ways, Pushed(ClosedOf(ways0, nums), |ways0|, |groups|), groups)
  {
    PushedNumbers(ClosedOf(ways0, nums), |ways0|, |groups|);
    if open == [] {
      NoRingInNothing(Pool(ways0, open));
    }
  }
}
