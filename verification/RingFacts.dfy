/** What ring building guarantees about its result, for every table and every list of way numbers. */
module RingFacts {
  import opened Chains
  import opened Segments
  import opened Positions
  import opened RingBuilding
  import Sequences

  // ----- reading the split ring by ring -----

  lemma {:induction false} RingAt(pool: seq<Way>, groups: seq<seq<Piece>>, rings: seq<seq<int>>, k: nat)
    requires AllRings(pool, groups, rings) && k < |groups|
    ensures Ring(pool, NoneUsed(|pool|), groups[k]) && rings[k] == Chain(pool, groups[k])
    decreases |groups|
  {
    var n := |groups| - 1;
    if k < n {
      RingAt(pool, groups[..n], rings[..n], k);
    }
  }

  lemma {:induction false} ClosedOfClosed(ways: seq<seq<int>>, nums: seq<nat>)
    requires Usable(ways, nums)
    ensures forall k :: 0 <= k < |ClosedOf(ways, nums)| ==>
            ClosedOf(ways, nums)[k] < |ways| && Closed(ways[ClosedOf(ways, nums)[k]])
    decreases |nums|
  {
    if nums != [] {
      ClosedOfClosed(ways, nums[..|nums| - 1]);
    }
  }

  ghost predicate AllClosed(ways: seq<seq<int>>, nums: seq<nat>) {
    forall k :: 0 <= k < |nums| ==> nums[k] < |ways| && Closed(ways[nums[k]])
  }

  lemma NewRingClosed(ways: seq<seq<int>>, open: seq<nat>, ways': seq<seq<int>>, groups: seq<seq<Piece>>, k: nat)
    requires Usable(ways, open) && Partial(ways, open, ways', groups) && k < |groups|
    ensures |ways'| == |ways| + |groups| && Closed(ways'[|ways| + k])
  {
    RingAt(Pool(ways, open), groups, ways'[|ways|..], k);
    assert ways'[|ways|..][k] == ways'[|ways| + k];
  }

  lemma OldWaysStay(ways: seq<seq<int>>, ways': seq<seq<int>>, i: nat)
    requires |ways| <= |ways'| && ways'[..|ways|] == ways && i < |ways|
    ensures ways'[i] == ways[i]
  {
    assert ways'[..|ways|][i] == ways'[i];
  }

  lemma ResultEntry(ways: seq<seq<int>>, nums: seq<nat>, ways': seq<seq<int>>,
                    result: seq<nat>, groups: seq<seq<Piece>>, k: nat)
    requires Usable(ways, nums) && RingsBuilt(ways, nums, ways', result, groups) && k < |result|
    ensures result[k] < |ways'| && Closed(ways'[result[k]])
  {
    var closed := ClosedOf(ways, nums);
    if k < |closed| {
      ClosedOfClosed(ways, nums);
      assert result[k] == closed[k];
      OldWaysStay(ways, ways', result[k]);
    } else {
      var m: nat := k - |closed|;
      assert result[k] == Numbers(|ways|, |groups|)[m] == |ways| + m;
      NewRingClosed(ways, OpenOf(ways, nums), ways', groups, m);
    }
  }

  /** Every number in the result names a closed way, and every earlier way is as it was. */
  lemma ResultClosed(ways: seq<seq<int>>, nums: seq<nat>, ways': seq<seq<int>>,
                     result: seq<nat>, groups: seq<seq<Piece>>)
    requires Usable(ways, nums) && RingsBuilt(ways, nums, ways', result, groups)
    ensures AllClosed(ways', result)
    ensures |ways'| == |ways| + |groups| && forall i :: 0 <= i < |ways| ==> ways'[i] == ways[i]
    ensures ClosedOf(ways, nums) <= result
  {
    forall i | 0 <= i < |ways| ensures ways'[i] == ways[i] {
      OldWaysStay(ways, ways', i);
    }
    forall k | 0 <= k < |result| ensures result[k] < |ways'| && Closed(ways'[result[k]]) {
      ResultEntry(ways, nums, ways', result, groups, k);
    }
  }

  /** Working on the inner list leaves the outer list's ways closed. */
  lemma OuterSurvivesInner(ways: seq<seq<int>>, outer: seq<nat>, between: seq<seq<int>>, outer': seq<nat>,
                           outerGroups: seq<seq<Piece>>, inner: seq<nat>, ways': seq<seq<int>>,
                           inner': seq<nat>, innerGroups: seq<seq<Piece>>)
    requires Usable(ways, outer) && RingsBuilt(ways, outer, between, outer', outerGroups)
    requires Usable(between, inner) && RingsBuilt(between, inner, ways', inner', innerGroups)
    ensures AllClosed(ways', outer') && AllClosed(ways', inner')
    ensures forall k :: 0 <= k < |outer'| ==> outer'[k] < |between| && ways'[outer'[k]] == between[outer'[k]]
    ensures forall i :: 0 <= i < |ways| ==> i < |ways'| && ways'[i] == ways[i]
  {
    ResultClosed(ways, outer, between, outer', outerGroups);
    ResultClosed(between, inner, ways', inner', innerGroups);
  }

  /** A list of closed ways only is left as it is, and so is the table. */
  lemma ClosedListIdle(ways: seq<seq<int>>, nums: seq<nat>, ways': seq<seq<int>>,
                       result: seq<nat>, groups: seq<seq<Piece>>)
    requires AllClosed(ways, nums) && Usable(ways, nums) && RingsBuilt(ways, nums, ways', result, groups)
    ensures ways' == ways && result == nums
  {
    AllClosedSplit(ways, nums);
    NoRings(groups, ways'[|ways|..]);
    assert ways' == ways'[..|ways|] + ways'[|ways|..];
  }

  /** Rings already built are found finished: a second run changes nothing. */
  lemma SecondRunIdle(ways: seq<seq<int>>, nums: seq<nat>, ways': seq<seq<int>>, result: seq<nat>,
                      groups: seq<seq<Piece>>, ways'': seq<seq<int>>, result': seq<nat>, groups': seq<seq<Piece>>)
    requires Usable(ways, nums) && RingsBuilt(ways, nums, ways', result, groups)
    requires Usable(ways', result) && RingsBuilt(ways', result, ways'', result', groups')
    ensures ways'' == ways' && result' == result
  {
    ResultClosed(ways, nums, ways', result, groups);
    ClosedListIdle(ways', result, ways'', result', groups');
  }

  lemma NoRings(groups: seq<seq<Piece>>, rings: seq<seq<int>>)
    requires AllRings([], groups, rings)
    ensures groups == [] && rings == []
  {
    forall pieces: seq<Piece> ensures !Ring([], NoneUsed(0), pieces) {
    }
  }

  lemma {:induction false} AllClosedSplit(ways: seq<seq<int>>, nums: seq<nat>)
    requires AllClosed(ways, nums)
    ensures Usable(ways, nums)
    ensures ClosedOf(ways, nums) == nums && OpenOf(ways, nums) == []
    decreases |nums|
  {
    if nums != [] {
      var n := |nums| - 1;
      assert AllClosed(ways, nums[..n]);
      assert nums == nums[..n] + [nums[n]];
      AllClosedSplit(ways, nums[..n]);
    }
  }

  // ----- the split into closed and open ways -----

  /** The number is that of a way that ends where it starts (model.cpp:255-257). */
  predicate EndsMeet(ways: seq<seq<int>>, num: nat) {
    num < |ways| && |ways[num]| > 1 && ways[num][0] == ways[num][|ways[num]| - 1]
  }

  function Meeting(ways: seq<seq<int>>): nat -> bool {
    (n: nat) => EndsMeet(ways, n)
  }

  function Apart(ways: seq<seq<int>>): nat -> bool {
    (n: nat) => !EndsMeet(ways, n)
  }

  /** Closed ways are those whose ends meet, at increasing positions of the list. */
  lemma {:induction false} ClosedInOrder(ways: seq<seq<int>>, nums: seq<nat>) returns (at: seq<nat>)
    requires Usable(ways, nums)
    ensures Sequences.Filters(nums, Meeting(ways), at, ClosedOf(ways, nums))
    decreases |nums|
  {
    at := [];
    if nums != [] {
      var m := |nums| - 1;
      var before := ClosedInOrder(ways, nums[..m]);
      Sequences.InitAndLast(nums);
      SplitSnoc(ways, nums[..m], nums[m]);
      Sequences.FiltersSnoc(nums[..m], nums[m], Meeting(ways), before, ClosedOf(ways, nums[..m]));
      at := Sequences.PickedWith(nums[..m], nums[m], Meeting(ways), before);
    }
  }

  /** Open ways are all others, again at increasing positions. */
  lemma {:induction false} OpenInOrder(ways: seq<seq<int>>, nums: seq<nat>) returns (at: seq<nat>)
    requires Usable(ways, nums)
    ensures Sequences.Filters(nums, Apart(ways), at, OpenOf(ways, nums))
    decreases |nums|
  {
    at := [];
    if nums != [] {
      var m := |nums| - 1;
      var before := OpenInOrder(ways, nums[..m]);
      Sequences.InitAndLast(nums);
      SplitSnoc(ways, nums[..m], nums[m]);
      Sequences.FiltersSnoc(nums[..m], nums[m], Apart(ways), before, OpenOf(ways, nums[..m]));
      at := Sequences.PickedWith(nums[..m], nums[m], Apart(ways), before);
    }
  }

  // ----- each open position is consumed once or left over -----

  function Uses(pieces: seq<Piece>, i: nat): nat {
    if pieces == [] then 0 else (if pieces[0].pos == i then 1 else 0) + Uses(pieces[1..], i)
  }

  /** The position stays in the list of left-over ways. */
  function Stays(used: seq<bool>, i: nat): nat
    requires i < |used|
  {
    if used[i] then 0 else 1
  }

  lemma {:induction false} UsedOnce(used: seq<bool>, pieces: seq<Piece>, i: nat)
    requires Fresh(used, pieces) && i < |used|
    ensures Uses(pieces, i) + Stays(Mark(used, pieces), i) == Stays(used, i)
    decreases pieces
  {
    if pieces != [] {
      var p := pieces[0];
      assert pieces == [p] + pieces[1..];
      FreshSplit(used, p, pieces[1..]);
      UsedOnce(used[p.pos := true], pieces[1..], i);
    }
  }

  /** Every originally open position is consumed by the new rings exactly once, or is left over. */
  lemma EveryPositionOnce(ways: seq<seq<int>>, nums: seq<nat>, ways': seq<seq<int>>,
                          result: seq<nat>, groups: seq<seq<Piece>>, i: nat)
    requires Usable(ways, nums) && RingsBuilt(ways, nums, ways', result, groups)
    requires i < |OpenOf(ways, nums)|
    ensures var none := NoneUsed(|OpenOf(ways, nums)|);
            Uses(Flatten(groups), i) + Stays(Mark(none, Flatten(groups)), i) == 1
  {
    UsedOnce(NoneUsed(|OpenOf(ways, nums)|), Flatten(groups), i);
  }

  // ----- how many rings -----

  lemma OpenWayNoRing(pool: seq<Way>, p: Piece)
    requires p.pos < |pool| && !Closed(pool[p.pos])
    ensures !Ring(pool, NoneUsed(|pool|), [p])
  {
    assert [p][1..] == [];
    assert Chain(pool, [p]) == Oriented(pool, p);
  }

  lemma RingUsesTwo(pool: seq<Way>, pieces: seq<Piece>)
    requires Ring(pool, NoneUsed(|pool|), pieces)
    requires forall k :: 0 <= k < |pool| ==> !Closed(pool[k])
    ensures |pieces| >= 2
  {
    var first := pieces[0];
    OpenWayNoRing(pool, first);
    assert |pieces| == 1 ==> pieces == [first];
  }

  lemma {:induction false} FlattenLength(pool: seq<Way>, groups: seq<seq<Piece>>, rings: seq<seq<int>>)
    requires AllRings(pool, groups, rings)
    requires forall k :: 0 <= k < |pool| ==> !Closed(pool[k])
    ensures |Flatten(groups)| >= 2 * |groups|
    decreases |groups|
  {
    if groups != [] {
      var n := |groups| - 1;
      FlattenLength(pool, groups[..n], rings[..n]);
      RingUsesTwo(pool, groups[n]);
    }
  }

  /** Each new ring joins at least two open ways, so there are at most half as many rings as open ways. */
  lemma AtMostHalf(ways: seq<seq<int>>, nums: seq<nat>, ways': seq<seq<int>>,
                   result: seq<nat>, groups: seq<seq<Piece>>)
    requires Usable(ways, nums) && RingsBuilt(ways, nums, ways', result, groups)
    ensures forall k :: 0 <= k < |groups| ==> |groups[k]| >= 2
    ensures 2 * (|ways'| - |ways|) + |Leftover(ways, OpenOf(ways, nums), groups)| <= |OpenOf(ways, nums)|
  {
    var open := OpenOf(ways, nums);
    var pool := Pool(ways, open);
    forall k | 0 <= k < |groups| ensures |groups[k]| >= 2 {
      RingAt(pool, groups, ways'[|ways|..], k);
      RingUsesTwo(pool, groups[k]);
    }
    FlattenLength(pool, groups, ways'[|ways|..]);
    MarkTakes(pool, NoneUsed(|open|), Flatten(groups));
    NoneUsedKeepsAll(pool);
  }

  // ----- conservation of segments -----

  /** The ways a list of numbers names. */
  function Select(ways: seq<seq<int>>, nums: seq<nat>): (r: seq<seq<int>>)
    ensures |r| == |nums|
    ensures forall k {:trigger r[k]} :: 0 <= k < |nums| && nums[k] < |ways| ==> r[k] == ways[nums[k]]
  {
    seq(|nums|, k requires 0 <= k < |nums| => if nums[k] < |ways| then ways[nums[k]] else [])
  }

  lemma {:induction false} TotalAppend(a: seq<seq<int>>, b: seq<seq<int>>)
    ensures Total(a + b) == Total(a) + Total(b)
    decreases |b|
  {
    if b == [] {
      assert a + b == a;
    } else {
      var m := |b| - 1;
      assert (a + b)[..|a + b| - 1] == a + b[..m];
      TotalAppend(a, b[..m]);
    }
  }

  lemma SelectSnoc(ways: seq<seq<int>>, nums: seq<nat>, x: nat)
    requires x < |ways|
    ensures Total(Select(ways, nums + [x])) == Total(Select(ways, nums)) + Segs(ways[x])
  {
    var all := Select(ways, nums + [x]);
    assert all[..|nums|] == Select(ways, nums);
  }

  lemma SplitSnoc(ways: seq<seq<int>>, nums: seq<nat>, x: nat)
    requires Usable(ways, nums) && Usable(ways, nums + [x])
    ensures x < |ways|
    ensures ClosedOf(ways, nums + [x]) == if Closed(ways[x]) then ClosedOf(ways, nums) + [x] else ClosedOf(ways, nums)
    ensures OpenOf(ways, nums + [x]) == if Closed(ways[x]) then OpenOf(ways, nums) else OpenOf(ways, nums) + [x]
  {
    assert (nums + [x])[|nums|] == x;
    Sequences.TakeOfSnoc(nums, x, |nums|);
    Sequences.TakeAll(nums);
  }

  /** All segments of a list of ways are those of its closed and its open ways. */
  ghost predicate SplitsTotal(ways: seq<seq<int>>, nums: seq<nat>)
    requires Usable(ways, nums)
  {
    Total(Select(ways, nums)) == Total(Select(ways, ClosedOf(ways, nums))) + Total(Select(ways, OpenOf(ways, nums)))
  }

  lemma SplitTotalSnoc(ways: seq<seq<int>>, nums: seq<nat>, x: nat)
    requires Usable(ways, nums) && Usable(ways, nums + [x]) && SplitsTotal(ways, nums)
    ensures SplitsTotal(ways, nums + [x])
  {
    SplitSnoc(ways, nums, x);
    SelectSnoc(ways, nums, x);
    if Closed(ways[x]) {
      SelectSnoc(ways, ClosedOf(ways, nums), x);
    } else {
      SelectSnoc(ways, OpenOf(ways, nums), x);
    }
  }

  lemma {:induction false} SplitTotal(ways: seq<seq<int>>, nums: seq<nat>)
    requires Usable(ways, nums)
    ensures SplitsTotal(ways, nums)
    decreases |nums|
  {
    if nums != [] {
      var n := |nums| - 1;
      SplitTotal(ways, nums[..n]);
      Sequences.InitAndLast(nums);
      SplitTotalSnoc(ways, nums[..n], nums[n]);
    }
  }

  lemma {:induction false} PieceSegsAppend(pool: seq<Way>, a: seq<Piece>, b: seq<Piece>)
    requires InPool(pool, a) && InPool(pool, b)
    ensures PieceSegs(pool, a + b) == PieceSegs(pool, a) + PieceSegs(pool, b)
    decreases a
  {
    if a == [] {
      assert a + b == b;
    } else {
      assert (a + b)[1..] == a[1..] + b;
      PieceSegsAppend(pool, a[1..], b);
    }
  }

  lemma OneRingKeepsSegs(pool: seq<Way>, pieces: seq<Piece>)
    requires Ring(pool, NoneUsed(|pool|), pieces)
    ensures InPool(pool, pieces)
    ensures Segs(Chain(pool, pieces)) == PieceSegs(pool, pieces)
  {
    ChainSegs(pool, Oriented(pool, pieces[0])[0], pieces);
  }

  lemma {:induction false} RingsInPool(pool: seq<Way>, groups: seq<seq<Piece>>, rings: seq<seq<int>>)
    requires AllRings(pool, groups, rings)
    ensures InPool(pool, Flatten(groups))
    decreases |groups|
  {
    if groups != [] {
      RingsInPool(pool, groups[..|groups| - 1], rings[..|groups| - 1]);
    }
  }

  /** Together the rings have exactly the segments of the pieces they consumed. */
  lemma {:induction false} RingsKeepSegs(pool: seq<Way>, groups: seq<seq<Piece>>, rings: seq<seq<int>>)
    requires AllRings(pool, groups, rings) && InPool(pool, Flatten(groups))
    ensures Total(rings) == PieceSegs(pool, Flatten(groups))
    decreases |groups|
  {
    if groups != [] {
      var n := |groups| - 1;
      var init, last := Flatten(groups[..n]), groups[n];
      RingsInPool(pool, groups[..n], rings[..n]);
      RingsKeepSegs(pool, groups[..n], rings[..n]);
      OneRingKeepsSegs(pool, last);
      PieceSegsAppend(pool, init, last);
    }
  }

  lemma RestSegs(ways: seq<seq<int>>, open: seq<nat>, pieces: seq<Piece>)
    requires Usable(ways, open) && Fresh(NoneUsed(|open|), pieces)
    ensures Total(Select(ways, open)) ==
            Total(Select(ways, Kept(open, Mark(NoneUsed(|open|), pieces)))) + PieceSegs(Pool(ways, open), pieces)
  {
    var pool, none := Pool(ways, open), NoneUsed(|open|);
    var rest := Kept(open, Mark(none, pieces));
    KeptUsable(ways, open, Mark(none, pieces));
    assert Select(ways, open) == pool && Select(ways, rest) == Pool(ways, rest);
    NoneUsedKeepsAll(pool);
    MarkTakes(pool, none, pieces);
  }

  lemma GrownSelect(ways: seq<seq<int>>, ways': seq<seq<int>>, closed: seq<nat>, count: nat)
    requires |ways'| == |ways| + count && forall i :: 0 <= i < |ways| ==> ways'[i] == ways[i]
    requires forall k :: 0 <= k < |closed| ==> closed[k] < |ways|
    ensures Select(ways', closed + Numbers(|ways|, count)) == Select(ways, closed) + ways'[|ways|..]
  {
  }

  lemma ResultSelects(ways: seq<seq<int>>, nums: seq<nat>, ways': seq<seq<int>>,
                      result: seq<nat>, groups: seq<seq<Piece>>)
    requires Usable(ways, nums) && RingsBuilt(ways, nums, ways', result, groups)
    ensures Select(ways', result) == Select(ways, ClosedOf(ways, nums)) + ways'[|ways|..]
  {
    ResultClosed(ways, nums, ways', result, groups);
    ClosedOfClosed(ways, nums);
    GrownSelect(ways, ways', ClosedOf(ways, nums), |groups|);
  }

  /** Reversing and joining neither loses nor invents a segment. */
  lemma SegmentsConserved(ways: seq<seq<int>>, nums: seq<nat>, ways': seq<seq<int>>,
                          result: seq<nat>, groups: seq<seq<Piece>>)
    requires Usable(ways, nums) && RingsBuilt(ways, nums, ways', result, groups)
    ensures Total(Select(ways', result)) + Total(Select(ways, Leftover(ways, OpenOf(ways, nums), groups))) ==
            Total(Select(ways, nums))
  {
    var open, rings := OpenOf(ways, nums), ways'[|ways|..];
    ResultSelects(ways, nums, ways', result, groups);
    TotalAppend(Select(ways, ClosedOf(ways, nums)), rings);
    SplitTotal(ways, nums);
    RestSegs(ways, open, Flatten(groups));
    RingsInPool(Pool(ways, open), groups, rings);
    RingsKeepSegs(Pool(ways, open), groups, rings);
  }

  // ----- the search finds one definite ring -----

  /** What follows the first piece leads on from the longer chain. */
  lemma LeadingRest(pool: seq<Way>, used: seq<bool>, nodes: Way, pieces: seq<Piece>)
    requires |pool| == |used| && !Closed(nodes)
    requires Closing(pool, used, nodes, pieces) && Leading(pool, used, nodes, pieces)
    ensures pieces != [] && Via(pool, used, nodes, pieces[0].pos) && NoneVia(pool, used, nodes, pieces[0].pos)
    ensures pieces[0].reversed == (pool[pieces[0].pos][0] != Last(nodes))
    ensures var longer, used' := nodes + Oriented(pool, pieces[0]), used[pieces[0].pos := true];
            Closing(pool, used', longer, pieces[1..]) && Leading(pool, used', longer, pieces[1..])
  {
    ClosesViaComplete(pool, used, nodes, pieces);
    assert pieces == [pieces[0]] + pieces[1..];
    ClosingCons(pool, used, nodes, pieces[0], pieces[1..]);
  }

  lemma SameChoice(pool: seq<Way>, used: seq<bool>, nodes: Way, p: Piece, q: Piece)
    requires |pool| == |used| && p.pos < |used| && q.pos < |used|
    requires Via(pool, used, nodes, p.pos) && NoneVia(pool, used, nodes, p.pos)
    requires Via(pool, used, nodes, q.pos) && NoneVia(pool, used, nodes, q.pos)
    requires p.reversed == (pool[p.pos][0] != Last(nodes)) && q.reversed == (pool[q.pos][0] != Last(nodes))
    ensures p == q
  {
    SameFirst(pool, used, nodes, p.pos, q.pos);
  }

  lemma BothClosed(pool: seq<Way>, used: seq<bool>, nodes: Way, a: seq<Piece>, b: seq<Piece>)
    requires |pool| == |used| && Closed(nodes)
    requires Leading(pool, used, nodes, a) && Leading(pool, used, nodes, b)
    ensures a == b
  {
  }

  lemma {:induction false} LeadingUnique(pool: seq<Way>, used: seq<bool>, nodes: Way, a: seq<Piece>, b: seq<Piece>)
    requires |pool| == |used|
    requires Closing(pool, used, nodes, a) && Leading(pool, used, nodes, a)
    requires Closing(pool, used, nodes, b) && Leading(pool, used, nodes, b)
    ensures a == b
    decreases a
  {
    if Closed(nodes) {
      BothClosed(pool, used, nodes, a, b);
    } else {
      LeadingRest(pool, used, nodes, a);
      LeadingRest(pool, used, nodes, b);
      SameChoice(pool, used, nodes, a[0], b[0]);
      LeadingUnique(pool, used[a[0].pos := true], nodes + Oriented(pool, a[0]), a[1..], b[1..]);
      Sequences.SameHeadAndTail(a, b);
    }
  }

  lemma SameFirst(pool: seq<Way>, used: seq<bool>, nodes: seq<int>, i: nat, j: nat)
    requires |pool| == |used|
    requires Via(pool, used, nodes, i) && NoneVia(pool, used, nodes, i)
    requires Via(pool, used, nodes, j) && NoneVia(pool, used, nodes, j)
    ensures i == j
  {
    if i < j {
      NoneViaMeans(pool, used, nodes, j, i);
    } else if j < i {
      NoneViaMeans(pool, used, nodes, i, j);
    }
  }

  /** From an empty chain the contract of the search leaves exactly one ring: the first in trial order. */
  lemma FoundRingUnique(pool: seq<Way>, used: seq<bool>, a: seq<Piece>, b: seq<Piece>)
    requires |pool| == |used|
    requires Ring(pool, used, a) && Leading(pool, used, [], a)
    requires Ring(pool, used, b) && Leading(pool, used, [], b)
    ensures a == b
  {
    var i, j := a[0].pos, b[0].pos;
    assert a == [Piece(i, false)] + a[1..] && b == [Piece(j, false)] + b[1..];
    RingCons(pool, used, i, a[1..]);
    RingCons(pool, used, j, b[1..]);
    SameFirst(pool, used, [], i, j);
    assert [] + pool[i] == pool[i];
    LeadingUnique(pool, used[i := true], pool[i], a[1..], b[1..]);
  }

  // ----- and one definite result -----

  lemma LedByUnique(ways: seq<seq<int>>, open: seq<nat>, used: seq<bool>, a: seq<Piece>, b: seq<Piece>)
    requires |used| == |open| && LedBy(ways, open, used, a) && LedBy(ways, open, used, b)
    ensures a == b
  {
    var pool := Pool(ways, Kept(open, used));
    var x :| FirstRing(pool, x) && a == LiftAll(used, x);
    var y :| FirstRing(pool, y) && b == LiftAll(used, y);
    FoundRingUnique(pool, NoneUsed(|pool|), x, y);
  }

  lemma LedNextUnique(ways: seq<seq<int>>, open: seq<nat>, before: seq<seq<Piece>>, a: seq<Piece>, b: seq<Piece>)
    requires LedNext(ways, open, before, a) && LedNext(ways, open, before, b)
    ensures a == b
  {
    LedByUnique(ways, open, Mark(NoneUsed(|open|), Flatten(before)), a, b);
  }

  lemma LedByRing(ways: seq<seq<int>>, open: seq<nat>, used: seq<bool>, group: seq<Piece>)
    requires |used| == |open| && LedBy(ways, open, used, group)
    ensures CanRing(Pool(ways, Kept(open, used)), NoneUsed(Free(used)))
  {
    var pool := Pool(ways, Kept(open, used));
    var x :| FirstRing(pool, x) && group == LiftAll(used, x);
    assert Ring(pool, NoneUsed(|pool|), x);
  }

  lemma {:induction false} SameGroups(ways: seq<seq<int>>, open: seq<nat>,
                                      a: seq<seq<Piece>>, b: seq<seq<Piece>>, k: nat)
    requires Led(ways, open, a) && Led(ways, open, b) && k <= |a| && k <= |b|
    ensures a[..k] == b[..k]
    decreases k
  {
    if k > 0 {
      SameGroups(ways, open, a, b, k - 1);
      assert LedAt(ways, open, a, k - 1) && LedAt(ways, open, b, k - 1);
      LedNextUnique(ways, open, a[..k - 1], a[k - 1], b[k - 1]);
      Sequences.TakeSnoc(a, k - 1);
      Sequences.TakeSnoc(b, k - 1);
    }
  }

  /** Where one result goes on after another's last group, a ring is left there. */
  lemma LongerLeavesRing(ways: seq<seq<int>>, open: seq<nat>, a: seq<seq<Piece>>, b: seq<seq<Piece>>)
    requires Usable(ways, open) && Led(ways, open, a) && Led(ways, open, b) && |b| > |a|
    ensures Fresh(NoneUsed(|open|), Flatten(a)) && Usable(ways, Leftover(ways, open, a))
    ensures CanRing(Pool(ways, Leftover(ways, open, a)), NoneUsed(|Leftover(ways, open, a)|))
  {
    SameGroups(ways, open, a, b, |a|);
    Sequences.TakeAll(a);
    assert LedAt(ways, open, b, |a|);
    LedByRing(ways, open, Mark(NoneUsed(|open|), Flatten(a)), b[|a|]);
  }

  lemma NoneLonger(ways: seq<seq<int>>, open: seq<nat>, a: seq<seq<Piece>>, b: seq<seq<Piece>>)
    requires Usable(ways, open) && Led(ways, open, a) && Led(ways, open, b)
    requires Fresh(NoneUsed(|open|), Flatten(a)) && Usable(ways, Leftover(ways, open, a))
    requires !CanRing(Pool(ways, Leftover(ways, open, a)), NoneUsed(|Leftover(ways, open, a)|))
    ensures |b| <= |a|
  {
    if |b| > |a| {
      LongerLeavesRing(ways, open, a, b);
    }
  }

  lemma SameRings(pool: seq<Way>, groups: seq<seq<Piece>>, a: seq<seq<int>>, b: seq<seq<int>>)
    requires AllRings(pool, groups, a) && AllRings(pool, groups, b)
    ensures a == b
  {
    forall k | 0 <= k < |groups| ensures a[k] == b[k] {
      RingAt(pool, groups, a, k);
      RingAt(pool, groups, b, k);
    }
  }

  /** The contract of ring building leaves exactly one result list and one table. */
  lemma ResultUnique(ways: seq<seq<int>>, nums: seq<nat>,
                     wa: seq<seq<int>>, a: seq<nat>, ga: seq<seq<Piece>>,
                     wb: seq<seq<int>>, b: seq<nat>, gb: seq<seq<Piece>>)
    requires Usable(ways, nums)
    requires RingsBuilt(ways, nums, wa, a, ga) && Led(ways, OpenOf(ways, nums), ga)
    requires RingsBuilt(ways, nums, wb, b, gb) && Led(ways, OpenOf(ways, nums), gb)
    ensures wa == wb && a == b && ga == gb
  {
    var open := OpenOf(ways, nums);
    NoneLonger(ways, open, ga, gb);
    NoneLonger(ways, open, gb, ga);
    SameGroups(ways, open, ga, gb, |ga|);
    Sequences.TakeAll(ga);
    Sequences.TakeAll(gb);
    SameRings(Pool(ways, open), ga, wa[|ways|..], wb[|ways|..]);
    Sequences.SplitEqual(wa, wb, |ways|);
  }
}
