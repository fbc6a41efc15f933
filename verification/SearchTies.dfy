/** A map with coinciding nodes on which the order of equal sums decides whether the goal is found. */
module SearchTies {
  import opened Options
  import opened RoadMap
  import opened SearchSpec
  import opened SearchRuns
  import opened SearchResults
  import opened Plane

  function X(v: nat): real {
    match v
    case 0 => 0.0
    case 1 => 3.0
    case 2 => 3.0
    case 5 => 10.5
    case _ => 6.0
  }

  function Y(v: nat): real {
    match v
    case 1 => 4.0
    case 2 => -4.0
    case _ => 0.0
  }

  /** The distances between these points, for `a` before `b`. */
  function Gap(a: nat, b: nat): real {
    match a
    case 0 => if b < 3 then 5.0 else if b < 5 then 6.0 else 10.5
    case 1 => if b == 2 then 8.0 else if b < 5 then 5.0 else 8.5
    case 2 => if b < 5 then 5.0 else 8.5
    case _ => if b < 5 then 0.0 else 4.5
  }

  function Apart(a: nat, b: nat): real {
    if a == b then 0.0 else if a < b then Gap(a, b) else Gap(b, a)
  }

  /** From 0, nodes 1 and 2 are equally good; 3 and 4 lie on one spot; the goal 5 hangs on 4. */
  function TieMap(): Network {
    Network(6, [[0, 1], [0, 2], [1, 3, 4], [2, 3], [4, 5]], seq(5, r requires r >= 0 => Road(r, Residential)), Apart)
  }

  /** The two roads through each node that gets expanded. */
  function FirstAt(i: nat): nat {
    if i < 2 then 0 else if i == 2 then 1 else 2
  }

  function SecondAt(i: nat): nat {
    if i == 0 then 1 else if i == 1 then 2 else if i < 4 then 3 else 4
  }

  function RoadsAt(i: nat): seq<nat> {
    [FirstAt(i), SecondAt(i)]
  }

  /** What the runs below need to know of the map. */
  ghost predicate Laid(net: Network) {
    && WellFormed(net) && net.size == 6 && |net.roads| == 5 && (forall r: nat :: r < 5 ==> Drivable(net, r))
    && WayOf(net, 0) == [0, 1] && WayOf(net, 1) == [0, 2] && WayOf(net, 2) == [1, 3, 4]
    && WayOf(net, 3) == [2, 3] && WayOf(net, 4) == [4, 5]
    && (forall a: nat, b: nat :: net.dist(a, b) == Apart(a, b))
  }

  lemma TieMapLaid()
    ensures Laid(TieMap())
  {
    var net := TieMap();
    assert forall w, k :: 0 <= w < |net.ways| && 0 <= k < |net.ways[w]| ==> net.ways[w][k] < 6;
  }

  /** The map lies in the plane. */
  lemma TiePlanar(net: Network)
    requires Laid(net)
    ensures Planar(net)
  {
    forall a: nat, b: nat | a < 6 && b < 6 ensures Spans(net.dist(a, b), X(a) - X(b), Y(a) - Y(b)) {
      TieSpans(a, b);
    }
    assert Placed(net, X, Y);
  }

  lemma TieSpans(a: nat, b: nat)
    requires a < 6 && b < 6
    ensures Spans(Apart(a, b), X(a) - X(b), Y(a) - Y(b))
  {
  }

  lemma TieSound(net: Network)
    requires Laid(net)
    ensures Sound(Problem(net, 0, 5)) && TargetReachable(Problem(net, 0, 5))
  {
    TiePlanar(net);
    PlanarDistances(net);
    assert OnRoad(net, 0, 0) && OnRoad(net, 0, 1) && OnRoad(net, 2, 1) && OnRoad(net, 2, 4);
    assert OnRoad(net, 4, 4) && OnRoad(net, 4, 5);
    var path: seq<nat> := [0, 1, 4, 5];
    assert Shares(net, path[0], path[1]) && Shares(net, path[1], path[2]) && Shares(net, path[2], path[3]);
    assert Trail(net, path);
    assert Hits(Problem(net, 0, 5), 5);
  }

  lemma Among(a: nat, b: nat, v: nat)
    ensures Occurrences([a, b], v) == (if a == v then 1 else 0) + (if b == v then 1 else 0)
  {
    var both: seq<nat> := [a, b];
    assert both[..|both| - 1] == [a];
    var one: seq<nat> := [a];
    assert one[..|one| - 1] == [];
    assert Occurrences(one, v) == if a == v then 1 else 0;
  }

  lemma ThroughNext(net: Network, i: nat, k: nat, n: nat)
    requires WellFormed(net) && k < |net.roads| && Drivable(net, k) && Occurrences(WayOf(net, k), i) == n
    ensures n == 0 ==> RoadsThrough(net, i, k + 1) == RoadsThrough(net, i, k)
    ensures n == 1 ==> RoadsThrough(net, i, k + 1) == RoadsThrough(net, i, k) + [k]
  {
  }

  lemma TieOccurrences(net: Network, i: nat, r: nat)
    requires Laid(net) && i < 5 && r < 5
    ensures Occurrences(WayOf(net, r), i) == if r == FirstAt(i) || r == SecondAt(i) then 1 else 0
  {
    var way := WayOf(net, r);
    if r == 2 {
      assert way[..|way| - 1] == [1, 3];
      Among(1, 3, i);
    } else {
      Among(way[0], way[1], i);
    }
  }

  lemma {:induction false} NoRoadBetween(net: Network, i: nat, j: nat, k: nat)
    requires Laid(net) && i < 5 && j <= k <= 5
    requires k <= FirstAt(i) || (FirstAt(i) < j && k <= SecondAt(i)) || SecondAt(i) < j
    ensures RoadsThrough(net, i, k) == RoadsThrough(net, i, j)
    decreases k - j
  {
    if j < k {
      var r := k - 1;
      NoRoadBetween(net, i, j, r);
      assert r != FirstAt(i) && r != SecondAt(i);
      TieOccurrences(net, i, r);
      ThroughNext(net, i, r, 0);
    }
  }

  lemma NextRoad(net: Network, i: nat, j: nat, r: nat)
    requires Laid(net) && i < 5 && ((j == 0 && r == FirstAt(i)) || (j == FirstAt(i) + 1 && r == SecondAt(i)))
    ensures RoadsThrough(net, i, r + 1) == RoadsThrough(net, i, j) + [r]
  {
    NoRoadBetween(net, i, j, r);
    TieOccurrences(net, i, r);
    ThroughNext(net, i, r, 1);
  }

  lemma OneAfterTheOther(before: seq<nat>, a: nat, first: seq<nat>, b: nat, both: seq<nat>)
    requires before == [] && first == before + [a] && both == first + [b]
    ensures both == [a, b]
  {
  }

  lemma TieRoads(net: Network, i: nat)
    requires Laid(net) && i < 5
    ensures NodeRoads(net, i) == RoadsAt(i)
  {
    var a, b := FirstAt(i), SecondAt(i);
    NextRoad(net, i, 0, a);
    NextRoad(net, i, a + 1, b);
    OneAfterTheOther(RoadsThrough(net, i, 0), a, RoadsThrough(net, i, a + 1), b, RoadsThrough(net, i, b + 1));
    NoRoadBetween(net, i, b + 1, 5);
  }

  /** What one road offers. */
  function Finds(net: Network, nodes: seq<NodeState>, i: nat, r: nat): seq<nat>
    requires WellFormed(net) && r < |net.roads|
  {
    var found := Nearest(net, nodes, i, WayOf(net, r));
    if found.Some? then [found.value] else []
  }

  lemma FoundOnTwo(net: Network, nodes: seq<NodeState>, i: nat, q: nat, r: nat)
    requires WellFormed(net) && q < |net.roads| && r < |net.roads| && NodeRoads(net, i) == [q, r]
    ensures Found(net, nodes, i) == Finds(net, nodes, i, q) + Finds(net, nodes, i, r)
  {
    var both, one: seq<nat> := [q, r], [q];
    assert both[..|both| - 1] == one && one[..|one| - 1] == [];
    assert Offers(net, nodes, i, one) == Finds(net, nodes, i, q);
  }

  /** A road whose only eligible node can be that at position `k`. */
  lemma OnlyEligible(net: Network, nodes: seq<NodeState>, i: nat, r: nat, k: nat)
    requires WellFormed(net) && r < |net.roads| && k < |WayOf(net, r)|
    requires forall j :: 0 <= j < |WayOf(net, r)| && j != k ==> !Eligible(net, nodes, i, WayOf(net, r)[j])
    ensures var v := WayOf(net, r)[k];
            Finds(net, nodes, i, r) == if Eligible(net, nodes, i, v) then [v] else []
  {
    NearestMeans(net, nodes, i, WayOf(net, r));
  }

  /** Of two equally near nodes a road offers the first. */
  lemma FirstOfTwo(net: Network, nodes: seq<NodeState>, i: nat, r: nat, k: nat)
    requires WellFormed(net) && r < |net.roads| && k + 1 < |WayOf(net, r)|
    requires forall j :: 0 <= j < k ==> !Eligible(net, nodes, i, WayOf(net, r)[j])
    requires Eligible(net, nodes, i, WayOf(net, r)[k])
    requires forall j :: k <= j < |WayOf(net, r)| ==> net.dist(i, WayOf(net, r)[j]) == net.dist(i, WayOf(net, r)[k])
    ensures Finds(net, nodes, i, r) == [WayOf(net, r)[k]]
  {
    NearestMeans(net, nodes, i, WayOf(net, r));
  }

  // ----- what each expansion of the two runs finds -----

  lemma FromStart(net: Network, nodes: seq<NodeState>)
    requires Laid(net) && |nodes| == 6 && nodes[0].visited && !nodes[1].visited && !nodes[2].visited
    ensures Found(net, nodes, 0) == [1, 2]
  {
    TieRoads(net, 0);
    FoundOnTwo(net, nodes, 0, 0, 1);
    OnlyEligible(net, nodes, 0, 0, 1);
    OnlyEligible(net, nodes, 0, 1, 1);
  }

  lemma FromOne(net: Network, nodes: seq<NodeState>)
    requires Laid(net) && |nodes| == 6 && nodes[0].visited && !nodes[4].visited
    ensures Found(net, nodes, 1) == if nodes[3].visited then [4] else [3]
  {
    TieRoads(net, 1);
    FoundOnTwo(net, nodes, 1, 0, 2);
    OnlyEligible(net, nodes, 1, 0, 0);
    if nodes[3].visited {
      OnlyEligible(net, nodes, 1, 2, 2);
    } else {
      FirstOfTwo(net, nodes, 1, 2, 1);
    }
  }

  lemma FromTwo(net: Network, nodes: seq<NodeState>)
    requires Laid(net) && |nodes| == 6 && nodes[0].visited
    ensures Found(net, nodes, 2) == if nodes[3].visited then [] else [3]
  {
    TieRoads(net, 2);
    FoundOnTwo(net, nodes, 2, 1, 3);
    OnlyEligible(net, nodes, 2, 1, 0);
    OnlyEligible(net, nodes, 2, 3, 1);
  }

  lemma FromThree(net: Network, nodes: seq<NodeState>)
    requires Laid(net) && |nodes| == 6 && nodes[1].visited && nodes[2].visited
    ensures Found(net, nodes, 3) == []
  {
    TieRoads(net, 3);
    FoundOnTwo(net, nodes, 3, 2, 3);
    OnlyEligible(net, nodes, 3, 2, 0);
    OnlyEligible(net, nodes, 3, 3, 0);
  }

  lemma FromFour(net: Network, nodes: seq<NodeState>)
    requires Laid(net) && |nodes| == 6 && nodes[1].visited && nodes[3].visited && !nodes[5].visited
    ensures Found(net, nodes, 4) == [5]
  {
    TieRoads(net, 4);
    FoundOnTwo(net, nodes, 4, 2, 4);
    OnlyEligible(net, nodes, 4, 2, 0);
    OnlyEligible(net, nodes, 4, 4, 1);
  }

  // ----- rounds that find at most one node -----

  /** Node `i` has found node `k`. */
  function Grown(pb: Problem, nodes: seq<NodeState>, i: nat, k: nat): (r: seq<NodeState>)
    requires i < |nodes| && k < |nodes| && k != i
    ensures |r| == |nodes| && forall v: nat :: v < |nodes| && v != i && v != k ==> r[v] == nodes[v]
    ensures r[i] == nodes[i].(neighbors := [k]) && r[k] == Reached(pb, nodes, i, k)
  {
    nodes[i := nodes[i].(neighbors := [k])][k := Reached(pb, nodes, i, k)]
  }

  lemma ExpandOne(pb: Problem, nodes: seq<NodeState>, i: nat, k: nat)
    requires WellFormed(pb.net) && i < |nodes| && k < |nodes| && k != i
    requires nodes[i].neighbors == [] && Found(pb.net, nodes, i) == [k]
    ensures Children(pb, nodes, i) == [k]
    ensures Expanded(pb, nodes, i) == Grown(pb, nodes, i, k)
  {
  }

  lemma ExpandNone(pb: Problem, nodes: seq<NodeState>, i: nat)
    requires WellFormed(pb.net) && i < |nodes|
    requires nodes[i].neighbors == [] && Found(pb.net, nodes, i) == []
    ensures Children(pb, nodes, i) == [] && Expanded(pb, nodes, i) == nodes
  {
  }

  lemma PopOne(pb: Problem, nodes: seq<NodeState>, i: nat, v: nat)
    requires WellFormed(pb.net) && i < |nodes| && Children(pb, nodes, i) == [] && Expanded(pb, nodes, i) == nodes
    requires v < |nodes|
    ensures Step(pb, Config(nodes, [v], i), Config(nodes, [], v))
  {
    assert [v] + [] == [] + [v] == [v];
  }

  lemma LastOfTwo(nodes: seq<NodeState>, open: seq<nat>, v: nat, w: nat)
    requires open == [v] + [w] || open == [w] + [v]
    requires v < |nodes| && w < |nodes| && F(nodes, v) <= F(nodes, w)
    ensures Pops(nodes, open, v, [w])
  {
  }

  lemma PopOfTwo(pb: Problem, nodes: seq<NodeState>, i: nat, v: nat, w: nat, nodes': seq<NodeState>)
    requires WellFormed(pb.net) && i < |nodes| && nodes' == Expanded(pb, nodes, i)
    requires Children(pb, nodes, i) == [v] + [w] || Children(pb, nodes, i) == [w] + [v]
    requires v < |nodes'| && w < |nodes'| && F(nodes', v) <= F(nodes', w)
    ensures Step(pb, Config(nodes, [], i), Config(nodes', [w], v))
  {
    assert [] + Children(pb, nodes, i) == Children(pb, nodes, i);
    LastOfTwo(nodes', Children(pb, nodes, i), v, w);
  }

  /** The node that waited is popped before the one just found. */
  lemma PopOld(pb: Problem, nodes: seq<NodeState>, i: nat, w: nat, k: nat, nodes': seq<NodeState>)
    requires WellFormed(pb.net) && i < |nodes| && Children(pb, nodes, i) == [k] && nodes' == Expanded(pb, nodes, i)
    requires w < |nodes'| && k < |nodes'| && F(nodes', w) <= F(nodes', k)
    ensures Step(pb, Config(nodes, [w], i), Config(nodes', [k], w))
  {
    LastOfTwo(nodes', [w] + [k], w, k);
  }

  /** The node just found is popped first. */
  lemma PopNew(pb: Problem, nodes: seq<NodeState>, i: nat, w: nat, k: nat, nodes': seq<NodeState>)
    requires WellFormed(pb.net) && i < |nodes| && Children(pb, nodes, i) == [k] && nodes' == Expanded(pb, nodes, i)
    requires w < |nodes'| && k < |nodes'| && F(nodes', k) <= F(nodes', w)
    ensures Step(pb, Config(nodes, [w], i), Config(nodes', [w], k))
  {
    LastOfTwo(nodes', [w] + [k], k, w);
  }

  // ----- the two runs -----

  const UNSEEN := NodeState(None, 0.0, 0.0, false, [])

  function Seen(p: nat, h: real, g: real, kids: seq<nat>): NodeState {
    NodeState(Some(p), h, g, true, kids)
  }

  function Begun(): Config {
    Config([NodeState(None, 0.0, 0.0, true, []), UNSEEN, UNSEEN, UNSEEN, UNSEEN, UNSEEN], [], 0)
  }

  lemma BegunStarts(net: Network)
    requires Laid(net)
    ensures Run(Problem(net, 0, 5), [Begun()])
  {
  }

  function OneRoadOn(): seq<NodeState> {
    [NodeState(None, 0.0, 0.0, true, [1, 2]), Seen(0, 8.5, 5.0, []), Seen(0, 8.5, 5.0, []), UNSEEN, UNSEEN, UNSEEN]
  }

  lemma StartKids(net: Network)
    requires Laid(net)
    ensures Children(Problem(net, 0, 5), Begun().nodes, 0) == [1] + [2]
  {
    FromStart(net, Begun().nodes);
    assert [1] + [2] == [1, 2];
  }

  lemma StartExpanded(net: Network)
    requires Laid(net)
    ensures Expanded(Problem(net, 0, 5), Begun().nodes, 0) == OneRoadOn()
  {
    StartKids(net);
    assert [1] + [2] == [1, 2];
  }

  lemma FirstRound(net: Network, v: nat, w: nat)
    requires Laid(net) && ((v == 1 && w == 2) || (v == 2 && w == 1))
    ensures Step(Problem(net, 0, 5), Begun(), Config(OneRoadOn(), [w], v))
  {
    StartKids(net);
    StartExpanded(net);
    PopOfTwo(Problem(net, 0, 5), Begun().nodes, 0, v, w, OneRoadOn());
  }

  /** Node 1 or 2 (`i`) has marked node 3. */
  function ThreeFrom(net: Network, i: nat): seq<NodeState>
    requires i == 1 || i == 2
  {
    Grown(Problem(net, 0, 5), OneRoadOn(), i, 3)
  }

  lemma ThreeFound(net: Network, i: nat)
    requires Laid(net) && (i == 1 || i == 2)
    ensures Children(Problem(net, 0, 5), OneRoadOn(), i) == [3]
    ensures Expanded(Problem(net, 0, 5), OneRoadOn(), i) == ThreeFrom(net, i)
  {
    if i == 1 {
      FromOne(net, OneRoadOn());
    } else {
      FromTwo(net, OneRoadOn());
    }
    ExpandOne(Problem(net, 0, 5), OneRoadOn(), i, 3);
  }

  lemma ThreeLater(net: Network, i: nat, w: nat)
    requires Laid(net) && ((i == 1 && w == 2) || (i == 2 && w == 1))
    ensures F(ThreeFrom(net, i), w) == 13.5 && F(ThreeFrom(net, i), 3) == 14.5
  {
  }

  lemma SecondRound(net: Network, i: nat, w: nat)
    requires Laid(net) && ((i == 1 && w == 2) || (i == 2 && w == 1))
    ensures Step(Problem(net, 0, 5), Config(OneRoadOn(), [w], i), Config(ThreeFrom(net, i), [3], w))
  {
    ThreeFound(net, i);
    ThreeLater(net, i, w);
    PopOld(Problem(net, 0, 5), OneRoadOn(), i, w, 3, ThreeFrom(net, i));
  }

  /** With 3 marked from 1, nothing more is found. */
  lemma LostEnds(net: Network)
    requires Laid(net)
    ensures Step(Problem(net, 0, 5), Config(ThreeFrom(net, 1), [3], 2), Config(ThreeFrom(net, 1), [], 3))
    ensures Queued(Problem(net, 0, 5), Config(ThreeFrom(net, 1), [], 3)) == []
  {
    var pb, s := Problem(net, 0, 5), ThreeFrom(net, 1);
    FromTwo(net, s);
    ExpandNone(pb, s, 2);
    PopOne(pb, s, 2, 3);
    FromThree(net, s);
    ExpandNone(pb, s, 3);
  }

  /** With 3 marked from 2, node 1 finds 4. */
  function FourFound(net: Network): seq<NodeState> {
    Grown(Problem(net, 0, 5), ThreeFrom(net, 2), 1, 4)
  }

  lemma ThirdRound(net: Network)
    requires Laid(net)
    ensures Step(Problem(net, 0, 5), Config(ThreeFrom(net, 2), [3], 1), Config(FourFound(net), [3], 4))
  {
    var pb, s := Problem(net, 0, 5), ThreeFrom(net, 2);
    FromOne(net, s);
    ExpandOne(pb, s, 1, 4);
    PopNew(pb, s, 1, 3, 4, FourFound(net));
  }

  function GoalFound(net: Network): seq<NodeState> {
    Grown(Problem(net, 0, 5), FourFound(net), 4, 5)
  }

  lemma FourthRound(net: Network)
    requires Laid(net)
    ensures Step(Problem(net, 0, 5), Config(FourFound(net), [3], 4), Config(GoalFound(net), [3], 5))
  {
    var pb, s := Problem(net, 0, 5), FourFound(net);
    FromFour(net, s);
    ExpandOne(pb, s, 4, 5);
    PopNew(pb, s, 4, 3, 5, GoalFound(net));
  }

  /** The two first rounds, expanding `i` second. */
  lemma TwoRounds(net: Network, i: nat, w: nat) returns (run: seq<Config>)
    requires Laid(net) && ((i == 1 && w == 2) || (i == 2 && w == 1))
    ensures Run(Problem(net, 0, 5), run) && run[0] == Begun() && run[|run| - 1] == Config(ThreeFrom(net, i), [3], w)
  {
    var pb := Problem(net, 0, 5);
    FirstRound(net, i, w);
    SecondRound(net, i, w);
    BegunStarts(net);
    run := RunGoesOn(pb, [Begun()], Config(OneRoadOn(), [w], i));
    run := RunGoesOn(pb, run, Config(ThreeFrom(net, i), [3], w));
  }

  /** Popping 1 first, node 3 is reached from it, and 4 is never offered. */
  lemma LostRun(net: Network) returns (run: seq<Config>)
    requires Laid(net)
    ensures var pb := Problem(net, 0, 5);
            Sound(pb) && Run(pb, run) && run[0] == Begun() && ExhaustedBy(pb, run)
  {
    var pb := Problem(net, 0, 5);
    TieSound(net);
    run := TwoRounds(net, 1, 2);
    LostEnds(net);
    run := RunGoesOn(pb, run, Config(ThreeFrom(net, 1), [], 3));
  }

  /** Popping 2 first, node 3 is reached from there, and 4 from 1. */
  lemma WonRun(net: Network) returns (run: seq<Config>)
    requires Laid(net)
    ensures var pb := Problem(net, 0, 5);
            Sound(pb) && Run(pb, run) && run[0] == Begun() && FoundBy(pb, run)
  {
    var pb := Problem(net, 0, 5);
    TieSound(net);
    run := TwoRounds(net, 2, 1);
    ThirdRound(net);
    run := RunGoesOn(pb, run, Config(FourFound(net), [3], 4));
    FourthRound(net);
    run := RunGoesOn(pb, run, Config(GoalFound(net), [3], 5));
  }

  /** On one map, laid out in the plane in one way, with a goal that can be reached, the order in which two equal
      sums are popped decides whether the goal is found. */
  lemma OrderDecides() returns (lost: seq<Config>, won: seq<Config>)
    ensures var pb := Problem(TieMap(), 0, 5);
            && Sound(pb) && Planar(pb.net) && TargetReachable(pb) && Run(pb, lost) && Run(pb, won) && lost[0] == won[0]
            && ExhaustedBy(pb, lost) && FoundBy(pb, won)
  {
    var net := TieMap();
    TieMapLaid();
    TieSound(net);
    TiePlanar(net);
    lost := LostRun(net);
    won := WonRun(net);
  }
}
