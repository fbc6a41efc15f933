/** What one step of the route search does to the search state (route_model.cpp:29-52, route_planner.cpp:37-68). */
module SearchSpec {
  import opened Options
  import opened RoadMap
  import opened Sequences

  /** The mutable fields of a search node. */
  datatype NodeState = NodeState(parent: Option<nat>, h: real, g: real, visited: bool, neighbors: seq<nat>)

  datatype Problem = Problem(net: Network, start: nat, goal: nat)

  ghost predicate Sound(pb: Problem) {
    WellFormed(pb.net) && Distances(pb.net) && pb.start < pb.net.size && pb.goal < pb.net.size
  }

  /** A node `FindNeighbor` may offer from `i`. */
  predicate Eligible(net: Network, nodes: seq<NodeState>, i: nat, v: nat) {
    v < |nodes| && net.dist(i, v) != 0.0 && !nodes[v].visited
  }

  /** The running minimum over a way: strictly nearer nodes replace the candidate. */
  function Nearest(net: Network, nodes: seq<NodeState>, i: nat, way: seq<nat>): Option<nat> {
    if way == [] then None
    else
      var best, v := Nearest(net, nodes, i, way[..|way| - 1]), way[|way| - 1];
      if Eligible(net, nodes, i, v) && (best.None? || net.dist(i, v) < net.dist(i, best.value)) then Some(v)
      else best
  }

  /** What each road in the list offers, in order. */
  function Offers(net: Network, nodes: seq<NodeState>, i: nat, roads: seq<nat>): seq<nat>
    requires WellFormed(net) && forall k :: 0 <= k < |roads| ==> roads[k] < |net.roads|
  {
    if roads == [] then []
    else
      var n := |roads| - 1;
      var found := Nearest(net, nodes, i, WayOf(net, roads[n]));
      Offers(net, nodes, i, roads[..n]) + if found.Some? then [found.value] else []
  }

  lemma NodeRoadsInRange(net: Network, i: nat)
    requires WellFormed(net)
    ensures forall k :: 0 <= k < |NodeRoads(net, i)| ==> NodeRoads(net, i)[k] < |net.roads|
  {
    NodeRoadsMembers(net, i);
    forall k | 0 <= k < |NodeRoads(net, i)| ensures NodeRoads(net, i)[k] < |net.roads| {
      assert OnRoad(net, NodeRoads(net, i)[k], i);
    }
  }

  function Found(net: Network, nodes: seq<NodeState>, i: nat): seq<nat>
    requires WellFormed(net)
  {
    NodeRoadsInRange(net, i);
    Offers(net, nodes, i, NodeRoads(net, i))
  }

  /** `neighbors` after `FindNeighbors`: the list is never cleared. */
  function Children(pb: Problem, nodes: seq<NodeState>, i: nat): seq<nat>
    requires WellFormed(pb.net) && i < |nodes|
  {
    nodes[i].neighbors + Found(pb.net, nodes, i)
  }

  /** A node's fields once it has been reached from `i`. */
  function Reached(pb: Problem, nodes: seq<NodeState>, i: nat, v: nat): NodeState
    requires i < |nodes| && v < |nodes|
  {
    nodes[v].(parent := Some(i), h := pb.net.dist(v, pb.goal), g := nodes[i].g + pb.net.dist(i, v), visited := true)
  }

  /** All nodes after `AddNeighbors` on `i`, old children included. */
  function Expanded(pb: Problem, nodes: seq<NodeState>, i: nat): (r: seq<NodeState>)
    requires WellFormed(pb.net) && i < |nodes|
    ensures |r| == |nodes|
  {
    var kids := Children(pb, nodes, i);
    seq(|nodes|, v requires 0 <= v < |nodes| =>
      if v in kids then Reached(pb, nodes, i, v)
      else if v == i then nodes[i].(neighbors := kids)
      else nodes[v])
  }

  function F(nodes: seq<NodeState>, v: nat): real
    requires v < |nodes|
  {
    nodes[v].h + nodes[v].g
  }

  /** Sorted by `compare`: largest sum first. */
  ghost predicate Descending(nodes: seq<NodeState>, open: seq<nat>) {
    forall i, j :: 0 <= i < j < |open| && open[i] < |nodes| && open[j] < |nodes| ==>
      F(nodes, open[i]) >= F(nodes, open[j])
  }

  /** Some sorted arrangement of `open` ends in `v`; `rest` is what remains after `pop_back`. */
  ghost predicate Pops(nodes: seq<NodeState>, open: seq<nat>, v: nat, rest: seq<nat>) {
    multiset(open) == multiset(rest) + multiset{v} && Descending(nodes, rest + [v])
  }

  // ----- what FindNeighbor and FindNeighbors find -----

  /** The first eligible node of the way at the smallest distance. */
  ghost predicate FirstNearest(net: Network, nodes: seq<NodeState>, i: nat, way: seq<nat>, c: nat) {
    exists k :: 0 <= k < |way| && way[k] == c && Eligible(net, nodes, i, c)
      && (forall j :: 0 <= j < |way| && Eligible(net, nodes, i, way[j]) ==> net.dist(i, c) <= net.dist(i, way[j]))
      && (forall j :: 0 <= j < k && Eligible(net, nodes, i, way[j]) ==> net.dist(i, c) < net.dist(i, way[j]))
  }

  lemma {:induction false} NearestMeans(net: Network, nodes: seq<NodeState>, i: nat, way: seq<nat>)
    ensures Nearest(net, nodes, i, way).None? <==> forall k :: 0 <= k < |way| ==> !Eligible(net, nodes, i, way[k])
    ensures Nearest(net, nodes, i, way).Some? ==>
            FirstNearest(net, nodes, i, way, Nearest(net, nodes, i, way).value)
    decreases |way|
  {
    if way != [] {
      var n := |way| - 1;
      var init, v := way[..n], way[n];
      NearestMeans(net, nodes, i, init);
      var best := Nearest(net, nodes, i, init);
      if best.Some? {
        var k :| 0 <= k < |init| && init[k] == best.value
          && (forall j :: 0 <= j < |init| && Eligible(net, nodes, i, init[j]) ==>
               net.dist(i, best.value) <= net.dist(i, init[j]))
          && (forall j :: 0 <= j < k && Eligible(net, nodes, i, init[j]) ==>
               net.dist(i, best.value) < net.dist(i, init[j]));
        assert forall j :: 0 <= j < n ==> way[j] == init[j];
        assert way[k] == best.value;
      } else {
        assert forall j :: 0 <= j < n ==> way[j] == init[j];
      }
    }
  }

  /** The road has a node that may be offered from `i`. */
  ghost predicate HasEligible(net: Network, nodes: seq<NodeState>, i: nat, r: nat) {
    r < |net.roads| && net.roads[r].way < |net.ways| &&
    exists v :: v in net.ways[net.roads[r].way] && Eligible(net, nodes, i, v)
  }

  ghost function Offering(net: Network, nodes: seq<NodeState>, i: nat): nat -> bool {
    (r: nat) => HasEligible(net, nodes, i, r)
  }

  /** The first nearest node a road has to offer. */
  ghost function Finding(net: Network, nodes: seq<NodeState>, i: nat): (nat, nat) -> bool {
    (r: nat, c: nat) =>
      r < |net.roads| && net.roads[r].way < |net.ways| && FirstNearest(net, nodes, i, net.ways[net.roads[r].way], c)
  }

  lemma FindsIfEligible(net: Network, nodes: seq<NodeState>, i: nat, r: nat)
    requires WellFormed(net) && r < |net.roads|
    ensures Nearest(net, nodes, i, WayOf(net, r)).Some? <==> Offering(net, nodes, i)(r)
    ensures Offering(net, nodes, i)(r) ==> Finding(net, nodes, i)(r, Nearest(net, nodes, i, WayOf(net, r)).value)
  {
    var way := WayOf(net, r);
    NearestMeans(net, nodes, i, way);
    if HasEligible(net, nodes, i, r) {
      var v :| v in way && Eligible(net, nodes, i, v);
      var k :| 0 <= k < |way| && way[k] == v;
    }
  }

  /** Each road in the list with an eligible node offers one, the first nearest, in the order of the list; what was
      offered before is offered again. */
  lemma {:induction false} OffersInOrder(net: Network, nodes: seq<NodeState>, i: nat, roads: seq<nat>)
    returns (at: seq<nat>)
    requires WellFormed(net) && forall k :: 0 <= k < |roads| ==> roads[k] < |net.roads|
    ensures Collects(roads, Offering(net, nodes, i), at, Finding(net, nodes, i), Offers(net, nodes, i, roads))
    decreases |roads|
  {
    at := [];
    if roads != [] {
      var n := |roads| - 1;
      var init, r := roads[..n], roads[n];
      var before := OffersInOrder(net, nodes, i, init);
      InitAndLast(roads);
      FindsIfEligible(net, nodes, i, r);
      var found := Nearest(net, nodes, i, WayOf(net, r));
      var y := if found.Some? then found.value else 0;
      CollectsSnoc(init, r, Offering(net, nodes, i), before, Finding(net, nodes, i), Offers(net, nodes, i, init), y);
      at := PickedWith(init, r, Offering(net, nodes, i), before);
    }
  }

  /** Expanding a node appends to its child list, for each road through it in order, the first nearest node the road
      has to offer, repeats kept. */
  lemma ChildrenInOrder(pb: Problem, nodes: seq<NodeState>, i: nat) returns (at: seq<nat>, finds: seq<nat>)
    requires WellFormed(pb.net) && i < |nodes| && i !in Children(pb, nodes, i)
    ensures Expanded(pb, nodes, i)[i].neighbors == nodes[i].neighbors + finds
    ensures Collects(NodeRoads(pb.net, i), Offering(pb.net, nodes, i), at, Finding(pb.net, nodes, i), finds)
  {
    NodeRoadsInRange(pb.net, i);
    at := OffersInOrder(pb.net, nodes, i, NodeRoads(pb.net, i));
    finds := Found(pb.net, nodes, i);
  }

  /** Every offer is the find of some road in the list. */
  lemma {:induction false} OfferHasRoad(net: Network, nodes: seq<NodeState>, i: nat, roads: seq<nat>, c: nat)
    returns (k: nat)
    requires WellFormed(net) && forall j :: 0 <= j < |roads| ==> roads[j] < |net.roads|
    requires c in Offers(net, nodes, i, roads)
    ensures k < |roads| && Nearest(net, nodes, i, WayOf(net, roads[k])) == Some(c)
    decreases |roads|
  {
    var n := |roads| - 1;
    if c in Offers(net, nodes, i, roads[..n]) {
      k := OfferHasRoad(net, nodes, i, roads[..n], c);
    } else {
      k := n;
    }
  }

  /** Every road in the list that finds a node offers it. */
  lemma {:induction false} RoadMakesOffer(net: Network, nodes: seq<NodeState>, i: nat, roads: seq<nat>, k: nat)
    requires WellFormed(net) && forall j :: 0 <= j < |roads| ==> roads[j] < |net.roads|
    requires k < |roads| && Nearest(net, nodes, i, WayOf(net, roads[k])).Some?
    ensures Nearest(net, nodes, i, WayOf(net, roads[k])).value in Offers(net, nodes, i, roads)
    decreases |roads|
  {
    var n := |roads| - 1;
    if k < n {
      RoadMakesOffer(net, nodes, i, roads[..n], k);
    }
  }

  /** What one expansion newly finds: unvisited nodes away from `i`, each sharing a drivable road with it. */
  lemma FoundMeans(net: Network, nodes: seq<NodeState>, i: nat, c: nat)
    requires WellFormed(net)
    requires c in Found(net, nodes, i)
    ensures c < |nodes| && !nodes[c].visited && net.dist(i, c) != 0.0 && Shares(net, i, c)
  {
    NodeRoadsInRange(net, i);
    var roads := NodeRoads(net, i);
    var k := OfferHasRoad(net, nodes, i, roads, c);
    NearestMeans(net, nodes, i, WayOf(net, roads[k]));
    NodeRoadsMembers(net, i);
    assert OnRoad(net, roads[k], i) && OnRoad(net, roads[k], c);
  }

  /** A drivable road through `i` with an eligible node yields one of its nodes, as near as any such node and
      listed before any other as near. */
  lemma FoundOnRoad(net: Network, nodes: seq<NodeState>, i: nat, r: nat, v: nat) returns (c: nat)
    requires WellFormed(net)
    requires OnRoad(net, r, i) && OnRoad(net, r, v) && Eligible(net, nodes, i, v)
    ensures c in Found(net, nodes, i) && OnRoad(net, r, c)
    ensures net.dist(i, c) <= net.dist(i, v)
    ensures c == v || net.dist(i, c) < net.dist(i, v) || Precedes(WayOf(net, r), c, v)
  {
    NodeRoadsInRange(net, i);
    NodeRoadsMembers(net, i);
    var roads, way := NodeRoads(net, i), WayOf(net, r);
    NearestMeans(net, nodes, i, way);
    var k :| 0 <= k < |way| && way[k] == v;
    assert Eligible(net, nodes, i, way[k]);
    c := Nearest(net, nodes, i, way).value;
    NearestFirst(net, nodes, i, way, c, v);
    var at :| 0 <= at < |roads| && roads[at] == r;
    RoadMakesOffer(net, nodes, i, roads, at);
  }

  lemma NearestFirst(net: Network, nodes: seq<NodeState>, i: nat, way: seq<nat>, c: nat, v: nat)
    requires FirstNearest(net, nodes, i, way, c) && v in way && Eligible(net, nodes, i, v)
    ensures net.dist(i, c) <= net.dist(i, v)
    ensures c == v || net.dist(i, c) < net.dist(i, v) || Precedes(way, c, v)
  {
    var k :| 0 <= k < |way| && way[k] == c && Eligible(net, nodes, i, c)
      && (forall j :: 0 <= j < |way| && Eligible(net, nodes, i, way[j]) ==> net.dist(i, c) <= net.dist(i, way[j]))
      && (forall j :: 0 <= j < k && Eligible(net, nodes, i, way[j]) ==> net.dist(i, c) < net.dist(i, way[j]));
    assert exists m :: 0 <= m < |way| && way[m] == v;
    if c != v && net.dist(i, c) == net.dist(i, v) {
      assert forall j :: 0 <= j <= k ==> way[j] != v;
    }
  }
}
