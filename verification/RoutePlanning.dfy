/** The route planner over its node objects (route_planner.cpp, route_model.cpp, route_model.h). */
module RoutePlanning {
  import opened Options
  import opened RoadMap
  import opened SearchSpec
  import opened SearchTree
  import opened SearchRuns
  import opened SearchEnds
  import opened SearchResults
  import opened Sequences

  class Node {
    const index: nat
    var parent: Node?
    var hValue: real
    var gValue: real
    var visited: bool
    var neighbors: seq<Node>

    constructor (i: nat, hInitial: real)
      ensures index == i && fresh(this)
      ensures parent == null && hValue == hInitial && gValue == 0.0 && !visited && neighbors == []
    {
      index, parent, hValue, gValue, visited, neighbors := i, null, hInitial, 0.0, false, [];
    }

    ghost function State(): NodeState
      reads this
    {
      NodeState(if parent == null then None else Some(parent.index), hValue, gValue, visited, Indices(neighbors))
    }
  }

  function Indices(ns: seq<Node>): (r: seq<nat>)
    ensures |r| == |ns|
    ensures forall k {:trigger r[k]} :: 0 <= k < |ns| ==> r[k] == ns[k].index
  {
    seq(|ns|, k requires 0 <= k < |ns| => ns[k].index)
  }

  lemma IndicesAppend(a: seq<Node>, b: seq<Node>)
    ensures Indices(a + b) == Indices(a) + Indices(b)
  {
  }

  lemma IndicesSnoc(ns: seq<Node>, i: nat)
    requires i < |ns|
    ensures Indices(ns[..i + 1]) == Indices(ns[..i]) + [ns[i].index]
    ensures multiset(Indices(ns[..i + 1])) == multiset(Indices(ns[..i])) + multiset{ns[i].index}
  {
    TakeSnoc(ns, i);
    IndicesAppend(ns[..i], [ns[i]]);
  }

  lemma ScanSnoc(seen: seq<nat>, way: seq<nat>, k: nat)
    requires k < |way|
    ensures var all := seen + way[..k + 1];
            |all| == |seen| + k + 1 && all[..|all| - 1] == seen + way[..k] && all[|all| - 1] == way[k]
  {
  }

  lemma IndicesInsert(xs: seq<Node>, n: Node, k: nat)
    requires k <= |xs|
    ensures Indices(xs) == Indices(xs[..k]) + Indices(xs[k..])
    ensures Indices(xs[..k] + [n] + xs[k..]) == Indices(xs[..k]) + [n.index] + Indices(xs[k..])
  {
  }

  /** Node number `i` is stored at position `i`. */
  ghost predicate Numbered(nodes: seq<Node>) {
    forall i :: 0 <= i < |nodes| ==> nodes[i].index == i
  }

  /** A pointer into the node vector. */
  ghost predicate Member(nodes: seq<Node>, n: Node) {
    n.index < |nodes| && nodes[n.index] == n
  }

  ghost predicate AllMembers(nodes: seq<Node>, ns: seq<Node>) {
    forall k :: 0 <= k < |ns| ==> Member(nodes, ns[k])
  }

  /** Its pointers stay within the node vector. */
  ghost predicate PointsInto(nodes: seq<Node>, n: Node)
    reads n
  {
    (n.parent == null || Member(nodes, n.parent)) && AllMembers(nodes, n.neighbors)
  }

  /** The search state the node objects hold. */
  ghost function View(nodes: seq<Node>): (r: seq<NodeState>)
    reads nodes
    ensures |r| == |nodes|
    ensures forall i {:trigger r[i]} :: 0 <= i < |nodes| ==> r[i] == nodes[i].State()
  {
    seq(|nodes|, i requires 0 <= i < |nodes| reads nodes => nodes[i].State())
  }

  function Lookup(index: map<nat, seq<nat>>, v: nat): seq<nat> {
    if v in index then index[v] else []
  }

  /** The index lists for every node what a scan of the roads finds. */
  ghost predicate Agrees(net: Network, index: map<nat, seq<nat>>)
    requires WellFormed(net)
  {
    forall v: nat :: Lookup(index, v) == NodeRoads(net, v)
  }

  /** The entry of `v` has gained road `r` once per occurrence of `v` in `way`. */
  ghost predicate Gained(index0: map<nat, seq<nat>>, index: map<nat, seq<nat>>, r: nat, way: seq<nat>, v: nat) {
    && Lookup(index, v) == Lookup(index0, v) + Repeat(r, Occurrences(way, v))
    && (v in index <==> v in index0 || Occurrences(way, v) > 0)
  }

  lemma GainOne(index0: map<nat, seq<nat>>, index: map<nat, seq<nat>>, r: nat, way: seq<nat>, k: nat, v: nat)
    requires k < |way| && Gained(index0, index, r, way[..k], v)
    ensures Gained(index0, index[way[k] := Lookup(index, way[k]) + [r]], r, way[..k + 1], v)
  {
    assert way[..k + 1][..k] == way[..k];
    assert Repeat(r, Occurrences(way[..k], v) + 1) == Repeat(r, Occurrences(way[..k], v)) + [r];
  }

  /** The inner loop for one drivable road (route_model.cpp:18-23). */
  method IndexRoad(index0: map<nat, seq<nat>>, r: nat, way: seq<nat>) returns (index: map<nat, seq<nat>>)
    ensures forall v: nat :: Gained(index0, index, r, way, v)
  {
    index := index0;
    for k := 0 to |way|
      invariant forall v: nat :: Gained(index0, index, r, way[..k], v)
    {
      var u := way[k];
      ghost var before := index;
      if u !in index {
        index := index[u := []];
      }
      index := index[u := index[u] + [r]];
      assert index == before[u := Lookup(before, u) + [r]];
      ghost var seen := way[..k + 1];
      forall v: nat ensures Gained(index0, index, r, seen, v) {
        GainOne(index0, before, r, way, k, v);
      }
    }
    assert way[..|way|] == way;
  }

  /** The entry of `v` after the first `r` roads. */
  ghost predicate Indexed(net: Network, index: map<nat, seq<nat>>, r: nat, v: nat)
    requires WellFormed(net) && r <= |net.roads|
  {
    Lookup(index, v) == RoadsThrough(net, v, r) && (v in index <==> Lookup(index, v) != [])
  }

  lemma IndexedNext(net: Network, before: map<nat, seq<nat>>, index: map<nat, seq<nat>>, r: nat, v: nat)
    requires WellFormed(net) && r < |net.roads| && Indexed(net, before, r, v)
    requires if net.roads[r].kind != Footway then Gained(before, index, r, WayOf(net, r), v) else index == before
    ensures Indexed(net, index, r + 1, v)
  {
  }

  /** `CreateNodeToRoadHashmap` (route_model.cpp:15-26): the entry of a node lists what a scan of the roads
      finds, and only nodes of drivable roads have one. */
  method CreateNodeToRoadHashmap(net: Network) returns (index: map<nat, seq<nat>>)
    requires WellFormed(net)
    ensures Agrees(net, index)
    ensures forall v: nat :: v in index <==> NodeRoads(net, v) != []
  {
    index := map[];
    for r := 0 to |net.roads|
      invariant forall v: nat :: Indexed(net, index, r, v)
    {
      ghost var before, next := index, r + 1;
      if net.roads[r].kind != Footway {
        index := IndexRoad(index, r, WayOf(net, r));
      }
      forall v: nat ensures Indexed(net, index, next, v) {
        assert Indexed(net, before, r, v);
        IndexedNext(net, before, index, r, v);
      }
    }
    forall v: nat ensures Lookup(index, v) == NodeRoads(net, v) && (v in index <==> NodeRoads(net, v) != []) {
      assert Indexed(net, index, |net.roads|, v);
    }
  }

  method MakeNodes(n: nat, hInitial: real) returns (made: seq<Node>)
    ensures |made| == n && Numbered(made) && fresh(made)
    ensures forall i :: 0 <= i < n ==> PointsInto(made, made[i])
    ensures forall i :: 0 <= i < n ==> made[i].State() == NodeState(None, hInitial, 0.0, false, [])
  {
    made := [];
    for i := 0 to n
      invariant |made| == i && Numbered(made) && fresh(made)
      invariant forall k :: 0 <= k < i ==> made[k].parent == null && made[k].neighbors == []
      invariant forall k :: 0 <= k < i ==> made[k].State() == NodeState(None, hInitial, 0.0, false, [])
    {
      var node := new Node(i, hInitial);
      made := made + [node];
    }
  }

  class RouteModel {
    const net: Network
    const metricScale: real
    const nodes: seq<Node>
    var nodeToRoad: map<nat, seq<nat>>

    ghost predicate NodesOk()
      reads nodes
    {
      |nodes| == net.size && Numbered(nodes) && forall i :: 0 <= i < |nodes| ==> PointsInto(nodes, nodes[i])
    }

    ghost predicate Valid()
      reads this, nodes
    {
      && WellFormed(net) && NodesOk()
      && Agrees(net, nodeToRoad)
    }

    constructor (network: Network, scale: real, hInitial: real)
      requires WellFormed(network)
      ensures Valid() && net == network && metricScale == scale && fresh(nodes)
      ensures forall i :: 0 <= i < |nodes| ==> nodes[i].State() == NodeState(None, hInitial, 0.0, false, [])
    {
      var made := MakeNodes(network.size, hInitial);
      var index := CreateNodeToRoadHashmap(network);
      net, metricScale, nodes, nodeToRoad := network, scale, made, index;
    }

    /** `FindNeighbor` (route_model.cpp:29-42) for the node at `i`. Only visited marks matter, so the result is
        stated over any snapshot `base` with the same marks. */
    method FindNeighbor(node: Node, way: seq<nat>, ghost base: seq<NodeState>) returns (closest: Node?)
      requires NodesOk() && Member(nodes, node)
      requires forall k :: 0 <= k < |way| ==> way[k] < |nodes|
      requires |base| == |nodes| && forall v :: 0 <= v < |base| ==> base[v].visited == nodes[v].visited
      ensures closest == null <==> Nearest(net, base, node.index, way) == None
      ensures closest != null ==> Member(nodes, closest) && Nearest(net, base, node.index, way) == Some(closest.index)
    {
      closest := null;
      for k := 0 to |way|
        invariant closest == null <==> Nearest(net, base, node.index, way[..k]) == None
        invariant closest != null ==>
                  Member(nodes, closest) && Nearest(net, base, node.index, way[..k]) == Some(closest.index)
      {
        assert way[..k + 1][..k] == way[..k];
        var candidate := nodes[way[k]];
        if net.dist(node.index, candidate.index) != 0.0 && !candidate.visited {
          if closest == null || net.dist(node.index, candidate.index) < net.dist(node.index, closest.index) {
            closest := candidate;
          }
        }
      }
      assert way[..|way|] == way;
    }

    /** The inner loop of `FindClosestNode` for one drivable road (route_model.cpp:66-72). */
    method ScanWay(way: seq<nat>, far: nat -> real, closest0: Node?, ghost seen: seq<nat>) returns (closest: Node?)
      requires NodesOk() && (forall k :: 0 <= k < |way| ==> way[k] < |nodes|) && Leads(closest0, seen, far)
      ensures Leads(closest, seen + way, far)
    {
      closest := closest0;
      assert seen + way[..0] == seen;
      for k := 0 to |way|
        invariant Leads(closest, seen + way[..k], far)
      {
        ScanSnoc(seen, way, k);
        if closest == null || far(way[k]) < far(closest.index) {
          closest := nodes[way[k]];
        }
      }
      TakeAll(way);
    }

    /** The candidate after scanning the nodes `seen`. */
    ghost predicate Leads(closest: Node?, seen: seq<nat>, far: nat -> real) {
      && (closest != null ==> Member(nodes, closest))
      && Closest(seen, far) == if closest == null then None else Some(closest.index)
    }

    /** `FindClosestNode` (route_model.cpp:55-77) for a point at distance `far` from each node; null stands for
        the index the code leaves unset when no drivable road has a node. */
    method FindClosestNode(far: nat -> real) returns (closest: Node?)
      requires Valid()
      ensures closest != null ==> Member(nodes, closest)
      ensures Closest(DrivableNodes(net, |net.roads|), far) == if closest == null then None else Some(closest.index)
      ensures closest == null ==> forall r: nat, k: nat :: !HasNode(net, r, k)
      ensures closest != null ==>
              exists r: nat, k: nat ::
                HasNode(net, r, k) && NodeAt(net, r, k) == closest.index && FirstClosest(net, far, r, k)
    {
      closest := null;
      for r := 0 to |net.roads|
        invariant Leads(closest, DrivableNodes(net, r), far)
      {
        if net.roads[r].kind != Footway {
          closest := ScanWay(WayOf(net, r), far, closest, DrivableNodes(net, r));
        } else {
          assert DrivableNodes(net, r + 1) == DrivableNodes(net, r);
        }
      }
      if closest == null {
        NothingOnRoads(net, far);
      } else {
        ghost var r, k := ClosestOnRoads(net, far);
      }
    }

    /** `node_to_road[index]`: looking a node up leaves an empty entry behind when there was none. */
    method RoadsOf(i: nat) returns (roads: seq<nat>)
      requires Valid()
      modifies this`nodeToRoad
      ensures Valid() && roads == NodeRoads(net, i)
    {
      ghost var before := nodeToRoad;
      if i !in nodeToRoad {
        nodeToRoad := nodeToRoad[i := []];
      }
      roads := nodeToRoad[i];
      assert Lookup(before, i) == roads;
      forall v: nat ensures Lookup(nodeToRoad, v) == NodeRoads(net, v) {
        assert Lookup(nodeToRoad, v) == Lookup(before, v);
      }
    }

    /** One road's turn in `FindNeighbors` (route_model.cpp:47-50). */
    method TryRoad(node: Node, r: nat, ghost base: seq<NodeState>)
      requires WellFormed(net) && NodesOk() && Member(nodes, node) && r < |net.roads|
      requires |base| == |nodes| && forall v :: 0 <= v < |base| ==> base[v].visited == nodes[v].visited
      modifies node`neighbors
      ensures NodesOk()
      ensures Indices(node.neighbors) == old(Indices(node.neighbors)) +
              match Nearest(net, base, node.index, WayOf(net, r)) { case None => [] case Some(c) => [c] }
    {
      var newNeighbor := FindNeighbor(node, WayOf(net, r), base);
      if newNeighbor != null {
        IndicesAppend(node.neighbors, [newNeighbor]);
        node.neighbors := node.neighbors + [newNeighbor];
      }
    }

    /** `FindNeighbors` (route_model.cpp:45-52): appends to `neighbors`, which is never cleared. */
    method FindNeighbors(node: Node)
      requires Valid() && Member(nodes, node)
      modifies this`nodeToRoad, node`neighbors
      ensures Valid()
      ensures Indices(node.neighbors) ==
              old(Indices(node.neighbors)) + Found(net, old(View(nodes)), node.index)
    {
      ghost var base, kids0 := View(nodes), Indices(node.neighbors);
      var roads := RoadsOf(node.index);
      NodeRoadsInRange(net, node.index);
      ghost var index := nodeToRoad;
      for k := 0 to |roads|
        invariant NodesOk() && nodeToRoad == index
        invariant Indices(node.neighbors) == kids0 + Offers(net, base, node.index, roads[..k])
      {
        TakeSnoc(roads, k);
        TryRoad(node, roads[k], base);
      }
      TakeAll(roads);
    }
  }

  /** The run so far, with the pair its rounds decrease. */
  datatype Trace = Trace(run: seq<Config>, unvisited: set<nat>, weight: nat) {
    ghost function Last(): Config {
      if run == [] then Config([], [], 0) else run[|run| - 1]
    }
  }

  /** The nodes after the first `k` children have been linked to the expanded node. */
  ghost function Linking(pb: Problem, base: seq<NodeState>, i: nat, kids: seq<nat>, k: nat): (r: seq<NodeState>)
    requires i < |base| && k <= |kids|
    ensures |r| == |base|
  {
    seq(|base|, v requires 0 <= v < |base| =>
      if v in kids[..k] then Reached(pb, base, i, v)
      else if v == i then base[i].(neighbors := kids)
      else base[v])
  }

  lemma LinkingStep(pb: Problem, base: seq<NodeState>, i: nat, kids: seq<nat>, k: nat)
    requires i < |base| && k < |kids| && kids[k] < |base|
    ensures Linking(pb, base, i, kids, k + 1) == Linking(pb, base, i, kids, k)[kids[k] := Reached(pb, base, i, kids[k])]
  {
    assert kids[..k + 1] == kids[..k] + [kids[k]];
  }

  class RoutePlanner {
    const model: RouteModel
    const startNode: Node
    const endNode: Node
    var openList: seq<Node>
    var distance: real
    var path: seq<nat>

    ghost predicate Valid()
      reads this, model, model.nodes
    {
      && model.Valid() && Member(model.nodes, startNode) && Member(model.nodes, endNode)
      && AllMembers(model.nodes, openList)
    }

    ghost function Pb(): Problem {
      Problem(model.net, startNode.index, endNode.index)
    }

    constructor (m: RouteModel, start: Node, end: Node)
      requires m.Valid() && Member(m.nodes, start) && Member(m.nodes, end)
      ensures Valid() && model == m && startNode == start && endNode == end && openList == []
    {
      model, startNode, endNode, openList, distance, path := m, start, end, [], 0.0, [];
    }

    /** `CalculateHValue` (route_planner.cpp:25-27). */
    function CalculateHValue(node: Node): (h: real)
      ensures h == Pb().net.dist(node.index, Pb().goal)
    {
      model.net.dist(node.index, endNode.index)
    }

    /** The loop body of `AddNeighbors` for one neighbour, without queueing it. */
    method Reach(current: Node, neighbor: Node)
      requires model.NodesOk() && Member(model.nodes, current) && Member(model.nodes, neighbor) && current != neighbor
      modifies neighbor
      ensures model.NodesOk()
      ensures View(model.nodes) == old(View(model.nodes))[neighbor.index :=
        old(neighbor.State()).(parent := Some(current.index), h := Pb().net.dist(neighbor.index, Pb().goal),
                               g := old(current.gValue) + Pb().net.dist(current.index, neighbor.index),
                               visited := true)]
    {
      neighbor.parent := current;
      neighbor.hValue := CalculateHValue(neighbor);
      neighbor.gValue := current.gValue + model.net.dist(current.index, neighbor.index);
      neighbor.visited := true;
    }

    /** The loop body of `AddNeighbors` (route_planner.cpp:39-45). */
    method LinkKid(current: Node, neighbors: seq<Node>, k: nat, ghost base: seq<NodeState>, ghost kids: seq<nat>)
      requires model.NodesOk() && Member(model.nodes, current) && AllMembers(model.nodes, neighbors)
      requires |base| == |model.nodes| && kids == Indices(neighbors) && current.index !in kids
      requires k < |neighbors| && View(model.nodes) == Linking(Pb(), base, current.index, kids, k)
      modifies this`openList, model.nodes
      ensures model.NodesOk() && openList == old(openList) + [neighbors[k]]
      ensures View(model.nodes) == Linking(Pb(), base, current.index, kids, k + 1)
    {
      var neighbor := neighbors[k];
      assert Member(model.nodes, neighbor) && kids[k] == neighbor.index;
      ghost var view := View(model.nodes);
      assert view[current.index] == current.State() && view[neighbor.index] == neighbor.State();
      LinkingStep(Pb(), base, current.index, kids, k);
      Reach(current, neighbor);
      openList := openList + [neighbor];
    }

    /** `AddNeighbors` (route_planner.cpp:37-46); no node is ever its own neighbour. */
    method AddNeighbors(current: Node)
      requires Valid() && Member(model.nodes, current)
      requires current.index !in Children(Pb(), View(model.nodes), current.index)
      modifies this`openList, model`nodeToRoad, model.nodes
      ensures Valid()
      ensures View(model.nodes) == Expanded(Pb(), old(View(model.nodes)), current.index)
      ensures Indices(openList) == old(Indices(openList)) + Children(Pb(), old(View(model.nodes)), current.index)
    {
      ghost var base := View(model.nodes);
      model.FindNeighbors(current);
      var neighbors := current.neighbors;
      ghost var kids := Indices(neighbors);
      assert View(model.nodes) == Linking(Pb(), base, current.index, kids, 0);
      LinkAll(current, neighbors, base, kids);
      assert kids[..|kids|] == kids;
      assert View(model.nodes) == Expanded(Pb(), base, current.index);
      IndicesAppend(old(openList), neighbors);
    }

    /** Its loop (route_planner.cpp:39-45). */
    method LinkAll(current: Node, neighbors: seq<Node>, ghost base: seq<NodeState>, ghost kids: seq<nat>)
      requires model.NodesOk() && Member(model.nodes, current) && AllMembers(model.nodes, neighbors)
      requires |base| == |model.nodes| && kids == Indices(neighbors) && current.index !in kids
      requires View(model.nodes) == Linking(Pb(), base, current.index, kids, 0)
      modifies this`openList, model.nodes
      ensures model.NodesOk() && openList == old(openList) + neighbors
      ensures View(model.nodes) == Linking(Pb(), base, current.index, kids, |kids|)
    {
      for k := 0 to |neighbors|
        invariant model.NodesOk()
        invariant openList == old(openList) + neighbors[..k]
        invariant View(model.nodes) == Linking(Pb(), base, current.index, kids, k)
      {
        TakeSnoc(neighbors, k);
        LinkKid(current, neighbors, k, base, kids);
      }
      TakeAll(neighbors);
    }

    /** `NextNode` (route_planner.cpp:61-68): sort, take the last. */
    method NextNode() returns (node: Node)
      requires Valid() && openList != []
      modifies this`openList
      ensures Valid() && Member(model.nodes, node)
      ensures Pops(View(model.nodes), old(Indices(openList)), node.index, Indices(openList))
    {
      var sorted := SortByCompare(openList, model.nodes);
      var n := |sorted| - 1;
      LastIndex(sorted);
      node := sorted[n];
      openList := sorted[..n];
    }

    /** `ConstructFinalPath` (route_planner.cpp:79-95), walking a given chain of parents; path nodes are
        recorded by number. */
    method ConstructFinalPath(last: Node, ghost chain: seq<nat>) returns (pathFound: seq<nat>)
      requires model.NodesOk() && Member(model.nodes, last) && Member(model.nodes, startNode)
      requires ParentChain(Pb(), View(model.nodes), chain) && chain[|chain| - 1] == last.index
      modifies this`distance
      ensures pathFound == chain
      ensures distance == model.metricScale * last.gValue
    {
      distance, pathFound := 0.0, [];
      var node: Node := last;
      ghost var k := |chain| - 1;
      while node.parent != null
        invariant 0 <= k < |chain| && pathFound == chain[k + 1..]
        invariant Member(model.nodes, node) && node.index == chain[k]
        invariant distance == last.gValue - node.gValue
        decreases k
      {
        ChainUp(Pb(), model.nodes, chain, node, k);
        pathFound := [node.index] + pathFound;
        distance := distance + model.net.dist(node.index, node.parent.index);
        node := node.parent;
        k := k - 1;
      }
      ChainTop(Pb(), model.nodes, chain, node, k);
      pathFound := [startNode.index] + pathFound;
      distance := distance * model.metricScale;
    }

    ghost function Snapshot(current: Node): Config
      reads this, model.nodes
    {
      Config(View(model.nodes), Indices(openList), current.index)
    }

    /** One turn of the loop (route_planner.cpp:112-113). `NextNode` reads the back of the open list unguarded;
        an empty list is reported as null here. */
    method Round(current: Node) returns (next: Node?)
      requires Valid() && Member(model.nodes, current)
      requires current.index !in Children(Pb(), View(model.nodes), current.index)
      modifies this`openList, model`nodeToRoad, model.nodes
      ensures Valid()
      ensures next == null <==> Queued(Pb(), old(Snapshot(current))) == []
      ensures next != null ==> Member(model.nodes, next) && Step(Pb(), old(Snapshot(current)), Snapshot(next))
    {
      ghost var before := Snapshot(current);
      AddNeighbors(current);
      assert Indices(openList) == Queued(Pb(), before);
      if openList == [] {
        next := null;
      } else {
        next := NextNode();
        assert Step(Pb(), before, Snapshot(next));
      }
    }

    /** The start is marked visited before the loop (route_planner.cpp:110). */
    method MarkStart() returns (ghost trace: Trace)
      requires Valid() && Sound(Pb()) && openList == []
      requires forall i :: 0 <= i < |model.nodes| ==> Blank(model.nodes[i].State(), false)
      modifies startNode
      ensures Valid() && trace.Last() == Snapshot(startNode) && Searching(Pb(), trace)
    {
      startNode.visited := true;
      ghost var view := View(model.nodes);
      assert forall v: nat :: v < |view| ==> view[v] == model.nodes[v].State();
      trace := RunBegins(Pb(), Snapshot(startNode));
    }

    /** Storing the path found (route_planner.cpp:115). */
    method Finish(current: Node, ghost run: seq<Config>)
      requires Valid() && Member(model.nodes, current) && Sound(Pb())
      requires Run(Pb(), run) && run[|run| - 1] == Snapshot(current)
      modifies this`distance, this`path
      ensures path == FinalPath(Pb(), run)
      ensures distance == model.metricScale * FinalLength(Pb(), run)
    {
      ghost var last := run[|run| - 1];
      RunInv(Pb(), run, |run| - 1);
      PathIsChain(Pb(), last.nodes, last.cur);
      assert last.nodes[last.cur] == current.State();
      path := ConstructFinalPath(current, PathTo(Pb(), last.nodes, last.cur));
    }

    /** A turn of the loop, added to the run so far. */
    method Turn(current: Node, ghost trace: Trace) returns (next: Node?, ghost trace': Trace)
      requires Valid() && Member(model.nodes, current) && Sound(Pb())
      requires Searching(Pb(), trace) && trace.Last() == Snapshot(current)
      modifies this`openList, model`nodeToRoad, model.nodes
      ensures Valid() && (next != null ==> Member(model.nodes, next) && trace'.Last() == Snapshot(next))
      ensures next != null ==> Extends(Pb(), trace, trace')
      ensures next == null ==> trace' == trace && Queued(Pb(), trace.Last()) == []
    {
      NotOwnKid(Pb(), trace);
      next := Round(current);
      trace' := trace;
      if next != null {
        trace' := RunExtends(Pb(), trace, Snapshot(next));
      }
    }

    /** Marking the start and the loop of `AStarSearch` (route_planner.cpp:110-118), up to the node it stops at. */
    method SearchLoop() returns (last: Node?, ghost trace: Trace)
      requires Valid() && Sound(Pb()) && openList == []
      requires forall i :: 0 <= i < |model.nodes| ==> Blank(model.nodes[i].State(), false)
      modifies this`openList, model`nodeToRoad, model.nodes
      ensures Valid() && Run(Pb(), trace.run)
      ensures last != null ==> Member(model.nodes, last) && trace.Last() == Snapshot(last) && FoundBy(Pb(), trace.run)
      ensures last == null ==> ExhaustedBy(Pb(), trace.run)
    {
      trace := MarkStart();
      var current: Node := startNode;
      while true
        invariant Valid() && Member(model.nodes, current) && trace.Last() == Snapshot(current)
        invariant Searching(Pb(), trace)
        decreases trace.unvisited, trace.weight
      {
        last, trace := Turn(current, trace);
        if last == null {
          return;
        }
        current := last;
        if model.net.dist(current.index, endNode.index) == 0.0 {
          return;
        }
      }
    }

    /** `AStarSearch` (route_planner.cpp:105-121), with the run it makes: it succeeds only for a reachable target,
        whenever a sure trail leads to one, and so exactly when one is reachable where coinciding nodes are harmless. */
    method AStarSearch() returns (found: bool, ghost run: seq<Config>)
      requires Valid() && Sound(Pb()) && openList == []
      requires forall i :: 0 <= i < |model.nodes| ==> Blank(model.nodes[i].State(), false)
      modifies this, model`nodeToRoad, model.nodes
      ensures Valid() && Run(Pb(), run)
      ensures found ==> FoundBy(Pb(), run) && path == FinalPath(Pb(), run)
      ensures found ==> distance == model.metricScale * FinalLength(Pb(), run)
      ensures !found ==> ExhaustedBy(Pb(), run)
      ensures found ==> TargetReachable(Pb())
      ensures Routable(Pb()) ==> found
      ensures Harmless(Pb()) ==> (found <==> TargetReachable(Pb()))
    {
      var last;
      ghost var trace;
      last, trace := SearchLoop();
      found, run := last != null, trace.run;
      SearchDecides(Pb(), run);
      if found {
        Finish(last, run);
      }
    }
  }

  /** A run that goes on. */
  ghost predicate Searching(pb: Problem, trace: Trace)
    requires WellFormed(pb.net)
  {
    Run(pb, trace.run) && Continues(pb, trace.Last()) && Measures(pb, trace.Last(), trace.unvisited, trace.weight)
  }

  /** One round more, and nearer to the end. */
  ghost predicate Extends(pb: Problem, trace: Trace, trace': Trace)
    requires WellFormed(pb.net)
  {
    && trace'.run == trace.run + [trace'.Last()] && trace'.Last().cur != pb.start
    && Run(pb, trace'.run)
    && Measures(pb, trace'.Last(), trace'.unvisited, trace'.weight)
    && (trace'.unvisited < trace.unvisited || (trace'.unvisited == trace.unvisited && trace'.weight < trace.weight))
  }

  lemma RunBegins(pb: Problem, c: Config) returns (trace: Trace)
    requires Sound(pb) && Start(pb, c)
    ensures trace.Last() == c && Searching(pb, trace)
  {
    StartInv(pb, c);
    trace := Trace([c], Unvisited(c.nodes), PendingWeight(pb, c));
  }

  lemma RunExtends(pb: Problem, trace: Trace, c: Config) returns (trace': Trace)
    requires Sound(pb) && Searching(pb, trace) && Step(pb, trace.Last(), c)
    ensures trace'.Last() == c && Extends(pb, trace, trace')
  {
    var run := RunGoesOn(pb, trace.run, c);
    var unvisited, weight := MeasureDrops(pb, trace.Last(), c, trace.unvisited, trace.weight);
    StepInv(pb, trace.Last(), c);
    trace' := Trace(run, unvisited, weight);
  }

  lemma NotOwnKid(pb: Problem, trace: Trace)
    requires Sound(pb) && Searching(pb, trace)
    ensures var c := trace.Last();
            c.cur < |c.nodes| && c.cur !in Children(pb, c.nodes, c.cur)
  {
    var c := trace.Last();
    if c.cur in Children(pb, c.nodes, c.cur) {
      KidsFresh(pb, c.nodes, c.cur, c.cur);
    }
  }

  lemma LastIndex(sorted: seq<Node>)
    requires sorted != []
    ensures Indices(sorted) == Indices(sorted[..|sorted| - 1]) + [sorted[|sorted| - 1].index]
  {
  }

  /** The `k`-th node of the chain was reached from the one before it. */
  ghost predicate HangsAt(pb: Problem, nodes: seq<NodeState>, chain: seq<nat>, k: nat)
    requires 0 < k < |chain|
  {
    var p, c := chain[k - 1], chain[k];
    && p < |nodes| && c < |nodes|
    && nodes[c].parent == Some(p) && nodes[c].g == nodes[p].g + pb.net.dist(c, p)
  }

  /** A chain of parents from the start downwards. */
  ghost predicate ParentChain(pb: Problem, nodes: seq<NodeState>, chain: seq<nat>) {
    && |chain| > 0 && chain[0] == pb.start && pb.start < |nodes|
    && nodes[pb.start].parent == None && nodes[pb.start].g == 0.0
    && forall k :: 0 < k < |chain| ==> HangsAt(pb, nodes, chain, k)
  }

  lemma ChainUp(pb: Problem, nodes: seq<Node>, chain: seq<nat>, node: Node, k: nat)
    requires Numbered(nodes) && ParentChain(pb, View(nodes), chain)
    requires Member(nodes, node) && PointsInto(nodes, node) && node.parent != null
    requires k < |chain| && chain[k] == node.index
    ensures k > 0 && Member(nodes, node.parent) && node.parent.index == chain[k - 1]
    ensures node.gValue == node.parent.gValue + pb.net.dist(node.index, node.parent.index)
  {
    var view := View(nodes);
    assert view[node.index] == node.State() && view[node.parent.index] == node.parent.State();
    assert k > 0 ==> HangsAt(pb, view, chain, k);
  }

  lemma ChainTop(pb: Problem, nodes: seq<Node>, chain: seq<nat>, node: Node, k: nat)
    requires Numbered(nodes) && ParentChain(pb, View(nodes), chain)
    requires Member(nodes, node) && k < |chain| && chain[k] == node.index && node.parent == null
    ensures k == 0 && node.index == pb.start && node.gValue == 0.0
  {
    assert View(nodes)[node.index] == node.State();
    assert k > 0 ==> HangsAt(pb, View(nodes), chain, k);
  }

  /** The tree path is such a chain. */
  lemma {:induction false} PathIsChain(pb: Problem, nodes: seq<NodeState>, v: nat)
    requires Sound(pb) && Tree(pb, nodes) && v < |nodes| && nodes[v].visited
    ensures ParentChain(pb, nodes, PathTo(pb, nodes, v))
    decreases Below(nodes, nodes[v].g)
  {
    if v != pb.start {
      ParentIsChild(pb, nodes, v);
      ParentBelow(pb, nodes, v);
      var p := nodes[v].parent.value;
      PathIsChain(pb, nodes, p);
      assert Lengths(pb.net, v, p);
      var init, chain := PathTo(pb, nodes, p), PathTo(pb, nodes, v);
      forall k | 0 < k < |chain| ensures HangsAt(pb, nodes, chain, k) {
        if k < |init| {
          assert HangsAt(pb, nodes, init, k);
        }
      }
    }
  }

  /** `compare` (route_planner.cpp:56-59). */
  predicate Compare(a: Node, b: Node)
    reads a, b
  {
    a.hValue + a.gValue > b.hValue + b.gValue
  }

  /** A sort by `Compare`, in place of the library's: where it inserts among equal sums is of no consequence. */
  method SortByCompare(open: seq<Node>, nodes: seq<Node>) returns (sorted: seq<Node>)
    requires Numbered(nodes) && AllMembers(nodes, open)
    ensures AllMembers(nodes, sorted) && |sorted| == |open|
    ensures multiset(Indices(sorted)) == multiset(Indices(open))
    ensures Descending(View(nodes), Indices(sorted))
  {
    sorted := [];
    for i := 0 to |open|
      invariant AllMembers(nodes, sorted) && |sorted| == i
      invariant multiset(Indices(sorted)) == multiset(Indices(open[..i]))
      invariant Descending(View(nodes), Indices(sorted))
    {
      IndicesSnoc(open, i);
      sorted := Insert(sorted, open[i], nodes);
    }
    TakeAll(open);
  }

  lemma InsertKeeps(xs: seq<Node>, n: Node, k: nat, nodes: seq<Node>)
    requires AllMembers(nodes, xs) && Member(nodes, n) && Descending(View(nodes), Indices(xs)) && k <= |xs|
    requires forall j :: 0 <= j < k ==> !Compare(n, xs[j])
    requires k < |xs| ==> Compare(n, xs[k])
    ensures multiset(Indices(xs[..k] + [n] + xs[k..])) == multiset(Indices(xs)) + multiset{n.index}
    ensures Descending(View(nodes), Indices(xs[..k] + [n] + xs[k..]))
  {
    var view, a, b := View(nodes), Indices(xs[..k]), Indices(xs[k..]);
    IndicesInsert(xs, n, k);
    AddedBetween(a, n.index, b);
    forall j | 0 <= j < |a| ensures a[j] < |view| && F(view, a[j]) >= F(view, n.index) {
      assert Member(nodes, xs[j]) && !Compare(n, xs[j]);
    }
    DescendingInsert(view, a, n.index, b);
  }

  method Insert(xs: seq<Node>, n: Node, nodes: seq<Node>) returns (ys: seq<Node>)
    requires AllMembers(nodes, xs) && Member(nodes, n) && Descending(View(nodes), Indices(xs))
    ensures AllMembers(nodes, ys) && |ys| == |xs| + 1
    ensures multiset(Indices(ys)) == multiset(Indices(xs)) + multiset{n.index}
    ensures Descending(View(nodes), Indices(ys))
  {
    var k := 0;
    while k < |xs| && !Compare(n, xs[k])
      invariant k <= |xs| && forall j :: 0 <= j < k ==> !Compare(n, xs[j])
    {
      k := k + 1;
    }
    ys := xs[..k] + [n] + xs[k..];
    InsertKeeps(xs, n, k, nodes);
  }
}
