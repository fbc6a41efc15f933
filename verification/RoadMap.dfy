/** Nodes, ways and roads, with exact distances between nodes. */
module RoadMap {
  import opened Options

  datatype RoadType = Invalid | Unclassified | Service | Residential | Tertiary
                    | Secondary | Primary | Trunk | Motorway | Footway

  datatype Road = Road(way: nat, kind: RoadType)

  /** Nodes are numbered below `size`; ways list node numbers; `dist` is the straight-line distance. */
  datatype Network = Network(size: nat, ways: seq<seq<nat>>, roads: seq<Road>, dist: (nat, nat) -> real)

  predicate Drivable(net: Network, r: nat) {
    r < |net.roads| && net.roads[r].kind != Footway
  }

  /** Roads name existing ways and ways name existing nodes. */
  ghost predicate WellFormed(net: Network) {
    && (forall r :: 0 <= r < |net.roads| ==> net.roads[r].way < |net.ways|)
    && (forall w, k :: 0 <= w < |net.ways| && 0 <= k < |net.ways[w]| ==> net.ways[w][k] < net.size)
  }

  /** The nodes along a road. */
  function WayOf(net: Network, r: nat): (way: seq<nat>)
    requires WellFormed(net) && r < |net.roads|
    ensures forall v :: v in way ==> v < net.size
  {
    net.ways[net.roads[r].way]
  }

  ghost predicate Lengths(net: Network, a: nat, b: nat) {
    net.dist(a, b) >= 0.0 && net.dist(a, b) == net.dist(b, a) && net.dist(a, a) == 0.0
  }

  ghost predicate NoDetourShorter(net: Network, a: nat, b: nat, c: nat) {
    net.dist(a, c) <= net.dist(a, b) + net.dist(b, c)
  }

  /** A distance in which different nodes may still lie on the same spot. */
  ghost predicate Distances(net: Network) {
    && (forall a: nat, b: nat :: a < net.size && b < net.size ==> Lengths(net, a, b))
    && (forall a: nat, b: nat, c: nat :: a < net.size && b < net.size && c < net.size ==> NoDetourShorter(net, a, b, c))
  }

  /** The road is drivable and passes through the node. */
  ghost predicate OnRoad(net: Network, r: nat, v: nat)
    requires WellFormed(net)
  {
    Drivable(net, r) && v in WayOf(net, r)
  }

  /** Some drivable road passes through both nodes. */
  ghost predicate Shares(net: Network, a: nat, b: nat)
    requires WellFormed(net)
  {
    exists r: nat :: OnRoad(net, r, a) && OnRoad(net, r, b)
  }

  /** The way lists `w` before it first lists `b`. */
  ghost predicate Precedes(way: seq<nat>, w: nat, b: nat) {
    exists k :: 0 <= k < |way| && way[k] == w && forall j :: 0 <= j <= k ==> way[j] != b
  }

  /** Consecutive nodes share a drivable road. */
  ghost predicate Trail(net: Network, path: seq<nat>)
    requires WellFormed(net)
  {
    forall k :: 0 <= k < |path| - 1 ==> Shares(net, path[k], path[k + 1])
  }

  /** A chain of drivable roads leads from `a` to `b`. */
  ghost predicate Connected(net: Network, a: nat, b: nat)
    requires WellFormed(net)
  {
    exists path :: |path| > 0 && path[0] == a && path[|path| - 1] == b && Trail(net, path)
  }

  // ----- which roads pass through a node -----

  function Occurrences(way: seq<nat>, v: nat): nat {
    if way == [] then 0
    else Occurrences(way[..|way| - 1], v) + if way[|way| - 1] == v then 1 else 0
  }

  function Repeat(r: nat, n: nat): (s: seq<nat>)
    ensures |s| == n && forall k :: 0 <= k < n ==> s[k] == r
  {
    seq(n, _ => r)
  }

  /** Among the first `k` roads, the drivable ones through `v`, in order, once per occurrence of `v`. */
  function RoadsThrough(net: Network, v: nat, k: nat): seq<nat>
    requires WellFormed(net) && k <= |net.roads|
  {
    if k == 0 then []
    else RoadsThrough(net, v, k - 1) +
         if Drivable(net, k - 1) then Repeat(k - 1, Occurrences(WayOf(net, k - 1), v)) else []
  }

  function NodeRoads(net: Network, v: nat): seq<nat>
    requires WellFormed(net)
  {
    RoadsThrough(net, v, |net.roads|)
  }

  lemma {:induction false} OccurrencesMeans(way: seq<nat>, v: nat)
    ensures Occurrences(way, v) > 0 <==> v in way
    ensures Occurrences(way, v) == multiset(way)[v]
    decreases |way|
  {
    if way != [] {
      var n := |way| - 1;
      OccurrencesMeans(way[..n], v);
      assert way == way[..n] + [way[n]];
    }
  }

  lemma {:induction false} OccurrencesAppend(a: seq<nat>, b: seq<nat>, x: nat)
    ensures Occurrences(a + b, x) == Occurrences(a, x) + Occurrences(b, x)
    decreases |b|
  {
    if b == [] {
      assert a + b == a;
    } else {
      var m := |b| - 1;
      assert (a + b)[..|a + b| - 1] == a + b[..m];
      OccurrencesAppend(a, b[..m], x);
    }
  }

  lemma {:induction false} OccurrencesRepeat(r: nat, n: nat, x: nat)
    ensures Occurrences(Repeat(r, n), x) == if x == r then n else 0
    decreases n
  {
    if n > 0 {
      OccurrencesRepeat(r, n - 1, x);
      assert Repeat(r, n)[..n - 1] == Repeat(r, n - 1);
    }
  }

  /** Roads are listed in road order. */
  lemma {:induction false} RoadsOrdered(net: Network, v: nat, k: nat)
    requires WellFormed(net) && k <= |net.roads|
    ensures forall i :: 0 <= i < |RoadsThrough(net, v, k)| ==> RoadsThrough(net, v, k)[i] < k
    ensures forall i, j :: 0 <= i < j < |RoadsThrough(net, v, k)| ==>
            RoadsThrough(net, v, k)[i] <= RoadsThrough(net, v, k)[j]
    decreases k
  {
    if k > 0 {
      RoadsOrdered(net, v, k - 1);
    }
  }

  /** Each drivable road is listed as often as it lists the node, and no other road is. */
  lemma {:induction false} RoadsCounted(net: Network, v: nat, k: nat, r: nat)
    requires WellFormed(net) && k <= |net.roads|
    ensures Occurrences(RoadsThrough(net, v, k), r) ==
            if r < k && Drivable(net, r) then Occurrences(WayOf(net, r), v) else 0
    decreases k
  {
    if k > 0 {
      RoadsCounted(net, v, k - 1, r);
      var before, n := RoadsThrough(net, v, k - 1), Occurrences(WayOf(net, k - 1), v);
      if Drivable(net, k - 1) {
        OccurrencesAppend(before, Repeat(k - 1, n), r);
        OccurrencesRepeat(k - 1, n, r);
      } else {
        assert RoadsThrough(net, v, k) == before;
      }
    }
  }

  lemma NodeRoadsMembers(net: Network, v: nat)
    requires WellFormed(net)
    ensures forall r :: r in NodeRoads(net, v) <==> OnRoad(net, r, v)
  {
    forall r: nat ensures r in NodeRoads(net, v) <==> OnRoad(net, r, v) {
      RoadsCounted(net, v, |net.roads|, r);
      OccurrencesMeans(NodeRoads(net, v), r);
      if Drivable(net, r) {
        OccurrencesMeans(WayOf(net, r), v);
      }
    }
  }

  /** The entry of a node, counted on the tables themselves. */
  lemma IndexCounts(net: Network, v: nat, r: nat)
    requires WellFormed(net)
    ensures multiset(NodeRoads(net, v))[r] ==
            if r < |net.roads| && net.roads[r].kind != Footway then multiset(net.ways[net.roads[r].way])[v] else 0
  {
    RoadsCounted(net, v, |net.roads|, r);
    OccurrencesMeans(NodeRoads(net, v), r);
    if Drivable(net, r) {
      OccurrencesMeans(WayOf(net, r), v);
    }
  }

  // ----- the node closest to a point -----

  /** The nodes of the first `k` roads that are drivable, in scan order. */
  function DrivableNodes(net: Network, k: nat): seq<nat>
    requires WellFormed(net) && k <= |net.roads|
  {
    if k == 0 then []
    else DrivableNodes(net, k - 1) + if Drivable(net, k - 1) then WayOf(net, k - 1) else []
  }

  /** The running minimum of a scan: strictly nearer nodes replace the candidate. */
  function Closest(nodes: seq<nat>, far: nat -> real): Option<nat> {
    if nodes == [] then None
    else
      var best, v := Closest(nodes[..|nodes| - 1], far), nodes[|nodes| - 1];
      if best.None? || far(v) < far(best.value) then Some(v) else best
  }

  /** Position `k` holds the first of the nodes at the smallest distance. */
  ghost predicate FirstLeast(nodes: seq<nat>, far: nat -> real, k: nat) {
    && k < |nodes|
    && (forall j :: 0 <= j < |nodes| ==> far(nodes[k]) <= far(nodes[j]))
    && (forall j :: 0 <= j < k ==> far(nodes[k]) < far(nodes[j]))
  }

  lemma {:induction false} ClosestMeans(nodes: seq<nat>, far: nat -> real) returns (k: nat)
    requires nodes != []
    ensures FirstLeast(nodes, far, k) && Closest(nodes, far) == Some(nodes[k])
    decreases |nodes|
  {
    var n := |nodes| - 1;
    k := n;
    if n > 0 {
      var init := nodes[..n];
      var m := ClosestMeans(init, far);
      assert forall j :: 0 <= j < n ==> nodes[j] == init[j];
      if far(nodes[n]) >= far(init[m]) {
        k := m;
      }
    }
  }

  /** The scanned nodes are exactly those a drivable road passes through. */
  lemma {:induction false} DrivableNodesMeans(net: Network, k: nat, v: nat)
    requires WellFormed(net) && k <= |net.roads|
    ensures v in DrivableNodes(net, k) <==> exists r: nat :: r < k && OnRoad(net, r, v)
    decreases k
  {
    if k > 0 {
      DrivableNodesMeans(net, k - 1, v);
      if Drivable(net, k - 1) && v in WayOf(net, k - 1) {
        assert OnRoad(net, k - 1, v);
      }
    }
  }

  /** Road `r` is no footway and has a `k`-th node. */
  predicate HasNode(net: Network, r: nat, k: nat) {
    && r < |net.roads| && net.roads[r].kind != Footway
    && net.roads[r].way < |net.ways| && k < |net.ways[net.roads[r].way]|
  }

  function NodeAt(net: Network, r: nat, k: nat): nat
    requires HasNode(net, r, k)
  {
    net.ways[net.roads[r].way][k]
  }

  /** No node of a drivable road is nearer than this one, and those before it are strictly farther. */
  ghost predicate FirstClosest(net: Network, far: nat -> real, r: nat, k: nat)
    requires HasNode(net, r, k)
  {
    && (forall q: nat, j: nat :: HasNode(net, q, j) ==> far(NodeAt(net, r, k)) <= far(NodeAt(net, q, j)))
    && (forall q: nat, j: nat :: HasNode(net, q, j) && (q < r || (q == r && j < k)) ==>
          far(NodeAt(net, r, k)) < far(NodeAt(net, q, j)))
  }

  /** Where the scan meets a node. */
  lemma {:induction false} ScanPosition(net: Network, n: nat, r: nat, k: nat)
    requires WellFormed(net) && n <= |net.roads| && r < n && HasNode(net, r, k)
    ensures |DrivableNodes(net, r)| + k < |DrivableNodes(net, n)|
    ensures DrivableNodes(net, n)[|DrivableNodes(net, r)| + k] == NodeAt(net, r, k)
    decreases n
  {
    if r < n - 1 {
      ScanPosition(net, n - 1, r, k);
    }
  }

  lemma {:induction false} ScanRoad(net: Network, n: nat, p: nat) returns (r: nat, k: nat)
    requires WellFormed(net) && n <= |net.roads| && p < |DrivableNodes(net, n)|
    ensures r < n && HasNode(net, r, k) && p == |DrivableNodes(net, r)| + k
    decreases n
  {
    var before := |DrivableNodes(net, n - 1)|;
    if p < before {
      r, k := ScanRoad(net, n - 1, p);
    } else {
      r, k := n - 1, p - before;
    }
  }

  /** The node the scan keeps is the first closest one, by road and then by position. */
  lemma ClosestOnRoads(net: Network, far: nat -> real) returns (r: nat, k: nat)
    requires WellFormed(net) && Closest(DrivableNodes(net, |net.roads|), far).Some?
    ensures HasNode(net, r, k) && Closest(DrivableNodes(net, |net.roads|), far) == Some(NodeAt(net, r, k))
    ensures FirstClosest(net, far, r, k)
  {
    var n := |net.roads|;
    var nodes := DrivableNodes(net, n);
    var p := ClosestMeans(nodes, far);
    r, k := ScanRoad(net, n, p);
    ScanPosition(net, n, r, k);
    forall q: nat, j: nat | HasNode(net, q, j)
      ensures far(NodeAt(net, r, k)) <= far(NodeAt(net, q, j))
      ensures q < r || (q == r && j < k) ==> far(NodeAt(net, r, k)) < far(NodeAt(net, q, j))
    {
      ScanPosition(net, n, q, j);
      if q < r {
        ScanPosition(net, r, q, j);
      }
    }
  }

  lemma NothingOnRoads(net: Network, far: nat -> real)
    requires WellFormed(net) && Closest(DrivableNodes(net, |net.roads|), far).None?
    ensures forall r: nat, k: nat :: !HasNode(net, r, k)
  {
    if r: nat, k: nat :| HasNode(net, r, k) {
      ScanPosition(net, |net.roads|, r, k);
      var p := ClosestMeans(DrivableNodes(net, |net.roads|), far);
    }
  }
}
