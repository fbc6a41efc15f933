/** What a finished run says about the road map. */
module SearchResults {
  import opened Options
  import opened RoadMap
  import opened SearchSpec
  import opened SearchTree
  import opened SearchRuns
  import opened Plane

  /** The run stopped at a node at distance zero from the goal. */
  ghost predicate FoundBy(pb: Problem, run: seq<Config>)
    requires Sound(pb) && Run(pb, run)
  {
    !Continues(pb, run[|run| - 1])
  }

  /** The run has nothing left to pop. */
  ghost predicate ExhaustedBy(pb: Problem, run: seq<Config>)
    requires Sound(pb) && Run(pb, run)
  {
    RunInv(pb, run, |run| - 1);
    Continues(pb, run[|run| - 1]) && Queued(pb, run[|run| - 1]) == []
  }

  /** The chain of parents of the last node in hand. */
  ghost function FinalPath(pb: Problem, run: seq<Config>): seq<nat>
    requires Sound(pb) && Run(pb, run)
  {
    RunInv(pb, run, |run| - 1);
    PathTo(pb, run[|run| - 1].nodes, run[|run| - 1].cur)
  }

  ghost function FinalLength(pb: Problem, run: seq<Config>): real
    requires Sound(pb) && Run(pb, run)
  {
    RunInv(pb, run, |run| - 1);
    run[|run| - 1].nodes[run[|run| - 1].cur].g
  }

  /** The search stops only at a reachable target and runs out only if no sure trail leads to one; where coinciding
      nodes are harmless that means exactly when no target is reachable. */
  lemma SearchDecides(pb: Problem, run: seq<Config>)
    requires Sound(pb) && Run(pb, run)
    ensures FoundBy(pb, run) ==> TargetReachable(pb)
    ensures ExhaustedBy(pb, run) ==> !Routable(pb) && !FoundBy(pb, run)
    ensures ExhaustedBy(pb, run) && Harmless(pb) ==> !TargetReachable(pb)
  {
    var c := run[|run| - 1];
    RunInv(pb, run, |run| - 1);
    if FoundBy(pb, run) {
      HitMeansReachable(pb, c);
    }
    if ExhaustedBy(pb, run) {
      RunRoads(pb, run, |run| - 1);
      EmptyMeansNoRoute(pb, c);
      if Harmless(pb) && TargetReachable(pb) {
        HarmlessRoutable(pb);
      }
    }
  }

  /** While some sure trail leads to a target the search never pops from an empty open list. */
  lemma NeverPopsEmpty(pb: Problem, run: seq<Config>)
    requires Sound(pb) && Routable(pb) && Run(pb, run)
    ensures var c := run[|run| - 1];
            c.cur < |c.nodes| && (Continues(pb, c) ==> Queued(pb, c) != [])
  {
    RunInv(pb, run, |run| - 1);
    SearchDecides(pb, run);
    assert !ExhaustedBy(pb, run);
  }

  /** Started at its own goal the search never reports success, unless another node lies on the same spot. */
  lemma StartIsNeverFound(pb: Problem, run: seq<Config>)
    requires Sound(pb) && Run(pb, run) && pb.start == pb.goal
    requires forall t: nat :: t < pb.net.size && Hits(pb, t) ==> t == pb.start
    ensures !FoundBy(pb, run)
  {
    SearchDecides(pb, run);
  }

  /** The path reported leads from the start to the goal's spot along drivable roads without visiting a node
      twice; its length is the g value reported, at least the straight line. */
  lemma FinalPathFacts(pb: Problem, run: seq<Config>)
    requires Sound(pb) && Run(pb, run) && FoundBy(pb, run)
    ensures var path := FinalPath(pb, run);
            && |path| >= 2 && path[0] == pb.start && Hits(pb, path[|path| - 1])
            && (forall j, k :: 0 <= j < k < |path| ==> path[j] != path[k])
            && Trail(pb.net, path)
            && Length(pb.net, path) == FinalLength(pb, run)
    ensures FinalLength(pb, run) >= pb.net.dist(pb.start, pb.goal)
  {
    var c := run[|run| - 1];
    RunInv(pb, run, |run| - 1);
    PathProperties(pb, c.nodes, c.cur);
    NoShortcut(pb, c.nodes, c.cur);
    assert NoDetourShorter(pb.net, pb.start, c.cur, pb.goal);
  }

  // ----- for which roads the goal is found wherever the nodes lie -----

  /** The search problem on these roads with nodes laid out in some way that keeps start and goal apart. */
  ghost predicate LaidOut(net: Network, start: nat, goal: nat, pb: Problem) {
    && pb.net == net.(dist := pb.net.dist) && pb.start == start && pb.goal == goal
    && Sound(pb) && !Hits(pb, start)
  }

  /** However the nodes are laid out and equal sums are ordered, no search runs out. */
  ghost predicate AlwaysFound(net: Network, start: nat, goal: nat) {
    forall pb, run :: LaidOut(net, start, goal, pb) && Run(pb, run) ==> !ExhaustedBy(pb, run)
  }

  /** The same for layouts in the plane only. */
  ghost predicate FoundInPlane(net: Network, start: nat, goal: nat) {
    forall pb, run :: LaidOut(net, start, goal, pb) && Planar(pb.net) && Run(pb, run) ==> !ExhaustedBy(pb, run)
  }

  lemma LaidOutSame(net: Network, start: nat, goal: nat, pb: Problem)
    requires WellFormed(net) && LaidOut(net, start, goal, pb)
    ensures forall r: nat, v :: OnRoad(pb.net, r, v) == OnRoad(net, r, v)
    ensures Shares(pb.net, start, goal) == Shares(net, start, goal)
    ensures Connected(net, start, goal) ==> Connected(pb.net, start, goal)
  {
    if Shares(pb.net, start, goal) {
      var r: nat :| OnRoad(pb.net, r, start) && OnRoad(pb.net, r, goal);
      assert OnRoad(net, r, start) && OnRoad(net, r, goal);
    }
    if Shares(net, start, goal) {
      var r: nat :| OnRoad(net, r, start) && OnRoad(net, r, goal);
      assert OnRoad(pb.net, r, start) && OnRoad(pb.net, r, goal);
    }
    if Connected(net, start, goal) {
      var path :| |path| > 0 && path[0] == start && path[|path| - 1] == goal && Trail(net, path);
      forall k | 0 <= k < |path| - 1 ensures Shares(pb.net, path[k], path[k + 1]) {
        assert Shares(net, path[k], path[k + 1]);
        var r: nat :| OnRoad(net, r, path[k]) && OnRoad(net, r, path[k + 1]);
        assert OnRoad(pb.net, r, path[k]) && OnRoad(pb.net, r, path[k + 1]);
      }
      assert Trail(pb.net, path);
    }
  }

  /** One road from start to goal is enough, wherever the nodes lie. */
  lemma SharedRoadFound(pb: Problem, run: seq<Config>)
    requires Sound(pb) && !Hits(pb, pb.start) && Shares(pb.net, pb.start, pb.goal) && Run(pb, run)
    ensures !ExhaustedBy(pb, run)
  {
    var r: nat :| OnRoad(pb.net, r, pb.start) && OnRoad(pb.net, r, pb.goal);
    assert Lengths(pb.net, pb.goal, pb.goal);
    assert Hits(pb, pb.goal) && !OneSpot(pb.net, r, pb.goal);
    var b := FirstOnSpot(pb, r, pb.goal);
    var path := [pb.start, b];
    assert SureStep(pb, path[0], path[1]);
    assert SureTrail(pb, path);
    SearchDecides(pb, run);
  }

  /** The layout that puts all nodes but the goal on one spot. */
  function Heaped(net: Network, start: nat, goal: nat): Problem {
    Problem(net.(dist := (a: nat, b: nat) => if (a == goal) == (b == goal) then 0.0 else 1.0), start, goal)
  }

  lemma HeapedLaidOut(net: Network, start: nat, goal: nat)
    requires WellFormed(net) && start < net.size && goal < net.size && start != goal
    ensures LaidOut(net, start, goal, Heaped(net, start, goal)) && Planar(Heaped(net, start, goal).net)
  {
    assert WellFormed(Heaped(net, start, goal).net);
    assert Placed(Heaped(net, start, goal).net, v => if v == goal then 1.0 else 0.0, v => 0.0);
  }

  /** In it nothing is ever offered to a start that shares no road with the goal, connected or not: nodes at
      distance zero are not eligible. */
  lemma HeapedExhausted(net: Network, start: nat, goal: nat, c: Config)
    requires WellFormed(net) && start < net.size && goal < net.size && start != goal
    requires !Shares(net, start, goal) && Start(Heaped(net, start, goal), c)
    ensures LaidOut(net, start, goal, Heaped(net, start, goal)) && Planar(Heaped(net, start, goal).net)
    ensures Run(Heaped(net, start, goal), [c]) && ExhaustedBy(Heaped(net, start, goal), [c])
    ensures Connected(net, start, goal) ==> TargetReachable(Heaped(net, start, goal))
  {
    var pb := Heaped(net, start, goal);
    HeapedLaidOut(net, start, goal);
    LaidOutSame(net, start, goal, pb);
    var found := Found(pb.net, c.nodes, start);
    if found != [] {
      FoundMeans(pb.net, c.nodes, start, found[0]);
    }
    assert Blank(c.nodes[start], true);
    assert Hits(pb, goal);
  }

  /** The goal is found however the nodes are laid out, in the plane or with any distances, if and only if it shares
      a drivable road with the start; a goal connected over more than one road only is lost in some layout of the
      plane, although it can be reached. */
  lemma FoundWhereverLaid(net: Network, start: nat, goal: nat)
    requires WellFormed(net) && start < net.size && goal < net.size && start != goal
    ensures AlwaysFound(net, start, goal) <==> Shares(net, start, goal)
    ensures FoundInPlane(net, start, goal) <==> Shares(net, start, goal)
    ensures Connected(net, start, goal) && !Shares(net, start, goal) ==>
            exists pb, run :: LaidOut(net, start, goal, pb) && Planar(pb.net) && TargetReachable(pb)
                              && Run(pb, run) && ExhaustedBy(pb, run)
  {
    if Shares(net, start, goal) {
      forall pb, run | LaidOut(net, start, goal, pb) && Run(pb, run) ensures !ExhaustedBy(pb, run) {
        LaidOutSame(net, start, goal, pb);
        SharedRoadFound(pb, run);
      }
    } else {
      var pb := Heaped(net, start, goal);
      var c := FirstConfig(pb);
      HeapedExhausted(net, start, goal, c);
    }
  }

  /** A search can always begin. */
  lemma FirstConfig(pb: Problem) returns (c: Config)
    requires pb.start < pb.net.size
    ensures Start(pb, c)
  {
    var nodes := seq(pb.net.size, v => NodeState(None, 0.0, 0.0, v == pb.start, []));
    c := Config(nodes, [], pb.start);
    assert forall v: nat :: v < |c.nodes| ==> Blank(c.nodes[v], v == pb.start);
  }
}
