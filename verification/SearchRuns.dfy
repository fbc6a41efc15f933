/** Whole runs of the route search: safety, completeness and the order of the popped nodes. */
module SearchRuns {
  import opened Options
  import opened RoadMap
  import opened SearchSpec
  import opened SearchTree

  /** The search between two rounds: the open list, duplicates kept, and the node about to be expanded. */
  datatype Config = Config(nodes: seq<NodeState>, open: seq<nat>, cur: nat)

  /** The node the loop tests for: at distance zero from the goal. */
  predicate Hits(pb: Problem, v: nat) {
    pb.net.dist(v, pb.goal) == 0.0
  }

  ghost predicate Blank(n: NodeState, visited: bool) {
    n.parent == None && n.g == 0.0 && n.neighbors == [] && n.visited == visited
  }

  ghost predicate Start(pb: Problem, c: Config) {
    && |c.nodes| == pb.net.size && c.open == [] && c.cur == pb.start
    && forall v: nat :: v < |c.nodes| ==> Blank(c.nodes[v], v == pb.start)
  }

  /** The open list right after expanding `cur`. */
  function Queued(pb: Problem, c: Config): seq<nat>
    requires WellFormed(pb.net) && c.cur < |c.nodes|
  {
    c.open + Children(pb, c.nodes, c.cur)
  }

  /** The loop goes on from here: the start is expanded untested, later nodes only when they miss. */
  predicate Continues(pb: Problem, c: Config) {
    c.cur == pb.start || !Hits(pb, c.cur)
  }

  /** Expand, sort, pop. */
  ghost predicate Step(pb: Problem, c: Config, c': Config)
    requires WellFormed(pb.net)
  {
    && c.cur < |c.nodes|
    && c'.nodes == Expanded(pb, c.nodes, c.cur)
    && Pops(c'.nodes, Queued(pb, c), c'.cur, c'.open)
  }

  /** The loop goes on from the `k`-th configuration and makes the next one. */
  ghost predicate RoundAt(pb: Problem, run: seq<Config>, k: nat)
    requires WellFormed(pb.net) && k + 1 < |run|
  {
    Continues(pb, run[k]) && Step(pb, run[k], run[k + 1])
  }

  ghost predicate Run(pb: Problem, run: seq<Config>)
    requires WellFormed(pb.net)
  {
    |run| > 0 && Start(pb, run[0]) && forall k: nat :: k + 1 < |run| ==> RoundAt(pb, run, k)
  }

  /** A run goes on by one round. */
  lemma RunGoesOn(pb: Problem, run: seq<Config>, c: Config) returns (longer: seq<Config>)
    requires WellFormed(pb.net) && Run(pb, run)
    requires Continues(pb, run[|run| - 1]) && Step(pb, run[|run| - 1], c)
    ensures longer == run + [c] && Run(pb, longer) && longer[0] == run[0] && longer[|longer| - 1] == c
  {
    longer := run + [c];
    forall k: nat | k + 1 < |longer| ensures RoundAt(pb, longer, k) {
      assert k + 1 < |run| ==> RoundAt(pb, run, k);
    }
  }

  // ----- what holds between rounds -----

  ghost predicate Queueable(pb: Problem, nodes: seq<NodeState>, v: nat) {
    v < |nodes| && nodes[v].visited && v != pb.start
  }

  ghost predicate Pending(net: Network, r: nat, pending: multiset<nat>)
    requires WellFormed(net)
  {
    exists v :: v in pending && OnRoad(net, r, v)
  }

  /** A node of the road away from the spot of `b` is pending. */
  ghost predicate PendingOff(net: Network, r: nat, b: nat, pending: multiset<nat>)
    requires WellFormed(net)
  {
    exists v :: v in pending && OnRoad(net, r, v) && net.dist(v, b) != 0.0
  }

  /** All nodes of the road lie on the spot of `b`. */
  ghost predicate OneSpot(net: Network, r: nat, b: nat)
    requires WellFormed(net)
  {
    forall v :: OnRoad(net, r, v) ==> net.dist(v, b) == 0.0
  }

  /** Another node on the spot of `b`, not the start, which the road lists before `b`. */
  ghost predicate ListedFirst(pb: Problem, r: nat, w: nat, b: nat)
    requires WellFormed(pb.net)
  {
    w != pb.start && OnRoad(pb.net, r, w) && pb.net.dist(w, b) == 0.0 && Precedes(WayOf(pb.net, r), w, b)
  }

  /** `b` is visited, or such a node is. */
  ghost predicate Settled(pb: Problem, nodes: seq<NodeState>, r: nat, b: nat)
    requires WellFormed(pb.net)
  {
    exists w: nat :: w < |nodes| && nodes[w].visited && (w == b || ListedFirst(pb, r, w, b))
  }

  /** If the road passes a visited node `a`, its node `b` is settled or the road still has a node pending: one away
      from the spot of `b` when `a` is; otherwise the whole road may be on that one spot. */
  ghost predicate Alive(pb: Problem, nodes: seq<NodeState>, pending: multiset<nat>, r: nat, a: nat, b: nat)
    requires WellFormed(pb.net)
  {
    OnRoad(pb.net, r, a) && OnRoad(pb.net, r, b) && a < |nodes| && nodes[a].visited ==>
      || Settled(pb, nodes, r, b)
      || (if pb.net.dist(a, b) != 0.0 then PendingOff(pb.net, r, b, pending)
          else OneSpot(pb.net, r, b) || Pending(pb.net, r, pending))
  }

  /** Every drivable road with a visited node settles its nodes or goes on. */
  ghost predicate RoadsKept(pb: Problem, nodes: seq<NodeState>, pending: multiset<nat>)
    requires WellFormed(pb.net)
  {
    forall r: nat, a: nat, b: nat :: Alive(pb, nodes, pending, r, a, b)
  }

  /** A visited node the loop would stop at is still pending. */
  ghost predicate TargetsKept(pb: Problem, nodes: seq<NodeState>, pending: multiset<nat>) {
    forall t: nat :: Queueable(pb, nodes, t) && Hits(pb, t) ==> t in pending
  }

  ghost predicate Inv(pb: Problem, c: Config)
    requires WellFormed(pb.net)
  {
    && Tree(pb, c.nodes)
    && c.cur < |c.nodes| && c.nodes[c.cur].visited
    && (forall v :: v in c.open ==> Queueable(pb, c.nodes, v))
    && TargetsKept(pb, c.nodes, multiset(c.open) + multiset{c.cur})
  }

  lemma StartInv(pb: Problem, c: Config)
    requires Sound(pb) && Start(pb, c)
    ensures Inv(pb, c) && RoadsKept(pb, c.nodes, multiset(c.open) + multiset{c.cur})
  {
    assert Blank(c.nodes[pb.start], true);
    forall r: nat, a: nat, b: nat ensures Alive(pb, c.nodes, multiset(c.open) + multiset{c.cur}, r, a, b) {
      if a < |c.nodes| {
        assert Blank(c.nodes[a], a == pb.start);
      }
    }
  }

  /** Everything in the open list after an expansion may be there. */
  lemma QueuedOk(pb: Problem, c: Config, v: nat)
    requires Sound(pb) && Inv(pb, c) && v in Queued(pb, c)
    ensures Queueable(pb, Expanded(pb, c.nodes, c.cur), v)
  {
    if v in Children(pb, c.nodes, c.cur) {
      KidsFresh(pb, c.nodes, c.cur, v);
    } else {
      VisitedStable(pb, c.nodes, c.cur, v);
    }
  }

  /** A child of an expanded node is queued, again if it was queued before. */
  lemma NewIsQueued(pb: Problem, c: Config, v: nat)
    requires Sound(pb) && Inv(pb, c) && v < |c.nodes|
    requires !c.nodes[v].visited && Expanded(pb, c.nodes, c.cur)[v].visited
    ensures v in Queued(pb, c)
  {
    NewlyVisited(pb, c.nodes, c.cur, v);
  }

  lemma ExpandKeepsTargets(pb: Problem, c: Config)
    requires Sound(pb) && Inv(pb, c) && Continues(pb, c)
    ensures TargetsKept(pb, Expanded(pb, c.nodes, c.cur), multiset(Queued(pb, c)))
  {
    var nodes' := Expanded(pb, c.nodes, c.cur);
    forall t: nat | Queueable(pb, nodes', t) && Hits(pb, t) ensures t in multiset(Queued(pb, c)) {
      if c.nodes[t].visited {
        assert Queueable(pb, c.nodes, t);
      } else {
        NewIsQueued(pb, c, t);
      }
      assert t in Queued(pb, c);
    }
  }

  /** A node at which an expanded road could still offer something: it offers a node away from the expanded one,
      which is newly visited, and `v` itself unless an equally near node comes first on the road. */
  lemma OffersOnRoad(pb: Problem, c: Config, r: nat, v: nat) returns (found: nat)
    requires Sound(pb) && Inv(pb, c) && OnRoad(pb.net, r, c.cur) && OnRoad(pb.net, r, v)
    requires Eligible(pb.net, c.nodes, c.cur, v)
    ensures found in Queued(pb, c) && OnRoad(pb.net, r, found) && pb.net.dist(found, c.cur) != 0.0
    ensures found < |c.nodes| && !c.nodes[found].visited && Expanded(pb, c.nodes, c.cur)[found].visited
    ensures found == v || pb.net.dist(found, v) != 0.0 || Precedes(WayOf(pb.net, r), found, v)
  {
    found := FoundOnRoad(pb.net, c.nodes, c.cur, r, v);
    FoundMeans(pb.net, c.nodes, c.cur, found);
    assert found in Children(pb, c.nodes, c.cur);
    NewlyVisited(pb, c.nodes, c.cur, found);
    assert Lengths(pb.net, c.cur, found) && Lengths(pb.net, found, v);
    assert NoDetourShorter(pb.net, c.cur, found, v);
  }

  lemma StaysPending(pb: Problem, c: Config, r: nat)
    requires WellFormed(pb.net) && c.cur < |c.nodes| && !OnRoad(pb.net, r, c.cur)
    requires Pending(pb.net, r, multiset(c.open) + multiset{c.cur})
    ensures Pending(pb.net, r, multiset(Queued(pb, c)))
  {
    var v :| v in multiset(c.open) + multiset{c.cur} && OnRoad(pb.net, r, v);
    QueuedStays(pb, c, v);
  }

  lemma StaysSettled(pb: Problem, c: Config, r: nat, b: nat)
    requires Sound(pb) && Inv(pb, c) && Settled(pb, c.nodes, r, b)
    ensures Settled(pb, Expanded(pb, c.nodes, c.cur), r, b)
  {
    var w: nat :| w < |c.nodes| && c.nodes[w].visited && (w == b || ListedFirst(pb, r, w, b));
    VisitedStable(pb, c.nodes, c.cur, w);
  }

  /** What else was pending stays queued. */
  lemma QueuedStays(pb: Problem, c: Config, v: nat)
    requires WellFormed(pb.net) && c.cur < |c.nodes| && v in multiset(c.open) + multiset{c.cur} && v != c.cur
    ensures v in multiset(Queued(pb, c))
  {
    assert v in c.open;
    assert v in Queued(pb, c);
  }

  /** An unsettled node of an expanded road away from it: the road offers a node off its spot, or settles it. */
  lemma OffersOff(pb: Problem, c: Config, r: nat, b: nat)
    requires Sound(pb) && Inv(pb, c) && !Settled(pb, Expanded(pb, c.nodes, c.cur), r, b)
    requires OnRoad(pb.net, r, c.cur) && OnRoad(pb.net, r, b) && pb.net.dist(c.cur, b) != 0.0
    ensures PendingOff(pb.net, r, b, multiset(Queued(pb, c)))
  {
    UnvisitedBefore(pb, c, b);
    var found := OffersOnRoad(pb, c, r, b);
    assert found in multiset(Queued(pb, c));
  }

  lemma UnvisitedBefore(pb: Problem, c: Config, b: nat)
    requires Sound(pb) && Inv(pb, c) && b < |c.nodes| && !Expanded(pb, c.nodes, c.cur)[b].visited
    ensures !c.nodes[b].visited
  {
    if c.nodes[b].visited {
      VisitedStable(pb, c.nodes, c.cur, b);
    }
  }

  /** A road with a visited node off the spot of an unsettled one keeps such a node pending. */
  lemma KeepsOff(pb: Problem, c: Config, r: nat, a: nat, b: nat)
    requires Sound(pb) && Inv(pb, c) && Alive(pb, c.nodes, multiset(c.open) + multiset{c.cur}, r, a, b)
    requires OnRoad(pb.net, r, a) && OnRoad(pb.net, r, b) && pb.net.dist(a, b) != 0.0
    requires a < |c.nodes| && Expanded(pb, c.nodes, c.cur)[a].visited
    requires !Settled(pb, Expanded(pb, c.nodes, c.cur), r, b)
    ensures PendingOff(pb.net, r, b, multiset(Queued(pb, c)))
  {
    if OnRoad(pb.net, r, c.cur) && pb.net.dist(c.cur, b) != 0.0 {
      OffersOff(pb, c, r, b);
    } else if c.nodes[a].visited {
      if Settled(pb, c.nodes, r, b) {
        StaysSettled(pb, c, r, b);
      } else {
        var v :| v in multiset(c.open) + multiset{c.cur} && OnRoad(pb.net, r, v) && pb.net.dist(v, b) != 0.0;
        QueuedStays(pb, c, v);
      }
    } else {
      NewIsQueued(pb, c, a);
      assert a in multiset(Queued(pb, c));
    }
  }

  /** A road that visited nodes of one spot only, and has others, keeps a node pending. */
  lemma KeepsOn(pb: Problem, c: Config, r: nat, a: nat, b: nat)
    requires Sound(pb) && Inv(pb, c) && Alive(pb, c.nodes, multiset(c.open) + multiset{c.cur}, r, a, b)
    requires OnRoad(pb.net, r, a) && OnRoad(pb.net, r, b) && pb.net.dist(a, b) == 0.0
    requires a < |c.nodes| && Expanded(pb, c.nodes, c.cur)[a].visited
    requires !Settled(pb, Expanded(pb, c.nodes, c.cur), r, b) && !OneSpot(pb.net, r, b)
    requires forall v: nat :: v < |c.nodes| && OnRoad(pb.net, r, v) && Expanded(pb, c.nodes, c.cur)[v].visited ==>
             pb.net.dist(v, b) == 0.0
    ensures Pending(pb.net, r, multiset(Queued(pb, c)))
  {
    if OnRoad(pb.net, r, c.cur) {
      VisitedStable(pb, c.nodes, c.cur, c.cur);
      var v :| OnRoad(pb.net, r, v) && pb.net.dist(v, b) != 0.0;
      OffSpotEligible(pb, c, r, v, b);
      var found := OffersOnRoad(pb, c, r, v);
      assert found in multiset(Queued(pb, c));
    } else if c.nodes[a].visited {
      if Settled(pb, c.nodes, r, b) {
        StaysSettled(pb, c, r, b);
      } else {
        StaysPending(pb, c, r);
      }
    } else {
      NewIsQueued(pb, c, a);
      assert a in multiset(Queued(pb, c));
    }
  }

  lemma OffSpotEligible(pb: Problem, c: Config, r: nat, v: nat, b: nat)
    requires Sound(pb) && Inv(pb, c) && OnRoad(pb.net, r, v) && OnRoad(pb.net, r, b)
    requires pb.net.dist(v, b) != 0.0 && pb.net.dist(c.cur, b) == 0.0
    requires !Expanded(pb, c.nodes, c.cur)[v].visited
    ensures Eligible(pb.net, c.nodes, c.cur, v)
  {
    UnvisitedBefore(pb, c, v);
    assert Lengths(pb.net, c.cur, v) && Lengths(pb.net, v, b) && NoDetourShorter(pb.net, v, c.cur, b);
  }

  /** One road: although only its nearest unvisited node is offered, the road does not go dead. */
  lemma ExpandKeepsRoad(pb: Problem, c: Config, r: nat, a: nat, b: nat)
    requires Sound(pb) && Inv(pb, c)
    requires RoadsKept(pb, c.nodes, multiset(c.open) + multiset{c.cur})
    ensures Alive(pb, Expanded(pb, c.nodes, c.cur), multiset(Queued(pb, c)), r, a, b)
  {
    var nodes' := Expanded(pb, c.nodes, c.cur);
    if OnRoad(pb.net, r, a) && OnRoad(pb.net, r, b) && a < |nodes'| && nodes'[a].visited
       && !Settled(pb, nodes', r, b) && !OneSpot(pb.net, r, b) {
      assert Alive(pb, c.nodes, multiset(c.open) + multiset{c.cur}, r, a, b);
      if v: nat :| v < |nodes'| && OnRoad(pb.net, r, v) && nodes'[v].visited && pb.net.dist(v, b) != 0.0 {
        assert Alive(pb, c.nodes, multiset(c.open) + multiset{c.cur}, r, v, b);
        KeepsOff(pb, c, r, v, b);
      } else {
        KeepsOn(pb, c, r, a, b);
      }
    }
  }

  lemma ExpandKeepsRoads(pb: Problem, c: Config)
    requires Sound(pb) && Inv(pb, c)
    requires RoadsKept(pb, c.nodes, multiset(c.open) + multiset{c.cur})
    ensures RoadsKept(pb, Expanded(pb, c.nodes, c.cur), multiset(Queued(pb, c)))
  {
    forall r: nat, a: nat, b: nat
      ensures Alive(pb, Expanded(pb, c.nodes, c.cur), multiset(Queued(pb, c)), r, a, b)
    {
      ExpandKeepsRoad(pb, c, r, a, b);
    }
  }

  lemma PoppedFrom(pb: Problem, c: Config, c': Config, v: nat)
    requires WellFormed(pb.net) && Step(pb, c, c')
    ensures v in c'.open + [c'.cur] <==> v in Queued(pb, c)
    ensures multiset(c'.open) + multiset{c'.cur} == multiset(Queued(pb, c))
  {
    assert v in Queued(pb, c) <==> v in multiset(Queued(pb, c));
    assert v in c'.open + [c'.cur] <==> v in multiset(c'.open) + multiset{c'.cur};
  }

  /** A round queues every child of the expanded node, old or new and as often as it is listed, and takes one entry. */
  lemma StepQueues(pb: Problem, c: Config, c': Config)
    requires Sound(pb) && Inv(pb, c) && Step(pb, c, c')
    ensures c.cur < |c'.nodes|
    ensures multiset(c'.open) + multiset{c'.cur} == multiset(c.open) + multiset(c'.nodes[c.cur].neighbors)
  {
    VisitedStable(pb, c.nodes, c.cur, c.cur);
  }

  lemma StepInv(pb: Problem, c: Config, c': Config)
    requires Sound(pb) && Inv(pb, c) && Continues(pb, c) && Step(pb, c, c')
    ensures Inv(pb, c') && c'.cur != pb.start
  {
    ExpandKeepsTree(pb, c.nodes, c.cur);
    ExpandKeepsTargets(pb, c);
    PoppedFrom(pb, c, c', c'.cur);
    QueuedOk(pb, c, c'.cur);
    forall v | v in c'.open ensures Queueable(pb, c'.nodes, v) {
      PoppedFrom(pb, c, c', v);
      QueuedOk(pb, c, v);
    }
  }

  lemma StepRoads(pb: Problem, c: Config, c': Config)
    requires Sound(pb) && Inv(pb, c) && Step(pb, c, c')
    requires RoadsKept(pb, c.nodes, multiset(c.open) + multiset{c.cur})
    ensures RoadsKept(pb, c'.nodes, multiset(c'.open) + multiset{c'.cur})
  {
    ExpandKeepsRoads(pb, c);
    PoppedFrom(pb, c, c', c'.cur);
  }

  /** Every configuration of every run keeps the tree and the pending targets; only the first expands the start. */
  lemma {:induction false} RunInv(pb: Problem, run: seq<Config>, k: nat)
    requires Sound(pb) && Run(pb, run) && k < |run|
    ensures Inv(pb, run[k]) && (run[k].cur == pb.start <==> k == 0)
    decreases k
  {
    if k == 0 {
      StartInv(pb, run[0]);
    } else {
      RunInv(pb, run, k - 1);
      assert RoundAt(pb, run, k - 1);
      StepInv(pb, run[k - 1], run[k]);
    }
  }

  /** At no time is a node in the child lists of two nodes, or the start in any. */
  lemma OneParent(pb: Problem, run: seq<Config>, k: nat, p: nat, q: nat, c: nat)
    requires Sound(pb) && Run(pb, run) && k < |run| && p < |run[k].nodes| && q < |run[k].nodes|
    requires c in run[k].nodes[p].neighbors && c in run[k].nodes[q].neighbors
    ensures p == q && c != pb.start && c < |run[k].nodes| && run[k].nodes[c].parent == Some(p)
  {
    RunInv(pb, run, k);
    assert Child(pb, run[k].nodes, p, c) && Child(pb, run[k].nodes, q, c);
  }

  /** Over whole runs every drivable road with a visited node settles its nodes or has a node pending. */
  lemma {:induction false} RunRoads(pb: Problem, run: seq<Config>, k: nat)
    requires Sound(pb) && Run(pb, run) && k < |run|
    ensures RoadsKept(pb, run[k].nodes, multiset(run[k].open) + multiset{run[k].cur})
    decreases k
  {
    if k == 0 {
      StartInv(pb, run[0]);
    } else {
      RunRoads(pb, run, k - 1);
      RunInv(pb, run, k - 1);
      assert RoundAt(pb, run, k - 1);
      StepRoads(pb, run[k - 1], run[k]);
    }
  }

  /** The search values of a node, without its child list. */
  ghost predicate SameReach(a: NodeState, b: NodeState) {
    a.visited == b.visited && a.parent == b.parent && a.g == b.g && a.h == b.h
  }

  lemma StepStable(pb: Problem, run: seq<Config>, k: nat, v: nat)
    requires Sound(pb) && Run(pb, run) && k + 1 < |run|
    requires v < |run[k].nodes| && run[k].nodes[v].visited
    ensures v < |run[k + 1].nodes| && SameReach(run[k].nodes[v], run[k + 1].nodes[v])
  {
    RunInv(pb, run, k);
    assert RoundAt(pb, run, k);
    VisitedStable(pb, run[k].nodes, run[k].cur, v);
  }

  /** Once reached, a node keeps its parent, h and g for the rest of the run. */
  lemma {:induction false} RunStable(pb: Problem, run: seq<Config>, i: nat, j: nat, v: nat)
    requires Sound(pb) && Run(pb, run) && i <= j < |run|
    requires v < |run[i].nodes| && run[i].nodes[v].visited
    ensures v < |run[j].nodes| && SameReach(run[i].nodes[v], run[j].nodes[v])
    decreases j - i
  {
    if i < j {
      RunStable(pb, run, i, j - 1, v);
      StepStable(pb, run, j - 1, v);
    }
  }

  // ----- completeness -----

  /** A node other than the start at which the search would stop can be reached over drivable roads. */
  ghost predicate TargetReachable(pb: Problem)
    requires WellFormed(pb.net)
  {
    exists t: nat :: t < pb.net.size && t != pb.start && Hits(pb, t) && Connected(pb.net, pb.start, t)
  }

  /** The road is not all on the spot of `b`, and of the nodes on that spot, the start excepted, it lists `b` first. */
  ghost predicate SurelyOn(pb: Problem, r: nat, b: nat)
    requires WellFormed(pb.net)
  {
    OnRoad(pb.net, r, b) && !OneSpot(pb.net, r, b) && forall w :: !ListedFirst(pb, r, w, b)
  }

  ghost predicate SureStep(pb: Problem, a: nat, b: nat)
    requires WellFormed(pb.net)
  {
    exists r: nat :: OnRoad(pb.net, r, a) && SurelyOn(pb, r, b)
  }

  /** A chain of drivable roads from the start, each left at a node it surely leads to. */
  ghost predicate SureTrail(pb: Problem, path: seq<nat>)
    requires WellFormed(pb.net)
  {
    |path| > 0 && path[0] == pb.start && forall k :: 0 <= k < |path| - 1 ==> SureStep(pb, path[k], path[k + 1])
  }

  /** Such a chain leads to a target. */
  ghost predicate Routable(pb: Problem)
    requires WellFormed(pb.net)
  {
    exists path :: SureTrail(pb, path) && path[|path| - 1] != pb.start && Hits(pb, path[|path| - 1])
  }

  /** With nothing pending, a visited node's road has visited every node it surely leads to. */
  lemma SureStepVisited(pb: Problem, nodes: seq<NodeState>, a: nat, b: nat)
    requires Sound(pb) && |nodes| == pb.net.size && RoadsKept(pb, nodes, multiset{})
    requires a < |nodes| && nodes[a].visited && SureStep(pb, a, b)
    ensures b < |nodes| && nodes[b].visited
  {
    var r: nat :| OnRoad(pb.net, r, a) && SurelyOn(pb, r, b);
    assert Alive(pb, nodes, multiset{}, r, a, b);
    assert !Pending(pb.net, r, multiset{}) && !PendingOff(pb.net, r, b, multiset{});
    var w: nat :| w < |nodes| && nodes[w].visited && (w == b || ListedFirst(pb, r, w, b));
  }

  lemma {:induction false} SureTrailVisited(pb: Problem, nodes: seq<NodeState>, path: seq<nat>, k: nat)
    requires Sound(pb) && |nodes| == pb.net.size && RoadsKept(pb, nodes, multiset{})
    requires SureTrail(pb, path) && k < |path| && nodes[pb.start].visited
    ensures path[k] < |nodes| && nodes[path[k]].visited
    decreases k
  {
    if k > 0 {
      SureTrailVisited(pb, nodes, path, k - 1);
      assert SureStep(pb, path[k - 1], path[k - 1 + 1]);
      SureStepVisited(pb, nodes, path[k - 1], path[k]);
    }
  }

  /** With nothing left to pop, no sure trail leads to a target. */
  lemma EmptyMeansNoRoute(pb: Problem, c: Config)
    requires Sound(pb) && Inv(pb, c) && Continues(pb, c)
    requires RoadsKept(pb, c.nodes, multiset(c.open) + multiset{c.cur})
    requires Queued(pb, c) == []
    ensures !Routable(pb)
  {
    ExpandKeepsTargets(pb, c);
    ExpandKeepsRoads(pb, c);
    VisitedStable(pb, c.nodes, c.cur, pb.start);
    assert multiset(Queued(pb, c)) == multiset{};
    if Routable(pb) {
      var nodes' := Expanded(pb, c.nodes, c.cur);
      var path :| SureTrail(pb, path) && path[|path| - 1] != pb.start && Hits(pb, path[|path| - 1]);
      SureTrailVisited(pb, nodes', path, |path| - 1);
      assert Queueable(pb, nodes', path[|path| - 1]);
    }
  }

  // ----- which maps have such trails -----

  ghost predicate SameRoads(net: Network, a: nat, b: nat)
    requires WellFormed(net)
  {
    forall r: nat :: OnRoad(net, r, a) <==> OnRoad(net, r, b)
  }

  /** Different nodes of one drivable road lie on the same spot only if they lie on the same drivable roads, and
      neither is a start on the goal's spot. */
  ghost predicate Harmless(pb: Problem)
    requires WellFormed(pb.net)
  {
    forall r: nat, a, b :: OnRoad(pb.net, r, a) && OnRoad(pb.net, r, b) && a != b && pb.net.dist(a, b) == 0.0 ==>
      SameRoads(pb.net, a, b) && !(a == pb.start && Hits(pb, a))
  }

  /** Of the nodes on the spot of `t`, the start excepted, the road lists one first. */
  lemma FirstOnSpot(pb: Problem, r: nat, t: nat) returns (b: nat)
    requires Sound(pb) && OnRoad(pb.net, r, t) && t != pb.start && !OneSpot(pb.net, r, t)
    ensures SurelyOn(pb, r, b) && b != pb.start && pb.net.dist(b, t) == 0.0
  {
    var way := WayOf(pb.net, r);
    var k := 0;
    assert Lengths(pb.net, t, t);
    while way[k] == pb.start || pb.net.dist(way[k], t) != 0.0
      invariant k < |way| && exists j :: k <= j < |way| && way[j] == t
      invariant forall j :: 0 <= j < k ==> way[j] == pb.start || pb.net.dist(way[j], t) != 0.0
      decreases |way| - k
    {
      k := k + 1;
    }
    b := way[k];
    FirstIsSure(pb, r, t, k);
  }

  lemma ListedEarlier(pb: Problem, r: nat, t: nat, k: nat, w: nat)
    requires Sound(pb) && OnRoad(pb.net, r, t) && k < |WayOf(pb.net, r)|
    requires pb.net.dist(WayOf(pb.net, r)[k], t) == 0.0 && ListedFirst(pb, r, w, WayOf(pb.net, r)[k])
    ensures w != pb.start && pb.net.dist(w, t) == 0.0
    ensures exists j :: 0 <= j < k && WayOf(pb.net, r)[j] == w
  {
    var way := WayOf(pb.net, r);
    var j :| 0 <= j < |way| && way[j] == w && forall i :: 0 <= i <= j ==> way[i] != way[k];
    assert way[k] in way;
    assert NoDetourShorter(pb.net, w, way[k], t) && Lengths(pb.net, w, t);
  }

  lemma FirstIsSure(pb: Problem, r: nat, t: nat, k: nat)
    requires Sound(pb) && OnRoad(pb.net, r, t) && !OneSpot(pb.net, r, t) && k < |WayOf(pb.net, r)|
    requires WayOf(pb.net, r)[k] != pb.start && pb.net.dist(WayOf(pb.net, r)[k], t) == 0.0
    requires forall j :: 0 <= j < k ==> WayOf(pb.net, r)[j] == pb.start || pb.net.dist(WayOf(pb.net, r)[j], t) != 0.0
    ensures SurelyOn(pb, r, WayOf(pb.net, r)[k])
  {
    var b := WayOf(pb.net, r)[k];
    assert OnRoad(pb.net, r, b);
    forall w ensures !ListedFirst(pb, r, w, b) {
      if ListedFirst(pb, r, w, b) {
        ListedEarlier(pb, r, t, k, w);
      }
    }
    var v :| OnRoad(pb.net, r, v) && pb.net.dist(v, t) != 0.0;
    assert NoDetourShorter(pb.net, v, b, t) && Lengths(pb.net, v, t) && Lengths(pb.net, v, b);
  }

  /** The same node, or one on the same spot and the same drivable roads. */
  ghost predicate Twins(net: Network, a: nat, b: nat)
    requires WellFormed(net)
  {
    a == b || (net.dist(a, b) == 0.0 && SameRoads(net, a, b))
  }

  /** From a twin of `p` one sure step at most, or a new beginning, leads to a twin of the next node. */
  lemma TwinAhead(pb: Problem, v: nat, p: nat, p': nat) returns (v': nat)
    requires Sound(pb) && Harmless(pb) && Twins(pb.net, v, p) && Shares(pb.net, p, p')
    ensures Twins(pb.net, v', p') && (v' == v || v' == pb.start || SureStep(pb, v, v'))
  {
    var r: nat :| OnRoad(pb.net, r, p) && OnRoad(pb.net, r, p');
    assert OnRoad(pb.net, r, v);
    if p' == pb.start {
      v' := p';
    } else if OneSpot(pb.net, r, p') {
      v' := v;
    } else {
      v' := FirstOnSpot(pb, r, p');
    }
  }

  lemma {:induction false} TwinReached(pb: Problem, path: seq<nat>, k: nat) returns (sure: seq<nat>)
    requires Sound(pb) && Harmless(pb) && Trail(pb.net, path) && k < |path| && path[0] == pb.start
    ensures SureTrail(pb, sure) && Twins(pb.net, sure[|sure| - 1], path[k])
    decreases k
  {
    sure := [pb.start];
    if k > 0 {
      var before := TwinReached(pb, path, k - 1);
      var v := before[|before| - 1];
      assert Shares(pb.net, path[k - 1], path[k - 1 + 1]);
      var v' := TwinAhead(pb, v, path[k - 1], path[k]);
      if v' == v {
        sure := before;
      } else if v' != pb.start {
        sure := before + [v'];
        forall j | 0 <= j < |sure| - 1 ensures SureStep(pb, sure[j], sure[j + 1]) {
          assert j + 1 < |before| ==> SureStep(pb, before[j], before[j + 1]);
        }
      }
    }
  }

  /** Where coinciding nodes are harmless, a sure trail leads to a target whenever one can be reached. */
  lemma HarmlessRoutable(pb: Problem)
    requires Sound(pb) && Harmless(pb) && TargetReachable(pb)
    ensures Routable(pb)
  {
    var t: nat :| t < pb.net.size && t != pb.start && Hits(pb, t) && Connected(pb.net, pb.start, t);
    var path :| |path| > 0 && path[0] == pb.start && path[|path| - 1] == t && Trail(pb.net, path);
    var sure := TwinReached(pb, path, |path| - 1);
    var v, before := sure[|sure| - 1], path[|path| - 2];
    assert Shares(pb.net, before, path[|path| - 2 + 1]);
    TwinOfTarget(pb, v, before, t);
  }

  lemma TwinOfTarget(pb: Problem, v: nat, before: nat, t: nat)
    requires Sound(pb) && Harmless(pb) && Shares(pb.net, before, t) && Twins(pb.net, v, t)
    requires t != pb.start && Hits(pb, t)
    ensures v != pb.start && Hits(pb, v)
  {
    var r: nat :| OnRoad(pb.net, r, before) && OnRoad(pb.net, r, t);
    assert OnRoad(pb.net, r, v);
    assert NoDetourShorter(pb.net, v, t, pb.goal) && Lengths(pb.net, v, pb.goal);
  }

  /** When the loop stops at a node, that node is a reachable target. */
  lemma HitMeansReachable(pb: Problem, c: Config)
    requires Sound(pb) && Inv(pb, c) && !Continues(pb, c)
    ensures TargetReachable(pb)
  {
    VisitedConnected(pb, c.nodes, c.cur);
  }

  // ----- the order of the popped nodes -----

  ghost predicate OpenAbove(nodes: seq<NodeState>, open: seq<nat>, x: real) {
    forall v :: v in open && v < |nodes| ==> F(nodes, v) >= x
  }

  /** Everything queued after an expansion has at least the bound the expanded node gives. */
  lemma QueuedAbove(pb: Problem, c: Config, x: real, v: nat)
    requires Sound(pb) && Inv(pb, c) && v in Queued(pb, c)
    requires OpenAbove(c.nodes, c.open, x)
    requires x <= c.nodes[c.cur].g + pb.net.dist(c.cur, pb.goal)
    ensures v < |c.nodes| && F(Expanded(pb, c.nodes, c.cur), v) >= x
  {
    var nodes' := Expanded(pb, c.nodes, c.cur);
    if v in Children(pb, c.nodes, c.cur) {
      ExpandKeepsTree(pb, c.nodes, c.cur);
      VisitedStable(pb, c.nodes, c.cur, c.cur);
      KidsFresh(pb, c.nodes, c.cur, v);
      assert v in nodes'[c.cur].neighbors;
      ChildSum(pb, nodes', c.cur, v);
    } else {
      VisitedStable(pb, c.nodes, c.cur, v);
    }
  }

  lemma PoppedLeast(pb: Problem, c: Config, c': Config)
    requires Sound(pb) && Inv(pb, c) && Step(pb, c, c')
    ensures c'.cur < |c'.nodes| && OpenAbove(c'.nodes, c'.open, F(c'.nodes, c'.cur))
  {
    PoppedFrom(pb, c, c', c'.cur);
    QueuedOk(pb, c, c'.cur);
    forall v | v in c'.open && v < |c'.nodes| ensures F(c'.nodes, v) >= F(c'.nodes, c'.cur) {
      var k :| 0 <= k < |c'.open| && c'.open[k] == v;
      var all := c'.open + [c'.cur];
      assert all[k] == v && all[|c'.open|] == c'.cur;
    }
  }

  lemma StepMonotone(pb: Problem, c: Config, c': Config, x: real)
    requires Sound(pb) && Inv(pb, c) && Step(pb, c, c')
    requires OpenAbove(c.nodes, c.open, x) && x <= c.nodes[c.cur].g + pb.net.dist(c.cur, pb.goal)
    ensures c'.cur < |c'.nodes| && x <= F(c'.nodes, c'.cur)
    ensures OpenAbove(c'.nodes, c'.open, F(c'.nodes, c'.cur))
  {
    PoppedFrom(pb, c, c', c'.cur);
    QueuedAbove(pb, c, x, c'.cur);
    PoppedLeast(pb, c, c');
  }

  /** A popped node carries its own distance to the goal as h. */
  lemma PoppedSum(pb: Problem, c: Config)
    requires Sound(pb) && Inv(pb, c) && c.cur != pb.start
    ensures F(c.nodes, c.cur) == c.nodes[c.cur].g + pb.net.dist(c.cur, pb.goal)
  {
    ParentIsChild(pb, c.nodes, c.cur);
  }

  /** The sum of the node popped to get to the `j`-th configuration. */
  ghost function PoppedF(run: seq<Config>, j: nat): real
    requires j < |run|
  {
    if run[j].cur < |run[j].nodes| then F(run[j].nodes, run[j].cur) else 0.0
  }

  /** One round: no smaller sum is popped than before, and none is left open. */
  lemma NextPopNotLess(pb: Problem, run: seq<Config>, j: nat)
    requires Sound(pb) && Run(pb, run) && j + 1 < |run|
    requires j > 0 ==> OpenAbove(run[j].nodes, run[j].open, PoppedF(run, j))
    ensures PoppedF(run, j + 1) >= if j == 0 then pb.net.dist(pb.start, pb.goal) else PoppedF(run, j)
    ensures OpenAbove(run[j + 1].nodes, run[j + 1].open, PoppedF(run, j + 1))
  {
    RunInv(pb, run, j);
    assert RoundAt(pb, run, j);
    if j == 0 {
      StepMonotone(pb, run[j], run[j + 1], pb.net.dist(pb.start, pb.goal));
    } else {
      PoppedSum(pb, run[j]);
      StepMonotone(pb, run[j], run[j + 1], PoppedF(run, j));
    }
  }

  /** The sums of the popped nodes never decrease over a whole run, and no open entry is below the last one;
      all of them are at least the straight-line distance from start to goal. */
  lemma {:induction false} PoppedSumsGrow(pb: Problem, run: seq<Config>, i: nat, j: nat)
    requires Sound(pb) && Run(pb, run) && 1 <= i <= j < |run|
    ensures pb.net.dist(pb.start, pb.goal) <= PoppedF(run, i) <= PoppedF(run, j)
    ensures OpenAbove(run[j].nodes, run[j].open, PoppedF(run, j))
    decreases j
  {
    if j > 1 {
      PoppedSumsGrow(pb, run, if i < j then i else j - 1, j - 1);
    }
    NextPopNotLess(pb, run, j - 1);
  }
}
