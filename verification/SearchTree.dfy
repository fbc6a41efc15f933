/** The discovery tree: who was first reached from whom, kept by every expansion and re-expansion. */
module SearchTree {
  import opened Options
  import opened RoadMap
  import opened SearchSpec

  /** `c` was first reached from `p`, and carries the values that step gave it. */
  ghost predicate Child(pb: Problem, nodes: seq<NodeState>, p: nat, c: nat)
    requires WellFormed(pb.net)
  {
    && p < |nodes| && c < |nodes| && c != pb.start
    && nodes[p].visited && nodes[c].visited
    && nodes[c].parent == Some(p)
    && nodes[c].h == pb.net.dist(c, pb.goal)
    && nodes[c].g == nodes[p].g + pb.net.dist(p, c)
    && pb.net.dist(p, c) > 0.0
    && Shares(pb.net, p, c)
  }

  /** `v` is in the child list of the node it calls its parent. */
  ghost predicate HasParent(nodes: seq<NodeState>, v: nat) {
    && v < |nodes| && nodes[v].parent.Some?
    && nodes[v].parent.value < |nodes|
    && v in nodes[nodes[v].parent.value].neighbors
  }

  ghost predicate Untouched(n: NodeState) {
    n.parent == None && n.neighbors == [] && n.g == 0.0
  }

  ghost predicate Tree(pb: Problem, nodes: seq<NodeState>)
    requires WellFormed(pb.net)
  {
    && |nodes| == pb.net.size && pb.start < |nodes| && pb.goal < |nodes|
    && nodes[pb.start].visited && nodes[pb.start].parent == None && nodes[pb.start].g == 0.0
    && (forall p: nat, c :: p < |nodes| && c in nodes[p].neighbors ==> Child(pb, nodes, p, c))
    && (forall v: nat {:trigger HasParent(nodes, v)} ::
         v < |nodes| && nodes[v].visited && v != pb.start ==> HasParent(nodes, v))
    && (forall v: nat {:trigger Untouched(nodes[v])} :: v < |nodes| && !nodes[v].visited ==> Untouched(nodes[v]))
  }

  lemma ParentIsChild(pb: Problem, nodes: seq<NodeState>, v: nat)
    requires WellFormed(pb.net) && Tree(pb, nodes)
    requires v < |nodes| && nodes[v].visited && v != pb.start
    ensures nodes[v].parent.Some? && Child(pb, nodes, nodes[v].parent.value, v)
  {
    assert HasParent(nodes, v);
  }

  // ----- expansion -----

  lemma KidsFresh(pb: Problem, nodes: seq<NodeState>, i: nat, c: nat)
    requires Sound(pb) && Tree(pb, nodes) && i < |nodes| && nodes[i].visited
    requires c in Children(pb, nodes, i)
    ensures c < |nodes| && c != i && c != pb.start && pb.net.dist(i, c) > 0.0 && Shares(pb.net, i, c)
    ensures nodes[c].visited ==> Child(pb, nodes, i, c)
  {
    if c in nodes[i].neighbors {
      assert Child(pb, nodes, i, c);
    } else {
      FoundMeans(pb.net, nodes, i, c);
      assert Lengths(pb.net, i, c);
    }
  }

  /** Re-expansion rewrites the same values: a visited node keeps its parent, h, g and mark;
      only the expanded node's child list may grow. */
  lemma VisitedStable(pb: Problem, nodes: seq<NodeState>, i: nat, v: nat)
    requires Sound(pb) && Tree(pb, nodes) && i < |nodes| && nodes[i].visited
    requires v < |nodes| && nodes[v].visited
    ensures Expanded(pb, nodes, i)[v] == if v == i then nodes[v].(neighbors := Children(pb, nodes, i)) else nodes[v]
  {
    if v in Children(pb, nodes, i) {
      KidsFresh(pb, nodes, i, v);
    }
  }

  /** A node the expansion marks is a new child of the expanded node. */
  lemma NewlyVisited(pb: Problem, nodes: seq<NodeState>, i: nat, v: nat)
    requires Sound(pb) && Tree(pb, nodes) && i < |nodes| && nodes[i].visited
    requires v < |nodes| && !nodes[v].visited
    ensures Expanded(pb, nodes, i)[v].visited <==> v in Children(pb, nodes, i)
    ensures v !in Children(pb, nodes, i) ==> Expanded(pb, nodes, i)[v] == nodes[v]
    ensures v in Children(pb, nodes, i) ==>
            Expanded(pb, nodes, i)[v].neighbors == [] && Child(pb, Expanded(pb, nodes, i), i, v)
  {
    if v in Children(pb, nodes, i) {
      VisitedStable(pb, nodes, i, i);
      KidsFresh(pb, nodes, i, v);
      assert Untouched(nodes[v]);
    }
  }

  lemma ChildrenStay(pb: Problem, nodes: seq<NodeState>, i: nat, p: nat, c: nat)
    requires Sound(pb) && Tree(pb, nodes) && i < |nodes| && nodes[i].visited
    requires p < |nodes| && c in Expanded(pb, nodes, i)[p].neighbors
    ensures Child(pb, Expanded(pb, nodes, i), p, c)
  {
    if !nodes[p].visited {
      NewlyVisited(pb, nodes, i, p);
    } else {
      VisitedStable(pb, nodes, i, p);
      if p == i {
        KidsFresh(pb, nodes, i, c);
      } else {
        assert Child(pb, nodes, p, c);
      }
      if nodes[c].visited {
        VisitedStable(pb, nodes, i, c);
      } else {
        NewlyVisited(pb, nodes, i, c);
      }
    }
  }

  lemma ParentsStay(pb: Problem, nodes: seq<NodeState>, i: nat, v: nat)
    requires Sound(pb) && Tree(pb, nodes) && i < |nodes| && nodes[i].visited
    requires v < |nodes| && Expanded(pb, nodes, i)[v].visited && v != pb.start
    ensures HasParent(Expanded(pb, nodes, i), v)
  {
    VisitedStable(pb, nodes, i, i);
    if nodes[v].visited {
      ParentIsChild(pb, nodes, v);
      assert HasParent(nodes, v);
      var p := nodes[v].parent.value;
      VisitedStable(pb, nodes, i, v);
      VisitedStable(pb, nodes, i, p);
    } else {
      NewlyVisited(pb, nodes, i, v);
    }
  }

  lemma ExpandKeepsTree(pb: Problem, nodes: seq<NodeState>, i: nat)
    requires Sound(pb) && Tree(pb, nodes) && i < |nodes| && nodes[i].visited
    ensures Tree(pb, Expanded(pb, nodes, i))
  {
    var nodes' := Expanded(pb, nodes, i);
    VisitedStable(pb, nodes, i, pb.start);
    forall p: nat, c | p < |nodes'| && c in nodes'[p].neighbors ensures Child(pb, nodes', p, c) {
      ChildrenStay(pb, nodes, i, p, c);
    }
    forall v: nat | v < |nodes'| && nodes'[v].visited && v != pb.start ensures HasParent(nodes', v) {
      ParentsStay(pb, nodes, i, v);
    }
    forall v: nat | v < |nodes'| && !nodes'[v].visited ensures Untouched(nodes'[v]) {
      if nodes[v].visited {
        VisitedStable(pb, nodes, i, v);
      } else {
        NewlyVisited(pb, nodes, i, v);
      }
    }
  }

  // ----- walking the tree towards the start -----

  /** The nodes nearer to the start by their g values: smaller for a parent than for its child. */
  ghost function Below(nodes: seq<NodeState>, x: real): set<nat> {
    set v: nat | v < |nodes| && nodes[v].g < x
  }

  lemma ParentBelow(pb: Problem, nodes: seq<NodeState>, v: nat)
    requires WellFormed(pb.net) && Tree(pb, nodes)
    requires v < |nodes| && nodes[v].visited && v != pb.start
    ensures nodes[v].parent.Some? && nodes[v].parent.value < |nodes|
    ensures Below(nodes, nodes[nodes[v].parent.value].g) < Below(nodes, nodes[v].g)
  {
    ParentIsChild(pb, nodes, v);
    var p := nodes[v].parent.value;
    assert p in Below(nodes, nodes[v].g) && p !in Below(nodes, nodes[p].g);
  }

  /** The chain of parents from the start to `v`. */
  ghost function PathTo(pb: Problem, nodes: seq<NodeState>, v: nat): (path: seq<nat>)
    requires WellFormed(pb.net) && Tree(pb, nodes)
    requires v < |nodes| && nodes[v].visited
    ensures |path| > 0 && path[|path| - 1] == v
    decreases Below(nodes, nodes[v].g)
  {
    if v == pb.start then [v]
    else
      ParentIsChild(pb, nodes, v);
      ParentBelow(pb, nodes, v);
      PathTo(pb, nodes, nodes[v].parent.value) + [v]
  }

  ghost function Length(net: Network, path: seq<nat>): real {
    if |path| < 2 then 0.0
    else Length(net, path[..|path| - 1]) + net.dist(path[|path| - 2], path[|path| - 1])
  }

  /** A path from the start to `v`: no node repeats, consecutive nodes share a drivable road, and g is its length. */
  ghost predicate Walked(pb: Problem, nodes: seq<NodeState>, v: nat, path: seq<nat>)
    requires WellFormed(pb.net) && v < |nodes|
  {
    && |path| > 0 && path[0] == pb.start && path[|path| - 1] == v
    && (forall k :: 0 <= k < |path| ==>
          path[k] < |nodes| && nodes[path[k]].visited && nodes[path[k]].g <= nodes[v].g)
    && (forall j, k :: 0 <= j < k < |path| ==> path[j] != path[k])
    && Trail(pb.net, path)
    && Length(pb.net, path) == nodes[v].g
  }

  lemma WalkedOn(pb: Problem, nodes: seq<NodeState>, p: nat, v: nat, path: seq<nat>)
    requires WellFormed(pb.net) && Child(pb, nodes, p, v) && Walked(pb, nodes, p, path)
    ensures Walked(pb, nodes, v, path + [v])
  {
    var longer := path + [v];
    assert longer[..|longer| - 1] == path;
    forall k | 0 <= k < |longer| - 1 ensures Shares(pb.net, longer[k], longer[k + 1]) {
      if k < |path| - 1 {
        assert Shares(pb.net, path[k], path[k + 1]);
      }
    }
  }

  /** Along the parent chain the g values grow, so it is such a path. */
  lemma {:induction false} PathProperties(pb: Problem, nodes: seq<NodeState>, v: nat)
    requires WellFormed(pb.net) && Tree(pb, nodes) && v < |nodes| && nodes[v].visited
    ensures Walked(pb, nodes, v, PathTo(pb, nodes, v))
    decreases Below(nodes, nodes[v].g)
  {
    if v == pb.start {
      assert PathTo(pb, nodes, v) == [v];
    } else {
      ParentIsChild(pb, nodes, v);
      ParentBelow(pb, nodes, v);
      var p := nodes[v].parent.value;
      PathProperties(pb, nodes, p);
      WalkedOn(pb, nodes, p, v, PathTo(pb, nodes, p));
    }
  }

  /** g is at least the straight-line distance from the start. */
  lemma {:induction false} NoShortcut(pb: Problem, nodes: seq<NodeState>, v: nat)
    requires Sound(pb) && Tree(pb, nodes) && v < |nodes| && nodes[v].visited
    ensures pb.net.dist(pb.start, v) <= nodes[v].g
    decreases Below(nodes, nodes[v].g)
  {
    if v == pb.start {
      assert Lengths(pb.net, v, v);
    } else {
      ParentIsChild(pb, nodes, v);
      ParentBelow(pb, nodes, v);
      var p := nodes[v].parent.value;
      NoShortcut(pb, nodes, p);
      assert NoDetourShorter(pb.net, pb.start, p, v);
    }
  }

  /** Every visited node is connected to the start. */
  lemma VisitedConnected(pb: Problem, nodes: seq<NodeState>, v: nat)
    requires WellFormed(pb.net) && Tree(pb, nodes) && v < |nodes| && nodes[v].visited
    ensures Connected(pb.net, pb.start, v)
  {
    PathProperties(pb, nodes, v);
  }

  /** A child's sum is at least its parent's distance to the goal plus the parent's g. */
  lemma ChildSum(pb: Problem, nodes: seq<NodeState>, p: nat, c: nat)
    requires Sound(pb) && Child(pb, nodes, p, c) && |nodes| == pb.net.size
    ensures F(nodes, c) >= nodes[p].g + pb.net.dist(p, pb.goal)
  {
    assert NoDetourShorter(pb.net, p, c, pb.goal);
  }
}
