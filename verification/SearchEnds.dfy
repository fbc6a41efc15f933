/** Termination of the route search, duplicates and re-expansion included. */
module SearchEnds {
  import opened RoadMap
  import opened SearchSpec
  import opened SearchTree
  import opened SearchRuns
  import Sequences

  /** The nodes with larger g values: fewer for a child than for its parent. */
  ghost function Beyond(nodes: seq<NodeState>, x: real): set<nat> {
    set v: nat | v < |nodes| && nodes[v].g > x
  }

  lemma ChildBeyond(pb: Problem, nodes: seq<NodeState>, p: nat, c: nat)
    requires WellFormed(pb.net) && Child(pb, nodes, p, c)
    ensures Beyond(nodes, nodes[c].g) < Beyond(nodes, nodes[p].g)
  {
    assert c in Beyond(nodes, nodes[p].g) && c !in Beyond(nodes, nodes[c].g);
  }

  /** How many expansions the node stands for if nothing new is found: itself and, for every entry of its
      child list, that child again. */
  ghost function Weight(pb: Problem, nodes: seq<NodeState>, v: nat): nat
    requires WellFormed(pb.net) && Tree(pb, nodes) && v < |nodes|
    decreases Beyond(nodes, nodes[v].g), |nodes[v].neighbors| + 1
  {
    1 + KidsWeight(pb, nodes, v, |nodes[v].neighbors|)
  }

  ghost function KidsWeight(pb: Problem, nodes: seq<NodeState>, v: nat, k: nat): nat
    requires WellFormed(pb.net) && Tree(pb, nodes) && v < |nodes| && k <= |nodes[v].neighbors|
    decreases Beyond(nodes, nodes[v].g), k
  {
    if k == 0 then 0
    else
      var c := nodes[v].neighbors[k - 1];
      assert Child(pb, nodes, v, c);
      ChildBeyond(pb, nodes, v, c);
      KidsWeight(pb, nodes, v, k - 1) + Weight(pb, nodes, c)
  }

  /** The weight of a list of nodes, an entry at a time. */
  ghost function TotalWeight(pb: Problem, nodes: seq<NodeState>, xs: seq<nat>): nat
    requires WellFormed(pb.net) && Tree(pb, nodes)
  {
    if xs == [] then 0
    else
      var v := xs[|xs| - 1];
      TotalWeight(pb, nodes, xs[..|xs| - 1]) + if v < |nodes| then Weight(pb, nodes, v) else 0
  }

  lemma {:induction false} KidsTotal(pb: Problem, nodes: seq<NodeState>, v: nat, k: nat)
    requires WellFormed(pb.net) && Tree(pb, nodes) && v < |nodes| && k <= |nodes[v].neighbors|
    ensures TotalWeight(pb, nodes, nodes[v].neighbors[..k]) == KidsWeight(pb, nodes, v, k)
    decreases k
  {
    if k > 0 {
      var kids := nodes[v].neighbors;
      assert Child(pb, nodes, v, kids[k - 1]);
      KidsTotal(pb, nodes, v, k - 1);
      assert kids[..k][..k - 1] == kids[..k - 1];
    }
  }

  lemma {:induction false} TotalWeightAppend(pb: Problem, nodes: seq<NodeState>, xs: seq<nat>, ys: seq<nat>)
    requires WellFormed(pb.net) && Tree(pb, nodes)
    ensures TotalWeight(pb, nodes, xs + ys) == TotalWeight(pb, nodes, xs) + TotalWeight(pb, nodes, ys)
    decreases |ys|
  {
    if ys == [] {
      assert xs + ys == xs;
    } else {
      var m := |ys| - 1;
      assert (xs + ys)[..|xs + ys| - 1] == xs + ys[..m];
      TotalWeightAppend(pb, nodes, xs, ys[..m]);
    }
  }

  lemma TotalWeightTake(pb: Problem, nodes: seq<NodeState>, before: seq<nat>, v: nat, after: seq<nat>)
    requires WellFormed(pb.net) && Tree(pb, nodes)
    ensures TotalWeight(pb, nodes, before + [v] + after) == TotalWeight(pb, nodes, before + after + [v])
  {
    TotalWeightAppend(pb, nodes, before + [v], after);
    TotalWeightAppend(pb, nodes, before, [v]);
    TotalWeightAppend(pb, nodes, before + after, [v]);
    TotalWeightAppend(pb, nodes, before, after);
  }

  lemma MoveToEnd(xs: seq<nat>, v: nat) returns (before: seq<nat>, after: seq<nat>)
    requires v in multiset(xs)
    ensures xs == before + [v] + after
    ensures multiset(before + after) == multiset(xs) - multiset{v}
  {
    var i :| 0 <= i < |xs| && xs[i] == v;
    before, after := xs[..i], xs[i + 1..];
    assert xs == before + [v] + after;
  }

  /** The order of the open list does not matter for its weight. */
  lemma {:induction false} TotalWeightPermuted(pb: Problem, nodes: seq<NodeState>, xs: seq<nat>, ys: seq<nat>)
    requires WellFormed(pb.net) && Tree(pb, nodes)
    requires multiset(xs) == multiset(ys)
    ensures TotalWeight(pb, nodes, xs) == TotalWeight(pb, nodes, ys)
    decreases |xs|
  {
    if xs == [] {
      assert |multiset(ys)| == 0;
    } else {
      var n := |xs| - 1;
      var init, v := xs[..n], xs[n];
      assert xs == init + [v];
      var before, after := MoveToEnd(ys, v);
      assert multiset(init) == multiset(xs) - multiset{v};
      TotalWeightPermuted(pb, nodes, init, before + after);
      TotalWeightTake(pb, nodes, before, v, after);
      TotalWeightAppend(pb, nodes, before + after, [v]);
      TotalWeightAppend(pb, nodes, init, [v]);
    }
  }

  // ----- the measure -----

  ghost function Unvisited(nodes: seq<NodeState>): set<nat> {
    set v: nat | v < |nodes| && !nodes[v].visited
  }

  /** The weight of everything pending, the node in hand included. */
  ghost function PendingWeight(pb: Problem, c: Config): nat
    requires WellFormed(pb.net) && Inv(pb, c)
  {
    TotalWeight(pb, c.nodes, c.open) + Weight(pb, c.nodes, c.cur)
  }

  lemma UnvisitedShrink(pb: Problem, nodes: seq<NodeState>, i: nat)
    requires Sound(pb) && Tree(pb, nodes) && i < |nodes| && nodes[i].visited
    ensures Unvisited(Expanded(pb, nodes, i)) <= Unvisited(nodes)
    ensures Found(pb.net, nodes, i) != [] ==> Unvisited(Expanded(pb, nodes, i)) < Unvisited(nodes)
  {
    var nodes' := Expanded(pb, nodes, i);
    forall v | v in Unvisited(nodes') ensures v in Unvisited(nodes) {
      if nodes[v].visited {
        VisitedStable(pb, nodes, i, v);
      }
    }
    var found := Found(pb.net, nodes, i);
    if found != [] {
      FoundMeans(pb.net, nodes, i, found[0]);
      assert found[0] in Children(pb, nodes, i);
      assert found[0] in Unvisited(nodes) && found[0] !in Unvisited(nodes');
    }
  }

  /** An expansion that finds nothing changes no node at all. */
  lemma NothingFound(pb: Problem, nodes: seq<NodeState>, i: nat)
    requires Sound(pb) && Tree(pb, nodes) && i < |nodes| && nodes[i].visited
    requires Found(pb.net, nodes, i) == []
    ensures Expanded(pb, nodes, i) == nodes && Children(pb, nodes, i) == nodes[i].neighbors
  {
    var nodes' := Expanded(pb, nodes, i);
    forall c | c in nodes[i].neighbors ensures c < |nodes| && nodes[c].visited {
      assert Child(pb, nodes, i, c);
    }
    forall v: nat | v < |nodes| ensures nodes'[v] == nodes[v] {
      if nodes[v].visited {
        VisitedStable(pb, nodes, i, v);
      } else {
        NewlyVisited(pb, nodes, i, v);
      }
    }
  }

  /** Then the open list trades the expanded node for its old children: one expansion less is due. */
  lemma WeightDrops(pb: Problem, c: Config, c': Config)
    requires Sound(pb) && Inv(pb, c) && Inv(pb, c') && Step(pb, c, c')
    requires Found(pb.net, c.nodes, c.cur) == []
    ensures PendingWeight(pb, c') == PendingWeight(pb, c) - 1
  {
    NothingFound(pb, c.nodes, c.cur);
    var kids := c.nodes[c.cur].neighbors;
    KidsTotal(pb, c.nodes, c.cur, |kids|);
    assert kids[..|kids|] == kids;
    TotalWeightAppend(pb, c.nodes, c.open, kids);
    var after := c'.open + [c'.cur];
    assert multiset(after) == multiset(c.open + kids);
    TotalWeightPermuted(pb, c.nodes, after, c.open + kids);
    assert after[..|after| - 1] == c'.open;
  }

  /** Every round decreases (unvisited nodes, weight of what is pending), lexicographically. */
  lemma StepDecreases(pb: Problem, c: Config, c': Config)
    requires Sound(pb) && Inv(pb, c) && Continues(pb, c) && Step(pb, c, c')
    ensures Inv(pb, c')
    ensures Unvisited(c'.nodes) < Unvisited(c.nodes) ||
            (Unvisited(c'.nodes) == Unvisited(c.nodes) && PendingWeight(pb, c') < PendingWeight(pb, c))
  {
    StepInv(pb, c, c');
    UnvisitedShrink(pb, c.nodes, c.cur);
    if Found(pb.net, c.nodes, c.cur) == [] {
      NothingFound(pb, c.nodes, c.cur);
      WeightDrops(pb, c, c');
    }
  }

  /** The pair every round decreases. */
  ghost predicate Measures(pb: Problem, c: Config, unvisited: set<nat>, weight: nat)
    requires WellFormed(pb.net)
  {
    Inv(pb, c) && unvisited == Unvisited(c.nodes) && weight == PendingWeight(pb, c)
  }

  lemma MeasureDrops(pb: Problem, c: Config, c': Config, unvisited: set<nat>, weight: nat)
    returns (unvisited': set<nat>, weight': nat)
    requires Sound(pb) && Measures(pb, c, unvisited, weight) && Continues(pb, c) && Step(pb, c, c')
    ensures Measures(pb, c', unvisited', weight')
    ensures unvisited' < unvisited || (unvisited' == unvisited && weight' < weight)
  {
    StepDecreases(pb, c, c');
    unvisited', weight' := Unvisited(c'.nodes), PendingWeight(pb, c');
  }

  /** The loop goes on from the `n`-th configuration and makes the next one. */
  ghost predicate GoesOn(pb: Problem, configs: nat -> Config, n: nat)
    requires WellFormed(pb.net)
  {
    Continues(pb, configs(n)) && Step(pb, configs(n), configs(n + 1))
  }

  lemma {:induction false} KeptAt(pb: Problem, configs: nat -> Config, n: nat)
    requires Sound(pb) && Start(pb, configs(0)) && forall m: nat :: GoesOn(pb, configs, m)
    ensures Inv(pb, configs(n))
    decreases n
  {
    if n == 0 {
      StartInv(pb, configs(0));
    } else {
      KeptAt(pb, configs, n - 1);
      assert GoesOn(pb, configs, n - 1);
      StepInv(pb, configs(n - 1), configs(n));
    }
  }

  ghost predicate Lower(a: (set<nat>, nat), b: (set<nat>, nat)) {
    a.0 < b.0 || (a.0 == b.0 && a.1 < b.1)
  }

  lemma {:induction false} NoEndlessDescent(measure: nat -> (set<nat>, nat), n: nat) returns (j: nat)
    ensures !Lower(measure(j + 1), measure(j))
    decreases measure(n).0, measure(n).1
  {
    j := n;
    if Lower(measure(n + 1), measure(n)) {
      j := NoEndlessDescent(measure, n + 1);
    }
  }

  /** No search goes on for ever: every endless sequence of configurations beginning at a start
      has a place where the loop stops or did not take a step. */
  lemma EverySearchEnds(pb: Problem, configs: nat -> Config)
    requires Sound(pb) && Start(pb, configs(0))
    ensures exists j: nat :: !GoesOn(pb, configs, j)
  {
    if forall j: nat :: GoesOn(pb, configs, j) {
      var measure := (n: nat) =>
        if Inv(pb, configs(n)) then (Unvisited(configs(n).nodes), PendingWeight(pb, configs(n))) else ({}, 0);
      var j := NoEndlessDescent(measure, 0);
      KeptAt(pb, configs, j);
      assert GoesOn(pb, configs, j);
      StepDecreases(pb, configs(j), configs(j + 1));
    }
  }

  // ----- a round is possible whenever something is queued -----

  ghost predicate InRange(nodes: seq<NodeState>, xs: seq<nat>) {
    forall k :: 0 <= k < |xs| ==> xs[k] < |nodes|
  }

  lemma DescendingInsert(nodes: seq<NodeState>, a: seq<nat>, v: nat, b: seq<nat>)
    requires v < |nodes| && InRange(nodes, a + b) && Descending(nodes, a + b)
    requires forall j :: 0 <= j < |a| && a[j] < |nodes| ==> F(nodes, a[j]) >= F(nodes, v)
    requires b != [] && b[0] < |nodes| ==> F(nodes, v) >= F(nodes, b[0])
    ensures InRange(nodes, a + [v] + b) && Descending(nodes, a + [v] + b)
  {
    var xs, ys := a + b, a + [v] + b;
    forall k | 0 <= k < |ys| ensures ys[k] < |nodes| {
      assert k < |a| ==> ys[k] == xs[k];
      assert k > |a| ==> ys[k] == xs[k - 1];
    }
    forall i, j | 0 <= i < j < |ys| && ys[i] < |nodes| && ys[j] < |nodes|
      ensures F(nodes, ys[i]) >= F(nodes, ys[j])
    {
      if j < |a| {
        assert ys[i] == xs[i] && ys[j] == xs[j];
      } else if i < |a| < j {
        assert ys[i] == xs[i] && ys[j] == xs[j - 1];
      } else if i < |a| {
        assert ys[i] == a[i];
      } else {
        assert ys[j] == xs[j - 1] && xs[|a|] == b[0];
        if i > |a| {
          assert ys[i] == xs[i - 1];
        }
      }
    }
  }

  lemma InsertSorted(nodes: seq<NodeState>, xs: seq<nat>, v: nat) returns (ys: seq<nat>)
    requires InRange(nodes, xs) && v < |nodes| && Descending(nodes, xs)
    ensures multiset(ys) == multiset(xs) + multiset{v} && InRange(nodes, ys) && Descending(nodes, ys)
  {
    var k := 0;
    while k < |xs| && F(nodes, xs[k]) >= F(nodes, v)
      invariant k <= |xs| && forall j :: 0 <= j < k ==> F(nodes, xs[j]) >= F(nodes, v)
    {
      k := k + 1;
    }
    ys := xs[..k] + [v] + xs[k..];
    Sequences.InsertedOnce(xs, k, v);
    assert xs == xs[..k] + xs[k..];
    DescendingInsert(nodes, xs[..k], v, xs[k..]);
  }

  lemma {:induction false} SortExists(nodes: seq<NodeState>, open: seq<nat>) returns (sorted: seq<nat>)
    requires InRange(nodes, open)
    ensures multiset(sorted) == multiset(open) && InRange(nodes, sorted) && Descending(nodes, sorted)
    decreases |open|
  {
    if open == [] {
      sorted := [];
    } else {
      var n := |open| - 1;
      assert open == open[..n] + [open[n]];
      sorted := SortExists(nodes, open[..n]);
      sorted := InsertSorted(nodes, sorted, open[n]);
    }
  }

  lemma PopExists(nodes: seq<NodeState>, open: seq<nat>) returns (v: nat, rest: seq<nat>)
    requires InRange(nodes, open) && open != []
    ensures Pops(nodes, open, v, rest)
  {
    var sorted := SortExists(nodes, open);
    assert |multiset(sorted)| == |multiset(open)| > 0;
    var n := |sorted| - 1;
    v, rest := sorted[n], sorted[..n];
    assert sorted == rest + [v];
  }

  /** The loop can do another round whenever anything is queued. */
  lemma CanStep(pb: Problem, c: Config) returns (c': Config)
    requires Sound(pb) && Inv(pb, c) && Queued(pb, c) != []
    ensures Step(pb, c, c')
  {
    var nodes', queued := Expanded(pb, c.nodes, c.cur), Queued(pb, c);
    forall k | 0 <= k < |queued| ensures queued[k] < |nodes'| {
      QueuedOk(pb, c, queued[k]);
    }
    var v, rest := PopExists(nodes', queued);
    c' := Config(nodes', rest, v);
  }
}
