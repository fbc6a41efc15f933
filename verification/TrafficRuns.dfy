/** Safety and fairness of the intersections over whole runs. */
module TrafficRuns {
  import opened Options
  import opened TrafficSystem
  import opened TrafficSafety
  import Sequences

  ghost predicate Legal(city: City, s: State, actions: seq<Action>)
    decreases |actions|, 0
  {
    actions == [] ||
    (Legal(city, s, actions[..|actions| - 1]) &&
     Enabled(city, Final(city, s, actions[..|actions| - 1]), actions[|actions| - 1]))
  }

  /** The state after a run. */
  ghost function Final(city: City, s: State, actions: seq<Action>): State
    requires Legal(city, s, actions)
    decreases |actions|, 1
  {
    if actions == [] then s
    else After(city, Final(city, s, actions[..|actions| - 1]), actions[|actions| - 1])
  }

  lemma {:induction false} RunKeeps(city: City, s: State, actions: seq<Action>)
    requires Inv(city, s) && Legal(city, s, actions)
    ensures Inv(city, Final(city, s, actions))
    decreases |actions|
  {
    if actions != [] {
      var init := actions[..|actions| - 1];
      RunKeeps(city, s, init);
      StepKeeps(city, Final(city, s, init), actions[|actions| - 1]);
    }
  }

  /** Under every interleaving: no pop from an empty queue and no promise fulfilled twice; an intersection is
      blocked exactly while its processor is between blocking and permitting or one vehicle is inside, never
      both; and never are two vehicles inside. */
  lemma MutualExclusion(city: City, s: State, actions: seq<Action>, i: nat)
    requires Initial(city, s) && Legal(city, s, actions) && i < |Final(city, s, actions).junctions|
    ensures var t := Final(city, s, actions);
            && !t.fault
            && (t.junctions[i].blocked <==> (t.junctions[i].proc == HasBlocked || exists v: nat :: Inside(t, v, i)))
            && (t.junctions[i].proc == HasBlocked ==> forall v: nat :: !Inside(t, v, i))
            && (forall v: nat, w: nat :: Inside(t, v, i) && Inside(t, w, i) ==> v == w)
  {
    var t := Final(city, s, actions);
    InitialKeeps(city, s);
    RunKeeps(city, s, actions);
    assert JunctionOk(t, i);
    forall v: nat | Inside(t, v, i) ensures t.junctions[i].occupant == Some(v) {
      assert CarOk(city, t, v);
    }
  }

  ghost predicate InQueue(s: State, v: nat, i: nat, k: nat) {
    i < |s.junctions| && k < |s.junctions[i].vehicles| && s.junctions[i].vehicles[k] == v
  }

  /** A vehicle stands in at most one queue, at one place of it; that queue is its destination's, and while
      in it the vehicle is inside no intersection. */
  lemma OnePlace(city: City, s: State, actions: seq<Action>, v: nat, i: nat, k: nat, m: nat, l: nat)
    requires Initial(city, s) && Legal(city, s, actions)
    requires InQueue(Final(city, s, actions), v, i, k)
    ensures v < |Final(city, s, actions).cars| && Final(city, s, actions).cars[v].dest == i
    ensures !Inside(Final(city, s, actions), v, m)
    ensures InQueue(Final(city, s, actions), v, m, l) ==> m == i && l == k
  {
    var t := Final(city, s, actions);
    InitialKeeps(city, s);
    RunKeeps(city, s, actions);
    QueuedIs(city, t, i, k);
    if InQueue(t, v, m, l) {
      QueuedIs(city, t, m, l);
      assert JunctionOk(t, i);
    }
  }

  /** A vehicle's destination is an end of its street, except between the two assignments of a turn, where it is
      an end of the street it is about to take. */
  lemma {:induction false} HeadsForAnEnd(city: City, s: State, actions: seq<Action>, v: nat)
    requires Initial(city, s) && Legal(city, s, actions) && v < |Final(city, s, actions).cars|
    ensures var c := Final(city, s, actions).cars[v];
            EndsAt(city, if c.phase.Turning? then c.phase.next else c.street, c.dest)
  {
    InitialKeeps(city, s);
    RunKeeps(city, s, actions);
    assert CarOk(city, Final(city, s, actions), v);
  }

  /** A turn takes the vehicle from one end of the chosen street to the other. */
  lemma TurnsToOtherEnd(city: City, s: State, v: nat)
    requires Inv(city, s) && Enabled(city, s, SetDestination(v))
    ensures var street := city.streets[s.cars[v].phase.next];
            {s.cars[v].dest, After(city, s, SetDestination(v)).cars[v].dest} == {street.inAt, street.outAt}
  {
    assert CarOk(city, s, v);
  }

  /** No request is lost: a vehicle waiting on an unfulfilled promise has its place in its destination's queue, with
      that promise beside it; once the promise is fulfilled the vehicle is inside, and alone. */
  lemma WaitingIsQueued(city: City, s: State, actions: seq<Action>, v: nat)
    requires Initial(city, s) && Legal(city, s, actions)
    requires v < |Final(city, s, actions).cars| && Final(city, s, actions).cars[v].phase.Waiting?
    ensures var t := Final(city, s, actions);
            var i, p := t.cars[v].dest, t.cars[v].phase.promise;
            if p in t.fulfilled then Inside(t, v, i) && forall w: nat :: Inside(t, w, i) ==> w == v
            else exists k: nat ::
              InQueue(t, v, i, k) && k < |t.junctions[i].promises| && t.junctions[i].promises[k] == p
  {
    var t := Final(city, s, actions);
    InitialKeeps(city, s);
    RunKeeps(city, s, actions);
    assert CarOk(city, t, v);
    var i := t.cars[v].dest;
    if t.cars[v].phase.promise in t.fulfilled {
      forall w: nat | Inside(t, w, i) ensures w == v {
        assert CarOk(city, t, w);
      }
    } else {
      var k: nat :| QueuedAt(t, i, k) && t.junctions[i].vehicles[k] == v;
      assert InQueue(t, v, i, k);
    }
  }

  /** Grants are a prefix of the arrivals, and the two lists of a queue stay matched position by position. */
  lemma GrantsArePrefix(city: City, s: State, actions: seq<Action>, i: nat)
    requires Initial(city, s) && Legal(city, s, actions) && i < |Final(city, s, actions).junctions|
    ensures var t := Final(city, s, actions);
            && t.junctions[i].grants <= t.junctions[i].arrivals
            && t.junctions[i].arrivals == t.junctions[i].grants + t.junctions[i].vehicles
            && |t.junctions[i].vehicles| == |t.junctions[i].promises|
            && forall k: nat :: k < |t.junctions[i].vehicles| ==> QueuedAt(t, i, k)
  {
    var t := Final(city, s, actions);
    InitialKeeps(city, s);
    RunKeeps(city, s, actions);
    assert JunctionOk(t, i);
  }

  /** History only grows: by one arrival per push and one grant per pop. */
  lemma StepHistory(city: City, s: State, a: Action, i: nat)
    requires Enabled(city, s, a) && i < |s.junctions|
    ensures |After(city, s, a).junctions| == |s.junctions|
    ensures s.junctions[i].arrivals <= After(city, s, a).junctions[i].arrivals
    ensures s.junctions[i].grants <= After(city, s, a).junctions[i].grants
  {
  }

  lemma LegalSnoc(city: City, s: State, first: seq<Action>, a: Action)
    requires Legal(city, s, first) && Enabled(city, Final(city, s, first), a)
    ensures Legal(city, s, first + [a]) && Final(city, s, first + [a]) == After(city, Final(city, s, first), a)
  {
    assert (first + [a])[..|first + [a]| - 1] == first;
  }

  lemma FinalSnoc(city: City, s: State, first: seq<Action>, a: Action)
    requires Legal(city, s, first + [a])
    ensures Legal(city, s, first) && Enabled(city, Final(city, s, first), a)
    ensures Final(city, s, first + [a]) == After(city, Final(city, s, first), a)
  {
    assert (first + [a])[..|first + [a]| - 1] == first;
  }

  lemma {:induction false} RunHistory(city: City, s: State, before: seq<Action>, after: seq<Action>, i: nat)
    requires Legal(city, s, before + after) && Legal(city, s, before) && i < |Final(city, s, before).junctions|
    ensures |Final(city, s, before + after).junctions| == |Final(city, s, before).junctions|
    ensures Final(city, s, before).junctions[i].arrivals <= Final(city, s, before + after).junctions[i].arrivals
    ensures Final(city, s, before).junctions[i].grants <= Final(city, s, before + after).junctions[i].grants
    decreases |after|
  {
    if after == [] {
      assert before + after == before;
    } else {
      var n := |after| - 1;
      assert before + after == (before + after[..n]) + [after[n]];
      FinalSnoc(city, s, before + after[..n], after[n]);
      RunHistory(city, s, before, after[..n], i);
      StepHistory(city, Final(city, s, before + after[..n]), after[n], i);
    }
  }

  /** After `later` grants more than in `j`, the vehicle `k` places from the front of `j`'s queue has got the
      (k+1)-th of them, or has moved up by their number. */
  ghost predicate InTurn(j: Junction, j': Junction, k: nat, later: nat)
    requires k < |j.vehicles|
  {
    && |j'.grants| == |j.grants| + later
    && if later > k then j'.grants[|j.grants| + k] == j.vehicles[k]
       else k - later < |j'.vehicles| && j'.vehicles[k - later] == j.vehicles[k]
  }

  lemma PlaceInLine(j: Junction, j': Junction, k: nat) returns (later: nat)
    requires j.arrivals == j.grants + j.vehicles && j'.arrivals == j'.grants + j'.vehicles
    requires j.arrivals <= j'.arrivals && j.grants <= j'.grants && k < |j.vehicles|
    ensures InTurn(j, j', k, later)
  {
    later := |j'.grants| - |j.grants|;
    var at := |j.grants| + k;
    assert j.arrivals[at] == j.vehicles[k];
    assert j'.arrivals[at] == j.arrivals[at];
    if later <= k {
      assert j'.arrivals[at] == j'.vehicles[at - |j'.grants|];
    }
  }

  /** First come, first served: a vehicle with `k` ahead of it gets exactly the (k+1)-th later grant, and until then
      moves up one place with every grant. */
  lemma ServedInTurn(city: City, s: State, before: seq<Action>, after: seq<Action>, i: nat, k: nat) returns (later: nat)
    requires Initial(city, s) && Legal(city, s, before + after)
    requires Legal(city, s, before) && i < |Final(city, s, before).junctions|
    requires k < |Final(city, s, before).junctions[i].vehicles|
    ensures |Final(city, s, before + after).junctions| == |Final(city, s, before).junctions|
    ensures InTurn(Final(city, s, before).junctions[i], Final(city, s, before + after).junctions[i], k, later)
  {
    RunHistory(city, s, before, after, i);
    GrantsArePrefix(city, s, before, i);
    GrantsArePrefix(city, s, before + after, i);
    later := PlaceInLine(Final(city, s, before).junctions[i], Final(city, s, before + after).junctions[i], k);
  }

  /** Only the vehicle inside unblocks an intersection, and only its processor blocks it. */
  lemma WhoUnblocks(city: City, s: State, a: Action, i: nat)
    requires Inv(city, s) && Enabled(city, s, a) && i < |s.junctions|
    ensures s.junctions[i].blocked && !After(city, s, a).junctions[i].blocked ==> a.HasLeft? && Inside(s, a.v, i)
    ensures !s.junctions[i].blocked && After(city, s, a).junctions[i].blocked ==> a == Block(i)
  {
    assert JunctionOk(s, i);
  }

  ghost predicate BlockedAfter(city: City, s: State, actions: seq<Action>, i: nat)
    requires Legal(city, s, actions)
  {
    i < |Final(city, s, actions).junctions| && Final(city, s, actions).junctions[i].blocked
  }

  /** A step that unblocks an intersection, wherever a run has got to, is its vehicle's. */
  lemma StepUnblocks(city: City, s: State, first: seq<Action>, a: Action, i: nat)
    requires Initial(city, s) && Legal(city, s, first) && BlockedAfter(city, s, first, i)
    requires Enabled(city, Final(city, s, first), a)
    ensures i < |After(city, Final(city, s, first), a).junctions|
    ensures !After(city, Final(city, s, first), a).junctions[i].blocked ==>
              a.HasLeft? && Inside(Final(city, s, first), a.v, i)
  {
    var t := Final(city, s, first);
    InitialKeeps(city, s);
    RunKeeps(city, s, first);
    StepHistory(city, t, a, i);
    WhoUnblocks(city, t, a, i);
  }

  lemma LastUnblocks(city: City, s: State, first: seq<Action>, a: Action, i: nat)
    requires Initial(city, s) && Legal(city, s, first + [a])
    ensures Legal(city, s, first)
    ensures BlockedAfter(city, s, first, i) && !BlockedAfter(city, s, first + [a], i) ==>
              a.HasLeft? && Inside(Final(city, s, first), a.v, i)
  {
    FinalSnoc(city, s, first, a);
    if BlockedAfter(city, s, first, i) {
      StepUnblocks(city, s, first, a, i);
    }
  }

  /** Whenever an intersection blocked after `before` is not blocked any more, its vehicle has left meanwhile. */
  lemma {:induction false} UnblockedByLeaving(city: City, s: State, before: seq<Action>, after: seq<Action>, i: nat)
    returns (k: nat)
    requires Initial(city, s) && Legal(city, s, before) && Legal(city, s, before + after)
    requires BlockedAfter(city, s, before, i) && !BlockedAfter(city, s, before + after, i)
    ensures k < |after| && after[k].HasLeft? && Legal(city, s, before + after[..k])
    ensures Inside(Final(city, s, before + after[..k]), after[k].v, i)
    decreases |after|
  {
    Sequences.NothingAppended(before, after);
    var n := |after| - 1;
    var init, a := after[..n], after[n];
    assert before + after == (before + init) + [a];
    LastUnblocks(city, s, before + init, a, i);
    if BlockedAfter(city, s, before + init, i) {
      k := n;
    } else {
      k := UnblockedByLeaving(city, s, before, init, i);
      Sequences.TakeOfTake(after, n, k);
    }
  }

  /** While a vehicle is inside, nobody else is let in. */
  lemma NoEntryWhileInside(city: City, s: State, a: Action, v: nat, w: nat, i: nat)
    requires Inv(city, s) && Enabled(city, s, a) && Inside(s, v, i) && i < |s.junctions|
    requires !Inside(s, w, i)
    ensures !Inside(After(city, s, a), w, i)
  {
    StepKeeps(city, s, a);
    var t := After(city, s, a);
    assert CarOk(city, s, v) && JunctionOk(s, i) && JunctionOk(t, i);
    forall u: nat | Inside(t, u, i) ensures t.junctions[i].occupant == Some(u) {
      assert CarOk(city, t, u);
    }
  }
}
