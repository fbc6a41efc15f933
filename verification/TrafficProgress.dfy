/** No reachable state is a dead end for a waiting vehicle. */
module TrafficProgress {
  import opened Options
  import opened TrafficSystem
  import opened TrafficSafety
  import opened TrafficRuns

  lemma {:induction false} RunsCompose(city: City, s: State, first: seq<Action>, second: seq<Action>)
    requires Legal(city, s, first) && Legal(city, Final(city, s, first), second)
    ensures Legal(city, s, first + second)
    ensures Final(city, s, first + second) == Final(city, Final(city, s, first), second)
    decreases |second|
  {
    if second == [] {
      assert first + second == first;
    } else {
      var init, a := second[..|second| - 1], second[|second| - 1];
      assert first + second == (first + init) + [a];
      RunsCompose(city, s, first, init);
      LegalSnoc(city, s, first + init, a);
    }
  }

  lemma RunOfOne(city: City, s: State, a: Action)
    requires Enabled(city, s, a)
    ensures Legal(city, s, [a]) && Final(city, s, [a]) == After(city, s, a)
  {
    assert [a][..0] == [];
  }

  lemma RunOfTwo(city: City, s: State, a: Action, b: Action)
    requires Enabled(city, s, a) && Enabled(city, After(city, s, a), b)
    ensures Legal(city, s, [a, b]) && Final(city, s, [a, b]) == After(city, After(city, s, a), b)
  {
    RunOfOne(city, s, a);
    LegalSnoc(city, s, [a], b);
    assert [a] + [b] == [a, b];
  }

  /** A run one step longer. */
  lemma StepOn(city: City, s: State, actions: seq<Action>, t: State, a: Action) returns (t': State)
    requires Inv(city, s) && Legal(city, s, actions) && t == Final(city, s, actions)
    requires Inv(city, t) && Enabled(city, t, a)
    ensures Legal(city, s, actions + [a]) && t' == Final(city, s, actions + [a]) == After(city, t, a) && Inv(city, t')
  {
    LegalSnoc(city, s, actions, a);
    StepKeeps(city, t, a);
    t' := After(city, t, a);
  }

  /** The three steps of a turn, taken without interruption. */
  lemma TurnRun(city: City, s: State, v: nat, next: nat) returns (t: State)
    requires Inv(city, s) && Enabled(city, s, HasLeft(v, next))
    ensures var actions := [HasLeft(v, next), SetDestination(v), SetStreet(v)];
            Legal(city, s, actions) && t == Final(city, s, actions)
    ensures var i := s.cars[v].dest;
            && |t.cars| == |s.cars| && |t.junctions| == |s.junctions|
            && t.cars[v] == Vehicle(next, OtherEnd(city, next, i), Driving)
            && t.junctions[i] == s.junctions[i].(blocked := false, occupant := None)
  {
    var first, both := [HasLeft(v, next)], [HasLeft(v, next), SetDestination(v)];
    RunOfOne(city, s, HasLeft(v, next));
    var left := After(city, s, HasLeft(v, next));
    LegalSnoc(city, s, first, SetDestination(v));
    assert first + [SetDestination(v)] == both;
    var turning := After(city, left, SetDestination(v));
    LegalSnoc(city, s, both, SetStreet(v));
    assert both + [SetStreet(v)] == [HasLeft(v, next), SetDestination(v), SetStreet(v)];
    t := After(city, turning, SetStreet(v));
  }

  /** How many steps the next grant at `i` is away, when only its occupant and its processor move. */
  ghost function StepsToGrant(s: State, i: nat): nat
    requires i < |s.junctions|
  {
    var j := s.junctions[i];
    if j.occupant.Some? then
      var v := j.occupant.value;
      if v < |s.cars| && s.cars[v].phase.Waiting? then 6 else 5
    else
      match j.proc
      case Idle => 4
      case SawQueue => 3
      case SawClear => 2
      case HasBlocked => 1
  }

  lemma SomeStreet(city: City, s: State, v: nat) returns (next: nat)
    requires Inv(city, s) && v < |s.cars| && s.cars[v].phase == Crossing
    ensures Enabled(city, s, HasLeft(v, next))
  {
    assert CarOk(city, s, v);
    var c := s.cars[v];
    if k: nat :| k != c.street && EndsAt(city, k, c.dest) {
      next := k;
    } else {
      next := c.street;
    }
  }

  /** The step that brings the next grant nearer. */
  lemma NextMove(city: City, s: State, i: nat) returns (a: Action)
    requires Inv(city, s) && i < |s.junctions| && s.junctions[i].vehicles != []
    ensures Enabled(city, s, a)
    ensures var j, j' := s.junctions[i], After(city, s, a).junctions[i];
            if j.occupant.None? && j.proc == HasBlocked
            then j'.vehicles == j.vehicles[1..] && j'.grants == j.grants + [j.vehicles[0]]
            else && j'.vehicles == j.vehicles && j'.grants == j.grants
                 && StepsToGrant(After(city, s, a), i) < StepsToGrant(s, i)
  {
    var j := s.junctions[i];
    assert JunctionOk(s, i);
    if j.occupant.Some? {
      var v := j.occupant.value;
      if s.cars[v].phase.Waiting? {
        a := WaitReturns(v);
      } else {
        var next := SomeStreet(city, s, v);
        a := HasLeft(v, next);
      }
    } else {
      match j.proc
      case Idle => a := GetSize(i);
      case SawQueue => a := ReadBlocked(i);
      case SawClear => a := Block(i);
      case HasBlocked =>
        a := PermitEntry(i);
        PermitIsSafe(city, s, i);
    }
  }

  /** From any kept state with a queue at `i`, some continuation grants exactly the first in that queue. */
  lemma {:induction false} NextGrantReachable(city: City, s: State, i: nat) returns (actions: seq<Action>)
    requires Inv(city, s) && i < |s.junctions| && s.junctions[i].vehicles != []
    ensures Legal(city, s, actions) && |Final(city, s, actions).junctions| == |s.junctions|
    ensures var j, j' := s.junctions[i], Final(city, s, actions).junctions[i];
            j'.vehicles == j.vehicles[1..] && j'.grants == j.grants + [j.vehicles[0]]
    decreases StepsToGrant(s, i)
  {
    var a := NextMove(city, s, i);
    var t := After(city, s, a);
    StepKeeps(city, s, a);
    RunOfOne(city, s, a);
    if s.junctions[i].occupant.None? && s.junctions[i].proc == HasBlocked {
      actions := [a];
    } else {
      var rest := NextGrantReachable(city, t, i);
      RunsCompose(city, s, [a], rest);
      actions := [a] + rest;
    }
  }

  /** By the time of `t` the vehicle `k` places from the front in `s` has been granted entry, as the last one. */
  ghost predicate GrantedBy(s: State, t: State, i: nat, k: nat)
    requires i < |s.junctions| && k < |s.junctions[i].vehicles|
  {
    && |t.junctions| == |s.junctions|
    && |t.junctions[i].grants| == |s.junctions[i].grants| + k + 1
    && t.junctions[i].grants[|s.junctions[i].grants| + k] == s.junctions[i].vehicles[k]
  }

  lemma GrantedLater(s: State, t: State, u: State, i: nat, k: nat)
    requires i < |s.junctions| == |t.junctions| && 0 < k < |s.junctions[i].vehicles|
    requires t.junctions[i].vehicles == s.junctions[i].vehicles[1..]
    requires t.junctions[i].grants == s.junctions[i].grants + [s.junctions[i].vehicles[0]]
    requires GrantedBy(t, u, i, k - 1)
    ensures GrantedBy(s, u, i, k)
  {
  }

  /** No reachable state leaves a waiting vehicle behind for good: some continuation grants it entry. */
  lemma {:induction false} WaitingCanBeServed(city: City, s: State, i: nat, k: nat) returns (actions: seq<Action>)
    requires Inv(city, s) && i < |s.junctions| && k < |s.junctions[i].vehicles|
    ensures Legal(city, s, actions) && GrantedBy(s, Final(city, s, actions), i, k)
    decreases k
  {
    actions := NextGrantReachable(city, s, i);
    if k > 0 {
      var t := Final(city, s, actions);
      RunKeeps(city, s, actions);
      var rest := WaitingCanBeServed(city, t, i, k - 1);
      RunsCompose(city, s, actions, rest);
      GrantedLater(s, t, Final(city, t, rest), i, k);
      actions := actions + rest;
    }
  }
}
