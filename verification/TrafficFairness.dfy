/** Endless runs in which no thread is stopped for ever: every waiting vehicle gets in. */
module TrafficFairness {
  import opened TrafficSystem
  import opened TrafficSafety
  import opened TrafficProgress

  ghost predicate StepsAt(city: City, states: nat -> State, actions: nat -> Action, n: nat) {
    Enabled(city, states(n), actions(n)) && states(n + 1) == After(city, states(n), actions(n))
  }

  /** A run without an end. */
  ghost predicate Endless(city: City, states: nat -> State, actions: nat -> Action) {
    Initial(city, states(0)) && forall n: nat :: StepsAt(city, states, actions, n)
  }

  predicate OfProcessor(a: Action, i: nat) {
    a in {GetSize(i), ReadBlocked(i), Block(i), PermitEntry(i)}
  }

  predicate OfVehicle(a: Action, v: nat) {
    match a
    case PushBack(w) => w == v
    case WaitReturns(w) => w == v
    case HasLeft(w, _) => w == v
    case SetDestination(w) => w == v
    case SetStreet(w) => w == v
    case _ => false
  }

  /** The vehicle has been granted entry: its next step stays possible until it is taken. */
  ghost predicate Granted(s: State, v: nat) {
    v < |s.cars| && Inside(s, v, s.cars[v].dest)
  }

  ghost predicate ProcessorMoves(actions: nat -> Action, i: nat, n: nat) {
    exists m: nat :: m >= n && OfProcessor(actions(m), i)
  }

  ghost predicate VehicleMoves(actions: nat -> Action, v: nat, n: nat) {
    exists m: nat :: m >= n && OfVehicle(actions(m), v)
  }

  /** Every queue processor goes on for ever, and a vehicle granted entry moves on some time. */
  ghost predicate Fair(states: nat -> State, actions: nat -> Action) {
    && (forall i: nat, n: nat :: i < |states(n).junctions| ==> ProcessorMoves(actions, i, n))
    && (forall v: nat, n: nat :: Granted(states(n), v) ==> VehicleMoves(actions, v, n))
  }

  lemma {:induction false} EndlessKeeps(city: City, states: nat -> State, actions: nat -> Action, n: nat)
    requires Endless(city, states, actions)
    ensures Inv(city, states(n))
    decreases n
  {
    if n == 0 {
      InitialKeeps(city, states(0));
    } else {
      EndlessKeeps(city, states, actions, n - 1);
      assert StepsAt(city, states, actions, n - 1);
      StepKeeps(city, states(n - 1), actions(n - 1));
    }
  }

  /** Neither assumption asks for more than a thread that is never stopped for ever gives: a processor can always
      take a step, and so can a vehicle granted entry. */
  lemma CanMove(city: City, s: State, i: nat, v: nat) returns (a: Action, b: Action)
    requires Inv(city, s)
    ensures i < |s.junctions| ==> OfProcessor(a, i) && Enabled(city, s, a)
    ensures Granted(s, v) ==> OfVehicle(b, v) && Enabled(city, s, b)
  {
    a, b := GetSize(i), WaitReturns(v);
    if i < |s.junctions| {
      a := match s.junctions[i].proc case Idle => a case SawQueue => ReadBlocked(i) case SawClear => Block(i)
           case HasBlocked => PermitEntry(i);
    }
    if Granted(s, v) && s.cars[v].phase == Crossing {
      var next := SomeStreet(city, s, v);
      b := HasLeft(v, next);
    }
  }

  // ----- one step -----

  /** The vehicle stands `k` places from the front, with its promise beside it. */
  ghost predicate InLine(s: State, i: nat, k: nat, v: nat, promise: nat) {
    && i < |s.junctions| && k < |s.junctions[i].vehicles| && k < |s.junctions[i].promises|
    && s.junctions[i].vehicles[k] == v && s.junctions[i].promises[k] == promise
  }

  /** The step is one the next grant at `i` is waiting for: of the vehicle inside, or else of the processor. */
  ghost predicate Awaited(s: State, i: nat, a: Action)
    requires i < |s.junctions|
  {
    if s.junctions[i].occupant.Some? then OfVehicle(a, s.junctions[i].occupant.value) else OfProcessor(a, i)
  }

  /** A grant moves everyone else up one place. */
  lemma GrantMovesUp(city: City, s: State, i: nat, k: nat, v: nat, promise: nat)
    requires Inv(city, s) && Enabled(city, s, PermitEntry(i)) && InLine(s, i, k, v, promise)
    ensures var t := After(city, s, PermitEntry(i));
            && i < |t.junctions| && t.junctions[i].grants == s.junctions[i].grants + [s.junctions[i].vehicles[0]]
            && s.junctions[i].promises[0] in t.fulfilled
            && (k > 0 ==> InLine(t, i, k - 1, v, promise))
  {
    PermitIsSafe(city, s, i);
  }

  /** No other step loses anyone's place or puts the next grant off. */
  lemma OthersKeepLine(city: City, s: State, a: Action, i: nat, k: nat, v: nat, promise: nat)
    requires Inv(city, s) && Enabled(city, s, a) && InLine(s, i, k, v, promise) && a != PermitEntry(i)
    ensures var t := After(city, s, a);
            && InLine(t, i, k, v, promise) && t.junctions[i].grants == s.junctions[i].grants
            && StepsToGrant(t, i) <= StepsToGrant(s, i)
            && (StepsToGrant(t, i) == StepsToGrant(s, i) ==> t.junctions[i].occupant == s.junctions[i].occupant)
  {
    assert JunctionOk(s, i);
    if a.HasLeft? || a.WaitReturns? {
      assert CarOk(city, s, a.v);
    }
  }

  /** An awaited step brings it nearer. */
  lemma AwaitedNearer(city: City, s: State, a: Action, i: nat)
    requires Inv(city, s) && Enabled(city, s, a) && i < |s.junctions| && s.junctions[i].vehicles != []
    requires Awaited(s, i, a) && a != PermitEntry(i)
    ensures i < |After(city, s, a).junctions| && StepsToGrant(After(city, s, a), i) < StepsToGrant(s, i)
  {
    assert JunctionOk(s, i);
    if s.junctions[i].occupant.Some? {
      assert CarOk(city, s, s.junctions[i].occupant.value);
    }
  }

  // ----- endless runs -----

  /** The vehicle is still in its place at time `m`, and nobody has been let in at `i` since time `n`. */
  ghost predicate StillInLine(states: nat -> State, n: nat, m: nat, i: nat, k: nat, v: nat, promise: nat) {
    && m >= n && InLine(states(m), i, k, v, promise)
    && i < |states(n).junctions| && states(m).junctions[i].grants == states(n).junctions[i].grants
  }

  /** From `n` on, up to `end`: a grant, or a time at which one has come nearer, or no change. */
  lemma {:induction false} Walk(city: City, states: nat -> State, actions: nat -> Action, n: nat, end: nat,
                                i: nat, k: nat, v: nat, promise: nat) returns (m: nat)
    requires Endless(city, states, actions) && n <= end && InLine(states(n), i, k, v, promise)
    ensures StillInLine(states, n, m, i, k, v, promise)
    ensures || actions(m) == PermitEntry(i)
            || StepsToGrant(states(m), i) < StepsToGrant(states(n), i)
            || (m == end && StepsToGrant(states(m), i) == StepsToGrant(states(n), i)
                && states(m).junctions[i].occupant == states(n).junctions[i].occupant)
    decreases end - n
  {
    m := n;
    if n < end && actions(n) != PermitEntry(i) {
      EndlessKeeps(city, states, actions, n);
      assert StepsAt(city, states, actions, n);
      OthersKeepLine(city, states(n), actions(n), i, k, v, promise);
      if StepsToGrant(states(n + 1), i) < StepsToGrant(states(n), i) {
        m := n + 1;
      } else {
        m := Walk(city, states, actions, n + 1, end, i, k, v, promise);
      }
    }
  }

  /** An awaited step is taken some time. */
  lemma AwaitedComes(city: City, states: nat -> State, actions: nat -> Action, n: nat, i: nat) returns (m: nat)
    requires Endless(city, states, actions) && Fair(states, actions) && i < |states(n).junctions|
    ensures m >= n && Awaited(states(n), i, actions(m))
  {
    EndlessKeeps(city, states, actions, n);
    assert JunctionOk(states(n), i);
    if states(n).junctions[i].occupant.Some? {
      var v := states(n).junctions[i].occupant.value;
      assert Granted(states(n), v);
      assert VehicleMoves(actions, v, n);
      m :| m >= n && OfVehicle(actions(m), v);
    } else {
      assert ProcessorMoves(actions, i, n);
      m :| m >= n && OfProcessor(actions(m), i);
    }
  }

  /** While anyone queues, the next grant comes. */
  lemma {:induction false} NextGrantComes(city: City, states: nat -> State, actions: nat -> Action, n: nat,
                                          i: nat, k: nat, v: nat, promise: nat) returns (m: nat)
    requires Endless(city, states, actions) && Fair(states, actions) && InLine(states(n), i, k, v, promise)
    ensures StillInLine(states, n, m, i, k, v, promise) && actions(m) == PermitEntry(i)
    decreases StepsToGrant(states(n), i)
  {
    var end := AwaitedComes(city, states, actions, n, i);
    m := Walk(city, states, actions, n, end, i, k, v, promise);
    if actions(m) != PermitEntry(i) {
      if m == end && StepsToGrant(states(m), i) == StepsToGrant(states(n), i) {
        EndlessKeeps(city, states, actions, m);
        assert StepsAt(city, states, actions, m);
        AwaitedNearer(city, states(m), actions(m), i);
        OthersKeepLine(city, states(m), actions(m), i, k, v, promise);
        m := m + 1;
      }
      m := NextGrantComes(city, states, actions, m, i, k, v, promise);
    }
  }

  /** In every fair endless run a vehicle `k` places from the front of a queue is let in after exactly `k` others. */
  lemma {:induction false} FairlyServed(city: City, states: nat -> State, actions: nat -> Action, n: nat,
                                        i: nat, k: nat, v: nat, promise: nat) returns (m: nat)
    requires Endless(city, states, actions) && Fair(states, actions) && InLine(states(n), i, k, v, promise)
    ensures m >= n && actions(m) == PermitEntry(i) && InLine(states(m), i, 0, v, promise)
    ensures |states(m).junctions[i].grants| == |states(n).junctions[i].grants| + k
    ensures i < |states(m + 1).junctions| && states(m + 1).junctions[i].grants == states(m).junctions[i].grants + [v]
    ensures promise in states(m + 1).fulfilled
    decreases k
  {
    m := NextGrantComes(city, states, actions, n, i, k, v, promise);
    EndlessKeeps(city, states, actions, m);
    assert StepsAt(city, states, actions, m);
    GrantMovesUp(city, states(m), i, k, v, promise);
    if k > 0 {
      m := FairlyServed(city, states, actions, m + 1, i, k - 1, v, promise);
    }
  }

  /** Only its own steps change a vehicle, and a waiting one can only return from its wait. */
  lemma OwnSteps(city: City, s: State, a: Action, v: nat)
    requires Enabled(city, s, a) && v < |s.cars| && s.cars[v].phase.Waiting?
    ensures if OfVehicle(a, v) then a == WaitReturns(v)
            else v < |After(city, s, a).cars| && After(city, s, a).cars[v] == s.cars[v]
  {
  }

  /** From `n` on, up to `end`, the vehicle goes on waiting until it takes its own step. */
  lemma {:induction false} WaitsUntil(city: City, states: nat -> State, actions: nat -> Action,
                                      n: nat, end: nat, v: nat) returns (m: nat)
    requires Endless(city, states, actions) && n <= end && v < |states(n).cars| && states(n).cars[v].phase.Waiting?
    ensures n <= m <= end && v < |states(m).cars| && states(m).cars[v] == states(n).cars[v]
    ensures m == end || actions(m) == WaitReturns(v)
    decreases end - n
  {
    m := n;
    if n < end && actions(n) != WaitReturns(v) {
      assert StepsAt(city, states, actions, n);
      OwnSteps(city, states(n), actions(n), v);
      m := WaitsUntil(city, states, actions, n + 1, end, v);
    }
  }

  /** In every fair endless run the promise of a waiting vehicle is fulfilled some time. */
  lemma PromiseKept(city: City, states: nat -> State, actions: nat -> Action, n: nat, v: nat) returns (m: nat)
    requires Endless(city, states, actions) && Fair(states, actions)
    requires v < |states(n).cars| && states(n).cars[v].phase.Waiting?
    ensures m >= n && states(n).cars[v].phase.promise in states(m).fulfilled
  {
    var s := states(n);
    EndlessKeeps(city, states, actions, n);
    assert CarOk(city, s, v);
    var i, promise := s.cars[v].dest, s.cars[v].phase.promise;
    if promise in s.fulfilled {
      m := n;
    } else {
      var k: nat :| QueuedAt(s, i, k) && s.junctions[i].vehicles[k] == v;
      m := FairlyServed(city, states, actions, n, i, k, v, promise);
      m := m + 1;
    }
  }

  /** In every fair endless run every request for entry returns. */
  lemma EveryWaitEnds(city: City, states: nat -> State, actions: nat -> Action, n: nat, v: nat) returns (m: nat)
    requires Endless(city, states, actions) && Fair(states, actions)
    requires v < |states(n).cars| && states(n).cars[v].phase.Waiting?
    ensures m >= n && actions(m) == WaitReturns(v)
    ensures v < |states(m).cars| && states(m).cars[v] == states(n).cars[v]
  {
    var kept := PromiseKept(city, states, actions, n, v);
    m := WaitsUntil(city, states, actions, n, kept, v);
    if actions(m) != WaitReturns(v) {
      assert Granted(states(m), v);
      assert VehicleMoves(actions, v, m);
      var end: nat :| end >= m && OfVehicle(actions(end), v);
      m := WaitsUntil(city, states, actions, m, end, v);
      assert StepsAt(city, states, actions, m);
      OwnSteps(city, states(m), actions(m), v);
    }
  }
}
