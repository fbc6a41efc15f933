/** Every interleaving of vehicles and queue processors keeps the invariant. */
module TrafficSafety {
  import opened Options
  import opened TrafficSystem

  // ----- steps that touch one vehicle only -----

  lemma QueuedIs(city: City, s: State, i: nat, k: nat)
    requires Inv(city, s) && i < |s.junctions| && k < |s.junctions[i].vehicles|
    ensures QueuedAt(s, i, k) && s.junctions[i].promises[k] < s.nextPromise
    ensures |s.junctions[i].promises| == |s.junctions[i].vehicles|
  {
    assert QueuedAt(s, i, k);
    assert CarOk(city, s, s.junctions[i].vehicles[k]);
    assert JunctionOk(s, i);
  }

  /** A vehicle that neither waits in a queue nor occupies an intersection may change freely. */
  lemma LooseCarStep(city: City, s: State, v: nat, c: Vehicle)
    requires Inv(city, s) && v < |s.cars|
    requires s.cars[v].phase in {Driving} || s.cars[v].phase.Leaving? || s.cars[v].phase.Turning?
    requires c.phase == Driving || c.phase.Leaving? || c.phase.Turning?
    requires CarOk(city, WithCar(s, v, c), v)
    ensures Inv(city, WithCar(s, v, c))
  {
    var t := WithCar(s, v, c);
    forall i: nat, k: nat | i < |t.junctions| && k < |t.junctions[i].vehicles| ensures QueuedAt(t, i, k) {
      QueuedIs(city, s, i, k);
    }
    forall i: nat | i < |t.junctions| ensures JunctionOk(t, i) {
      assert JunctionOk(s, i);
    }
    forall w: nat | w < |t.cars| ensures CarOk(city, t, w) {
      if w != v {
        CarStays(city, s, t, w);
      }
    }
    forall u: nat, w: nat ensures OwnPromise(t, u, w) {
      assert OwnPromise(s, u, w);
    }
  }

  /** What a vehicle needs of the rest of the state. */
  lemma CarStays(city: City, s: State, t: State, w: nat)
    requires w < |s.cars| && CarOk(city, s, w) && w < |t.cars| && t.cars[w] == s.cars[w]
    requires s.nextPromise <= t.nextPromise && |t.junctions| == |s.junctions|
    requires s.fulfilled <= t.fulfilled
    requires s.cars[w].phase.Waiting? && s.cars[w].phase.promise !in s.fulfilled ==>
             s.cars[w].phase.promise !in t.fulfilled
    requires forall k: nat :: QueuedAt(s, s.cars[w].dest, k) && s.junctions[s.cars[w].dest].vehicles[k] == w ==>
             exists l: nat :: QueuedAt(t, s.cars[w].dest, l) && t.junctions[s.cars[w].dest].vehicles[l] == w
    requires s.cars[w].dest < |s.junctions| && s.junctions[s.cars[w].dest].occupant == Some(w) ==>
             t.junctions[s.cars[w].dest].occupant == Some(w)
    ensures CarOk(city, t, w)
  {
    var c := s.cars[w];
    if c.phase.Waiting? && c.phase.promise !in s.fulfilled {
      var k: nat :| QueuedAt(s, c.dest, k) && s.junctions[c.dest].vehicles[k] == w;
    }
  }

  lemma SetStreetKeeps(city: City, s: State, v: nat)
    requires Inv(city, s) && Enabled(city, s, SetStreet(v))
    ensures Inv(city, After(city, s, SetStreet(v)))
  {
    assert CarOk(city, s, v);
    LooseCarStep(city, s, v, s.cars[v].(street := s.cars[v].phase.next, phase := Driving));
  }

  lemma SetDestinationKeeps(city: City, s: State, v: nat)
    requires Inv(city, s) && Enabled(city, s, SetDestination(v))
    ensures Inv(city, After(city, s, SetDestination(v)))
  {
    assert CarOk(city, s, v);
    var next := s.cars[v].phase.next;
    LooseCarStep(city, s, v, s.cars[v].(dest := OtherEnd(city, next, s.cars[v].dest), phase := Turning(next)));
  }

  lemma WaitReturnsKeeps(city: City, s: State, v: nat)
    requires Inv(city, s) && Enabled(city, s, WaitReturns(v))
    ensures Inv(city, After(city, s, WaitReturns(v)))
  {
    var t := After(city, s, WaitReturns(v));
    assert CarOk(city, s, v);
    forall i: nat, k: nat | i < |t.junctions| && k < |t.junctions[i].vehicles| ensures QueuedAt(t, i, k) {
      QueuedIs(city, s, i, k);
    }
    forall i: nat | i < |t.junctions| ensures JunctionOk(t, i) {
      assert JunctionOk(s, i);
    }
    forall w: nat | w < |t.cars| ensures CarOk(city, t, w) {
      assert CarOk(city, s, w);
      if w != v {
        CarStays(city, s, t, w);
      }
    }
    forall u: nat, w: nat ensures OwnPromise(t, u, w) {
      assert OwnPromise(s, u, w);
    }
  }

  // ----- steps of a queue processor that leave the queue alone -----

  lemma ProcessorStep(city: City, s: State, i: nat, j: Junction)
    requires Inv(city, s) && i < |s.junctions|
    requires j.vehicles == s.junctions[i].vehicles && j.promises == s.junctions[i].promises
    requires j.occupant == s.junctions[i].occupant
    requires JunctionOk(WithJunction(s, i, j), i)
    ensures Inv(city, WithJunction(s, i, j))
  {
    var t := WithJunction(s, i, j);
    forall m: nat, k: nat | m < |t.junctions| && k < |t.junctions[m].vehicles| ensures QueuedAt(t, m, k) {
      QueuedIs(city, s, m, k);
    }
    forall m: nat | m < |t.junctions| ensures JunctionOk(t, m) {
      assert JunctionOk(s, m);
    }
    forall w: nat | w < |t.cars| ensures CarOk(city, t, w) {
      assert CarOk(city, s, w);
      forall k: nat | QueuedAt(s, s.cars[w].dest, k) ensures QueuedAt(t, s.cars[w].dest, k) {
      }
      CarStays(city, s, t, w);
    }
    forall u: nat, w: nat ensures OwnPromise(t, u, w) {
      assert OwnPromise(s, u, w);
    }
  }

  lemma ProcessorKeeps(city: City, s: State, a: Action)
    requires Inv(city, s) && Enabled(city, s, a)
    requires a.GetSize? || a.ReadBlocked? || a.Block?
    ensures Inv(city, After(city, s, a))
  {
    assert JunctionOk(s, a.i);
    ProcessorStep(city, s, a.i, After(city, s, a).junctions[a.i]);
  }

  // ----- queueing, entering, leaving -----

  lemma PushBackKeeps(city: City, s: State, v: nat)
    requires Inv(city, s) && Enabled(city, s, PushBack(v))
    ensures Inv(city, After(city, s, PushBack(v)))
  {
    var t, i := After(city, s, PushBack(v)), s.cars[v].dest;
    assert CarOk(city, s, v) && JunctionOk(s, i);
    forall m: nat, k: nat | m < |t.junctions| && k < |t.junctions[m].vehicles| ensures QueuedAt(t, m, k) {
      if m != i || k < |s.junctions[i].vehicles| {
        QueuedIs(city, s, m, k);
      }
    }
    forall m: nat | m < |t.junctions| ensures JunctionOk(t, m) {
      PushBackJunction(city, s, v, m);
    }
    forall w: nat | w < |t.cars| ensures CarOk(city, t, w) {
      assert CarOk(city, s, w);
      if w == v {
        assert QueuedAt(t, i, |s.junctions[i].vehicles|);
      } else {
        forall k: nat | QueuedAt(s, s.cars[w].dest, k) && s.junctions[s.cars[w].dest].vehicles[k] == w
          ensures QueuedAt(t, s.cars[w].dest, k) && t.junctions[s.cars[w].dest].vehicles[k] == w
        {
        }
        CarStays(city, s, t, w);
      }
    }
    forall u: nat, w: nat ensures OwnPromise(t, u, w) {
      assert OwnPromise(s, u, w);
      assert u < |s.cars| ==> CarOk(city, s, u);
      assert w < |s.cars| ==> CarOk(city, s, w);
    }
  }

  lemma PushBackJunction(city: City, s: State, v: nat, m: nat)
    requires Inv(city, s) && Enabled(city, s, PushBack(v)) && m < |s.junctions|
    ensures JunctionOk(After(city, s, PushBack(v)), m)
  {
    var t := After(city, s, PushBack(v));
    var j, j' := s.junctions[m], t.junctions[m];
    assert JunctionOk(s, m);
    forall k | 0 <= k < |j.promises| ensures j.promises[k] < s.nextPromise {
      QueuedIs(city, s, m, k);
    }
    assert j'.arrivals == j'.grants + j'.vehicles;
  }

  lemma HasLeftKeeps(city: City, s: State, v: nat, next: nat)
    requires Inv(city, s) && Enabled(city, s, HasLeft(v, next))
    ensures Inv(city, After(city, s, HasLeft(v, next)))
  {
    var t, i := After(city, s, HasLeft(v, next)), s.cars[v].dest;
    assert CarOk(city, s, v) && JunctionOk(s, i);
    forall m: nat, k: nat | m < |t.junctions| && k < |t.junctions[m].vehicles| ensures QueuedAt(t, m, k) {
      QueuedIs(city, s, m, k);
    }
    forall m: nat | m < |t.junctions| ensures JunctionOk(t, m) {
      assert JunctionOk(s, m);
    }
    forall w: nat | w < |t.cars| ensures CarOk(city, t, w) {
      assert CarOk(city, s, w);
      if w != v {
        forall k: nat | QueuedAt(s, s.cars[w].dest, k) && s.junctions[s.cars[w].dest].vehicles[k] == w
          ensures QueuedAt(t, s.cars[w].dest, k) && t.junctions[s.cars[w].dest].vehicles[k] == w
        {
        }
        CarStays(city, s, t, w);
      }
    }
    forall u: nat, w: nat ensures OwnPromise(t, u, w) {
      assert OwnPromise(s, u, w);
    }
  }

  /** Blocked by its processor, an intersection has someone to let in and no one inside. */
  lemma PermitIsSafe(city: City, s: State, i: nat)
    requires Inv(city, s) && Enabled(city, s, PermitEntry(i))
    ensures var j := s.junctions[i];
            j.vehicles != [] && |j.promises| == |j.vehicles| && j.promises[0] !in s.fulfilled && j.occupant.None?
  {
    assert JunctionOk(s, i);
    QueuedIs(city, s, i, 0);
  }

  lemma PermitQueue(city: City, s: State, i: nat, m: nat, k: nat)
    requires Inv(city, s) && Enabled(city, s, PermitEntry(i))
    requires var t := After(city, s, PermitEntry(i)); m < |t.junctions| && k < |t.junctions[m].vehicles|
    ensures QueuedAt(After(city, s, PermitEntry(i)), m, k)
  {
    PermitIsSafe(city, s, i);
    QueuedIs(city, s, i, 0);
    var first := s.junctions[i].vehicles[0];
    if m == i {
      QueuedIs(city, s, i, k + 1);
      assert JunctionOk(s, i);
    } else {
      QueuedIs(city, s, m, k);
      assert OwnPromise(s, first, s.junctions[m].vehicles[k]);
    }
  }

  lemma PermitJunction(city: City, s: State, i: nat, m: nat)
    requires Inv(city, s) && Enabled(city, s, PermitEntry(i)) && m < |s.junctions|
    ensures JunctionOk(After(city, s, PermitEntry(i)), m)
  {
    var t := After(city, s, PermitEntry(i));
    PermitIsSafe(city, s, i);
    QueuedIs(city, s, i, 0);
    assert JunctionOk(s, m);
    if m == i {
      var j, j' := s.junctions[i], t.junctions[i];
      assert j.vehicles == [j.vehicles[0]] + j'.vehicles;
      assert j'.arrivals == j'.grants + j'.vehicles;
    }
  }

  lemma PermitCar(city: City, s: State, i: nat, w: nat)
    requires Inv(city, s) && Enabled(city, s, PermitEntry(i)) && w < |s.cars|
    ensures CarOk(city, After(city, s, PermitEntry(i)), w)
  {
    var t := After(city, s, PermitEntry(i));
    PermitIsSafe(city, s, i);
    QueuedIs(city, s, i, 0);
    assert CarOk(city, s, w);
    var first, c := s.junctions[i].vehicles[0], s.cars[w];
    if w != first {
      assert OwnPromise(s, first, w);
      assert JunctionOk(s, i);
      forall k: nat | QueuedAt(s, c.dest, k) && s.junctions[c.dest].vehicles[k] == w
        ensures exists l: nat :: QueuedAt(t, c.dest, l) && t.junctions[c.dest].vehicles[l] == w
      {
        var l: nat := if c.dest == i then k - 1 else k;
        PermitQueue(city, s, i, c.dest, l);
      }
      CarStays(city, s, t, w);
    }
  }

  lemma PermitKeeps(city: City, s: State, i: nat)
    requires Inv(city, s) && Enabled(city, s, PermitEntry(i))
    ensures Inv(city, After(city, s, PermitEntry(i)))
  {
    var t := After(city, s, PermitEntry(i));
    PermitIsSafe(city, s, i);
    QueuedIs(city, s, i, 0);
    forall m: nat, k: nat | m < |t.junctions| && k < |t.junctions[m].vehicles| ensures QueuedAt(t, m, k) {
      PermitQueue(city, s, i, m, k);
    }
    forall m: nat | m < |t.junctions| ensures JunctionOk(t, m) {
      PermitJunction(city, s, i, m);
    }
    forall w: nat | w < |t.cars| ensures CarOk(city, t, w) {
      PermitCar(city, s, i, w);
    }
    forall u: nat, w: nat ensures OwnPromise(t, u, w) {
      assert OwnPromise(s, u, w);
    }
  }

  lemma StepKeeps(city: City, s: State, a: Action)
    requires Inv(city, s) && Enabled(city, s, a)
    ensures Inv(city, After(city, s, a))
  {
    match a
    case PushBack(v) => PushBackKeeps(city, s, v);
    case WaitReturns(v) => WaitReturnsKeeps(city, s, v);
    case HasLeft(v, next) => HasLeftKeeps(city, s, v, next);
    case SetDestination(v) => SetDestinationKeeps(city, s, v);
    case SetStreet(v) => SetStreetKeeps(city, s, v);
    case PermitEntry(i) => PermitKeeps(city, s, i);
    case _ => ProcessorKeeps(city, s, a);
  }

  lemma InitialKeeps(city: City, s: State)
    requires Initial(city, s)
    ensures Inv(city, s)
  {
    forall v: nat | v < |s.cars| ensures CarOk(city, s, v) {
      assert s.cars[v].phase == Driving && EndsAt(city, s.cars[v].street, s.cars[v].dest);
    }
    forall i: nat | i < |s.junctions| ensures JunctionOk(s, i) {
      assert s.junctions[i] == Junction([], [], false, Idle, [], [], None);
    }
    assert forall i: nat :: i < |s.junctions| ==> s.junctions[i].vehicles == [];
    forall u: nat, w: nat ensures OwnPromise(s, u, w) {
      assert u < |s.cars| ==> s.cars[u].phase == Driving;
    }
  }
}
