/** Vehicles and queue processors of the traffic simulation, one atomic step at a time
    (Intersection.cpp:13-141, Vehicle.cpp:77-123). */
module TrafficSystem {
  import opened Options

  /** Streets by number; each joins two intersections. */
  datatype Street = Street(inAt: nat, outAt: nat)

  datatype City = City(crossings: nat, streets: seq<Street>)

  ghost predicate CityOk(city: City) {
    forall k :: 0 <= k < |city.streets| ==>
      city.streets[k].inAt < city.crossings && city.streets[k].outAt < city.crossings
  }

  predicate EndsAt(city: City, street: nat, i: nat) {
    street < |city.streets| && (city.streets[street].inAt == i || city.streets[street].outAt == i)
  }

  /** The intersection at the other end, as `drive` picks it (Vehicle.cpp:111). */
  function OtherEnd(city: City, street: nat, i: nat): nat
    requires street < |city.streets|
  {
    if city.streets[street].inAt == i then city.streets[street].outAt else city.streets[street].inAt
  }

  /** Where a vehicle may go on from `i`: any other street there, or back when there is none (Vehicle.cpp:94-108). */
  ghost predicate MayTake(city: City, i: nat, incoming: nat, next: nat) {
    if exists k: nat :: k != incoming && EndsAt(city, k, i)
    then next != incoming && EndsAt(city, next, i)
    else next == incoming
  }

  /** Where a vehicle's thread stands. `Waiting` holds the promise it was given; `Leaving` and `Turning` come
      after unblocking the intersection and after setting the new destination. */
  datatype Phase = Driving | Waiting(promise: nat) | Crossing | Leaving(next: nat) | Turning(next: nat)

  datatype Vehicle = Vehicle(street: nat, dest: nat, phase: Phase)

  /** Where an intersection's queue processor stands: having seen a non-empty queue, then an unblocked
      intersection, then having blocked it. */
  datatype Processor = Idle | SawQueue | SawClear | HasBlocked

  /** `arrivals`, `grants` and `occupant` are history: no step reads them. */
  datatype Junction = Junction(vehicles: seq<nat>, promises: seq<nat>, blocked: bool, proc: Processor,
                               arrivals: seq<nat>, grants: seq<nat>, occupant: Option<nat>)

  /** `fault` is set by a pop from an empty queue or a promise fulfilled twice. */
  datatype State = State(cars: seq<Vehicle>, junctions: seq<Junction>, fulfilled: set<nat>,
                         nextPromise: nat, fault: bool)

  datatype Action =
    | PushBack(v: nat)              // the vehicle queues with a new promise
    | WaitReturns(v: nat)           // its promise is set, and any wait at the light is over
    | HasLeft(v: nat, next: nat)    // it has chosen a street, and unblocks the intersection
    | SetDestination(v: nat)
    | SetStreet(v: nat)
    | GetSize(i: nat)
    | ReadBlocked(i: nat)
    | Block(i: nat)
    | PermitEntry(i: nat)

  ghost predicate Enabled(city: City, s: State, a: Action) {
    match a
    case PushBack(v) => v < |s.cars| && s.cars[v].phase == Driving && s.cars[v].dest < |s.junctions|
    case WaitReturns(v) => v < |s.cars| && s.cars[v].phase.Waiting? && s.cars[v].phase.promise in s.fulfilled
    case HasLeft(v, next) =>
      && v < |s.cars| && s.cars[v].phase == Crossing && s.cars[v].dest < |s.junctions|
      && next < |city.streets| && MayTake(city, s.cars[v].dest, s.cars[v].street, next)
    case SetDestination(v) => v < |s.cars| && s.cars[v].phase.Leaving? && s.cars[v].phase.next < |city.streets|
    case SetStreet(v) => v < |s.cars| && s.cars[v].phase.Turning?
    case GetSize(i) => i < |s.junctions| && s.junctions[i].proc == Idle
    case ReadBlocked(i) => i < |s.junctions| && s.junctions[i].proc == SawQueue
    case Block(i) => i < |s.junctions| && s.junctions[i].proc == SawClear
    case PermitEntry(i) => i < |s.junctions| && s.junctions[i].proc == HasBlocked
  }

  function WithCar(s: State, v: nat, c: Vehicle): State
    requires v < |s.cars|
  {
    s.(cars := s.cars[v := c])
  }

  function WithJunction(s: State, i: nat, j: Junction): State
    requires i < |s.junctions|
  {
    s.(junctions := s.junctions[i := j])
  }

  /** The state after one atomic step. */
  ghost function After(city: City, s: State, a: Action): State
    requires Enabled(city, s, a)
  {
    match a
    case PushBack(v) =>
      var i, p := s.cars[v].dest, s.nextPromise;
      var j := s.junctions[i];
      var j' := j.(vehicles := j.vehicles + [v], promises := j.promises + [p], arrivals := j.arrivals + [v]);
      WithCar(WithJunction(s, i, j'), v, s.cars[v].(phase := Waiting(p))).(nextPromise := p + 1)
    case WaitReturns(v) => WithCar(s, v, s.cars[v].(phase := Crossing))
    case HasLeft(v, next) =>
      var i := s.cars[v].dest;
      WithCar(WithJunction(s, i, s.junctions[i].(blocked := false, occupant := None)),
              v, s.cars[v].(phase := Leaving(next)))
    case SetDestination(v) =>
      var next := s.cars[v].phase.next;
      WithCar(s, v, s.cars[v].(dest := OtherEnd(city, next, s.cars[v].dest), phase := Turning(next)))
    case SetStreet(v) => WithCar(s, v, s.cars[v].(street := s.cars[v].phase.next, phase := Driving))
    case GetSize(i) =>
      WithJunction(s, i, s.junctions[i].(proc := if |s.junctions[i].vehicles| > 0 then SawQueue else Idle))
    case ReadBlocked(i) =>
      WithJunction(s, i, s.junctions[i].(proc := if s.junctions[i].blocked then Idle else SawClear))
    case Block(i) => WithJunction(s, i, s.junctions[i].(proc := HasBlocked, blocked := true))
    case PermitEntry(i) =>
      var j := s.junctions[i];
      if j.vehicles == [] || j.promises == [] || j.promises[0] in s.fulfilled then s.(fault := true)
      else
        WithJunction(s, i, j.(vehicles := j.vehicles[1..], promises := j.promises[1..], proc := Idle,
                              grants := j.grants + [j.vehicles[0]], occupant := Some(j.vehicles[0])))
        .(fulfilled := s.fulfilled + {j.promises[0]})
  }

  /** Everyone driving towards an end of their street, every queue empty, no intersection blocked. */
  ghost predicate Initial(city: City, s: State) {
    && CityOk(city) && |s.junctions| == city.crossings && !s.fault
    && (forall v :: 0 <= v < |s.cars| ==> s.cars[v].phase == Driving && EndsAt(city, s.cars[v].street, s.cars[v].dest))
    && (forall i :: 0 <= i < |s.junctions| ==> s.junctions[i] == Junction([], [], false, Idle, [], [], None))
    && s.fulfilled == {}
  }

  // ----- what every interleaving keeps -----

  /** The vehicle has been granted entry to its destination and has not left it. */
  ghost predicate Inside(s: State, v: nat, i: nat) {
    && v < |s.cars| && s.cars[v].dest == i
    && (s.cars[v].phase == Crossing || (s.cars[v].phase.Waiting? && s.cars[v].phase.promise in s.fulfilled))
  }

  /** Position `k` of the two lists of a queue: a vehicle bound for here, waiting on exactly that promise. */
  ghost predicate QueuedAt(s: State, i: nat, k: nat) {
    && i < |s.junctions| && k < |s.junctions[i].vehicles| && k < |s.junctions[i].promises|
    && var v := s.junctions[i].vehicles[k];
    && v < |s.cars| && s.cars[v].dest == i
    && s.cars[v].phase == Waiting(s.junctions[i].promises[k])
    && s.junctions[i].promises[k] !in s.fulfilled
  }

  ghost predicate JunctionOk(s: State, i: nat)
    requires i < |s.junctions|
  {
    var j := s.junctions[i];
    && |j.vehicles| == |j.promises|
    && (j.blocked <==> (j.proc == HasBlocked || j.occupant.Some?))
    && (j.proc == HasBlocked ==> j.occupant.None?)
    && (j.proc == SawClear ==> !j.blocked)
    && (j.proc != Idle ==> j.vehicles != [])
    && j.arrivals == j.grants + j.vehicles
    && (j.occupant.Some? ==> Inside(s, j.occupant.value, i))
    && forall k, l :: 0 <= k < l < |j.promises| ==> j.promises[k] < j.promises[l]
  }

  ghost predicate CarOk(city: City, s: State, v: nat)
    requires v < |s.cars|
  {
    var c := s.cars[v];
    && c.dest < |s.junctions| && c.street < |city.streets|
    && (match c.phase
        case Waiting(p) =>
          && p < s.nextPromise
          && (if p in s.fulfilled then s.junctions[c.dest].occupant == Some(v)
              else exists k: nat :: QueuedAt(s, c.dest, k) && s.junctions[c.dest].vehicles[k] == v)
        case Crossing => s.junctions[c.dest].occupant == Some(v)
        case _ => true)
    && (match c.phase
        case Turning(next) => EndsAt(city, next, c.dest)
        case Leaving(next) => EndsAt(city, c.street, c.dest) && EndsAt(city, next, c.dest)
        case _ => EndsAt(city, c.street, c.dest))
  }

  /** No two vehicles wait on the same promise. */
  ghost predicate OwnPromise(s: State, v: nat, w: nat) {
    v < |s.cars| && w < |s.cars| && s.cars[v].phase.Waiting? && s.cars[v].phase == s.cars[w].phase ==> v == w
  }

  ghost predicate Inv(city: City, s: State) {
    && CityOk(city) && |s.junctions| == city.crossings && !s.fault
    && (forall p :: p in s.fulfilled ==> p < s.nextPromise)
    && (forall i: nat :: i < |s.junctions| ==> JunctionOk(s, i))
    && (forall i: nat, k: nat :: i < |s.junctions| && k < |s.junctions[i].vehicles| ==> QueuedAt(s, i, k))
    && (forall v: nat :: v < |s.cars| ==> CarOk(city, s, v))
    && (forall v: nat, w: nat :: OwnPromise(s, v, w))
  }
}
