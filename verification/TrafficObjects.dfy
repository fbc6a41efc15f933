/** The queue, intersection and vehicle objects: their methods are atomic steps of the transition system, and whole
    turns of the two threads are runs of it. */
module TrafficObjects {
  import opened Options
  import opened TrafficSystem
  import opened TrafficSafety
  import opened TrafficRuns
  import opened TrafficProgress
  import opened Sequences

  /** Two lists under one mutex (Intersection.cpp:13-42). */
  class WaitingVehicles {
    var vehicles: seq<nat>
    var promises: seq<nat>

    constructor ()
      ensures vehicles == [] && promises == []
    {
      vehicles, promises := [], [];
    }

    method GetSize() returns (n: nat)
      ensures n == |vehicles|
    {
      n := |vehicles|;
    }

    method PushBack(vehicle: nat, promise: nat)
      modifies this
      ensures vehicles == old(vehicles) + [vehicle] && promises == old(promises) + [promise]
    {
      vehicles := vehicles + [vehicle];
      promises := promises + [promise];
    }

    /** Fulfils the first promise and erases the first entry of both lists. */
    method PermitEntryToFirstInQueue() returns (fulfilled: nat)
      requires vehicles != [] && promises != []
      modifies this
      ensures [fulfilled] + promises == old(promises)
      ensures vehicles == old(vehicles)[1..]
    {
      fulfilled := promises[0];
      vehicles := vehicles[1..];
      promises := promises[1..];
    }
  }

  /** The streets other than the incoming one, in order. */
  function Others(streets: seq<nat>, incoming: nat): seq<nat> {
    if streets == [] then []
    else
      var n := |streets| - 1;
      Others(streets[..n], incoming) + if incoming != streets[n] then [streets[n]] else []
  }

  lemma {:induction false} OthersMeans(streets: seq<nat>, incoming: nat, k: nat)
    ensures k in Others(streets, incoming) <==> k in streets && k != incoming
    ensures multiset(Others(streets, incoming))[k] == if k == incoming then 0 else multiset(streets)[k]
    decreases |streets|
  {
    if streets != [] {
      var n := |streets| - 1;
      OthersMeans(streets[..n], incoming, k);
      assert streets == streets[..n] + [streets[n]];
    }
  }

  function OtherThan(incoming: nat): nat -> bool {
    k => k != incoming
  }

  /** They are the entries other than the incoming street, at increasing positions: none lost, none twice. */
  lemma {:induction false} OthersInOrder(streets: seq<nat>, incoming: nat) returns (at: seq<nat>)
    ensures Filters(streets, OtherThan(incoming), at, Others(streets, incoming))
    decreases |streets|
  {
    at := [];
    if streets != [] {
      var n := |streets| - 1;
      var before := OthersInOrder(streets[..n], incoming);
      InitAndLast(streets);
      FiltersSnoc(streets[..n], streets[n], OtherThan(incoming), before, Others(streets[..n], incoming));
      at := PickedWith(streets[..n], streets[n], OtherThan(incoming), before);
    }
  }

  /** The choice between the other streets for a draw; back when there are none. */
  function Drawn(streets: seq<nat>, incoming: nat, draw: nat): nat {
    var options := Others(streets, incoming);
    if options == [] then incoming else options[draw % |options|]
  }

  lemma SmallRemainder(a: nat, n: nat)
    requires a < n
    ensures a % n == a
  {
  }

  lemma PositionOf(options: seq<nat>, x: nat) returns (k: nat)
    requires x in options
    ensures k < |options| && options[k] == x
  {
    k :| k < |options| && options[k] == x;
  }

  lemma SomeDraw(streets: seq<nat>, incoming: nat, next: nat) returns (draw: nat)
    requires if Others(streets, incoming) != [] then next in Others(streets, incoming) else next == incoming
    ensures Others(streets, incoming) != [] ==> draw < |Others(streets, incoming)|
    ensures Drawn(streets, incoming, draw) == next
  {
    var options := Others(streets, incoming);
    draw := 0;
    if options != [] {
      draw := PositionOf(options, next);
      SmallRemainder(draw, |options|);
    }
  }

  class Intersection {
    const city: City
    const number: nat
    var streets: seq<nat>
    var isBlocked: bool
    const waiting: WaitingVehicles

    constructor (c: City, i: nat)
      ensures city == c && number == i && streets == [] && !isBlocked
      ensures fresh(waiting) && waiting.vehicles == [] && waiting.promises == []
    {
      city, number, streets, isBlocked := c, i, [], false;
      waiting := new WaitingVehicles();
    }

    /** The object shows this junction of the transition system. */
    ghost predicate Shows(j: Junction)
      reads this, waiting
    {
      waiting.vehicles == j.vehicles && waiting.promises == j.promises && isBlocked == j.blocked
    }

    /** `queryStreets` (Intersection.cpp:57-70). */
    method QueryStreets(incoming: nat) returns (outgoings: seq<nat>)
      ensures outgoings == Others(streets, incoming)
    {
      outgoings := [];
      for k := 0 to |streets|
        invariant outgoings == Others(streets[..k], incoming)
      {
        assert streets[..k + 1][..k] == streets[..k];
        if incoming != streets[k] {
          outgoings := outgoings + [streets[k]];
        }
      }
      assert streets[..|streets|] == streets;
    }

    /** The choice `drive` makes from `queryStreets` (Vehicle.cpp:94-108) is one the transition system allows. */
    lemma ChoicesAllowed(incoming: nat, next: nat)
      requires forall k: nat :: k in streets <==> EndsAt(city, k, number)
      ensures MayTake(city, number, incoming, next) <==>
              if Others(streets, incoming) != [] then next in Others(streets, incoming) else next == incoming
    {
      OthersMeans(streets, incoming, next);
      if exists k: nat :: k != incoming && EndsAt(city, k, number) {
        var k: nat :| k != incoming && EndsAt(city, k, number);
        OthersMeans(streets, incoming, k);
      } else if Others(streets, incoming) != [] {
        OthersMeans(streets, incoming, Others(streets, incoming)[0]);
      }
    }

    /** Every street it allows is the choice for some draw of `distr` (Vehicle.cpp:102): one below the number of
        options when there are any. */
    lemma EveryChoiceDrawn(incoming: nat, next: nat) returns (draw: nat)
      requires forall k: nat :: k in streets <==> EndsAt(city, k, number)
      requires MayTake(city, number, incoming, next)
      ensures Others(streets, incoming) != [] ==> draw < |Others(streets, incoming)|
      ensures Drawn(streets, incoming, draw) == next
    {
      ChoicesAllowed(incoming, next);
      draw := SomeDraw(streets, incoming, next);
    }

    /** The push of `addVehicleToQueue` (Intersection.cpp:80-82). */
    method AddVehicleToQueue(vehicle: nat, promise: nat, ghost s: State)
      requires Enabled(city, s, PushBack(vehicle)) && s.cars[vehicle].dest == number && promise == s.nextPromise
      requires Shows(s.junctions[number])
      modifies waiting
      ensures Shows(After(city, s, PushBack(vehicle)).junctions[number])
    {
      waiting.PushBack(vehicle, promise);
    }

    method SetIsBlocked(blocked: bool)
      modifies this`isBlocked
      ensures isBlocked == blocked
    {
      isBlocked := blocked;
    }

    /** `vehicleHasLeft` (Intersection.cpp:97-103). */
    method VehicleHasLeft(vehicle: nat, ghost next: nat, ghost s: State)
      requires Enabled(city, s, HasLeft(vehicle, next)) && s.cars[vehicle].dest == number
      requires Shows(s.junctions[number])
      modifies this`isBlocked
      ensures Shows(After(city, s, HasLeft(vehicle, next)).junctions[number])
    {
      SetIsBlocked(false);
    }

    /** The first read of the processor's condition (Intersection.cpp:132). */
    method CheckSize(ghost s: State) returns (waits: bool)
      requires Enabled(city, s, GetSize(number)) && Shows(s.junctions[number])
      ensures waits <==> waiting.vehicles != []
      ensures After(city, s, GetSize(number)) ==
              WithJunction(s, number, s.junctions[number].(proc := if waits then SawQueue else Idle))
    {
      var n := waiting.GetSize();
      waits := n > 0;
    }

    /** The second read of the condition. */
    method CheckBlocked(ghost s: State) returns (clear: bool)
      requires Enabled(city, s, ReadBlocked(number)) && Shows(s.junctions[number])
      ensures clear <==> !isBlocked
      ensures After(city, s, ReadBlocked(number)) ==
              WithJunction(s, number, s.junctions[number].(proc := if clear then SawClear else Idle))
    {
      clear := !isBlocked;
    }

    /** Blocking (Intersection.cpp:135). */
    method BlockForEntry(ghost s: State)
      requires Enabled(city, s, Block(number)) && Shows(s.junctions[number])
      modifies this`isBlocked
      ensures isBlocked && Shows(After(city, s, Block(number)).junctions[number])
    {
      SetIsBlocked(true);
    }

    /** The pop (Intersection.cpp:138). In every reachable state the queue is not empty here. */
    method PermitFirst(ghost s: State) returns (fulfilled: nat)
      requires Inv(city, s) && Enabled(city, s, PermitEntry(number)) && Shows(s.junctions[number])
      modifies waiting
      ensures Shows(After(city, s, PermitEntry(number)).junctions[number])
      ensures After(city, s, PermitEntry(number)).fulfilled == s.fulfilled + {fulfilled}
      ensures [fulfilled] + waiting.promises == old(waiting.promises) && waiting.vehicles == old(waiting.vehicles)[1..]
    {
      assert JunctionOk(s, number) && QueuedAt(s, number, 0);
      fulfilled := waiting.PermitEntryToFirstInQueue();
    }

    /** The body of the condition: block, and let the first in (Intersection.cpp:134-139). */
    method LetFirstIn(ghost s: State) returns (fulfilled: nat, ghost t: State)
      requires Inv(city, s) && Enabled(city, s, Block(number)) && Shows(s.junctions[number])
      modifies this`isBlocked, waiting
      ensures Legal(city, s, [Block(number), PermitEntry(number)])
      ensures t == Final(city, s, [Block(number), PermitEntry(number)])
      ensures number < |t.junctions| && Shows(t.junctions[number]) && t.junctions[number].proc == Idle
      ensures isBlocked && old(waiting.vehicles) != [] && waiting.vehicles == old(waiting.vehicles)[1..]
      ensures t.junctions[number].grants == s.junctions[number].grants + [old(waiting.vehicles)[0]]
      ensures [fulfilled] + waiting.promises == old(waiting.promises) && t.fulfilled == s.fulfilled + {fulfilled}
    {
      ghost var blocking := After(city, s, Block(number));
      StepKeeps(city, s, Block(number));
      PermitIsSafe(city, blocking, number);
      BlockForEntry(s);
      fulfilled := PermitFirst(blocking);
      RunOfTwo(city, s, Block(number), PermitEntry(number));
      t := After(city, blocking, PermitEntry(number));
    }

    /** One turn of `processVehicleQueue` (Intersection.cpp:126-140) that no other thread interrupts: it lets in the
        first in the queue exactly if there is one and the intersection is not blocked, and then leaves it blocked. */
    method ProcessVehicleQueue(ghost s: State)
      returns (granted: Option<nat>, ghost actions: seq<Action>, ghost t: State)
      requires Inv(city, s) && number < |s.junctions| && s.junctions[number].proc == Idle && Shows(s.junctions[number])
      modifies this`isBlocked, waiting
      ensures Legal(city, s, actions) && t == Final(city, s, actions)
      ensures number < |t.junctions| && Shows(t.junctions[number]) && t.junctions[number].proc == Idle
      ensures granted.Some? <==> old(waiting.vehicles) != [] && !old(isBlocked)
      ensures granted.Some? ==> [granted.value] + waiting.promises == old(waiting.promises)
      ensures granted.Some? ==> isBlocked && waiting.vehicles == old(waiting.vehicles)[1..]
      ensures granted.Some? ==> t.fulfilled == s.fulfilled + {granted.value}
      ensures t.junctions[number].grants ==
              s.junctions[number].grants + if granted.Some? then [old(waiting.vehicles)[0]] else []
      ensures granted.None? ==> isBlocked == old(isBlocked) && waiting.vehicles == old(waiting.vehicles)
    {
      granted, actions := None, [GetSize(number)];
      var waits := CheckSize(s);
      t := StepOn(city, s, [], s, GetSize(number));
      if waits {
        var clear := CheckBlocked(t);
        ghost var seen := t;
        t := StepOn(city, s, actions, seen, ReadBlocked(number));
        actions := actions + [ReadBlocked(number)];
        if clear {
          ghost var before := t;
          var fulfilled;
          fulfilled, t := LetFirstIn(before);
          RunsCompose(city, s, actions, [Block(number), PermitEntry(number)]);
          actions := actions + [Block(number), PermitEntry(number)];
          granted := Some(fulfilled);
        }
      }
    }
  }

  /** What `drive` keeps between its cycles (Vehicle.cpp:77-123): two fields and the flag that entry was granted. */
  class VehicleThread {
    const city: City
    const number: nat
    var currStreet: nat
    var currDestination: nat
    var hasEnteredIntersection: bool
    ghost var phase: Phase

    constructor (c: City, v: nat, street: nat, destination: nat)
      ensures city == c && number == v
      ensures Shows(Vehicle(street, destination, Driving))
    {
      city, number, currStreet, currDestination, hasEnteredIntersection := c, v, street, destination, false;
      phase := Driving;
    }

    ghost predicate Shows(c: Vehicle)
      reads this
    {
      && c == Vehicle(currStreet, currDestination, phase)
      && (hasEnteredIntersection <==> !phase.Driving? && !phase.Waiting?)
    }

    /** The entry request, up to the wait: the vehicle queues at its destination with a new promise (Vehicle.cpp:80,
        Intersection.cpp:80-82). */
    method RequestEntry(intersection: Intersection, promise: nat, ghost s: State)
      requires Enabled(city, s, PushBack(number)) && Shows(s.cars[number]) && promise == s.nextPromise
      requires intersection.city == city && intersection.number == currDestination
      requires intersection.Shows(s.junctions[intersection.number])
      modifies this`phase, intersection.waiting
      ensures Shows(After(city, s, PushBack(number)).cars[number])
      ensures intersection.Shows(After(city, s, PushBack(number)).junctions[intersection.number])
    {
      intersection.AddVehicleToQueue(number, promise, s);
      phase := Waiting(promise);
    }

    /** The request has returned (Vehicle.cpp:83-87). */
    method EntryGranted(ghost s: State)
      requires Enabled(city, s, WaitReturns(number)) && Shows(s.cars[number])
      modifies this`phase, this`hasEnteredIntersection
      ensures Shows(After(city, s, WaitReturns(number)).cars[number])
    {
      hasEnteredIntersection := true;
      phase := Crossing;
    }

    method SetCurrentDestination(destination: nat)
      modifies this`currDestination
      ensures currDestination == destination
    {
      currDestination := destination;
    }

    method SetCurrentStreet(street: nat)
      modifies this`currStreet
      ensures currStreet == street
    {
      currStreet := street;
    }

    /** The choice of the next street: one drawn from the others, or back (Vehicle.cpp:93-108). */
    method ChooseStreet(intersection: Intersection, draw: nat) returns (nextStreet: nat)
      requires forall k: nat :: k in intersection.streets <==> EndsAt(intersection.city, k, intersection.number)
      ensures nextStreet == Drawn(intersection.streets, currStreet, draw)
      ensures MayTake(intersection.city, intersection.number, currStreet, nextStreet)
    {
      var streetOptions := intersection.QueryStreets(currStreet);
      if |streetOptions| > 0 {
        nextStreet := streetOptions[draw % |streetOptions|];
      } else {
        nextStreet := currStreet;
      }
      intersection.ChoicesAllowed(currStreet, nextStreet);
    }

    /** Once the intersection is crossed (Vehicle.cpp:91-123): choose a street, find its other end, tell the
        intersection, and take both, in three steps of a run. */
    method Turn(intersection: Intersection, draw: nat, ghost s: State) returns (nextStreet: nat, ghost t: State)
      requires Inv(city, s) && number < |s.cars| && Shows(s.cars[number]) && phase == Crossing
      requires intersection.city == city && intersection.number == currDestination
      requires forall k: nat :: k in intersection.streets <==> EndsAt(intersection.city, k, intersection.number)
      requires intersection.number < |s.junctions| && intersection.Shows(s.junctions[intersection.number])
      modifies this, intersection`isBlocked
      ensures var actions := [HasLeft(number, nextStreet), SetDestination(number), SetStreet(number)];
              Legal(city, s, actions) && t == Final(city, s, actions)
      ensures number < |t.cars| && Shows(t.cars[number]) && phase == Driving && !hasEnteredIntersection
      ensures intersection.number < |t.junctions| && intersection.Shows(t.junctions[intersection.number])
      ensures !intersection.isBlocked
      ensures nextStreet == Drawn(intersection.streets, old(currStreet), draw)
      ensures currStreet == nextStreet && EndsAt(city, nextStreet, currDestination)
    {
      assert CarOk(city, s, number);
      nextStreet := ChooseStreet(intersection, draw);
      var street := city.streets[nextStreet];
      var nextIntersection := if street.inAt == currDestination then street.outAt else street.inAt;
      intersection.VehicleHasLeft(number, nextStreet, s);
      SetCurrentDestination(nextIntersection);
      SetCurrentStreet(nextStreet);
      hasEnteredIntersection := false;
      phase := Driving;
      t := TurnRun(city, s, number, nextStreet);
    }
  }
}
