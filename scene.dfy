/**
 * The driver of scenes/ParkingScene.go: the static table of twelve spots, the
 * per-car lifecycle carCycle, and the Enter handler that starts the lifecycles
 * once.
 *
 * The model is sequential. One lifecycle runs at a time, against other cars
 * that stand still. The door mutex is a flag that a lifecycle finds unlocked,
 * and a lifecycle starts when some spot is free, so no wait ever blocks.
 * What each lifecycle holds (its registration, its spot, the door) is tracked
 * by replaying the trace of its events against a discipline (Allowed).
 */
module Scene {
  import opened Wrappers
  import opened Spots
  import opened Cars
  import opened Parking

  // ---------------------------------------------------------------------------
  // The static spot table
  // ---------------------------------------------------------------------------

  /** The arguments the scene passes to NewParkingSpot: rectangle, row and spot number. */
  datatype SpotSite = SpotSite(area: Rect, row: int, id: int)

  /** The entry and exit legs NewParkingSpot derives for a spot (that derivation is not part of this model). */
  datatype Route = Route(parking: seq<Leg>, leaving: seq<Leg>)

  /** The `spots` table: four rows of three spots, row 1 nearest the door. */
  const Layout: seq<SpotSite> := [
    SpotSite(Rect(410, 210, 440, 240), 1, 1),
    SpotSite(Rect(410, 255, 440, 285), 1, 2),
    SpotSite(Rect(410, 300, 440, 330), 1, 3),
    SpotSite(Rect(320, 210, 350, 240), 2, 4),
    SpotSite(Rect(320, 255, 350, 285), 2, 5),
    SpotSite(Rect(320, 300, 350, 330), 2, 6),
    SpotSite(Rect(230, 210, 260, 240), 3, 7),
    SpotSite(Rect(230, 255, 260, 285), 3, 8),
    SpotSite(Rect(230, 300, 260, 330), 3, 9),
    SpotSite(Rect(140, 210, 170, 240), 4, 10),
    SpotSite(Rect(140, 255, 170, 285), 4, 11),
    SpotSite(Rect(140, 300, 170, 330), 4, 12)
  ]

  /** The left edge of each row's X band, and the top edge of each spot's Y band within a row. */
  const RowX: seq<int> := [410, 320, 230, 140]
  const BandY: seq<int> := [210, 255, 300]

  /** How many lifecycles the first Enter event starts. */
  const SpawnCount: nat := 100

  /**
   * The table holds twelve spots numbered 1 to 12 in order, so the numbers
   * are distinct; row r holds numbers 3r-2 to 3r; every rectangle is 30 by 30;
   * the spots of a row share one X band and sit in the Y bands 210, 255, 300.
   */
  lemma LayoutShape()
    ensures |Layout| == 12
    ensures forall i :: 0 <= i < |Layout| ==> Layout[i].id == i + 1 && Layout[i].row == i / 3 + 1
    ensures forall i, j :: 0 <= i < j < |Layout| ==> Layout[i].id != Layout[j].id
    ensures forall i :: 0 <= i < |Layout| ==> 3 * Layout[i].row - 2 <= Layout[i].id <= 3 * Layout[i].row
    ensures forall i :: 0 <= i < |Layout| ==> Layout[i].area.Width() == 30 && Layout[i].area.Height() == 30
    ensures forall i :: 0 <= i < |Layout| ==>
      Layout[i].area.minX == RowX[Layout[i].row - 1] && Layout[i].area.minY == BandY[i % 3]
  {
  }

  /**
   * The spots the scene builds, one per table entry with the legs
   * NewParkingSpot gives it: twelve spots numbered 1 to 12, distinct, three
   * to a row, each 30 by 30, in its row's X band and its own Y band.
   */
  function SpotsOf(routes: seq<Route>): (spots: seq<ParkingSpot>)
    requires |routes| == |Layout|
    ensures |spots| == 12
    ensures forall i :: 0 <= i < |spots| ==> spots[i].id == i + 1 && spots[i].row == i / 3 + 1
    ensures forall i, j :: 0 <= i < j < |spots| ==> spots[i].id != spots[j].id
    ensures forall i :: 0 <= i < |spots| ==> 3 * spots[i].row - 2 <= spots[i].id <= 3 * spots[i].row
    ensures forall i :: 0 <= i < |spots| ==> spots[i].area.Width() == 30 && spots[i].area.Height() == 30
    ensures forall i :: 0 <= i < |spots| ==>
      spots[i].area.minX == RowX[spots[i].row - 1] && spots[i].area.minY == BandY[i % 3]
    ensures forall i :: 0 <= i < |spots| ==> spots[i].parking == routes[i].parking && spots[i].leaving == routes[i].leaving
  {
    LayoutShape();
    seq(|Layout|, i requires 0 <= i < |Layout| =>
      ParkingSpot(Layout[i].area, Layout[i].row, Layout[i].id, routes[i].parking, routes[i].leaving))
  }

  // ---------------------------------------------------------------------------
  // The route of one lifecycle
  // ---------------------------------------------------------------------------

  /** Enqueue, then JoinDoor. */
  const Approach: seq<Leg> := [EnqueueLeg, JoinDoorLeg]

  /** ExitDoor, then GoAway. */
  const Departure: seq<Leg> := [ExitDoorLeg, GoAwayLeg]

  /** Where a car stands once ParkZone has taken it into `spot`. */
  function ParkedAt(spot: ParkingSpot): Pos {
    RouteEnd(Spawn(), Approach + spot.parking)
  }

  /** The back-out leg of LeaveSpot, 30 units left of the parked position. */
  function BackOut(spot: ParkingSpot): Leg {
    BackOutLeg(ParkedAt(spot).x)
  }

  /** Every leg a lifecycle drives, in order. */
  function CycleRoute(spot: ParkingSpot): seq<Leg> {
    Approach + spot.parking + [BackOut(spot)] + spot.leaving + Departure
  }

  /** A route of one leg is that leg. */
  lemma RouteOfOne(p: Pos, l: Leg, others: seq<Pos>)
    ensures RouteEnd(p, [l]) == LegEnd(p, l)
    ensures RouteClear(p, [l], others) <==> PathClear(p, l, others)
  {
    assert [l][1..] == [];
  }

  /** A route of two legs is the first leg, then the second from where the first ends. */
  lemma RouteOfTwo(p: Pos, l1: Leg, l2: Leg, others: seq<Pos>)
    ensures RouteEnd(p, [l1, l2]) == LegEnd(LegEnd(p, l1), l2)
    ensures RouteClear(p, [l1, l2], others) <==> PathClear(p, l1, others) && PathClear(LegEnd(p, l1), l2, others)
  {
    assert [l1, l2][1..] == [l2];
    RouteOfOne(LegEnd(p, l1), l2, others);
  }

  /**
   * The lifecycle's route cut at its stages: each movement of carCycle starts
   * where the previous one ends, and the route is clear as a whole exactly
   * when each stage is clear from its own start.
   */
  lemma {:induction false} CycleRouteStages(spot: ParkingSpot, others: seq<Pos>)
    ensures var p1 := LegEnd(Spawn(), Approach[0]);
      var p2 := LegEnd(p1, Approach[1]);
      var p3 := RouteEnd(p2, spot.parking);
      var p4 := LegEnd(p3, BackOut(spot));
      var p5 := RouteEnd(p4, spot.leaving);
      var p6 := LegEnd(p5, Departure[0]);
      p3 == ParkedAt(spot) &&
      RouteEnd(Spawn(), CycleRoute(spot)) == LegEnd(p6, Departure[1]) &&
      (RouteClear(Spawn(), CycleRoute(spot), others) <==>
        PathClear(Spawn(), Approach[0], others) && PathClear(p1, Approach[1], others) &&
        RouteClear(p2, spot.parking, others) && PathClear(p3, BackOut(spot), others) &&
        RouteClear(p4, spot.leaving, others) && PathClear(p5, Departure[0], others) &&
        PathClear(p6, Departure[1], others))
  {
    var s0 := Spawn();
    var a, p, b, l, d := Approach, spot.parking, [BackOut(spot)], spot.leaving, Departure;
    RouteSplit(s0, a + p + b + l, d, others);
    RouteSplit(s0, a + p + b, l, others);
    RouteSplit(s0, a + p, b, others);
    RouteSplit(s0, a, p, others);
    RouteOfTwo(s0, a[0], a[1], others);
    RouteOfOne(RouteEnd(s0, a + p), b[0], others);
    RouteOfTwo(RouteEnd(s0, a + p + b + l), d[0], d[1], others);
  }

  /** What carCycle uses of a clear route: each stage is clear from where the previous one ends. */
  lemma ClearCycleRouteStages(spot: ParkingSpot, others: seq<Pos>)
    requires RouteClear(Spawn(), CycleRoute(spot), others)
    ensures var p2 := LegEnd(LegEnd(Spawn(), Approach[0]), Approach[1]);
      var p4 := LegEnd(RouteEnd(p2, spot.parking), BackOut(spot));
      var p5 := RouteEnd(p4, spot.leaving);
      PathClear(Spawn(), Approach[0], others) && PathClear(LegEnd(Spawn(), Approach[0]), Approach[1], others) &&
      RouteClear(p2, spot.parking, others) && RouteEnd(p2, spot.parking) == ParkedAt(spot) &&
      PathClear(ParkedAt(spot), BackOut(spot), others) && RouteClear(p4, spot.leaving, others) &&
      PathClear(p5, Departure[0], others) && PathClear(LegEnd(p5, Departure[0]), Departure[1], others) &&
      RouteEnd(Spawn(), CycleRoute(spot)) == LegEnd(LegEnd(p5, Departure[0]), Departure[1])
  {
    CycleRouteStages(spot, others);
  }

  // ---------------------------------------------------------------------------
  // The lifecycle as a trace of events, and what it holds along the way
  // ---------------------------------------------------------------------------

  /** The steps of carCycle. Spot-carrying events name the spot they use. */
  datatype Event =
    | Register | Enqueue | Acquire(spot: nat) | LockDoor | JoinDoor | UnlockDoor
    | ParkZone(spot: nat) | Dwell | LeaveSpot | Release(spot: nat) | LeaveSlot(spot: nat)
    | ExitDoor | GoAway | Destroy | Deregister

  /** The arrival steps of carCycle: register, queue, acquire spot k, cross the door in. */
  function ArrivalEvents(k: nat): seq<Event> {
    [Register, Enqueue, Acquire(k), LockDoor, JoinDoor, UnlockDoor]
  }

  /** The stay in the spot: park in spot k, dwell, back out, release k. */
  function StayEvents(k: nat): seq<Event> {
    [ParkZone(k), Dwell, LeaveSpot, Release(k)]
  }

  /** The exit: leave the slot of spot k, cross the door out. */
  function ExitEvents(k: nat): seq<Event> {
    [LeaveSlot(k), LockDoor, ExitDoor, UnlockDoor]
  }

  /** The removal: drive off, destroy, deregister. */
  const RemovalEvents: seq<Event> := [GoAway, Destroy, Deregister]

  /** The straight-line sequence carCycle performs when it is handed spot k. */
  function CycleEvents(k: nat): seq<Event> {
    ArrivalEvents(k) + StayEvents(k) + ExitEvents(k) + RemovalEvents
  }

  /** What a lifecycle holds between two of its events. */
  datatype Holdings = Holdings(registered: bool, spot: Option<nat>, door: bool, destroyed: bool)

  /** Nothing held: before the first event. */
  const Nothing: Holdings := Holdings(false, None, false, false)

  /**
   * The discipline a lifecycle must keep. Every movement needs the car
   * registered and alive. JoinDoor and ExitDoor need the door, and no other
   * step may hold it. JoinDoor, ParkZone, the dwell and LeaveSpot need a spot,
   * and ParkZone the very spot acquired. LeaveSlot and everything after it
   * need the spot given back. A car is destroyed holding nothing, and
   * deregistered only once destroyed; registering, releasing and
   * deregistering happen outside the door.
   */
  predicate Allowed(h: Holdings, e: Event) {
    var alive := h.registered && !h.destroyed;
    match e
    case Register => !h.registered && !h.destroyed && h.spot.None? && !h.door
    case Enqueue => alive && h.spot.None? && !h.door
    case Acquire(_) => alive && h.spot.None? && !h.door
    case LockDoor => alive && !h.door
    case JoinDoor => alive && h.spot.Some? && h.door
    case UnlockDoor => h.door
    case ParkZone(k) => alive && h.spot == Some(k) && !h.door
    case Dwell => alive && h.spot.Some? && !h.door
    case LeaveSpot => alive && h.spot.Some? && !h.door
    case Release(k) => h.spot == Some(k) && !h.door
    case LeaveSlot(_) => alive && h.spot.None? && !h.door
    case ExitDoor => alive && h.spot.None? && h.door
    case GoAway => alive && h.spot.None? && !h.door
    case Destroy => alive && h.spot.None? && !h.door
    case Deregister => h.registered && h.destroyed && h.spot.None? && !h.door
  }

  /** What an event takes or gives back. */
  function Apply(h: Holdings, e: Event): Holdings {
    match e
    case Register => h.(registered := true)
    case Acquire(k) => h.(spot := Some(k))
    case LockDoor => h.(door := true)
    case UnlockDoor => h.(door := false)
    case Release(_) => h.(spot := None)
    case Destroy => h.(destroyed := true)
    case Deregister => h.(registered := false)
    case _ => h
  }

  /** Replay a trace from h: the final holdings, or None at the first event the discipline forbids. */
  function Run(h: Holdings, trace: seq<Event>): Option<Holdings>
    decreases |trace|
  {
    if trace == [] then Some(h)
    else if !Allowed(h, trace[0]) then None
    else Run(Apply(h, trace[0]), trace[1..])
  }

  /** Replaying two traces one after the other is replaying their concatenation. */
  lemma {:induction false} RunSplit(h: Holdings, a: seq<Event>, b: seq<Event>)
    ensures Run(h, a + b) == if Run(h, a).None? then None else Run(Run(h, a).value, b)
    decreases |a|
  {
    if a == [] {
      assert a + b == b;
    } else {
      assert (a + b)[0] == a[0];
      assert (a + b)[1..] == a[1..] + b;
      if Allowed(h, a[0]) {
        RunSplit(Apply(h, a[0]), a[1..], b);
      }
    }
  }

  /** The first event of a trace, when allowed, and then the rest. */
  lemma RunFirst(h: Holdings, t: seq<Event>)
    requires t != [] && Allowed(h, t[0])
    ensures Run(h, t) == Run(Apply(h, t[0]), t[1..])
  {
  }

  /** Register, Enqueue, acquire spot k and cross the door in: the car ends holding spot k only. */
  lemma ArrivalKeepsDiscipline(k: nat)
    ensures Run(Nothing, ArrivalEvents(k)) == Some(Holdings(true, Some(k), false, false))
  {
    var inside := Holdings(true, None, false, false);
    var atDoor := Holdings(true, Some(k), true, false);
    RunFirst(Nothing, [Register, Enqueue, Acquire(k), LockDoor, JoinDoor, UnlockDoor]);
    RunFirst(inside, [Enqueue, Acquire(k), LockDoor, JoinDoor, UnlockDoor]);
    RunFirst(inside, [Acquire(k), LockDoor, JoinDoor, UnlockDoor]);
    RunFirst(Holdings(true, Some(k), false, false), [LockDoor, JoinDoor, UnlockDoor]);
    RunFirst(atDoor, [JoinDoor, UnlockDoor]);
    RunFirst(atDoor, [UnlockDoor]);
  }

  /** Park, dwell, back out and release spot k: the car ends registered and holding nothing. */
  lemma StayKeepsDiscipline(k: nat)
    ensures Run(Holdings(true, Some(k), false, false), StayEvents(k)) == Some(Holdings(true, None, false, false))
  {
    var parked := Holdings(true, Some(k), false, false);
    RunFirst(parked, [ParkZone(k), Dwell, LeaveSpot, Release(k)]);
    RunFirst(parked, [Dwell, LeaveSpot, Release(k)]);
    RunFirst(parked, [LeaveSpot, Release(k)]);
    RunFirst(parked, [Release(k)]);
  }

  /** Leave the slot of spot k and cross the door out: the car ends holding nothing but its registration. */
  lemma ExitKeepsDiscipline(k: nat)
    ensures Run(Holdings(true, None, false, false), ExitEvents(k)) == Some(Holdings(true, None, false, false))
  {
    var inside := Holdings(true, None, false, false);
    var leaving := Holdings(true, None, true, false);
    RunFirst(inside, [LeaveSlot(k), LockDoor, ExitDoor, UnlockDoor]);
    RunFirst(inside, [LockDoor, ExitDoor, UnlockDoor]);
    RunFirst(leaving, [ExitDoor, UnlockDoor]);
    RunFirst(leaving, [UnlockDoor]);
  }

  /** Drive off, be destroyed and be deregistered: the car ends destroyed, unregistered, holding nothing. */
  lemma RemovalKeepsDiscipline()
    ensures Run(Holdings(true, None, false, false), RemovalEvents) == Some(Holdings(false, None, false, true))
  {
    var inside := Holdings(true, None, false, false);
    RunFirst(inside, [GoAway, Destroy, Deregister]);
    RunFirst(inside, [Destroy, Deregister]);
    RunFirst(Holdings(true, None, false, true), [Deregister]);
  }

  /**
   * carCycle keeps the discipline at every step, and ends having given back
   * its spot and the door: the car is destroyed and no longer registered.
   */
  lemma CycleKeepsDiscipline(k: nat)
    ensures Run(Nothing, CycleEvents(k)) == Some(Holdings(false, None, false, true))
  {
    var arrival, stay, exit := ArrivalEvents(k), StayEvents(k), ExitEvents(k);
    var inside := Holdings(true, None, false, false);
    assert CycleEvents(k) == arrival + (stay + (exit + RemovalEvents));
    ArrivalKeepsDiscipline(k);
    StayKeepsDiscipline(k);
    ExitKeepsDiscipline(k);
    RemovalKeepsDiscipline();
    RunSplit(Nothing, arrival, stay + (exit + RemovalEvents));
    RunSplit(Holdings(true, Some(k), false, false), stay, exit + RemovalEvents);
    RunSplit(inside, exit, RemovalEvents);
  }

  /**
   * The fixed order of carCycle: registration is its first step, destroying
   * the car and deregistering it are its last two; the spot is acquired after
   * Enqueue and before the door is taken, and released exactly once, after
   * LeaveSpot and before LeaveSlot; every step that names a spot names the one
   * that was acquired.
   */
  lemma CycleOrder(k: nat)
    ensures var t := CycleEvents(k);
      |t| == 17 && t[0] == Register && t[15] == Destroy && t[16] == Deregister &&
      t[1] == Enqueue && t[2] == Acquire(k) && t[3] == LockDoor &&
      t[8] == LeaveSpot && t[9] == Release(k) && t[10] == LeaveSlot(k) &&
      (forall i :: 0 <= i < |t| && t[i].Release? ==> i == 9) &&
      (forall i :: 0 <= i < |t| && t[i].Acquire? ==> i == 2) &&
      (forall i :: 0 <= i < |t| && (t[i].Acquire? || t[i].ParkZone? || t[i].Release? || t[i].LeaveSlot?) ==> t[i].spot == k)
  {
  }

  /** Removal of a car from the registry (RemoveCarFromScene): every entry of that car goes. */
  function Without(cars: seq<Car>, c: Car): (r: seq<Car>)
    ensures c !in r
    ensures forall i :: 0 <= i < |r| ==> r[i] in cars
    ensures forall i :: 0 <= i < |cars| && cars[i] != c ==> cars[i] in r
    ensures c !in cars ==> r == cars
    decreases |cars|
  {
    if cars == [] then []
    else if cars[0] == c then Without(cars[1..], c)
    else [cars[0]] + Without(cars[1..], c)
  }

  /** Adding a car that was not registered and removing it again leaves the registry as it was. */
  lemma {:induction false} AddThenRemove(cars: seq<Car>, c: Car)
    requires c !in cars
    ensures Without(cars + [c], c) == cars
    decreases |cars|
  {
    if cars == [] {
      assert [] + [c] == [c];
      assert [c][1..] == [];
    } else {
      assert (cars + [c])[1..] == cars[1..] + [c];
      AddThenRemove(cars[1..], c);
      assert [cars[0]] + cars[1..] == cars;
    }
  }

  // ---------------------------------------------------------------------------
  // The scene
  // ---------------------------------------------------------------------------

  /**
   * The scene's shared state: the parking zone over the spot table, the car
   * registry (the source's CarManager, not part of this model, seen through
   * AddCar and RemoveCarFromScene), the door mutex, and the spawner's state.
   * The ghost fields follow the lifecycle that is running: what it holds and
   * the steps it has taken. Every step of carCycle is an operation below that
   * demands what the discipline demands of that step and records it.
   */
  class ParkingScene {
    const parking: ParkingZone
    var registry: seq<Car>
    var doorLocked: bool
    var isFirstTime: bool
    var launched: nat
    ghost var held: Holdings
    ghost var log: seq<Event>

    /** The door is held exactly when the lifecycle holds it, and a spot it holds is marked taken in the pool. */
    ghost predicate Valid()
      reads this`held, this`doorLocked, parking, parking.available
    {
      parking.Valid() &&
      held.door == doorLocked &&
      (held.spot.Some? ==> held.spot.value < parking.available.Length && !parking.available[held.spot.value])
    }

    /**
     * The package's globals and Start: the twelve spots, all free, a zone over
     * them, an empty registry, an unlocked door, and no Enter seen yet.
     */
    constructor (routes: seq<Route>)
      requires |routes| == |Layout|
      ensures Valid() && fresh(parking) && fresh(parking.available)
      ensures parking.GetSpots() == SpotsOf(routes)
      ensures forall j :: 0 <= j < parking.available.Length ==> parking.available[j]
      ensures registry == [] && !doorLocked && isFirstTime && launched == 0
      ensures held == Nothing && log == []
    {
      parking := new ParkingZone(SpotsOf(routes), seq(|Layout|, _ => true));
      registry := [];
      doorLocked := false;
      isFirstTime := true;
      launched := 0;
      held := Nothing;
      log := [];
    }

    /** carManager.AddCar: the new car joins the registry. */
    method AddCar(car: Car)
      requires Valid() && Allowed(held, Register)
      modifies this`registry, this`held, this`log
      ensures Valid() && registry == old(registry) + [car]
      ensures held == Apply(old(held), Register) && log == old(log) + [Register]
    {
      registry := registry + [car];
      held := Apply(held, Register);
      log := log + [Register];
    }

    /** car.Enqueue: drive down to the queue line. */
    method QueueUp(car: Car, others: seq<Pos>)
      requires Valid() && Allowed(held, Enqueue)
      requires PathClear(car.Here(), EnqueueLeg, others)
      modifies car, this`log
      ensures Valid() && log == old(log) + [Enqueue]
      ensures car.Here() == LegEnd(old(car.Here()), EnqueueLeg)
    {
      car.Enqueue(others);
      log := log + [Enqueue];
    }

    /**
     * parking.GetParkingSpotAvailable: the first free spot becomes the
     * lifecycle's. When none is free nothing changes (the source waits there).
     */
    method AcquireSpot() returns (got: Option<nat>)
      requires Valid() && held.registered && !held.destroyed && held.spot.None? && !held.door
      modifies parking.available, this`held, this`log
      ensures Valid() && got == FirstAvailable(old(parking.available[..]))
      ensures got.Some? ==> parking.available[..] == old(parking.available[..])[got.value := false]
      ensures got.Some? ==> held == Apply(old(held), Acquire(got.value)) && log == old(log) + [Acquire(got.value)]
      ensures got.None? ==> parking.available[..] == old(parking.available[..]) && held == old(held) && log == old(log)
    {
      got := parking.GetParkingSpotAvailable();
      if got.Some? {
        held := Apply(held, Acquire(got.value));
        log := log + [Acquire(got.value)];
      }
    }

    /** doorMutex.Lock(): the lifecycle takes the free door. */
    method DoorLock()
      requires Valid() && Allowed(held, LockDoor)
      modifies this`doorLocked, this`held, this`log
      ensures Valid() && doorLocked
      ensures held == Apply(old(held), LockDoor) && log == old(log) + [LockDoor]
    {
      doorLocked := true;
      held := Apply(held, LockDoor);
      log := log + [LockDoor];
    }

    /** doorMutex.Unlock(): the lifecycle gives the door back; unlocking an unlocked mutex is an error in the source. */
    method DoorUnlock()
      requires Valid() && Allowed(held, UnlockDoor)
      modifies this`doorLocked, this`held, this`log
      ensures Valid() && !doorLocked
      ensures held == Apply(old(held), UnlockDoor) && log == old(log) + [UnlockDoor]
    {
      doorLocked := false;
      held := Apply(held, UnlockDoor);
      log := log + [UnlockDoor];
    }

    /** car.JoinDoor, inside the door's critical section: drive down to the entrance line. */
    method CrossIn(car: Car, others: seq<Pos>)
      requires Valid() && Allowed(held, JoinDoor) && doorLocked
      requires PathClear(car.Here(), JoinDoorLeg, others)
      modifies car, this`log
      ensures Valid() && log == old(log) + [JoinDoor]
      ensures car.Here() == LegEnd(old(car.Here()), JoinDoorLeg)
    {
      car.JoinDoor(others);
      log := log + [JoinDoor];
    }

    /** car.ParkZone: follow the parking legs of spot k, which the lifecycle holds. */
    method Park(car: Car, k: nat, others: seq<Pos>)
      requires Valid() && Allowed(held, ParkZone(k)) && k < |parking.spots| && !parking.available[k]
      requires RouteClear(car.Here(), parking.spots[k].parking, others)
      modifies car, this`log
      ensures Valid() && log == old(log) + [ParkZone(k)]
      ensures car.Here() == RouteEnd(old(car.Here()), parking.spots[k].parking)
    {
      car.ParkZone(parking.spots[k], others);
      log := log + [ParkZone(k)];
    }

    /** The dwell: a random sleep of 40 to 50 seconds, holding the spot. */
    method DwellInSpot()
      requires Valid() && Allowed(held, Dwell)
      modifies this`log
      ensures Valid() && log == old(log) + [Dwell]
    {
      log := log + [Dwell];
    }

    /** car.LeaveSpot: back out of the held spot, 30 units to the left. */
    method BackOutOfSpot(car: Car, others: seq<Pos>)
      requires Valid() && Allowed(held, LeaveSpot)
      requires PathClear(car.Here(), BackOutLeg(car.x), others)
      modifies car, this`log
      ensures Valid() && log == old(log) + [LeaveSpot]
      ensures car.Here() == LegEnd(old(car.Here()), BackOutLeg(old(car.x)))
    {
      car.LeaveSpot(others);
      log := log + [LeaveSpot];
    }

    /** parking.ReleaseParkingSpot: give spot k back to the pool. */
    method ReleaseSpot(k: nat)
      requires Valid() && Allowed(held, Release(k))
      modifies parking.available, this`held, this`log
      ensures Valid() && parking.available[..] == old(parking.available[..])[k := true]
      ensures held == Apply(old(held), Release(k)) && log == old(log) + [Release(k)]
    {
      parking.ReleaseParkingSpot(k);
      held := Apply(held, Release(k));
      log := log + [Release(k)];
    }

    /** car.LeaveSlot: follow the leaving legs of spot k, already given back. */
    method DriveToLane(car: Car, k: nat, others: seq<Pos>)
      requires Valid() && Allowed(held, LeaveSlot(k)) && k < |parking.spots|
      requires RouteClear(car.Here(), parking.spots[k].leaving, others)
      modifies car, this`log
      ensures Valid() && log == old(log) + [LeaveSlot(k)]
      ensures car.Here() == RouteEnd(old(car.Here()), parking.spots[k].leaving)
    {
      car.LeaveSlot(parking.spots[k], others);
      log := log + [LeaveSlot(k)];
    }

    /** car.ExitDoor, inside the door's critical section: drive up to the queue line. */
    method CrossOut(car: Car, others: seq<Pos>)
      requires Valid() && Allowed(held, ExitDoor) && doorLocked
      requires PathClear(car.Here(), ExitDoorLeg, others)
      modifies car, this`log
      ensures Valid() && log == old(log) + [ExitDoor]
      ensures car.Here() == LegEnd(old(car.Here()), ExitDoorLeg)
    {
      car.ExitDoor(others);
      log := log + [ExitDoor];
    }

    /** car.GoAway: drive up off the map. */
    method DriveOff(car: Car, others: seq<Pos>)
      requires Valid() && Allowed(held, GoAway)
      requires PathClear(car.Here(), GoAwayLeg, others)
      modifies car, this`log
      ensures Valid() && log == old(log) + [GoAway]
      ensures car.Here() == LegEnd(old(car.Here()), GoAwayLeg)
    {
      car.GoAway(others);
      log := log + [GoAway];
    }

    /** car.Remove: the car's sprite is destroyed. */
    method RemoveCar()
      requires Valid() && Allowed(held, Destroy)
      modifies this`held, this`log
      ensures Valid() && held == Apply(old(held), Destroy) && log == old(log) + [Destroy]
    {
      held := Apply(held, Destroy);
      log := log + [Destroy];
    }

    /** carManager.RemoveCarFromScene: the car leaves the registry. */
    method RemoveCarFromScene(car: Car)
      requires Valid() && Allowed(held, Deregister)
      modifies this`registry, this`held, this`log
      ensures Valid() && registry == Without(old(registry), car)
      ensures held == Apply(old(held), Deregister) && log == old(log) + [Deregister]
    {
      registry := Without(registry, car);
      held := Apply(held, Deregister);
      log := log + [Deregister];
    }

    /**
     * The Enter handler: the first event starts the lifecycles, 100 of them
     * (each `go carCycle` is counted in `launched`), and every later event
     * returns at once.
     */
    method OnEnter()
      modifies this`isFirstTime, this`launched
      ensures !isFirstTime
      ensures launched == old(launched) + (if old(isFirstTime) then SpawnCount else 0)
    {
      if !isFirstTime {
        return;
      }
      isFirstTime := false;
      var i := 0;
      while i < SpawnCount
        invariant 0 <= i <= SpawnCount
        invariant launched == old(launched) + i
        invariant !isFirstTime
      {
        launched := launched + 1;
        i := i + 1;
      }
    }

    /**
     * The arrival phase of carCycle, for a car at the spawn point: register it,
     * queue, acquire the first free spot, and cross the door in holding the
     * door mutex. The lifecycle ends the phase holding that spot, with the
     * door given back.
     */
    method Arrive(car: Car, others: seq<Pos>) returns (spot: nat)
      requires Valid() && held == Nothing && FirstAvailable(parking.available[..]).Some?
      requires PathClear(car.Here(), Approach[0], others)
      requires PathClear(LegEnd(car.Here(), Approach[0]), Approach[1], others)
      modifies car, this`registry, this`doorLocked, this`held, this`log, parking.available
      ensures Valid() && spot == FirstAvailable(old(parking.available[..])).value
      ensures parking.available[..] == old(parking.available[..])[spot := false]
      ensures held == Holdings(true, Some(spot), false, false) && log == old(log) + ArrivalEvents(spot)
      ensures registry == old(registry) + [car] && !doorLocked
      ensures car.Here() == LegEnd(LegEnd(old(car.Here()), Approach[0]), Approach[1])
    {
      ghost var log0 := log;
      ghost var queued := LegEnd(car.Here(), Approach[0]);
      AddCar(car);
      QueueUp(car, others);
      assert car.Here() == queued;
      var got := AcquireSpot();
      spot := got.value;
      assert log == log0 + [Register, Enqueue, Acquire(spot)];
      DoorLock();
      CrossIn(car, others);
      DoorUnlock();
      assert log == old(log) + ArrivalEvents(spot);
    }

    /**
     * The stay phase: park in spot k, dwell, back out, and release k. The
     * lifecycle ends the phase holding nothing but its registration.
     */
    method Stay(car: Car, k: nat, others: seq<Pos>)
      requires Valid() && held == Holdings(true, Some(k), false, false) && k < |parking.spots|
      requires RouteClear(car.Here(), parking.spots[k].parking, others)
      requires var parked := RouteEnd(car.Here(), parking.spots[k].parking);
        PathClear(parked, BackOutLeg(parked.x), others)
      modifies car, this`held, this`log, parking.available
      ensures Valid() && held == Holdings(true, None, false, false) && log == old(log) + StayEvents(k)
      ensures parking.available[..] == old(parking.available[..])[k := true]
      ensures var parked := RouteEnd(old(car.Here()), parking.spots[k].parking);
        car.Here() == LegEnd(parked, BackOutLeg(parked.x))
    {
      Park(car, k, others);
      DwellInSpot();
      BackOutOfSpot(car, others);
      ReleaseSpot(k);
      assert log == old(log) + StayEvents(k);
    }

    /**
     * The exit phase: leave the slot of spot k and cross the door out holding
     * the door mutex.
     */
    method ExitGarage(car: Car, k: nat, others: seq<Pos>)
      requires Valid() && held == Holdings(true, None, false, false) && k < |parking.spots|
      requires RouteClear(car.Here(), parking.spots[k].leaving, others)
      requires PathClear(RouteEnd(car.Here(), parking.spots[k].leaving), Departure[0], others)
      modifies car, this`doorLocked, this`held, this`log
      ensures Valid() && held == old(held) && log == old(log) + ExitEvents(k) && !doorLocked
      ensures car.Here() == LegEnd(RouteEnd(old(car.Here()), parking.spots[k].leaving), Departure[0])
    {
      ghost var lane := RouteEnd(car.Here(), parking.spots[k].leaving);
      DriveToLane(car, k, others);
      assert car.Here() == lane;
      DoorLock();
      CrossOut(car, others);
      DoorUnlock();
      assert log == old(log) + ExitEvents(k);
    }

    /** The removal phase: drive off the map, destroy the car and deregister it. */
    method DriveAway(car: Car, others: seq<Pos>)
      requires Valid() && held == Holdings(true, None, false, false)
      requires PathClear(car.Here(), Departure[1], others)
      modifies car, this`registry, this`held, this`log
      ensures Valid() && held == Holdings(false, None, false, true) && log == old(log) + RemovalEvents
      ensures registry == Without(old(registry), car)
      ensures car.Here() == LegEnd(old(car.Here()), Departure[1])
    {
      DriveOff(car, others);
      RemoveCar();
      RemoveCarFromScene(car);
      assert log == old(log) + RemovalEvents;
    }

    /**
     * Everything after the arrival: with spot k held, stay in it, give it back, leave the
     * garage and vanish. Each stage starts where the previous one ends.
     */
    method Leave(car: Car, k: nat, others: seq<Pos>)
      requires Valid() && held == Holdings(true, Some(k), false, false) && k < |parking.spots|
      requires var s, p := parking.spots[k], car.Here();
        var parked := RouteEnd(p, s.parking);
        var lane := RouteEnd(LegEnd(parked, BackOutLeg(parked.x)), s.leaving);
        RouteClear(p, s.parking, others) && PathClear(parked, BackOutLeg(parked.x), others) &&
        RouteClear(LegEnd(parked, BackOutLeg(parked.x)), s.leaving, others) &&
        PathClear(lane, Departure[0], others) && PathClear(LegEnd(lane, Departure[0]), Departure[1], others)
      modifies car, this`registry, this`doorLocked, this`held, this`log, parking.available
      ensures Valid() && held == Holdings(false, None, false, true)
      ensures log == old(log) + StayEvents(k) + ExitEvents(k) + RemovalEvents
      ensures parking.available[..] == old(parking.available[..])[k := true]
      ensures registry == Without(old(registry), car) && !doorLocked
      ensures var s, p := parking.spots[k], old(car.Here());
        var parked := RouteEnd(p, s.parking);
        var lane := RouteEnd(LegEnd(parked, BackOutLeg(parked.x)), s.leaving);
        car.Here() == LegEnd(LegEnd(lane, Departure[0]), Departure[1])
    {
      ghost var s := parking.spots[k];
      ghost var parked := RouteEnd(car.Here(), s.parking);
      ghost var backed := LegEnd(parked, BackOutLeg(parked.x));
      ghost var lane := RouteEnd(backed, s.leaving);
      Stay(car, k, others);
      assert car.Here() == backed;
      ExitGarage(car, k, others);
      assert car.Here() == LegEnd(lane, Departure[0]);
      DriveAway(car, others);
    }

    /**
     * carCycle for one car, given the positions of the other registered cars
     * (which stand still) and a free spot: a new car arrives, stays and
     * departs. Every step is one of the operations above, so each happens
     * only when the discipline allows it. The steps taken are exactly
     * CycleEvents; they end holding nothing, with the car destroyed and
     * deregistered; and the registry, the door and the pool are as before.
     */
    method CarCycle(others: seq<Pos>) returns (car: Car, spot: nat)
      requires Valid() && !doorLocked
      requires FirstAvailable(parking.available[..]).Some?
      requires RouteClear(Spawn(), CycleRoute(parking.spots[FirstAvailable(parking.available[..]).value]), others)
      modifies this`registry, this`doorLocked, this`held, this`log, parking.available
      ensures Valid() && fresh(car)
      ensures spot == FirstAvailable(old(parking.available[..])).value
      ensures log == CycleEvents(spot) && held == Holdings(false, None, false, true)
      ensures Run(Nothing, log) == Some(held)
      ensures registry == old(registry) && !doorLocked
      ensures parking.available[..] == old(parking.available[..])
      ensures car.Here() == RouteEnd(Spawn(), CycleRoute(parking.spots[spot]))
    {
      ghost var flags := parking.available[..];
      ghost var cars := registry;
      ghost var k := FirstAvailable(flags).value;
      ghost var s := parking.spots[k];
      ClearCycleRouteStages(s, others);
      ghost var p2 := LegEnd(LegEnd(Spawn(), Approach[0]), Approach[1]);
      ghost var p4 := LegEnd(RouteEnd(p2, s.parking), BackOut(s));
      ghost var p5 := RouteEnd(p4, s.leaving);

      // a new lifecycle starts holding nothing
      held := Nothing;
      log := [];

      car := new Car();
      assert car !in cars;
      spot := Arrive(car, others);
      assert car.Here() == p2;
      Leave(car, spot, others);
      assert flags[spot := false][spot := true] == flags;

      AddThenRemove(cars, car);
      assert [] + ArrivalEvents(spot) == ArrivalEvents(spot);
      assert log == CycleEvents(spot);
      CycleKeepsDiscipline(spot);
    }
  }

  /**
   * A client run of the spawner: however many Enter events arrive, exactly
   * 100 lifecycles are started, all by the first one.
   */
  method EnterEvents(scene: ParkingScene, n: nat)
    requires scene.isFirstTime && scene.launched == 0
    modifies scene
    ensures scene.launched == if n == 0 then 0 else SpawnCount
  {
    var i := 0;
    while i < n
      invariant 0 <= i <= n
      invariant scene.launched == if i == 0 then 0 else SpawnCount
      invariant scene.isFirstTime == (i == 0)
    {
      scene.OnEnter();
      i := i + 1;
    }
  }
}
