# Parking garage simulator: a Dafny model

This project models the core of a parking-garage simulator written in Go.
Cars spawn above the garage and queue in front of a single-lane door. Each
car acquires a parking spot from a bounded pool, crosses the door under a
mutex, and drives its spot's fixed list of legs into the spot. It dwells
there, backs out and releases the spot, then drives the leaving legs back
through the door and off the map. Before every one-unit step, a car checks
that no other car is within 30 units ahead of it on the same lane.

The model has five modules:

- `Wrappers` defines `Option`.
- `Spots` holds the value types that the modelled code reads from a parking
  spot: its rectangle, its row and number, and its two leg lists.
- `Cars` models `models/Car.go`:
  - the collision predicate, once as a function (`CollidesAhead`) and once as
    the scanning loop (`Car.CarIsCollision`);
  - the single-step semantics (`Step`);
  - a class `Car` whose position the leg loops update in place.
- `Parking` models `models/Parking.go`: a class `ParkingZone` whose
  availability flags live in an array. Acquiring scans the flags in list
  order; releasing sets a flag back.
- `Scene` models `scenes/ParkingScene.go`:
  - the static table of twelve spots;
  - a discipline (`Allowed`/`Apply`/`Run`) that says what a lifecycle may
    hold at each step: its registration, a spot, the door;
  - every step of `carCycle` as an operation of the class `ParkingScene`.
    Each operation requires what the discipline allows at that step, performs
    the step (a movement of the car, the pool or mutex operation, the registry
    update), updates the ghost record of what the lifecycle holds (`held`),
    and appends the step to the ghost log;
  - `carCycle` itself as `ParkingScene.CarCycle`, composed of the phases
    `Arrive`, `Stay`, `ExitGarage` and `DriveAway`. Doing a step out of order
    (moving through the door without the mutex, say, or parking after the
    release) fails to verify;
  - the Enter handler that starts the lifecycles once.

The model is sequential. One lifecycle runs at a time, and the other cars
stand still at given positions (`others`).

Every leg loop is proved to terminate exactly at the leg's end point. This
rests on an explicit no-collision precondition (`PathClear`, `RouteClear`).
Without it, the source loops spin in place until the blocking car moves away.

The car registry (`CarManager`) and `NewParkingSpot` are not part of this
model. The registry is a field of type `seq<Car>` of the scene, and the legs of
each spot are a parameter of the scene's constructor.

## Model

| member | source | states |
|---|---|---|
| Cars.CollidesAhead | models/Car.go:196-220 | the scan answers true exactly when some car of the snapshot blocks travel in the given direction |
| Cars.IsWithinDistance | models/Car.go:248-253 | the other car lies strictly inside the window of width 2 * distance centred on this car, on the X axis when horizontal and on the Y axis otherwise |
| Cars.Blocks | models/Car.go:200-217 | one arm of the direction switch: another car blocks exactly when the direction is one of the four words, both cars share the lane (same Y for left/right, same X for up/down) and the other car is strictly ahead by less than 30 |
| Cars.ThresholdIsStrict | models/Car.go:248-253 | the distance test is strict: a car 20 or 29 units ahead blocks, one 30 or 40 units ahead does not |
| Cars.NoCollisionWithoutCarsOrDirection | models/Car.go:196-220 | an empty snapshot, or a direction the switch does not know, never reports a collision |
| Cars.SnapshotMayHoldSelf | models/Car.go:196-220 | a car never blocks itself, so a snapshot from the registry that also holds the calling car (inserted anywhere) gives the same answer |
| Cars.CollidesAheadSplit | models/Car.go:199-219 | scanning a snapshot in two parts gives the answer for the whole snapshot |
| Cars.BlockingIsMutual | models/Car.go:201-216 | b blocks a going right exactly when a blocks b going left, and likewise for down and up |
| Cars.Step | models/Car.go:46-51 | one loop iteration consults the snapshot holding the car itself, yet its own presence never matters: a blocked car stays in place, and a free one moves exactly one unit forward along its lane, never sideways |
| Cars.LegEndIsFirstStop | models/Car.go:78-106 | a leg ends at the first position where the loop condition fails: the coordinate of the axis of travel equals the target and the other coordinate is unchanged; a car already past the point, or a leg with an unknown direction, stays put |
| Cars.RouteSplit | models/Car.go:73-108 | driving a list of legs that is split in two is driving the first part, then the second part from where the first ends; the route is clear exactly when both parts are |
| Cars.UnknownLegsStayPut | models/Car.go:74-107 | legs whose direction matches no branch of the leg dispatch move the car nowhere |
| Cars.AloneRouteIsClear | models/Car.go:196-220 | with no other car on the map, every route satisfies the no-collision condition |
| Cars.HeadOnKeepsApart | models/Car.go:196-216 | two cars approaching each other on one lane, whatever the order of their whole ticks (check and shift together), stay on the lane and keep a gap of at least min(initial gap, 29) |
| Cars.HeadOnSplitInvariant | models/Car.go:78-106 | with each tick split into its check and its shift, the gap less the shifts already cleared but not yet taken never drops below the bound |
| Cars.HeadOnSplitKeepsApart | models/Car.go:78-106 | two cars approaching each other on one lane, in any interleaving of their checks and shifts, stay on the lane and keep a gap of at least min(initial gap, 28) |
| Cars.HeadOnSplitReaches28 | models/Car.go:78-106 | the bound 28 is reached: from a gap of 30 both cars pass their checks and then both shift |
| Cars.Car.constructor | models/Car.go:28-42 | a new car stands at (445, -20) |
| Cars.Car.ShiftX | models/Car.go:172-176 | X moves by dx and Y is unchanged |
| Cars.Car.ShiftY | models/Car.go:166-170 | Y moves by dy and X is unchanged |
| Cars.Car.CarIsCollision | models/Car.go:222-246 | the exported loop answers true exactly when some car of the snapshot blocks, which is the same answer as the function for every input |
| Cars.Car.Tick | models/Car.go:79-84 | one iteration consults the snapshot (the others plus the car itself) and shifts one unit only when it reports no collision |
| Cars.Car.Drive | models/Car.go:78-106 | under the no-collision condition, every leg loop terminates with the car exactly at the leg's end point |
| Cars.Car.Enqueue | models/Car.go:44-53 | the car drives down to Y = 145 (or stays if already there or below) without changing X |
| Cars.Car.JoinDoor | models/Car.go:55-62 | the car drives down to the entrance line Y = 185 without changing X |
| Cars.Car.ExitDoor | models/Car.go:64-71 | the car drives up to Y = 145 without changing X |
| Cars.Car.GoAway | models/Car.go:157-164 | the car drives up to Y = -20 without changing X |
| Cars.Car.LeaveSpot | models/Car.go:146-155 | the car backs out exactly 30 units left of where it stood, on the same row |
| Cars.Car.FollowRoute | models/Car.go:74-107 | the legs of a direction list are driven in list order, each from where the previous one ended, and the car ends at the route's end |
| Cars.Car.ParkZone | models/Car.go:73-108 | the car follows the spot's parking legs and ends where that route ends |
| Cars.Car.LeaveSlot | models/Car.go:110-144 | the car follows the spot's leaving legs and ends where that route ends |
| Parking.FirstAvailable | models/Parking.go:47-53 | an acquire yields nothing exactly when every spot is taken; otherwise it yields a free spot with every spot before it taken |
| Parking.CountAvailable | models/Parking.go:48-52 | the number of free spots is at most the number of spots, and it is zero exactly when every spot is taken |
| Parking.CountAfterSet | models/Parking.go:50 | setting one flag changes the number of free spots by exactly what that flag gained or lost |
| Parking.AcquireTakesExactlyOne | models/Parking.go:48-52 | a successful acquire hands out a free spot, marks only that spot taken and lowers the free count by exactly one |
| Parking.ReleaseIsIdempotent | models/Parking.go:59-65 | a release touches only its own spot; releasing twice equals releasing once, releasing a free spot changes nothing, and the free count rises only when the spot was taken |
| Parking.AcquireInListOrder | models/Parking.go:47-53 | with the first i spots taken and the rest free, the acquire returns spot i, so successive acquires hand out spots in list order |
| Parking.ReleaseThenAcquireReturnsIt | models/Parking.go:43-65 | with every spot taken no spot is available, and after releasing spot k the next acquire returns k |
| Parking.CarQueue.constructor | models/Parking.go:11-15 | a new car queue is empty |
| Parking.ParkingZone.constructor | models/Parking.go:28-35 | the zone keeps the given spot list with its flags and a fresh, empty car queue |
| Parking.ParkingZone.GetParkingSpotAvailable | models/Parking.go:43-56 | the scan returns the first free spot in list order and marks only that spot taken; when no spot is free, nothing changes |
| Parking.ParkingZone.ReleaseParkingSpot | models/Parking.go:59-65 | spot k is free again and no other flag changes |
| Parking.FillReleaseReacquire | models/Parking.go:43-65 | starting from a fully free pool, acquiring every spot, releasing k and acquiring again yields k and leaves the pool full |
| Scene.LayoutShape | scenes/ParkingScene.go:19-40 | twelve spots numbered 1 to 12 with distinct numbers, four rows of three, every spot 30 by 30, rows at X = 410, 320, 230, 140 and spots at Y = 210, 255, 300 |
| Scene.SpotsOf | scenes/ParkingScene.go:20-41 | the zone's spots are twelve, numbered 1 to 12 and distinct, three to a row, each 30 by 30, in its row's X band and its own Y band, each with the legs given for it |
| Scene.CycleRouteStages | scenes/ParkingScene.go:105-131 | the lifecycle's route is its stages in order (enqueue, join door, park, back out, leave slot, exit door, go away), each starting where the previous one ends; the whole route is clear exactly when every stage is clear |
| Scene.ClearCycleRouteStages | scenes/ParkingScene.go:105-131 | a clear lifecycle route makes each stage clear from where the previous one ends, and ends where the last stage ends |
| Scene.RunSplit | scenes/ParkingScene.go:100-136 | replaying a trace in two parts gives the same result as replaying it whole |
| Scene.ArrivalKeepsDiscipline | scenes/ParkingScene.go:101-113 | registering, queueing, acquiring spot k and crossing the door under the mutex are all allowed, and end holding spot k with the door released |
| Scene.StayKeepsDiscipline | scenes/ParkingScene.go:115-121 | parking in spot k, dwelling, backing out and releasing k are allowed and end holding no spot |
| Scene.ExitKeepsDiscipline | scenes/ParkingScene.go:123-129 | leaving the slot and crossing the door out under the mutex are allowed and end holding nothing but the registration |
| Scene.RemovalKeepsDiscipline | scenes/ParkingScene.go:131-135 | driving off, destroying and deregistering are allowed and end with the car destroyed, unregistered and holding nothing |
| Scene.CycleKeepsDiscipline | scenes/ParkingScene.go:100-136 | every step of carCycle keeps the discipline, and the lifecycle ends with the car destroyed and deregistered, its spot released and the door unlocked |
| Scene.CycleOrder | scenes/ParkingScene.go:100-136 | registration comes first and destroy then deregister come last; the spot is acquired once, after Enqueue and before the door, and released once, after LeaveSpot and before LeaveSlot; every step that names a spot names the acquired one |
| Scene.Without | scenes/ParkingScene.go:135 | removing a car from the registry removes every entry of it, keeps every other car, adds none, and changes nothing when the car was absent |
| Scene.AddThenRemove | scenes/ParkingScene.go:103-135 | adding an unregistered car and removing it again restores the registry exactly |
| Scene.ParkingScene.constructor | scenes/ParkingScene.go:19-44 | the scene starts with the twelve spots, all free, an empty registry, an unlocked door, no Enter event seen, and no lifecycle holding anything |
| Scene.ParkingScene.AddCar | scenes/ParkingScene.go:103 | only an unregistered car holding nothing is registered; it is appended to the registry |
| Scene.ParkingScene.QueueUp | scenes/ParkingScene.go:105 | a registered car holding no spot and not the door drives to the queue line |
| Scene.ParkingScene.AcquireSpot | scenes/ParkingScene.go:107 | a car holding no spot and not the door receives the first free spot, which the pool marks taken and the lifecycle now holds; with none free nothing changes |
| Scene.ParkingScene.DoorLock | scenes/ParkingScene.go:109 | a lifecycle not holding the door takes the free mutex and now holds the door |
| Scene.ParkingScene.CrossIn | scenes/ParkingScene.go:111 | only with the door mutex and a spot held does the car drive through the door to the entrance line |
| Scene.ParkingScene.DoorUnlock | scenes/ParkingScene.go:113 | the lifecycle holding the door gives the mutex back |
| Scene.ParkingScene.Park | scenes/ParkingScene.go:115 | only while it holds spot k, marked taken in the pool, and not the door does the car follow k's parking legs |
| Scene.ParkingScene.DwellInSpot | scenes/ParkingScene.go:117 | the dwell happens while a spot is held and the door is not |
| Scene.ParkingScene.BackOutOfSpot | scenes/ParkingScene.go:119 | while it still holds its spot the car backs out 30 units |
| Scene.ParkingScene.ReleaseSpot | scenes/ParkingScene.go:121 | only the held spot k is released, outside the door; the pool marks k free and the lifecycle holds no spot |
| Scene.ParkingScene.DriveToLane | scenes/ParkingScene.go:123 | only after the spot is given back does the car follow k's leaving legs |
| Scene.ParkingScene.CrossOut | scenes/ParkingScene.go:127 | only with the door mutex held and no spot does the car drive up through the door |
| Scene.ParkingScene.DriveOff | scenes/ParkingScene.go:131 | a registered car holding nothing drives off the map |
| Scene.ParkingScene.RemoveCar | scenes/ParkingScene.go:133 | a car holding nothing is destroyed |
| Scene.ParkingScene.RemoveCarFromScene | scenes/ParkingScene.go:135 | only a destroyed car holding nothing is deregistered; every entry of it leaves the registry |
| Scene.ParkingScene.Arrive | scenes/ParkingScene.go:101-113 | from holding nothing, the car is registered, queues, takes the first free spot and crosses the door in; it ends holding that spot, with the door unlocked and the steps ArrivalEvents logged |
| Scene.ParkingScene.Stay | scenes/ParkingScene.go:115-121 | holding spot k, the car parks, dwells, backs out and releases k; the pool gets k back and the steps StayEvents are logged |
| Scene.ParkingScene.ExitGarage | scenes/ParkingScene.go:123-129 | holding no spot, the car leaves the slot and crosses the door out under the mutex, which it gives back |
| Scene.ParkingScene.DriveAway | scenes/ParkingScene.go:131-135 | the car drives off, is destroyed and is deregistered, ending with nothing held |
| Scene.ParkingScene.Leave | scenes/ParkingScene.go:115-135 | holding spot k, the car stays, exits and drives away, each stage from where the previous one ends; spot k is free again, the door unlocked and the car deregistered |
| Scene.ParkingScene.OnEnter | scenes/ParkingScene.go:60-74 | the first Enter event starts exactly 100 lifecycles, and every later one starts none |
| Scene.ParkingScene.CarCycle | scenes/ParkingScene.go:100-136 | a lifecycle creates a fresh car and uses the first free spot; the steps it performs, each gated by the discipline, are exactly CycleEvents and replay to the final holdings; it ends destroyed and deregistered holding nothing, at the end of its route, with the registry, the door and the pool as it found them |
| Scene.EnterEvents | scenes/ParkingScene.go:53-77 | however many Enter events arrive, exactly 100 lifecycles are started in total, all by the first event |

## Left out

- Concurrency is not modelled. The goroutines, the zone's mutex and condition variable, the door mutex and each car's own mutex are all absent, because the model is sequential.
  - One lifecycle runs at a time.
  - Other cars are a fixed list of positions.
  - The door is a boolean that the lifecycle finds unlocked.
  - The "at most one car at the door" property is stated through the discipline on the trace, not over interleavings.
- Parking.ParkingZone.GetParkingSpotAvailable: when no spot is free, it returns None and changes nothing. The source waits on the condition variable and scans again after a release.
- Scene.ParkingScene.CarCycle requires a free spot and an unlocked door. In the source, the lifecycle blocks on each of these until it is available.
- Cars.HeadOnKeepsApart: a tick's collision check and its shift are one atomic step there. In the source they are separate lock sections, so the gap can close to 28; `HeadOnSplitKeepsApart` models the split ticks and proves that bound.
- Scene.ParkingScene.CarCycle: the scene's registry only records the cars added and removed, and nothing reads it. The other cars that the collision check sees are the parameter `others`, which is not tied to the registry, so a registered car blocks only if it is also in `others`.
- Scene.ParkingScene.CarCycle: what a lifecycle holds (`held`) and the steps it has taken (`log`) are ghost fields of the scene that belong to the running lifecycle. A new lifecycle starts them afresh, since only one runs at a time.
- Cars.Car.Drive: termination is proved only under the no-collision condition `PathClear`, with the other cars standing still. The source loop spins while it is blocked, and it ends only if the blocking car moves. Liveness and deadlock freedom are not modelled.
- Timing is not modelled: the 10 ms tick sleeps, the extra 20 ms sleep in LeaveSpot, the random dwell of 40 to 50 s and the random 1 to 2 s spawn spacing. The dwell is only an event in the trace, and the spawner only counts the lifecycles it starts (`launched`).
- `getRandomNumber` is left out because it is randomness.
- Rendering is left out: the sprites, `setUpScene`, `Car.Remove` (modelled only as the Destroy event), `log.Fatal` on a missing sprite, and the `fmt.Println` traces in ParkZone.
- Coordinates are integers rather than float64. Every start point is whole and every step is one unit, so this is exact when the leg targets are whole.
- `ParkingSpot`, `NewParkingSpot` and `CarManager` are not part of this model.
  - The legs of each spot are a constructor parameter of the scene.
  - The initial availability flags are all true.
  - A spot's availability flag is kept in the zone's array rather than on the spot.
  - Registry removal is `Without`.
  - The registry snapshot read by the collision check is the other cars' positions plus the car itself.
- Cars.Car.X and Cars.Car.Y (models/Car.go:178-188) are plain reads of the position and carry no contract, which would only restate their bodies; `Cars.Car.Here` is what the movement contracts speak of. Their locking is part of the concurrency left out above.
- `GetSpots` and `GetQueueCars` are modelled as plain field reads and need no contract. Nothing in the core fills the car queue.
- The two identical collision scans (`carisCollision` and `CarisCollision`) are modelled once as the function `CollidesAhead` and once as the method `Car.CarIsCollision` proved equal to it.
