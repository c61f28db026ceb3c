/**
 * The cars of models/Car.go: a car's position, the directional collision
 * predicate it consults before every unit step, and the leg loops that drive it
 * toward a target coordinate.
 *
 * Positions are whole numbers. The source keeps them as float64, but every car
 * spawns at (445, -20) and every step is exactly one unit, so with whole-number
 * leg targets no fractional coordinate ever arises.
 */
module Cars {
  import opened Spots

  /** The top-left corner of a car's 20x20 rectangle. */
  datatype Pos = Pos(x: int, y: int)

  /** Where NewCar places every new car. */
  const SpawnX: int := 445
  const SpawnY: int := -20

  function Spawn(): Pos { Pos(SpawnX, SpawnY) }

  /** The collision threshold of carisCollision; a separation of exactly this much is free. */
  const MinDistance: int := 30

  /** Target coordinates of the fixed legs. */
  const QueueY: int := 145      // Enqueue stops here, ExitDoor returns here
  const EntranceY: int := 185   // entranceSpot: JoinDoor stops here
  const GoneY: int := -20       // GoAway leaves the map here
  const BackOff: int := 30      // LeaveSpot backs out this far to the left

  /** The fixed legs of the movement methods. */
  const EnqueueLeg: Leg := Leg("down", QueueY)
  const JoinDoorLeg: Leg := Leg("down", EntranceY)
  const ExitDoorLeg: Leg := Leg("up", QueueY)
  const GoAwayLeg: Leg := Leg("up", GoneY)

  /** The leg of LeaveSpot for a car parked at X = `spotX`. */
  function BackOutLeg(spotX: int): Leg { Leg("left", spotX - BackOff) }

  function Abs(n: int): nat { if n < 0 then -n else n }

  function Min(a: int, b: int): int { if a <= b then a else b }

  /** The four direction words the movement code recognises. */
  predicate IsDirection(direction: string) {
    direction == "left" || direction == "right" || direction == "up" || direction == "down"
  }

  predicate Horizontal(direction: string) {
    direction == "left" || direction == "right"
  }

  // ---------------------------------------------------------------------------
  // The collision predicate
  // ---------------------------------------------------------------------------

  /**
   * isWithinDistance: the other car lies strictly inside the window of width
   * 2 * distance centred on this car, on the X axis when `horizontal` and on
   * the Y axis otherwise.
   */
  function IsWithinDistance(me: Pos, other: Pos, distance: int, horizontal: bool): (r: bool)
    ensures r <==> if horizontal then me.x - distance < other.x < me.x + distance
                   else me.y - distance < other.y < me.y + distance
  {
    if horizontal then Abs(me.x - other.x) < distance else Abs(me.y - other.y) < distance
  }

  /**
   * One arm of the direction switch in carisCollision, for one car of the
   * snapshot. In geometric terms: the other car blocks exactly when the
   * direction is one of the four words, the two cars share the lane, and the
   * other car is strictly ahead by less than the threshold.
   */
  function Blocks(me: Pos, direction: string, other: Pos): (r: bool)
    ensures r <==> IsDirection(direction) && SameLane(me, direction, other) && 0 < Gap(me, direction, other) < MinDistance
  {
    if direction == "left" then
      IsWithinDistance(me, other, MinDistance, true) && me.y == other.y && me.x > other.x
    else if direction == "right" then
      IsWithinDistance(me, other, MinDistance, true) && me.y == other.y && me.x < other.x
    else if direction == "up" then
      IsWithinDistance(me, other, MinDistance, false) && me.x == other.x && me.y > other.y
    else if direction == "down" then
      IsWithinDistance(me, other, MinDistance, false) && me.x == other.x && me.y < other.y
    else
      false
  }

  /**
   * carisCollision: scans the snapshot in order and answers true at the first
   * car that blocks travel in `direction`.
   */
  function CollidesAhead(me: Pos, direction: string, cars: seq<Pos>): (r: bool)
    ensures r <==> exists i :: 0 <= i < |cars| && Blocks(me, direction, cars[i])
  {
    if cars == [] then false
    else Blocks(me, direction, cars[0]) || CollidesAhead(me, direction, cars[1..])
  }

  /** How far `other` lies in front of `me` along the direction of travel (negative: behind). */
  function Gap(me: Pos, direction: string, other: Pos): int {
    if direction == "right" then other.x - me.x
    else if direction == "left" then me.x - other.x
    else if direction == "down" then other.y - me.y
    else if direction == "up" then me.y - other.y
    else 0
  }

  /** Both cars are on the lane the travel follows: same Y for left/right, same X for up/down. */
  predicate SameLane(me: Pos, direction: string, other: Pos) {
    if Horizontal(direction) then me.y == other.y else me.x == other.x
  }

  /** The threshold is strict: 20 units ahead blocks, 29 blocks, 30 and 40 do not. */
  lemma ThresholdIsStrict()
    ensures CollidesAhead(Pos(0, 0), "right", [Pos(20, 0)])
    ensures CollidesAhead(Pos(0, 0), "right", [Pos(29, 0)])
    ensures !CollidesAhead(Pos(0, 0), "right", [Pos(30, 0)])
    ensures !CollidesAhead(Pos(0, 0), "right", [Pos(40, 0)])
  {
    assert Blocks(Pos(0, 0), "right", [Pos(20, 0)][0]);
    assert Blocks(Pos(0, 0), "right", [Pos(29, 0)][0]);
  }

  /** An empty snapshot, or a direction word the switch does not know, never reports a collision. */
  lemma {:induction false} NoCollisionWithoutCarsOrDirection(me: Pos, direction: string, cars: seq<Pos>)
    requires cars == [] || !IsDirection(direction)
    ensures !CollidesAhead(me, direction, cars)
  {
    if cars != [] {
      NoCollisionWithoutCarsOrDirection(me, direction, cars[1..]);
    }
  }

  /**
   * A car never blocks itself, so the registry snapshot may hold the caller
   * anywhere without changing the answer.
   */
  lemma {:induction false} SnapshotMayHoldSelf(me: Pos, direction: string, cars: seq<Pos>, i: nat)
    requires i <= |cars|
    ensures CollidesAhead(me, direction, cars[..i] + [me] + cars[i..]) == CollidesAhead(me, direction, cars)
  {
    var withMe := cars[..i] + [me] + cars[i..];
    assert !Blocks(me, direction, me);
    if CollidesAhead(me, direction, withMe) {
      var j :| 0 <= j < |withMe| && Blocks(me, direction, withMe[j]);
      if j < i {
        assert withMe[j] == cars[j];
      } else {
        assert j > i && withMe[j] == cars[j - 1];
      }
    }
    if CollidesAhead(me, direction, cars) {
      var j :| 0 <= j < |cars| && Blocks(me, direction, cars[j]);
      if j < i {
        assert withMe[j] == cars[j];
      } else {
        assert withMe[j + 1] == cars[j];
      }
    }
  }

  /** Checking two parts of a snapshot separately gives the answer for the whole snapshot. */
  lemma {:induction false} CollidesAheadSplit(me: Pos, direction: string, a: seq<Pos>, b: seq<Pos>)
    ensures CollidesAhead(me, direction, a + b) == (CollidesAhead(me, direction, a) || CollidesAhead(me, direction, b))
  {
    if a == [] {
      assert a + b == b;
    } else {
      assert (a + b)[1..] == a[1..] + b;
      CollidesAheadSplit(me, direction, a[1..], b);
    }
  }

  /**
   * Two cars heading toward each other on a lane stop each other alike: b is
   * ahead of a travelling right exactly when a is ahead of b travelling left,
   * and the same for down and up.
   */
  lemma BlockingIsMutual(a: Pos, b: Pos)
    ensures Blocks(a, "right", b) <==> Blocks(b, "left", a)
    ensures Blocks(a, "down", b) <==> Blocks(b, "up", a)
  {
  }

  // ---------------------------------------------------------------------------
  // One tick of movement
  // ---------------------------------------------------------------------------

  /**
   * One iteration of a leg loop: the snapshot of the registry (the other cars
   * and the car itself) is consulted, and the car shifts one unit toward
   * `direction` (ShiftX / ShiftY by +-1) only when it reports no collision.
   * The car's own presence in the snapshot never matters: a blocked tick
   * leaves the car in place, and a free one moves it exactly one unit
   * forward along its lane, never sideways.
   */
  function Step(p: Pos, direction: string, others: seq<Pos>): (r: Pos)
    ensures CollidesAhead(p, direction, others) ==> r == p
    ensures !CollidesAhead(p, direction, others) ==> r == Advance(p, direction, 1)
    ensures IsDirection(direction) && !CollidesAhead(p, direction, others) ==>
      SameLane(p, direction, r) && Gap(p, direction, r) == 1 && Abs(r.x - p.x) + Abs(r.y - p.y) == 1
  {
    SnapshotMayHoldSelf(p, direction, others, |others|);
    assert others[..|others|] + [p] + others[|others|..] == others + [p];
    if CollidesAhead(p, direction, others + [p]) then p else Advance(p, direction, 1)
  }

  // ---------------------------------------------------------------------------
  // Legs and routes
  // ---------------------------------------------------------------------------

  /** The condition of a leg's loop: the car has not yet reached the leg's point. */
  predicate BeforePoint(p: Pos, leg: Leg) {
    if leg.direction == "right" then p.x < leg.point
    else if leg.direction == "left" then p.x > leg.point
    else if leg.direction == "down" then p.y < leg.point
    else if leg.direction == "up" then p.y > leg.point
    else false
  }

  /** Units the leg still has to cover from p. */
  function Remaining(p: Pos, leg: Leg): nat {
    if !BeforePoint(p, leg) then 0
    else if leg.direction == "right" then leg.point - p.x
    else if leg.direction == "left" then p.x - leg.point
    else if leg.direction == "down" then leg.point - p.y
    else p.y - leg.point
  }

  /** The position k free ticks along `direction` from p. */
  function Advance(p: Pos, direction: string, k: nat): Pos {
    if direction == "right" then Pos(p.x + k, p.y)
    else if direction == "left" then Pos(p.x - k, p.y)
    else if direction == "down" then Pos(p.x, p.y + k)
    else if direction == "up" then Pos(p.x, p.y - k)
    else p
  }

  /** Where a leg leaves the car: on the target point of its axis if it was short of it, else where it was. */
  function LegEnd(p: Pos, leg: Leg): Pos {
    if !BeforePoint(p, leg) then p
    else if Horizontal(leg.direction) then Pos(leg.point, p.y)
    else Pos(p.x, leg.point)
  }

  /**
   * The no-collision assumption for one leg: no position the car passes through
   * before reaching the point is blocked by the (unmoving) other cars.
   */
  predicate PathClear(p: Pos, leg: Leg, others: seq<Pos>) {
    forall k: nat :: k < Remaining(p, leg) ==> !CollidesAhead(Advance(p, leg.direction, k), leg.direction, others)
  }

  /**
   * The exit state of a leg loop: LegEnd is what Remaining free ticks reach,
   * the loop condition fails there, and it holds at every position before.
   * For a recognised direction the car ends with the axis of travel on the
   * leg's point and the other coordinate unchanged; a car already at or past
   * the point, or a leg with an unknown direction, does not move.
   */
  lemma LegEndIsFirstStop(p: Pos, leg: Leg)
    ensures LegEnd(p, leg) == Advance(p, leg.direction, Remaining(p, leg))
    ensures !BeforePoint(LegEnd(p, leg), leg)
    ensures forall k: nat :: k < Remaining(p, leg) ==> BeforePoint(Advance(p, leg.direction, k), leg)
    ensures IsDirection(leg.direction) && BeforePoint(p, leg) ==>
      SameLane(p, leg.direction, LegEnd(p, leg)) &&
      (if Horizontal(leg.direction) then LegEnd(p, leg).x else LegEnd(p, leg).y) == leg.point
    ensures !IsDirection(leg.direction) || !BeforePoint(p, leg) ==> LegEnd(p, leg) == p
  {
  }

  /** Where a list of legs, taken in order, leaves the car. */
  function RouteEnd(p: Pos, legs: seq<Leg>): Pos
    decreases |legs|
  {
    if legs == [] then p else RouteEnd(LegEnd(p, legs[0]), legs[1..])
  }

  /** The no-collision assumption for every leg of a list, each from where the previous one ends. */
  predicate RouteClear(p: Pos, legs: seq<Leg>, others: seq<Pos>)
    decreases |legs|
  {
    legs == [] || (PathClear(p, legs[0], others) && RouteClear(LegEnd(p, legs[0]), legs[1..], others))
  }

  /** A route split in two is the first part followed by the second, from where the first ends. */
  lemma {:induction false} RouteSplit(p: Pos, a: seq<Leg>, b: seq<Leg>, others: seq<Pos>)
    ensures RouteEnd(p, a + b) == RouteEnd(RouteEnd(p, a), b)
    ensures RouteClear(p, a + b, others) <==> RouteClear(p, a, others) && RouteClear(RouteEnd(p, a), b, others)
    decreases |a|
  {
    if a == [] {
      assert a + b == b;
    } else {
      assert (a + b)[0] == a[0];
      assert (a + b)[1..] == a[1..] + b;
      RouteSplit(LegEnd(p, a[0]), a[1..], b, others);
    }
  }

  /** Legs whose direction is not one of the four words move the car nowhere. */
  lemma {:induction false} UnknownLegsStayPut(p: Pos, legs: seq<Leg>)
    requires forall i :: 0 <= i < |legs| ==> !IsDirection(legs[i].direction)
    ensures RouteEnd(p, legs) == p
    decreases |legs|
  {
    if legs != [] {
      assert !IsDirection(legs[0].direction);
      UnknownLegsStayPut(p, legs[1..]);
    }
  }

  /** With nobody else on the map every route is clear. */
  lemma {:induction false} AloneRouteIsClear(p: Pos, legs: seq<Leg>)
    ensures RouteClear(p, legs, [])
    decreases |legs|
  {
    if legs != [] {
      forall k: nat | k < Remaining(p, legs[0])
        ensures !CollidesAhead(Advance(p, legs[0].direction, k), legs[0].direction, [])
      {
      }
      AloneRouteIsClear(LegEnd(p, legs[0]), legs[1..]);
    }
  }

  // ---------------------------------------------------------------------------
  // Two cars meeting head-on
  // ---------------------------------------------------------------------------

  /**
   * Car a drives right and car b drives left on the same lane; `turns` says
   * which of them ticks next (true: a, false: b). Each consults a snapshot
   * holding the other car and itself.
   */
  function HeadOn(a: Pos, b: Pos, turns: seq<bool>): (Pos, Pos)
    decreases |turns|
  {
    if turns == [] then (a, b)
    else if turns[0] then HeadOn(Step(a, "right", [b]), b, turns[1..])
    else HeadOn(a, Step(b, "left", [a]), turns[1..])
  }

  /**
   * Whatever the order of whole ticks, two cars approaching each other stay
   * on their lane and never come closer than one unit short of the threshold
   * (nor closer than they started): the first tick that would bring them
   * within 30 units is the last one either of them takes.
   */
  lemma {:induction false} HeadOnKeepsApart(a: Pos, b: Pos, turns: seq<bool>)
    requires a.y == b.y && a.x < b.x
    ensures HeadOn(a, b, turns).0.y == a.y && HeadOn(a, b, turns).1.y == a.y
    ensures HeadOn(a, b, turns).1.x - HeadOn(a, b, turns).0.x >= Min(b.x - a.x, MinDistance - 1)
    decreases |turns|
  {
    if turns != [] {
      if turns[0] {
        var a' := Step(a, "right", [b]);
        assert Blocks(a, "right", [b][0]) <==> b.x - a.x < MinDistance;
        HeadOnKeepsApart(a', b, turns[1..]);
      } else {
        var b' := Step(b, "left", [a]);
        assert Blocks(b, "left", [a][0]) <==> b.x - a.x < MinDistance;
        HeadOnKeepsApart(a, b', turns[1..]);
      }
    }
  }

  /**
   * In the movement loops a tick is two separate steps: the collision check,
   * then (when the check found the lane free) the one-unit shift, with the
   * other car free to act in between. `Checking` is a car about to check;
   * `Shifting(clear)` is a car that has checked and is about to shift.
   */
  datatype Phase = Checking | Shifting(clear: bool)

  /** One unit if the car has passed its check and is about to move, else zero. */
  function Pending(phase: Phase): nat {
    if phase == Shifting(true) then 1 else 0
  }

  /**
   * The same two cars, each tick split into its check and its shift; `turns`
   * says which car takes its next half-step (true: a, false: b).
   */
  function HeadOnSplit(a: Pos, pa: Phase, b: Pos, pb: Phase, turns: seq<bool>): (Pos, Pos)
    decreases |turns|
  {
    if turns == [] then (a, b)
    else if turns[0] then
      match pa
      case Checking => HeadOnSplit(a, Shifting(!CollidesAhead(a, "right", [b])), b, pb, turns[1..])
      case Shifting(clear) => HeadOnSplit(if clear then Advance(a, "right", 1) else a, Checking, b, pb, turns[1..])
    else
      match pb
      case Checking => HeadOnSplit(a, pa, b, Shifting(!CollidesAhead(b, "left", [a])), turns[1..])
      case Shifting(clear) => HeadOnSplit(a, pa, if clear then Advance(b, "left", 1) else b, Checking, turns[1..])
  }

  /**
   * The invariant of the split ticks: the gap, less the shifts already
   * cleared but not yet taken, never drops below a bound of at most 28.
   */
  lemma {:induction false} HeadOnSplitInvariant(a: Pos, pa: Phase, b: Pos, pb: Phase, turns: seq<bool>, bound: int)
    requires a.y == b.y && 1 <= bound <= MinDistance - 2
    requires b.x - a.x - Pending(pa) - Pending(pb) >= bound
    ensures HeadOnSplit(a, pa, b, pb, turns).0.y == a.y && HeadOnSplit(a, pa, b, pb, turns).1.y == a.y
    ensures HeadOnSplit(a, pa, b, pb, turns).1.x - HeadOnSplit(a, pa, b, pb, turns).0.x >= bound
    decreases |turns|
  {
    if turns != [] {
      if turns[0] {
        match pa
        case Checking =>
          assert Blocks(a, "right", [b][0]) <==> b.x - a.x < MinDistance;
          HeadOnSplitInvariant(a, Shifting(!CollidesAhead(a, "right", [b])), b, pb, turns[1..], bound);
        case Shifting(clear) =>
          HeadOnSplitInvariant(if clear then Advance(a, "right", 1) else a, Checking, b, pb, turns[1..], bound);
      } else {
        match pb
        case Checking =>
          assert Blocks(b, "left", [a][0]) <==> b.x - a.x < MinDistance;
          HeadOnSplitInvariant(a, pa, b, Shifting(!CollidesAhead(b, "left", [a])), turns[1..], bound);
        case Shifting(clear) =>
          HeadOnSplitInvariant(a, pa, if clear then Advance(b, "left", 1) else b, Checking, turns[1..], bound);
      }
    }
  }

  /**
   * With checks and shifts interleaved, two cars approaching each other from
   * their checks stay on their lane and keep a gap of at least 28 (or what
   * they started with, if less): both may pass their checks at a gap of 30
   * and then both shift.
   */
  lemma HeadOnSplitKeepsApart(a: Pos, b: Pos, turns: seq<bool>)
    requires a.y == b.y && a.x < b.x
    ensures HeadOnSplit(a, Checking, b, Checking, turns).0.y == a.y
    ensures HeadOnSplit(a, Checking, b, Checking, turns).1.y == a.y
    ensures HeadOnSplit(a, Checking, b, Checking, turns).1.x - HeadOnSplit(a, Checking, b, Checking, turns).0.x
      >= Min(b.x - a.x, MinDistance - 2)
  {
    HeadOnSplitInvariant(a, Checking, b, Checking, turns, Min(b.x - a.x, MinDistance - 2));
  }

  /** The bound 28 is reached: both cars check at a gap of 30, then both shift. */
  lemma HeadOnSplitReaches28()
    ensures HeadOnSplit(Pos(0, 0), Checking, Pos(30, 0), Checking, [true, false, true, false])
      == (Pos(1, 0), Pos(29, 0))
  {
    assert !CollidesAhead(Pos(0, 0), "right", [Pos(30, 0)]);
    assert !CollidesAhead(Pos(30, 0), "left", [Pos(0, 0)]);
  }

  // ---------------------------------------------------------------------------
  // The car object
  // ---------------------------------------------------------------------------

  /**
   * A car. Its position is updated in place by ShiftX / ShiftY; the sprite and
   * the per-car mutex of the source are not part of this model. Every movement
   * method takes `others`, the positions of the other registered cars, which
   * do not move while this car runs in the sequential model; the snapshot the
   * source passes to the collision check is `others` plus the car itself.
   */
  class Car {
    var x: int
    var y: int

    /** NewCar: a car on the rectangle (445, -20)-(465, 0). */
    constructor ()
      ensures Here() == Spawn()
    {
      x, y := SpawnX, SpawnY;
    }

    function X(): int reads this { x }

    function Y(): int reads this { y }

    function Here(): Pos reads this { Pos(x, y) }

    method ShiftX(dx: int)
      modifies this
      ensures x == old(x) + dx && y == old(y)
    {
      x := x + dx;
    }

    method ShiftY(dy: int)
      modifies this
      ensures y == old(y) + dy && x == old(x)
    {
      y := y + dy;
    }

    /**
     * CarisCollision, the exported copy of carisCollision: the same scan, the
     * same answer for every direction and snapshot.
     */
    method CarIsCollision(direction: string, cars: seq<Pos>) returns (r: bool)
      ensures r == CollidesAhead(Here(), direction, cars)
      ensures r <==> exists i :: 0 <= i < |cars| && Blocks(Here(), direction, cars[i])
    {
      var i := 0;
      while i < |cars|
        invariant 0 <= i <= |cars|
        invariant forall j :: 0 <= j < i ==> !Blocks(Here(), direction, cars[j])
      {
        if Blocks(Here(), direction, cars[i]) {
          return true;
        }
        i := i + 1;
      }
      return false;
    }

    /** One iteration of a leg loop: shift one unit toward `direction` unless blocked. */
    method Tick(direction: string, others: seq<Pos>)
      modifies this
      ensures Here() == Step(old(Here()), direction, others)
    {
      if !CollidesAhead(Here(), direction, others + [Here()]) {
        if direction == "right" {
          ShiftX(1);
        } else if direction == "left" {
          ShiftX(-1);
        } else if direction == "down" {
          ShiftY(1);
        } else if direction == "up" {
          ShiftY(-1);
        }
      }
    }

    /**
     * The loop every leg runs: while the car is short of the leg's point, tick.
     * Under the no-collision assumption every tick moves, and the loop stops
     * exactly at LegEnd.
     */
    method Drive(leg: Leg, others: seq<Pos>)
      requires PathClear(Here(), leg, others)
      modifies this
      ensures Here() == LegEnd(old(Here()), leg)
    {
      ghost var start := Here();
      ghost var k: nat := 0;
      LegEndIsFirstStop(start, leg);
      while BeforePoint(Here(), leg)
        invariant k <= Remaining(start, leg)
        invariant Here() == Advance(start, leg.direction, k)
        invariant Remaining(Here(), leg) == Remaining(start, leg) - k
        decreases Remaining(Here(), leg)
      {
        assert !CollidesAhead(Advance(start, leg.direction, k), leg.direction, others);
        Tick(leg.direction, others);
        k := k + 1;
      }
    }

    /** Enqueue: drive down to the queue line Y = 145. */
    method Enqueue(others: seq<Pos>)
      requires PathClear(Here(), EnqueueLeg, others)
      modifies this
      ensures Here() == LegEnd(old(Here()), EnqueueLeg)
      ensures x == old(x)
      ensures y == if old(y) < QueueY then QueueY else old(y)
    {
      Drive(EnqueueLeg, others);
    }

    /** JoinDoor: drive down through the door to the entrance line Y = 185. */
    method JoinDoor(others: seq<Pos>)
      requires PathClear(Here(), JoinDoorLeg, others)
      modifies this
      ensures Here() == LegEnd(old(Here()), JoinDoorLeg)
      ensures x == old(x)
      ensures y == if old(y) < EntranceY then EntranceY else old(y)
    {
      Drive(JoinDoorLeg, others);
    }

    /** ExitDoor: drive up through the door back to the queue line Y = 145. */
    method ExitDoor(others: seq<Pos>)
      requires PathClear(Here(), ExitDoorLeg, others)
      modifies this
      ensures Here() == LegEnd(old(Here()), ExitDoorLeg)
      ensures x == old(x)
      ensures y == if old(y) > QueueY then QueueY else old(y)
    {
      Drive(ExitDoorLeg, others);
    }

    /** GoAway: drive up off the map to Y = -20. */
    method GoAway(others: seq<Pos>)
      requires PathClear(Here(), GoAwayLeg, others)
      modifies this
      ensures Here() == LegEnd(old(Here()), GoAwayLeg)
      ensures x == old(x)
      ensures y == if old(y) > GoneY then GoneY else old(y)
    {
      Drive(GoAwayLeg, others);
    }

    /** LeaveSpot: back out 30 units to the left of where the car is parked. */
    method LeaveSpot(others: seq<Pos>)
      requires PathClear(Here(), BackOutLeg(x), others)
      modifies this
      ensures Here() == LegEnd(old(Here()), BackOutLeg(old(x)))
      ensures Here() == Pos(old(x) - BackOff, old(y))
    {
      var spotX := X();
      Drive(BackOutLeg(spotX), others);
    }

    /** Run the legs of a direction list one after another, in list order. */
    method FollowRoute(legs: seq<Leg>, others: seq<Pos>)
      requires RouteClear(Here(), legs, others)
      modifies this
      ensures Here() == RouteEnd(old(Here()), legs)
    {
      var index := 0;
      while index < |legs|
        invariant 0 <= index <= |legs|
        invariant Here() == RouteEnd(old(Here()), legs[..index])
        invariant RouteClear(Here(), legs[index..], others)
      {
        assert legs[..index + 1] == legs[..index] + [legs[index]];
        RouteSplit(old(Here()), legs[..index], [legs[index]], others);
        assert legs[index..][1..] == legs[index + 1..];
        Drive(legs[index], others);
        index := index + 1;
      }
      assert legs[..index] == legs;
    }

    /** ParkZone: follow the spot's parking directions into the spot. */
    method ParkZone(spot: ParkingSpot, others: seq<Pos>)
      requires RouteClear(Here(), spot.parking, others)
      modifies this
      ensures Here() == RouteEnd(old(Here()), spot.parking)
    {
      FollowRoute(spot.parking, others);
    }

    /** LeaveSlot: follow the spot's leaving directions back to the lane. */
    method LeaveSlot(spot: ParkingSpot, others: seq<Pos>)
      requires RouteClear(Here(), spot.leaving, others)
      modifies this
      ensures Here() == RouteEnd(old(Here()), spot.leaving)
    {
      FollowRoute(spot.leaving, others);
    }
  }
}
