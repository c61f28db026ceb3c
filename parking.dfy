/**
 * The spot pool of models/Parking.go. A ParkingZone owns the fixed list of
 * spots and their availability flags; acquiring a spot scans the flags in list
 * order and takes the first free one, releasing a spot sets its flag back.
 *
 * The monitor (mutex and condition variable) is not modelled: an acquire that
 * finds no free spot is where the source waits for a release and scans again,
 * and here it returns None and changes nothing.
 */
module Parking {
  import opened Wrappers
  import opened Spots
  import opened Cars

  /** The spot an acquire hands out: the lowest index whose flag is true, or None when all are taken. */
  function FirstAvailable(flags: seq<bool>): (r: Option<nat>)
    ensures r.None? <==> forall j :: 0 <= j < |flags| ==> !flags[j]
    ensures r.Some? ==> r.value < |flags| && flags[r.value] && forall j :: 0 <= j < r.value ==> !flags[j]
    decreases |flags|
  {
    if flags == [] then None
    else if flags[0] then Some(0)
    else
      match FirstAvailable(flags[1..])
      case None => None
      case Some(k) => Some(k + 1)
  }

  /** How many spots are free. */
  function CountAvailable(flags: seq<bool>): (n: nat)
    ensures n <= |flags|
    ensures n == 0 <==> forall j :: 0 <= j < |flags| ==> !flags[j]
    decreases |flags|
  {
    if flags == [] then 0 else (if flags[0] then 1 else 0) + CountAvailable(flags[1..])
  }

  /** Setting one flag changes the count by what that flag gained or lost, and nothing else. */
  lemma {:induction false} CountAfterSet(flags: seq<bool>, k: nat, v: bool)
    requires k < |flags|
    ensures CountAvailable(flags[k := v]) == CountAvailable(flags) - (if flags[k] then 1 else 0) + (if v then 1 else 0)
    decreases |flags|
  {
    if k > 0 {
      assert flags[k := v][1..] == flags[1..][k - 1 := v];
      CountAfterSet(flags[1..], k - 1, v);
    } else {
      assert flags[k := v][1..] == flags[1..];
    }
  }

  /**
   * An acquire that succeeds hands out a spot that was free, marks only that
   * spot taken, and lowers the number of free spots by exactly one.
   */
  lemma AcquireTakesExactlyOne(flags: seq<bool>)
    requires FirstAvailable(flags).Some?
    ensures var k := FirstAvailable(flags).value;
      flags[k] && !flags[k := false][k] &&
      (forall j :: 0 <= j < |flags| && j != k ==> flags[k := false][j] == flags[j]) &&
      CountAvailable(flags[k := false]) == CountAvailable(flags) - 1
  {
    CountAfterSet(flags, FirstAvailable(flags).value, false);
  }

  /**
   * A release marks the spot free and touches no other spot; releasing a spot
   * that is already free changes nothing, and the count rises by one only when
   * the spot was taken.
   */
  lemma ReleaseIsIdempotent(flags: seq<bool>, k: nat)
    requires k < |flags|
    ensures flags[k := true][k := true] == flags[k := true]
    ensures flags[k] ==> flags[k := true] == flags
    ensures CountAvailable(flags[k := true]) == CountAvailable(flags) + (if flags[k] then 0 else 1)
  {
    CountAfterSet(flags, k, true);
  }

  /**
   * Acquiring from a pool whose first i spots are taken and whose others are
   * free returns spot i: successive acquires from a fresh pool hand out the
   * spots in list order.
   */
  lemma AcquireInListOrder(flags: seq<bool>, i: nat)
    requires i < |flags|
    requires forall j :: 0 <= j < |flags| ==> flags[j] == (j >= i)
    ensures FirstAvailable(flags) == Some(i)
  {
    var r := FirstAvailable(flags);
    assert flags[i];
    assert r.Some? && r.value >= i;
  }

  /** With every spot taken, releasing spot k and acquiring again returns spot k. */
  lemma ReleaseThenAcquireReturnsIt(flags: seq<bool>, k: nat)
    requires k < |flags|
    requires forall j :: 0 <= j < |flags| ==> !flags[j]
    ensures FirstAvailable(flags) == None
    ensures FirstAvailable(flags[k := true]) == Some(k)
  {
    assert flags[k := true][k];
  }

  /** CarQueue: the queue of cars a zone keeps; it is created empty and nothing fills it. */
  class CarQueue {
    var cars: seq<Car>

    /** NewCarQueue */
    constructor ()
      ensures cars == []
    {
      cars := [];
    }
  }

  /**
   * ParkingZone: the spot list, fixed at construction, with one availability
   * flag per spot (in the source the flag is a field of each spot object; only
   * the zone changes it).
   */
  class ParkingZone {
    const spots: seq<ParkingSpot>
    const available: array<bool>
    const queueCars: CarQueue

    ghost predicate Valid()
      reads this
    {
      available.Length == |spots|
    }

    /**
     * NewParkingSlot: a zone over the given spots, each with the flag it
     * carries when the zone is built, and a fresh empty car queue.
     */
    constructor (spots: seq<ParkingSpot>, flags: seq<bool>)
      requires |flags| == |spots|
      ensures Valid() && fresh(available) && fresh(queueCars)
      ensures GetSpots() == spots && available[..] == flags
      ensures queueCars.cars == []
    {
      this.spots := spots;
      available := new bool[|flags|](i requires 0 <= i < |flags| => flags[i]);
      queueCars := new CarQueue();
    }

    function GetSpots(): seq<ParkingSpot>
      reads this
    {
      spots
    }

    function GetQueueCars(): CarQueue
      reads this
    {
      queueCars
    }

    /**
     * GetParkingSpotAvailable: scan the spots in list order and take the first
     * free one. When none is free, nothing changes (the source waits here for
     * a release and scans again).
     */
    method GetParkingSpotAvailable() returns (spot: Option<nat>)
      requires Valid()
      modifies available
      ensures spot == FirstAvailable(old(available[..]))
      ensures spot.Some? ==> available[..] == old(available[..])[spot.value := false]
      ensures spot.None? ==> available[..] == old(available[..])
    {
      var i := 0;
      while i < available.Length
        invariant 0 <= i <= available.Length
        invariant forall j :: 0 <= j < i ==> !available[j]
        invariant available[..] == old(available[..])
      {
        if available[i] {
          available[i] := false;
          return Some(i);
        }
        i := i + 1;
      }
      return None;
    }

    /** ReleaseParkingSpot: mark spot k free again; no other spot changes. */
    method ReleaseParkingSpot(k: nat)
      requires Valid() && k < available.Length
      modifies available
      ensures available[..] == old(available[..])[k := true]
    {
      available[k] := true;
    }
  }

  /**
   * A client run of the pool: starting with every spot free, acquire every
   * spot (receiving them in list order), release spot k, and acquire once
   * more: the spot handed out is k and the pool is full again.
   */
  method FillReleaseReacquire(zone: ParkingZone, k: nat) returns (again: Option<nat>)
    requires zone.Valid() && k < zone.available.Length
    requires forall j :: 0 <= j < zone.available.Length ==> zone.available[j]
    modifies zone.available
    ensures again == Some(k)
    ensures forall j :: 0 <= j < zone.available.Length ==> !zone.available[j]
  {
    var n := zone.available.Length;
    var i := 0;
    while i < n
      invariant 0 <= i <= n
      invariant forall j :: 0 <= j < n ==> zone.available[j] == (j >= i)
    {
      AcquireInListOrder(zone.available[..], i);
      var got := zone.GetParkingSpotAvailable();
      assert got == Some(i);
      i := i + 1;
    }
    ReleaseThenAcquireReturnsIt(zone.available[..], k);
    zone.ReleaseParkingSpot(k);
    again := zone.GetParkingSpotAvailable();
  }
}
