/**
 * Value types for the parking spots. The source's ParkingSpot type (built by
 * NewParkingSpot) is not part of this model; it appears here only through what
 * the modelled code uses of it: its rectangle, its row and number, and the two
 * direction lists read by Car.ParkZone and Car.LeaveSlot. Its availability flag
 * is kept by the parking zone (see Parking.ParkingZone).
 */
module Spots {

  /** An axis-aligned rectangle given by two corners, as floatgeom.NewRect2(x1, y1, x2, y2). */
  datatype Rect = Rect(minX: int, minY: int, maxX: int, maxY: int)
  {
    function Width(): int { maxX - minX }
    function Height(): int { maxY - minY }
  }

  /**
   * One entry of a spot's direction list: travel in `direction` ("left",
   * "right", "up" or "down") until the coordinate of that axis reaches `point`.
   * Points are taken to be whole numbers, like every other coordinate here.
   */
  datatype Leg = Leg(direction: string, point: int)

  /** A parking spot: where it is, and the legs that lead into it and back out. */
  datatype ParkingSpot = ParkingSpot(area: Rect, row: int, id: int, parking: seq<Leg>, leaving: seq<Leg>)
}
