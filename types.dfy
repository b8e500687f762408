/**
 * The entities of the workspace: bookings, rooms, the floor plan that is the
 * unit of optimistic concurrency, and the record of a save conflict
 * (types.ts). Grid placement (x, y, width, height) belongs to the
 * presentation and is not part of a room here.
 */
module Types {

  datatype Option<+T> = None | Some(value: T)

  /** The two kinds of schedule entry: a live desk check-in or a meeting. */
  datatype BookingKind = DeskBooking | MeetingBooking

  /** A reserved interval [startTime, endTime) on a room, in milliseconds. */
  datatype Booking = Booking(
    id: string,
    userId: string,
    userName: string,
    startTime: int,
    endTime: int,
    title: Option<string>,
    kind: BookingKind)

  datatype RoomType = Meeting | Desk | Common | Cafeteria | Recreation

  /**
   * A room. `bookings` is the popularity counter, `occupants` the names of
   * the people checked in, `schedule` the bookings made on the room.
   */
  datatype Room = Room(
    id: string,
    floorId: string,
    name: string,
    capacity: int,
    kind: RoomType,
    features: seq<string>,
    occupancyThreshold: Option<int>,
    bookings: int,
    occupants: seq<string>,
    schedule: seq<Booking>)

  /** The aggregate root; `version` arbitrates which copy is canonical. */
  datatype FloorPlan = FloorPlan(id: string, version: int, lastModified: int, rooms: seq<Room>)

  /** A rejected save: the store's plan and the local plan that was not sent. */
  datatype ConflictData = ConflictData(serverVersion: FloorPlan, localVersion: FloorPlan)

  /** The part of a user the booking operations read (role and password are not used). */
  datatype User = User(name: string, email: Option<string>)

  /** The feature tag of rooms with fixed workstations. */
  const PC: string := "pc"

  /** Milliseconds in one minute (`60 * 1000`). */
  const MillisPerMinute: int := 60 * 1000

  predicate HasPC(r: Room) {
    PC in r.features
  }

  /** The filter `r => r.floorId === floorId`. */
  function OnFloor(floorId: string): Room -> bool {
    (r: Room) => r.floorId == floorId
  }
}

/** Decimal rendering of integers, as a JavaScript template literal prints them. */
module Text {

  function DigitChar(d: nat): char
    requires d < 10
  {
    "0123456789"[d]
  }

  function NatToString(n: nat): string
    decreases n
  {
    if n < 10 then [DigitChar(n)] else NatToString(n / 10) + [DigitChar(n % 10)]
  }

  function IntToString(n: int): string {
    if n < 0 then "-" + NatToString(-n) else NatToString(n)
  }
}
