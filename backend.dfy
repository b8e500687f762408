/**
 * The versioned workspace store and its server-side mutators
 * (services/mockBackend.ts).
 *
 * Storage holds at most one floor plan. Every operation first reloads it,
 * falling back to the seed plan when storage is empty. `updateFloorPlan` is a
 * compare-and-swap on the version. Check-in, check-out, meeting scheduling and
 * the external-update hook read the latest plan, change a copy of it, bump the
 * version and write it back without a version check. Each has a pure
 * counterpart on plans (`CheckInPlan`, `ExitPlan`, `ScheduleResponse`,
 * `ExternalUpdatePlan`); each `Store` method is proved against its
 * counterpart, and the properties are lemmas about the counterparts.
 */
module Backend {
  import opened Types
  import Seqs
  import Seed
  import Text

  // ---------------------------------------------------------------------------
  // Interval overlap

  /** The half-open intervals [start, end) and [b.startTime, b.endTime) intersect. */
  predicate Conflicts(b: Booking, start: int, end: int) {
    start < b.endTime && end > b.startTime
  }

  /** `checkForOverlap`: some booking of the schedule intersects [start, end). */
  function CheckForOverlap(schedule: seq<Booking>, start: int, end: int): (blocked: bool)
    ensures blocked <==> exists i :: 0 <= i < |schedule| && Conflicts(schedule[i], start, end)
  {
    if schedule == [] then false
    else
      var rest := CheckForOverlap(schedule[1..], start, end);
      assert forall i :: 1 <= i < |schedule| ==> schedule[i] == schedule[1..][i - 1];
      Conflicts(schedule[0], start, end) || rest
  }

  /** Bookings that end by `start` or begin at `end` or later never block [start, end). */
  lemma DisjointScheduleDoesNotBlock(schedule: seq<Booking>, start: int, end: int)
    requires forall i :: 0 <= i < |schedule| ==> schedule[i].endTime <= start || schedule[i].startTime >= end
    ensures !CheckForOverlap(schedule, start, end)
  {
  }

  /** An existing booking 10:00-11:00 blocks 10:30-11:30 but not 11:00-12:00; nothing blocks an empty schedule. */
  lemma OverlapExamples()
    ensures var hour := 60 * MillisPerMinute;
            var b := Booking("b", "u", "u", 10 * hour, 11 * hour, None, MeetingBooking);
            && CheckForOverlap([b], 10 * hour + 30 * MillisPerMinute, 11 * hour + 30 * MillisPerMinute)
            && !CheckForOverlap([b], 11 * hour, 12 * hour)
            && !CheckForOverlap([], 10 * hour, 11 * hour)
  {
  }

  // ---------------------------------------------------------------------------
  // Loading

  /** `loadFromDB`: the stored plan, or the seed plan when storage holds nothing. */
  function LoadFromDB(stored: Option<FloorPlan>, seedTime: int): FloorPlan {
    match stored
    case Some(plan) => plan
    case None => Seed.InitialFloorPlan(seedTime)
  }

  // ---------------------------------------------------------------------------
  // Occupants

  /** The filter `name => name !== userName`. */
  function IsNot(user: string): string -> bool {
    name => name != user
  }

  function ClearedRoom(r: Room, user: string): Room {
    r.(occupants := Seqs.Filter(r.occupants, IsNot(user)))
  }

  /** Every room with `user` taken out of its occupants. */
  function RemoveEverywhere(rooms: seq<Room>, user: string): (cleared: seq<Room>)
    ensures |cleared| == |rooms|
  {
    seq(|rooms|, i requires 0 <= i < |rooms| => ClearedRoom(rooms[i], user))
  }

  /** The `forEach` over the rooms that filters `user` out of each occupant list. */
  method ClearOccupant(rooms: seq<Room>, user: string) returns (cleared: seq<Room>)
    ensures cleared == RemoveEverywhere(rooms, user)
  {
    cleared := rooms;
    var i := 0;
    while i < |cleared|
      invariant 0 <= i <= |cleared| == |rooms|
      invariant forall j :: 0 <= j < i ==> cleared[j] == ClearedRoom(rooms[j], user)
      invariant forall j :: i <= j < |rooms| ==> cleared[j] == rooms[j]
    {
      cleared := cleared[i := cleared[i].(occupants := Seqs.Filter(cleared[i].occupants, IsNot(user)))];
      i := i + 1;
    }
  }

  /** `user` is in the occupant list of at most one room. */
  ghost predicate AtMostOneRoom(rooms: seq<Room>, user: string) {
    forall i, j :: 0 <= i < |rooms| && 0 <= j < |rooms| && user in rooms[i].occupants && user in rooms[j].occupants ==> i == j
  }

  // ---------------------------------------------------------------------------
  // Room lookup

  /** `findIndex(r => r.id === roomId)`, with `None` for -1. */
  function FindRoom(rooms: seq<Room>, roomId: string): (found: Option<nat>)
    ensures found.Some? ==> found.value < |rooms| && rooms[found.value].id == roomId
    ensures found.Some? ==> forall j :: 0 <= j < found.value ==> rooms[j].id != roomId
    ensures found.None? <==> forall j :: 0 <= j < |rooms| ==> rooms[j].id != roomId
  {
    if rooms == [] then None
    else if rooms[0].id == roomId then Some(0)
    else match FindRoom(rooms[1..], roomId)
      case None => None
      case Some(k) => Some(k + 1)
  }

  /** Lookup sees only the ids, so changing other fields of the rooms does not move it. */
  lemma FindRoomByIds(a: seq<Room>, b: seq<Room>, roomId: string)
    requires |a| == |b|
    requires forall i :: 0 <= i < |a| ==> a[i].id == b[i].id
    ensures FindRoom(a, roomId) == FindRoom(b, roomId)
  {
  }

  // ---------------------------------------------------------------------------
  // Check-in and check-out

  /** The live desk booking [now, now + durationMinutes * 60000) of a check-in. */
  function LiveBooking(user: string, now: int, durationMinutes: int): Booking {
    Booking("live_" + Text.IntToString(now), user, user, now, now + durationMinutes * MillisPerMinute,
            Some("Live Check-in"), DeskBooking)
  }

  function CheckedInRoom(r: Room, user: string, now: int, durationMinutes: int): Room {
    r.(occupants := r.occupants + [user],
       bookings := r.bookings + 1,
       schedule := r.schedule + [LiveBooking(user, now, durationMinutes)])
  }

  /** `checkInToRoom` on the latest plan. */
  function CheckInPlan(plan: FloorPlan, roomId: string, user: string, durationMinutes: int, now: int): FloorPlan {
    var cleared := RemoveEverywhere(plan.rooms, user);
    var rooms := match FindRoom(cleared, roomId)
      case None => cleared
      case Some(i) => cleared[i := CheckedInRoom(cleared[i], user, now, durationMinutes)];
    plan.(rooms := rooms, version := plan.version + 1, lastModified := now)
  }

  /** `exitRoom` on the latest plan. */
  function ExitPlan(plan: FloorPlan, user: string, now: int): FloorPlan {
    plan.(rooms := RemoveEverywhere(plan.rooms, user), version := plan.version + 1, lastModified := now)
  }

  /** Room `j` after a check-in: cleared of the user, and checked into when it is the target. */
  lemma CheckInRoomAt(plan: FloorPlan, roomId: string, user: string, durationMinutes: int, now: int, j: int)
    requires 0 <= j < |plan.rooms|
    ensures var after := CheckInPlan(plan, roomId, user, durationMinutes, now);
            && |after.rooms| == |plan.rooms|
            && after.rooms[j]
               == if FindRoom(plan.rooms, roomId) == Some(j)
                  then CheckedInRoom(ClearedRoom(plan.rooms[j], user), user, now, durationMinutes)
                  else ClearedRoom(plan.rooms[j], user)
  {
    FindRoomByIds(RemoveEverywhere(plan.rooms, user), plan.rooms, roomId);
  }

  /**
   * After a check-in the user is in exactly the target room (the first room
   * with that id), once, and in no room when there is none; every other name
   * stays where it was, in order.
   */
  lemma CheckInOccupants(plan: FloorPlan, roomId: string, user: string, durationMinutes: int, now: int)
    ensures var after := CheckInPlan(plan, roomId, user, durationMinutes, now);
            var target := FindRoom(plan.rooms, roomId);
            && |after.rooms| == |plan.rooms|
            && (forall j :: 0 <= j < |plan.rooms| ==>
                  after.rooms[j].occupants
                  == Seqs.Filter(plan.rooms[j].occupants, IsNot(user)) + (if target == Some(j) then [user] else []))
            && (forall j :: 0 <= j < |plan.rooms| ==> (user in after.rooms[j].occupants <==> target == Some(j)))
            && (target.Some? ==> multiset(after.rooms[target.value].occupants)[user] == 1)
  {
    var after := CheckInPlan(plan, roomId, user, durationMinutes, now);
    var target := FindRoom(plan.rooms, roomId);
    forall j | 0 <= j < |plan.rooms|
      ensures after.rooms[j].occupants
              == Seqs.Filter(plan.rooms[j].occupants, IsNot(user)) + (if target == Some(j) then [user] else [])
      ensures user in after.rooms[j].occupants <==> target == Some(j)
    {
      CheckInOccupantsAt(plan, roomId, user, durationMinutes, now, j);
    }
    if target.Some? {
      CountAfterAppend(Seqs.Filter(plan.rooms[target.value].occupants, IsNot(user)), user);
    }
  }

  lemma CheckInOccupantsAt(plan: FloorPlan, roomId: string, user: string, durationMinutes: int, now: int, j: int)
    requires 0 <= j < |plan.rooms|
    ensures var after := CheckInPlan(plan, roomId, user, durationMinutes, now);
            var target := FindRoom(plan.rooms, roomId);
            && after.rooms[j].occupants
               == Seqs.Filter(plan.rooms[j].occupants, IsNot(user)) + (if target == Some(j) then [user] else [])
            && (user in after.rooms[j].occupants <==> target == Some(j))
  {
    CheckInRoomAt(plan, roomId, user, durationMinutes, now, j);
    assert user !in Seqs.Filter(plan.rooms[j].occupants, IsNot(user));
  }

  lemma CountAfterAppend(kept: seq<string>, user: string)
    requires user !in kept
    ensures multiset(kept + [user])[user] == 1
  {
    assert multiset(kept)[user] == 0;
    assert multiset(kept + [user]) == multiset(kept) + multiset{user};
  }

  /**
   * A check-in adds 1 to the target room's counter and appends one live
   * booking to its schedule; every other field, and every other room's
   * counter and schedule, is unchanged. The version grows by one even when
   * the room does not exist.
   */
  lemma CheckInBookkeeping(plan: FloorPlan, roomId: string, user: string, durationMinutes: int, now: int)
    ensures var after := CheckInPlan(plan, roomId, user, durationMinutes, now);
            var target := FindRoom(plan.rooms, roomId);
            && after.version == plan.version + 1
            && after.id == plan.id
            && after.lastModified == now
            && |after.rooms| == |plan.rooms|
            && (forall j :: 0 <= j < |plan.rooms| ==>
                  && after.rooms[j].bookings == plan.rooms[j].bookings + (if target == Some(j) then 1 else 0)
                  && after.rooms[j].schedule
                     == plan.rooms[j].schedule + (if target == Some(j) then [LiveBooking(user, now, durationMinutes)] else [])
                  && after.rooms[j].(occupants := plan.rooms[j].occupants,
                                     bookings := plan.rooms[j].bookings,
                                     schedule := plan.rooms[j].schedule) == plan.rooms[j])
  {
    FindRoomByIds(RemoveEverywhere(plan.rooms, user), plan.rooms, roomId);
    forall j | 0 <= j < |plan.rooms| {
      CheckInRoomAt(plan, roomId, user, durationMinutes, now, j);
    }
  }

  /** Check-in exclusivity: afterwards the user is in at most one room, and nobody else gains a second room. */
  lemma {:induction false} CheckInExclusive(plan: FloorPlan, roomId: string, user: string, durationMinutes: int, now: int)
    ensures AtMostOneRoom(CheckInPlan(plan, roomId, user, durationMinutes, now).rooms, user)
    ensures forall v :: AtMostOneRoom(plan.rooms, v) ==> AtMostOneRoom(CheckInPlan(plan, roomId, user, durationMinutes, now).rooms, v)
  {
    CheckInOccupants(plan, roomId, user, durationMinutes, now);
    var after := CheckInPlan(plan, roomId, user, durationMinutes, now);
    forall v | AtMostOneRoom(plan.rooms, v) ensures AtMostOneRoom(after.rooms, v) {
      if v != user {
        forall i | 0 <= i < |after.rooms| && v in after.rooms[i].occupants ensures v in plan.rooms[i].occupants {
          assert v in Seqs.Filter(plan.rooms[i].occupants, IsNot(user));
        }
      }
    }
  }

  /**
   * Check-out takes the user out of every room, keeps every other name in
   * order, and leaves schedules, counters and all other room fields alone.
   */
  lemma ExitEffects(plan: FloorPlan, user: string, now: int)
    ensures var after := ExitPlan(plan, user, now);
            && after.version == plan.version + 1
            && |after.rooms| == |plan.rooms|
            && (forall j :: 0 <= j < |plan.rooms| ==>
                  && user !in after.rooms[j].occupants
                  && after.rooms[j].occupants == Seqs.Filter(plan.rooms[j].occupants, IsNot(user))
                  && after.rooms[j].(occupants := plan.rooms[j].occupants) == plan.rooms[j])
  {
  }

  /** Checking out twice leaves the same rooms as checking out once. */
  lemma ExitIdempotent(plan: FloorPlan, user: string, now1: int, now2: int)
    ensures ExitPlan(ExitPlan(plan, user, now1), user, now2).rooms == ExitPlan(plan, user, now1).rooms
  {
    var once := ExitPlan(plan, user, now1).rooms;
    var twice := ExitPlan(ExitPlan(plan, user, now1), user, now2).rooms;
    forall j | 0 <= j < |once| ensures twice[j] == once[j] {
      Seqs.FilterKeepsAll(once[j].occupants, IsNot(user));
    }
  }

  /** A sequence of check-ins and check-outs, as whole calls. */
  datatype PresenceOp =
    | CheckIn(roomId: string, user: string, durationMinutes: int, now: int)
    | CheckOut(user: string, now: int)

  function Replay(plan: FloorPlan, ops: seq<PresenceOp>): FloorPlan
    decreases |ops|
  {
    if ops == [] then plan
    else
      var next := match ops[0]
        case CheckIn(roomId, user, d, now) => CheckInPlan(plan, roomId, user, d, now)
        case CheckOut(user, now) => ExitPlan(plan, user, now);
      Replay(next, ops[1..])
  }

  /**
   * After any sequence of check-ins and check-outs from a plan where nobody
   * is in two rooms, nobody is in two rooms; each call adds one to the version.
   */
  lemma {:induction false} ReplayKeepsExclusive(plan: FloorPlan, ops: seq<PresenceOp>)
    requires forall v :: AtMostOneRoom(plan.rooms, v)
    ensures forall v :: AtMostOneRoom(Replay(plan, ops).rooms, v)
    decreases |ops|
  {
    if ops != [] {
      var next := match ops[0]
        case CheckIn(roomId, user, d, now) => CheckInPlan(plan, roomId, user, d, now)
        case CheckOut(user, now) => ExitPlan(plan, user, now);
      match ops[0] {
        case CheckIn(roomId, user, d, now) =>
          CheckInExclusive(plan, roomId, user, d, now);
        case CheckOut(user, now) =>
          forall v | AtMostOneRoom(plan.rooms, v) ensures AtMostOneRoom(next.rooms, v) {
            forall i | 0 <= i < |next.rooms| && v in next.rooms[i].occupants ensures v in plan.rooms[i].occupants {
              assert v in Seqs.Filter(plan.rooms[i].occupants, IsNot(user));
            }
          }
      }
      ReplayKeepsExclusive(next, ops[1..]);
    }
  }

  /** Every check-in and check-out commits one whole version, whatever its effect on the rooms. */
  lemma {:induction false} ReplayVersion(plan: FloorPlan, ops: seq<PresenceOp>)
    ensures Replay(plan, ops).version == plan.version + |ops|
    ensures Replay(plan, ops).id == plan.id
    decreases |ops|
  {
    if ops != [] {
      var next := match ops[0]
        case CheckIn(roomId, user, d, now) => CheckInPlan(plan, roomId, user, d, now)
        case CheckOut(user, now) => ExitPlan(plan, user, now);
      ReplayVersion(next, ops[1..]);
    }
  }

  /** In the seed plan every room is empty, so the seed satisfies exclusivity. */
  lemma SeedIsExclusive(seedTime: int)
    ensures forall v :: AtMostOneRoom(Seed.InitialFloorPlan(seedTime).rooms, v)
  {
    var rooms := Seed.InitialFloorPlan(seedTime).rooms;
    forall v ensures AtMostOneRoom(rooms, v) {
      forall i | 0 <= i < |rooms| ensures rooms[i].occupants == [] {
      }
    }
  }

  // ---------------------------------------------------------------------------
  // Meetings

  /** What `scheduleMeeting` resolves with. */
  datatype MeetingResponse =
    | Scheduled(plan: FloorPlan)
    | UnknownRoom
    | Blocked(suggestions: seq<Room>)

  /** `user.email || user.name`: an empty or missing e-mail falls back to the name. */
  function RequesterId(user: User): string {
    match user.email
    case Some(e) => if e != "" then e else user.name
    case None => user.name
  }

  function MeetingEntry(user: User, start: int, durationMinutes: int, title: string, now: int): Booking {
    Booking("meet_" + Text.IntToString(now), RequesterId(user), user.name,
            start, start + durationMinutes * MillisPerMinute, Some(title), MeetingBooking)
  }

  /** A room offered instead of a blocked one: another room of the same type, at least half as large, free then. */
  predicate IsAlternative(r: Room, room: Room, roomId: string, start: int, end: int) {
    && r.id != roomId
    && r.kind == room.kind
    && 2 * r.capacity >= room.capacity
    && !CheckForOverlap(r.schedule, start, end)
  }

  function Alternatives(room: Room, roomId: string, start: int, end: int): Room -> bool {
    r => IsAlternative(r, room, roomId, start, end)
  }

  function BookedRoom(room: Room, entry: Booking): Room {
    room.(schedule := room.schedule + [entry], bookings := room.bookings + 2)
  }

  /** `scheduleMeeting` on the latest plan. */
  function ScheduleResponse(plan: FloorPlan, roomId: string, user: User, start: int, durationMinutes: int,
                            title: string, now: int): MeetingResponse
  {
    var end := start + durationMinutes * MillisPerMinute;
    match FindRoom(plan.rooms, roomId)
    case None => UnknownRoom
    case Some(i) =>
      var room := plan.rooms[i];
      if !CheckForOverlap(room.schedule, start, end) then
        var entry := MeetingEntry(user, start, durationMinutes, title, now);
        Scheduled(plan.(rooms := plan.rooms[i := BookedRoom(room, entry)],
                        version := plan.version + 1, lastModified := now))
      else
        Blocked(Seqs.Filter(plan.rooms, Alternatives(room, roomId, start, end)))
  }

  /**
   * The three outcomes of `scheduleMeeting`: an unknown room fails; a free
   * slot appends exactly one meeting booking ending `durationMinutes` later,
   * adds 2 to the counter and changes no other room; a blocked slot returns
   * exactly the other same-type rooms, at least half as large, free then.
   */
  lemma ScheduleMeetingOutcome(plan: FloorPlan, roomId: string, user: User, start: int, durationMinutes: int,
                               title: string, now: int)
    ensures var res := ScheduleResponse(plan, roomId, user, start, durationMinutes, title, now);
            var end := start + durationMinutes * MillisPerMinute;
            match FindRoom(plan.rooms, roomId)
            case None => res == UnknownRoom
            case Some(i) =>
              var room := plan.rooms[i];
              && (!CheckForOverlap(room.schedule, start, end) ==>
                    && res.Scheduled?
                    && res.plan.version == plan.version + 1
                    && |res.plan.rooms| == |plan.rooms|
                    && res.plan.rooms[i].schedule == room.schedule + [MeetingEntry(user, start, durationMinutes, title, now)]
                    && res.plan.rooms[i].schedule[|room.schedule|].endTime == start + durationMinutes * MillisPerMinute
                    && res.plan.rooms[i].bookings == room.bookings + 2
                    && res.plan.rooms[i].(schedule := room.schedule, bookings := room.bookings) == room
                    && (forall j :: 0 <= j < |plan.rooms| && j != i ==> res.plan.rooms[j] == plan.rooms[j]))
              && (CheckForOverlap(room.schedule, start, end) ==>
                    && res.Blocked?
                    && (forall r :: r in res.suggestions <==> r in plan.rooms && IsAlternative(r, room, roomId, start, end)))
  {
  }

  /**
   * No double booking: a meeting is admitted only into a room none of whose
   * existing bookings overlaps it, so a schedule with no two overlapping
   * bookings keeps that property.
   */
  ghost predicate NoOverlaps(schedule: seq<Booking>) {
    forall i, j :: 0 <= i < j < |schedule| ==> !Conflicts(schedule[i], schedule[j].startTime, schedule[j].endTime)
  }

  lemma {:induction false} ScheduledMeetingIsDisjoint(plan: FloorPlan, roomId: string, user: User, start: int,
                                                      durationMinutes: int, title: string, now: int)
    requires ScheduleResponse(plan, roomId, user, start, durationMinutes, title, now).Scheduled?
    ensures var i := FindRoom(plan.rooms, roomId).value;
            var after := ScheduleResponse(plan, roomId, user, start, durationMinutes, title, now).plan;
            NoOverlaps(plan.rooms[i].schedule) ==> NoOverlaps(after.rooms[i].schedule)
  {
    var i := FindRoom(plan.rooms, roomId).value;
    var before := plan.rooms[i].schedule;
    var after := ScheduleResponse(plan, roomId, user, start, durationMinutes, title, now).plan.rooms[i].schedule;
    var entry := MeetingEntry(user, start, durationMinutes, title, now);
    assert after == before + [entry];
    assert !CheckForOverlap(before, start, start + durationMinutes * MillisPerMinute);
    if NoOverlaps(before) {
      forall a, b | 0 <= a < b < |after|
        ensures !Conflicts(after[a], after[b].startTime, after[b].endTime)
      {
        if b == |before| {
          assert after[b] == entry;
          assert !Conflicts(before[a], start, start + durationMinutes * MillisPerMinute);
        } else {
          assert after[a] == before[a] && after[b] == before[b];
        }
      }
    }
  }

  // ---------------------------------------------------------------------------
  // External update hook

  /** The room that `simulateExternalUpdate` renames. */
  const ExternalRoomId: string := "r1"

  function RenamedForExternal(r: Room, version: int): Room {
    if r.id == ExternalRoomId then r.(name := "Boardroom Alpha (Ext v" + Text.IntToString(version) + ")") else r
  }

  /** `simulateExternalUpdate` on the latest plan: the next whole version, and room r1 renamed. */
  function ExternalUpdatePlan(plan: FloorPlan, now: int): FloorPlan {
    var v := plan.version + 1;
    plan.(version := v, lastModified := now,
          rooms := seq(|plan.rooms|, i requires 0 <= i < |plan.rooms| => RenamedForExternal(plan.rooms[i], v)))
  }

  /** The external update raises the version and changes nothing but the names of rooms with id r1. */
  lemma ExternalUpdateEffects(plan: FloorPlan, now: int)
    ensures var after := ExternalUpdatePlan(plan, now);
            && after.version > plan.version
            && after.id == plan.id
            && |after.rooms| == |plan.rooms|
            && (forall j :: 0 <= j < |plan.rooms| ==>
                  && after.rooms[j].(name := plan.rooms[j].name) == plan.rooms[j]
                  && (plan.rooms[j].id != ExternalRoomId ==> after.rooms[j] == plan.rooms[j]))
  {
  }

  // ---------------------------------------------------------------------------
  // The store

  /**
   * The shared server state: what storage holds (`None` when nothing is
   * stored) and the timestamp the seed plan was built with.
   */
  class Store {
    var stored: Option<FloorPlan>
    const seedTime: int

    constructor (initial: Option<FloorPlan>, seedTime: int)
      ensures stored == initial && this.seedTime == seedTime
    {
      stored := initial;
      this.seedTime := seedTime;
    }

    /** The plan every operation starts from. */
    function Latest(): FloorPlan
      reads this
    {
      LoadFromDB(stored, seedTime)
    }

    /** `fetchFloorPlan`: the stored plan, or the seed when storage is empty; storage is not written. */
    method Fetch() returns (plan: FloorPlan)
      ensures stored.Some? ==> plan == stored.value
      ensures stored.None? ==> plan == Seed.InitialFloorPlan(seedTime)
    {
      plan := Latest();
    }

    /**
     * `updateFloorPlan`: compare-and-swap on the version. A candidate whose
     * version does not exceed the latest one fails, returns the latest plan
     * and leaves storage as it was; any other candidate is stored and
     * returned verbatim.
     */
    method UpdateFloorPlan(candidate: FloorPlan) returns (success: bool, serverPlan: FloorPlan)
      modifies this
      ensures success <==> old(Latest()).version < candidate.version
      ensures success ==> stored == Some(candidate) && serverPlan == candidate
      ensures !success ==> stored == old(stored) && serverPlan == old(Latest())
      ensures Latest().version >= old(Latest()).version
    {
      var latest := Latest();
      if latest.version >= candidate.version {
        success, serverPlan := false, latest;
      } else {
        stored := Some(candidate);
        success, serverPlan := true, candidate;
      }
    }

    /** `checkInToRoom`: the check-in is written back with the next version. */
    method CheckInToRoom(roomId: string, userName: string, durationMinutes: int, now: int) returns (plan: FloorPlan)
      modifies this
      ensures plan == CheckInPlan(old(Latest()), roomId, userName, durationMinutes, now)
      ensures stored == Some(plan)
      ensures Latest().version == old(Latest()).version + 1
    {
      var current := Latest();
      var rooms := ClearOccupant(current.rooms, userName);
      var roomIndex := FindRoom(rooms, roomId);
      if roomIndex.Some? {
        var i := roomIndex.value;
        var room := rooms[i];
        rooms := rooms[i := room.(occupants := room.occupants + [userName],
                                  bookings := room.bookings + 1,
                                  schedule := room.schedule + [LiveBooking(userName, now, durationMinutes)])];
      }
      plan := current.(rooms := rooms, version := current.version + 1, lastModified := now);
      stored := Some(plan);
    }

    /** `exitRoom`: the check-out is written back with the next version. */
    method ExitRoom(userName: string, now: int) returns (plan: FloorPlan)
      modifies this
      ensures plan == ExitPlan(old(Latest()), userName, now)
      ensures stored == Some(plan)
      ensures Latest().version == old(Latest()).version + 1
    {
      var current := Latest();
      var rooms := ClearOccupant(current.rooms, userName);
      plan := current.(rooms := rooms, version := current.version + 1, lastModified := now);
      stored := Some(plan);
    }

    /** `scheduleMeeting`: only a successful booking is written back. */
    method ScheduleMeeting(roomId: string, user: User, start: int, durationMinutes: int, title: string, now: int)
      returns (response: MeetingResponse)
      modifies this
      ensures response == ScheduleResponse(old(Latest()), roomId, user, start, durationMinutes, title, now)
      ensures response.Scheduled? ==> stored == Some(response.plan) && Latest().version == old(Latest()).version + 1
      ensures !response.Scheduled? ==> stored == old(stored)
    {
      var current := Latest();
      var end := start + durationMinutes * MillisPerMinute;
      var roomIndex := FindRoom(current.rooms, roomId);
      if roomIndex.None? {
        return UnknownRoom;
      }
      var i := roomIndex.value;
      var room := current.rooms[i];
      var isBlocked := CheckForOverlap(room.schedule, start, end);
      if !isBlocked {
        var entry := MeetingEntry(user, start, durationMinutes, title, now);
        var plan := current.(rooms := current.rooms[i := BookedRoom(room, entry)],
                             version := current.version + 1, lastModified := now);
        stored := Some(plan);
        response := Scheduled(plan);
      } else {
        response := Blocked(Seqs.Filter(current.rooms, Alternatives(room, roomId, start, end)));
      }
    }

    /** `simulateExternalUpdate`: another writer commits the next version. */
    method SimulateExternalUpdate(now: int) returns (plan: FloorPlan)
      modifies this
      ensures plan == ExternalUpdatePlan(old(Latest()), now)
      ensures stored == Some(plan)
      ensures Latest().version == old(Latest()).version + 1
    {
      plan := ExternalUpdatePlan(Latest(), now);
      stored := Some(plan);
    }
  }
}
