/**
 * The allocation rules of the booking screen (components/BookingSystem.tsx),
 * lifted out of the component: the user's current room, the desk
 * recommendations (type and floor filter, PC filter or PC-last ranking,
 * fullness and next free time), the check-in duration rule, check-out, and
 * the best-fit meeting search that tries the rooms in order through the
 * store until one accepts.
 *
 * `rooms` is the list the screen last loaded; the store decides against its
 * own latest plan.
 */
module Booking {
  import opened Types
  import Seqs
  import Backend
  import Seed

  /** The floor selector's value that turns the floor filter off. */
  const AllFloors: string := "all"

  // ---------------------------------------------------------------------------
  // Current room

  /** `rooms.find(r => r.occupants.includes(userName))`. */
  function CurrentRoom(rooms: seq<Room>, userName: string): (found: Option<Room>)
    ensures found.None? <==> forall i :: 0 <= i < |rooms| ==> userName !in rooms[i].occupants
    ensures found.Some? ==> exists k :: && 0 <= k < |rooms| && rooms[k] == found.value
                                        && userName in rooms[k].occupants
                                        && forall j :: 0 <= j < k ==> userName !in rooms[j].occupants
  {
    if rooms == [] then None
    else if userName in rooms[0].occupants then Some(rooms[0])
    else
      var found := CurrentRoom(rooms[1..], userName);
      assert forall i :: 1 <= i < |rooms| ==> rooms[i] == rooms[1..][i - 1];
      if found.Some? then
        var k :| 0 <= k < |rooms[1..]| && rooms[1..][k] == found.value && userName in rooms[1..][k].occupants
                 && forall j :: 0 <= j < k ==> userName !in rooms[1..][j].occupants;
        assert rooms[k + 1] == found.value;
        found
      else found
  }

  /** After checking into an existing room, that room is the user's current room. */
  lemma CheckInSetsCurrentRoom(plan: FloorPlan, roomId: string, user: string, durationMinutes: int, now: int)
    requires Backend.FindRoom(plan.rooms, roomId).Some?
    ensures var after := Backend.CheckInPlan(plan, roomId, user, durationMinutes, now);
            CurrentRoom(after.rooms, user) == Some(after.rooms[Backend.FindRoom(plan.rooms, roomId).value])
  {
    Backend.CheckInOccupants(plan, roomId, user, durationMinutes, now);
  }

  /** After a check-in to a missing room, or a check-out, the user has no current room. */
  lemma NoCurrentRoomAfterExit(plan: FloorPlan, user: string, now: int, roomId: string, durationMinutes: int)
    ensures CurrentRoom(Backend.ExitPlan(plan, user, now).rooms, user).None?
    ensures Backend.FindRoom(plan.rooms, roomId).None? ==>
              CurrentRoom(Backend.CheckInPlan(plan, roomId, user, durationMinutes, now).rooms, user).None?
  {
    Backend.ExitEffects(plan, user, now);
    Backend.CheckInOccupants(plan, roomId, user, durationMinutes, now);
  }

  // ---------------------------------------------------------------------------
  // Desk recommendations

  /** Desks and common areas always; cafeterias only for laptop users. */
  predicate DeskType(r: Room, needsPC: bool) {
    r.kind == Desk || r.kind == Common || (!needsPC && r.kind == Cafeteria)
  }

  function AllowedTypes(needsPC: bool): Room -> bool {
    r => DeskType(r, needsPC)
  }

  /** The sort key `features.includes('pc') ? 1 : 0`. */
  function PcKey(r: Room): int {
    if HasPC(r) then 1 else 0
  }

  /** The rooms of an allowed type on the selected floor, in list order. */
  function DeskPool(rooms: seq<Room>, selectedFloor: string, needsPC: bool): seq<Room> {
    var byType := Seqs.Filter(rooms, AllowedTypes(needsPC));
    if selectedFloor != AllFloors then Seqs.Filter(byType, OnFloor(selectedFloor)) else byType
  }

  /** PC users get only PC rooms; laptop users get every room, PC rooms last. */
  function DeskCandidates(rooms: seq<Room>, selectedFloor: string, needsPC: bool): seq<Room> {
    var pool := DeskPool(rooms, selectedFloor, needsPC);
    if needsPC then Seqs.Filter(pool, HasPC) else Seqs.SortBy(pool, PcKey)
  }

  /** A recommended room with its fullness and, when full, the advisory time it frees up. */
  datatype DeskOption = DeskOption(room: Room, isFull: bool, nextFree: Option<int>)

  predicate IsFull(r: Room) {
    |r.occupants| >= r.capacity
  }

  function EndsAfter(now: int): Booking -> bool {
    (b: Booking) => b.endTime > now
  }

  /** `Math.min(...bookings.map(b => b.endTime))` over a non-empty list. */
  function EarliestEnd(bookings: seq<Booking>): (t: int)
    requires |bookings| > 0
    ensures exists b :: b in bookings && b.endTime == t
    ensures forall b :: b in bookings ==> t <= b.endTime
  {
    if |bookings| == 1 then bookings[0].endTime
    else
      var rest := EarliestEnd(bookings[1..]);
      assert forall b :: b in bookings ==> b == bookings[0] || b in bookings[1..];
      if bookings[0].endTime <= rest then bookings[0].endTime else rest
  }

  /**
   * The next free time of a room: only for a full room with a booking that
   * ends after `now`, and then the earliest such end.
   */
  function NextFree(r: Room, now: int): (t: Option<int>)
    ensures t.Some? <==> IsFull(r) && exists b :: b in r.schedule && b.endTime > now
    ensures t.Some? ==> && (exists b :: b in r.schedule && b.endTime > now && b.endTime == t.value)
                        && (forall b :: b in r.schedule && b.endTime > now ==> t.value <= b.endTime)
  {
    if IsFull(r) && |r.schedule| > 0 then
      var current := Seqs.Filter(r.schedule, EndsAfter(now));
      if |current| > 0 then Some(EarliestEnd(current)) else None
    else None
  }

  /** `deskRecommendations`: the ranked candidates, each with `isFull` and its next free time. */
  function DeskRecommendations(rooms: seq<Room>, selectedFloor: string, needsPC: bool, now: int): (out: seq<DeskOption>)
    ensures var ranked := DeskCandidates(rooms, selectedFloor, needsPC);
            && |out| == |ranked|
            && forall i :: 0 <= i < |out| ==>
                 && out[i].room == ranked[i]
                 && (out[i].isFull <==> |ranked[i].occupants| >= ranked[i].capacity)
                 && out[i].nextFree == NextFree(ranked[i], now)
  {
    var ranked := DeskCandidates(rooms, selectedFloor, needsPC);
    seq(|ranked|, i requires 0 <= i < |ranked| => DeskOption(ranked[i], IsFull(ranked[i]), NextFree(ranked[i], now)))
  }

  /**
   * Which rooms are recommended: exactly the desk and common rooms, plus
   * cafeterias for laptop users, on the selected floor, and with a PC when a
   * PC is needed. Meeting and recreation rooms never are.
   */
  lemma DeskCandidatesMembership(rooms: seq<Room>, selectedFloor: string, needsPC: bool)
    ensures forall r :: r in DeskCandidates(rooms, selectedFloor, needsPC) <==>
              && r in rooms
              && (r.kind == Desk || r.kind == Common || (!needsPC && r.kind == Cafeteria))
              && (selectedFloor != AllFloors ==> r.floorId == selectedFloor)
              && (needsPC ==> HasPC(r))
  {
    var pool := DeskPool(rooms, selectedFloor, needsPC);
    if !needsPC {
      var ranked := Seqs.SortBy(pool, PcKey);
      assert multiset(ranked) == multiset(pool);
      forall r ensures r in ranked <==> r in pool {
        assert r in ranked <==> r in multiset(ranked);
        assert r in pool <==> r in multiset(pool);
      }
    }
  }

  /**
   * For a laptop user the recommendations are the pool reordered: a
   * permutation of it, every non-PC room before every PC room, and the rooms
   * of each kind in their original order.
   */
  lemma {:induction false} LaptopRanking(rooms: seq<Room>, selectedFloor: string)
    ensures var pool := DeskPool(rooms, selectedFloor, false);
            var ranked := DeskCandidates(rooms, selectedFloor, false);
            && multiset(ranked) == multiset(pool)
            && (forall i, j :: 0 <= i < j < |ranked| && HasPC(ranked[i]) ==> HasPC(ranked[j]))
            && Seqs.Filter(ranked, Seqs.HasKey(PcKey, 0)) == Seqs.Filter(pool, Seqs.HasKey(PcKey, 0))
            && Seqs.Filter(ranked, Seqs.HasKey(PcKey, 1)) == Seqs.Filter(pool, Seqs.HasKey(PcKey, 1))
  {
    var pool := DeskPool(rooms, selectedFloor, false);
    Seqs.SortBySorted(pool, PcKey);
    Seqs.SortByStable(pool, PcKey, 0);
    Seqs.SortByStable(pool, PcKey, 1);
  }

  // ---------------------------------------------------------------------------
  // Check-in and check-out from the booking screen

  /** The check-in length in minutes: the chosen hours for PC work, four hours otherwise. */
  function CheckInDuration(needsPC: bool, workDurationHours: int): (minutes: int)
    ensures needsPC ==> minutes == 60 * workDurationHours
    ensures !needsPC ==> minutes == 240
  {
    if needsPC then workDurationHours * 60 else 240
  }

  /** A laptop check-in books the target room from now for exactly four hours. */
  lemma LaptopCheckInSpansFourHours(plan: FloorPlan, roomId: string, user: string, workDurationHours: int, now: int)
    requires Backend.FindRoom(plan.rooms, roomId).Some?
    ensures var t := Backend.FindRoom(plan.rooms, roomId).value;
            var after := Backend.CheckInPlan(plan, roomId, user, CheckInDuration(false, workDurationHours), now);
            var live := after.rooms[t].schedule[|plan.rooms[t].schedule|];
            && live.startTime == now
            && live.endTime == now + 4 * 60 * MillisPerMinute
            && live.kind == DeskBooking
  {
    Backend.CheckInBookkeeping(plan, roomId, user, CheckInDuration(false, workDurationHours), now);
  }

  /** `handleCheckIn`: one check-in call with the duration rule applied. */
  method HandleCheckIn(store: Backend.Store, roomId: string, userName: string, needsPC: bool,
                       workDurationHours: int, now: int)
    modifies store
    ensures store.stored == Some(Backend.CheckInPlan(old(store.Latest()), roomId, userName,
                                                     CheckInDuration(needsPC, workDurationHours), now))
  {
    var _ := store.CheckInToRoom(roomId, userName, CheckInDuration(needsPC, workDurationHours), now);
  }

  /** `handleExit`: calls the store only when the loaded rooms show the user checked in. */
  method HandleExit(store: Backend.Store, rooms: seq<Room>, userName: string, now: int) returns (exited: bool)
    modifies store
    ensures exited <==> CurrentRoom(rooms, userName).Some?
    ensures exited ==> store.stored == Some(Backend.ExitPlan(old(store.Latest()), userName, now))
    ensures !exited ==> store.stored == old(store.stored)
  {
    if CurrentRoom(rooms, userName).None? {
      return false;
    }
    var _ := store.ExitRoom(userName, now);
    exited := true;
  }

  // ---------------------------------------------------------------------------
  // Best-fit meeting search

  predicate IsMeetingRoom(r: Room) {
    r.kind == Meeting
  }

  function Fits(attendees: int): Room -> bool {
    (r: Room) => r.capacity >= attendees
  }

  /** The sort key of the best-fit order: unused seats. */
  function Slack(attendees: int): Room -> int {
    (r: Room) => r.capacity - attendees
  }

  /** The meeting rooms on the selected floor with room for everyone, before sorting. */
  function FittingRooms(rooms: seq<Room>, selectedFloor: string, attendees: int): (fitting: seq<Room>)
    ensures forall r :: r in fitting <==>
              && r in rooms && r.kind == Meeting
              && (selectedFloor != AllFloors ==> r.floorId == selectedFloor)
              && r.capacity >= attendees
  {
    var meetingRooms := Seqs.Filter(rooms, IsMeetingRoom);
    var onFloor := if selectedFloor != AllFloors then Seqs.Filter(meetingRooms, OnFloor(selectedFloor)) else meetingRooms;
    Seqs.Filter(onFloor, Fits(attendees))
  }

  /** Each fitting room occurs in the filtered list as often as in the room list, and the others not at all. */
  lemma FittingRoomsCounts(rooms: seq<Room>, selectedFloor: string, attendees: int)
    ensures forall r :: multiset(FittingRooms(rooms, selectedFloor, attendees))[r] ==
              if && r.kind == Meeting
                 && (selectedFloor != AllFloors ==> r.floorId == selectedFloor)
                 && r.capacity >= attendees
              then multiset(rooms)[r] else 0
  {
    var meetingRooms := Seqs.Filter(rooms, IsMeetingRoom);
    Seqs.FilterCounts(rooms, IsMeetingRoom);
    var onFloor := if selectedFloor != AllFloors then Seqs.Filter(meetingRooms, OnFloor(selectedFloor)) else meetingRooms;
    Seqs.FilterCounts(meetingRooms, OnFloor(selectedFloor));
    Seqs.FilterCounts(onFloor, Fits(attendees));
  }

  /** Meeting rooms on the selected floor that seat everyone, tightest fit first. */
  function MeetingPool(rooms: seq<Room>, selectedFloor: string, attendees: int): seq<Room> {
    Seqs.SortBy(FittingRooms(rooms, selectedFloor, attendees), Slack(attendees))
  }

  /**
   * The pool holds exactly the meeting rooms on the selected floor with room
   * for everyone, ascending by capacity (so by unused seats).
   */
  lemma {:induction false} MeetingPoolOrder(rooms: seq<Room>, selectedFloor: string, attendees: int)
    ensures var pool := MeetingPool(rooms, selectedFloor, attendees);
            && (forall r :: r in pool <==>
                  && r in rooms && r.kind == Meeting
                  && (selectedFloor != AllFloors ==> r.floorId == selectedFloor)
                  && r.capacity >= attendees)
            && (forall i, j :: 0 <= i < j < |pool| ==> pool[i].capacity <= pool[j].capacity)
  {
    var fitting := FittingRooms(rooms, selectedFloor, attendees);
    var pool := MeetingPool(rooms, selectedFloor, attendees);
    assert multiset(pool) == multiset(fitting);
    assert forall r :: r in pool <==> r in fitting by {
      forall r ensures r in pool <==> r in fitting {
        assert r in pool <==> r in multiset(pool);
        assert r in fitting <==> r in multiset(fitting);
      }
    }
    Seqs.SortBySorted(fitting, Slack(attendees));
    forall i, j | 0 <= i < j < |pool| ensures pool[i].capacity <= pool[j].capacity {
      assert Slack(attendees)(pool[i]) <= Slack(attendees)(pool[j]);
    }
  }

  /** Rooms of equal capacity keep their list order in the pool. */
  lemma MeetingPoolStable(rooms: seq<Room>, selectedFloor: string, attendees: int, slack: int)
    ensures Seqs.Filter(MeetingPool(rooms, selectedFloor, attendees), Seqs.HasKey(Slack(attendees), slack))
         == Seqs.Filter(FittingRooms(rooms, selectedFloor, attendees), Seqs.HasKey(Slack(attendees), slack))
  {
    Seqs.SortByStable(FittingRooms(rooms, selectedFloor, attendees), Slack(attendees), slack);
  }

  /**
   * Best fit on three meeting rooms of 10, 4 and 6 seats, in that order: for
   * five people the 4-seat room is dropped and the 6-seat room comes before
   * the 10-seat one; nothing seats twelve.
   */
  lemma BestFitExample(large: Room, small: Room, medium: Room)
    requires large.kind == Meeting && small.kind == Meeting && medium.kind == Meeting
    requires large.capacity == 10 && small.capacity == 4 && medium.capacity == 6
    ensures MeetingPool([large, small, medium], AllFloors, 5) == [medium, large]
    ensures MeetingPool([large, small, medium], AllFloors, 12) == []
  {
    var rooms := [large, small, medium];
    Seqs.FilterKeepsAll(rooms, IsMeetingRoom);
    Seqs.FilterCons(medium, [], Fits(5));
    Seqs.FilterCons(small, [medium], Fits(5));
    Seqs.FilterCons(large, [small, medium], Fits(5));
    assert [large] + [small, medium] == rooms;
    var fit5 := Seqs.Filter(rooms, Fits(5));
    assert fit5 == [large, medium];
    assert FittingRooms(rooms, AllFloors, 5) == fit5;
    assert fit5[1..] == [medium];
    assert Seqs.SortBy([medium], Slack(5)) == [medium];
    assert Seqs.Insert(large, [medium], Slack(5)) == [medium, large] by {
      assert Slack(5)(large) > Slack(5)(medium);
      assert [medium][1..] == [];
    }
    assert Seqs.SortBy(fit5, Slack(5)) == Seqs.Insert(large, Seqs.SortBy([medium], Slack(5)), Slack(5));
    Seqs.FilterCons(medium, [], Fits(12));
    Seqs.FilterCons(small, [medium], Fits(12));
    Seqs.FilterCons(large, [small, medium], Fits(12));
  }

  /** The only seeded first-floor meeting rooms seating five are the War Room and the Executive Suite. */
  lemma SeedFirstFloorMeetingRoom(rooms: seq<Room>, r: Room)
    requires rooms == Seed.InitialRooms
    requires r in rooms && r.kind == Meeting && r.floorId == "first" && r.capacity >= 5
    ensures r == Seed.WarRoom || r == Seed.ExecutiveSuite
  {
    var k :| 0 <= k < |rooms| && rooms[k] == r;
  }

  /** The War Room and the Executive Suite are seeded rooms. */
  lemma SeedListsFirstFloorMeetingRooms(rooms: seq<Room>)
    requires rooms == Seed.InitialRooms
    ensures Seed.WarRoom in rooms && Seed.ExecutiveSuite in rooms
  {
    assert rooms[9] == Seed.WarRoom;
    assert rooms[12] == Seed.ExecutiveSuite;
  }

  /** In a pool ascending by capacity that holds only `x` and `y`, the smaller `x` comes first. */
  lemma TightestFirst(pool: seq<Room>, x: Room, y: Room)
    requires x in pool && x.capacity < y.capacity
    requires forall r :: r in pool ==> r == x || r == y
    requires forall i, j :: 0 <= i < j < |pool| ==> pool[i].capacity <= pool[j].capacity
    ensures pool[0] == x
    ensures forall i, j :: 0 <= i < |pool| && 0 <= j < |pool| && pool[i] == x && pool[j] == y ==> i < j
  {
    var w :| 0 <= w < |pool| && pool[w] == x;
    assert pool[0] in pool;
    if w > 0 {
      assert pool[0].capacity <= pool[w].capacity;
    }
  }

  /**
   * Any room list whose first-floor meeting rooms seating five are exactly
   * the War Room and the Executive Suite: the pool for five people on the
   * first floor is the War Room, then the Executive Suite.
   */
  lemma FirstFloorPoolOfFive(rooms: seq<Room>)
    requires Seed.WarRoom in rooms && Seed.ExecutiveSuite in rooms
    requires forall r :: r in rooms && r.kind == Meeting && r.floorId == "first" && r.capacity >= 5 ==>
                           r == Seed.WarRoom || r == Seed.ExecutiveSuite
    ensures var pool := MeetingPool(rooms, "first", 5);
            && Seed.WarRoom in pool && Seed.ExecutiveSuite in pool && Seed.HuddleA !in pool
            && (forall r :: r in pool ==> r == Seed.WarRoom || r == Seed.ExecutiveSuite)
            && pool[0] == Seed.WarRoom
            && (forall i, j :: 0 <= i < |pool| && 0 <= j < |pool| && pool[i] == Seed.WarRoom && pool[j] == Seed.ExecutiveSuite ==> i < j)
  {
    var pool := MeetingPool(rooms, "first", 5);
    MeetingPoolOrder(rooms, "first", 5);
    assert Seed.WarRoom in pool;
    assert forall r :: r in pool ==> r == Seed.WarRoom || r == Seed.ExecutiveSuite;
    TightestFirst(pool, Seed.WarRoom, Seed.ExecutiveSuite);
  }

  /**
   * The seeded first floor, five people: the pool holds the War Room
   * (6 seats) and then the Executive Suite (10), and nothing else; Huddle A
   * (4 seats, ground floor) is not offered.
   */
  lemma SeedFirstFloorForFive(rooms: seq<Room>)
    requires rooms == Seed.InitialRooms
    ensures var pool := MeetingPool(rooms, "first", 5);
            && Seed.WarRoom in pool && Seed.ExecutiveSuite in pool && Seed.HuddleA !in pool
            && (forall r :: r in pool ==> r == Seed.WarRoom || r == Seed.ExecutiveSuite)
            && pool[0] == Seed.WarRoom
            && (forall i, j :: 0 <= i < |pool| && 0 <= j < |pool| && pool[i] == Seed.WarRoom && pool[j] == Seed.ExecutiveSuite ==> i < j)
  {
    SeedListsFirstFloorMeetingRooms(rooms);
    forall r | r in rooms && r.kind == Meeting && r.floorId == "first" && r.capacity >= 5
      ensures r == Seed.WarRoom || r == Seed.ExecutiveSuite
    {
      SeedFirstFloorMeetingRoom(rooms, r);
    }
    FirstFloorPoolOfFive(rooms);
  }

  /** The store would accept a booking of `room` for this request in state `plan`. */
  predicate Accepts(plan: FloorPlan, room: Room, user: User, start: int, durationMinutes: int, title: string, now: int) {
    Backend.ScheduleResponse(plan, room.id, user, start, durationMinutes, title, now).Scheduled?
  }

  /** The position of the first element of `s` satisfying `p`, if any. */
  function FirstWhere<T>(s: seq<T>, p: T -> bool): (k: Option<nat>)
    ensures k.Some? ==> k.value < |s| && p(s[k.value])
    ensures k.Some? ==> forall j :: 0 <= j < k.value ==> !p(s[j])
    ensures k.None? <==> forall j :: 0 <= j < |s| ==> !p(s[j])
  {
    if s == [] then None
    else if p(s[0]) then Some(0)
    else
      var r := FirstWhere(s[1..], p);
      assert forall j :: 1 <= j < |s| ==> s[j] == s[1..][j - 1];
      match r
      case None => None
      case Some(k) => Some(k + 1)
  }

  /** The store's verdict on a room for this request, as a value. */
  function AcceptedBy(plan: FloorPlan, user: User, start: int, durationMinutes: int, title: string, now: int): Room -> bool {
    (r: Room) => Accepts(plan, r, user, start, durationMinutes, title, now)
  }

  /** The position of the first room of `pool` that the store accepts. */
  function FirstAccepted(plan: FloorPlan, pool: seq<Room>, user: User, start: int, durationMinutes: int,
                         title: string, now: int): (k: Option<nat>)
    ensures k.Some? ==> k.value < |pool| && Accepts(plan, pool[k.value], user, start, durationMinutes, title, now)
    ensures k.Some? ==> forall j :: 0 <= j < k.value ==> !Accepts(plan, pool[j], user, start, durationMinutes, title, now)
    ensures k.None? <==> forall j :: 0 <= j < |pool| ==> !Accepts(plan, pool[j], user, start, durationMinutes, title, now)
  {
    FirstWhere(pool, AcceptedBy(plan, user, start, durationMinutes, title, now))
  }

  /** The first accepting position is the one a left-to-right search stops at. */
  lemma FirstAcceptedAt(plan: FloorPlan, pool: seq<Room>, user: User, start: int, durationMinutes: int,
                        title: string, now: int, i: nat)
    requires i < |pool| && Accepts(plan, pool[i], user, start, durationMinutes, title, now)
    requires forall j :: 0 <= j < i ==> !Accepts(plan, pool[j], user, start, durationMinutes, title, now)
    ensures FirstAccepted(plan, pool, user, start, durationMinutes, title, now) == Some(i)
  {
  }

  lemma RejectedPrefixGrows(plan: FloorPlan, pool: seq<Room>, user: User, start: int, durationMinutes: int,
                            title: string, now: int, i: nat)
    requires i < |pool| && !Accepts(plan, pool[i], user, start, durationMinutes, title, now)
    requires forall j :: 0 <= j < i ==> !Accepts(plan, pool[j], user, start, durationMinutes, title, now)
    ensures forall j :: 0 <= j < i + 1 ==> !Accepts(plan, pool[j], user, start, durationMinutes, title, now)
  {
  }

  /** What the meeting form reports. */
  datatype MeetingOutcome =
    | PastStartTime
    | NoCapacity
    | Booked(room: Room)
    | AllSlotsConflicted(suggestions: seq<Room>)

  /** The suggestions after every attempt failed: the first three rooms of the pool. */
  function Suggestions(pool: seq<Room>): (s: seq<Room>)
    ensures |s| == Seqs.Min(3, |pool|) && s == pool[..|s|]
  {
    pool[..Seqs.Min(3, |pool|)]
  }

  /** At most three suggestions, each a meeting room of the pool that seats everyone. */
  lemma SuggestionsFromPool(rooms: seq<Room>, selectedFloor: string, attendees: int)
    ensures var s := Suggestions(MeetingPool(rooms, selectedFloor, attendees));
            && |s| <= 3
            && forall r :: r in s ==> r in rooms && r.kind == Meeting && r.capacity >= attendees
  {
    MeetingPoolOrder(rooms, selectedFloor, attendees);
  }

  /**
   * `handleScheduleMeeting`. A start before `now` is refused before any room
   * is tried; an empty pool reports no capacity; otherwise the rooms are tried
   * in best-fit order and the first one the store accepts is booked, which
   * ends the search. If none accepts, nothing is written and the first three
   * rooms of the pool are suggested.
   */
  method HandleScheduleMeeting(store: Backend.Store, rooms: seq<Room>, selectedFloor: string, attendees: int,
                               start: int, durationMinutes: int, title: string, user: User, now: int)
    returns (outcome: MeetingOutcome)
    modifies store
    ensures start < now ==> outcome == PastStartTime && store.stored == old(store.stored)
    ensures var pool := MeetingPool(rooms, selectedFloor, attendees);
            start >= now && pool == [] ==> outcome == NoCapacity && store.stored == old(store.stored)
    ensures var pool := MeetingPool(rooms, selectedFloor, attendees);
            start >= now && pool != [] ==>
              match FirstAccepted(old(store.Latest()), pool, user, start, durationMinutes, title, now)
              case None =>
                outcome == AllSlotsConflicted(Suggestions(pool)) && store.stored == old(store.stored)
              case Some(k) =>
                && outcome == Booked(pool[k])
                && store.stored == Some(Backend.ScheduleResponse(old(store.Latest()), pool[k].id, user, start,
                                                                 durationMinutes, title, now).plan)
  {
    if start < now {
      return PastStartTime;
    }
    var potentialRooms := MeetingPool(rooms, selectedFloor, attendees);
    if |potentialRooms| == 0 {
      return NoCapacity;
    }
    ghost var plan := store.Latest();
    var booked := false;
    var i := 0;
    while i < |potentialRooms|
      invariant 0 <= i <= |potentialRooms|
      invariant !booked
      invariant store.stored == old(store.stored) && store.Latest() == plan
      invariant forall j :: 0 <= j < i ==> !Accepts(plan, potentialRooms[j], user, start, durationMinutes, title, now)
    {
      var room := potentialRooms[i];
      var result := store.ScheduleMeeting(room.id, user, start, durationMinutes, title, now);
      assert result == Backend.ScheduleResponse(plan, room.id, user, start, durationMinutes, title, now);
      assert result.Scheduled? <==> Accepts(plan, room, user, start, durationMinutes, title, now);
      if result.Scheduled? {
        FirstAcceptedAt(plan, potentialRooms, user, start, durationMinutes, title, now, i);
        outcome := Booked(room);
        booked := true;
        break;
      }
      RejectedPrefixGrows(plan, potentialRooms, user, start, durationMinutes, title, now, i);
      i := i + 1;
    }
    if !booked {
      outcome := AllSlotsConflicted(Suggestions(potentialRooms));
    }
  }
}
