/**
 * The seed workspace (constants.ts): two floors, thirteen rooms, all empty,
 * plan version 1. The store falls back to it whenever storage holds nothing.
 */
module Seed {
  import opened Types

  function SeedRoom(id: string, floorId: string, name: string, capacity: int, kind: RoomType,
                    features: seq<string>, threshold: Option<int>, bookings: int): Room
  {
    Room(id, floorId, name, capacity, kind, features, threshold, bookings, [], [])
  }

  // Ground floor
  const BoardroomAlpha: Room := SeedRoom("r1", "ground", "Boardroom Alpha", 20, Meeting, ["projector", "whiteboard"], Some(100), 45)
  const HuddleA: Room := SeedRoom("r2", "ground", "Huddle A", 4, Meeting, ["whiteboard"], Some(100), 12)
  const OpenWorkspace: Room := SeedRoom("r3", "ground", "Open Workspace", 10, Desk, [], Some(80), 0)
  const PhoneBooth: Room := SeedRoom("r4", "ground", "Phone Booth", 1, Meeting, [], None, 5)
  const TheBeanery: Room := SeedRoom("r5", "ground", "The Beanery", 15, Cafeteria, ["coffee"], None, 50)
  const StrategyRoom: Room := SeedRoom("r_g_new1", "ground", "Strategy Room", 8, Meeting, ["screen"], Some(100), 10)
  const ChillZone: Room := SeedRoom("r_g_new2", "ground", "Chill Zone", 6, Common, ["sofa"], None, 5)

  // First floor
  const DevHub: Room := SeedRoom("r6", "first", "Dev Hub (PC)", 8, Desk, ["pc"], Some(90), 80)
  const DesignLab: Room := SeedRoom("r7", "first", "Design Lab (PC)", 4, Desk, ["pc", "mac"], Some(100), 65)
  const WarRoom: Room := SeedRoom("r8", "first", "War Room", 6, Meeting, ["projector", "pc"], Some(100), 20)
  const GameRoom: Room := SeedRoom("r_f_new1", "first", "Game Room", 4, Recreation, ["tt_table"], None, 15)
  const SkyCafe: Room := SeedRoom("r_f_new2", "first", "Sky Cafe", 12, Cafeteria, [], None, 30)
  const ExecutiveSuite: Room := SeedRoom("r_f_new3", "first", "Executive Suite", 10, Meeting, ["vc_system", "whiteboard"], Some(100), 5)

  const InitialRooms: seq<Room> := [
    BoardroomAlpha, HuddleA, OpenWorkspace, PhoneBooth, TheBeanery, StrategyRoom, ChillZone,
    DevHub, DesignLab, WarRoom, GameRoom, SkyCafe, ExecutiveSuite
  ]

  /** `INITIAL_FLOOR_PLAN`; its timestamp is the clock reading when the module is loaded. */
  function InitialFloorPlan(loadedAt: int): FloorPlan {
    FloorPlan("fp_main", 1, loadedAt, InitialRooms)
  }
}
