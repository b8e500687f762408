/**
 * The administrator's editing session (components/FloorPlanEditor.tsx): the
 * local copy of the plan, the pending-changes and editing flags, the online
 * switch, the recorded save conflict, the polling refresh, saving with an
 * optimistic version bump, and the two ways of resolving a conflict. Also the
 * derived views of the dashboard: rooms of the active floor, floor totals and
 * occupancy rate, and occupancy alerts.
 */
module Editor {
  import opened Types
  import Seqs
  import Backend
  import Seed

  // ---------------------------------------------------------------------------
  // Derived views

  /** `filteredRooms`: the rooms of the active floor, none before a plan is loaded. */
  function FloorRooms(plan: Option<FloorPlan>, activeFloorId: string): (rooms: seq<Room>)
    ensures plan.None? ==> rooms == []
    ensures plan.Some? ==> forall r :: r in rooms <==> r in plan.value.rooms && r.floorId == activeFloorId
    ensures plan.Some? ==> forall r :: multiset(rooms)[r] == if r.floorId == activeFloorId then multiset(plan.value.rooms)[r] else 0
  {
    if plan.None? then []
    else
      Seqs.FilterCounts(plan.value.rooms, OnFloor(activeFloorId));
      Seqs.Filter(plan.value.rooms, OnFloor(activeFloorId))
  }

  function TotalCapacity(rooms: seq<Room>): int {
    if rooms == [] then 0 else rooms[0].capacity + TotalCapacity(rooms[1..])
  }

  function TotalOccupants(rooms: seq<Room>): int {
    if rooms == [] then 0 else |rooms[0].occupants| + TotalOccupants(rooms[1..])
  }

  /** When no room is over capacity, the floor's occupants do not exceed its capacity either. */
  lemma {:induction false} TotalsBounded(rooms: seq<Room>)
    requires forall r :: r in rooms ==> |r.occupants| <= r.capacity
    ensures 0 <= TotalOccupants(rooms) <= TotalCapacity(rooms)
  {
    if rooms != [] {
      assert forall r :: r in rooms[1..] ==> r in rooms;
      TotalsBounded(rooms[1..]);
    }
  }

  /** `Math.round` on the values it meets here: halves round up. */
  function RoundHalfUp(x: real): (n: int)
    ensures n as real - 0.5 <= x < n as real + 0.5
  {
    (x + 0.5).Floor
  }

  lemma ScaleLe(a: real, b: real, c: real)
    requires a <= b && c > 0.0
    ensures a * c <= b * c
  {
  }

  lemma ScaleLt(a: real, b: real, c: real)
    requires a < b && c > 0.0
    ensures a * c < b * c
  {
  }

  lemma FractionAtMostOne(o: real, c: real)
    requires 0.0 <= o <= c && c > 0.0
    ensures 0.0 <= o / c <= 1.0
  {
  }

  /** Rounding the percentage to `n` puts `100 * occupants` within half a capacity of `n * capacity`. */
  lemma RoundedPercent(o: real, c: real, n: int)
    requires c > 0.0
    requires n as real - 0.5 <= (o / c) * 100.0 < n as real + 0.5
    ensures (n as real - 0.5) * c <= 100.0 * o < (n as real + 0.5) * c
  {
    var q := o / c;
    assert q * c == o;
    ScaleLe(n as real - 0.5, q * 100.0, c);
    ScaleLt(q * 100.0, n as real + 0.5, c);
    assert q * 100.0 * c == 100.0 * (q * c);
  }

  /** The occupancy rate in whole percent, 0 for a floor without capacity. */
  function OccupancyRate(occupants: int, capacity: int): (rate: int)
    ensures capacity <= 0 ==> rate == 0
    ensures capacity > 0 ==> (rate as real - 0.5) * capacity as real <= 100.0 * occupants as real
                             < (rate as real + 0.5) * capacity as real
    ensures capacity > 0 && 0 <= occupants <= capacity ==> 0 <= rate <= 100
  {
    if capacity > 0 then
      var c := capacity as real;
      var o := occupants as real;
      var x := (o / c) * 100.0;
      var n := RoundHalfUp(x);
      RoundedPercent(o, c, n);
      assert 0 <= occupants <= capacity ==> 0 <= n <= 100 by {
        if 0 <= occupants <= capacity {
          FractionAtMostOne(o, c);
        }
      }
      n
    else 0
  }

  datatype FloorStats = FloorStats(totalCapacity: int, totalOccupants: int, occupancyRate: int, roomCount: int)

  /** `floorStats` for the active floor. */
  function Stats(plan: Option<FloorPlan>, activeFloorId: string): (s: FloorStats)
    ensures plan.None? ==> s == FloorStats(0, 0, 0, 0)
    ensures var rooms := FloorRooms(plan, activeFloorId);
            && s.roomCount == |rooms|
            && s.totalCapacity == TotalCapacity(rooms)
            && s.totalOccupants == TotalOccupants(rooms)
            && s.occupancyRate == OccupancyRate(s.totalOccupants, s.totalCapacity)
  {
    if plan.None? then FloorStats(0, 0, 0, 0)
    else
      var rooms := FloorRooms(plan, activeFloorId);
      var capacity := TotalCapacity(rooms);
      var occupants := TotalOccupants(rooms);
      FloorStats(capacity, occupants, OccupancyRate(occupants, capacity), |rooms|)
  }

  /**
   * When no room of the floor is over capacity, the floor totals are ordered
   * and the rate is a percentage between 0 and 100.
   */
  lemma StatsBounded(plan: Option<FloorPlan>, activeFloorId: string)
    requires forall r :: r in FloorRooms(plan, activeFloorId) ==> |r.occupants| <= r.capacity
    ensures var s := Stats(plan, activeFloorId);
            0 <= s.totalOccupants <= s.totalCapacity && 0 <= s.occupancyRate <= 100
  {
    TotalsBounded(FloorRooms(plan, activeFloorId));
  }

  /** Occupancy of a room in percent, 0 for a room without capacity. */
  function OccupancyPercent(r: Room): real {
    if r.capacity > 0 then (|r.occupants| as real / r.capacity as real) * 100.0 else 0.0
  }

  /** A room alerts when it has a non-zero threshold and its occupancy has reached it. */
  predicate IsAlerting(r: Room) {
    r.occupancyThreshold.Some? && r.occupancyThreshold.value != 0
    && OccupancyPercent(r) >= r.occupancyThreshold.value as real
  }

  /** The alert rule in whole numbers: `100 * occupants >= threshold * capacity`. */
  lemma AlertByCounts(r: Room)
    ensures IsAlerting(r) <==>
              && r.occupancyThreshold.Some? && r.occupancyThreshold.value != 0
              && (if r.capacity > 0 then 100 * |r.occupants| >= r.occupancyThreshold.value * r.capacity
                  else r.occupancyThreshold.value < 0)
  {
    if r.capacity > 0 && r.occupancyThreshold.Some? {
      var c := r.capacity as real;
      var p := OccupancyPercent(r);
      assert p * c == 100.0 * |r.occupants| as real;
      var t := r.occupancyThreshold.value as real;
      assert p >= t <==> p * c >= t * c;
    }
  }

  /** The seeded open workspace (10 seats, threshold 80%) alerts from its eighth occupant on. */
  lemma OpenWorkspaceAlertsAtEight()
    ensures IsAlerting(Seed.OpenWorkspace.(occupants := ["a", "b", "c", "d", "e", "f", "g", "h"]))
    ensures !IsAlerting(Seed.OpenWorkspace.(occupants := ["a", "b", "c", "d", "e", "f", "g"]))
  {
    AlertByCounts(Seed.OpenWorkspace.(occupants := ["a", "b", "c", "d", "e", "f", "g", "h"]));
    AlertByCounts(Seed.OpenWorkspace.(occupants := ["a", "b", "c", "d", "e", "f", "g"]));
  }

  /** `activeAlerts`, over every floor. */
  function ActiveAlerts(plan: Option<FloorPlan>): (alerts: seq<Room>)
    ensures plan.None? ==> alerts == []
    ensures plan.Some? ==> forall r :: r in alerts <==> r in plan.value.rooms && IsAlerting(r)
    ensures plan.Some? ==> forall r :: multiset(alerts)[r] == if IsAlerting(r) then multiset(plan.value.rooms)[r] else 0
  {
    if plan.None? then []
    else
      Seqs.FilterCounts(plan.value.rooms, IsAlerting);
      Seqs.Filter(plan.value.rooms, IsAlerting)
  }

  // ---------------------------------------------------------------------------
  // Session transitions

  /** `updateRoom`'s map: every room with the updated room's id is replaced by it. */
  function ReplaceRoom(rooms: seq<Room>, updated: Room): (out: seq<Room>)
    ensures |out| == |rooms|
    ensures forall i :: 0 <= i < |rooms| ==> out[i].id == rooms[i].id
    ensures forall i :: 0 <= i < |rooms| && rooms[i].id == updated.id ==> out[i] == updated
    ensures forall i :: 0 <= i < |rooms| && rooms[i].id != updated.id ==> out[i] == rooms[i]
  {
    seq(|rooms|, i requires 0 <= i < |rooms| => if rooms[i].id == updated.id then updated else rooms[i])
  }

  /** Applying the same edit twice is applying it once. */
  lemma ReplaceRoomIdempotent(rooms: seq<Room>, updated: Room)
    ensures ReplaceRoom(ReplaceRoom(rooms, updated), updated) == ReplaceRoom(rooms, updated)
  {
  }

  /** An edit that changes a room of the plan yields a different plan, so a reload that restores the plan loses it. */
  lemma EditDiscarded(plan: FloorPlan, updated: Room, i: int)
    requires 0 <= i < |plan.rooms| && plan.rooms[i].id == updated.id && plan.rooms[i] != updated
    ensures plan.(rooms := ReplaceRoom(plan.rooms, updated)) != plan
  {
    assert ReplaceRoom(plan.rooms, updated)[i] == updated;
  }

  /** The local copy after a silent refresh: a newer fetched plan replaces it unless editing. */
  function Refreshed(prev: Option<FloorPlan>, editing: bool, fetched: FloorPlan): (next: Option<FloorPlan>)
    ensures editing || prev.None? ==> next == prev
    ensures next != prev <==> !editing && prev.Some? && fetched.version > prev.value.version
    ensures next != prev ==> next == Some(fetched)
    ensures prev.Some? ==> next.Some? && next.value.version >= prev.value.version
  {
    if editing then prev
    else if prev.Some? && fetched.version > prev.value.version then Some(fetched)
    else prev
  }

  /** What a save sends: the plan one version up, stamped with the clock. */
  function SavePayload(plan: FloorPlan, now: int): (payload: FloorPlan)
    ensures payload.version == plan.version + 1 && payload.lastModified == now
    ensures payload.(version := plan.version, lastModified := plan.lastModified) == plan
  {
    plan.(version := plan.version + 1, lastModified := now)
  }

  /** The local plan that "force local" keeps, one version above the server's. */
  function ForcedPlan(local: FloorPlan, server: FloorPlan, now: int): (forced: FloorPlan)
    ensures forced.version == server.version + 1 && forced.lastModified == now
    ensures forced.rooms == local.rooms && forced.id == local.id
  {
    local.(version := server.version + 1, lastModified := now)
  }

  /**
   * "Force local" bumps twice (once to build the forced plan, once more in
   * the save), so it submits the server's version plus two, and a commit that
   * another writer made at the server's version plus one in between is
   * overwritten without a conflict.
   */
  lemma ForceLocalSkipsAVersion(local: FloorPlan, server: FloorPlan, racing: FloorPlan, now: int, later: int)
    requires racing.version == server.version + 1
    ensures SavePayload(ForcedPlan(local, server, now), later).version == server.version + 2
    ensures server.version < SavePayload(ForcedPlan(local, server, now), later).version
    ensures racing.version < SavePayload(ForcedPlan(local, server, now), later).version
  {
  }

  /**
   * A save built on a plan is rejected exactly when at least one check-in or
   * check-out has been committed since that plan was fetched, because every
   * such commit raises the version by a whole unit.
   */
  lemma StaleSaveConflicts(fetched: FloorPlan, ops: seq<Backend.PresenceOp>, now: int)
    ensures |ops| >= 1 <==> Backend.Replay(fetched, ops).version >= SavePayload(fetched, now).version
  {
    Backend.ReplayVersion(fetched, ops);
  }

  datatype Strategy = AcceptRemote | ForceLocal

  class Session {
    var floorPlan: Option<FloorPlan>
    var pendingChanges: bool
    var conflict: Option<ConflictData>
    /** `isEditingRef`: while set, polling and silent refreshes leave the local copy alone. */
    var isEditing: bool
    var isOnline: bool

    /** A conflict is only ever recorded against a loaded plan. */
    ghost predicate Valid()
      reads this
    {
      conflict.Some? ==> floorPlan.Some?
    }

    constructor ()
      ensures Valid()
      ensures floorPlan == None && !pendingChanges && conflict == None && !isEditing && isOnline
    {
      floorPlan := None;
      pendingChanges := false;
      conflict := None;
      isEditing := false;
      isOnline := true;
    }

    /** The polling guard: online, nothing pending, no conflict. */
    predicate PollingAllowed()
      reads this
    {
      isOnline && !pendingChanges && conflict.None?
    }

    /** The Sync button is enabled while there are pending changes or a conflict. */
    predicate SyncEnabled()
      reads this
    {
      pendingChanges || conflict.Some?
    }

    /**
     * The online switch's handler only flips the flag; it does not sync. The
     * reload that the flip then triggers is `ToggleOnlineRendered`.
     */
    method ToggleOnline()
      requires Valid()
      modifies this`isOnline
      ensures Valid()
      ensures isOnline == !old(isOnline)
    {
      isOnline := !isOnline;
    }

    /** `loadData`: adopt the store's plan and drop every local state. */
    method LoadData(store: Backend.Store)
      modifies this`floorPlan, this`conflict, this`pendingChanges, this`isEditing
      ensures Valid()
      ensures floorPlan == Some(store.Latest()) && conflict == None && !pendingChanges && !isEditing
    {
      var plan := store.Fetch();
      floorPlan := Some(plan);
      conflict := None;
      pendingChanges := false;
      isEditing := false;
    }

    /** `silentRefresh`. */
    method SilentRefresh(store: Backend.Store)
      requires Valid()
      modifies this`floorPlan
      ensures Valid()
      ensures floorPlan == Refreshed(old(floorPlan), isEditing, store.Latest())
    {
      var plan := store.Fetch();
      if !isEditing && floorPlan.Some? && plan.version > floorPlan.value.version {
        floorPlan := Some(plan);
      }
    }

    /** One tick of the two-second poll. */
    method PollTick(store: Backend.Store)
      requires Valid()
      modifies this`floorPlan
      ensures Valid()
      ensures !old(PollingAllowed()) ==> floorPlan == old(floorPlan)
      ensures old(PollingAllowed()) ==> floorPlan == Refreshed(old(floorPlan), isEditing, store.Latest())
    {
      if isOnline && !pendingChanges && conflict.None? {
        SilentRefresh(store);
      }
    }

    /** The "Sim Conflict" button: an external commit, then a silent refresh. */
    method ExternalUpdateAndRefresh(store: Backend.Store, now: int)
      requires Valid()
      modifies this`floorPlan, store
      ensures Valid()
      ensures store.stored == Some(Backend.ExternalUpdatePlan(old(store.Latest()), now))
      ensures floorPlan == Refreshed(old(floorPlan), isEditing, Backend.ExternalUpdatePlan(old(store.Latest()), now))
    {
      var _ := store.SimulateExternalUpdate(now);
      SilentRefresh(store);
    }

    /** `updateRoom`: edit the local copy and mark it pending and being edited. */
    method UpdateRoom(updated: Room)
      requires Valid()
      modifies this`floorPlan, this`pendingChanges, this`isEditing
      ensures Valid()
      ensures old(floorPlan).None? ==>
                floorPlan == None && pendingChanges == old(pendingChanges) && isEditing == old(isEditing)
      ensures old(floorPlan).Some? ==>
                && floorPlan == Some(old(floorPlan).value.(rooms := ReplaceRoom(old(floorPlan).value.rooms, updated)))
                && pendingChanges && isEditing
    {
      if floorPlan.None? {
        return;
      }
      var plan := floorPlan.value;
      var newRooms := ReplaceRoom(plan.rooms, updated);
      floorPlan := Some(plan.(rooms := newRooms));
      pendingChanges := true;
      isEditing := true;
    }

    /**
     * `handleSave(planToSave)`. Offline, the plan stays local and pending.
     * Online, the plan is sent one version up: on success the sent plan
     * becomes the local copy and nothing is pending (a recorded conflict is
     * left as it is); on rejection nothing local changes except that the
     * conflict records the store's plan and the plan that was to be saved.
     */
    method Save(store: Backend.Store, planToSave: Option<FloorPlan>, now: int) returns (sent: Option<FloorPlan>)
      requires Valid()
      requires planToSave.Some? ==> floorPlan.Some?
      modifies this`floorPlan, this`pendingChanges, this`isEditing, this`conflict, store
      ensures Valid()
      ensures planToSave.None? ==>
                && sent == None && store.stored == old(store.stored)
                && floorPlan == old(floorPlan) && pendingChanges == old(pendingChanges)
                && isEditing == old(isEditing) && conflict == old(conflict)
      ensures planToSave.Some? && !isOnline ==>
                && sent == None && store.stored == old(store.stored)
                && floorPlan == old(floorPlan) && pendingChanges && isEditing && conflict == old(conflict)
      ensures planToSave.Some? && isOnline ==>
                var payload := SavePayload(planToSave.value, now);
                && sent == Some(payload)
                && if old(store.Latest()).version < payload.version then
                     && store.stored == Some(payload) && floorPlan == Some(payload)
                     && !pendingChanges && !isEditing && conflict == old(conflict)
                   else
                     && store.stored == old(store.stored) && floorPlan == old(floorPlan)
                     && pendingChanges == old(pendingChanges) && isEditing == old(isEditing)
                     && conflict == Some(ConflictData(old(store.Latest()), planToSave.value))
    {
      if planToSave.None? {
        return None;
      }
      if !isOnline {
        pendingChanges := true;
        isEditing := true;
        return None;
      }
      var plan := planToSave.value;
      var payload := SavePayload(plan, now);
      var success, serverPlan := store.UpdateFloorPlan(payload);
      if success {
        floorPlan := Some(serverPlan);
        pendingChanges := false;
        isEditing := false;
      } else {
        conflict := Some(ConflictData(serverPlan, plan));
      }
      sent := Some(payload);
    }

    /**
     * `handleSave()`: save the local copy. It succeeds exactly when the
     * store's version is not above the local one, since the copy is sent one
     * version up.
     */
    method HandleSave(store: Backend.Store, now: int) returns (sent: Option<FloorPlan>)
      requires Valid()
      modifies this`floorPlan, this`pendingChanges, this`isEditing, this`conflict, store
      ensures Valid()
      ensures old(floorPlan).None? ==>
                && sent == None && store.stored == old(store.stored)
                && floorPlan == None && pendingChanges == old(pendingChanges)
                && isEditing == old(isEditing) && conflict == old(conflict)
      ensures old(floorPlan).Some? && !isOnline ==>
                && sent == None && store.stored == old(store.stored)
                && floorPlan == old(floorPlan) && pendingChanges && isEditing && conflict == old(conflict)
      ensures old(floorPlan).Some? && isOnline ==>
                && sent == Some(SavePayload(old(floorPlan).value, now))
                && if old(store.Latest()).version <= old(floorPlan).value.version then
                     && store.stored == sent && floorPlan == sent
                     && !pendingChanges && !isEditing && conflict == old(conflict)
                   else
                     && store.stored == old(store.stored) && floorPlan == old(floorPlan)
                     && pendingChanges == old(pendingChanges) && isEditing == old(isEditing)
                     && conflict == Some(ConflictData(old(store.Latest()), old(floorPlan).value))
    {
      sent := Save(store, floorPlan, now);
    }

    /**
     * The Sync button: disabled, it changes nothing; enabled, it is
     * `handleSave()` with every outcome of that.
     */
    method PressSync(store: Backend.Store, now: int) returns (sent: Option<FloorPlan>)
      requires Valid()
      modifies this`floorPlan, this`pendingChanges, this`isEditing, this`conflict, store
      ensures Valid()
      ensures !old(SyncEnabled()) ==>
                && sent == None && store.stored == old(store.stored)
                && floorPlan == old(floorPlan) && pendingChanges == old(pendingChanges)
                && isEditing == old(isEditing) && conflict == old(conflict)
      ensures old(SyncEnabled()) && old(floorPlan).None? ==>
                && sent == None && store.stored == old(store.stored)
                && floorPlan == None && pendingChanges == old(pendingChanges)
                && isEditing == old(isEditing) && conflict == old(conflict)
      ensures old(SyncEnabled()) && old(floorPlan).Some? && !isOnline ==>
                && sent == None && store.stored == old(store.stored)
                && floorPlan == old(floorPlan) && pendingChanges && isEditing && conflict == old(conflict)
      ensures old(SyncEnabled()) && old(floorPlan).Some? && isOnline ==>
                && sent == Some(SavePayload(old(floorPlan).value, now))
                && if old(store.Latest()).version <= old(floorPlan).value.version then
                     && store.stored == sent && floorPlan == sent
                     && !pendingChanges && !isEditing && conflict == old(conflict)
                   else
                     && store.stored == old(store.stored) && floorPlan == old(floorPlan)
                     && pendingChanges == old(pendingChanges) && isEditing == old(isEditing)
                     && conflict == Some(ConflictData(old(store.Latest()), old(floorPlan).value))
    {
      if pendingChanges || conflict.Some? {
        sent := HandleSave(store, now);
      } else {
        sent := None;
      }
    }

    /**
     * `resolveConflict`. Without a conflict nothing happens. "Accept remote"
     * adopts the store's plan from the conflict and drops local state.
     * "Force local" clears the conflict, keeps the local rooms at the
     * server's version plus one, and saves that plan, which sends it at the
     * server's version plus two.
     */
    method ResolveConflict(store: Backend.Store, strategy: Strategy, now: int) returns (sent: Option<FloorPlan>)
      requires Valid()
      modifies this`floorPlan, this`pendingChanges, this`isEditing, this`conflict, store
      ensures Valid()
      ensures old(conflict).None? ==>
                && sent == None && store.stored == old(store.stored)
                && floorPlan == old(floorPlan) && pendingChanges == old(pendingChanges)
                && isEditing == old(isEditing) && conflict == None
      ensures old(conflict).Some? && strategy == AcceptRemote ==>
                && sent == None && store.stored == old(store.stored)
                && floorPlan == Some(old(conflict).value.serverVersion)
                && !pendingChanges && !isEditing && conflict == None
      ensures old(conflict).Some? && strategy == ForceLocal ==>
                var forced := ForcedPlan(old(floorPlan).value, old(conflict).value.serverVersion, now);
                var payload := SavePayload(forced, now);
                && (!isOnline ==>
                      && sent == None && store.stored == old(store.stored)
                      && floorPlan == Some(forced) && conflict == None && pendingChanges && isEditing)
                && (isOnline ==>
                      && sent == Some(payload)
                      && payload.version == old(conflict).value.serverVersion.version + 2
                      && if old(store.Latest()).version < payload.version then
                           && store.stored == Some(payload) && floorPlan == Some(payload)
                           && conflict == None && !pendingChanges && !isEditing
                         else
                           && store.stored == old(store.stored) && floorPlan == Some(forced)
                           && pendingChanges == old(pendingChanges) && isEditing == old(isEditing)
                           && conflict == Some(ConflictData(old(store.Latest()), forced)))
    {
      if conflict.None? {
        return None;
      }
      var server := conflict.value.serverVersion;
      match strategy {
        case AcceptRemote =>
          floorPlan := Some(server);
          pendingChanges := false;
          conflict := None;
          isEditing := false;
          sent := None;
        case ForceLocal =>
          var forcedPlan := ForcedPlan(floorPlan.value, server, now);
          floorPlan := Some(forcedPlan);
          conflict := None;
          sent := Save(store, Some(forcedPlan), now);
      }
    }

    // -------------------------------------------------------------------------
    // The effect's reload

    /**
     * Whether the effect's dependencies differ from the values it last ran
     * with. `conflict` is compared by value here, while React compares by
     * identity, so a conflict re-recorded with equal contents is not a change.
     */
    predicate DepsChanged(seenOnline: bool, seenPending: bool, seenConflict: Option<ConflictData>)
      reads this
    {
      isOnline != seenOnline || pendingChanges != seenPending || conflict != seenConflict
    }

    /**
     * The polling effect (components/FloorPlanEditor.tsx:27-36) runs on mount
     * and again after every render in which `isOnline`, `pendingChanges` or
     * `conflict` differs from the values of its previous run, and every run
     * starts with an unconditional `loadData()`. Given the values of the
     * previous run, this is the re-run: a reload when any of them changed,
     * nothing otherwise. The reload clears `pendingChanges` and `conflict`,
     * which can trigger one run more; that run fetches the same plan.
     */
    method Rerender(store: Backend.Store, seenOnline: bool, seenPending: bool, seenConflict: Option<ConflictData>)
      requires Valid()
      modifies this`floorPlan, this`conflict, this`pendingChanges, this`isEditing
      ensures Valid()
      ensures old(DepsChanged(seenOnline, seenPending, seenConflict)) ==>
                floorPlan == Some(store.Latest()) && conflict == None && !pendingChanges && !isEditing
      ensures !old(DepsChanged(seenOnline, seenPending, seenConflict)) ==>
                && floorPlan == old(floorPlan) && conflict == old(conflict)
                && pendingChanges == old(pendingChanges) && isEditing == old(isEditing)
    {
      if DepsChanged(seenOnline, seenPending, seenConflict) {
        LoadData(store);
      }
    }

    /**
     * As written, an edit followed by the re-render it causes. Editing a plan
     * with nothing pending sets `pendingChanges`, the effect re-runs, and its
     * reload replaces the edited copy with the store's plan: while nobody
     * else has committed, the copy is back to what it was before the edit.
     * Only an edit made while changes are already pending survives.
     */
    method UpdateRoomRendered(store: Backend.Store, updated: Room)
      requires Valid()
      modifies this`floorPlan, this`pendingChanges, this`isEditing, this`conflict
      ensures Valid()
      ensures old(floorPlan).Some? && !old(pendingChanges) ==>
                floorPlan == Some(store.Latest()) && conflict == None && !pendingChanges && !isEditing
      ensures old(floorPlan) == Some(store.Latest()) && !old(pendingChanges) ==> floorPlan == old(floorPlan)
      ensures old(floorPlan).Some? && old(pendingChanges) ==>
                && floorPlan == Some(old(floorPlan).value.(rooms := ReplaceRoom(old(floorPlan).value.rooms, updated)))
                && pendingChanges && isEditing && conflict == old(conflict)
      ensures old(floorPlan).None? ==>
                && floorPlan == None && pendingChanges == old(pendingChanges)
                && isEditing == old(isEditing) && conflict == old(conflict)
    {
      var online, pending, recorded := isOnline, pendingChanges, conflict;
      UpdateRoom(updated);
      Rerender(store, online, pending, recorded);
    }

    /**
     * As written, a click on the online switch followed by its re-render:
     * the flag flips and the store's plan is reloaded, so local edits made
     * offline and a recorded conflict are dropped without being saved.
     */
    method ToggleOnlineRendered(store: Backend.Store)
      requires Valid()
      modifies this`isOnline, this`floorPlan, this`pendingChanges, this`isEditing, this`conflict
      ensures Valid()
      ensures isOnline == !old(isOnline)
      ensures floorPlan == Some(store.Latest()) && conflict == None && !pendingChanges && !isEditing
    {
      var online, pending, recorded := isOnline, pendingChanges, conflict;
      ToggleOnline();
      Rerender(store, online, pending, recorded);
    }

    /**
     * As written, a rejected save followed by its re-render: recording the
     * conflict re-runs the effect, whose reload clears the conflict again and
     * adopts the store's plan, before either way of resolving it is offered.
     */
    method HandleSaveRendered(store: Backend.Store, now: int) returns (sent: Option<FloorPlan>)
      requires Valid()
      modifies this`floorPlan, this`pendingChanges, this`isEditing, this`conflict, store
      ensures Valid()
      ensures old(floorPlan).Some? && isOnline && old(conflict).None?
              && old(store.Latest()).version > old(floorPlan).value.version ==>
                && store.stored == old(store.stored) && conflict == None
                && floorPlan == Some(old(store.Latest())) && !pendingChanges && !isEditing
      ensures old(floorPlan).Some? && isOnline && old(store.Latest()).version <= old(floorPlan).value.version ==>
                store.stored == sent && floorPlan == sent && !pendingChanges && !isEditing
    {
      var online, pending, recorded := isOnline, pendingChanges, conflict;
      sent := HandleSave(store, now);
      Rerender(store, online, pending, recorded);
    }

    /**
     * Corrected: with the reload run on mount only, an edit survives the
     * polling that follows it, and stays pending until it is saved.
     */
    method EditThenPoll(store: Backend.Store, updated: Room)
      requires Valid()
      modifies this`floorPlan, this`pendingChanges, this`isEditing
      ensures Valid()
      ensures old(floorPlan).Some? ==>
                && floorPlan == Some(old(floorPlan).value.(rooms := ReplaceRoom(old(floorPlan).value.rooms, updated)))
                && pendingChanges && isEditing
      ensures old(floorPlan).None? ==> floorPlan == None
    {
      UpdateRoom(updated);
      PollTick(store);
    }
  }
}
