# Intelligent Floor Plan Manager: a verified model of the workspace store and its clients

This project models the sequential core of the Intelligent Floor Plan Manager in Dafny and proves properties of the model.

The system keeps one shared, versioned floor plan: rooms on two floors, with a capacity, features, an occupancy threshold, the people checked in and a booking schedule. Two kinds of client change it:

- **Bookers** check in to desks, check out, and book meeting rooms.
- **Administrators** edit room data and save the whole plan with an optimistic version check.

The editor's polling effect (`components/FloorPlanEditor.tsx:27-36`) lists `isOnline`, `pendingChanges` and `conflict` as its dependencies, so it re-runs whenever one of them changes, and every run begins with an unconditional `loadData()`. The model has this reload as its own transition, `Editor.Session.Rerender`. The handlers that change a dependency are also modelled followed by that reload (`UpdateRoomRendered`, `ToggleOnlineRendered`, `HandleSaveRendered`); see "## Findings".

The model has seven files:

- `types.dfy` (modules `Types` and `Text`): bookings, rooms, the floor plan, save conflicts, users, and the decimal rendering used in generated identifiers.
- `seqs.dfy` (module `Seqs`): `filter`, and a stable sort by an integer key. The sort is insertion sort, because `Array.prototype.sort` is stable. It is proved sorted, a permutation, and stable per key.
- `seed.dfy` (module `Seed`): the thirteen seeded rooms and the initial plan at version 1.
- `backend.dfy` (module `Backend`): the store (`services/mockBackend.ts`).
  - The class `Store` holds what storage holds (`None` when empty) and the time the seed plan was built.
  - Its methods are the service's operations: fetch, compare-and-swap save, check-in, check-out, meeting booking, and the external-update hook.
  - Each method is proved equal to a pure function of the store's latest plan (`CheckInPlan`, `ExitPlan`, `ScheduleResponse`, `ExternalUpdatePlan`). The lemmas are stated about those functions.
  - The occupant-clearing `forEach` is a loop (`ClearOccupant`) proved against `RemoveEverywhere`.
- `booking.dfy` (module `Booking`): the booking screen's logic (`components/BookingSystem.tsx`):
  - the user's current room;
  - desk recommendations and their ranking;
  - the check-in duration rule;
  - check-out;
  - the best-fit meeting search, a loop that calls the store room by room.
- `editor.dfy` (module `Editor`): the administrator's session (`components/FloorPlanEditor.tsx`).
  - The class `Session` has the local plan, `pendingChanges`, the recorded conflict, the editing flag and the online switch.
  - Its transitions are load, silent refresh, the poll tick, room edit, save, the Sync button, and conflict resolution.
  - The module also has the dashboard's derived views: floor rooms, totals and rounded occupancy rate, and occupancy alerts.
- `versions.dfy` (module `VersionScale`): versions counted in hundredths, for the finding below.

Modelling choices:

- **Versions** are integers.
  - Every committing call raises the version by one whole unit. The source raises it by 0.01 in three places; see "## Findings".
  - `simulateExternalUpdate`'s `Math.floor(version) + 1` is `version + 1` on integers.
  - The half-capacity test for meeting suggestions is `2 * capacity >= room.capacity`.
- **The clock** is a `now` parameter: one reading per operation.
- **Percentages** are exact `real` values.
  - `Math.round(x)` is `floor(x + 0.5)`, which is what JavaScript computes.
- **Equal sort keys** keep list order: the model's sort is stable, like the source's.
- **The floor selector** value `"all"` turns the floor filter off, as in the source.

The force-local path submits the server's version plus two:

- The forced plan is built at the server's version plus one (`components/FloorPlanEditor.tsx:116`). It is then saved through `handleSave`, which adds one more (`:141`).
- `Editor.Session.ResolveConflict` therefore sends the server's version plus two.
- `Editor.ForceLocalSkipsAVersion` shows the consequence. A commit that another writer makes at the server's version plus one in the meantime is overwritten, and no second conflict is raised.

## Model

| member | source | states |
|---|---|---|
| Seqs.SortBySorted | components/BookingSystem.tsx:70-76 | the sort by a key orders its output ascending by that key |
| Seqs.SortByStable | components/BookingSystem.tsx:70-76 | the sort keeps the relative order of elements with equal keys, as the stable `Array.prototype.sort` does |
| Seqs.FilterAppend | components/FloorPlanEditor.tsx:70 | filtering a concatenation is the concatenation of the filtered parts, so kept elements keep their relative order |
| Seqs.FilterCounts | components/FloorPlanEditor.tsx:87-91 | filtering keeps every occurrence of a kept element and none of a dropped one |
| Backend.CheckForOverlap | services/mockBackend.ts:42-46 | a schedule blocks [start, end) exactly when some booking has `start < endTime` and `end > startTime` |
| Backend.DisjointScheduleDoesNotBlock | services/mockBackend.ts:42-46 | bookings that end by `start` or begin at `end` or later never block, so back-to-back bookings are allowed |
| Backend.OverlapExamples | services/mockBackend.ts:42-46 | a 10:00-11:00 booking blocks 10:30-11:30 but not 11:00-12:00; an empty schedule blocks nothing |
| Backend.ClearOccupant | services/mockBackend.ts:166-169 | the loop over the rooms removes the user from every occupant list and changes nothing else |
| Backend.FindRoom | services/mockBackend.ts:172 | the result is the first index with the room id, and none exactly when no room has that id |
| Backend.CheckInRoomAt | services/mockBackend.ts:163-188 | after a check-in, each room is the user-cleared room, plus the user, the counter increment and the live booking when it is the target |
| Backend.CheckInOccupants | services/mockBackend.ts:166-175 | after a check-in the user is in the target room only, exactly once, and in no room when the id is unknown; other names keep their rooms and order |
| Backend.CheckInBookkeeping | services/mockBackend.ts:163-191 | the target's counter grows by 1 and its schedule gains one desk booking [now, now + d·60000); other rooms' counters and schedules stay; the version grows by 1 even for an unknown room |
| Backend.CheckInExclusive | services/mockBackend.ts:166-175 | after a check-in the user is in at most one room, and nobody else gains a second room |
| Backend.ExitEffects | services/mockBackend.ts:200-211 | check-out removes the user from every room, keeps other names in order, leaves all other room fields alone, and adds 1 to the version |
| Backend.ExitIdempotent | services/mockBackend.ts:205-207 | checking out twice leaves the same rooms as checking out once |
| Backend.ReplayKeepsExclusive | services/mockBackend.ts:157-217 | over any sequence of check-ins and check-outs, a plan where nobody is in two rooms stays that way |
| Backend.ReplayVersion | services/mockBackend.ts:157-217 | each check-in or check-out in a sequence commits exactly one new version |
| Backend.SeedIsExclusive | constants.ts:20-233 | the seed plan has nobody in two rooms |
| Backend.ScheduleMeetingOutcome | services/mockBackend.ts:222-275 | unknown room: failure. Free slot: exactly one meeting booking ending start + d·60000 appended, counter +2, other rooms unchanged, version +1. Blocked slot: the suggestions are exactly the other same-type rooms, at least half as large, that are free then |
| Backend.ScheduledMeetingIsDisjoint | services/mockBackend.ts:242-262 | no double booking: a room schedule without overlapping bookings keeps that property through an accepted meeting |
| Backend.ExternalUpdateEffects | services/mockBackend.ts:277-298 | the external update raises the version and changes only the names of rooms with id r1 |
| Backend.Store.constructor | services/mockBackend.ts:35-36 | the store starts with the given storage contents and seed time |
| Backend.Store.Fetch | services/mockBackend.ts:118-126 | fetch returns the stored plan, or the seed plan when storage is empty |
| Backend.Store.UpdateFloorPlan | services/mockBackend.ts:137-152 | the save succeeds exactly when the latest version is below the candidate's. On success it stores and returns the candidate verbatim; on failure it returns the latest plan unchanged. The version never decreases |
| Backend.Store.CheckInToRoom | services/mockBackend.ts:157-198 | the stored plan becomes `CheckInPlan` of the latest plan, one version up |
| Backend.Store.ExitRoom | services/mockBackend.ts:200-217 | the stored plan becomes `ExitPlan` of the latest plan, one version up |
| Backend.Store.ScheduleMeeting | services/mockBackend.ts:222-275 | the response is `ScheduleResponse` of the latest plan; only a scheduled meeting is stored, one version up |
| Backend.Store.SimulateExternalUpdate | services/mockBackend.ts:277-298 | the stored plan becomes `ExternalUpdatePlan` of the latest plan, one version up |
| Booking.CurrentRoom | components/BookingSystem.tsx:33-35 | the first room whose occupants include the user, and none exactly when no room does |
| Booking.CheckInSetsCurrentRoom | components/BookingSystem.tsx:33-35 | after a check-in to an existing room, that room is the user's current room |
| Booking.NoCurrentRoomAfterExit | components/BookingSystem.tsx:33-35 | after a check-out, or a check-in to an unknown room, the user has no current room |
| Booking.EarliestEnd | components/BookingSystem.tsx:88 | the minimum end time of a non-empty booking list: it is attained and bounds every end time |
| Booking.NextFree | components/BookingSystem.tsx:84-90 | a room has a next free time exactly when it is full and some booking ends after now; that time is the earliest such end |
| Booking.DeskRecommendations | components/BookingSystem.tsx:79-95 | one option per ranked candidate, in order, with its fullness (`occupants >= capacity`) and next free time |
| Booking.DeskCandidatesMembership | components/BookingSystem.tsx:50-77 | recommended rooms are exactly the desk and common rooms (and cafeterias for laptop users) on the selected floor, with a PC when one is needed |
| Booking.LaptopRanking | components/BookingSystem.tsx:69-77 | for laptop users the result is a permutation of the pool, every PC room after every non-PC room, each group in pool order |
| Booking.CheckInDuration | components/BookingSystem.tsx:101 | a PC check-in lasts the chosen hours; a laptop check-in lasts 240 minutes |
| Booking.LaptopCheckInSpansFourHours | components/BookingSystem.tsx:100-102 | a laptop check-in appends a desk booking from now to exactly four hours later |
| Booking.HandleCheckIn | components/BookingSystem.tsx:100-111 | one store check-in with the duration rule applied |
| Booking.HandleExit | components/BookingSystem.tsx:113-124 | the store is called exactly when the loaded rooms show the user checked in; otherwise nothing changes |
| Booking.FittingRooms | components/BookingSystem.tsx:139-146 | exactly the meeting rooms on the selected floor that seat all attendees |
| Booking.FittingRoomsCounts | components/BookingSystem.tsx:139-146 | each fitting room occurs as often as in the room list, every other room not at all |
| Booking.MeetingPoolOrder | components/BookingSystem.tsx:139-149 | the pool is exactly the fitting rooms, in ascending capacity, so the tightest fit comes first |
| Booking.MeetingPoolStable | components/BookingSystem.tsx:149 | rooms with the same slack stay in list order |
| Booking.BestFitExample | components/BookingSystem.tsx:139-149 | with rooms of 10, 4 and 6 seats and five people, the pool is 6 then 10; for twelve people it is empty |
| Booking.FirstFloorPoolOfFive | components/BookingSystem.tsx:139-149 | when the only first-floor meeting rooms seating five are the War Room and the Executive Suite, the pool is the War Room first, then the Executive Suite, and nothing else |
| Booking.SeedFirstFloorForFive | components/BookingSystem.tsx:139-149 | over the seeded rooms, five people on the first floor are offered the War Room (6) first, then the Executive Suite (10), and nothing else; Huddle A is not offered |
| Booking.FirstAccepted | components/BookingSystem.tsx:158-167 | the first pool position the store accepts; none exactly when the store accepts no room |
| Booking.Suggestions | components/BookingSystem.tsx:169-174 | the first min(3, pool size) rooms of the pool |
| Booking.SuggestionsFromPool | components/BookingSystem.tsx:169-174 | there are at most three suggestions, each a meeting room that seats all attendees |
| Booking.HandleScheduleMeeting | components/BookingSystem.tsx:126-177 | a past start is refused and an empty pool reports no capacity; in both cases nothing is stored. Otherwise the first room the store accepts is booked and the search stops; if none accepts, nothing is stored and the first three are suggested |
| Editor.FloorRooms | components/FloorPlanEditor.tsx:69-71 | exactly the plan's rooms on the active floor, each as often as in the plan; none before a plan is loaded |
| Editor.TotalsBounded | components/FloorPlanEditor.tsx:73-83 | if no room is over capacity, 0 <= total occupants <= total capacity |
| Editor.RoundHalfUp | components/FloorPlanEditor.tsx:80 | the result is within half a unit of the input, halves rounding up |
| Editor.OccupancyRate | components/FloorPlanEditor.tsx:80 | the rate is 0 without capacity. Otherwise it is the nearest whole percent of occupants over capacity, and between 0 and 100 when occupants do not exceed capacity |
| Editor.Stats | components/FloorPlanEditor.tsx:73-83 | all zeros without a plan; otherwise the floor's room count, total capacity, total occupants, and the rounded occupancy rate of those totals (0 without capacity) |
| Editor.StatsBounded | components/FloorPlanEditor.tsx:73-83 | if no room of the floor is over capacity, the totals are ordered and the rate is between 0 and 100 |
| Editor.AlertByCounts | components/FloorPlanEditor.tsx:85-92 | a room alerts exactly when its threshold is set and non-zero and 100·occupants >= threshold·capacity (a zero-capacity room only for a negative threshold) |
| Editor.OpenWorkspaceAlertsAtEight | constants.ts:55-68 | the seeded 10-seat open workspace with an 80% threshold alerts at eight occupants, not at seven |
| Editor.ActiveAlerts | components/FloorPlanEditor.tsx:85-92 | exactly the alerting rooms of every floor, each as often as in the plan, so the displayed count is the number of alerting entries; none before a plan is loaded |
| Editor.ReplaceRoom | components/FloorPlanEditor.tsx:165 | the room list keeps its length and ids; every room with the updated id becomes the updated room, and rooms with other ids are unchanged |
| Editor.EditDiscarded | components/FloorPlanEditor.tsx:165 | an edit that changes a room yields a plan different from the one edited, so restoring the old plan loses it |
| Editor.ReplaceRoomIdempotent | components/FloorPlanEditor.tsx:165 | applying the same room edit twice is applying it once |
| Editor.Refreshed | components/FloorPlanEditor.tsx:50-61 | the local plan is kept while editing; otherwise it is replaced only by a strictly newer fetched plan, so the local version never decreases |
| Editor.SavePayload | components/FloorPlanEditor.tsx:141-142 | the saved plan is the local plan one version up, stamped with the clock, otherwise unchanged |
| Editor.ForcedPlan | components/FloorPlanEditor.tsx:113-118 | the forced plan keeps the local rooms at the server's version plus one |
| Editor.ForceLocalSkipsAVersion | components/FloorPlanEditor.tsx:113-122 | force-local sends the server's version plus two, which beats the server's plan and also a racing commit at plus one |
| Editor.StaleSaveConflicts | components/FloorPlanEditor.tsx:141-155 | a save built on a fetched plan is rejected exactly when at least one check-in or check-out has been committed since that fetch |
| Editor.Session.constructor | components/FloorPlanEditor.tsx:11-25 | no plan, nothing pending, no conflict, not editing, online |
| Editor.Session.ToggleOnline | components/FloorPlanEditor.tsx:212 | the switch's click handler flips the flag; the reload that the flip then causes is `ToggleOnlineRendered` |
| Editor.Session.LoadData | components/FloorPlanEditor.tsx:38-48 | the local plan becomes the store's, with conflict, pending changes and editing cleared |
| Editor.Session.SilentRefresh | components/FloorPlanEditor.tsx:50-61 | the local plan becomes `Refreshed` of itself, the editing flag and the store's plan |
| Editor.Session.PollTick | components/FloorPlanEditor.tsx:29-33 | one tick of the effect's interval: it refreshes only when online, with nothing pending and no conflict; the effect's reload is `Rerender` |
| Editor.Session.ExternalUpdateAndRefresh | components/FloorPlanEditor.tsx:225 | the external commit is stored and then silently refreshed into the session |
| Editor.Session.UpdateRoom | components/FloorPlanEditor.tsx:163-169 | with a plan loaded, the room is replaced by id and the session becomes pending and editing; without one, nothing changes |
| Editor.Session.Save | components/FloorPlanEditor.tsx:125-161 | offline, the session is marked pending and editing and nothing is sent. Online, the plan is sent one version up. On success it becomes local and nothing is pending; on rejection the conflict records (store's plan, unsent plan) and the local state stays |
| Editor.Session.HandleSave | components/FloorPlanEditor.tsx:125-161 | saving the local copy: nothing without a plan; offline, pending and editing and nothing sent; online, the copy is sent one version up, and it succeeds exactly when the store's version is not above the local one (stored, adopted, nothing pending) and otherwise records (store's plan, local copy) as the conflict |
| Editor.Session.PressSync | components/FloorPlanEditor.tsx:229-235 | disabled (nothing pending, no conflict), the button changes neither the session nor the store; enabled, it has every outcome of `HandleSave` |
| Editor.Session.ResolveConflict | components/FloorPlanEditor.tsx:104-123 | accept-remote adopts the server's plan and clears local state. Force-local clears the conflict, keeps the local rooms at server+1, and makes one save at server+2; a second rejection is recorded, not retried |
| Editor.Session.Rerender | components/FloorPlanEditor.tsx:27-48 | when `isOnline`, `pendingChanges` or `conflict` differs by value from the effect's previous run, the store's plan is reloaded with pending changes, conflict and editing cleared; otherwise nothing changes |
| Editor.Session.UpdateRoomRendered | components/FloorPlanEditor.tsx:163-169 | as written, an edit of a plan with nothing pending is followed by the reload: the local plan is the store's again and nothing is pending; only an edit made while changes are already pending survives |
| Editor.Session.ToggleOnlineRendered | components/FloorPlanEditor.tsx:212 | as written, every click of the online switch reloads the store's plan and drops pending changes and a recorded conflict |
| Editor.Session.HandleSaveRendered | components/FloorPlanEditor.tsx:150-154 | as written, a rejected save records a conflict whose reload at once clears it and adopts the store's plan; a successful save keeps the sent plan |
| Editor.Session.EditThenPoll | components/FloorPlanEditor.tsx:27-36 | with the reload run on mount only, an edit survives the next poll and stays pending and editing |
| VersionScale.HundredthBumpsAdd | services/mockBackend.ts:190 | arithmetic bookkeeping for the finding: k mutator commits of one hundredth raise the version by k hundredths |
| VersionScale.StaleSaveAcceptedAsWritten | services/mockBackend.ts:143-148 | as written, a save built on a stale plan is still accepted after 1 to 99 intervening mutator commits, and rejected only from 100 on |
| VersionScale.OneCheckInLost | services/mockBackend.ts:190 | as written, the editor's save at 2.00 overwrites a check-in that raised 1.00 to 1.01 |
| VersionScale.StaleSaveRejectedWhenWhole | services/mockBackend.ts:143-148 | with whole-unit commits, a stale save is rejected exactly when at least one commit intervened |

## Left out

- Persistence is not modelled. That covers `localStorage`, JSON serialization, deep copies via JSON, and the parse-failure fallback of `loadFromDB`. Storage is the `Option<FloorPlan>` field of `Backend.Store`.
- Asynchrony and timers are not modelled: promise latencies, the 2-second and 5-second polling intervals, and `setTimeout`. A poll is one call to `Editor.Session.PollTick`, an effect re-run is one call to `Editor.Session.Rerender`, and interleavings are sequences of whole calls.
- Editor.Session.PollTick: is one interval tick only. The reload the effect performs on every dependency change is `Editor.Session.Rerender`, and only the `...Rendered` methods follow a handler with it; `UpdateRoom`, `ToggleOnline`, `HandleSave`, `PressSync` and `ResolveConflict` state a handler's own effect, before that re-render.
- Editor.Session.ToggleOnline: states the click handler alone. What the click then causes, the reload that drops offline edits, is stated by `Editor.Session.ToggleOnlineRendered`.
- Editor.Session.Rerender: compares the dependencies by value, while React compares them by identity (`Object.is`). Every rejected save records a new conflict object (`components/FloorPlanEditor.tsx:151-154`). So when a conflict is recorded again with equal contents, for example by a second rejected Sync, the source re-runs the effect and reloads, but the model sees no change and does nothing.
- React's re-render is modelled from a settled state: the dependency values the effect last ran with are those before the handler. The second re-run that the reload's own clearing of `pendingChanges` or `conflict` can cause fetches the same plan and is not modelled separately.
- Backend.ScheduleMeetingOutcome: states the blocked-slot suggestions by membership only. Their order is the room list's, which the model keeps but does not state.
- Booking.DeskCandidatesMembership: states the PC user's recommendations by membership only. Their order is the room list's, which the model keeps but does not state.
- The booking screen's reload of `rooms` after each action and every five seconds is not modelled. The loaded rooms are a parameter.
- Every exception path is omitted. That includes `catch` branches, network-error messages and storage commit failures; the model's store calls cannot fail.
- UI message state is not modelled: `isSaving`, `processing`, `error`, `successMsg` and the meeting result text.
- The authentication service, the users database, `fetchUsers` and the simulated e-mail service are outside the modelled core.
- Presentation is not modelled: grid placement, the pie-chart data and room selection. Which floor is active is a parameter.
- Form parsing is not modelled. That covers the meeting date and time strings (the start time is a parameter) and `updateRoom`'s `parseInt` and comma-separated feature parsing (the updated room is a parameter).
- Booking.DeskRecommendations: gives the next free time as a millisecond value. It does not build the "Free at H:MM" text, because that needs time-zone-dependent date formatting.
- Backend.Store.CheckInToRoom: reads the clock once. The source reads `Date.now()` twice (for the booking and for `lastModified`), and the model gives both the same `now`; scheduleMeeting's booking id and `lastModified` are treated the same way.
- Backend.ExternalUpdatePlan: with integer versions `Math.floor` is the identity. The floor applied to fractional versions appears only in `VersionScale`'s discussion.
- Floating point is not modelled. Percentages are exact reals, so binary rounding error in `(occupants / capacity) * 100` is gone. Accumulating `+ 0.01` steps is only modelled exactly in hundredths.

## Findings

| source | as written | input that shows it | evidently intended | confidence | as-written member | corrected member |
|---|---|---|---|---|---|---|
| components/FloorPlanEditor.tsx:28 | the polling effect re-runs whenever `isOnline`, `pendingChanges` or `conflict` changes (`:36`), and every run calls `loadData()` (`:38-48`), which replaces the local plan with the store's and clears pending changes and the conflict | a plan is loaded with nothing pending; the administrator edits a room (`updateRoom`, `:163-169`, sets `pendingChanges`); the effect re-runs and reloads the store's plan, so the edit is gone and Sync is disabled again. A rejected save and a click of the online switch are undone the same way | the plan is loaded on mount, and an edit stays local and pending until it is saved or a conflict is resolved | high; not executed | Editor.Session.UpdateRoomRendered | Editor.Session.EditThenPoll |
| services/mockBackend.ts:190 | check-in, check-out (`:209`) and meeting booking (`:257`) raise the version by 0.01. The editor saves its fetched version plus 1 (`components/FloorPlanEditor.tsx:141`), and the store accepts anything above the latest version (`:143`), so a save built on a stale copy still wins after up to 99 such commits and erases them | the editor fetches version 1.00; a user checks in (1.01); the editor saves 2.00, which is accepted, and the check-in disappears with no conflict shown | every commit after a fetch makes a save built on that fetch conflict, which holds with whole-unit increments | medium; not executed | VersionScale.StaleSaveAcceptedAsWritten | Editor.StaleSaveConflicts |
