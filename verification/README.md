# SectorSync benchmarks: a verified model

SectorSync is a library for replicating game worlds that are split over stations; its benchmark crate drives the
library with deterministic workloads and ends each of them with a verdict on its counters. This project models those
workloads in Dafny and proves what the verdicts rely on. `dafny verify dfyconfig.toml` checks all of it.

## What is modelled

**The multi-room gameplay run** (`dynamic_gameplay.rs`) is the largest part. A run creates rooms; every tick it
recreates a room in turn every fifteenth tick, advances the clocks, admits and applies player commands, moves NPCs,
expires and launches projectiles, routes and drains events, and replicates to every player.

| file | content |
|---|---|
| `station.dfy`, `room_services.dfy`, `replication_services.dfy` | the services a room owns: generational slot table, component store, gateway sessions, command queues, transport hub, event router, frame encoder, replication tracker |
| `service_laws.dfy` | what gateway, queues, transport and router promise to any caller, over any history |
| `room_spec.dfy`, `gameplay_spec.dfy` | every step of a room and of the whole world as a function on values; `None` is a panic |
| `room_invariants.dfy`, `room_accounts.dfy`, `room_steps.dfy`, `room_projectiles.dfy`, `room_replication.dfy`, `room_creation.dfy` | the invariant of a room, and each step shown to succeed, to keep it and to do what it should |
| `room_turnover.dfy` | which entities and components creation, expiry and launches add and remove, exactly |
| `room_growth.dfy`, `room_frames.dfy` | which handles are given out before replication, what exactly a frame carries, and why every plan fits its frame and its tracker |
| `gameplay_phases.dfy`, `gameplay_world.dfy`, `gameplay_run.dfy` | one phase of one room, one phase over all rooms, ticks and runs of any length |
| `gameplay_limit.dfy` | how long a run can be, exactly |
| `gameplay_rates.dfy` | the work of a run in numbers |
| `gameplay_verdict.dfy` | the verdict on the modelled checks, exactly, and the account of all projectiles |
| `gameplay_room.dfy`, `gameplay_machine.dfy` | the program's own form: room and counter objects updated in place by loops, each method proved against its step function, up to the run and the benchmark |

The invariant at every tick boundary says, among other things: station, spatial index and component store agree on
every handle and position; the dirty list names exactly the entities with a dirty component, all of them live; every
queue is empty; the projectile queue is the exact timeline of the last five ticks; the tracker holds only records of
the room's own clients for handles it issued, each acknowledged; and each counter is a closed form of the number of
ticks.

**Further workloads**: `top_k.dfy` and `top_k_benchmark.dfy` (in-place quickselect and prefix sort against a full sort,
size guard and verdict), `round_robin.dfy`,
`many_rooms.dfy`, `many_rooms_guard.dfy` and `viewer_schedule.dfy` (sharding arithmetic), `work_digest.dfy` (predicted
and accumulated digests), `dedup_window.dfy`, `session_admission.dfy`, `tracker_capacity.dfy` and `session_expiry.dfy`
(indexes and caches against what they stand for), `example_cipher.dfy` and `guards.dfy` (round trips and resource
guards). `machine_ints.dfy` writes out the saturating and wrapping operators of 64-bit words, `collections.dfy` holds
facts about finite sets.

The table under "Model" lists the main results first, then what they rest on, by component. A handler, phase loop or
helper without a row is covered by the row of the method or lemma that uses it.

## Where the code falls short of the simple law

These laws are false as one would first state them. For each there is a lemma that shows the failure, and one that
says when the law does hold.

- A gameplay run of any length succeeds: the replication tracker is never pruned, so a run of more than 520 ticks with
  more than 34 rooms can fill the tracker of the first room. Within that bound every run succeeds whatever the index
  reports. For rooms of up to 2000 entities the bound is exact (`TrackersLastExactly`): beyond it a run fails if the
  index reports every handle to every viewer in an unfavourable order, new projectiles and the entities whose turn to
  move it is first (`TrackerOverflows`). The order matters because a plan holds 160 entities: in a larger room what is
  left out of the first plan and never moves again is never tracked. Requests granted by the program's own size guard
  have at most 512 entities per room and 300 ticks.
- Projectiles spawned minus despawned are the live ones: only until the first room is recreated, because a recreated
  room drops its projectiles without counting them (`SpawnedMinusDespawnedIsLiveExactly`). With the dropped ones added
  the account balances in every run (`ProjectilesConserved`).
- The dirty lookup array answers list membership: not for a handle whose generation is the reset value
  (`SaturatedGenerationLooksDirty`, `UnlistedLooksDirtyExactly`); no room of a run gets that old.
- A removed handle never resolves again: only below the saturated generation (`HandleReissuedOnlyWhenSaturated`).
- Reserved vectors suffice for a station's moving and updating entities: not once the percentage product saturates
  (`SaturationOverrunsReserve`, `ReserveWhenSaturated`); the size guard rules that out (`GuardedReservesSuffice`).
- Exactly every fourth generated key is accepted: not when the nonces run out of the word. Then a fresh key repeats
  the last one (`FreshKeyRejected`), or an evicted key is accepted again (`EvictedKeyAccepted`). `LawfulExactly` gives
  the condition on window, operations and ticks; every guarded run meets it (`GuardedRunsLawful`).
- The conservative capacity check admits what fits: it refuses a full tracker the refresh of its own entry
  (`ConservativeRejectsRefresh`). `NeverRefusedExactly` says which sizes are never refused; guarded ones are among them
  (`GuardedNeverPanics`).
- The session expiry benchmark passes if it completes in time: with fewer than three sessions none ever expires, and it
  fails (`SomeExpire`, `SessionExpiry.Benchmark`).
- The priority selection benchmark passes if it completes in time: a single candidate scores nothing, and the benchmark
  fails; within the size guard that is the only such case (`BestPositiveExactly`, `TopKBenchmark.Benchmark`).
- A sealed packet opens under its own key and nonce only: every other key opens it under exactly one nonce
  (`StreamSharedExactly`). Under the packet's own nonce, or with its own key, the law holds for payloads of at least
  nine bytes (`OpenedExactlyByItsStream`); for shorter ones it depends on the key streams' first bytes
  (`OpenAfterSeal`).
- Sealing changes a payload: not under the one nonce of each key whose stream is zero (`UnsealedExactly`).
- Entity ids are distinct: with several rooms exactly up to a million local numbers per room
  (`EntityIdsCollideBeyondStride`, `EntityIdsDistinctExactly`).

## Conventions

- A function of the gameplay specification returns `None` where the program would panic on an unmet expectation; that a
  result is `Some` is the proof that it does not.
- Words and `usize` are 64 bits. A value that can saturate or wrap does so in the model.
- Positions are counted in quarter units, of which the gameplay workload's 32-bit floats hold only exact multiples.
- Clocks are replaced by `allowedTicks`, the number of ticks (or `allowedCalls`, of calls) that start before the time
  budget ends a run.
- What the spatial index reports within range of a viewer is an arbitrary sequence of distinct handles for every tick,
  room and viewer; that it contains the viewer's own entity, which is at distance zero, is part of the model.
- `Admissible` bounds the first `n` ticks of a gameplay run by what the program can be given without a modelled
  expectation failing: at most 5048 rooms, so that every port fits 16 bits; from ten entities per room, so that all
  players have one, to as many as handles allow; fewer ticks than the largest generation; and the bound on the tracker,
  `TrackersLast`. Everything the program's own size guard lets through is inside (`GuardIsProjection`).

## Model

| member | source | states |
|---|---|---|
| `GameplayRun.RunSucceeds` | crates/sectorsync-bench/examples/dynamic_gameplay.rs:323-410 | Induction over runs of any admissible length: no modelled expectation fails, whatever the index reports, and at every tick boundary all room invariants, idle queues and closed-form counters hold, of commands, events, movements, component updates, launches, plans and packets, and nothing is dirty. |
| `GameplayMachine.Run` | crates/sectorsync-bench/examples/dynamic_gameplay.rs:323-410 | In a run of any admissible configuration no modelled expectation fails, whatever the index reports; rooms, router and counters end in the state the specification predicts after the ticks that ran, all invariants hold there, and the modelled checks are decided exactly. |
| `GameplayMachine.Benchmark` | crates/sectorsync-bench/examples/dynamic_gameplay.rs:309-321 | From parsed arguments to the modelled checks of the verdict: for every request, index report and time budget they pass if and only if no heavy profile was denied and the budget sufficed for all guarded ticks. |
| `GameplayLimit.TrackersLastExactly` | crates/sectorsync-bench/examples/dynamic_gameplay.rs:881-899 | For rooms of up to 2000 entities the first n ticks of a run succeed for all index reports if and only if n is at most 520 or the rooms are at most 34. |
| `GameplayLimit.TrackerOverflows` | crates/sectorsync-bench/examples/dynamic_gameplay.rs:893-895 | For rooms of up to 2000 entities, beyond that bound a run fails in which the index reports every handle to every viewer, those of projectiles and of the entities whose turn it is first. |
| `GameplayRun.ReplicationSeesExactlyDirty` | crates/sectorsync-bench/examples/dynamic_gameplay.rs:787-802 | In every run, whenever a room replicates, the lookup array answers for every live handle exactly whether a component of the entity is dirty; listed handles are live, and the array never grows. |
| `GameplayRun.ChangeReachesViewer` | crates/sectorsync-bench/examples/dynamic_gameplay.rs:778-900 | In every run whatever component is dirty when a room replicates is in the frame of every viewer to whom the index reports its entity, unless that plan is full; and a frame carries of each planned entity exactly the dirty components, with the version and payload they have in the room. |
| `GameplayVerdict.VerdictExactly` | crates/sectorsync-bench/examples/dynamic_gameplay.rs:988-1015 | Of the modelled checks, which leave out released queue capacity, retained slots, point memberships and checksums, all but two hold in every run: they pass if and only if no profile was denied and all ticks, at least one, ran. |
| `GameplayVerdict.ProjectilesConserved` | crates/sectorsync-bench/examples/dynamic_gameplay.rs:655-703 | Over every run each spawned projectile was despawned, is live, or was discarded with a recreated room. |
| `GameplayVerdict.SpawnedMinusDespawnedIsLiveExactly` | crates/sectorsync-bench/examples/dynamic_gameplay.rs:363-369 | The simpler law spawned - despawned = live is false of the code, because recreation drops projectiles uncounted; it holds exactly up to tick 15. |
| `RoomFrames.FrameFits` | crates/sectorsync-wire/src/lib.rs:534-656 | Every frame fits a packet and is complete: one delta for every planned entity with all its dirty components, in order, as they stand in the store, and nothing else; the number of components and the length in bytes are closed forms of how many transforms, states and inventories are dirty. |
| `RoomFrames.FrameCarriesExactlyDirty` | crates/sectorsync-wire/src/lib.rs:586-612 | A component is in the frame of a sound plan exactly when it is dirty in the room, under its entity's id, with the version and payload it has there. |
| `StationTable.StaleHandleNeverResolves` | crates/sectorsync-core/src/station.rs:208-215 | Over any sequence of operations a removed handle below the saturation point never resolves again. |
| `TopK.Select` | crates/sectorsync-bench/examples/priority_top_k.rs:206-223 | Both modes leave a permutation whose selected prefix is the full sort's, of length min(limit, count). |
| `TopK.SelectionIsBest` | crates/sectorsync-bench/examples/priority_top_k.rs:206-223 | No other choice of as many candidates has a higher score total. |
| `TopKBenchmark.Benchmark` | crates/sectorsync-bench/examples/priority_top_k.rs:125-138 | For every request: more than 2^32 candidates are a panic, otherwise a run passes if and only if its time budgets sufficed and its wrapping checksum is positive; within the guard, if and only if they sufficed and there are at least two candidates. |
| `ManyRooms.ReserveSuffices` | crates/sectorsync-bench/examples/many_rooms.rs:799-806 | Each station's chosen entities fit the vector reserved for them whenever the product fits a word. |
| `ManyRooms.ReserveWhenSaturated` | crates/sectorsync-bench/examples/many_rooms.rs:799-806 | Beyond that, the exact condition under which the reservation still suffices. |
| `ManyRoomsGuard.GuardedReservesSuffice` | crates/sectorsync-bench/examples/many_rooms.rs:799-806 | In every station of every room of a guarded run the reserved vectors suffice. |
| `ViewerSchedule.EveryWindowServesOnce` | crates/sectorsync-bench/src/main.rs:1011-1011 | Any window of as many ticks as phases serves every client exactly once. |
| `WorkDigest.Run` | crates/sectorsync-bench/src/main.rs:920-1176 | Every run over a baseline that completes all ticks accumulates exactly the predicted digest; a shorter one the digest of the ticks that ran. The next three rows say what these digests are. |
| `WorkDigest.FullBroadcastTotals` | crates/sectorsync-bench/src/main.rs:1115-1160 | After whole windows of ticks the digest counts every client once per window, each with all entities of the world; viewers and updates are capped at the word, checksums reduced by it. |
| `WorkDigest.RoomBroadcastTotals` | crates/sectorsync-bench/src/main.rs:1115-1160 | After whole windows of ticks the digest counts every client once per window, each with the entities of its own station: station by station, clients times entities; viewers and updates are capped at the word, checksums reduced by it. |
| `WorkDigest.NaiveGridTotals` | crates/sectorsync-bench/src/main.rs:1115-1160 | After whole windows of ticks the digest counts every client once per window, each with what the index of its own station finds in its range; viewers and updates are capped at the word, checksums reduced by it. |
| `DedupWindow.LawfulExactly` | crates/sectorsync-bench/examples/bounded_dedup_index.rs:121-162 | Over n ticks exactly every fourth generated key is accepted if and only if W + n ceil(ops/4) is at most 2^64-1, or is 2^64 and no operation after the last fresh one of a tick looks back over the whole window; the accepted keys are then the first nonces in order. |
| `DedupWindow.StreamStaysSpaced` | crates/sectorsync-bench/examples/bounded_dedup_index.rs:140-153 | For any key stream, a key is accepted again only after more than W other acceptances; accepted keys stay, none but offered ones are added, and an offered key is then among the last W accepted. |
| `SessionAdmission.RunCounts` | crates/sectorsync-bench/examples/gateway_session_lookup.rs:110-216 | Over every run all lazily reset counters tell the truth. |
| `TrackerCapacity.Benchmark` | crates/sectorsync-bench/examples/tracker_capacity_guard.rs:64-232 | For every request the run passes if and only if the time budget sufficed and no check of its mode fails; a guarded run never fails a check. |
| `SessionExpiry.Benchmark` | crates/sectorsync-bench/examples/gateway_expiry_scan.rs:106-121 | For every request the benchmark passes if and only if at least three sessions were requested and the time budget sufficed for the guarded calls: with fewer it fails though both scans are right. |
| `DecodeGuard.FrameLimitExact` | crates/sectorsync-bench/examples/replication_decode_borrowed.rs:86-96 | Within the caps, frames per tick are within the limit exactly when the whole run stays within the payload total; neither saturation nor the fallbacks to one matter. |
| `ExampleCipher.OpenAfterSeal` | crates/sectorsync-bench/examples/secure_command_ingress.rs:207-228 | Opening restores every payload with the sealing key and nonce, and with others exactly when their key streams agree on its length. |
| `ExampleCipher.OpenedExactlyByItsStream` | crates/sectorsync-bench/examples/secure_command_ingress.rs:207-228 | A payload of at least nine bytes is restored by exactly the keys and nonces that share the sealing stream: by every key under one nonce, under the sealing nonce by the sealing key alone, and with the sealing key under the sealing nonce alone. |
| `ExampleCipher.UnsealedExactly` | crates/sectorsync-bench/examples/secure_command_ingress.rs:218-228 | Key 0 with nonce 0 leaves every payload as it is; of any key exactly one nonce does so to a payload of at least nine bytes. |
| `ExampleCipher.TagDetectsChange` | crates/sectorsync-bench/examples/secure_command_ingress.rs:230-239 | Exchanging one byte of a payload, wherever it is, changes its tag exactly when the byte is another one. |
| `ExampleCipher.TagBindsKeyAndNonce` | crates/sectorsync-bench/examples/secure_command_ingress.rs:230-239 | Under one nonce tags of a payload agree exactly for equal keys, and under one key exactly for equal nonces. |
| `GameplayMachine.RunTicks` | crates/sectorsync-bench/examples/dynamic_gameplay.rs:357-406 | The loop over the trace stops early exactly when the time budget ends it, and leaves the world of that many specified ticks. |
| `GameplayMachine.Tick` | crates/sectorsync-bench/examples/dynamic_gameplay.rs:363-405 | One tick on the mutable rooms does recreation, clock, commands, simulation, events and replication in this order, each phase over all rooms, as the pure tick does on values. |
| `GameplayMachine.RecreateDueRoom` | crates/sectorsync-bench/examples/dynamic_gameplay.rs:363-369 | Replaces exactly the due room by a new object after its teardown, and registers its station again. |
| `GameplayMachine.CollectStats` | crates/sectorsync-bench/examples/dynamic_gameplay.rs:412-448 | Adds up tracker records, acknowledgements, component columns and indexed entities over the rooms, saturating. |
| `GameplayMachine.StartRun` | crates/sectorsync-bench/examples/dynamic_gameplay.rs:330-341 | Creates distinct room objects in the states room creation specifies, registers every room once and counts them. |
| `GameplayMachine.GuardIsProjection` | crates/sectorsync-bench/examples/dynamic_gameplay.rs:129-140 | The guard leaves exactly the sizes within its limits alone, always ends within them, makes every request with at least one room admissible for all its ticks, and the plain guard absorbs the heavy one. |
| `GameplayMachine.Settings.constructor` | crates/sectorsync-bench/examples/dynamic_gameplay.rs:78-106 | Argument resolution: which sizes result, when a heavy profile counts as denied, and when the guard is reported. |
| `GameplayVerdict.TotalsCounted` | crates/sectorsync-bench/examples/dynamic_gameplay.rs:412-448 | At every tick boundary the tracked records are those the rooms sent, all of them acknowledged, the rooms hold three component columns each, and the indexed entities are the permanent ones plus the projectiles of the last five ticks, in closed form. |
| `GameplayVerdict.NothingLostExactly` | crates/sectorsync-bench/examples/dynamic_gameplay.rs:956-963 | No projectile is lost to recreation exactly in runs of at most fifteen ticks. |
| `GameplayVerdict.TickAccounts` | crates/sectorsync-bench/examples/dynamic_gameplay.rs:655-703 | One tick keeps the projectile account, adding the live projectiles of a recreated room to the lost ones. |
| `GameplayRates.CommandsInNumbers` | crates/sectorsync-bench/examples/dynamic_gameplay.rs:148-165 | Commands of whole tens of ticks in numbers: per player ten in a hot room, five in an active and one in an idle one, with four to ten players a room in turn. |
| `GameplayRates.EventsInNumbers` | crates/sectorsync-bench/examples/dynamic_gameplay.rs:705-708 | Events of a run in numbers: at every fifth tick one from five of every ten rooms. |
| `GameplayRates.LaunchesInNumbers` | crates/sectorsync-bench/examples/dynamic_gameplay.rs:175-181 | Launches a tick in numbers: six from every ten rooms. |
| `GameplayRates.MovesInNumbers` | crates/sectorsync-bench/examples/dynamic_gameplay.rs:167-173 | Non-players moved a tick in numbers: 32 in every ten rooms with enough of them. |
| `GameplayRates.PlayersInNumbers` | crates/sectorsync-bench/examples/dynamic_gameplay.rs:453-453 | Players in numbers: 49 in every seven rooms. |
| `GameplayRun.TickSucceeds` | crates/sectorsync-bench/examples/dynamic_gameplay.rs:357-406 | From every state that satisfies the run invariant the next tick succeeds, re-establishes it and leaves no component dirty. |
| `GameplayRun.TransportCountedNext` | crates/sectorsync-bench/examples/dynamic_gameplay.rs:996-1002 | Sent = received packets, encoded = decoded bytes, plans = packets and selected = encoded entities, with nothing skipped or oversized, carried over a tick. |
| `GameplayWorld.TraceIsPeriodic` | crates/sectorsync-bench/examples/dynamic_gameplay.rs:956-963 | Tick 15k recreates room k mod rooms for every k > 0, and no other tick recreates; so the trace agrees with the closed form of the number of recreations. |
| `GameplayWorld.TeardownFindsNothing` | crates/sectorsync-bench/examples/dynamic_gameplay.rs:551-576 | At every tick boundary a teardown finds no queued event and no queued packet, and releases one endpoint per player and one for the server. |
| `GameplayWorld.ReplicateAll` | crates/sectorsync-bench/examples/dynamic_gameplay.rs:396-398 | Replication succeeds in all rooms young enough for their trackers, ends at the next tick boundary with nothing dirty, and sends, encodes, records and acknowledges everything that was selected. |
| `GameplayPhases.ProjectilePhase` | crates/sectorsync-bench/examples/dynamic_gameplay.rs:655-703 | The projectile phase renews the projectile timeline and accounts for each launched and expired projectile. |
| `GameplayPhases.RoutePhase` | crates/sectorsync-bench/examples/dynamic_gameplay.rs:705-730 | A due room routes exactly one event to itself, for the current tick and with the id of room and tick; nothing else at the router changes. |
| `GameplayPhases.ReplicationPhase` | crates/sectorsync-bench/examples/dynamic_gameplay.rs:778-831 | Replication of a room young enough for its tracker leads back to the tick boundary, whatever the index reports. |
| `GameplayPhases.TrackerRoomExactly` | crates/sectorsync-bench/examples/dynamic_gameplay.rs:538-540 | A tracker has room for every handle its room issued exactly while the projectiles launched since creation fit its spare entries. |
| `GameplayWorld.AgeBounded` | crates/sectorsync-bench/examples/dynamic_gameplay.rs:956-963 | A room is never older than the run, nor than one round of recreations over all rooms. |
| `GameplayWorld.FirstRoomAges` | crates/sectorsync-bench/examples/dynamic_gameplay.rs:956-963 | The first room is the last of a round to be recreated, so its age is that of the run until then. |
| `GameplayLimit.FirstRoomTracked` | crates/sectorsync-bench/examples/dynamic_gameplay.rs:893-899 | In such a run every handle the first room issued is tracked by every client, or is of an entity whose turn to move has not come, at every tick boundary up to the limit. |
| `GameplayLimit.PlanNamesRanked` | crates/sectorsync-core/src/replication.rs:1162-1233 | What the index reports first cannot fill a plan in a room of up to 2000 entities, so every listed entity among it is planned for every viewer. |
| `GameplayRoom.Room.constructor` | crates/sectorsync-bench/examples/dynamic_gameplay.rs:451-549 | Creating a room object yields the specified initial state: entities, players, endpoints, sessions, and everything dirty. |
| `GameplayRoom.Room.Teardown` | crates/sectorsync-bench/examples/dynamic_gameplay.rs:551-576 | Drops the router queue and all endpoints of the room, adding what was still queued to the counters. |
| `GameplayRoom.Room.EnqueueAndApplyCommands` | crates/sectorsync-bench/examples/dynamic_gameplay.rs:578-630 | Does nothing in a room that is not due, and otherwise admits all commands, the first player's with high priority, before applying them in queue order. |
| `GameplayRoom.Room.UpdateNpcs` | crates/sectorsync-bench/examples/dynamic_gameplay.rs:632-653 | The NPC loop over the class's number of updates. |
| `GameplayRoom.Room.UpdateProjectiles` | crates/sectorsync-bench/examples/dynamic_gameplay.rs:655-703 | Pops expired projectiles from the front, each from all three stores, then makes the launches of the tick. |
| `GameplayRoom.Room.RouteGameplayEvent` | crates/sectorsync-bench/examples/dynamic_gameplay.rs:705-730 | Routes one event in due rooms that are not idle. |
| `GameplayRoom.Room.DrainGameplayEvents` | crates/sectorsync-bench/examples/dynamic_gameplay.rs:732-760 | Drains ready events; if there were any, writes the first player's state and lists it dirty. |
| `GameplayRoom.Room.Replicate` | crates/sectorsync-bench/examples/dynamic_gameplay.rs:778-930 | The whole replication step of a room: prepares the lookup, plans for every viewer, encodes, sends, records and acknowledges, receives everything, and clears what was dirty. |
| `GameplayRoom.Room.PlanViewer` | crates/sectorsync-core/src/replication.rs:1162-1233 | The scan over the candidates picks the eligible ones in order until the plan is full. |
| `GameplayRoom.Room.EncodePlan` | crates/sectorsync-wire/src/lib.rs:534-656 | The loop over a plan encodes entity by entity, passes over those with nothing to send and stops at the first that does not fit. |
| `RoomCreation.CreationSucceeds` | crates/sectorsync-bench/examples/dynamic_gameplay.rs:451-549 | Under the guarded sizes creation always succeeds and yields a room that satisfies every invariant, with all entities dirty. |
| `RoomTurnover.CreatedExactly` | crates/sectorsync-bench/examples/dynamic_gameplay.rs:451-549 | A new room holds a transform with its own position and a state for each entity, an inventory for each player, all dirty, and nothing else. |
| `RoomCreation.CreationExactly` | crates/sectorsync-bench/examples/dynamic_gameplay.rs:451-549 | A room can be created exactly when its ports fit 16 bits, and has the endpoints the verdict expects exactly when it has at least as many entities as players. |
| `RoomCreation.TeardownSucceeds` | crates/sectorsync-bench/examples/dynamic_gameplay.rs:557-575 | Every endpoint of a room at a tick boundary is registered and has no packet queued when it is released. |
| `RoomCreation.IdsInjective` | crates/sectorsync-bench/examples/dynamic_gameplay.rs:1189-1226 | Within the guarded sizes entity, client and server ids and ports never collide, within a room or across rooms. |
| `RoomCreation.EntityIdsCollideBeyondStride` | crates/sectorsync-bench/examples/dynamic_gameplay.rs:1189-1196 | The entity ids do collide once a room has used a million local numbers. |
| `RoomCreation.EntityIdsDistinctExactly` | crates/sectorsync-bench/examples/dynamic_gameplay.rs:1189-1196 | All entity ids of some rooms are distinct if and only if there is one room at most or the local numbers stay within a million. |
| `RoomCreation.PortsDistinct` | crates/sectorsync-bench/examples/dynamic_gameplay.rs:1218-1226 | All ports of a guarded room are valid and distinct. |
| `RoomInvariants.MoveKeepsCore` | crates/sectorsync-bench/examples/dynamic_gameplay.rs:932-954 | Moving a live entity succeeds, keeps station, index and transform in agreement, keeps dirty tracking complete, writes no other component, at the current tick, and moves nothing else. |
| `RoomInvariants.MoveSteps` | crates/sectorsync-bench/examples/dynamic_gameplay.rs:1236-1244 | A move steps 1.25 and 0.75 units around the world, forward or back by the two low bits of its sequence. |
| `RoomInvariants.PositionsAdvance` | crates/sectorsync-bench/examples/dynamic_gameplay.rs:1228-1234 | Initial positions start in the corner and advance by 17 and 29 units an entity and by 3 and 5 a room, around the world. |
| `RoomInvariants.OppositeMovesCancel` | crates/sectorsync-bench/examples/dynamic_gameplay.rs:1236-1244 | Two moves undo each other exactly when their sequences differ in both direction bits, wrap-around included. |
| `RoomInvariants.AdmitSucceeds` | crates/sectorsync-bench/examples/dynamic_gameplay.rs:587-615 | All players' commands are admitted and queued: none is replayed, rate limited or refused. |
| `RoomInvariants.ApplySucceeds` | crates/sectorsync-bench/examples/dynamic_gameplay.rs:617-629 | Applying the queued commands empties the queues and moves every player exactly once, by its own command. |
| `RoomInvariants.PopTakesFirst` | crates/sectorsync-core/src/command.rs:226-231 | Commands leave the queues in priority order, and first in first out within a priority. |
| `RoomInvariants.AdvanceKeepsCore` | crates/sectorsync-core/src/station.rs:143-145 | Advancing the clock keeps the room invariant and every lookup. |
| `RoomSteps.CommandsSucceed` | crates/sectorsync-bench/examples/dynamic_gameplay.rs:578-630 | The command phase succeeds from every reachable state and leaves the queues empty. |
| `RoomSteps.DueCommandsSucceed` | crates/sectorsync-bench/examples/dynamic_gameplay.rs:587-629 | In a due room every player is moved by exactly its own command of the tick. |
| `RoomSteps.NpcIndexDistinct` | crates/sectorsync-bench/examples/dynamic_gameplay.rs:636-639 | The NPC indices of one tick are valid, distinct and never a player. |
| `RoomSteps.NpcTurnsAdvance` | crates/sectorsync-bench/examples/dynamic_gameplay.rs:638-638 | Turns go round the non-players: the next offset is one further, the next tick 17. |
| `RoomSteps.NpcsSucceed` | crates/sectorsync-bench/examples/dynamic_gameplay.rs:632-653 | Each chosen NPC is moved exactly once and listed, in order, and nobody else. |
| `RoomProjectiles.FrontExpiryIsExact` | crates/sectorsync-bench/examples/dynamic_gameplay.rs:657-668 | On a queue sorted by expiry, popping the front removes exactly the expired projectiles. |
| `RoomProjectiles.PopKeepsCore` | crates/sectorsync-bench/examples/dynamic_gameplay.rs:662-667 | Removing the front projectile clears all three stores and makes its handle stale. |
| `RoomProjectiles.ExpireSucceeds` | crates/sectorsync-bench/examples/dynamic_gameplay.rs:657-668 | Expiry removes the expired front, keeps the invariant and leaves no stale handle in the dirty list. |
| `RoomTurnover.ExpiryRemovesExactly` | crates/sectorsync-bench/examples/dynamic_gameplay.rs:657-668 | Expiry takes exactly the expired projectiles out of the station and all their components out of the store, and changes nothing else there. |
| `RoomProjectiles.LaunchSucceeds` | crates/sectorsync-bench/examples/dynamic_gameplay.rs:670-702 | Launching projectiles always succeeds: ids are fresh and slots are reused or appended. |
| `RoomTurnover.LaunchesExactly` | crates/sectorsync-bench/examples/dynamic_gameplay.rs:670-702 | Each launch adds one entity under a new handle, with the next identifier, its own position and a dirty transform and state of the current tick, lists it, and changes no other entity or component. |
| `RoomProjectiles.ProjectilesSucceed` | crates/sectorsync-bench/examples/dynamic_gameplay.rs:655-703 | After every update the room holds exactly rate x min(5, age) projectiles, launched over the last five ticks. |
| `RoomProjectiles.TimelineExpires` | crates/sectorsync-bench/examples/dynamic_gameplay.rs:657-668 | From age five on exactly one tick's launches expire per tick, before that none. |
| `RoomProjectiles.SlotsWithinCapacity` | crates/sectorsync-bench/examples/dynamic_gameplay.rs:454-454 | A room never holds more than ten projectiles, so it stays within its sixteen spare slots. |
| `RoomReplication.DueEventsDrain` | crates/sectorsync-core/src/event.rs:203-219 | Due events are all drained, in order, and none is kept back. |
| `RoomReplication.EventsSucceed` | crates/sectorsync-bench/examples/dynamic_gameplay.rs:732-760 | Draining a room's due events succeeds and empties its queue; after events the first player's state is written at the current tick and its handle listed, after none nothing changed, and every other component stays as it was. |
| `RoomReplication.DirtyLookupExactly` | crates/sectorsync-bench/examples/dynamic_gameplay.rs:833-842 | For any dirty list with one handle per index, the array lookup is list membership, or the generation is the reset value itself: the only way it can be wrong. |
| `RoomReplication.DirtyLookupIsMembership` | crates/sectorsync-bench/examples/dynamic_gameplay.rs:798-802 | In rooms younger than the reset value the lookup is exactly list membership for every live handle, despite slot reuse and repetitions. |
| `RoomReplication.SaturatedGenerationLooksDirty` | crates/sectorsync-bench/examples/dynamic_gameplay.rs:833-842 | A slot used as often as generations count makes the lookup wrong: the next live entity in it looks dirty though it is not listed. |
| `RoomReplication.UnlistedLooksDirtyExactly` | crates/sectorsync-bench/examples/dynamic_gameplay.rs:833-842 | An unlisted live entity looks dirty exactly at the reset generation in a slot the array covers. |
| `RoomReplication.LookupArrayKeepsSize` | crates/sectorsync-bench/examples/dynamic_gameplay.rs:836-839 | With slots within the capacity the lookup array never grows. |
| `RoomReplication.ClearsExactlyListed` | crates/sectorsync-bench/examples/dynamic_gameplay.rs:825-830 | Clearing a list clears exactly the listed entities' blobs whatever its order and repetitions, so sorting and deduplicating it changes nothing. |
| `RoomReplication.ClearLeavesNothingDirty` | crates/sectorsync-bench/examples/dynamic_gameplay.rs:825-830 | After replication no component in the room is dirty and the list is empty. |
| `RoomReplication.SendSucceeds` | crates/sectorsync-bench/examples/dynamic_gameplay.rs:851-900 | No send is refused: every plan's frame is queued for its player, every entity in it is recorded and acknowledged, and entities, components and bytes are counted as the plans have them dirty. |
| `RoomReplication.ReceiveSucceeds` | crates/sectorsync-bench/examples/dynamic_gameplay.rs:902-930 | Every packet sent is received by the player it was sent to. |
| `RoomReplication.ReplicationSucceeds` | crates/sectorsync-bench/examples/dynamic_gameplay.rs:778-831 | Replication succeeds from every reachable state whose tracker has room, whatever the index reports; everything selected is encoded, sent, received, recorded and acknowledged, and the components and bytes sent are those that were dirty. |
| `RoomFrames.PlanIsSound` | crates/sectorsync-core/src/replication.rs:1162-1233 | A plan names live entities with something to send, each once, and is at most as long as the limit. |
| `RoomFrames.PlanIsComplete` | crates/sectorsync-core/src/replication.rs:1162-1233 | A plan leaves out a listed live candidate only when it is full. |
| `RoomFrames.DeltaExactly` | crates/sectorsync-wire/src/lib.rs:580-612 | An entity is encoded with exactly its dirty transform, state and inventory, which take 39, 23 and 79 bytes besides the 18 of the entity. |
| `RoomFrames.RecordsBounded` | crates/sectorsync-core/src/replication.rs:576-604 | A tracker has at most one record per client for every handle ever issued. |
| `RoomFrames.TrackerAdmits` | crates/sectorsync-core/src/replication.rs:576-683 | While there is room for all issued handles every plan is recorded, adds exactly its own entries, and is fully acknowledged. |
| `ReplicationTracking.RecordsExactlyWhatFits` | crates/sectorsync-core/src/replication.rs:657-683 | The two-step capacity check admits a plan without repetitions exactly when the resulting records fit. |
| `GatewayLaws.AdmitsExactly` | crates/sectorsync-core/src/gateway.rs:624-672 | Over every history of attempts in the order of time a command is admitted if and only if its client is connected, its sequence exceeds all of that client's admitted before, and fewer than the limit were admitted at its tick. |
| `GatewayLaws.ConnectExactly` | crates/sectorsync-core/src/gateway.rs:425-460 | Connecting fails exactly for a new client at a full gateway; otherwise it opens a session for a new client, refreshes that of a known one, and concerns nobody else. |
| `QueueLaws.PushExactly` | crates/sectorsync-core/src/command.rs:294-318 | A command is refused exactly when the queue of its priority is full; otherwise it is the last there, and the other queues stay. |
| `QueueLaws.RegisterExactly` | crates/sectorsync-transport/src/lib.rs:1772-1798 | Registering gives a client the port and an empty queue; who had the port before is a client no more, nobody else is concerned, and every port stays with one client. |
| `QueueLaws.UnregisterExactly` | crates/sectorsync-transport/src/lib.rs:1827-1842 | Exactly a registered client can be unregistered; it leaves with its port, what it had queued is reported, and nobody else is concerned. |
| `QueueLaws.SendExactly` | crates/sectorsync-transport/src/lib.rs:1928-1967 | A packet is sent exactly between registered clients, within the packet size, to a queue with room; it is then the last of that queue and no other queue changes. |
| `QueueLaws.ReceiveExactly` | crates/sectorsync-transport/src/lib.rs:2006-2022 | A registered client receives the packet queued first for it, none exactly from an empty queue, and nobody else is concerned. |
| `QueueLaws.RouteExactly` | crates/sectorsync-runtime/src/lib.rs:3999-4010 | An event is refused exactly when its station is unregistered or full; otherwise it is the last of that station's queue and no other queue changes. |
| `QueueLaws.DrainSplits` | crates/sectorsync-core/src/event.rs:203-219 | Draining treats a queue part by part, so both the drained and the kept events stay in order. |
| `QueueLaws.DrainPartitions` | crates/sectorsync-core/src/event.rs:203-219 | Draining loses and invents no event: exactly the due ones are drained and the others kept. |
| `QueueLaws.DrainTwice` | crates/sectorsync-core/src/event.rs:203-219 | What is kept after two drains is what the later one alone would keep. |
| `StationTable.SpawnEffect` | crates/sectorsync-core/src/station.rs:148-163 | Spawning a fresh id issues a handle that was not live, and changes nothing else. |
| `StationTable.SpawnSlots` | crates/sectorsync-core/src/station.rs:517-534 | A free slot is reused under its current generation, or the table grows by one slot of generation zero. |
| `StationTable.MoveEffect` | crates/sectorsync-core/src/station.rs:245-259 | Moving changes one live entity's position only. |
| `StationTable.RemoveEffect` | crates/sectorsync-core/src/station.rs:293-312 | Removing makes the handle stale, frees its slot under the next generation and changes no other lookup. |
| `StationTable.PerformKeepsTable` | crates/sectorsync-core/src/station.rs:148-312 | Every operation keeps slots, generations, free list and id index consistent, and no generation decreases. |
| `StationTable.HandleReissuedOnlyWhenSaturated` | crates/sectorsync-core/src/station.rs:297-312 | A removed handle is re-issued by the next spawn exactly when its generation has saturated. |
| `StationTable.ChurnedGeneration` | crates/sectorsync-core/src/station.rs:297-312 | Using one slot n times leaves the table with that slot free at generation min(n, 2^32-1). |
| `TopK.ComparatorIsTotalOrder` | crates/sectorsync-bench/examples/priority_top_k.rs:198-204 | The comparator is a total order whose ties are identical candidates, and it prefers higher scores. |
| `TopK.FullSortSorts` | crates/sectorsync-bench/examples/priority_top_k.rs:217-220 | The reference sort returns a sorted permutation. |
| `TopK.SortedUnique` | crates/sectorsync-bench/examples/priority_top_k.rs:206-223 | A multiset of candidates has only one sorted arrangement. |
| `TopK.PrefixOfPartition` | crates/sectorsync-bench/examples/priority_top_k.rs:206-223 | Any arrangement partitioned at k with a sorted prefix has the full sort's first k elements, whatever the order of the rest. |
| `TopK.SelectNth` | crates/sectorsync-bench/examples/priority_top_k.rs:214-214 | In-place quickselect: a permutation of the array partitioned around the given rank. |
| `TopK.SortPrefix` | crates/sectorsync-bench/examples/priority_top_k.rs:215-217 | In-place sort of a prefix, a permutation of it, leaving the rest alone. |
| `TopK.Run` | crates/sectorsync-bench/examples/priority_top_k.rs:225-255 | Over a run the selected total is calls x limit and the checksum is calls x the best score total modulo 2^64, the same in both modes. |
| `TopKBenchmark.Settings.Normalize` | crates/sectorsync-bench/examples/priority_top_k.rs:87-107 | The limit ends at most at the number of candidates, all sizes within the guard, and exactly the requests outside are changed and reported. |
| `TopKBenchmark.CreatedExactly` | crates/sectorsync-bench/examples/priority_top_k.rs:183-196 | Creating candidates one by one yields all of them if and only if there are at most 2^32, and otherwise panics. |
| `TopKBenchmark.BestPositiveExactly` | crates/sectorsync-bench/examples/priority_top_k.rs:183-196 | The selected score total is positive exactly with two or more candidates. |
| `TopKBenchmark.GuardedChecksum` | crates/sectorsync-bench/examples/priority_top_k.rs:225-255 | A guarded run cannot wrap its checksum, which is then positive exactly with two or more candidates. |
| `ManyRooms.BucketIsPrefix` | crates/sectorsync-bench/examples/many_rooms.rs:724-747 | The bucket test selects exactly a prefix of the entities, even where the multiplication saturates. |
| `ManyRooms.ChosenIsPercentage` | crates/sectorsync-bench/examples/many_rooms.rs:724-733 | The selection is ceil(n p / 100) exactly when the product fits a word or all are requested. |
| `ManyRooms.SaturationOverrunsReserve` | crates/sectorsync-bench/examples/many_rooms.rs:799-806 | A concrete unguarded room that overruns its reservation. |
| `ManyRooms.ReserveIsTight` | crates/sectorsync-bench/examples/many_rooms.rs:799-806 | A room with one station uses its reservation to the last place. |
| `ManyRooms.ViewersPerStation` | crates/sectorsync-bench/examples/many_rooms.rs:229-233 | No station serves more viewers than asked for unless the station limit stopped the room from opening enough. |
| `ManyRooms.StationsExactly` | crates/sectorsync-bench/examples/many_rooms.rs:229-233 | The number of stations is the least that serves the players, one at least and the limit at most. |
| `ManyRooms.CreateRoomStations` | crates/sectorsync-bench/examples/many_rooms.rs:666-762 | Every station ends with exactly the entities its capacity was computed for, and with the viewers, moving, updating and dirty entities of its remainder, in order. |
| `ManyRooms.RoomConservation` | crates/sectorsync-bench/examples/many_rooms.rs:666-762 | Players, entities and chosen entities are conserved over the stations. |
| `ManyRoomsGuard.NormalizedExactly` | crates/sectorsync-bench/examples/many_rooms.rs:180-219 | Guarded sizes are workable and within the limits, exactly the requests that already are stay unchanged, and guarding is idempotent. |
| `ManyRoomsGuard.Config.Normalize` | crates/sectorsync-bench/examples/many_rooms.rs:180-219 | The field-by-field guard ends with workable sizes within the limits, and reports a change exactly for requests that are not. |
| `ManyRoomsGuard.PlayerCountsExactly` | crates/sectorsync-bench/examples/many_rooms.rs:221-227 | Rooms use every player count between the bounds and no other. |
| `ManyRoomsGuard.PlayersBringEntities` | crates/sectorsync-bench/examples/many_rooms.rs:235-241 | In a guarded run a room has the fixed number of entities, or each further player brings its own. |
| `RoundRobin.SlotsPartition` | crates/sectorsync-bench/examples/many_rooms.rs:698-712 | The slot sizes of a round-robin distribution add up to the number of items. |
| `RoundRobin.SlotSizeFormula` | crates/sectorsync-bench/examples/many_rooms.rs:685-686 | The number of items with remainder q is the quotient, plus one for the first remainders. |
| `RoundRobin.SlotMembership` | crates/sectorsync-bench/examples/many_rooms.rs:698-712 | An item belongs to the slot of its remainder and to no other. |
| `ViewerSchedule.CreateViewerSchedules` | crates/sectorsync-bench/src/main.rs:1178-1195 | The schedule lists, per phase and station, exactly the clients of that remainder in order. |
| `ViewerSchedule.ClientSlot` | crates/sectorsync-bench/src/main.rs:1178-1195 | Distributing by station and then by phase is one round robin over the pairs. |
| `ViewerSchedule.ClientInOneBatch` | crates/sectorsync-bench/src/main.rs:1178-1195 | Every client occurs in the batch of its own station and phase and in no other. |
| `ViewerSchedule.BatchDistinct` | crates/sectorsync-bench/src/main.rs:1178-1195 | No batch lists a client twice. |
| `ViewerSchedule.BatchesBalanced` | crates/sectorsync-bench/src/main.rs:1178-1195 | Any two batches differ in size by at most one. |
| `ViewerSchedule.TickServes` | crates/sectorsync-bench/src/main.rs:1011-1011 | A tick serves exactly the clients of its phase. |
| `ViewerSchedule.TotalServicesWholeWindows` | crates/sectorsync-bench/src/main.rs:1011-1011 | After whole windows every client was served once per window, whatever a service of it amounts to. |
| `WorkDigest.AddConcatenates` | crates/sectorsync-bench/src/main.rs:274-286 | Adding digests is concatenating the work they stand for, saturation and wrapping included. |
| `WorkDigest.DigestIgnoresOrder` | crates/sectorsync-bench/src/main.rs:1453-1482 | The accumulated digest does not depend on the order of the submitted updates. |
| `WorkDigest.ExpectedReplicationWork` | crates/sectorsync-bench/src/main.rs:1197-1222 | Adding cached phase digests predicts the digest of all ticks' work. |
| `WorkDigest.BenchStats.SubmitEncodedUpdates` | crates/sectorsync-bench/src/main.rs:1453-1482 | Submitting updates accumulates exactly their digest, and selected candidates equal updates. |
| `WorkDigest.PlanTick` | crates/sectorsync-bench/src/main.rs:1115-1160 | A baseline plans every viewer of every station's batch, in order. |
| `WorkDigest.RunWorkSums` | crates/sectorsync-bench/src/main.rs:1197-1222 | For any number of ticks viewers, updates and checksums of a run are those of the services its schedule promises to the clients. |
| `DedupWindow.Window.Offer` | crates/sectorsync-bench/examples/bounded_dedup_index.rs:140-153 | A key is a duplicate exactly when it is among the last W accepted; index and order stay the set and the list of those. |
| `DedupWindow.Window.Evict` | crates/sectorsync-bench/examples/bounded_dedup_index.rs:148-152 | Eviction leaves exactly the last W keys, in the set as in the order. |
| `DedupWindow.Run` | crates/sectorsync-bench/examples/bounded_dedup_index.rs:103-186 | Over any number of ticks accepted + duplicates = operations as reported, the order is the end of the accepted keys, exactly W keys are retained, and the verdict depends on the time budget alone; where the word suffices for the ticks that ran, accepted and order are closed forms. |
| `DedupWindow.TickExactly` | crates/sectorsync-bench/examples/bounded_dedup_index.rs:130-159 | The same for one tick from any number of issued nonces. |
| `DedupWindow.OperateExactly` | crates/sectorsync-bench/examples/bounded_dedup_index.rs:131-155 | One operation obeys the law exactly while the nonces fit a word, or if it is not a fourth one and does not look back over the whole window. |
| `DedupWindow.FreshKeyRejected` | crates/sectorsync-bench/examples/bounded_dedup_index.rs:131-134 | A configuration whose second fresh key repeats the first and is rejected. |
| `DedupWindow.EvictedKeyAccepted` | crates/sectorsync-bench/examples/bounded_dedup_index.rs:135-139 | A configuration in which an evicted key is accepted a second time. |
| `DedupWindow.GuardedRunsLawful` | crates/sectorsync-bench/examples/bounded_dedup_index.rs:207-216 | Every guarded run obeys the law. |
| `DedupWindow.ParseConfig` | crates/sectorsync-bench/examples/bounded_dedup_index.rs:188-227 | Sizes are positive and guarded, exactly the requests outside the guard are changed and reported, and operations are lowered only to the largest number that fits. |
| `SessionAdmission.OperateKeepsCounts` | crates/sectorsync-bench/examples/gateway_session_lookup.rs:156-170 | After every operation the lazily reset counter, read as zero when stale, is the session's true number of admissions in the tick. |
| `SessionAdmission.NextTickKeepsCounts` | crates/sectorsync-bench/examples/gateway_session_lookup.rs:160-163 | At a tick boundary nothing is written, yet every counter reads zero for the next tick. |
| `SessionAdmission.RunAdmitted` | crates/sectorsync-bench/examples/gateway_session_lookup.rs:110-216 | The reported admissions are one per started group of eight operations, per tick. |
| `SessionAdmission.RunChecksum` | crates/sectorsync-bench/examples/gateway_session_lookup.rs:138-185 | The wrapping checksum of a run is the sum, reduced once, of what its operations contribute: an admission twice the session's admissions so far, any other operation its session's station, generation and epoch. |
| `SessionAdmission.IndexAdvances` | crates/sectorsync-bench/examples/gateway_session_lookup.rs:138-142 | Short of saturation each operation addresses the session 17 further than the one before, and each tick starts 31 further. |
| `SessionAdmission.SameSessionExactly` | crates/sectorsync-bench/examples/gateway_session_lookup.rs:138-142 | Unless 17 divides the number of sessions, operations of a tick address the same session exactly when they are a multiple of that number apart. |
| `SessionAdmission.SequencesAccountForAdmissions` | crates/sectorsync-bench/examples/gateway_session_lookup.rs:110-216 | The sessions' last sequences add up to all admissions. |
| `SessionAdmission.Run` | crates/sectorsync-bench/examples/gateway_session_lookup.rs:110-216 | A run ends in the specified state in both modes; the double lookup only adds probes. |
| `SessionAdmission.Benchmark` | crates/sectorsync-bench/examples/gateway_session_lookup.rs:188-199 | For every request the benchmark passes if and only if the time budget sufficed for the guarded ticks: workload, admissions and probes are then as expected in both modes, saturation included. |
| `SessionAdmission.ParseConfig` | crates/sectorsync-bench/examples/gateway_session_lookup.rs:240-260 | All sizes end positive and, without the heavy flag, within the guard and its limit on all operations; exactly the requests outside are changed and reported, and operations are only lowered to the largest number that fits. |
| `TrackerCapacity.ConservativeIsSound` | crates/sectorsync-bench/examples/tracker_capacity_guard.rs:90-104 | Whatever the conservative check admits the exact one admits, and the result fits. |
| `TrackerCapacity.ExactIsComplete` | crates/sectorsync-bench/examples/tracker_capacity_guard.rs:90-104 | For plans without repetitions the exact check admits a plan exactly when the resulting records fit. |
| `TrackerCapacity.ConservativeRejectsRefresh` | crates/sectorsync-bench/examples/tracker_capacity_guard.rs:100-104 | The conservative check does refuse a full tracker the refresh of an entry it holds. |
| `TrackerCapacity.Upsert` | crates/sectorsync-bench/examples/tracker_capacity_guard.rs:112-121 | The upsert loop leaves the union of records and plan, planned entries with the new tick and the others with theirs. |
| `TrackerCapacity.RecordsSentAt` | crates/sectorsync-bench/examples/tracker_capacity_guard.rs:112-121 | Over a run every record tells the call that sent it last: planned entities the latest one, the others none. |
| `TrackerCapacity.CallAdmittedExactly` | crates/sectorsync-bench/examples/tracker_capacity_guard.rs:90-104 | Both checks over a run, in terms of the configuration alone. |
| `TrackerCapacity.Run` | crates/sectorsync-bench/examples/tracker_capacity_guard.rs:64-163 | A run panics at the first refused check and otherwise ends with the predicted records and counters. |
| `TrackerCapacity.ModesAgree` | crates/sectorsync-bench/examples/tracker_capacity_guard.rs:143-146 | Both modes end with the same max(records, plan) records, within the limit. |
| `TrackerCapacity.NeverRefusedExactly` | crates/sectorsync-bench/examples/tracker_capacity_guard.rs:90-104 | A number of calls is never refused exactly under a bound on records and plan in each mode. |
| `TrackerCapacity.GuardedNeverPanics` | crates/sectorsync-bench/examples/tracker_capacity_guard.rs:206-216 | Within the guard no check ever fails, in either mode and for any number of calls. |
| `TrackerCapacity.ParseConfig` | crates/sectorsync-bench/examples/tracker_capacity_guard.rs:181-227 | Sizes are positive and guarded, exactly the others are changed and reported, and calls are lowered only to the largest number that fits. |
| `SessionExpiry.RetainExpired` | crates/sectorsync-bench/examples/gateway_expiry_scan.rs:219-226 | Visiting every session once and dropping what the retaining test rejects leaves exactly the unexpired sessions, unchanged, and counts the expired ones. |
| `SessionExpiry.CollectRemoveExpired` | crates/sectorsync-bench/examples/gateway_expiry_scan.rs:228-242 | Collecting ids and then removing them one by one leaves the same sessions and the same count. |
| `SessionExpiry.ExpiredExactly` | crates/sectorsync-bench/examples/gateway_expiry_scan.rs:219-242 | The collecting test is the negation of the retaining one, and both mean disconnected before the grace window. |
| `SessionExpiry.CreatedExpired` | crates/sectorsync-bench/examples/gateway_expiry_scan.rs:169-183 | Of the generated sessions exactly the second half of every four expires. |
| `SessionExpiry.Run` | crates/sectorsync-bench/examples/gateway_expiry_scan.rs:185-217 | After the calls that started, calls, expired and remaining sessions and collections are closed forms, in both modes. |
| `SessionExpiry.Settings.Normalize` | crates/sectorsync-bench/examples/gateway_expiry_scan.rs:73-86 | All sizes end positive and, without the heavy flag, within the guard, and exactly the requests outside are changed and reported. |
| `ExampleCipher.ApplyExampleCipher` | crates/sectorsync-bench/examples/secure_command_ingress.rs:218-228 | The in-place loop combines every byte with a key byte that depends on key, nonce and position only. |
| `ExampleCipher.StreamSharedExactly` | crates/sectorsync-bench/examples/secure_command_ingress.rs:219-221 | Two keys start the same stream exactly when the second one's nonce is the one computed from the first. |
| `ExampleCipher.InitialStreamsDiffer` | crates/sectorsync-bench/examples/secure_command_ingress.rs:219-221 | Streams under one nonce are equal exactly for equal keys, and under one key exactly for equal nonces. |
| `XorShift.StreamsMeet` | crates/sectorsync-bench/examples/secure_command_ingress.rs:222-225 | Two streams share a word at the same position exactly when they start alike. |
| `XorShift.NineBytesDetermine` | crates/sectorsync-bench/examples/secure_command_ingress.rs:222-227 | Nine low bytes of a stream in a row determine where it started. |
| `ExampleCipher.KnownPacket` | crates/sectorsync-bench/examples/secure_command_ingress.rs:218-228 | One packet worked out, which fixes constants and byte order. |
| `ExampleCipher.SealOfPrefix` | crates/sectorsync-bench/examples/secure_command_ingress.rs:218-228 | A truncated sealed payload opens to the truncated payload. |
| `ExampleCipher.ExampleTag` | crates/sectorsync-bench/examples/secure_command_ingress.rs:230-239 | The accumulator loop computes the tag as a function of key, nonce and payload. |
| `ExampleCipher.KnownTag` | crates/sectorsync-bench/examples/secure_command_ingress.rs:230-239 | One tag worked out, which fixes constants, shifts and byte order. |
| `ExampleCipher.Verify` | crates/sectorsync-bench/examples/secure_command_ingress.rs:188-198 | Verification accepts exactly the tag that signing the same input produces. |
| `ExampleCipher.Deliver` | crates/sectorsync-bench/examples/secure_command_ingress.rs:177-215 | Seal, sign, verify, open: every packet is accepted and its payload intact. |
| `ByteMixing.XorCancels` | crates/sectorsync-bench/examples/secure_command_ingress.rs:224-226 | Mixing with a second byte undoes the first exactly when the bytes are equal. |
| `RetryGuard.NormalizedIsUsable` | crates/sectorsync-bench/examples/reliable_retry_reuse.rs:83-107 | For every request calls x ticks stays within 254, all sizes are at least one, and none is raised above max(request, 1). |
| `RetryGuard.NormalizedExactly` | crates/sectorsync-bench/examples/reliable_retry_reuse.rs:83-107 | Packets and payload only move to their nearest bound; ticks are lowered to the fewest that can use all attempts, and the rate to the largest that then fits. |
| `RetryGuard.NormalizedChangesOnlyUnusable` | crates/sectorsync-bench/examples/reliable_retry_reuse.rs:83-107 | The guard changes exactly the requests that are not usable, and is idempotent. |
| `RetryGuard.Config.Normalize` | crates/sectorsync-bench/examples/reliable_retry_reuse.rs:83-107 | The field-by-field normalization computes these sizes and reports exactly whether it had to. |
| `DecodeGuard.NormalizedFits` | crates/sectorsync-bench/examples/replication_decode_borrowed.rs:73-103 | All sizes but the number of frames only move to their nearest bound; a guarded run decodes at most the total, and one frame per tick more would not fit unless the request or its cap was the limit. |
| `DecodeGuard.NormalizedTwice` | crates/sectorsync-bench/examples/replication_decode_borrowed.rs:73-103 | Normalizing is idempotent. |
| `DecodeGuard.NormalizedChangesOnlyUnusable` | crates/sectorsync-bench/examples/replication_decode_borrowed.rs:73-103 | The guard changes exactly the requests outside the caps or the payload total. |
| `DecodeGuard.Config.Normalize` | crates/sectorsync-bench/examples/replication_decode_borrowed.rs:73-103 | The field-by-field normalization ends within all caps and the payload total, and reports a change exactly for requests that do not. |
| `BatchScan.SingleScan` | crates/sectorsync-bench/examples/budget_batch_scan.rs:118-133 | One pass finds the saturated total and the first oversized packet. |
| `BatchScan.ScansAgree` | crates/sectorsync-bench/examples/budget_batch_scan.rs:118-151 | Both scans agree on total and first oversized packet, on every batch. |
| `BatchScan.GuardScan` | crates/sectorsync-bench/examples/budget_batch_scan.rs:188-215 | The guarded sizes keep inspections and payload work within their totals despite the fallbacks to one, are the largest that do, and a change is reported exactly for requests outside. |

## Left out

- GameplayVerdict.VerdictExactly: does not model the verdict's checks on released queue capacity, retained component
  slots, point memberships, and world and client checksums, which depend on allocator, cell index and hash details.
- GameplayMachine.Benchmark: the verdict it returns is that of the modelled checks, without the same five.
- GameplayRun.RunSucceeds: expectations that are not modelled are those on the transport's lock, on validating a
  received packet, which was just encoded, on encoding, which fails only for a budget below the header or counts beyond
  16 bits, and on conversions that 64-bit words and bounded room numbers always meet.
- GameplayLimit.TrackersLastExactly: says nothing exact about rooms of more than 2000 entities, where plans of 160
  entities may leave some untracked for ever and a run may last longer; no granted request has more than 512.
- GameplayLimit.TrackerOverflows: the failing run has an index that reports every handle, in an order that depends on
  the tick; what the range test and the cells report for the actual positions is not modelled.
- GameplayLimit.FirstRoomTracked: up to 2000 entities, as above.
- GameplayMachine.CollectStats: collects what the modelled checks read; retained capacities, point memberships and the
  world checksum are not collected.
- GameplayMachine.Run: decides the modelled checks; decoding and checksums are not modelled.
- GameplayRun.TickSucceeds: as for whole runs, validating a received packet is not an expectation of the model.
- GameplayWorld.ReplicateAll: validating a received packet is not an expectation of the model.
- GameplayPhases.ReplicationPhase: validating a received packet is not an expectation of the model.
- RoomReplication.ReplicationSucceeds: validating a received packet is not an expectation of the model.
- GameplayRoom.Room.Teardown: does not count the released queue capacity, which is the allocator's.
- GameplayRoom.Room.Replicate: a frame is its length and its deltas, with identifier, component, version and payload;
  the bytes, the owner's epoch and decoding are not modelled, and a queued packet is its length. A tracker record is
  its client and handle; the ticks of sending and acknowledgement are not modelled, nor are the planner's statistics
  other than the selected entities.
- GatewayLaws.AdmitsExactly: sessions that disconnected, or that expired, are not modelled; no workload here has any.
- GatewayLaws.ConnectExactly: the same, and the generation and the route of a session.
- QueueLaws.PushExactly: a barrier, during which commands are buffered or refused, is never raised in a gameplay run.
- Spatial cells, policies and the range test: the reported handles are an input.
- The library types a room owns are values of the room's fields, since no other owner can observe an update; the
  registration tokens of the shared transport hub and its lock are not modelled.
- `Room.ClearDirty` iterates the dirty list as it stands: sorting and deduplicating it first is replaced by the proof
  that order and repetition do not matter (`ClearsExactlyListed`).
- Event router: the critical and best-effort queues and the barrier buffer, which the gameplay run never uses.
- `f32` arithmetic in general, and the overflow of the unsaturated sums in entity positions and command sequences,
  which an admissible run never reaches.
- WorkDigest.Run: the planner baseline, the reference selection it is compared with, and the packet bytes; the
  checksum of a viewer's work is an arbitrary function of client and update count.
- WorkDigest.ExpectedReplicationWork: covers the three baselines without a planner.
- WorkDigest.BenchStats.SubmitEncodedUpdates: the payload counters and the packet batch, which no digest reads.
- Command queues, gateway dispatch, hotspot and split scheduling and the event router exercise of the main benchmark.
- TopK.SelectNth: the library's selection algorithm is replaced by a quickselect with the documented contract, and its
  sort by an insertion sort; only the contract matters to the result.
- DedupWindow.Run: the saturating checksum counter, which no verdict reads.
- TrackerCapacity.Run: the checksum, which no verdict reads, and the conversion of entity numbers to 32 bits, which
  fails only for sizes that the capacity check refuses as well.
- SessionAdmission.Run: a session record is replaced in the map rather than updated through a reference into it.
- TopKBenchmark.Benchmark: the two time budgets are conditions, not sizes.
- The expected number of parallel lanes, the argument guards of the remaining benchmarks, and parsing of argument
  strings.
- Wall-clock time, latency percentiles, printing, exit codes, threads and sockets.
