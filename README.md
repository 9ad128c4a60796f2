# Daladala: a verified model of the bus-route environment and its 3D frontend

Daladala is a reinforcement-learning environment. A minibus drives a fixed
29-cell route across a 15 x 15 grid, from Ubungo at (0, 14) to Posta at
(14, 0), one cell per step. Along the way it picks up and drops off
passengers at four high-demand stops. On every reset, three police
checkpoints and four traffic lights are scattered over the other cells. At
each step the agent chooses one of five actions: Move, Pickup, Dropoff, Stop
or SpeedUp. The action is scored against the hazards of the cell the bus
leaves. A 3D frontend keeps the last state the server sent in a store and
draws the bus by converting grid cells to scene coordinates.

The project has three modules, one per source file:

- `Daladala` (`daladala_env.dfy`) models the environment.
  - The pure specification is `EnvState`, `ResetState` and `Transition`, together with the invariant `Valid` and the episode function `Run`.
  - The class `Env` holds the environment's fields. Its `Reset` and `Step` methods update them in place, and each is proved to follow the specification.
  - The lookahead loops of the observation are a `while` loop, `DistanceAhead`, proved against the recursive `FirstHazard`.
  - The random draws of a reset are arguments of `Reset`, constrained by `ResetDraws`. They are the sampled hazard indices, the light colours and the per-stop seeds.
- `GameStore` (`game_store.dfy`) models the zustand store of the frontend.
  - The class `Store` holds the RL fields and the view flags.
  - A server message is merged field by field: a field the message carries replaces the old value, and a missing one keeps it.
  - `Store` has the setters and the reset into a new episode.
  - The action-name and action-colour lookups are functions of the module, outside the class.
- `GridWorld` (`grid_to_world.dfy`) models the coordinate helpers:
  - grid-to-scene conversion, the source's scene-to-grid conversion, and a corrected inverse (`WorldToGridInverse`);
  - linear interpolation;
  - the action descriptions.

## Model

| member | source | states |
|---|---|---|
| Daladala.RouteAt | environment/daladala_env.py:17 | the route has 29 cells: cell i is (i, 14) for i < 15 and (14, 28 - i) after |
| Daladala.RouteShape | environment/daladala_env.py:17 | the route starts at (0, 14), turns at (14, 14), ends at (14, 0), stays on the grid, and each step goes one cell right or one cell up |
| Daladala.RouteDistinct | environment/daladala_env.py:17 | no cell appears twice on the route |
| Daladala.StopsOnRoute | environment/daladala_env.py:17-18 | every high-demand stop lies on the route |
| Daladala.Available | environment/daladala_env.py:26 | the hazard pool holds exactly the route cells that are not stops, without repeats |
| Daladala.AvailableSize | environment/daladala_env.py:43-44 | the pool has 25 cells, so the `len(available) >= 7` guard always holds |
| Daladala.StopsAreSafe | environment/daladala_env.py:43-51 | in a valid state no high-demand stop holds a red light or a police checkpoint |
| Daladala.Picked | environment/daladala_env.py:45-47 | the sampled cells come from the pool, one per index, and are distinct when the indices are |
| Daladala.SeedStops | environment/daladala_env.py:53-58 | after the seeding, every stop and nothing else has a waiting count, each stop its own seed |
| Daladala.DrawLightStates | environment/daladala_env.py:51 | the light states are keyed by exactly the lights; with distinct lights each gets its own draw |
| Daladala.ResetState | environment/daladala_env.py:32-58 | after a reset the step count, passengers, money, position, speed and light cycle are 0, and `fined` is false |
| Daladala.ResetStateValid | environment/daladala_env.py:43-58 | a reset makes the state valid: 3 police and 4 lights on 7 distinct non-stop route cells, lights red or green with their drawn state, each stop seeded with 0..10 |
| Daladala.SampledHazardsPlaced | environment/daladala_env.py:43-47 | the first three sampled cells and the last four make 7 distinct hazards off the stops |
| Daladala.DrawnStatesValid | environment/daladala_env.py:49-51 | drawing 0 or 1 per distinct light gives every light, and nothing else, a red or green state |
| Daladala.SeededStopsValid | environment/daladala_env.py:54-58 | seeds in 0..10 give every stop, and nothing else, 0..10 waiting passengers |
| Daladala.ResetStateParts | environment/daladala_env.py:34-58 | the reset state has the pool's sampled cells as hazards and the seeded stop counts |
| Daladala.PickupAmount | environment/daladala_env.py:173-174 | a pickup boards at least one passenger and at most the seats left: at least 3 and everyone waiting, unless the bus fills up |
| Daladala.DropAmount | environment/daladala_env.py:192 | a dropoff lets off between one passenger and all of them: everyone when at most 3 ride, otherwise all but (n - 1) / 2 |
| Daladala.Act | environment/daladala_env.py:150-225 | the action phase never changes the position, step count, fine, hazards or light cycle |
| Daladala.PoliceCheck | environment/daladala_env.py:227-239 | at a checkpoint, more than 40 aboard costs 50, sets `fined` and ends the episode; 34..40 aboard costs 20 and sets `fined`; nothing else changes |
| Daladala.CompletionBonus | environment/daladala_env.py:245-249 | a step that ends the episode earns 100, plus 50 exactly when at most 33 ride and the bus is unfined; any other step earns nothing |
| Daladala.Advance | environment/daladala_env.py:137-147 | the step count and light cycle grow by 1; the position advances one cell, except that it stays put on the last cell |
| Daladala.Transition | environment/daladala_env.py:131-252 | a step adds 1 to the step count; `pos_idx` becomes min(pos_idx + 1, 28); the last cell ends the episode; truncation is exactly step count >= 350; a fine is never lifted, money never falls, and the hazards stay |
| Daladala.Finish | environment/daladala_env.py:241-252 | the last phase adds 1 plus the completion bonus to the reward, and truncates exactly at 350 steps |
| Daladala.StepKeepsValid | environment/daladala_env.py:131-252 | a step keeps the state valid: passengers in 0..50, speed in 0..3, position on the route, money a non-negative multiple of 1000, stop counts in 0..10 |
| Daladala.ActKeepsValid | environment/daladala_env.py:170-225 | every action keeps the state valid |
| Daladala.PickupEffect | environment/daladala_env.py:170-187 | a pickup at a stop with free seats boards 1 to (50 - passengers) riders, at least min(3, seats left), and lowers that stop's count by as many, never below 0; elsewhere nothing changes |
| Daladala.DropoffEffect | environment/daladala_env.py:189-202 | a dropoff at a stop with riders lets 1 to all of them off and earns 1000 per passenger; elsewhere nothing changes |
| Daladala.SpeedAndLoadEffect | environment/daladala_env.py:204-225 | Stop lowers the speed by 1, floored at 0. SpeedUp raises it by 1, capped at 3, only away from hazards and with at most 40 aboard. Only Pickup and Dropoff change the load, and only Dropoff the money |
| Daladala.OverloadedSpeedUpCrashes | environment/daladala_env.py:223-225 | SpeedUp with more than 40 aboard ends the episode |
| Daladala.PoliceRules | environment/daladala_env.py:232-239 | reaching police with more than 40 aboard is fined and ends the episode; with more than 33 it is fined; otherwise the fine stays as it was |
| Daladala.TerminationCauses | environment/daladala_env.py:140-239 | a step ends the episode exactly when it starts on the last cell, speeds up overloaded, or reaches police overloaded |
| Daladala.RewardParts | environment/daladala_env.py:150-249 | a step's reward is the action's score, less the police penalty, plus 1, plus the completion bonus |
| Daladala.StopIsBestAtHazard | environment/daladala_env.py:161-225 | at a red light or checkpoint with no crash possible, Stop earns strictly more than any other action |
| Daladala.RewardBounds | environment/daladala_env.py:150-249 | every step's reward lies in -57..176 |
| Daladala.CrashCollectsArrivalBonus | environment/daladala_env.py:214-249 | as written, an overloaded SpeedUp on a clear cell ends the episode and, with the completion bonus, earns 71 |
| Daladala.Run | environment/daladala_env.py:131-147 | a run of steps keeps the position on the route |
| Daladala.RunKeepsValid | environment/daladala_env.py:131-252 | every state of a run from a valid state is valid |
| Daladala.RunProgress | environment/daladala_env.py:137-147 | after n steps: the step count has grown by n and the position is min(start + n, 28); money has not fallen, a fine is kept, and the hazards are unchanged |
| Daladala.RunAppend | environment/daladala_env.py:131-258 | running a + b equals running a and then b |
| Daladala.EpisodeEndsAtLastCell | environment/daladala_env.py:144-147 | from the first cell, the 29th step always ends the episode |
| Daladala.TruncatedAtBudget | environment/daladala_env.py:252 | from a reset, step n is truncated exactly when n >= 350 |
| Daladala.StepKeepsEarningsWithin | environment/daladala_env.py:137-198 | a step keeps the bound that fares earned plus one fare per passenger aboard stay within ten fares per stop left behind: only the step leaving a stop can board, at most ten, and a dropoff turns riders into fares one for one |
| Daladala.RunKeepsEarningsWithin | environment/daladala_env.py:131-258 | the bound holds along every run from a valid state within it |
| Daladala.MoneyBoundedAfterReset | environment/daladala_env.py:32-258 | after a reset, whatever the actions and however many steps, money stays in 0..40000, below the 150000 the observation divides by |
| Daladala.ArrivalRewardOnlyAtDestination | environment/daladala_env.py:241-249 | the corrected reward equals the written one at the destination and carries no bonus on any earlier step |
| Daladala.CrashEarnsNoArrivalBonus | environment/daladala_env.py:214-249 | under the corrected bonus an overloaded crash on a clear cell ends the episode and earns -29 |
| Daladala.LookaheadUnique | environment/daladala_env.py:97-109 | at most one distance meets the lookahead's definition |
| Daladala.FirstHazard | environment/daladala_env.py:98-102 | the scanned distance lies between the start of the scan and 5 |
| Daladala.FirstHazardIsLookahead | environment/daladala_env.py:97-109 | the scan returns the distance to the first hazard within the next four cells, or 5 |
| Daladala.FirstHazardPastEnd | environment/daladala_env.py:99 | beyond the end of the route the scan finds nothing and returns 5 |
| Daladala.DistanceAhead | environment/daladala_env.py:97-109 | the loop with early exit returns the scanned first-hazard distance |
| Daladala.ObserveState | environment/daladala_env.py:62-110 | the observation reports the cell, load, money, speed, the hazards here and one cell ahead, waiting passengers at a stop, both lookahead distances and the step count |
| Daladala.ObservationRanges | environment/daladala_env.py:112-127 | in a valid state the observed cell lies in 0..14, the load in 0..50, the speed in 0..3, the light state in {0, 1}, the waiting count in 0..10 and both distances in 1..5, and at a stop the bus never has to stop |
| Daladala.Env.constructor | environment/daladala_env.py:20-30 | a new environment has no hazards and a light cycle of 0 |
| Daladala.Env.Observe | environment/daladala_env.py:62-129 | `_get_obs` describes the current fields |
| Daladala.Env.Reset | environment/daladala_env.py:32-60 | the fields become `ResetState` of the old ones; the result is valid and its observation describes it |
| Daladala.Env.Reinitialise | environment/daladala_env.py:33-58 | the field assignments of a reset produce `ResetState` |
| Daladala.Env.ClearCounters | environment/daladala_env.py:34-40 | the counters are zero and `fined` is false |
| Daladala.Env.PlaceHazards | environment/daladala_env.py:43-51 | police get the first three sampled cells, lights the other four, each light its drawn state |
| Daladala.Env.Step | environment/daladala_env.py:131-258 | the fields become `Transition` of the old ones, the returned reward and flags are the transition's, validity is kept, and the observation describes the new fields |
| Daladala.Env.MoveBus | environment/daladala_env.py:137-147 | the automatic move equals `Advance`, and reports whether the bus was already on the last cell |
| Daladala.Env.ScoreAction | environment/daladala_env.py:150-225 | the action phase changes the fields and reward exactly as `Act` says |
| Daladala.Env.CheckPolice | environment/daladala_env.py:227-239 | the safety phase changes the fields, reward and termination exactly as `PoliceCheck` says |
| Daladala.Env.Conclude | environment/daladala_env.py:241-252 | the progress and completion rewards and the truncation flag are those of `Finish` |
| GameStore.MergeEmpty | 3d-render/src/store/gameStore.ts:95-117 | a payload with no fields keeps every old value |
| GameStore.MergeSnapshot | 3d-render/src/store/gameStore.ts:95-117 | a payload with every field replaces all 21 fields |
| GameStore.MergeIdempotent | 3d-render/src/store/gameStore.ts:95-117 | receiving the same payload twice is the same as receiving it once |
| GameStore.MergeOverlay | 3d-render/src/store/gameStore.ts:95-117 | two payloads in a row act as one in which the later wins field by field |
| GameStore.MergeFieldByField | 3d-render/src/store/gameStore.ts:97-117 | for every one of the 21 fields, whatever the payload's other fields: a field the payload carries replaces the old value, and a missing one keeps it |
| GameStore.MergeTakesFalsyValues | 3d-render/src/store/gameStore.ts:97-117 | step, passengers and terminated sent as 0 or false are taken, not replaced by the old values |
| GameStore.InitialStateMatchesEnvironment | 3d-render/src/store/gameStore.ts:58-80 | the initial state has the first route cell (0, 14) as position, capacity 50, episode 1, action 0, no passengers and is not terminated |
| GameStore.Store.constructor | 3d-render/src/store/gameStore.ts:82-88 | the store starts in the initial state, disconnected, not started, unmuted, rotation 0, chase camera |
| GameStore.Store.UpdateFromRL | 3d-render/src/store/gameStore.ts:90-121 | the RL fields are merged from the message's source; connected and started become true; mute, rotation and camera are unchanged |
| GameStore.Store.UpdatePosition | 3d-render/src/store/gameStore.ts:123 | only the position and rotation change |
| GameStore.Store.SetSpeed | 3d-render/src/store/gameStore.ts:125 | only the speed changes |
| GameStore.Store.SetCameraMode | 3d-render/src/store/gameStore.ts:127 | only the camera mode changes |
| GameStore.Store.SetHasStarted | 3d-render/src/store/gameStore.ts:129 | only the started flag changes |
| GameStore.Store.ToggleMute | 3d-render/src/store/gameStore.ts:131 | the mute flag is negated and nothing else changes, so two toggles restore it |
| GameStore.Store.Reset | 3d-render/src/store/gameStore.ts:133-139 | every RL field is back at its initial value except the episode, which is the old one + 1; all flags and view settings are kept |
| GameStore.GetActionName | 3d-render/src/store/gameStore.ts:168-170 | the result is the pair ("Unknown", "Haijulikani") exactly when the action is outside 0..4 |
| GameStore.GetActionColor | 3d-render/src/store/gameStore.ts:172-174 | the result is "#6b7280" exactly when the action is outside 0..4 |
| GameStore.ActionLabelsDistinct | 3d-render/src/store/gameStore.ts:143-158 | the five actions have distinct English names, Swahili names and colours |
| GameStore.NamesMatchDescriptions | 3d-render/src/store/gameStore.ts:143-149 | the store's English names agree with the log descriptions for every action number |
| GridWorld.GridToWorld | 3d-render/src/lib/gridToWorld.ts:24-46 | the height is 0.5; grid x is scene x / 10 + 7 and grid y is 7 - scene z / 10; the grid maps into [-70, 70] |
| GridWorld.GridToWorldInjective | 3d-render/src/lib/gridToWorld.ts:24-46 | different grid positions map to different scene points |
| GridWorld.RouteLandmarks | 3d-render/src/lib/gridToWorld.ts:36-38 | (0, 14), (14, 14) and (14, 0) map to (-70, -70), (70, -70) and (70, 70) |
| GridWorld.RouteStepsAreOneCell | 3d-render/src/lib/gridToWorld.ts:24-46 | each step of the environment's route moves the bus 10 scene units along x or along z |
| GridWorld.Round | 3d-render/src/lib/gridToWorld.ts:59-60 | `Math.round` gives the integer within half a unit, halves rounded up |
| GridWorld.Clamp | 3d-render/src/lib/gridToWorld.ts:62-65 | the result lies in 0..14, equals the input inside, and is pinned to the border outside |
| GridWorld.WorldToGrid | 3d-render/src/lib/gridToWorld.ts:55-66 | both coordinates lie in 0..14 and are the nearest grid index to scene x / 0.4 + 7.5 and scene z / 8 + 7.5 |
| GridWorld.WorldToGridMissesStart | 3d-render/src/lib/gridToWorld.ts:55-66 | the scene point of the route start (0, 14) converts back to (0, 0) |
| GridWorld.WorldToGridInverse | 3d-render/src/lib/gridToWorld.ts:55-66 | the corrected conversion: the nearest grid index to scene x / 10 + 7 and 7 - scene z / 10, clamped |
| GridWorld.WorldToGridInverseRoundTrip | 3d-render/src/lib/gridToWorld.ts:55-66 | the corrected conversion returns every grid cell from its scene point |
| GridWorld.LerpPosition | 3d-render/src/lib/gridToWorld.ts:101-111 | t = 0 gives `current`, t = 1 gives `target`, and t in [0, 1] stays between them in each coordinate |
| GridWorld.Lerp | 3d-render/src/lib/gridToWorld.ts:106-110 | one coordinate: the endpoints at t = 0 and t = 1, and between them for t in [0, 1] |
| GridWorld.LerpStill | 3d-render/src/lib/gridToWorld.ts:101-111 | interpolating from a point to itself stays at that point |
| GridWorld.GetActionDescription | 3d-render/src/lib/gridToWorld.ts:116-125 | the result is "Unknown" exactly when the action is outside 0..4 |
| GridWorld.DescriptionsDistinct | 3d-render/src/lib/gridToWorld.ts:116-125 | the five actions have distinct descriptions |

## Left out

- The float32 observation vector and its normalisation (environment/daladala_env.py:112-127) are not modelled. `Observation` keeps the integer quantities behind its 14 entries.
- Rendering is not modelled: `render_frame`, `render` and the render mode.
- The gymnasium spaces, `metadata`, and the `seed` argument handed to the base class's `reset` are not modelled.
- `np.random.choice`, `np.random.randint` and `hash(stop) % 11` are not computed. They are arguments of `Env.Reset`, constrained to distinct pool indices, values in {0, 1} and values in 0..10.
- Money and rewards are Python floats built only from whole numbers, so they are modelled as `int`.
- Some descriptions of the route speak of 30 cells. The code builds 29, and the model follows the code.
- Daladala.Env.constructor: does not give the counters a value. The Python constructor leaves them unset until the first `reset`, and `Env.Step` therefore requires a valid state, that is, a reset first.
- Daladala.ObservationRanges: does not bound the money or the step count, which the observation divides by 150000 and by 350. Money is bounded separately, by MoneyBoundedAfterReset. The step count has no bound, because `step` has no guard against being called after the episode ends or is truncated.
- Daladala.Run: states only that the position stays on the route. Its other properties are the lemmas RunProgress, RunKeepsValid and RunAppend.
- GameStore.Merge has no contract of its own. Its meaning is stated by MergeFieldByField, MergeEmpty, MergeSnapshot, MergeIdempotent, MergeOverlay and MergeTakesFalsyValues, and used by Store.UpdateFromRL.
- GameStore numbers are modelled as `int`, and the store's rotation as `real`. JavaScript floating-point values, non-integer action numbers and `NaN` are not modelled.
- A `data.data` that is truthy but not an object is not modelled. The model's message either nests a payload or carries its fields at the top level.
- The rest of the frontend is not modelled: `gridDistance` and `calculateHeading` (square root and arctangent), the React components and the network hooks.
- GridWorld works over exact reals. Floating-point rounding of `(x - 7) * 10`, of the divisions in `worldToGrid` and of the interpolation is not modelled.

## Findings

| source | as written | input that shows it | evidently intended | confidence | as-written member | corrected member |
|---|---|---|---|---|---|---|
| 3d-render/src/lib/gridToWorld.ts:55-66 | `worldToGrid` divides scene x by 0.4 and scene z by 8, adds 7.5 to both, and does not flip z | `gridToWorld(0, 14)` is (-70, 0.5, -70), which `worldToGrid` sends to (0, 0) instead of (0, 14) | convert a scene position back to its grid cell: divide by 10, add 7, and flip z as `gridToWorld` does | medium, not executed | GridWorld.WorldToGridMissesStart | GridWorld.WorldToGridInverseRoundTrip |
| environment/daladala_env.py:241-249 | every step that sets `terminated` earns the +100 completion bonus, including an overloaded crash (:223-225) and an overloaded police stop (:233-236) | an overloaded SpeedUp on a clear cell with no police ahead earns -30 + 1 + 100 = 71, far more than a Move (2 + 1 = 3) | pay the bonus for reaching the destination only, that is, for a step that starts on the last route cell | medium, not executed | Daladala.CrashCollectsArrivalBonus | Daladala.ArrivalRewardOnlyAtDestination |

`Env.Step` and `Transition` keep the reward as written, since they model the program. The corrected reward is `ArrivalReward`, which differs from it only in the completion bonus.
