# Railway ERTMS simulator: the tick engine

This project models the simulation engine of the railway signalling
simulator `RailwaySimulator`. It covers:

- the trains, the four fixed block sections ("cantons") of a 1200 m line and
  the line's balises;
- the bounded event log and the running flag;
- the 100 ms tick;
- the preset scenarios.

One tick does two things:

1. **Trains.** Every train goes through automatic train protection (ATP),
   using the blocks as they were before the tick:
   - the balise check;
   - the aspect of the next block whose start lies within 100 m ahead;
   - the movement-authority check;
   - the kinematics, with the wrap-around at the end of the line.
2. **Blocks.** Every block recomputes two things from the trains captured
   before the tick:
   - whether it is occupied;
   - its aspect (red, yellow or green), from the blocks before the tick.

The project has six modules:

- `RailTypes` holds the entities.
- `Track` holds the pure lookups. The JavaScript `find`/`some` becomes
  `FindFirst`, which returns the index of the first match.
- `EventLog` holds the events, `addLog` and the log's fold over many events.
- `Protection` holds the per-train update as functions and lemmas.
- `Signaling` holds the block recompute as functions and lemmas.
- `Simulation` holds the presets, the tick's state invariant, a few
  single-tick vectors and the class `Simulator`:
  - its fields are the component's state (`running`, `trains`, `blocks`,
    `log`) plus the fixed `balises`;
  - `Tick` changes that state step by step, as the component does, and is
    proved equal to the functions above;
  - each step of a train runs in the component's order: balise, signal rule,
    authority rule, move. Each step logs its events as it goes.

Behaviour the model keeps from the code:

- **Pre-tick snapshots.** Both halves of a tick read the render's `trains`
  and `cantons`, not the trains this tick produces. A block therefore
  reflects where the trains were before the tick. A block's aspect comes
  from the blocks before the tick, so yellow lags occupancy by one tick
  (`AspectLagsOneTick`).
- **The movement-authority test** is `position + 50 > position + ma`. Position
  cancels out, so the test is `ma < 50` (`MaTriggered`).
  - `ma` never changes.
  - Every preset has `ma >= 200`.
  - So no preset ever triggers the rule (`PresetsNeverReachAuthorityLimit`).
- **Balises only log.** The balise speed limit is reported but never enforced
  (`BaliseNeverChangesTrain`, `BaliseOnlyLogs`).
- **Lookups take the first match in list order**, and a block whose end no
  block starts at is never yellow (`NoFollowerNeverYellow`).

Two consequences of the code worth stating plainly:

- **Block occupancy** is computed from the trains as they were before the
  tick (`RailwaySimulator.jsx:169`), not from the positions the tick
  produces.
- **Loading a preset** sets the trains, clears the log and pauses; the blocks
  keep their occupancy and aspects (`LoadScenario`).

## Model

| member | source | states |
|---|---|---|
| Track.Dist | src/components/RailwaySimulator.jsx:108-112 | `Math.abs` of a difference: non-negative and equal to one of the two differences |
| Track.FindFirst | src/components/RailwaySimulator.jsx:108-110 | `find`: when it returns an index, the predicate holds there and fails at every earlier index; it returns nothing iff the predicate fails everywhere |
| Track.NearBalise | src/components/RailwaySimulator.jsx:108-110 | the chosen balise is the first in list order within 5 m; none iff no balise is within 5 m |
| Track.NextBlockAhead | src/components/RailwaySimulator.jsx:117-120 | the chosen block is the first whose start lies strictly between the position and 100 m beyond; none iff there is no such block |
| Track.FollowingBlock | src/components/RailwaySimulator.jsx:180 | the chosen block is the first whose start equals the given end; none iff there is no such block |
| Track.DetectionOnSpacedLayout | src/components/RailwaySimulator.jsx:107-114 | on balises at least 6 m apart, the two-stage check (first within 5 m, then within 1 m) reports iff some balise is within 1 m |
| EventLog.SeverityOf | src/components/RailwaySimulator.jsx:122-148 | an event is logged as a warning iff it is an ATP stop, an ATP yellow reduction, an authority stop or an authority braking |
| EventLog.Prepend | src/components/RailwaySimulator.jsx:39-42 | `addLog`: the new entry is first, the length is min(15, old length + 1), and the rest is a prefix of the old log |
| EventLog.Logged | src/components/RailwaySimulator.jsx:39-42 | no contract of its own; repeated `addLog`, properties in `LoggedSnoc`, `LoggedAppend`, `LoggedNewestFirst`, `LoggedBounded` |
| EventLog.LoggedSnoc | src/components/RailwaySimulator.jsx:39-42 | logging one more event is one more `addLog` |
| EventLog.LoggedAppend | src/components/RailwaySimulator.jsx:39-42 | logging two batches in turn is logging their concatenation |
| EventLog.LoggedNewestFirst | src/components/RailwaySimulator.jsx:39-42 | after any events, the log is those events newest first, followed by the old log, cut to 15 entries |
| EventLog.LoggedBounded | src/components/RailwaySimulator.jsx:39-42 | the log never exceeds 15 entries, and the latest event is its first entry |
| Protection.AheadAspect | src/components/RailwaySimulator.jsx:117-123 | no aspect iff no block starts within the 100 m window; otherwise the aspect of the first such block |
| Protection.MaTriggered | src/components/RailwaySimulator.jsx:141 | the authority test as written holds iff `ma < 50`, whatever the position |
| Protection.UpdateKeepsRange | src/components/RailwaySimulator.jsx:122-159 | from a speed in [0, maxSpeed] and a non-negative position, the new speed stays in [0, maxSpeed] and the new position in [0, 1200] |
| Protection.BaliseNeverChangesTrain | src/components/RailwaySimulator.jsx:103-160 | the new speed and position do not depend on the balises |
| Protection.BaliseOnlyLogs | src/components/RailwaySimulator.jsx:107-114 | the balises contribute only the detection message, placed before all other messages of the train |
| Protection.DetectionLogged | src/components/RailwaySimulator.jsx:107-114 | when the first balise within 5 m is within 1 m, its limit is logged; otherwise no detection message is logged |
| Protection.RedAspectBrakes | src/components/RailwaySimulator.jsx:123-127 | with red ahead and `ma >= 50`, the speed is max(0, s-5); the stop warning is logged iff max(0, s-5) is 0 and s > 0; there is no yellow warning |
| Protection.YellowAspectCaps | src/components/RailwaySimulator.jsx:128-132 | with yellow ahead and `ma >= 50`, the speed is min(60, s); the reduction warning is logged iff s > 60; there is no red warning |
| Protection.ClearAspectAccelerates | src/components/RailwaySimulator.jsx:133-138 | with green or no block ahead and `ma >= 50`, the speed is min(max, s+2) when below max and unchanged otherwise; there are no signal warnings |
| Protection.MovementAuthorityRule | src/components/RailwaySimulator.jsx:140-148 | the final speed is the signal rule's result minus 3, floored at 0, iff `ma < 50`; the authority stop warning is logged iff the rule fired, the result is 0 and the old speed was above 5; the braking warning is logged iff the rule fired, there was no stop, the old speed was above 10 and the result is more than 2 below it |
| Protection.AdvanceOrWrap | src/components/RailwaySimulator.jsx:150-159 | id, maxSpeed and `ma` are kept; the position is old + speed/36 when that is at most 1200, and otherwise exactly 50 with a lap-restart message (logged iff it wrapped) |
| Protection.DetectionEvents | src/components/RailwaySimulator.jsx:107-114 | no contract of its own; properties in `DetectionLogged`, `BaliseOnlyLogs`, `DetectionOnSpacedLayout` |
| Protection.SignalSpeed | src/components/RailwaySimulator.jsx:122-138 | no contract of its own; properties in `RedAspectBrakes`, `YellowAspectCaps`, `ClearAspectAccelerates`, `UpdateKeepsRange` |
| Protection.SignalEvents | src/components/RailwaySimulator.jsx:122-138 | no contract of its own; properties in `RedAspectBrakes`, `YellowAspectCaps`, `ClearAspectAccelerates` |
| Protection.MaSpeed | src/components/RailwaySimulator.jsx:140-148 | no contract of its own; properties in `MovementAuthorityRule` |
| Protection.MaEvents | src/components/RailwaySimulator.jsx:140-148 | no contract of its own; properties in `MovementAuthorityRule` |
| Protection.AtpSpeed | src/components/RailwaySimulator.jsx:122-148 | no contract of its own; the signal rule followed by the authority rule, properties in `MovementAuthorityRule`, `UpdateKeepsRange` |
| Protection.Advance | src/components/RailwaySimulator.jsx:150-157 | no contract of its own; properties in `AdvanceOrWrap`, `WrapNearLineEnd` |
| Protection.UpdateTrain | src/components/RailwaySimulator.jsx:103-160 | no contract of its own; properties in `UpdateKeepsRange`, `BaliseNeverChangesTrain`, `BaliseOnlyLogs`, `DetectionLogged`, the aspect lemmas, `MovementAuthorityRule`, `AdvanceOrWrap` |
| Protection.UpdateTrains | src/components/RailwaySimulator.jsx:102-160 | the map over the trains: same length, and the i-th result is the i-th train updated against the same pre-tick blocks |
| Protection.UpdateTrainsKeepRange | src/components/RailwaySimulator.jsx:103-160 | if every train is in range, every updated train is in range |
| Signaling.Occupied | src/components/RailwaySimulator.jsx:169-172 | `some`: true iff some snapshot train has start <= position < end |
| Signaling.InBlock | src/components/RailwaySimulator.jsx:170-171 | no contract of its own; a train stands in a block when start <= position < end, used by `Occupied` and `BlockRule` |
| Signaling.AspectOf | src/components/RailwaySimulator.jsx:179-187 | no contract of its own; properties in `BlockRule`, `NoFollowerNeverYellow`, `RecomputeConsistent` |
| Signaling.RecomputeBlock | src/components/RailwaySimulator.jsx:165-190 | no contract of its own; properties in `BlockRule`, `OccupiedLoggedOnRisingEdge` |
| Signaling.RecomputePrefix | src/components/RailwaySimulator.jsx:164-190 | the map over the blocks: the i-th result is block i recomputed against the same pre-tick blocks and train snapshot |
| Signaling.RecomputeBlocks | src/components/RailwaySimulator.jsx:164-191 | one result per block; the per-block rules in `BlockRule`, the messages in `OccupiedLoggedOnRisingEdge` |
| Signaling.BlockRule | src/components/RailwaySimulator.jsx:165-189 | id and range are kept; occupied iff some snapshot train stands in the block; red iff occupied; yellow iff free and the first pre-tick block starting at its end was occupied |
| Signaling.NoFollowerNeverYellow | src/components/RailwaySimulator.jsx:180-187 | a block that no block starts after is never yellow |
| Signaling.RecomputeKeepsLayout | src/components/RailwaySimulator.jsx:189 | the recompute keeps every block's id, start and end |
| Signaling.RecomputeConsistent | src/components/RailwaySimulator.jsx:183-187 | after the recompute every block is red exactly when occupied |
| Signaling.OnlyOccupiedMessages | src/components/RailwaySimulator.jsx:174-177 | the recompute logs only block-occupied messages |
| Signaling.MessageMeansRisingEdge | src/components/RailwaySimulator.jsx:174-177 | a block-occupied message names a block that was free and is now occupied |
| Signaling.RisingEdgeMeansMessage | src/components/RailwaySimulator.jsx:174-177 | a block that was free and is now occupied gets its message |
| Signaling.OccupiedLoggedOnRisingEdge | src/components/RailwaySimulator.jsx:166-177 | a block's message is logged iff it went from free to occupied, and the recompute logs nothing else |
| Simulation.InitialTrains | src/components/RailwaySimulator.jsx:8-11 | no contract of its own; the initial trains, used by `Simulator.constructor` |
| Simulation.InitialBlocks | src/components/RailwaySimulator.jsx:14-19 | no contract of its own; the four free green blocks, properties in `LastBlockNeverYellow`, `Simulator.constructor` |
| Simulation.LineBalises | src/components/RailwaySimulator.jsx:29-34 | no contract of its own; the line's balises, properties in `LineBalisesSpaced`, `BaliseSeenWithinOneMetre` |
| Simulation.ScenarioTrains | src/components/RailwaySimulator.jsx:45-94 | no contract of its own; the presets, properties in `ScenariosInRange`, `PresetsNeverReachAuthorityLimit`, `Simulator.LoadScenario` |
| Simulation.TickEvents | src/components/RailwaySimulator.jsx:100-193 | no contract of its own; the order of a tick's log entries (trains one by one, then blocks in order), used by `Simulator.Tick` and `TickKeepsInvariant` |
| Simulation.LineBalisesSpaced | src/components/RailwaySimulator.jsx:29-34 | the line's balises are at least 6 m apart, so on this line a balise is reported iff one lies within 1 m (`DetectionOnSpacedLayout`) |
| Simulation.ScenariosInRange | src/components/RailwaySimulator.jsx:45-94 | every preset starts every train within [0, maxSpeed] and on the line |
| Simulation.PresetsNeverReachAuthorityLimit | src/components/RailwaySimulator.jsx:53-90 | no preset train triggers the authority rule, before or after a tick |
| Simulation.LastBlockNeverYellow | src/components/RailwaySimulator.jsx:14-19 | on the line's layout the block ending at 1200 m is never yellow |
| Simulation.TickKeepsInvariant | src/components/RailwaySimulator.jsx:100-193 | a tick preserves the state invariant: trains in range, red iff occupied, the four-block layout, and at most 15 log entries |
| Simulation.CollisionLeaderFirstTick | src/components/RailwaySimulator.jsx:53 | first tick of the collision preset, train 1: speed 82, position 100 + 82/36, nothing logged |
| Simulation.CollisionFollowerFirstTick | src/components/RailwaySimulator.jsx:54 | first tick of the collision preset, train 2: speed 62, position 500 + 62/36, nothing logged |
| Simulation.CollisionTrainsFirstTick | src/components/RailwaySimulator.jsx:102-160 | the whole train update of that tick |
| Simulation.CollisionEachBlockFirstTick | src/components/RailwaySimulator.jsx:164-190 | blocks 1 and 2 become occupied, red and logged; blocks 3 and 4 stay free and green |
| Simulation.CollisionBlocksFirstTick | src/components/RailwaySimulator.jsx:164-191 | the whole block recompute of that tick, with its two messages in block order |
| Simulation.WrapNearLineEnd | src/components/RailwaySimulator.jsx:150-157 | a train at 1199 m at 100 km/h restarts at 50 m with speed 102 and a lap message |
| Simulation.BaliseSeenWithinOneMetre | src/components/RailwaySimulator.jsx:29-34 | a train at 749.5 m is told about the 60 km/h balise at 750 m |
| Simulation.BaliseNotSeenFourMetresAway | src/components/RailwaySimulator.jsx:107-114 | a train at 746 m, within 5 m but not 1 m of a balise, logs no detection |
| Simulation.AspectLagsOneTick | src/components/RailwaySimulator.jsx:179-187 | a train in block 3 makes block 3 red while block 2 is still green after the same tick |
| Simulation.Simulator.constructor | src/components/RailwaySimulator.jsx:5-36 | paused, initial trains and blocks, the line's balises, an empty log, and the invariant holds |
| Simulation.Simulator.ToggleRunning | src/components/RailwaySimulator.jsx:369 | the start/pause button flips the running flag and nothing else |
| Simulation.Simulator.AddLog | src/components/RailwaySimulator.jsx:39-42 | the log becomes the old log with the entry prepended, cut to 15 |
| Simulation.Simulator.LoadScenario | src/components/RailwaySimulator.jsx:45-94 | paused, the preset's trains, blocks unchanged, the log holding only the load message, and the invariant kept |
| Simulation.Simulator.Tick | src/components/RailwaySimulator.jsx:97-193 | paused: nothing changes; running: trains, blocks and log become the functional tick of the old state; the running flag and the invariant are kept |
| Simulation.Simulator.Step | src/components/RailwaySimulator.jsx:100-193 | one running tick: new trains from the old blocks, new blocks from the old trains and blocks, and the tick's events logged in order |
| Simulation.Simulator.UpdateAllTrains | src/components/RailwaySimulator.jsx:102-161 | the loop over the trains computes `UpdateTrains` and logs its events in order |
| Simulation.Simulator.StepTrain | src/components/RailwaySimulator.jsx:103-160 | one train's update equals `UpdateTrain`, with its events logged in order |
| Simulation.Simulator.ReportBalise | src/components/RailwaySimulator.jsx:107-114 | logs exactly the detection message, if any |
| Simulation.Simulator.SignalRule | src/components/RailwaySimulator.jsx:122-138 | the speed after the signal rule, with its warnings logged |
| Simulation.Simulator.AuthorityRule | src/components/RailwaySimulator.jsx:140-148 | the speed after the authority rule, with its warnings logged |
| Simulation.Simulator.Move | src/components/RailwaySimulator.jsx:150-157 | the new position, with the lap message logged iff it wrapped |
| Simulation.Simulator.Log | src/components/RailwaySimulator.jsx:39-42 | one `addLog` extends the logged batch by one event |
| Simulation.Simulator.RecomputeAllBlocks | src/components/RailwaySimulator.jsx:164-191 | the loop over the blocks computes `RecomputeBlocks` and logs its messages in block order |
| Simulation.Simulator.UpdateBlock | src/components/RailwaySimulator.jsx:165-190 | one block equals `RecomputeBlock`, with its message logged on the rising edge |

## Left out

- Rendering and UI: the canvas drawing, the JSX layout and the display of
  the log are presentation only.
- React scheduling and timers:
  - `setInterval`, effect re-subscription and batching are not modelled. A
    tick is one atomic step.
  - Its log entries are added in the order the component's code issues them: first train by train,
    then block by block.
  - A double call of updater functions in development mode is not modelled.
- Timestamps: `toLocaleTimeString` reads the clock, so log entries carry no
  time.
- Message text: events are tagged values with the train id, block id or
  limit. The (French) message strings are not kept.
- Display-only data: train names and colours, the balise type label and the
  stations, which no core operation reads.
- Floating point: positions and authorities are exact reals, and the
  position step is `(speed / 3600) * 100` computed exactly. IEEE rounding is
  not modelled, so a train sitting exactly on a block boundary after rounding
  may be classed differently.
- Loading a preset: `loadScenario`'s unknown-name branch is modelled by the
  single `Reset` preset. Any unrecognised name behaves the same there.
