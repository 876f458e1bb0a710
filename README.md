# GravityDemo core, modelled in Dafny

This project models the sequential logic of the GravityDemo game: a ball that
falls under gravity and fluid drag and bounces off the bottom of the window,
with live-tunable settings cycled and changed by key presses.

- `util.dfy`, module `Util`: the static helpers of `Util` over `real`. These are
  `Square`, both `Average` overloads (loops proved against `Mean`), both `Clamp`
  overloads, the velocity-Verlet displacement and the drag force. Each helper
  except `Square` has a scalar reading and the `Vector2` one.
- `settings.dfy`, module `Settings`: `SettingsManager` as a class. Its fields are
  the insertion-ordered groups, the current index, and the current and previous
  key snapshots, and whether each event has a subscriber. Ghost logs record
  raised events and change-action calls.
  Rising-edge detection, wrap-around cycling and the per-group change actions
  are specified by functions, and lemmas are proved about them.
- `screen_stats.dfy`, module `Stats`: the stat list of `ScreenStats` as a class
  over a `seq<StatText>`. It has append, lookup by name with every `": "`
  removed, and the first-match-only updates.
- `physics.dfy`, module `Physics`: the physics part of the game's `Update` as a
  class whose method is proved equal to the transition function `Step`. The
  transition is force accumulation, a Verlet height step, the averaged-
  acceleration velocity update and the bottom-edge collision.
- `wrappers.dfy`, module `Wrappers`: `Option`.

The model follows the code as written:

- The game's `Update` clamps neither the force nor the velocity.
- Only the bottom edge is checked, and only the Y axis moves.
- The collision test uses `radius` as the ball's extent.
- `GetStat` returns a throw-away `StatText` for an unknown name. It does not fail.
- A duplicate group name makes `Dictionary.Add` throw. The model returns `ok == false`.

`Main.cs` calls scalar overloads of `IntegrateVelocityVerlet` and
`CalculateDragForceOnObject`, but `Util.cs` defines only the `Vector2` ones. The
model gives the scalar per-axis formulas (`VerletDelta`, `Drag`). The contract of
each `Vector2` overload states that it is exactly those formulas applied to X and Y.

Exceptions in `SettingsManager` are modelled as an `ok == false` result, and the
state is left as the C# leaves it.

- A cycling method raises its event with `?.Invoke`. Without a subscriber, the
  argument list is never evaluated, so no group name is looked up and nothing
  throws. The manager therefore records, per event, whether it has a subscriber.
- With a subscriber, raising the event looks up the group names at the old and
  new index. That lookup throws when the old index names no group, and the
  index has already been moved by then.
- With no groups, `PreviousSetting` moves the index to -1, with or without a
  subscriber. The index stays at -1 after groups are added.
- While the index is -1 and there are groups, processing the current group
  throws in every frame without a cycling edge. A rising edge of either cycling key moves the index
  back into range (to 0, or to the last group). That one frame still throws
  when the event it raises has a subscriber.
- `FrameThrows` states exactly when a frame throws. `Valid()` allows exactly
  the reachable states. `Healthy()` means the index names a group, and a
  healthy manager always succeeds and stays healthy.

## Model

| member | source | states |
|---|---|---|
| `Util.Square` | GravityTesting/Util.cs:20-23 | the square is never negative |
| `Util.Average` | GravityTesting/Util.cs:31-41 | the loop's result is the sum of the values divided by their count (`Mean`), for a non-empty input |
| `Util.AverageVector` | GravityTesting/Util.cs:81-92 | the result is the mean of the X components and the mean of the Y components, taken separately |
| `Util.MeanOfPair` | GravityTesting/Main.cs:149 | the average of two values is their midpoint `(a+b)/2` |
| `Util.SumBounds` | GravityTesting/Util.cs:33-38 | the accumulated sum of n values in `[lo, hi]` lies in `[n*lo, n*hi]` |
| `Util.MeanBounds` | GravityTesting/Util.cs:31-41 | the average of values in `[lo, hi]` lies in `[lo, hi]` |
| `Util.MeanOfConstant` | GravityTesting/Util.cs:31-41 | the average of a constant sequence is that constant |
| `Util.Clamp` | GravityTesting/Util.cs:51-57 | for `min <= max` the result lies in `[min, max]`; it is the value when in range, `min` when below, `max` when above, and `max` whatever the value when `min > max` |
| `Util.ClampVector` | GravityTesting/Util.cs:67-73 | each component obeys the scalar clamp rule independently |
| `Util.ClampedToUnique` | GravityTesting/Util.cs:51-57 | the clamp rule determines the result uniquely, so both overloads compute the same per-axis function |
| `Util.VerletDelta` | GravityTesting/Main.cs:137 | the scalar Verlet displacement equals the mean of the start and end velocities under constant acceleration, times dt; a frame of length 0 moves nothing |
| `Util.IntegrateVelocityVerlet` | GravityTesting/Util.cs:108-111 | the `Vector2` displacement is the scalar formula `v*dt + 0.5*a*dt²` on each axis independently |
| `Util.VerletDeltaSplits` | GravityTesting/Util.cs:108-111 | under constant acceleration, two consecutive frames cover exactly what one frame of their total length covers |
| `Util.Drag` | GravityTesting/Main.cs:128 | with non-negative ρ, Cd and A the drag is never positive; at rest it is 0 |
| `Util.CalculateDragForceOnObject` | GravityTesting/Util.cs:127-130 | the `Vector2` drag is `-(ρ·Cd·A/2)·v²` on each axis independently |
| `Util.DragIgnoresDirection` | GravityTesting/Util.cs:127-130 | the drag is the same for v and -v, so the sign of the velocity is lost and a body moving in the negative direction is pushed further that way |
| `Settings.RisingEdge` | GravityTesting/SettingManager.cs:87 | a key triggers exactly when it is down in this frame's snapshot and up in the previous one; it is the test used for both cycling keys and every setting key |
| `Settings.HeldKeyStaysQuiet` | GravityTesting/SettingManager.cs:87-91 | a key already down stays silent for as long as it is held |
| `Settings.HeldKeyTriggersOnce` | GravityTesting/SettingManager.cs:87-91 | a key pressed and then held for any number of frames triggers exactly once, because each frame's snapshot becomes the next frame's previous one |
| `Settings.TriggersAppend` | GravityTesting/SettingManager.cs:119 | trigger counts add up over consecutive runs of frames |
| `Settings.ReleaseAndRepressTriggersTwice` | GravityTesting/SettingManager.cs:87-91 | a press that is held, released for one frame, pressed again and held triggers twice |
| `Settings.NextIndex` | GravityTesting/SettingManager.cs:155 | from a valid index, the result is the next index, or 0 from the last one, and it stays in `[0, n)` |
| `Settings.PreviousIndex` | GravityTesting/SettingManager.cs:171 | from a valid index, the result is the previous index, or `n-1` from 0, and it stays in `[0, n)` |
| `Settings.NextThenPrevious` | GravityTesting/SettingManager.cs:150-176 | moving next and then previous returns to the start |
| `Settings.PreviousThenNext` | GravityTesting/SettingManager.cs:150-176 | moving previous and then next returns to the start |
| `Settings.MovesCompose` | GravityTesting/SettingManager.cs:150-176 | a+b moves in one direction are a moves followed by b moves |
| `Settings.ForwardMovesAdd` | GravityTesting/SettingManager.cs:155 | k forward moves that do not reach the wrap-around point add k |
| `Settings.BackwardMovesSubtract` | GravityTesting/SettingManager.cs:171 | k backward moves that do not reach the wrap-around point subtract k |
| `Settings.CycleHasOrderCount` | GravityTesting/SettingManager.cs:150-176 | n moves in either direction return any valid index to itself |
| `Settings.BothCycleKeysCancel` | GravityTesting/SettingManager.cs:87-91 | pressing both cycling keys in one frame leaves the index unchanged; with both events subscribed it raises two events, next and then previous, forward and back again |
| `Settings.CycleEventNamesGroups` | GravityTesting/SettingManager.cs:157-159 | a subscribed cycle raises exactly one event, naming the groups at the old and new index in insertion order; an unsubscribed cycle, or a frame without edges, raises none |
| `Settings.CycleEventsSplit` | GravityTesting/SettingManager.cs:87-91 | a frame's events are those of the next-key check followed by those of the previous-key check |
| `Settings.HealthyFrameNeverThrows` | GravityTesting/SettingManager.cs:83-120 | from an index that names a group no frame throws, whatever the edges and subscribers, and the index keeps naming a group |
| `Settings.ThrowsWithoutGroups` | GravityTesting/SettingManager.cs:150-176 | with no groups a frame throws exactly when a cycling key rises and its event has a subscriber; a previous-key edge leaves the index at -1 |
| `Settings.StuckIndexRecovers` | GravityTesting/SettingManager.cs:150-176 | at index -1 with groups present, a frame without cycling edges throws; a rising cycling key moves the index back to a group, and that frame throws exactly when the event it raises has a subscriber |
| `Settings.Fired` | GravityTesting/SettingManager.cs:134-139 | one pass makes at most one change-action call per setting, and none when no key went down since the previous frame |
| `Settings.FiredSplits` | GravityTesting/SettingManager.cs:134-139 | the change-action calls keep the array order: the calls for a concatenated array are the calls for its parts, concatenated |
| `Settings.FiredExactly` | GravityTesting/SettingManager.cs:134-139 | a call is made exactly for a setting whose key has a rising edge, and it carries that setting's name and `ChangeAmount` |
| `Settings.FiredAllOrNone` | GravityTesting/SettingManager.cs:134-139 | no rising key means no calls; if every key rises, each setting is called once, in array order |
| `Settings.FindGroup` | GravityTesting/SettingManager.cs:69-71 | the result is the position of the first group with this name, or None exactly when no group has it |
| `Settings.SettingsManager.constructor` | GravityTesting/SettingManager.cs:14-36 | a new manager has no groups, index 0, empty snapshots, the two given cycling keys and no event subscribers |
| `Settings.SettingsManager.SubscribeNextSetting` | GravityTesting/SettingManager.cs:14 | after `OnNextSetting += handler` the event has a subscriber |
| `Settings.SettingsManager.SubscribePreviousSetting` | GravityTesting/SettingManager.cs:15 | after `OnPreviousSetting += handler` the event has a subscriber |
| `Settings.SettingsManager.AddSettingGroup` | GravityTesting/SettingManager.cs:54-57 | a new name is appended at the end of the group order; an existing name fails and changes nothing; names stay unique |
| `Settings.SettingsManager.AddSetting` | GravityTesting/SettingManager.cs:64-76 | the setting is appended to the named group's array in place; all other groups and the order are unchanged; an unknown name changes nothing |
| `Settings.SettingsManager.NextSetting` | GravityTesting/SettingManager.cs:150-160 | the index becomes `NextIndex` in every case. With a subscriber and a valid old index, one `OnNextSetting` is raised with the old and new group names. With a subscriber and no valid old index, the name lookup fails and no event is raised. Without a subscriber nothing is raised and nothing fails |
| `Settings.SettingsManager.PreviousSetting` | GravityTesting/SettingManager.cs:166-176 | the index becomes `PreviousIndex` in every case. With a subscriber and a valid old index, one `OnPreviousSetting` is raised with the old and new group names. With a subscriber and no valid old index, it fails with no event. Without a subscriber nothing is raised and nothing fails |
| `Settings.SettingsManager.ProcessCurrentSettingGroup` | GravityTesting/SettingManager.cs:128-144 | only the group the index names fires: its rising-edge settings are called once each, in array order; with groups present and index -1 the lookup fails |
| `Settings.SettingsManager.CycleOnEdges` | GravityTesting/SettingManager.cs:87-91 | the next-key check and then the previous-key check: it fails exactly as `CycleThrows` says, the index ends where the checks leave it, and on success the events are `CycleEvents` |
| `Settings.SettingsManager.Update` | GravityTesting/SettingManager.cs:83-120 | the frame fails exactly when `FrameThrows` holds. On success the index is `CycledIndex`, the events are `CycleEvents` (next first, subscribed events only), the current group's rising settings are called in order, and the snapshot becomes the previous one. A failure stops the frame where it happens, logs nothing and keeps the old previous snapshot |
| `Stats.RemoveSeparators` | GravityTesting/ScreenStats.cs:127 | `Replace(": ", "")` never lengthens a name |
| `Stats.RemoveSeparatorsKeepsPlainName` | GravityTesting/ScreenStats.cs:38 | removing separators leaves a name without `": "` unchanged |
| `Stats.StoredNameMatches` | GravityTesting/ScreenStats.cs:75 | a name without `": "`, stored with `": "` appended, matches exactly that name again once every `": "` is removed |
| `Stats.RemoveSeparatorsDropsTrailing` | GravityTesting/ScreenStats.cs:75 | the separator `AddStatText` appends is removed without trace: the stored name answers as the given name with its own separators removed |
| `Stats.RemoveSeparatorsShortens` | GravityTesting/ScreenStats.cs:127 | a name that holds `": "` loses at least two characters |
| `Stats.NameWithSeparatorIsLost` | GravityTesting/ScreenStats.cs:75 | every name that holds `": "`, once stored with `": "` appended, no longer answers to itself |
| `Stats.FirstMatch` | GravityTesting/ScreenStats.cs:123-132 | the result is the first item that matches the name, or None exactly when no item does |
| `Stats.FirstMatchAppend` | GravityTesting/ScreenStats.cs:73-77 | appending an item changes a lookup only when no earlier item matched |
| `Stats.AddedStatIsFound` | GravityTesting/ScreenStats.cs:73-77 | round trip: after `AddStatText`, a lookup by the original name finds the new item, unless an earlier item already matches that name |
| `Stats.AddedStatWithSeparatorIsNotFound` | GravityTesting/ScreenStats.cs:73-77 | after adding an item whose name holds `": "`, a lookup by that name sees only the earlier items |
| `Stats.ScreenStats.constructor` | GravityTesting/ScreenStats.cs:15 | the list starts empty |
| `Stats.ScreenStats.UpdateStat` | GravityTesting/ScreenStats.cs:33-44 | only the first matching item gets the new text; every other item and field is unchanged; with no match nothing changes |
| `Stats.ScreenStats.AddStatText` | GravityTesting/ScreenStats.cs:73-77 | the item is appended at the end with `": "` added to its name; earlier items are unchanged |
| `Stats.ScreenStats.ChangeStatColor` | GravityTesting/ScreenStats.cs:85-90 | only the first matching item gets the new fore colour; with no match no stored item changes |
| `Stats.ScreenStats.SelectedStat` | GravityTesting/ScreenStats.cs:97-102 | only the first matching item becomes selected; with no match no stored item changes |
| `Stats.ScreenStats.UnselectAll` | GravityTesting/ScreenStats.cs:108-114 | every item is unselected; names, texts, colours, positions and order are unchanged |
| `Stats.ScreenStats.GetStat` | GravityTesting/ScreenStats.cs:123-132 | the loop returns the position of the first matching item, or None where the source returns a throw-away object |
| `Physics.NetForce` | GravityTesting/Main.cs:113-128 | with non-negative drag factors the net force never exceeds the weight; at rest it is exactly the weight |
| `Physics.Integrate` | GravityTesting/Main.cs:137-151 | the integration reads the stored acceleration but never writes it, and does not move X |
| `Physics.Collide` | GravityTesting/Main.cs:154-162 | with a non-positive restitution the ball no longer penetrates afterwards; a ball that does not penetrate is left unchanged; X and the acceleration are kept |
| `Physics.Step` | GravityTesting/Main.cs:111-165 | a frame changes neither the stored acceleration nor the horizontal position |
| `Physics.IntegrateMoves` | GravityTesting/Main.cs:137-151 | the height moves by `100·(v·dt + ½·a·dt²)`, from the velocity and acceleration held before the frame; the velocity moves by `dt·(F/m + a)/2`, where F is weight plus drag |
| `Physics.StepsKeepAccelerationAndX` | GravityTesting/Main.cs:22-26 | over any number of frames the acceleration keeps its initial value (0 in the game) and X keeps its initial value |
| `Physics.CollisionResponse` | GravityTesting/Main.cs:154-162 | past the edge and moving down: the velocity is multiplied by the restitution coefficient and the height is set to exactly `screenHeight - radius`; with a non-positive coefficient the ball no longer penetrates |
| `Physics.NoCorrectionWithoutPenetration` | GravityTesting/Main.cs:154 | when the ball is not past the edge, or is not moving down, nothing is corrected, even if it is below the edge |
| `Physics.NoMotionBaseline` | GravityTesting/Main.cs:113-162 | with zero gravity, velocity and acceleration, a frame changes nothing |
| `Physics.ElapsedIsProduct` | GravityTesting/Main.cs:29 | n frames of length dt take n·dt |
| `Physics.HalfRateFrame` | GravityTesting/Main.cs:147-151 | as written, a drag-free frame with the stored acceleration 0 adds only `g·dt/2` to the velocity |
| `Physics.HalfRateVelocity` | GravityTesting/Main.cs:147-151 | as written, the half-rate gains add up frame by frame |
| `Physics.FreeFallAtHalfRate` | GravityTesting/Main.cs:147-151 | as written, after n drag-free frames the velocity has grown by `n·g·dt/2` and the acceleration is still 0 |
| `Physics.FreeFallFallsShort` | GravityTesting/Main.cs:147-151 | as written, one frame from rest gives `g·dt/2`, which is not the exact `g·dt` |
| `Physics.StoredAccelerationFrame` | GravityTesting/Main.cs:143-151 | corrected: from a body whose stored acceleration is already g, a drag-free frame adds `g·dt` to the velocity and the exact Verlet displacement to the height |
| `Physics.StoredAccelerationVelocity` | GravityTesting/Main.cs:143-151 | corrected, from a start whose stored acceleration is already g: after n drag-free frames the stored acceleration is still g and the velocity is `v + g·t` |
| `Physics.TrajectoryExtends` | GravityTesting/Main.cs:137-140 | one more exact frame keeps the height on the closed-form trajectory |
| `Physics.StoredAccelerationTrajectory` | GravityTesting/Main.cs:137-151 | corrected, from a start whose stored acceleration is already g: after n drag-free frames the height is on the closed-form trajectory |
| `Physics.StoredGravityIsExact` | GravityTesting/Main.cs:137-151 | corrected, from a start whose stored acceleration is already g: after n drag-free frames, with t = n·dt, the velocity is `v + g·t` and the height has moved by `100·(v·t + g·t²/2)` |
| `Physics.PrimedIsGravity` | GravityTesting/Main.cs:113-147 | without drag, a stored acceleration equal to the net force over the mass is g, whatever the velocity |
| `Physics.StoredAccelerationIsExact` | GravityTesting/Main.cs:137-151 | corrected: when the acceleration is stored every frame AND the initial stored acceleration (0 at Main.cs:26) is primed with the initial net acceleration, then after n drag-free frames, with t = n·dt, the velocity is `v + g·t` and the height has moved by `100·(v·t + g·t²/2)` |
| `Physics.StoreOnlyFirstFrame` | GravityTesting/Main.cs:143-151 | storing the acceleration but starting from 0, as Main.cs line 26 does: the first drag-free frame adds only `g·dt/2` to the velocity and stores g |
| `Physics.StoreOnlyVelocity` | GravityTesting/Main.cs:143-151 | storing the acceleration but starting from 0, as Main.cs line 26 does: after n ≥ 1 drag-free frames the stored acceleration is g and the velocity is `v + g·(elapsed time) − g·dt/2` |
| `Physics.StoreOnlyFromZeroLags` | GravityTesting/Main.cs:143-151 | storing the acceleration but starting from 0, as Main.cs line 26 does: after n ≥ 1 drag-free frames the velocity is `v + g·n·dt − g·dt/2`, so it lags the exact value by `g·dt/2` for good |
| `Physics.Simulation.constructor` | GravityTesting/Main.cs:22-55 | the ball starts at (200, 0) at rest with acceleration 0; mass 0.1, radius 50, dt 0.02, gravity 9.807, restitution -0.5, density 1.2, drag coefficient 0.47 |
| `Physics.Simulation.Update` | GravityTesting/Main.cs:111-162 | the new position and velocity are `Step` of the old ones; only `position` and `velocityY` may change, so the acceleration and every coefficient stay as they were |

## Findings

| source | as written | input that shows it | evidently intended | confidence | as-written member | corrected member |
|---|---|---|---|---|---|---|
| GravityTesting/Main.cs:147-151 | the new acceleration `allForces / _mass` is only averaged with `_accelerationY` and is never stored. `_accelerationY` stays 0, so the velocity gains `(F/m)/2 · dt` per frame and the Verlet height step never sees any acceleration | drag-free fall from rest, g = 9.807, dt = 0.02: the velocity after one frame is 0.09807, not 0.19614, and after n frames it is `n·g·dt/2`. After two frames it is 0.19614 as written, 0.29421 with the acceleration stored but starting from 0, and 0.39228 exactly | the comment at lines 143-146 says the frame updates the acceleration: store `newAccelerationY` in `_accelerationY`, as velocity-Verlet does, and start `_accelerationY` (0 at line 26) at the initial net acceleration, which is g at rest. Then drag-free motion follows the closed-form trajectory exactly. Storing alone, from 0, leaves the velocity `g·dt/2` behind for good (`Physics.StoreOnlyFromZeroLags`) | medium, not executed | `Physics.FreeFallFallsShort` | `Physics.StoredAccelerationIsExact` |

`Physics.Simulation.Update` and `Physics.Step` keep the as-written behaviour,
because they model the game as it is. `Physics.IntegrateStoringAcceleration` is
the corrected frame.

## Left out

- Keyboard polling (`Keyboard.GetState()`, SettingManager.cs:85) is input I/O. The snapshot is a parameter of `Update`, and the first previous snapshot is the empty set.
- The change-action closures (`Action<float>`) and the event handlers are code the model cannot see. Their calls are recorded in the ghost logs `invocations` and `events` instead of modelled. A handler that throws or calls back into the manager is not modelled.
- Each event's subscriber list is a single flag: whether it has at least one subscriber. Removing a handler (`-=`) is not modelled, and neither is the order in which several handlers run.
- A null `ChangeAction` would throw at SettingManager.cs:138, and so would a null entry in a settings array. Neither is modelled: settings are values and always have an action.
- `CurrentSetting` (SettingManager.cs:44) is not modelled. It reads `_settings`, which nothing ever fills, so every read of it throws.
- The commented-out multi-key logic (SettingManager.cs:93-115) is not modelled.
- The group dictionary is an insertion-ordered sequence. This matches the enumeration order of a dictionary that is only added to and updated in place, as here.
- Aliasing is not modelled: `StatText` is a C# reference type and `Setting[]` an array. The model stores values, so a caller's later changes to an object or array it passed in do not reach the stored copy. Adding the same `StatText` object twice is not modelled either (the source appends `": "` to its name twice).
- A `StatText` whose `Name` is null (stored as `": "`) is not modelled; names are always strings.
- The font loading in the `ScreenStats` constructor and `Draw` (ScreenStats.cs:21-25, 51-66) are rendering.
- The game's constructor graphics setup, `Initialize`, `LoadContent`, `UnloadContent`, `Draw` and `base.Update` are device and rendering plumbing. The screen height is a constructor parameter.
- The frontal area `_A` (Main.cs:55) involves pi. It is a non-negative constructor parameter.
- `Util.ToPoint` (Util.cs:10-13) is a float-to-int conversion on an engine type.
- The `GameTime` parameters of both `Update` methods are unused by the source and are left out.
- Floating point: all arithmetic is over `real`, so there is no rounding, overflow or NaN. `Average` requires a non-empty input (the source divides 0 by 0), and the game's `Update` requires a non-zero mass (the source divides by it).
- `Util.Square`: its contract states only that the result is never negative; the product itself is its body.
