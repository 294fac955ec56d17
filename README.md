# Gravity simulator: a Dafny model

The repository is a 2-D gravity sandbox written in Python with pygame. It has two generations:

- the newer one, under `core/` and the root `ui_actions.py`, `components.py` and `panel_builder.py`;
- the older single-file program, the root `gravity_simulator_2.py`.

This project models the parts of both that compute on body, scene, camera and layout state, and proves what those computations promise.

Modules, one per source concern:

| module | file | models |
|---|---|---|
| `Numerics`, `Text`, `Config` | numerics.dfy, text.dfy, config.dfy | products, `max`/`min`, truncation, `str(int)`, `' '.join`, the configuration constants |
| `CoreCamera` | camera.dfy | `core/camera.py`: the `Camera` class with its affine world↔screen maps, centring, zoom about an anchor, pan and reset |
| `ScenePhysics` | scene_physics.dfy | `core/scene.py`: the gravity pass and the contact pass as functions on a list of bodies |
| `ScenePhysicsProofs` | scene_physics_proofs.dfy | properties of those passes: masking, softening bound, third law, conservation, restitution, separation |
| `SceneTrails` | trails.dfy | the trail trimmer inside `Scene.draw_objects` |
| `CoreScene` | scene.dfy | the `Scene` class, its loops as methods proved against `ScenePhysics` and `SceneTrails` |
| `CoreVectorField` | vector_field.dfy | `core/vector_field.py`: the lattice, the camera conversion and the superposed field, over `array2` |
| `CoreApp` | app.dfy | `core/gravity_simulator_2.py`: `format_elapsed_time` and the per-frame rule of `App.run` on the `SimulationState` |
| `LegacyPhysics`, `LegacyProofs`, `LegacySimulator` | legacy_physics.dfy, legacy_proofs.dfy, legacy.dfy | the root `gravity_simulator_2.py`: the colour ramp, the edit and drag clamps, the field, the velocity nudge, walls and the contact law, and the global state as a class |
| `UiActions`, `UiActionsProofs`, `UiSimulation` | ui_actions.dfy, ui_actions_proofs.dfy, ui_sim.dfy | `ui_actions.py`: each handler as a transition on the `sim` dict, what the handlers promise, and a class whose methods perform them in place |
| `Components`, `ComponentsProofs` | components.dfy, components_proofs.dfy | `components.py`: element creation and the vertical and horizontal layouts |
| `PanelBuilder` | panel_builder.dfy | `panel_builder.py`: `get_panel_rect` |

The loops of the source appear in methods with loop invariants. Each method is proved equal to a specification function: for example, `Scene.UpdateObjectPositions` ensures `objects == PositionStep(old(objects), dt, sqrt).value`. The properties are then proved about those functions as lemmas.

Arithmetic is over `real`. The square root is a parameter `sqrt: SqrtFn`. Lemmas that need it to be a square root require `IsSqrt(sqrt)`. The source divides by zero in some places; the model makes these explicit:

- A contact step of `update_object_positions` is `None` where it is unspecified. That covers a zero mass, where the source raises `ZeroDivisionError`. It also covers a contact at distance 0, where the source divides numpy scalars and goes on with NaN. The methods report `None` as `ok == false`.
- Layout faults are an `Outcome` value.
- An unknown panel name is the `UnknownPanel` case of `GetPanelRect`.

## Model

| member | source | states |
|---|---|---|
| CoreCamera.Camera.constructor | core/camera.py:4-8 | the four fields take the given offsets, zoom and base scale |
| CoreCamera.Camera.Default | core/camera.py:4-8 | the default camera: offsets 0, zoom 1, base 0.00001 pixels per metre |
| CoreCamera.WorldScreenRoundTrip | core/camera.py:14-22 | `screen_to_world(world_to_screen(w)) == w` whenever `pixels_per_meter != 0` |
| CoreCamera.ScreenWorldRoundTrip | core/camera.py:14-22 | `world_to_screen(screen_to_world(s)) == s` whenever `pixels_per_meter != 0` |
| CoreCamera.Camera.CenterOn | core/camera.py:24-27 | afterwards the centred world point maps to the window centre `(WINDOW_WIDTH//2, WINDOW_HEIGHT//2)`; zoom and base are unchanged |
| CoreCamera.Camera.ZoomAroundPoint | core/camera.py:29-45 | zoom is multiplied (zoom in) or divided by `factor`; base is unchanged; the scale stays non-zero; the new offsets put the world point that was under the anchor back at the anchor |
| CoreCamera.ZoomOffset | core/camera.py:39-45 | the source's offset correction `o + (w_after - w_before)·p'` equals `a - w_before·p'`, the offset that pins the anchor |
| CoreCamera.AnchorFixed | core/camera.py:14-17 | a camera whose offsets are `anchor - w·ppm` sends `w` exactly to the anchor |
| CoreCamera.Camera.Pan | core/camera.py:47-52 | the offsets gain the pixel deltas; zoom and base are unchanged |
| CoreCamera.PanAndBack | core/camera.py:47-52 | `pan(a, b)` followed by `pan(-a, -b)` restores every field |
| CoreCamera.Camera.Reset | core/camera.py:54-59 | the constructor defaults are restored |
| CoreApp.IntervalsTable | core/gravity_simulator_2.py:127-134 | the unit table runs yr (52 weeks), wk, d, hr, min, s, strictly largest first, each unit's limit linking it to the larger one, ending in seconds |
| CoreApp.PartsOrdered | core/gravity_simulator_2.py:139-143 | emitted parts use units of the table, strictly largest first, with positive values (zero-valued units omitted) |
| CoreApp.PartsBelowLimit | core/gravity_simulator_2.py:139-143 | started below a bound that chains to the units, every value stays below its unit's ratio to the next larger unit |
| CoreApp.PartsSum | core/gravity_simulator_2.py:139-143 | for a non-negative start, `Σ value·unit_seconds` of the parts is the start |
| CoreApp.YearsAbsorbOverflow | core/gravity_simulator_2.py:139-143 | only years can exceed their ratio: s < 60, min < 60, hr < 24, d < 7, wk < 52 |
| CoreApp.ElapsedPartsSpec | core/gravity_simulator_2.py:127-143 | all of the above for `int(seconds)`: units in order, none repeated, values positive and below their ratios, and the parts summing to `int(seconds)` when `seconds >= 0` |
| CoreApp.FormatNonPositive | core/gravity_simulator_2.py:136-147 | `int(seconds) <= 0` emits no part and renders as `"0 s"` |
| CoreApp.FormatExample | core/gravity_simulator_2.py:126-149 | 3725.9 seconds renders as `"1 hr 2 min 5 s"` |
| CoreApp.FormatElapsedTime | core/gravity_simulator_2.py:126-149 | the loop's string is the rendering of the specified decomposition of `int(seconds)` |
| CoreApp.SimulationState.constructor | core/gravity_simulator_2.py:44-55 | a fresh empty scene with trails on and trail length 3, nothing selected or dragged, not paused, speed 1, clock 0 |
| CoreApp.SimulationState.Tick | core/gravity_simulator_2.py:80-104 | a non-positive speed multiplier becomes 1.0; effective dt is `time_delta·speed`; when paused the clock and bodies stay; otherwise the clock advances by effective dt and the bodies take one `Scene.update` step; the UI fields are untouched |
| ScenePhysics.Kick | core/scene.py:65-70 | the velocity write changes only the velocity |
| ScenePhysics.Accels | core/scene.py:36-63 | one acceleration per body, computed from the list as given |
| ScenePhysics.KickAll | core/scene.py:65-70 | the write-back keeps the number of bodies |
| ScenePhysics.VelocityStep | core/scene.py:36-70 | the velocity pass keeps the number of bodies |
| ScenePhysics.Move | core/scene.py:73-75 | moving changes only the position |
| ScenePhysics.Push | core/scene.py:96-108 | the first body's response keeps its mass, radius and trail |
| ScenePhysics.Pull | core/scene.py:96-108 | the second body's response keeps its mass, radius and trail |
| ScenePhysics.CollideFrom | core/scene.py:77-108 | the inner contact loop keeps the number of bodies when it is defined |
| ScenePhysicsProofs.VelocityStepAt | core/scene.py:36-70 | body `i` after the pass is `v_i + dt·a_i` with position, mass, radius and trail unchanged, where `a_i` is summed over the list as it was before any write |
| ScenePhysicsProofs.PairAccelZeroDist | core/scene.py:53-59 | the mask `distances > 0`: a pair at distance 0 contributes nothing |
| ScenePhysicsProofs.AccelSumCoincident | core/scene.py:53-61 | with every body at `b_i`'s position (itself included), the summed acceleration is zero |
| ScenePhysicsProofs.LoneBodyKeepsVelocity | core/scene.py:53-61 | a body with no other body at non-zero distance gets zero acceleration and keeps its velocity |
| ScenePhysicsProofs.StrengthAntitone | core/scene.py:56 | the pull strength `G·m/c²` is non-negative and falls as the clipped distance grows |
| ScenePhysicsProofs.PairAccelBound | core/scene.py:48-56 | every pairwise contribution has magnitude at most `G·m_j/(r_i + r_j)²` |
| ScenePhysicsProofs.PairAccelOpposite | core/scene.py:44-61 | Newton's third law for the pulls: `m_i·a_ij == -m_j·a_ji` on both axes |
| ScenePhysicsProofs.MaxAccelSpec | core/scene.py:41-63 | `max_acceleration` is non-negative, bounds every acceleration norm and is one of them unless it is still 0 |
| ScenePhysicsProofs.MaxSpeedSpec | core/scene.py:66 | `max_velocity` bounds every speed and is attained |
| ScenePhysicsProofs.NormalIsUnit | core/scene.py:85 | the contact normal `(dx, dy)/distance` has length 1 |
| ScenePhysicsProofs.ResolveCases | core/scene.py:84-92 | the response fires exactly when `0 < distance <= r1 + r2` and `v_rel <= 0`; otherwise the pair is unchanged or the step is unspecified; pairs apart are unchanged |
| ScenePhysicsProofs.RespondConserves | core/scene.py:93-108 | the response keeps `m1·v1 + m2·v2`, `x1 + x2`, `y1 + y2` and both masses, radii and trails |
| ScenePhysicsProofs.ResolveConserves | core/scene.py:93-108 | every defined contact step, fired or not, conserves the same quantities |
| ScenePhysicsProofs.RespondRestitution | core/scene.py:89-101 | along a unit normal the new normal relative velocity is `-COEFFICIENT_OF_RESTITUTION` times the old |
| ScenePhysicsProofs.RespondSeparation | core/scene.py:102-108 | when `p1 - p2 == d·n`, the 50/50 correction leaves the centres `(r1 + r2)·n` apart |
| ScenePhysicsProofs.ResolveRestitutionAndSeparation | core/scene.py:84-108 | a fired contact leaves `v_rel' == -COR·v_rel` along its normal and the centres exactly `r1 + r2` apart |
| ScenePhysicsProofs.PositionStepConserves | core/scene.py:72-108 | a defined position pass keeps the number of bodies, total momentum on both axes and the total mass |
| SceneTrails.KeepCount | core/scene.py:189-202 | the backward walk keeps at most the points it walks over |
| SceneTrails.KeepCountAges | core/scene.py:189-202 | every point the walk keeps has `age <= max_age` |
| SceneTrails.KeepCountPath | core/scene.py:189-202 | the path walked through the kept points stays within `max_length` |
| SceneTrails.KeepCountMaximal | core/scene.py:189-202 | the walk stops only at a point that fails the age or length test |
| SceneTrails.TrimmedAges | core/scene.py:189-202 | every point of the trimmed trail is at most `max_age` old |
| SceneTrails.TrimmedPath | core/scene.py:189-202 | the path from the body through the trimmed trail, newest first, is at most `1e30` |
| SceneTrails.TrimmedMaximal | core/scene.py:189-202 | one point more than the trimmer keeps is too old or makes the path too long |
| SceneTrails.TrimmedSpec | core/scene.py:189-202 | the trimmed trail is the longest suffix, oldest first, whose points are young enough and whose path is short enough |
| SceneTrails.TrimTrail | core/scene.py:182-204 | the `insert(0, …)` loop over `reversed(trail)` produces exactly the trimmed trail |
| SceneTrails.NewestSurvives | core/scene.py:175-204 | with `max_age >= 0` the newly appended point always survives, as the newest point |
| SceneTrails.RecordKeepsNewest | core/scene.py:175-204 | the same, for any square root that gives the zero segment length 0 |
| SceneTrails.RecordTrailFrame | core/scene.py:175-206 | only the trail changes; with trails disabled it becomes empty |
| CoreScene.Scene.constructor | core/scene.py:8-21 | no bodies, vector field mode, trails on with length 3, vectors on, counters 0, a default camera |
| CoreScene.AccelerationOf | core/scene.py:36-61 | the inner loop's sum is body `i`'s acceleration over the whole list |
| CoreScene.VelocityPass | core/scene.py:36-70 | the loops produce the velocity step from the snapshot and `max_acceleration` as specified |
| CoreScene.Scene.UpdateObjectVelocities | core/scene.py:27-70 | the bodies become the velocity step of the old list; an empty list leaves everything as it was; the display settings are untouched |
| CoreScene.PositionPass | core/scene.py:72-108 | the nested loops produce the specified position step, or report that it is unspecified |
| CoreScene.Scene.UpdateObjectPositions | core/scene.py:72-108 | the bodies become the position step of the old list when it is defined; the count and the maxima are unchanged |
| CoreScene.Scene.Update | core/scene.py:23-25 | the velocity pass, then the position pass, each on the result of the previous; with no bodies nothing changes |
| CoreScene.TrailsRecorded | core/scene.py:173-206 | one recorded trail per body |
| CoreScene.TrailPass | core/scene.py:173-206 | the loop over the bodies records every trail |
| CoreScene.Scene.RecordTrails | core/scene.py:173-206 | each body gets its trimmed trail with `max_age = trail_length·speed_multiplier`; nothing else changes |
| CoreVectorField.ArangeSpec | core/vector_field.py:11-13 | `np.arange` is the arithmetic progression from `start` by `step`, every entry before `stop` |
| CoreVectorField.ArangeLength | core/vector_field.py:11-13 | with a positive step, entry `k` is `start + k·step` and the length is the count below `stop` |
| CoreVectorField.LatticeAtGridSize | core/vector_field.py:11-13 | columns `200, 220, …, 980` and rows `0, 20, …, 680` at the grid size 20 |
| CoreVectorField.Meshgrid | core/vector_field.py:13 | entry `(i, j)` holds `(xs[j], ys[i])` |
| CoreVectorField.ScreenToWorldGrid | core/vector_field.py:16 | each entry is the camera's `screen_to_world` of the lattice point |
| CoreVectorField.SubtractBody | core/vector_field.py:29-30 | one body's contribution is subtracted from every entry of `U` and `V` |
| CoreVectorField.Superpose | core/vector_field.py:18-30 | from zeros, every entry is the field of all bodies at its world point |
| CoreVectorField.VectorField.constructor | core/vector_field.py:5-8 | the sampler keeps the spacing, scene and camera it is given |
| CoreVectorField.VectorField.Generate | core/vector_field.py:10-34 | the lattice is the specified grid, each `(U, V)` entry is the field at the world point under it, all zero with no bodies, and nothing outside the new arrays is written |
| CoreVectorField.FieldConcat | core/vector_field.py:22-30 | the field of a concatenation is the sum of the fields of its parts |
| CoreVectorField.FieldCommute | core/vector_field.py:22-30 | swapping two blocks of bodies does not change the field |
| CoreVectorField.FieldSwap | core/vector_field.py:22-30 | swapping two neighbours does not change the field, so it is independent of order |
| CoreVectorField.TermBound | core/vector_field.py:25-28 | with a positive radius there is no division by zero, and one body's contribution is at most `G·m/radius²` |
| CoreVectorField.PullAtRadius | core/vector_field.py:26 | within the radius the distance is floored at the radius |
| CoreVectorField.TermAtCentre | core/vector_field.py:23-30 | a sample at a body's centre gets zero from it |
| CoreVectorField.TermTowardBody | core/vector_field.py:23-30 | each subtracted term has a non-negative dot product with the offset from the body, so the field points toward the body |
| LegacyProofs.IntensityBands | gravity_simulator_2.py:108-142 | red is 255 for `i <= 0.333`; green is 255 on `(0.166, 0.5]` and 0 above 0.666; the first band is `(255, int(255·i/0.166), 0)` |
| LegacyProofs.IntensityOverflow | gravity_simulator_2.py:116-140 | the ramp as written gives blue 256 at 0.333 and red 313 at 1.0, outside the 8-bit range |
| LegacyPhysics.ClampedIntensityToColor | gravity_simulator_2.py:108-142 | the corrected ramp always gives channels in `[0, 255]` |
| LegacyProofs.ClampedAgrees | gravity_simulator_2.py:108-142 | the corrected ramp is in range, agrees with the written one wherever that is in range, and gives pure red at 1.0 |
| LegacyProofs.EditRules | gravity_simulator_2.py:159-177 | a parsed mass becomes `max(1, int)`; a parsed radius lands in `[1, 100]` and is kept when already there; unparsed fields are unchanged |
| LegacyProofs.DragInside | gravity_simulator_2.py:194-199 | the drag clamp keeps the disc inside a field at least a diameter wide and follows the cursor when it is inside |
| LegacyProofs.FirstHitSpec | gravity_simulator_2.py:179-187 | the click picks the first body in list order within its radius, and none exactly when no body is hit |
| LegacyProofs.NewBodyRanges | gravity_simulator_2.py:225-241 | a new body from the random ranges is at rest, has `radius = mass/50` in `[0.2, 20]` and shock `0.001·mass` in `[0.01, 1]` |
| LegacySimulator.LegacyLattice | gravity_simulator_2.py:246-248 | at `GRID_SIZE` the field arrays are 30 rows by 40 columns at multiples of 20 |
| LegacySimulator.SubtractFlow | gravity_simulator_2.py:255-262 | one body's flow is subtracted from every entry of `U` and `V` |
| LegacySimulator.GenerateVectorField | gravity_simulator_2.py:244-264 | the lattice and the field entries are the specified ones, all zero with no bodies |
| LegacyProofs.FieldAtSmall | gravity_simulator_2.py:250-262 | with no bodies the field is zero; one body contributes minus its flow |
| LegacyProofs.FlowAtCentre | gravity_simulator_2.py:255-262 | a lattice point at a body's centre gets nothing from it (the distance floor 0.1 applies) |
| LegacyProofs.FlowTowardBody | gravity_simulator_2.py:255-262 | the subtracted flow has a non-negative dot product with the offset from the body |
| LegacyProofs.NewtonianRule | gravity_simulator_2.py:276-288 | the source's pull ignores the body's own mass and exerts nothing from the same spot |
| LegacyProofs.LocalFieldSources | gravity_simulator_2.py:266-290 | the local field reads only positions and masses |
| LegacyProofs.OwnMassIgnored | gravity_simulator_2.py:276 | the body's own mass never enters its local field |
| LegacyProofs.LocalFieldCoincident | gravity_simulator_2.py:276-288 | a body whose other bodies all sit on it feels no local field |
| LegacyPhysics.Nudge | gravity_simulator_2.py:289-290 | the nudge changes only the velocity |
| LegacyPhysics.NudgePass | gravity_simulator_2.py:266-290 | the velocity pass keeps the number of bodies |
| LegacyProofs.NudgePassSpec | gravity_simulator_2.py:266-290 | only velocities change, only for bodies whose grid cell is inside the field's shape, by `0.1×` the local field of the list as it was on entry |
| LegacyProofs.LoneBodyDrifts | gravity_simulator_2.py:276-290 | a body alone, or only with coincident company, keeps its velocity |
| LegacyPhysics.Advance | gravity_simulator_2.py:296-297 | one step per frame changes only the position |
| LegacyPhysics.Walls | gravity_simulator_2.py:299-308 | the wall step keeps mass, radius and shock absorption |
| LegacyProofs.WallsSpec | gravity_simulator_2.py:299-308 | an axis changes only when the disc pokes past that edge; then its velocity is negated and scaled by `1 - shock` and the coordinate is clamped so the disc lies inside the field |
| LegacyPhysics.Shift | gravity_simulator_2.py:344-354 | a body's response keeps its mass, radius and shock absorption |
| LegacyPhysics.LCollideFrom | gravity_simulator_2.py:311-355 | the inner loop keeps the number of bodies |
| LegacyProofs.LResolveCases | gravity_simulator_2.py:311-331 | the response fires exactly when `distance < r1 + r2` strictly and `v_rel <= 0`; pairs touching or apart are unchanged; the step is unspecified exactly at zero distance of overlapping discs (NaN in the source) or a zero mass or mass sum (a raise in the source) |
| LegacyProofs.LRespondConserves | gravity_simulator_2.py:333-355 | the response keeps `m1·v1 + m2·v2` and `m1·p1 + m2·p2` on both axes |
| LegacyProofs.LResolveConserves | gravity_simulator_2.py:333-355 | every defined contact step keeps the same sums |
| LegacyProofs.LRespondRestitution | gravity_simulator_2.py:337-347 | along a unit normal the new normal relative velocity is `energy_loss·v_rel`, with `energy_loss` the mean of the two shock absorptions |
| LegacyProofs.LRespondSeparation | gravity_simulator_2.py:349-354 | when `p1 - p2 == d·n`, the mass-weighted correction leaves the centres `(r1 + r2)·n` apart |
| LegacyProofs.LResolveRestitutionAndSeparation | gravity_simulator_2.py:318-355 | a fired contact leaves `v_rel' == energy_loss·v_rel` along its normal and the centres exactly `r1 + r2` apart |
| LegacyProofs.LPositionStepBuild | gravity_simulator_2.py:292-355 | a defined position pass keeps the number of bodies and each body's mass, radius and shock |
| LegacySimulator.LegacySim.constructor | gravity_simulator_2.py:79-81 | no bodies, nothing selected or dragged; together with `field_display_mode = "vector"` (line 23) and `paused = False` (line 357), the vector display, not paused |
| LegacySimulator.LegacySim.AddObject | gravity_simulator_2.py:225-241 | exactly the new body is appended; nothing else changes |
| LegacySimulator.LegacySim.UpdateSelectedObject | gravity_simulator_2.py:159-177 | without a selection nothing changes; otherwise only the selected body's mass and radius change, by the edit rules |
| LegacySimulator.LegacySim.HandleMouseClick | gravity_simulator_2.py:179-187 | the first body hit becomes selected and dragged; the list is unchanged |
| LegacySimulator.LegacySim.HandleMouseRelease | gravity_simulator_2.py:189-192 | dragging stops; nothing else changes |
| LegacySimulator.LegacySim.HandleMouseDrag | gravity_simulator_2.py:194-199 | without a dragged body nothing changes; otherwise only its position changes, to the clamped cursor |
| LegacySimulator.LegacySim.ToggleFieldDisplay | gravity_simulator_2.py:391-398 | `"vector"` becomes `"heatmap"` and anything else `"vector"`; nothing else changes |
| LegacySimulator.LegacySim.TogglePause | gravity_simulator_2.py:399-401 | the pause flag flips; nothing else changes |
| LegacySimulator.LegacySim.Reset | gravity_simulator_2.py:402-404 | the list is emptied and nothing is selected |
| LegacySimulator.LegacySim.UpdateObjectVelocities | gravity_simulator_2.py:266-290 | the bodies become the specified nudge pass of the list on entry, with the grid shape of `U` |
| LegacySimulator.LegacySim.UpdateObjectPositions | gravity_simulator_2.py:292-355 | the bodies become the specified position pass when it is defined; the count and the references are kept |
| UiActions.AddedMass | ui_actions.py:177-182 | the mass is at least 1: `max(1, int)` of a parsed text, 10 for a blank or unparsable one |
| UiActions.AddedRadius | ui_actions.py:183-190 | the radius is at most 100 with no lower bound, 10 for a blank or unparsable text |
| UiActions.NewObject | ui_actions.py:171-214 | the new object has the given id, sits at `(600, 350)` without a trail, has mass at least 1, radius at most 100 and shock `0.001·mass`, and keeps a non-blank name |
| UiActions.AddedAsWritten | ui_actions.py:169-218 | `add_object` as written: one object appended with id `object_id_counter`, the selection cleared, the references kept valid |
| UiActions.Added | ui_actions.py:169-218 | the corrected `add_object`, which also stores the advanced counter; references stay valid |
| UiActions.EditedObject | ui_actions.py:114-136 | the name is always overwritten; mass `max(1, int)` or unchanged; radius in `[1, 100]` or unchanged; unparsable velocities unchanged; id, position, shock and trail kept |
| UiActions.Edited | ui_actions.py:114-137 | `update_selected_object` keeps every reference valid |
| UiActions.FirstLabelled | ui_actions.py:86-94 | the first object whose label equals the chosen item, or none exactly when no label matches |
| UiActions.SelectedByLabel | ui_actions.py:86-105 | `handle_selection` keeps every reference valid |
| UiActions.FirstUHit | ui_actions.py:13-16 | the first object whose distance to the cursor is below its radius, or none exactly when none is hit |
| UiActions.Clicked | ui_actions.py:7-19 | `handle_mouse_click` keeps every reference valid |
| UiActions.DraggedTo | ui_actions.py:21-29 | only the position changes; x is clamped into `[200 + r, 1000 - r]` and y into `[r, 700 - r]`, and a cursor inside is followed exactly |
| UiActions.Dragged | ui_actions.py:21-29 | `handle_mouse_drag` keeps every reference valid |
| UiActions.SliceFrom | ui_actions.py:82-84 | Python's `t[start:]` is a suffix whose length a negative start counts from the end |
| UiActions.SliderChanged | ui_actions.py:79-84 | `handle_slider_change` keeps every reference valid |
| UiActions.FirstEqual | ui_actions.py:65-67 | the first index holding an equal object, as `in` and `list.remove` find it, or none exactly when there is none |
| UiActions.AfterRemovalFollows | ui_actions.py:66-68 | a reference to any object but the removed one still points at the same object after the removal |
| UiActions.DialogPressed | ui_actions.py:60-77 | `handle_dialog_button_press` keeps references valid and changes nothing when the press is not the dialog's |
| UiActions.ButtonPressed | ui_actions.py:31-58 | `handle_button_press` as written keeps every reference valid; its add button runs `add_object` as written (`AddedAsWritten`) |
| UiActions.ButtonPressedFixed | ui_actions.py:31-58 | the same dispatcher with the corrected `add_object` (`Added`) keeps every reference valid; the corrected half of the ui_actions.py:215 finding |
| UiActionsProofs.LabelShape | ui_actions.py:152-167 | a label is the printed id, then nothing or a space; the id part holds no space |
| UiActionsProofs.LabelInjective | ui_actions.py:152-167 | equal labels mean equal ids |
| Text.IntToStringInjective | ui_actions.py:152-167 | distinct integers print differently |
| UiActionsProofs.LabelSelectsObject | ui_actions.py:86-105 | with unique ids, choosing an object's list entry selects that very object |
| UiActionsProofs.TwoAddsShareId | ui_actions.py:169-218 | as written, two adds in a row hand out the same id |
| UiActionsProofs.TwoAddsSelectOlder | ui_actions.py:86-105 | as written, two unnamed adds share a label and choosing the newer entry selects the older object |
| UiActionsProofs.AddedKeepsIdsUnique | ui_actions.py:169-218 | the corrected add keeps ids distinct and below the counter |
| UiActionsProofs.TwoAddsSelectEach | ui_actions.py:86-105 | with the counter stored back, each of two added objects is selected by its own entry |
| UiActionsProofs.ButtonKeepsIdsUnique | ui_actions.py:31-77 | with the corrected `add_object`, every button, including the dialog's, keeps ids unique |
| UiActionsProofs.ButtonAsWrittenIds | ui_actions.py:31-77 | as written, every button other than add keeps ids unique; add is `add_object` as written and always breaks the invariant, since the new id equals the unchanged counter |
| UiActionsProofs.EditKeepsIdsUnique | ui_actions.py:114-137 | the edit form never changes ids |
| UiActionsProofs.DragKeepsIdsUnique | ui_actions.py:21-29 | dragging never changes ids |
| UiActionsProofs.SliderKeepsIdsUnique | ui_actions.py:79-84 | the trail slider never changes ids |
| UiActionsProofs.SelectionKeepsIdsUnique | ui_actions.py:7-19 | clicks and list selections leave ids unique |
| UiActionsProofs.ConfirmRemovesTarget | ui_actions.py:60-77 | confirming removes the first object equal to the target, keeps the others in order, clears the dialog and the selection, and keeps a surviving dragged object |
| UiActionsProofs.RemovalMultiset | ui_actions.py:66-67 | the removal takes exactly one copy of the object out of the list |
| UiActionsProofs.ConfirmRemovesExactlyTarget | ui_actions.py:60-77 | with unique ids the removed object is exactly the dialog's target |
| UiActionsProofs.CancelOnlyCloses | ui_actions.py:60-77 | cancel closes the dialog and changes nothing else; without a dialog no press is handled |
| UiActionsProofs.DeleteAsks | ui_actions.py:139-150 | the delete button only opens the dialog on the selection, and does nothing without one |
| UiActionsProofs.ResetClears | ui_actions.py:46-51 | reset empties the list and clears the selection, whether or not a dialog is open, and keeps the counter and the pause flag |
| UiActionsProofs.PauseToggles | ui_actions.py:43-45 | pause flips the flag and a second press restores the state |
| UiActionsProofs.FlagsToggle | ui_actions.py:52-58 | trails flip with default off and vectors flip with default on |
| UiActionsProofs.ClickSelectsFirstHit | ui_actions.py:7-19 | a click outside the simulation area changes nothing; inside, the first object hit is selected and dragged, or the selection is cleared; the list never changes |
| UiActionsProofs.SliderKeepsNewest | ui_actions.py:79-84 | every trail keeps its newest `int(value)` points (all at 0, as `t[-0:]` does); only trails and the stored length change |
| UiActionsProofs.EditTouchesSelectionOnly | ui_actions.py:114-137 | only the selected object changes, never in id, position, shock or trail |
| UiSimulation.UiSim.constructor | ui_actions.py:169-172 | the `sim` dict the handlers receive from their caller, which is not part of this model: empty, holding the given trail length and the `object_id_counter` that `add_object` reads at line 172, with no references and both flags absent |
| UiSimulation.UiSim.AddObjectAsWritten | ui_actions.py:169-218 | the in-place handler leaves the state `AddedAsWritten` describes |
| UiSimulation.UiSim.AddObject | ui_actions.py:169-218 | the in-place corrected handler leaves the state `Added` describes |
| UiSimulation.UiSim.UpdateSelectedObject | ui_actions.py:114-137 | the in-place edit leaves the state `Edited` describes |
| UiSimulation.UiSim.HandleMouseClick | ui_actions.py:7-19 | the in-place click leaves the state `Clicked` describes |
| UiSimulation.UiSim.HandleMouseDrag | ui_actions.py:21-29 | the in-place drag leaves the state `Dragged` describes |
| UiSimulation.UiSim.HandleSelection | ui_actions.py:86-94 | the in-place selection leaves the state `SelectedByLabel` describes |
| UiSimulation.UiSim.HandleSliderChange | ui_actions.py:79-84 | the in-place trail cut leaves the state `SliderChanged` describes |
| UiSimulation.UiSim.FindFirstEqual | ui_actions.py:65-67 | the scan finds the first equal object |
| UiSimulation.UiSim.ConfirmDelete | ui_actions.py:64-72 | the in-place removal leaves the state the confirm button's transition describes |
| UiSimulation.UiSim.HandleDialogButtonPress | ui_actions.py:60-77 | returns whether the press was the dialog's and leaves the state `DialogPressed` describes |
| UiSimulation.UiSim.HandleButtonPress | ui_actions.py:31-58 | the in-place handler, whose add button runs `add_object` as written, leaves the state `ButtonPressed` describes |
| UiSimulation.UiSim.HandleButtonPressFixed | ui_actions.py:31-58 | the in-place handler with the corrected `add_object` leaves the state `ButtonPressedFixed` describes |
| Components.CreateElementClass | components.py:26-72 | `None` exactly for an unknown type or a dropdown without options; otherwise the type and visibility as given, width 180 by default and height from the type's metadata (30, 40 or 150) by default |
| Components.CreateElement | components.py:82-121 | skipped exactly for a dropdown without options; a fault exactly for a labelled definition without a name; a labelled definition yields its label, then the element; otherwise just the element, `None` exactly for an unknown type |
| Components.VerticalRaises | components.py:139-149 | once a prefix of the definitions raises, so does the whole layout |
| Components.LayoutVertical | components.py:123-149 | the loop produces the specified vertical layout |
| ComponentsProofs.StackOnStacks | components.py:139-149 | stacking one definition's elements extends a stack with exactly those widgets, in order, or raises on a `None` |
| ComponentsProofs.VerticalStacks | components.py:139-149 | every element is at `start_x + MARGIN`, the first at `start_y` and each next one below the previous by its height plus `PADDING` |
| ComponentsProofs.VerticalAppend | components.py:139-149 | a skipped definition adds nothing; one with a valid type adds exactly its elements below the rest, a label right above its element |
| Components.Group | components.py:168-179 | each definition is in the group of its alignment (default left) and in no other, in definition order |
| Components.PartitionDefs | components.py:168-179 | the partition loop produces the three groups |
| ComponentsProofs.GroupsPartition | components.py:168-179 | the three groups together hold every definition exactly once |
| Components.CreateGroupInto | components.py:187-196 | the `create_group` loop builds the group and an `element_map` of each definition's last element |
| ComponentsProofs.LastSlotSpec | components.py:185-196 | `element_map` holds, for each definition that created elements, its last element's position |
| ComponentsProofs.SumWidthsAppend | components.py:199-206 | summed widths add over concatenation |
| ComponentsProofs.GroupWidthAppend | components.py:199-206 | two groups side by side are as wide as both plus one `PADDING` |
| Components.PlaceRightward | components.py:209-218 | the loop places the group as the specified rightward row |
| Components.PlaceLeftward | components.py:221-231 | the loop places the group as the specified leftward row |
| ComponentsProofs.RowXClosed | components.py:209-218 | slot `k` of a rightward row sits after the widths before it, one `PADDING` per step and `LABEL_INPUT_GAP - PADDING` more per label-input step |
| ComponentsProofs.RowEnd | components.py:199-218 | the left group ends where `group_width` says, plus the extra of each label-input gap |
| ComponentsProofs.RowSpacing | components.py:209-218 | each element starts where the previous ends plus `PADDING`, or `LABEL_INPUT_GAP` after an element that followed its own definition's label, and is centred vertically |
| ComponentsProofs.RightAligned | components.py:221-231 | the right group's last element ends at the right margin, each earlier one `PADDING` or `LABEL_INPUT_GAP` left of the next |
| ComponentsProofs.CenterCentred | components.py:234-246 | the centre group is centred between the side groups when it fits, the odd pixel on its right, else it starts at the left edge |
| ComponentsProofs.CentredInParent | components.py:212-240 | an element no taller than its parent lies inside it, the spare height split evenly |
| Components.CreateAllGroups | components.py:168-196 | the three `create_group` calls, with `element_map` over all groups' elements |
| Components.PlaceGroups | components.py:209-246 | the three placement loops produce the specified rows |
| Components.CollectResult | components.py:249-254 | the result loop collects each mapped definition's element, in definition order |
| ComponentsProofs.CollectListed | components.py:249-254 | the result has one element per listed definition, in definition order |
| ComponentsProofs.HorizontalResult | components.py:249-254 | the horizontal result has at most one element per definition, the last created for it, in definition order |
| Components.LayoutHorizontal | components.py:151-254 | the horizontal layout produces the specified result, or the specified fault |
| Components.AutoLayoutElements | components.py:256-275 | `"horizontal"` lays out horizontally and any other name vertically, inside the parent offset by `PADDING` |
| PanelBuilder.GetPanelRect | panel_builder.py:3-43 | the four names give rectangles inside the window, and any other name is the `ValueError` case |
| PanelBuilder.PanelsFrameWindow | panel_builder.py:5-41 | the top and bottom panels span the width at the two edges; the side panels fill the height between them at the left and right edges and do not meet |

## Left out

- Drawing is not modelled: the pygame drawing, the `Scene.draw*` methods except the trail block, the root `draw_*` functions, heat-map normalisation and arrow scaling. They produce pixels, not state.
- The event loops are not modelled: the pygame parts of `App.run`, the loop of gravity_simulator_2.py:357-427 apart from its three buttons, `UIState`, `ui_events.py` and `ui/ui_events.py`. They dispatch on widget identity to code that is not part of this model.
- The thin pygame_gui wrappers are not modelled (`ui_manager.py`, `ui/ui_manager.py`, `ui_page.py`, `panel_builder.build_panel`): they only forward calls to widgets.
- `ui_actions/objects.py` is not part of this model: it depends on modules that are not available.
- `presets.py`, `data_sources.py`, `ui_panels.py` and the two `config.py` files are used only for their constants.
- `SIDEBAR_WIDTH` comes from `setup/config.py`. The root `config.py` that `components.py` imports does not define it.
- Floating point is modelled as exact `real` arithmetic, so no claim is made about rounding, overflow or numpy broadcasting.
- A NaN in the field arrays of `core/vector_field.py` is `None`. No other NaN behaviour is modelled.
- The square root is a parameter, and so are Python's `int()` and `float()` on strings, the three `random.randint` draws of the legacy `add_object`, and `data_sources.get_options`.
- Integer division by a positive divisor is Dafny's `/`, which agrees with Python's `//` there. `int()` of a real is `Trunc`, toward zero.
- The velocity pass of `core/scene.py` takes the pairwise law as a parameter (`Law`). `Scene.Update` passes `Gravity(sqrt)`, the source's law. The legacy field and velocity pass take their rules as parameters in the same way (`FlowRule`, `PairRule`, `Pull`).
- Bodies and object dicts are values. A list of them is a `seq`, and a reference to one (`selected_object`, `dragging_object`, the dialog's target) is an index into that list. Python aliasing between two dicts is not modelled.
- Element definitions are identified by their position, standing for `id(edef)`. Widgets keep only type, name, size and visibility, because their content keys (item lists, slider ranges) do not enter the layout.
- A body's colour is not modelled: no computation reads it.
- When a contact step is unspecified, the model reports `ok == false` and promises nothing about the list. The source either raises with the list partly updated or goes on with NaN.
- At distance 0 (core/scene.py:85, gravity_simulator_2.py:320) the source divides numpy scalars. It gets NaN with a runtime warning and writes NaN into both bodies. The model leaves that step unspecified (`None`) instead of following the NaN values, so the position passes need no precondition on distances.
- In core/scene.py:95, non-zero masses with `1/m1 + 1/m2 == 0` give an infinite or NaN impulse, because `relative_v` is a numpy scalar. The model leaves that step unspecified too. Only a zero mass raises there.
- CoreCamera.Camera.ZoomAroundPoint: requires `factor != 0` and a non-zero scale, so it excludes the `ZeroDivisionError` that core/camera.py:37 and `screen_to_world` (lines 20-21) raise there. That raise cannot be reached: the base is 0.00001, zoom starts at 1, and the callers pass 1.1.
- CoreCamera.Camera.ScreenToWorld: requires a non-zero scale, which excludes the same unreachable `ZeroDivisionError` at core/camera.py:20-21.
- LegacySimulator.LegacySim.Reset: also clears the dragging reference, which the source leaves pointing at a body no longer in the list. An index into the emptied list cannot express that reference.
- UiActionsProofs.ButtonKeepsIdsUnique: holds of the dispatcher with the corrected `add_object` only. Of `handle_button_press` as written, `ButtonAsWrittenIds` proves that every other button keeps ids unique and that add breaks the invariant.
- UiActions.ButtonPressed: the reset button also drops the dragging reference and an open dialog's target, which the source leaves pointing at objects no longer in the list.
- ComponentsProofs.RowEnd: stated for the left group only. The right and centre groups use the same `group_width`, and `RightAligned` and `CenterCentred` cover their placement.
- `CoreCamera.Camera.PixelsPerMeter` is `base_pixels_per_meter · zoom` by definition and has no contract of its own.

## Findings

| source | as written | input that shows it | evidently intended | confidence | as-written member | corrected member |
|---|---|---|---|---|---|---|
| gravity_simulator_2.py:116-140 | `intensity_to_color` computes each band linearly, without clamping to `[0, 255]` | intensity 0.333 gives blue 256; intensity 1.0 gives red 313 | every channel a valid 8-bit colour component | not executed | LegacyPhysics.IntensityToColor, LegacyProofs.IntensityOverflow | LegacyPhysics.ClampedIntensityToColor, LegacyProofs.ClampedAgrees |
| ui_actions.py:215 | `add_object` increments a local copy of `object_id_counter` and never stores it back in `sim` | two adds in a row from any state: both new objects get the same id, and with equal names the same label, so choosing the newer entry selects the older object | each added object gets a fresh id, as the docstring's "unique id" says | not executed | UiActions.AddedAsWritten, UiActions.ButtonPressed, UiSimulation.UiSim.HandleButtonPress, UiActionsProofs.TwoAddsShareId, UiActionsProofs.TwoAddsSelectOlder, UiActionsProofs.ButtonAsWrittenIds | UiActions.Added, UiActions.ButtonPressedFixed, UiSimulation.UiSim.HandleButtonPressFixed, UiActionsProofs.AddedKeepsIdsUnique, UiActionsProofs.TwoAddsSelectEach, UiActionsProofs.ButtonKeepsIdsUnique |
