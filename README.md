# A verified model of a ray-casting maze game

The game is a browser maze seen in first person. Each frame it casts one ray per pair of screen columns against a
tile grid, draws the wall slices, and composes the sprites (pumpkins, enemies, the guide) against the resulting
depth buffer. On top of this runs a phased mini-game: find the guide, collect the pumpkins, return to her, survive
her betrayal and a 60-second escape, and end in victory or game over. This project models the logic under the
canvas, audio and DOM calls in Dafny and proves what that logic promises.

The model is organised as follows.

- `grid.dfy` (module `Grid`) holds the shared vocabulary:
  - the map as a rectangular `seq<seq<int>>`, with cells and points;
  - the row-major cell scan that every placement and sprite pass uses;
  - the angle normalisation loop;
  - the `Trig` oracle, which stands in for `Math.sqrt`, `Math.atan2`, `Math.cos` and `Math.sin`.
- `spawn.dfy` (`Spawn`) models `findSafePosition`, the square-ring search outward from the map centre.
- `placement.dfy` (`Placement`) places the pumpkins and the guide from the interior floor cells. The `Math.random`
  draws are parameters.
- `raycast.dfy` (`Raycaster`) models `render3D` of the bitECS games. It covers the ray march, the fish-eye
  correction, the reusable depth buffer (an `array<real>`) filled column group by column group, and the wall
  slices.
- `walls.dfy` (`Walls`) models three things:
  - `getWallColorByArea` in its two copies;
  - the window flags;
  - `adjustBrightness`, which reads a `#rrggbb` colour (hexadecimal notation, section 5.2 of CSS Color Module
    Level 4) and writes the legacy comma form `rgb(R, G, B)` (section 5.1).
- `classic_render.dfy` (`ClassicRender`) models the renderer of the older ECS version: `castRay`, the hit list of
  `render3D`, `renderObject`, the view test of the floating objects, and the `ObjectRendererFactory` registry
  (a class over a `map`). The hit list takes a `Stepping`: `AsWritten` calls `castRay` as the source has it,
  `Corrected` calls the corrected `castRay` of the finding below.
- `sprites.dfy` (`Sprites`) models the sprite pass of the halloween game:
  - the cached static sprites;
  - the per-frame visibility filter;
  - the painter's-order sort, an insertion sort on an array;
  - the five-sample z-buffer test of `drawSprite`.
- `movement.dfy` (`Movement`) models `InputSystem.update` in its two variants: the bitECS one, where only
  buildings block, and the strict one, where only floor is walkable. It covers rotation, the collision-checked
  step, the clamp to the boundary and the bounded unstuck search. The pose is a class updated in place.
- `halloween_game.dfy` (`HalloweenGame`) holds the pure half of the halloween game:
  - the phase machine `NextPhase`;
  - HP with its invincibility window;
  - the pickup loops as folds, with their closed forms in terms of `Taken`, the items a loop takes;
  - the escape's escalations;
  - enemy steering;
  - the projectiles.
- `halloween_state.dfy` (`HalloweenState`) holds the `gameState` object as the class `Game`. Its methods are
  `updatePhase`, `updateEnemies`, `updateMagicAttacks`, the pickup blocks of `gameLoop`, the footsteps and the
  render throttle. Each loop is proved to compute its fold.
- `collect_game.dfy` (`CollectGame`) models the older collection-only game: 15 pumpkins, the one-shot auto-start,
  the E key that can never start a round, and collection until completion.
- `ecs.dfy` (`Ecs`) models `EntityManager`, `SystemManager` and `Utils.clamp/lerp/map`.
- `sounds.dfy` (`Sounds`) models the control state of the sound manager:
  - the on/off switch;
  - the registered effects;
  - the footstep rate limit;
  - the ambient loop;
  - the heartbeat and warning cues with their volumes.
- `i18n.dfy` (`I18n`) models the two dictionaries, the language choice and `t` with its fallbacks and `{k}`
  substitution.

Conventions:

- Positions and distances are exact `real`s, and timestamps are `int` milliseconds.
- A distance that the source only compares is compared squared (`dx*dx + dy*dy < r*r`).
- A cell key `${Math.floor(x)},${Math.floor(y)}` is a `Cell`.
- Sound requests in the two games go to an optional port and are recorded in order as a sequence of `SoundCall`s.

## Model

| member | source | states |
|---|---|---|
| Grid.CenterInCell | halloween/game-bitecs.js:685 | an object placed at the centre of cell c has the key `${floor(x)},${floor(y)}` of c itself |
| Grid.ScanRow | halloween/game-bitecs.js:151-157 | the inner column loop over one row collects the accepted cells of that row, left to right |
| Grid.ScanCells | halloween/game-bitecs.js:150-158 | the nested row/column loop returns exactly the cells of the rectangle whose code is accepted, in row-major order, each once |
| Grid.ScanMembership | halloween/game-bitecs.js:118-143 | a cell is in a scan iff it lies in the scanned rectangle and its code is accepted |
| Grid.ScanOrdered | halloween/game-bitecs.js:118-143 | a scan lists its cells strictly in row-major order (top row first, left to right), so no cell twice |
| Grid.ScanMembers | halloween/game-bitecs.js:88-94 | membership and row-major order together, for the `emptySpaces` scan and the map scans |
| Grid.RowScanMembers | halloween/game-bitecs.js:89-93 | a row scan holds exactly the accepted cells of its row segment, strictly left to right |
| Grid.AppendOrdered | halloween/game-bitecs.js:118-143 | two row-major runs, the first wholly before the second, concatenate to a row-major run |
| Grid.WrapDownSpec | halloween/objects/index.js:83 | `while (a > PI) a -= 2PI` ends at most PI, above -PI when it ran, a whole number of turns from a, and leaves an angle <= PI alone |
| Grid.WrapUpSpec | halloween/objects/index.js:84 | `while (a < -PI) a += 2PI` ends at least -PI, below PI when it ran, a whole number of turns from a, and leaves an angle >= -PI alone |
| Grid.NormalizedSpec | halloween/objects/index.js:83-84 | the two loops in turn give an angle in [-PI, PI] that is a whole number of turns from the input, and leave an angle already in range untouched |
| Grid.NormalizeAngle | halloween/objects/index.js:83-84 | the two `while` loops compute `Normalized(a)`: in [-PI, PI], whole turns from a, identity on [-PI, PI] |
| Grid.WholeTurnsTrans | halloween/objects/index.js:83-84 | being a whole number of turns apart is transitive, so the two loops together keep the direction |
| Spawn.RadiusLoopCoversGrid | game.js:58 | the radius bound max(W, H) reaches every cell of the grid, so a search that finds nothing means there is no floor cell |
| Spawn.SearchSquare | game.js:59-68 | the x-then-y loops of one radius return the first floor cell on that square, which no floor cell precedes in search order; when they find none, every floor cell lies farther out |
| Spawn.FindSafePosition | game.js:52-73 | with a floor cell it returns the centre of a floor cell and no floor cell comes earlier in the search order (radius, then column, then row); with none it returns the centre of the centre cell |
| Ecs.HoldsOne | ecs.js:117-128 | holding type t is holding every type of [t], so query(t) is queryMultiple([t]) |
| Ecs.MatchingMembers | ecs.js:131-149 | a query result holds exactly the live entities that have every requested type, each with its own components |
| Ecs.MatchingOrdered | ecs.js:119 | results follow the `entities` Map's insertion order: with increasing ids, the result's ids increase |
| Ecs.MatchingNothingIsAll | ecs.js:131-149 | queryMultiple([]) returns every live entity, in order |
| Ecs.Without | ecs.js:112 | `Map.delete` on the key order keeps exactly the other ids |
| Ecs.WithoutSpec | ecs.js:111-114 | deleting an id keeps the key order increasing and shortens it by exactly one when the id was live, and not at all otherwise |
| Ecs.ElementsCount | ecs.js:165-167 | an increasing key order has as many distinct ids as entries |
| Ecs.KeysCount | ecs.js:165-167 | the Map's size equals the length of its key order |
| Ecs.AddThenGet | ecs.js:81-93 | after addComponent(e, t, d) on a live entity, getComponent(e, t) is d and every other lookup is as before |
| Ecs.RemoveThenGet | ecs.js:102-108 | after removeComponent(e, t) on a live entity, t is absent from e and every other lookup is as before |
| Ecs.DestroyThenGet | ecs.js:111-114 | after destroy(e), lookups on e report a missing entity and all others are as before |
| Ecs.EntityManager.constructor | ecs.js:65-68 | an empty registry with the counter at 1 |
| Ecs.EntityManager.Create | ecs.js:71-78 | the id is the old counter, was not live, becomes an entity with no components at the end of the key order; the counter moves on by one |
| Ecs.EntityManager.AddComponent | ecs.js:81-87 | a live entity gets the type set to the data; a missing entity changes nothing; ids and counter untouched |
| Ecs.EntityManager.GetComponent | ecs.js:90-93 | null (NoEntity) iff the entity is missing, undefined (Absent) iff it lacks the type, otherwise the stored data |
| Ecs.EntityManager.HasComponent | ecs.js:96-99 | true iff getComponent finds data; false for a missing entity |
| Ecs.EntityManager.RemoveComponent | ecs.js:102-108 | a live entity loses the type; a missing entity changes nothing |
| Ecs.EntityManager.Destroy | ecs.js:111-114 | the id leaves the Map and the key order; the counter is untouched, so the id is never issued again |
| Ecs.EntityManager.Count | ecs.js:165-167 | the number of live entities |
| Ecs.EntityManager.Query | ecs.js:117-128 | the loop returns `Matching(order, entities, [t])`: the holders of t in insertion order |
| Ecs.EntityManager.QueryMultiple | ecs.js:131-149 | the loop returns `Matching(order, entities, ts)`: the holders of every type of ts in insertion order |
| Ecs.HasAllLoop | ecs.js:134-140 | the inner loop with its `break` yields true iff the entity holds every type |
| Ecs.EntityManager.GetAll | ecs.js:152-157 | every live entity with its components, in insertion order |
| Ecs.SystemManager.constructor | ecs.js:172-174 | an empty registry |
| Ecs.SystemManager.Add | ecs.js:177-180 | the name maps to the new system; a new name goes last, an existing one keeps its place |
| Ecs.SystemManager.Get | ecs.js:183-185 | the registered system, or undefined (None) for an unknown name |
| Ecs.SystemManager.Update | ecs.js:188-194 | the loop calls `Updatable(names, systems)` |
| Ecs.UpdatableSpec | ecs.js:188-194 | exactly the registered systems that have an `update` function are called, each at most once |
| Ecs.UpdatableOrdered | ecs.js:189 | the calls follow registration order |
| Ecs.Clamp | ecs.js:265-267 | in [lo, hi] when lo <= hi, the value itself when already in range, hi when lo > hi |
| Ecs.Lerp | ecs.js:270-272 | start at t = 0, end at t = 1, between them for t in [0, 1] |
| Ecs.MapRange | ecs.js:275-277 | inMin goes to outMin and inMax to outMax; an empty input range divides by zero (None) |
| I18n.Lookup | halloween/i18n.js:74 | a property read `dict[lang][key]`: a found value is the value of an entry with that key |
| I18n.LookupAt | halloween/i18n.js:6-60 | the value read is that of the key's entry in the dictionary literal |
| I18n.LookupMissing | halloween/i18n.js:74 | a key with no entry reads as undefined |
| I18n.SameKeys | halloween/i18n.js:6-60 | `ja` and `en` define the same 25 keys in the same order, and no message is empty |
| I18n.VictoryEntry | halloween/i18n.js:26 | `victory_html` is the message shown in each language |
| I18n.VictoryHasTime | halloween/i18n.js:26 | `victory_html` carries the `{time}` placeholder in both languages |
| I18n.GetLang | halloween/i18n.js:63-66 | the stored choice when one is stored and non-empty, otherwise 'en' |
| I18n.CurrentLang | halloween/i18n.js:73 | `window.i18n.lang` when set (non-empty), otherwise getLang; never empty |
| I18n.Message | halloween/i18n.js:74 | the language's entry when it is a non-empty string, otherwise the Japanese entry when non-empty, otherwise the key itself |
| I18n.MessageFallbacks | halloween/i18n.js:74 | a defined key reads its own text in 'ja' and 'en', and the Japanese text in any other language |
| I18n.UnknownKey | halloween/i18n.js:74 | a key neither dictionary defines comes back unchanged, in every language |
| I18n.ReplaceAbsent | halloween/i18n.js:77 | a global replace of a pattern that does not occur returns the text unchanged |
| I18n.ReplaceRemoves | halloween/i18n.js:77 | after a global replace by a non-empty text sharing no character with the pattern, the pattern no longer occurs |
| I18n.PatternPrefix | halloween/i18n.js:77 | a prefix made of pattern characters of the replaced text is a prefix of the original (the replacement cannot start one) |
| I18n.FirstCharRestarts | halloween/i18n.js:77 | text that does not start with the pattern does not start with it after the replace |
| I18n.OccursAfterRep | halloween/i18n.js:77 | an occurrence in a replacement-headed text lies after the replacement |
| I18n.T | halloween/i18n.js:72-81 | without params the message as chosen; with params the message with every `{k}` replaced by params[k], key after key in order |
| I18n.TimeFilled | halloween/i18n.js:75-78 | filling `{time}` with a decimal number leaves no `{time}` in the message |
| Sounds.HeartbeatVolume | halloween/sounds.js:320 | the heartbeat gain lies in [0, 0.3]: 0 from distance 3 on, the full 0.3 at distance 0 or less |
| Sounds.WarningVolume | halloween/sounds.js:376 | the warning gain lies in [0, 0.2]: 0 from distance 1.5 on, the full 0.2 at distance 0 or less |
| Sounds.VolumesMonotone | halloween/sounds.js:320-376 | both gains grow (weakly) as the nearest enemy comes closer |
| Sounds.TierOf | halloween/sounds.js:444-464 | both cues iff enabled and d < 1.5; heartbeat only iff enabled and 1.5 <= d < 3.0; neither iff disabled or d >= 3.0 |
| Sounds.SoundManager.constructor | halloween/sounds.js:5-28 | with Web Audio: enabled, the seven effects registered; without: disabled, no effects; no cue, no ambient loop, lastFootstep 0 |
| Sounds.SoundManager.Play | halloween/sounds.js:467-483 | disabled or an unregistered name: nothing; otherwise the effect is synthesised, `ambient` starting the loop unless it runs already (194-195) |
| Sounds.SoundManager.PlayFootstep | halloween/sounds.js:486-494 | plays iff enabled, moving and now - lastFootstep > 0.3, and only then moves lastFootstep to now |
| Sounds.SoundManager.ToggleAmbient | halloween/sounds.js:497-514 | disabled: nothing; a running loop is stopped; otherwise `ambient` is played |
| Sounds.SoundManager.ToggleSound | halloween/sounds.js:517-523 | flips `enabled` and returns the new value; the ambient loop stays set, because the stop runs after the switch is off and toggleAmbient then returns at once |
| Sounds.SoundManager.CreateHeartbeat | halloween/sounds.js:316-330 | without audio nothing; a running heartbeat only has its gain set; otherwise one new heartbeat is created at that gain |
| Sounds.SoundManager.CreateWarning | halloween/sounds.js:373-385 | without audio nothing; a running warning only has its gain set; otherwise one new warning is created at that gain |
| Sounds.SoundManager.StopHeartbeat | halloween/sounds.js:416-427 | afterwards there is no heartbeat, whether or not one ran (idempotent) |
| Sounds.SoundManager.StopWarning | halloween/sounds.js:430-441 | afterwards there is no warning, whether or not one ran (idempotent) |
| Sounds.SoundManager.UpdateEnemyProximity | halloween/sounds.js:444-464 | the cues of the distance's tier run at the tier's gains (with audio), keeping the identity of a running cue; the other cues are stopped |
| Walls.GetWallColorByArea | halloween/game-bitecs.js:1358-1377 | the colour is a district's iff the cell lies in it and in none checked before it (haunted house, witch forest, graveyard, pumpkin field), and the town colour iff it lies in none |
| Walls.GraveyardWinsOverlap | game-bitecs.js:572-591 | the graveyard and the pumpkin field overlap on x = 8, 18 <= y <= 23, and the graveyard, checked first, wins those cells |
| Walls.WallColoursParse | halloween/game-bitecs.js:1383-1384 | every district colour is a well-formed `#rrggbb` colour, so the wall fill always parses |
| Walls.JsRem | halloween/game-bitecs.js:1389 | JavaScript `%`: the remainder lies strictly between -m and m, is never positive for a negative dividend, agrees with `%` on non-negative dividends, and differs from the dividend by a multiple of m |
| Walls.HalloweenWindows | halloween/game-bitecs.js:1389-1413 | a window is painted iff the cell has one, distance < 10 and height > 40; a second one iff also height > 80 and (x + y) % 3 == 0 |
| Walls.WindowPattern | halloween/game-bitecs.js:1389 | the window flag is (2x + 3y) mod 5 == 0 on non-negative cells and repeats every five cells along a row and along a column |
| Walls.HalloweenWindowSize | halloween/game-bitecs.js:1392 | the pane is min(0.15 h, 10) |
| Walls.RootWindows | game-bitecs.js:602-611 | a window iff the first draw exceeds 0.995, distance < 10 and height > 50; a second one iff also height > 100 and the second draw exceeds 0.5 |
| Walls.RootWindowSize | game-bitecs.js:603 | the pane is min(0.12 h, 8) |
| Walls.HexValue | systems/rendering.js:477-479 | a hexadecimal digit of either case reads as its value below 16 |
| Walls.HexPair | systems/rendering.js:477-479 | `parseInt` of two hex digits is a byte |
| Walls.DropFirstHash | systems/rendering.js:476 | `replace('#', '')` drops only the first '#', one character shorter when there is one, unchanged otherwise |
| Walls.ParseHexColor | systems/rendering.js:476-479 | a parsed colour has three byte channels |
| Walls.HexColor | systems/rendering.js:476-479 | the `#rrggbb` spelling of a colour is seven characters starting with '#' |
| Walls.HexPairOf | systems/rendering.js:477-479 | two hex digits written for a byte read back as that byte |
| Walls.HexColorRoundTrip | systems/rendering.js:476-479 | writing a colour as `#rrggbb` and reading it back gives the colour |
| Walls.ScaleBounds | systems/rendering.js:481-483 | `floor(c * b)` of a byte stays a byte no larger than c for b in [0, 1], and is at least c for b >= 1 |
| Walls.MulNonNegative | systems/rendering.js:481-483 | a product of non-negative factors is non-negative |
| Walls.NatDigitsRoundTrip | systems/rendering.js:485 | the decimal digits a template literal writes for a natural number read back as that number, and are all digits |
| Walls.AdjustBrightness | systems/rendering.js:475-486 | defined exactly on parseable `#rrggbb` colours, and then `rgb(R, G, B)` with each channel floor(channel * brightness) |
| Walls.AdjustBrightnessDims | halloween/game-bitecs.js:1418-1429 | a brightness in [0, 1] yields byte channels no brighter than the original |
| Walls.FullBrightnessKeepsColour | game-bitecs.js:616-627 | at brightness 1 a lower-case hex colour comes back channel for channel |
| Walls.WindowLightOverflows | systems/rendering.js:301 | the lit window `#ffcc00` at 1.5 times brightness 1 gives `rgb(382, 306, 0)`: no clamping to 255 |
| Raycaster.OwnCellSkipIsRedundant | halloween/game-bitecs.js:1307-1326 | the special case for the player's own cell changes no ray: the march as written equals the reference march in which the first building sample or grid exit stops the ray |
| Raycaster.MarchBounds | halloween/game-bitecs.js:1291-1328 | every ray reports a distance between 0.15 and 20.1, building code 1 only for an in-grid building cell, and at least the maximum depth (code 0) when it hit nothing |
| Raycaster.MarchStep | halloween/game-bitecs.js:1292-1326 | one step: leaving the grid stops the ray at the maximum depth, a building stops it at (k+1) * 0.15, anything else goes on |
| Raycaster.MarchRay | halloween/game-bitecs.js:1277-1328 | the `while (!hitWall && distance < maxDepth)` loop computes the reference march from the player's position |
| Raycaster.MarchOnce | halloween/game-bitecs.js:1292-1326 | one pass of the loop body advances the probe by one step and either stops with the march's result or leaves it unchanged |
| Raycaster.Paint | halloween/game-bitecs.js:1346-1348 | painting a span keeps the buffer's length |
| Raycaster.Fill | halloween/game-bitecs.js:1270-1348 | the depth buffer after `fill(maxDepth)` and the first n rays is canvas-wide |
| Raycaster.LastRayAt | halloween/game-bitecs.js:1342-1343 | the last ray starting at or left of a column starts there and no later ray does |
| Raycaster.CeilDiv | halloween/game-bitecs.js:1342 | `Math.ceil(width / rayCount)` is the quotient, plus one when there is a remainder |
| Raycaster.NextRayStartsWithinWidth | halloween/game-bitecs.js:1342-1343 | the next ray starts no later than this ray's first column plus the ray width: spans leave no gap |
| Raycaster.LastRayReachesEdge | halloween/game-bitecs.js:1342-1347 | the last ray's span reaches the right edge of the canvas |
| Raycaster.FillAt | halloween/game-bitecs.js:1346-1348 | once the last ray covering a column has run, the column holds that ray's corrected distance |
| Raycaster.DepthBufferCoverage | halloween/game-bitecs.js:1270-1348 | after a frame every column holds the depth of the last ray whose span covers it |
| Raycaster.NarrowCanvasCastsNothing | halloween/game-bitecs.js:1260 | a canvas narrower than two pixels casts no ray and keeps the maximum depth everywhere |
| Raycaster.Cast | halloween/game-bitecs.js:1291-1328 | a marched ray is well formed (the bounds of MarchBounds) |
| Grid.FishEye | halloween/game-bitecs.js:1331 | the fish-eye-corrected distance of a positive distance with a positive cosine is positive; `systems/rendering.js` corrects its hits the same way |
| Raycaster.Slice | halloween/game-bitecs.js:1334-1339 | the slice is centred on the horizon, its height times the corrected distance is half the canvas height, its brightness lies in [0.1, 1], is 1 - d/20 up to depth 18 and 0.1 from there; the ray's x and width and the hit's type and cell are kept |
| Raycaster.CorrectedPositive | halloween/game-bitecs.js:1331 | with a positive cosine of the ray's offset the corrected distance is positive |
| Raycaster.ColumnOf | halloween/game-bitecs.js:1331-1351 | the slice a ray draws has a positive depth and shows a building code only for an in-grid building cell |
| Raycaster.FillMax | halloween/game-bitecs.js:1270 | `zBuffer.fill(maxDepth)` sets every entry to 20 |
| Raycaster.PaintSpan | halloween/game-bitecs.js:1346-1348 | the span loop writes the value into exactly the columns lo..hi-1 and leaves the rest |
| Raycaster.CastColumn | halloween/game-bitecs.js:1273-1351 | one ray's march and correction give its corrected distance, positive, and its wall slice |
| Raycaster.DepthRenderer.constructor | halloween/game-bitecs.js:1256-1257 | no shared buffer yet, width 0 |
| Raycaster.DepthRenderer.Render3D | halloween/game-bitecs.js:1258-1354 | the shared buffer is reused when the width is unchanged and freshly allocated otherwise; afterwards it holds the frame's Fill and one wall slice per ray is drawn |
| Raycaster.ColumnsOfAt | halloween/game-bitecs.js:1272-1351 | every entry of the slices drawn so far is the slice of its ray |
| Raycaster.CastAll | halloween/game-bitecs.js:1272-1352 | the ray loop leaves the buffer holding the frame's Fill and draws the slice of each ray in order |
| Raycaster.Depths | halloween/game-bitecs.js:1331 | one corrected distance per ray |
| ClassicRender.ClearPrefix | systems/rendering.js:115-131 | clear steps change nothing: the march after them is the march after the last of them |
| ClassicRender.MarchResult | systems/rendering.js:105-134 | the march returns null iff every remaining step up to 20 is inside the grid on a code <= 0; otherwise it reports the first step that is not, its distance and its code (1 outside the grid) |
| ClassicRender.MarchStep | systems/rendering.js:116-130 | one step: outside the grid is a hit of code 1, a positive code is a hit of that code, anything else goes on |
| ClassicRender.MarchShape | systems/rendering.js:115-133 | a reported hit has a positive code and a distance between the next step and 20 |
| ClassicRender.March | systems/rendering.js:111-133 | the `while (!hitWall && distance < maxDistance)` loop computes the march for the given per-step offset |
| ClassicRender.CastRayAsWritten | systems/rendering.js:105-134 | castRay as written marches with the offset `cos(angle) * stepSize` multiplied again by the distance |
| ClassicRender.CastRay | systems/rendering.js:105-134 | castRay corrected: the march with the unit direction as the offset |
| ClassicRender.UnitScale | systems/rendering.js:117-118 | scaling a unit direction by t moves exactly t |
| ClassicRender.AsWrittenReachesOneUnit | systems/rendering.js:108-118 | as written, no sample of a unit direction lies more than one grid unit from the origin |
| ClassicRender.CorrectedSampleDistance | systems/rendering.js:116-118 | corrected, the sample at step j lies exactly j * 0.05 from the origin |
| ClassicRender.AsWrittenMissesEastWall | systems/rendering.js:105-134 | as written, a ray heading east from (0.5, 0.5) in the row `0 0 0 1` returns null |
| ClassicRender.CorrectedHitsEastWall | systems/rendering.js:105-134 | corrected, the same ray hits the building at distance 2.5 |
| ClassicRender.RayBound | systems/rendering.js:63-68 | `i < canvas.width / 2` with the unrounded bound runs the rays 0..(w+1)/2 - 1 |
| ClassicRender.WallHeight | systems/rendering.js:79 | the wall height times the corrected distance is the canvas height |
| ClassicRender.Record | systems/rendering.js:81-87 | the pushed record keeps the ray index, code and angle, and is well formed |
| ClassicRender.RayRecord | systems/rendering.js:69-88 | a ray's record, for the castRay as written (AsWritten) or the corrected one, when there is one, carries its index and is well formed |
| ClassicRender.RayRecordIffHit | systems/rendering.js:74 | a ray has a record iff the march with that stepping's offsets (the direction times 0.05 as written) did not return null |
| ClassicRender.AsWrittenRayMissesEastWall | systems/rendering.js:72-88 | for the first ray due east from (0.5, 0.5) in `[[0,0,0,1]]`, render3D pushes nothing as written and a record when corrected |
| ClassicRender.CastOne | systems/rendering.js:69-88 | one pass of the ray loop, calling castRay as written or corrected, yields that ray's record |
| ClassicRender.PresentSound | systems/rendering.js:81-87 | every record kept is the entry of its own ray |
| ClassicRender.PresentOrdered | systems/rendering.js:66-89 | kept records are in increasing ray order |
| ClassicRender.PresentComplete | systems/rendering.js:74-88 | no ray that hit is missing from the list |
| ClassicRender.RecordsOfAt | systems/rendering.js:68-89 | entry j of the records gathered so far is ray j's record |
| ClassicRender.CollectHits | systems/rendering.js:63-89 | render3D's hit list (AsWritten: with castRay as written) holds exactly the records of the rays that hit, in ray order, each with a positive code, a positive distance and height * distance = canvas height |
| ClassicRender.WallBrightness | systems/rendering.js:140 | brightness is at least 0.2, at most 1 for non-negative distance, 1 - d/20 up to 16 and 0.2 from 16 on |
| ClassicRender.Lookup | systems/rendering.js:283-285 | `Map.get`: a renderer iff the type is registered, and then the registered one |
| ClassicRender.RenderObject | systems/rendering.js:137-147 | a draw call iff the type has a renderer, with that renderer, the given x, y, height and distance, width 3, and the wall brightness of the distance |
| ClassicRender.ObjectRendererFactory.constructor | systems/rendering.js:274-275 | an empty registry |
| ClassicRender.ObjectRendererFactory.Register | systems/rendering.js:278-280 | the type now maps to the new renderer and every other type keeps its own |
| ClassicRender.ObjectRendererFactory.InitializeAll | systems/rendering.js:288-471 | codes 1..7 get their built-in renderers, other codes keep theirs |
| ClassicRender.RegisterOverrides | systems/rendering.js:278-280 | a later registration of a type overrides the earlier and leaves the others |
| ClassicRender.InitializedFactory | systems/rendering.js:274-471 | after initializeAll on an empty registry exactly the codes 1..7 draw, each with its own renderer |
| ClassicRender.ViewDistance | systems/rendering.js:166-172 | the floating passes draw only ghosts (2), pumpkins (3) and the witch (7, in renderFloatingWitch), with view distances 6, 4 and 8 |
| ClassicRender.Placement | systems/rendering.js:193-195 | a visible object sits at w/2 + (angleDiff / (pi/3)) * w/2, so on the canvas and strictly inside a non-empty one; its brightness is 1 - d/10 up to 8 and 0.2 from there |
| ClassicRender.RenderFloatingObject | systems/rendering.js:178-195 | an object is shown iff its distance is below the view distance and its angle difference, normalised into [-pi, pi], is within pi/3; then its placement is Placement of that normalised angle and distance, on the canvas |
| Sprites.SpritesAtIndex | halloween/objects/index.js:24-28 | sprite i of a cell list is the sprite of cell i, at the cell centre with the cell's code |
| Sprites.StaticSpritesCells | halloween/objects/index.js:18-32 | the static list pairs one-to-one with the row-major scan of sprite cells, each sprite standing in its own cell |
| Sprites.StaticSpritesSpec | halloween/objects/index.js:18-32 | a sprite is in the static list iff its cell is in the grid with a code 2..11 and it is that cell's sprite |
| Sprites.StaticSpritesOrdered | halloween/objects/index.js:20-31 | the static list is in strict row-major order of cells |
| Sprites.CollectStaticSprites | halloween/objects/index.js:18-32 | the nested scan computes the static list |
| Sprites.SpriteCache.constructor | halloween/objects/index.js:16 | the cache starts empty |
| Sprites.SpriteCache.Get | halloween/objects/index.js:37-39 | the first call stores the grid's static list; later calls return the stored list unchanged |
| Sprites.CandidateOf | halloween/objects/index.js:72-94 | a candidate keeps its type and position, lies in 0.25 < d² < 225 and within the field of view, and carries the square root of d² |
| Sprites.CandidateSpec | halloween/objects/index.js:75-94 | an object is a candidate iff it is in the distance window and its normalised bearing is strictly within pi/3; the bearing kept lies in [-pi, pi] |
| Sprites.CandidateDistance | halloween/objects/index.js:91 | with a sound square root a candidate's distance is positive |
| Sprites.Consider | halloween/objects/index.js:72-94 | the shared loop body computes the candidate, which lies in the window |
| Sprites.StaticPassSpec | halloween/objects/index.js:49-95 | a visible static sprite is exactly the candidate of a non-skipped cached sprite |
| Sprites.StaticSkips | halloween/objects/index.js:53-70 | with live enemies no static enemy (2, 7, 10) is kept; collected lanterns and exploded bats are never kept |
| Sprites.PumpkinPassSpec | halloween/objects/index.js:98-131 | a visible pumpkin is exactly the type-3 candidate of a placed pumpkin whose cell is not collected |
| Sprites.PumpkinSkips | halloween/objects/index.js:100-106 | collected pumpkins are never kept; kept ones are type 3 and in the window |
| Sprites.StaticVisible | halloween/objects/index.js:49-95 | the loop over the cache computes the static pass, all in the window |
| Sprites.PumpkinVisible | halloween/objects/index.js:98-131 | the loop over the placed pumpkins computes the pumpkin pass |
| Sprites.EnemyVisible | halloween/objects/index.js:159-184 | the loop over the live enemies computes the enemy pass |
| Sprites.VisibleSprites | halloween/objects/index.js:41-184 | the visible list is the four passes in source order, all in the window |
| Sprites.SortByDistance | halloween/objects/index.js:187 | the sort leaves the sprites far to near and is a permutation |
| Sprites.SinkingStarts | halloween/objects/index.js:187 | an insertion step starts from a sorted prefix |
| Sprites.SinkingSwap | halloween/objects/index.js:187 | swapping past a nearer neighbour keeps the step's shape and the multiset |
| Sprites.SinkingEnds | halloween/objects/index.js:187 | the step ends with a longer sorted prefix |
| Sprites.Sink | halloween/objects/index.js:187 | one insertion step sorts one more element, as a permutation |
| Sprites.PlacementSpec | halloween/objects/index.js:200-204 | a sprite straight ahead is centred; its height times distance is 0.8 h and its width times distance 0.64 h |
| Sprites.CheckXInSpan | halloween/objects/index.js:220 | the five samples run from the left edge to the right edge and stay in the span |
| Sprites.ShownCount | halloween/objects/index.js:219-227 | at most n of n samples show the sprite |
| Sprites.ShownExtremes | halloween/objects/index.js:219-232 | a sprite visible at every sample counts 5, one hidden at every sample counts 0 |
| Sprites.DrawSprite | halloween/objects/index.js:195-233 | with a buffer the sprite is drawn iff at least 3 of 5 samples show it; without one it is always drawn |
| Sprites.RenderSprites | halloween/objects/index.js:35-193 | the cache is filled once, the drawing order is a far-to-near permutation of the candidates, and each is passed to drawSprite in that order |
| Sprites.WindowPositive | halloween/objects/index.js:78 | with a sound square root everything in the window is at a positive distance |
| Sprites.SamePositive | halloween/objects/index.js:187-192 | sorting keeps distances positive |
| Sprites.DrawAll | halloween/objects/index.js:190-192 | drawSprite's decision for each sprite, in order |
| Sprites.CandidatesPositive | halloween/objects/index.js:41-184 | every candidate lies in the window and has a positive distance |
| Sprites.EnemyPassWindow | halloween/objects/index.js:159-184 | every live enemy kept lies in the window |
| Movement.CanMoveTo | halloween/systems/input-bitecs.js:111-121 | false within 0.2 of the boundary; otherwise the cell is inside the grid and the answer is the variant's wall rule on it (not a building here, only floor in halloween/systems/input.js:108-117) |
| Movement.SafeOffsetsMembers | halloween/systems/input-bitecs.js:160-177 | an offset is safe iff it lies within radius 3, lands at least 0.5 inside the boundary and on a walkable cell |
| Movement.PassedAtNextRadius | halloween/systems/input-bitecs.js:160 | offsets passed before the next radius were passed at the end of this one |
| Movement.PassedAtNextColumn | halloween/systems/input-bitecs.js:161 | offsets passed before the next dx were passed at the end of this one |
| Movement.PassedAtNextRow | halloween/systems/input-bitecs.js:162 | an offset passed before the next dy was passed before this one or is this one |
| Movement.SearchInFinds | halloween/systems/input-bitecs.js:160-180 | the search from any point returns a safe offset that no safe offset precedes in visiting order, or nothing when none is safe |
| Movement.FirstSafeSpec | halloween/systems/input-bitecs.js:157-183 | the search returns the first safe offset in visiting order (radius, then dx, then dy), and nothing iff no offset within radius 3 is safe |
| Movement.NearbySpec | halloween/systems/input-bitecs.js:157-183 | the player is moved to a point at least 0.5 inside the boundary on a walkable cell, or stays put only when no offset within radius 3 is safe |
| Movement.FindNearbySafePosition | halloween/systems/input-bitecs.js:157-183 | the three nested loops with the early return compute the reference search |
| Movement.ScanOffsets | halloween/systems/input-bitecs.js:162-178 | the dy loop returns the search's first safe offset at this dx, or finds none and the search moves on to the next dx |
| Movement.ClampAxis | halloween/systems/input-bitecs.js:128-139 | on an axis of at least two cells the clamp lands in [0.5, n - 0.5) and leaves a value already there unchanged |
| Movement.BoundedSpec | halloween/systems/input-bitecs.js:124-154 | on a grid of at least 2 x 2 checkBounds leaves the player at least 0.5 inside the boundary, on a walkable cell unless no nearby offset was safe |
| Movement.BoundedIdempotent | halloween/systems/input-bitecs.js:124-154 | a second checkBounds does not move the player |
| Movement.Pose.constructor | halloween/systems/input-bitecs.js:10-11 | position and heading as given |
| Movement.CheckBounds | halloween/systems/input-bitecs.js:124-154 | checkBounds in place moves the player to the bounded position and keeps the heading |
| Movement.RejectedMoveStays | halloween/systems/input-bitecs.js:81-84 | a refused proposal leaves a bounded player where it was |
| Movement.AcceptedMoveIsClear | halloween/systems/input-bitecs.js:77-80 | an accepted proposal lands on a walkable cell at least 0.2 inside the boundary |
| Movement.TurnedSpec | halloween/systems/input-bitecs.js:62-69 | both turn keys or neither keep the heading; one key turns by exactly rotSpeed |
| Movement.Propose | halloween/systems/input-bitecs.js:72-99 | one proposal moves to the new point when canMoveTo accepts it and runs checkBounds otherwise; the heading is kept |
| Movement.Update | halloween/systems/input-bitecs.js:52-109 | without a player nothing happens; otherwise the heading turns, the forward then backward proposals are applied, a footstep with `up or down` is requested when sound is attached, and checkBounds runs last |
| Movement.UpdateKeepsBounds | halloween/systems/input-bitecs.js:107-108 | after update the player is at least 0.5 inside the boundary and checkBounds would not move it |
| Placement.PickIndex | game-bitecs.js:71 | `Math.floor(Math.random() * n)` with a draw in [0, 1) is a valid index of a non-empty pool |
| Placement.OpenInteriorSpec | game-bitecs.js:56-63 | the pool holds exactly the floor cells off the border, each once |
| Placement.Splice | game-bitecs.js:79 | `splice(i, 1)` removes one element |
| Placement.SpliceSpec | game-bitecs.js:79 | splicing keeps every other element with its multiplicity; from a pool without repeats the removed cell is gone and no repeat appears |
| Placement.DrawCount | game-bitecs.js:69-80 | the loop places min(totalPumpkins, pool size) pumpkins and leaves the rest of the pool |
| Placement.DrawPermutes | game-bitecs.js:69-80 | the chosen cells and the pool left over are together exactly the original pool |
| Placement.ConsDistinct | game-bitecs.js:75-79 | prepending a cell not in a repeat-free list keeps it repeat-free |
| Placement.DrawDistinct | game-bitecs.js:69-80 | the chosen cells are distinct and none of them is left in the pool |
| Placement.Centers | game-bitecs.js:75 | one pumpkin position per chosen cell |
| Placement.CentersAt | game-bitecs.js:75-76 | pumpkin k stands at the centre of chosen cell k, so its cell key is that cell |
| Placement.CentersSnoc | game-bitecs.js:75 | pushing a cell appends its centre |
| Placement.PlacePumpkins | game-bitecs.js:56-80 | the scan and the pumpkin loop yield the reference draw: the chosen cells, their centres, placedPositions holding exactly them, and the pool left for the guide |
| Placement.DrawPumpkins | game-bitecs.js:66-80 | the pumpkin loop over a pool computes the reference draw |
| Placement.GuideCell | game-bitecs.js:85-88 | the guide gets a cell iff the pool left is non-empty, and the cell is from that pool |
| Placement.GuidePosition | game-bitecs.js:85-91 | witchGirlPosition is null iff no cell is left, otherwise the centre of the guide's cell |
| Placement.PlacementSpec | game-bitecs.js:56-91 | min(total, open interior cells) pumpkins on distinct interior floor cells; a guide iff cells remain, on an interior floor cell holding no pumpkin |
| HalloweenGame.PhaseForward | halloween/game-bitecs.js:219-298 | the phase machine only moves forward, one stage per change, and VICTORY and GAMEOVER are final |
| HalloweenGame.PhaseTriggers | halloween/game-bitecs.js:226-296 | INTRO and RETURN advance exactly when the guide is nearer than 1.5, BETRAYAL exactly at its deadline, ESCAPE ends in GAMEOVER exactly when HP is 0 or less and in VICTORY exactly when HP is positive and 60 s have passed; COLLECT is never left here |
| HalloweenGame.DamageWindow | halloween/game-bitecs.js:440-453 | a hit costs exactly one HP and restarts the window, only when the last hit is more than 1000 ms old; a second source in the same tick or within the window does nothing |
| HalloweenGame.OneHitCompose | halloween/game-bitecs.js:440-453 | two steps that each cost at most one window-allowed hit compose into one such step |
| HalloweenGame.DamagedOneHit | halloween/game-bitecs.js:732 | a damage source and a capped heal are each such a step |
| HalloweenGame.HealedBySpec | halloween/game-bitecs.js:732 | k lanterns bring HP to min(maxHP, hp + k) and never above the maximum |
| HalloweenGame.KeysOfSnoc | halloween/game-bitecs.js:695 | the key set of one more item is the old key set plus that item's cell |
| HalloweenGame.TakenStep | halloween/game-bitecs.js:685-695 | one more item is taken exactly when it is within reach and its key is neither known nor taken earlier in the loop |
| HalloweenGame.TakenFresh | halloween/game-bitecs.js:685-695 | every item a pickup loop takes is one of the items, within reach, and its key was not already in the set |
| HalloweenGame.TakenComplete | halloween/game-bitecs.js:685-695 | every item within reach has its key in the set after the loop |
| HalloweenGame.TakenCount | halloween/game-bitecs.js:685-695 | the set grows by exactly the number of items taken |
| HalloweenGame.TakenAgain | halloween/game-bitecs.js:682-782 | running a pickup loop again from the set it left takes nothing, so an item is never picked twice |
| HalloweenGame.TakenNone | halloween/game-bitecs.js:685-695 | when every item within reach is already in the set the loop takes nothing |
| HalloweenGame.Repeat | halloween/game-bitecs.js:735-737 | m requests of one sound are m long |
| HalloweenGame.Explosions | halloween/game-bitecs.js:506-535 | one explosion per exploded bat, at its cell's centre (particles are left out) |
| HalloweenGame.Recent | halloween/game-bitecs.js:594-598 | the render-time filter keeps exactly the explosions created less than 600 ms before |
| HalloweenGame.RecentAppend | halloween/game-bitecs.js:594-598 | the filter keeps the order: filtering a joined list joins the filtered parts |
| HalloweenGame.RecentKeepsYoung | halloween/game-bitecs.js:594-598 | a list of explosions all younger than 600 ms is unchanged |
| HalloweenGame.RecentIdempotent | halloween/game-bitecs.js:594-598 | filtering twice at one time is filtering once |
| HalloweenGame.SpeedMultiplierMonotone | halloween/game-bitecs.js:306-314 | the enemy speed multiplier only grows with the escape's elapsed time and stays between 1.0 and 2.0 |
| HalloweenGame.Recruits | halloween/game-bitecs.js:117-131 | one enemy per ghost, witch or skeleton cell, in scan order, at the cell centre with its own base speed |
| HalloweenGame.Kittens | halloween/game-bitecs.js:132-141 | one cat per cat cell, in scan order, at the cell centre with speed 0.018 |
| HalloweenGame.Steer | halloween/game-bitecs.js:372-418 | a ghost moves by the whole step, through walls; any other enemy either stays put or lands on walkable ground |
| HalloweenGame.Stepped | halloween/game-bitecs.js:375-417 | the step towards the player, with the sine-signed sidestep as the last resort, keeps a non-ghost enemy on walkable ground or where it stood |
| HalloweenGame.Chased | halloween/game-bitecs.js:353-437 | an enemy's turn keeps its kind and flags, moves a non-ghost only onto walkable ground, and moves nobody within 0.1 of the player |
| HalloweenGame.ChaseMoved | halloween/game-bitecs.js:353-455 | the enemy loop leaves enemy k exactly as its own turn leaves it, for every k |
| HalloweenGame.ChaseVitals | halloween/game-bitecs.js:440-453 | however many enemies touch the player in one pass, HP falls by the window rule once if any touches and not at all otherwise |
| HalloweenGame.ChaseClosest | halloween/game-bitecs.js:363-370 | the distance passed to the proximity sound is the least distance of all enemies, and is absent (Infinity) exactly when there are none |
| HalloweenGame.EnemyTurnMoved | halloween/game-bitecs.js:353-453 | the enemy turn moves every enemy exactly as its own turn does, and keeps their number |
| HalloweenGame.EnemyTurnVitals | halloween/game-bitecs.js:440-503 | contact and projectile damage together cost at most one window-allowed hit and never raise HP |
| HalloweenGame.EnemyTurnMagic | halloween/game-bitecs.js:456-503 | no projectile left after the enemy turn is old or touching the player |
| HalloweenGame.EnemyTurnClosest | halloween/game-bitecs.js:459-463 | the turn ends with the enemy and cat proximity requests, the enemy one carrying the least enemy distance, absent exactly when there are no enemies |
| HalloweenGame.Live | halloween/game-bitecs.js:469-472 | the filter keeps only projectiles created less than 5000 ms ago |
| HalloweenGame.Flown | halloween/game-bitecs.js:475-503 | no projectile left after the update is within 0.5 of the player |
| HalloweenGame.FlownSpec | halloween/game-bitecs.js:469-503 | a projectile survives exactly when it is younger than its lifetime and, moved once, misses the player |
| HalloweenGame.FlownLive | halloween/game-bitecs.js:469-503 | filtering then moving a list is doing so to its head, then to the rest |
| HalloweenGame.FlownFrom | halloween/game-bitecs.js:475-503 | every surviving projectile is one of the inputs moved once by its velocity |
| HalloweenGame.PumpkinStepKeys | halloween/game-bitecs.js:688-695 | one pumpkin adds its cell to the collected set exactly when it is taken |
| HalloweenGame.PumpkinKeysStep | halloween/game-bitecs.js:682-715 | the induction step of PumpkinLoopKeys |
| HalloweenGame.PumpkinLoopKeys | halloween/game-bitecs.js:682-715 | the pumpkin loop collects the cells of exactly the pumpkins taken |
| HalloweenGame.CardPlusOne | halloween/game-bitecs.js:695 | adding a new cell grows the set's size by one |
| HalloweenGame.PumpkinLoopHolds | halloween/game-bitecs.js:682-715 | after the loop the set's size is its old size plus the number taken, and it holds exactly the old and the taken cells |
| HalloweenGame.PumpkinStepRest | halloween/game-bitecs.js:688-711 | a taken pumpkin plays "pumpkin", and when the set has reached 5 it also plays "jump", sets RETURN and the 3.5 s overlay |
| HalloweenGame.PumpkinCallsSnoc | halloween/game-bitecs.js:698-709 | one more pumpkin appends its own sounds after the earlier ones |
| HalloweenGame.PumpkinLoopStep | halloween/game-bitecs.js:682-715 | the effect of the pumpkin at the loop's current index, in terms of what the loop has taken so far |
| HalloweenGame.PumpkinLoopPhase | halloween/game-bitecs.js:704-711 | the loop ends in RETURN with the overlay at t + 3500 exactly when it took a pumpkin and the set reached 5 |
| HalloweenGame.PumpkinCallsStep | halloween/game-bitecs.js:682-715 | the induction step of PumpkinLoopCalls |
| HalloweenGame.PumpkinLoopCalls | halloween/game-bitecs.js:698-709 | the loop plays "pumpkin" once per pumpkin taken, each followed by "jump" once the set is full |
| HalloweenGame.LanternSpecStep | halloween/game-bitecs.js:718-743 | the induction step of LanternLoopSpec |
| HalloweenGame.LanternLoopSpec | halloween/game-bitecs.js:718-743 | the lantern loop uses up exactly the lanterns taken, heals once per lantern up to the maximum and plays "heal" once per lantern |
| HalloweenGame.BatSpecStep | halloween/game-bitecs.js:746-782 | the induction step of BatLoopSpec |
| HalloweenGame.BatLoopSpec | halloween/game-bitecs.js:746-782 | the bat loop explodes exactly the bats within 1.0 not yet exploded, adds one explosion and one "explosion" sound each, and costs at most one window-allowed hit |
| HalloweenGame.MagicParts | halloween/game-bitecs.js:488 | splitting a list around one projectile gives back its parts |
| HalloweenGame.FlownAt | halloween/game-bitecs.js:475-503 | updating the projectiles from index i is updating projectile i, then those after it |
| HalloweenGame.MagicTurn | halloween/game-bitecs.js:475-503 | one turn of the backward loop, moving projectile i in place and splicing it out on a hit, extends the updated suffix by one |
| HalloweenState.Heard | halloween/game-bitecs.js:233-235 | sound requests reach the port exactly when there is one, and nothing is requested otherwise |
| HalloweenState.HeardAppend | halloween/game-bitecs.js:698-709 | two guarded requests in a row are one guarded request of both |
| HalloweenState.HeardExtends | halloween/game-bitecs.js:233-235 | a guarded request only appends to what the port has received |
| HalloweenState.ReadMap | halloween/game-bitecs.js:115-167 | the setup's scans: one enemy per ghost, witch or skeleton cell, one cat per cat cell, the lantern cells and the bat cells, each in row-major order |
| HalloweenState.FlyMagic | halloween/game-bitecs.js:467-504 | the projectiles left are the live ones moved once, minus those that hit; HP falls once by the window rule if any hits, "ghost" plays exactly then, and no survivor is old or within 0.5 |
| HalloweenState.GatherPumpkins | halloween/game-bitecs.js:682-715 | the loop's while-loop computes the pumpkin fold: the taken cells join the set, RETURN and its overlay exactly when the set reaches 5, and the pumpkin and jump sounds |
| HalloweenState.UseLanterns | halloween/game-bitecs.js:718-743 | the loop uses up the lanterns taken, brings HP to min(maxHP, hp + k) and plays "heal" k times |
| HalloweenState.BlowBats | halloween/game-bitecs.js:746-782 | the loop computes the bat fold's closed form: the exploded set, one explosion and sound per bat, at most one hit |
| HalloweenState.Game.constructor | halloween/game-bitecs.js:56-176 | the initial gameState: INTRO, full HP, empty sets, the pumpkins and the guide drawn from the open cells, the creatures read off the map, the intro overlay for 3.5 s |
| HalloweenState.Game.Escalate | halloween/game-bitecs.js:316-347 | the cats join the enemies once, 30 s before the end, and the guide once 10 s into the escape when there is one, appended in that order (Joining), each with its sound (JoiningCalls); nothing else changes |
| HalloweenState.ChaseAll | halloween/game-bitecs.js:353-453 | the enemy loop computes the fold Chase over all enemies: each enemy as its own turn leaves it, and at most one window-allowed hit, taken exactly when one touches |
| HalloweenState.TurnEnemies | halloween/game-bitecs.js:353-463 | the enemy loop, updateMagicAttacks and the proximity requests compute EnemyTurn |
| HalloweenState.Game.Pursue | halloween/game-bitecs.js:353-463 | the enemies, projectiles, HP and sounds written back are exactly those of EnemyTurn from the current state; every enemy has had its turn, at most one hit, no projectile left is old or touching |
| HalloweenState.Game.UpdateEnemies | halloween/game-bitecs.js:302-464 | the escalations, then EnemyTurn over the old enemies followed by those that joined: the enemies, projectiles, HP and sounds are exactly its results, every enemy including the newcomers has its turn, at most one hit, sounds only appended |
| HalloweenState.Game.MeetGuide | halloween/game-bitecs.js:227-238 | INTRO becomes COLLECT, the clock starts at t, the intro message shows for 2 s and "door" plays |
| HalloweenState.Game.Unmask | halloween/game-bitecs.js:244-254 | RETURN becomes BETRAYAL, its message shows for 3 s and "ghost" plays |
| HalloweenState.Game.BeginEscape | halloween/game-bitecs.js:256-267 | BETRAYAL becomes ESCAPE, the escape clock starts at t, its overlay shows for 3.5 s and "door" plays |
| HalloweenState.Game.Settle | halloween/game-bitecs.js:274-295 | VICTORY after 60 s records the time and the final time, GAMEOVER at HP 0 overrides it in the same tick, with their sounds |
| HalloweenState.Game.EscapeTick | halloween/game-bitecs.js:269-298 | an ESCAPE tick: exactly the enemy turn of UpdateEnemies, then the end check on the HP it left, its sounds after the turn's |
| HalloweenState.Game.Advance | halloween/game-bitecs.js:226-267 | the INTRO, RETURN and BETRAYAL cases: the one transition NextPhase gives, with its times and its "door" or "ghost", and nothing otherwise |
| HalloweenState.Game.UpdatePhase | halloween/game-bitecs.js:219-300 | nothing without a guide or after an ending; otherwise the one transition NextPhase gives, with the fields of that transition set and every other left as it was; in ESCAPE, exactly the enemy turn and end check of EscapeTick |
| HalloweenState.Game.CollectPumpkins | halloween/game-bitecs.js:682-715 | during COLLECT the set grows by the taken cells, the phase is RETURN exactly when it reaches 5, and the sounds are those of the taken pumpkins |
| HalloweenState.Game.HealAtLanterns | halloween/game-bitecs.js:718-743 | the taken lanterns are used up, HP becomes min(maxHP, hp + k), and "heal" plays k times |
| HalloweenState.Game.ExplodeBats | halloween/game-bitecs.js:746-782 | the taken bats explode, one explosion and one sound each, and HP falls once by the window rule if any did |
| HalloweenState.Game.Pickups | halloween/game-bitecs.js:682-782 | the pumpkin block runs only in COLLECT, with its exact set, phase, overlay and sounds; the lantern block only in ESCAPE below the maximum HP; the bat block only in ESCAPE, each with exact results; outside COLLECT and ESCAPE nothing changes |
| HalloweenState.Game.EscapePickups | halloween/game-bitecs.js:718-782 | in ESCAPE, the lanterns taken are used up below the maximum HP and heal, then the bats taken explode, with the exact HP, sets, explosions and sounds |
| HalloweenState.Game.Walk | halloween/game-bitecs.js:670-676 | a footstep plays when the player moved by more than 0.01 outside GAMEOVER, and the last position becomes the current one |
| HalloweenState.Game.Step | halloween/game-bitecs.js:664-786 | one frame for the player: footsteps, the phase update and the pickups; the phase only moves forward, endings are final, at most one hit; pumpkins only in COLLECT, with its exact set and phase; lanterns and bats only in BETRAYAL or ESCAPE and never after an ending |
| HalloweenState.Game.Progress | halloween/game-bitecs.js:679-782 | updatePhase, then the pickup blocks: the same phase, hit and pickup gating as Step |
| HalloweenState.Game.EscapeProgress | halloween/game-bitecs.js:679-782 | in ESCAPE, updatePhase and the pickups: no pumpkin changes, at most one hit, and no lantern or bat once the escape has ended |
| HalloweenState.Game.Throttle | halloween/game-bitecs.js:789-792 | a render happens exactly when 20 ms have passed since the last one, which becomes t |
| HalloweenState.Game.Tick | halloween/game-bitecs.js:656-795 | one gameLoop call: with no player the game state is untouched; the phase only moves forward, endings are final, at most one hit per call; the same pickup gating as Step; the render throttle; a render with a player prunes the explosions to those younger than 600 ms at the render clock (game-bitecs.js:950-972) |
| CollectGame.HaulStepSpec | game-bitecs.js:218-245 | one pumpkin in reach with a new cell is collected and plays "pumpkin", and when the set has reached 15 it completes the round and plays "jump" |
| CollectGame.HaulKeysStep | game-bitecs.js:213-247 | the induction step of HaulLoopKeys |
| CollectGame.HaulLoopKeys | game-bitecs.js:213-247 | the collection loop adds the cells of exactly the pumpkins taken |
| CollectGame.HaulLoopHolds | game-bitecs.js:213-247 | after the loop the set's size is its old size plus the number taken, and it holds exactly the old and the taken cells |
| CollectGame.HaulLoopStep | game-bitecs.js:213-247 | the effect of the pumpkin at the loop's current index, in terms of what was taken before it |
| CollectGame.HaulLoopDone | game-bitecs.js:235-236 | the round is completed after the loop exactly when it was before, or the loop took a pumpkin and the set reached 15 |
| CollectGame.HaulCallsStep | game-bitecs.js:213-247 | the induction step of HaulLoopCalls |
| CollectGame.HaulLoopCalls | game-bitecs.js:228-241 | one "pumpkin" per pickup, each followed by "jump" once the set has reached 15 |
| CollectGame.HaulAgain | game-bitecs.js:213-247 | a second loop at the same position collects nothing and plays nothing |
| CollectGame.CollectAll | game-bitecs.js:214-246 | the while-loop computes the collection fold: the taken cells, completion exactly when 15 are reached, and the sounds |
| CollectGame.Session.constructor | game-bitecs.js:37-91 | the initial gameState: nothing collected, not started, not completed, 15 pumpkins and the guide drawn from the open cells, the player at the safe position |
| CollectGame.Session.PressE | game-bitecs.js:99-115 | the E key changes nothing, because canTalk is never true |
| CollectGame.Session.ReleaseE | game-bitecs.js:143-146 | releasing E clears the key flag |
| CollectGame.Session.Approach | game-bitecs.js:186-210 | within 1.5 of the guide an unstarted round starts exactly once, with the start time, the 2 s message and "door" |
| CollectGame.Session.Gather | game-bitecs.js:213-247 | while started and not completed the set grows by the taken cells with their sounds; otherwise nothing changes; completion is never undone |
| CollectGame.Session.Walk | game-bitecs.js:177-183 | a footstep plays when the player moved by more than 0.01, and the last position becomes the current one |
| CollectGame.Session.Throttle | game-bitecs.js:255-258 | a render happens exactly when 20 ms have passed since the last, which becomes t |
| CollectGame.Session.Tick | game-bitecs.js:163-261 | one gameLoop call: the start is never undone and its time never changes, the set only grows, a completed round collects nothing more, sounds are only appended, and the render throttle |

## Left out

- Canvas drawing is not modelled, because it is cosmetic floating-point drawing and the model stops at what a renderer is handed (a wall slice, a sprite placement). This covers the per-creature sprite routines, sky and ground, the drawing of explosions and projectiles, signs, gravestones and the victory effects.
- The minimap, `updateGameUI` and every other DOM write are not modelled, because they are display only, as is the `toFixed` number formatting.
- `Math.sqrt`, `Math.atan2`, `Math.cos` and `Math.sin` are not computed. Their results come from the `Trig` oracle given by the caller, because exact trigonometry is out of reach of the verifier; a distance that is only compared is compared squared instead.
- Sprites.RenderSprites: assumes of the oracle only that a positive number has a positive square root (`Grid.SqrtPositive`), which `Math.sqrt` satisfies; the same holds for Sprites.CandidateDistance, Sprites.WindowPositive and Sprites.DrawAll.
- Raycaster.DepthRenderer.Render3D: assumes the oracle's cosine is positive on each ray's offset from the view direction, which `Math.cos` satisfies on the 60° field of view, because the wall height divides by the corrected distance.
- ClassicRender.CollectHits: assumes the oracle's cosine is positive on each ray's offset from the view direction (`ClassicRender.CosPositive`), which `Math.cos` satisfies within the π/6 half field of view, because the wall height divides by the corrected distance; the same holds for ClassicRender.RayRecord, ClassicRender.RayRecordIffHit and ClassicRender.CastOne.
- Float32 rounding is not modelled, because positions and depths are exact reals. This affects the bitECS component arrays and the `Float32Array` depth buffer.
- `floor` of item positions is not modelled: every pumpkin, lantern and bat is kept as its cell, and its position is the centre of that cell. `Grid.CenterInCell` proves that the key `${floor(x)},${floor(y)}` of a centre is the cell itself. This keeps the real-to-integer conversion out of the proofs.
- `Math.random`, `performance.now`, `Date.now` and the frame's `deltaTime` are not called. They become parameters: the placement draws, the clock `t` (and `now` for the collection game's start time and for the halloween render's explosion pruning) and the movement speeds.
- The random particles of an explosion are not modelled, because they are cosmetic; an explosion records only where and when it happened.
- The enemy step takes the sign of the sidestep from the oracle's sine of `t * 0.005 + k`. It is not computed.
- The `updateCatProximitySound` call is recorded as a `CatProximity` request only, because `halloween/sounds.js` does not define that method.
- The sounds `magic`, `explosion` and `heal` that the halloween game requests are recorded in order, but `halloween/sounds.js` does not register them, so what the sound manager would do with them is not modelled.
- The Web Audio node graphs, the `AudioContext` and its `resume()` promise are not modelled, because they are foreign calls. A sound the manager plays is recorded by name.
- The S and A key handlers of the two games are not modelled, because they only forward to `toggleSound` and `toggleAmbient` (modelled in `Sounds`) and write the DOM.
- `bitECS` queries are not modelled: the player query of `gameLoop` becomes an `Option<Point>`, None when there is no player entity.
- The pickup loops, the enemy loop and `updateMagicAttacks` run on local copies of the fields they change and write them back once. No other code can observe the fields between two iterations, because the game is single-threaded.
- `console.log` is not modelled.
- `requestAnimationFrame`, the event listener wiring, the waits for `window.BitECS`, `GameEngine` and `ecs-bitecs.js` are not modelled, because they are scheduling and glue around code that is not part of this model.
- `systems/animation.js` is not modelled, because it produces sine offsets and random flicker.
- The `Components` factories of `components/objects.js` are not modelled, because they are record constructors with random or clock defaults.
- `Utils.distance`, `Utils.degToRad` and `Utils.radToDeg` are not modelled, because they are floating-point helpers the modelled code does not call.
- `EntityManager.entries` is not modelled, because it returns a live iterator over the same map that `getAll` lists.
- The `apply`, `setLang` and `localStorage` parts of the i18n module are not modelled, because they are DOM and storage I/O; `getLang` takes the stored language as a parameter.
- Ecs.EntityManager.AddComponent: returns nothing, whereas the source returns `this` for chaining; the same holds for Ecs.EntityManager.RemoveComponent. The components are values, so the model has none of the aliasing of the component objects that `getComponent` and the queries hand out.
- Ecs.MapRange: yields None for an empty input range, where JavaScript divides by zero and yields NaN or an infinity.
- Walls.AdjustBrightness: yields None for a colour that is not `#` followed by six hexadecimal digits, where JavaScript would produce NaN channels or read a valid prefix of a malformed digit pair.
- Sprites.SortByDistance: states the far-to-near order and the permutation, but not the stability that `Array.prototype.sort` guarantees for sprites at equal distance.
- I18n.T: inserts a parameter value literally, whereas `String.prototype.replace` would expand `$&`-style patterns in it, and a parameter name is matched literally rather than as a regular expression.
- HalloweenState.Game.Settle: keeps the final time as milliseconds from the start of COLLECT rather than the `toFixed(2)` string of seconds, because that formatting is display only.

## Findings

| source | as written | input that shows it | evidently intended | confidence | as-written member | corrected member |
|---|---|---|---|---|---|---|
| systems/rendering.js:108-118 | `dx` and `dy` are already scaled by `stepSize`, and the sample is `originX + dx * distance`, so the step size is applied twice and no ray samples farther than one grid unit from the player, although it reports distances up to 20 | the map `[[0,0,0,1]]`, a ray from (0.5, 0.5) heading east: `castRay` returns null | the sample at travelled distance d lies d from the origin, so this ray hits the building at distance 2.5 | not executed | ClassicRender.CastRayAsWritten, ClassicRender.AsWrittenMissesEastWall, ClassicRender.AsWrittenReachesOneUnit, ClassicRender.AsWrittenRayMissesEastWall | ClassicRender.CastRay, ClassicRender.CorrectedHitsEastWall, ClassicRender.CorrectedSampleDistance |
