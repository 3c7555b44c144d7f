# Racing All Afternoon — a Dafny model of the race core

Racing All Afternoon is a pseudo-3D kart racer. A race runs on a road of
150-unit segments, built from a course's eight-symbol geometry. Up to six
racers drive it: one human and the rest computer-driven. They pick up
tarot-card pickups, cast seven skills at the racers ahead of them and race
three laps; places are recomputed every tick. Each frame the road is drawn
by walking `draw_distance` segments ahead of the camera, projecting each
one and clipping it against the segments nearer to the camera.

This project models that core and proves properties about it:

- **`arith.dfy`** (`Arith`): the numeric helpers of `main.py`:
  - `increase`, `limit`, `interpolate`, `percent_remaining`;
  - the three eases;
  - `int()` truncation and `round()`;
  - the frame-rate factor;
  - the projection scale.
- **`track.dfy`** (`Track`): segments and `find_segment`, and the road
  builders `add_segment`/`add_road`. Segments keep lists of the racers on
  them; `update_car` and `reset_cars` maintain those lists.
- **`course.py` → `course.dfy`** (`Course`):
  - the random geometry walk;
  - the stage file's colours and lengths;
  - the four palettes.
- **`player.py` → `player.dfy`** (`Player`):
  - `load_data`: the persona's stat modifiers, the skill table and the converted stats;
  - the state `__init__` leaves a racer in.
- **`physics.dfy`** (`Physics`): one racer's share of `update`:
  - the mini-turbo, hops and attacks, health and recovery;
  - the mudo/hama fades, timers;
  - forward and sideways movement, speed.
- **`items.dfy`** (`Items`):
  - pickups and projectiles (`add_item`, the twenty pickups of `reset_road`);
  - `update_items`: hits, movement and removal.
- **`standings.dfy`** (`Standings`): `get_new_lap`, `update_places` and the
  leader's progress that the catch-up factor reads.
- **`driver.dfy`** (`Driver`):
  - the computer drivers of `get_cpu_inputs`;
  - the human's steering and skill use from `get_inputs`;
  - the seven skills.
- **`race.dfy`** (`Race`): the race itself, class `RaceState`. Its fields
  are updated in place, as in the source:
  - the segments, the items and the array of racers;
  - `reset`/`reset_road`/`reset_cars`;
  - `update`, `update_items`, `get_new_lap`, `update_places`;
  - the input passes.
- **`render.dfy`** (`Render`), the computable core of the renderer:
  - the width helpers and the fog blend of `render.py`;
  - lane markers, sprite scaling and clip gating;
  - the racer pose and exhaust choice;
  - `project`;
  - the two road loops of `render` in `main.py`: the walk with its clip line, and the walls.

The source is Python 2. Integer `/` floors, `int()` truncates toward zero
and `round()` rounds halves away from zero; each is written out.

Floats are modelled as exact reals.

Whatever the program gets from outside arrives as a parameter:

- Randomness:
  - the turbo roll of `randint(0, has_boosted + 1)`;
  - the index `random.choice` picks from the skill table;
  - the speed jitter in 99..101;
  - the computer's 2 % skill roll;
  - the left/right sign of each Zio push;
  - the MEDIUM/HARD curve picks;
  - the course walk's ±1 steps.
- `math.cos`, as a function `cos`.
- The frame-rate factor `max(1, 1 + (60 - fps)/60)`, as `k >= 1`.
- Key and button states, as booleans.
- The contents of the stage, persona and character files, as parsed lines.

## Model

| member | source | states |
|---|---|---|
| Arith.Increase | main.py:1082-1084 | the result stays in [0, maximum]; it is the plain sum when that is in range; a non-negative increment never moves a position back |
| Arith.Limit | main.py:1090-1092 | clamps into [minimum, maximum] and is the identity inside the range |
| Arith.Interpolate | main.py:1271-1272 | fraction 0 gives a, fraction 1 gives b, and a fraction in [0, 1] stays between them |
| Arith.PyMod | main.py:1268-1269 | Python's float `%` with a positive divisor lands in [0, total) |
| Arith.PercentRemaining | main.py:1268-1269 | the fraction of the current stretch is in [0, 1) for a positive stretch length |
| Arith.EaseBoundaries | main.py:1133-1139 | ease-in and ease-out both start at a and end at b |
| Arith.EaseMonotone | main.py:1133-1139 | both quadratic eases grow with the fraction and stay between their end points |
| Arith.EaseInOutFlat | main.py:1141-1143 | a cosine ease between equal end points is constant, whatever the cosine returns |
| Arith.Trunc | main.py:1760 | `int()` of a float truncates toward zero |
| Arith.RoundHalfAway | render.py:183 | Python 2 `round()` is within one half of its argument, with halves rounded away from zero |
| Arith.FrameFactor | main.py:1729-1737 | the frame-rate factor is at least 1, exactly 1 at 60 frames per second or more, and 2 - fps/60 below that |
| Arith.ProjectScale | main.py:1105 | the projection scale is positive and at most the camera depth; it equals the depth for points at or behind the camera |
| Arith.ProjectScaleShrinks | main.py:1105 | farther points never project larger than nearer ones |
| Track.SegIdx | main.py:1274-1275 | `find_segment` always yields an index inside the track |
| Track.SegIdxInSpan | main.py:1274-1275 | every point of segment i's span looks up segment i |
| Track.SegIdxLap | main.py:1274-1275 | positions whole laps apart look up the same segment |
| Track.NewSegment | main.py:1118-1131 | the appended segment has the next index, spans [n·150, (n+1)·150), starts at the last elevation, ends at y, and lists no racer |
| Track.RoadCurveEaseIn | main.py:1165-1176 | a stretch's ease-in starts straight and every ease-in curve lies between 0 and the held curve |
| Track.StretchCurves | main.py:1165-1176 | one `add_road` stretch lays enter + hold + leave segments, segment m with the m-th curve of the ease-in/hold/ease-in-out shape |
| Track.StretchYs | main.py:1165-1176 | one stretch has one end elevation per segment, eased from the start to the end elevation |
| Track.LaidAt | main.py:1118-1131 | laying keeps the road built so far, puts segment m just after the road built so far and starts it where segment m - 1 ended |
| Track.LaidShaped | main.py:1118-1131 | laying after a well-shaped road keeps every segment at its own index and span |
| Track.LaidBands | main.py:1129 | laid segments are empty of racers and coloured light or dark by their own number |
| Track.LaidFlat | main.py:1165-1176 | segments laid at elevation 0 keep the road level |
| Track.StretchYsFlat | main.py:1219-1236 | `reset_road` stretches neither rise nor fall, so the track is flat |
| Track.StraightIsStraight | main.py:1178-1180 | `add_straight` lays only straight segments |
| Track.TotalLengthBounds | main.py:1225-1236 | eight geometry symbols make between 720 and 1440 segments |
| Track.RecolourKeepsOccupancy | main.py:1264-1265 | recolouring the start and finish segments leaves every racer listed where it was |
| Track.RemoveFirstAt | main.py:1638 | `list.remove` of an element with no earlier equal removes exactly that index |
| Track.RemoveFirstNoDup | main.py:459 | removing a racer from a duplicate-free list leaves exactly the other racers |
| Track.MoveCar | main.py:456-460 | `update_car` changes only segment racer lists and keeps the road's shape and level |
| Track.MoveKeepsOccupancy | main.py:456-460 | moving a racer between its old and new segment lists keeps every racer listed once, on its own segment |
| Track.NoRacersListed | main.py:1149-1153 | before `reset_cars` the occupancy invariant holds for no racers |
| Track.AppendKeepsOccupancy | main.py:1149-1153 | `reset_cars` appending racer n to its segment keeps the invariant for one racer more |
| Track.OccupancyLapBack | main.py:1640-1643 | moving a position back one track length keeps the racer listed where it was |
| Course.Geometry | course.py:19-30 | the walk fills an eight-entry geometry list |
| Course.LastSegRange | course.py:19-30 | the walk's current symbol stays in 1..3 and starts at 1 or 3 |
| Course.GeometryShape | course.py:19-30 | every geometry starts and ends with a straight, has curves 1..3 in between with the first 1 or 3, and no symbol twice in a row |
| Course.LatestUnset | course.py:8-16 | a colour no line sets keeps its default |
| Course.LatestIsLastLine | course.py:38-72 | a colour ends as the last line for its key sets it |
| Course.NoCeilingFails | course.py:66-68 | a stage file with no ceiling colour cannot build a course |
| Course.LengthDefaults | course.py:33-34 | with no strip or road line the lengths stay 3 and 2 |
| Course.LoadStage | course.py:38-72 | the line loop yields exactly what the whole file specifies, including the missing-ceiling failure |
| Course.StartColours | course.py:75 | the start palette is white except its wall and fog colours |
| Course.FinishColours | course.py:76 | the finish palette is white except its dark wall and fog colours |
| Course.DarkColours | course.py:77 | the dark palette carries the fog colour and no lane marker |
| Course.LightColours | course.py:78 | the light palette carries the fog colour and white lane markers |
| Course.Course.constructor | course.py:6-79 | a course holds the walk's geometry, the stage's lengths and the four palettes |
| Course.NewCourse | course.py:6-79 | building a course fails exactly when the ceiling colour is missing, and otherwise holds the geometry, lengths and palettes |
| Player.SkillNumber | player.py:190-211 | each skill's table entry is a number 1..7 |
| Player.ThresholdFalls | player.py:237-238 | each point of threshold stat lowers the mini-turbo threshold by 1.5 |
| Player.MaxSpeedModNonZero | player.py:220-222 | integer stats never give a zero top-speed modifier |
| Player.Copies | player.py:190-211 | a chance p gives `int(p·50)` table entries, none when that is below one |
| Player.ItemChoiceInRange | player.py:190-211 | every skill-table entry is a skill number 1..7 |
| Player.ItemChoiceCounts | player.py:190-211 | each skill appears in the table exactly as often as its chance lines ask |
| Player.BrakingIsHalfTopSpeed | player.py:220-224 | braking and natural deceleration are each half the top-speed modifier |
| Player.LoadedTopSpeedNonZero | player.py:220-224 | a loaded top-speed modifier is never zero |
| Player.CharFoldFailureSticks | player.py:215-243 | once a prefix of the character lines fails, the whole file fails the same way |
| Player.OffroadFirstFails | player.py:215-243 | a character file with an offroad line and no accel line anywhere before it fails the load, whatever the other lines |
| Player.NoAccelYet | player.py:215-243 | while no accel line has been read the acceleration slot stays empty, unless an offroad line has already failed the load |
| Player.LoadData | player.py:163-243 | the two line loops yield exactly the stats the files specify, or the failure |
| Player.InitialCar | player.py:7-126 | a new racer keeps its stats, starts at the given lane and position (title: centre, 10000), at rest, at full health, with no item and every effect off |
| Player.NewPlayer | player.py:7-126 | constructing a racer fails exactly when loading fails; otherwise it is the initial racer, with a non-zero top speed and a skill table of skills 1..7 |
| Physics.MiniTurbo | main.py:1710-1726 | below the threshold nothing changes; above it the bank is spent, a roll up to 50 boosts to 1.2 × max speed and counts a turbo, and a higher roll spins the racer out |
| Physics.MiniTurboCanFail | main.py:1711 | after fifty mini-turbos the top roll spins out instead of boosting |
| Physics.Airborne | main.py:1728-1734 | a launched racer never sinks below the ground and lands with height and gravity reset |
| Physics.HopLastsFiveTicks | main.py:1728-1734 | an example at 60 fps: a hop from the ground is airborne for four ticks and lands on the fifth |
| Physics.AttackTick | main.py:1739-1742 | an active attack counts down and never goes negative |
| Physics.AttackRamp | main.py:1739-1742 | an attack of 90 falls by 8 per tick |
| Physics.AttackWindow | main.py:1739-1742 | an attack of 90 is still running after fewer than twelve ticks and spent after twelve or more, at any frame rate (the source subtracts 8 a tick whatever the fps) |
| Physics.Struck | main.py:1743-1752 | a struck racer loses at least 10 health, is launched and loses control |
| Physics.Prelude | main.py:1702-1752 | the start of a racer's tick keeps its position, lap and inputs, clears a finisher's item and ticks the attack |
| Physics.HealthStep | main.py:1754-1770 | health stays non-negative and a refill never exceeds the maximum; a knocked-out racer gets its displayed health reset to `int(max_health)` and, unless that one refill of `int(3·k)` already reaches full health, is left recovering with exactly the refilled health; recovery ends at full health; a racer not recovering drains its displayed health by `int(5·k)` toward the real one |
| Physics.Vitality | main.py:1754-1770 | a knocked-out racer is launched and spun for 1.5 more; otherwise motion and effects are unchanged |
| Physics.AlphaRamp | main.py:1775-1787 | the mudo/hama fade grows by 5 per tick |
| Physics.AlphaWindow | main.py:1775-1787 | an example at 60 fps: the fade switches off on its 103rd tick, at 515, and then falls |
| Physics.AlphaOnRamp | main.py:1775-1787 | at any frame rate, a mask that is still on has brightened by exactly 5·k a tick |
| Physics.AlphaOffBy | main.py:1775-1787 | at any frame rate, a mask switched on from 0 is off again by its 103rd tick |
| Physics.CastFade | main.py:1404-1424 | the caster's own Hama and Mudo masks: a mask that is on gets a positive alpha, brightens by 5·k and stays on exactly while below 512, and once off it fades by 5·k until it is no longer positive; nothing else changes |
| Physics.Timers | main.py:1772-1799 | a scrolling item settles on the picked table entry; the table is read only while the roulette runs, so an item that is not scrolling is left alone whatever the table; lightning decays toward zero from either side |
| Physics.CurveFactor | main.py:1809-1814 | the curve factor is at least 1, and above 1 exactly on the outside of a curve |
| Physics.CatchUp | main.py:1816-1817 | the catch-up factor is at least 1, and above 1 exactly when the racer is behind the leader |
| Physics.FinalSpeed | main.py:1859 | the final speed is clamped to the top speed, within 1 % jitter |
| Physics.Tf4 | main.py:1807-1814 | the curve factor of the current segment is at least 1 |
| Physics.Advance | main.py:1819 | the new position stays within two track lengths and never moves back |
| Physics.Throttle | main.py:1839-1859 | speed stays between 0 and 1.01 × the racer's top speed |
| Physics.Drive | main.py:1801-1859 | driving keeps the racer on [-2.5, 2.5], its speed within its top speed, its position forward, and counts the speed-up down |
| Physics.OwnStep | main.py:1702-1861 | a racer's whole tick keeps its stats, lap and place, keeps it on [-2.5, 2.5] sideways, never moves it back, keeps its speed between 0 and 1.01 × the tick's cap `max_speed · max_speed_mod · (1 + 5 · speed_up)` (speed-up 0.6 after a mini-turbo burst), clears a finisher's item, and reads the skill table only while the roulette runs |
| Physics.OwnStepSameRoad | main.py:1807-1830 | a racer's step reads only the curves of the segments, not their racer lists |
| Physics.Rest | main.py:1754-1861 | the second half of the tick keeps the same bounds, with speed at most 1.01 × the racer's top speed, leaves a non-scrolling item alone whatever the skill table, and settles a scrolling one on the picked entry |
| Items.NewItem | main.py:1155-1163 | a pickup is stationary, ownerless and levelless; a projectile carries its speed, owner, level and a life of 10 |
| Items.PickupRow | main.py:1238-1259 | a row of pickups at one depth has one pickup per lane offset |
| Items.Pickups | main.py:1237-1259 | a race starts with twenty pickups inside the road band, all on the track |
| Items.RowInside | main.py:1239-1259 | every pickup row lies inside the track |
| Items.ApplyHit | main.py:1600-1628 | a pickup starts scrolling only for an empty hand; a recovering racer is immune; a fireball costs 100 health and spins, ice costs 50 and freezes, both scaled by race progress |
| Items.HitAll | main.py:1597-1628 | each racer is hit exactly when the item reaches it |
| Items.HitKeepsMotion | main.py:1600-1628 | a hit changes no position, speed, stats or held item and never heals |
| Items.MoveItem | main.py:1630-1637 | an item moves forward and wraps back to the start; only projectiles age |
| Items.PickupStays | main.py:1630-1637 | a pickup neither moves nor expires |
| Items.SweepKeepsPrefix | main.py:1596-1638 | the items already processed stay in place |
| Items.SkipAfterRemoval | main.py:1638 | removing an expired item during iteration skips the item after it |
| Items.SweepKeepsItems | main.py:1596-1638 | every item left stays on the track |
| Items.SweepKeepsPickups | main.py:1596-1638 | no pickup is ever removed |
| Items.SweepKeepsRacers | main.py:1596-1638 | item hits never move racers, change their stats or heal them |
| Items.ProjectileStep | main.py:1630 | an example at 60 fps: a fireball moves 300 units per tick |
| Items.PickupWindow | main.py:1598-1603 | an example at 60 fps: at 6000 speed a racer collects a pickup exactly within 100 units |
| Standings.Keys | main.py:1655-1662 | the sort key of every racer |
| Standings.Place | main.py:1654-1667 | every place is between 1 and the number of racers |
| Standings.PlaceByKey | main.py:1664-1667 | a larger key means a better place |
| Standings.PlaceTie | main.py:1664-1667 | the stable sort gives the later racer of two equal keys the better place |
| Standings.PlacesDistinct | main.py:1664-1667 | no two racers share a place |
| Standings.FinishersKeepOrder | main.py:1660-1662 | finishers keep the order they finished in |
| Standings.FinishersAheadOfRacers | main.py:1660-1662 | every finisher ranks ahead of every racer still racing |
| Standings.NewLap | main.py:1640-1652 | crossing the line wraps the position and counts a lap (not on the title screen); the first call counts the opening lap |
| Standings.NewLapInRange | main.py:1640-1643 | after the wrap the position lies within one track length |
| Standings.NewLapKeepsProgress | main.py:1640-1646 | wrapping a lap does not change race progress |
| Standings.FirstPosIn | main.py:1695-1697 | the leader's progress, or 0 when no other racer leads |
| Standings.FirstPosNonNegative | main.py:1695-1697 | the leader's progress is never negative once the race has begun |
| Standings.LeaderNotBoosted | main.py:1816-1817 | the leader gets no catch-up boost |
| Driver.BankBoost | main.py:537-542 | not steering banks the boost as the turbo charge and drains it without going negative |
| Driver.BankKeepsBoostNonNegative | main.py:537-542 | a non-negative boost stays non-negative and never grows while banked |
| Driver.CpuIntent | main.py:504-544 | a computer driver in control always accelerates, steers toward its lane or back onto the road (mirrored under hama/mudo), never both ways, and banks the boost when going straight; out of control it presses nothing |
| Driver.CpuMirror | main.py:515-535 | a mirrored track and position mirror the computer's steering |
| Driver.CpuReturnsToRoad | main.py:516-528 | a computer driver off the road steers back toward it |
| Driver.HumanIntent | main.py:641-748 | the human's keys steer (left wins; mirrored under hama/mudo; none when out of control), accelerate, and bank the boost when going straight; pause keeps inputs |
| Driver.Launch | main.py:555-578 | an Agi or Bufu projectile starts two segments ahead at level 3, at least twice max speed |
| Driver.Garu | main.py:580-593 | Garu sets a 0.6 speed-up at 1.5 × max speed |
| Driver.ZioHit | main.py:595-608 | a Zio hit costs 25 health, launches, kills the boost and pushes sideways by 0.5 + place/16 |
| Driver.SpellTargetsUnreversed | main.py:612-634 | hama and mudo only reach racers in control and not already reversed |
| Driver.ZioOnlyAhead | main.py:595-610 | Zio hurts exactly the racers it reaches and leaves everyone at or behind the caster untouched |
| Driver.SpellOnlyAhead | main.py:612-634 | hama and mudo only mark racers ahead of the caster |
| Driver.Cast | main.py:546-639 | casting a skill spends it, launches a projectile for Agi and Bufu, and starts a 90 attack for Phys |
| Driver.CastOnlyAhead | main.py:546-639 | a cast moves nobody and changes only the caster and racers ahead of it |
| Driver.LaunchIsItem | main.py:555-578 | a launched projectile is a valid item on the track |
| Driver.CastKeepsItems | main.py:546-639 | casting keeps every item on the track |
| Driver.HumanCastSparesCaster | main.py:975-1063 | a keyboard cast's projectiles never hit the caster, and Zio reaches every racer ahead of it |
| Driver.PadCastHitsCaster | main.py:827-921 | a gamepad cast with `e.joy` as owner hits the caster with its own fireball and spares racer 1 from Zio |
| Driver.CpuTurn | main.py:504-639 | one computer driver's inputs and cast keep the racer count |
| Driver.CpuPass | main.py:502-639 | the computer pass keeps the racer count |
| Driver.CpuTurnKeeps | main.py:504-639 | one computer turn moves nobody, touches only its own inputs, never steers both ways, and keeps items on track |
| Driver.CastKeepsInputs | main.py:546-639 | casting never changes inputs |
| Driver.CpuPassKeeps | main.py:502-639 | the computer pass moves nobody, leaves the human's inputs alone, never steers both ways, and keeps items on track |
| Race.Positions | main.py:1149-1153 | the positions of the racers, in order |
| Race.WrapKeepsRacers | main.py:1906 | the lap wrap after a tick keeps every racer valid, gains at most one lap and never loses progress |
| Race.Attack | main.py:1743-1752 | an attack keeps the racer count |
| Race.AttackOnlyHurts | main.py:1743-1752 | an attack hurts exactly the racers in reach, leaves the attacker alone and moves nobody |
| Race.TurnOfKeeps | main.py:1702-1861 | racer p's turn changes racer p by exactly its own step and every other racer by at most a strike (health, hop, spin-out) |
| Race.TurnAt | main.py:1690-1861 | racer p's turn in the loop, reading the leader's progress from the racers as they stand: every racer keeps racing with its stats and lap, p never moves back and ends on [-2.5, 2.5] within 1.01 × its tick's speed cap, and the others are at most struck |
| Race.TurnKeepsRacing | main.py:1690-1861 | a turn that keeps racer p racing and only strikes the others keeps every racer racing with its stats and lap |
| Race.LeaderAhead | main.py:1692-1697 | the leader's progress a racer reads is never negative while every racer is racing |
| Race.Turns | main.py:1690-1861 | the first n turns of the loop keep every racer racing with its stats and lap, and keep whether everyone has finished |
| Race.TurnsKeep | main.py:1690-1861 | after the first n turns nobody has moved back; a racer whose turn has come is on [-2.5, 2.5] within 1.01 × its tick's speed cap; the others have at most been struck |
| Race.TurnStepBounded | main.py:1690-1861 | one more turn extends those bounds to one racer more |
| Race.SweepKeepsRacing | main.py:1596-1638 | the item sweep keeps every racer racing, where it was, on its lap, with its stats and turbo state |
| Race.TickBounds | main.py:1684-1908 | after an unpaused tick every racer is back inside the lap with its stats, on the same lap or the next (the same on the title screen), has lost no progress, is on [-2.5, 2.5] sideways and is no faster than 1.01 × `max_speed · max_speed_mod · (1 + 5 · speed_up)` with the speed-up of the tick |
| Race.FadeSparesCaster | main.py:1404-1424 | once the fade has run, a caster whose own Hama or Mudo is on is untouched by every Hama and Mudo |
| Race.RaceState.constructor | main.py:462-500 | for racers with any skill tables, a new race has the full flat track with the finish and start segments recoloured, the pickups, and every racer on its first lap |
| Race.RaceState.FirstLapValid | main.py:492-496 | the state after the opening `get_new_lap` satisfies the race invariant |
| Race.RaceState.ResetRoad | main.py:1219-1265 | the built track has 720 or more flat segments, twenty pickups outside the title screen, and every racer listed on its segment |
| Race.RaceState.MarkLine | main.py:1264-1265 | segment 0 gets the finish palette and segment 1 the start palette; nothing else changes |
| Race.RaceState.AddSegment | main.py:1118-1131 | appends exactly the new segment |
| Race.RaceState.AddRoad | main.py:1165-1176 | appends the stretch's curves and elevations |
| Race.RaceState.Lay | main.py:1165-1176 | appends one segment per curve and elevation |
| Race.RaceState.BuildRoad | main.py:1225-1236 | the geometry loop lays the total length of well-shaped, flat, empty, alternately coloured segments |
| Race.RaceState.Stretch | main.py:1178-1206 | one 30+30+30 stretch adds 90 segments and keeps the road's shape |
| Race.RaceState.ResetCars | main.py:1149-1153 | every racer is listed on the segment its position looks up |
| Race.RaceState.GetNewLap | main.py:1640-1652 | every racer becomes its lap wrap, in place, and the occupancy invariant holds |
| Race.RaceState.UpdatePlaces | main.py:1654-1667 | every racer gets the place of its sort key, and nothing else changes |
| Race.RaceState.UpdateItems | main.py:1582-1638 | items and racers become exactly the sweep of the items over the racers |
| Race.RaceState.CpuInputs | main.py:502-639 | the racers and items become the computer pass |
| Race.RaceState.HumanInputs | main.py:641-748 | only the human's inputs change |
| Race.RaceState.FadeCastMasks | main.py:1404-1424 | racer 0's cast masks become their fade; nothing else changes and the race invariant holds |
| Race.RaceState.HumanUseSkill | main.py:967-1063 | a keyboard press casts with owner and exclusion 0 when the human may, and otherwise changes nothing |
| Race.RaceState.PadUseSkill | main.py:811-921 | a gamepad press casts with owner and exclusion `e.joy`, as written |
| Race.RaceState.UseSkill | main.py:546-639 | racers and items become the cast |
| Race.RaceState.Zap | main.py:595-610 | racers become the Zio pass |
| Race.RaceState.Curse | main.py:612-634 | racers become the hama or mudo pass |
| Race.RaceState.Update | main.py:1684-1908 | while paused nothing changes and it reports false; otherwise `is_done` means every racer had finished at the start of the tick, the items become the sweep, the racers become the tick (the sweep, every racer's turn in list order, the lap wrap), and every racer ends inside the lap with its stats, at most one lap on, with no progress lost, on [-2.5, 2.5] sideways and no faster than 1.01 × the tick's speed cap |
| Race.RaceState.TurnAll | main.py:1690-1861 | the racers become every racer's turn in list order, `is_done` is whether every racer had finished, the road keeps its shape and every racer stays listed on its segment |
| Race.RaceState.TakeTurn | main.py:1690-1861 | one pass of the loop: the racers become one more turn, the flag says whether every racer has finished, and the road keeps its curves and occupancy |
| Race.RaceState.Scan | main.py:1692-1700 | finds the leader's progress and whether every racer has finished |
| Race.RaceState.Turn | main.py:1702-1861 | the racers become exactly racer p's turn (its own step, and strikes on the others while its attack runs), and p moves from its old segment list to its new one |
| Race.RaceState.Move | main.py:1772-1861 | racer p becomes the second half of its tick, nobody else changes, and p moves between segment lists |
| Race.RaceState.AttackOthers | main.py:1743-1752 | racers become the attack |
| Race.RaceState.HitRacers | main.py:1597-1628 | racers become the hit of one item |
| Render.WallWidth | render.py:9-10 | a wall is the road half-width over 0.45, over twice the road half-width |
| Render.RumbleWidth | render.py:13-14 | a rumble strip is half the road half-width |
| Render.MarkerDivisor | render.py:17-18 | the lane-marker divisor is max(10, 4·lanes) |
| Render.LaneMarkerWidth | render.py:17-18 | a lane marker is at most a tenth of the road half-width |
| Render.WallBeyondRumble | render.py:9-14 | the wall is wider than four rumble strips |
| Render.MarkerNarrowerThanLane | render.py:17-18 | a lane marker is narrower than a lane |
| Render.FogChannel | render.py:31-37 | the nearest step shows the wall colour, the farthest the fog colour, and every step lies between them |
| Render.FogBlend | render.py:31-37 | the fog blend is applied channel by channel |
| Render.BandPalette | main.py:1339-1353 | every band's palette has a wall colour and the fog colour |
| Render.WallColour | render.py:31-37 | the wall colour of a segment at a fog step |
| Render.WallFades | render.py:31-37 | walls fade from their own colour to the fog across the draw distance |
| Render.LaneInsideRoad | render.py:59-67 | every lane line lies strictly inside the road |
| Render.LaneMirror | render.py:59-67 | lane lines are symmetric about the road's centre |
| Render.LaneMarkers | render.py:59-67 | no markers without a marker colour or with a single lane; otherwise one strip per lane boundary, at its lane line |
| Render.MarkersNotOnDark | render.py:59 | a band's palette has no marker colour exactly when the band is dark, so light, start and finish bands all carry markers |
| Render.SpriteDim | render.py:75-76 | sprite sizes are non-negative and zero for zero scale or size |
| Render.SpriteDimLinear | render.py:75-76 | sprite size is linear in the scale |
| Render.ClipHeight | render.py:100 | the clipped height is non-negative, zero without a clip line, and cuts a crossing sprite at the line |
| Render.Place | render.py:93-110 | a sprite is drawn exactly when not fully clipped and smaller than 260; offsets apply as the kind of sprite asks; clipped non-players end at the clip line |
| Render.RacerNeverClipped | render.py:230-232 | a racer is drawn whole, centred on its position, whenever it is smaller than 260 |
| Render.SpinTurns | render.py:183-189 | a spinning racer's pose turns every tenth of spin and repeats every three tenths |
| Render.Side | render.py:205-222 | the exhaust offset of each pose |
| Render.RacerLook | render.py:180-225 | the frozen look when frozen; a spin pose while out of control, otherwise the steering direction; exhaust only when not frozen, on the ground and moving |
| Render.Project | main.py:1100-1116 | projection records camera-relative coordinates, a level point lands on the horizon, and a point below the camera lands below it |
| Render.ScreenY | main.py:1107 | the screen row of a point is on the horizon when level and below it when lower than the camera |
| Render.WalkIdx | main.py:1309 | the walk visits segment (base + n) mod count |
| Render.Steps | main.py:1308-1325 | the walk records one projection per step |
| Render.StepsAt | main.py:1308-1325 | the recorded projection of step m is that step's projection |
| Render.Written | main.py:1322 | storing the projections keeps the number of segments |
| Render.WrittenAt | main.py:1322 | within one lap each step's projection is the one left stored |
| Render.WalkIdxDistinct | main.py:1309 | steps less than a track apart visit different segments |
| Render.WrittenSnoc | main.py:1322 | storing one more projection overwrites only that step's segment |
| Render.ClipRuleSnoc | main.py:1311-1341 | each step keeps the clip-line rule |
| Render.ClipFalls | main.py:1341 | the clip line never moves down the screen |
| Render.ClipFallsFrom | main.py:1341 | the clip line never moves down the screen |
| Render.ProjectStep | main.py:1313-1320 | one step projects both edges of its segment, the far one shifted by the step's drift, moving the camera back a lap once wrapped |
| Render.Walk | main.py:1308-1341 | the walk stores each step's projections, draws a segment exactly when it is not hidden behind the clip line, lowers the clip line to each drawn segment's far edge, and the clip line never falls |
| Render.WalkDepth | main.py:1313-1314 | each step's near edge is one segment farther from the camera than the last, across the finish line too |
| Render.ShownRise | main.py:1327-1341 | drawn segments' far edges rise strictly up the screen in walk order |
| Render.FloorDiv | main.py:1339-1353 | Python `//` with a positive divisor is floor division |
| Render.ColourIndex | main.py:1339-1353 | the colour source index is inside the track, missing for a zero band, and t // band otherwise |
| Render.ColourRuns | main.py:1339-1353 | one colour runs over each `band` consecutive segments |
| Render.Walls | main.py:1343-1354 | walls are drawn from the farthest step back to step 1, each held down to its step's clip line, fogged by its step, coloured from segment t // strip |
| Render.WallsAboveBottom | main.py:1343-1354 | every wall stays at or above the screen's bottom edge |

## Left out

- Audio: music, engine sounds, voices and sound effects. They only play sounds.
- Drawing calls. These are the pygame polygons, rectangles, circles and blits, the background fills, the HUD, menus, the title, story and results screens. The model returns what is drawn (lane strips, sprite rectangles, walls, poses) instead of drawing it.
- `render_segment`'s rumble, road and offroad polygons. Only the widths they use and the lane markers are modelled.
- The third loop of `render` (sprites and items, `main.py:1358` onward) is drawn, not modelled. The sprite gating it calls is `Render.Place`. Its one change of state, the fade of racer 0's own Hama and Mudo masks at its end, is `Race.RaceState.FadeCastMasks`.
- `exponential_fog`. The road loops do not call it.
- Bounce, shake and exhaust sizes in `render_cpu`/`render_sprite`. These are cosmetic randomness. `Render.RacerLook` returns the pose that `render_cpu` assigns to `player.sprite`.
- File input. Stage, persona and character files arrive as parsed lines, so text parsing (`strip`, `find`, `int()` of text) is not modelled.
- Achievements, options files, the race clock and the `item_hit`/`item_use`/`used_*` counters. They feed only achievements.
- Cosmetic counters: `lap_text_draw`, `mystery_width`, `fire_rot`, `shake`.
- Shaking out of a freeze or spin by key presses or hat motion, and pause-menu navigation. Pause is a field that the update respects.
- Gamepad polling. Hat and button states arrive as the same booleans as the keys.
- Driver.HumanIntent: the keyboard and the gamepad pressed together are not modelled. The source runs them as separate if/elif chains (main.py:652-740), so keys and pad can set both steering inputs in one frame and charge the boost once per source. The model takes one set of booleans, where left wins and the boost is charged once.
- Sprite loading in `Player.__init__` (`load_sprites`). It loads images only.
- Player.LoadData: a stat missing from the character file is reported as an error. The source instead fails at the attribute's first later use.
- Render.Project: screen x and width are rounded like the source, but only the screen row carries proved properties.
- Arith.EaseInOut: `math.cos` is a parameter, so nothing is proved about its shape beyond `Arith.EaseInOutFlat`.
- Race.RaceState.Update: the engine-sound and achievement parts of the tick (main.py:1863-1904) are left out.
- Race.RaceState.Update: when a pickup starts the roulette of a racer with an empty skill table, `random.choice` raises in the source. The model does not model the exception; it requires that no racer still racing ends the item sweep with a running roulette and an empty table. Racers with empty tables are otherwise accepted everywhere.
- Floating point is modelled as exact reals. Rounding error is not modelled.

## Findings

| source | as written | input that shows it | evidently intended | confidence | as-written member | corrected member |
|---|---|---|---|---|---|---|
| main.py:847, 858, 877, 893, 906 | a skill cast from a gamepad passes the pad number `e.joy` as the projectile's owner and as the racer that Zio, hama and mudo skip, although the human is always racer 0 | a press on the second pad (`e.joy == 1`): the human's Agi fireball is owned by racer 1, so when it comes round the track to the human it hits them; Zio, hama and mudo skip computer racer 1 even when it is ahead | owner and exclusion 0, as the keyboard path passes at main.py:990, 1001, 1020 | medium, not executed | Race.RaceState.PadUseSkill, Driver.PadCastHitsCaster | Race.RaceState.HumanUseSkill, Driver.HumanCastSparesCaster |
