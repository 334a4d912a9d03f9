# Tank arena server — a Dafny model

This project models the authoritative game server of a small local-multiplayer tank
arena. The server behaves as follows:

- A host screen creates a room identified by a six-digit code.
- Up to four phones claim the letters A–D and then attach as controllers.
- The host starts a countdown from 7.
- The server then runs a fixed-step match: tanks turn, move, and fire bullets. Bullets
  bounce off five square cubes and wear tanks down to ten hits. The last tank standing
  wins.
- Disconnects, restarts and a fifteen-minute inactivity timeout move the room between
  `waiting`, `countdown`, `playing` and `finished`.

Everything is pure: immutable datatypes, and step functions that return the next
state together with the messages sent. Timers are explicit events. Trigonometry is a
parameter. Letters A, B, C, D are the numbers 0, 1, 2, 3.

Modules, following the structure of `server.js`:

- `Base` — options, the letters a player count selects (`slice(0, playerCount)`), and
  the `playerCount || 2` default.
- `Geometry` — `rectOverlap`, `circleRect` and the hit-distance test, over reals.
- `Heading` — integral headings: turning, the two reflections, and JavaScript's
  truncating `%`.
- `Arena` — constants, spawn points, the cube layout and the arena clamp.
- `Entities` — tanks, bullets, a match, and the match invariant `GameOk`.
- `TankPhase` — one tank's turn, move and shot, and the tank phase of a tick.
- `BulletPhase` — flight, bounce or removal, owner immunity, and the strike test.
- `Combat` — hits, elimination, bullet removal, the win rule, and the whole tick
  `SimTick`.
- `Rooms` — the room state machine. Each transition is `Room × event → Room ×
  messages`.
- `RoomProps` — the room invariant, the countdown, claim order, restarts and
  disconnects.
- `Registry` — rooms by code, connection bindings, and the routing of every event.

Where the code's comments and its behaviour differ, the model follows the behaviour.
Behaviours that are easy to miss:

- One bullet can hit several tanks in the same tick, because the strike loop never
  stops after a hit. See `BulletPhase.Targets` and `BulletPhase.OneBulletStrikesTwoTanks`.
- A host disconnect stops the game loop but leaves the room in `playing`. The
  inactivity timeout then never deletes the room, because it spares a playing room.
  See `RoomProps.StrandedStaysPlaying`.
- A controller disconnect during a match sends the room back to `waiting`.
- `restart_game` checks neither the sender's role nor the room's state, and it keeps
  the reservations. It can therefore launch a match that `start_game` would refuse. See
  `RoomProps.RestartIgnoresReadiness`.
- A `start_game` or `restart_game` during a countdown starts a second countdown
  interval. The leftover interval later relaunches the match and discards the one in
  progress. See `RoomProps.LeftoverCountdownReplacesMatch`.
- `create_room` does not arm the inactivity timeout, so a room that is never started
  expires only after its host disconnects without navigating. The countdown does not cancel the timeout either: `startCountdown`
  never clears it, while `startGame` does.

## Model

| member | source | states |
|---|---|---|
| Base.SlotCount | server.js:180 | `slice(0, playerCount)` keeps min(count, 4) letters for a non-negative count; a negative count −m drops m letters from the end, so 4 − m remain for m ≤ 4 and none for m > 4; never more than 4 |
| Base.EffectivePlayerCount | server.js:148 | a missing or zero player count becomes 2, any other count is kept as given, and the result is never 0 |
| Base.Range | server.js:180 | the first `n` letters: a letter is in it exactly when it is below `n` |
| Base.RangeSize | server.js:180 | the first `n` letters are exactly `n` letters |
| Base.BoundedLetters | server.js:180-185 | a set of letters all below `n` has at most `n` members |
| Geometry.Clamp | server.js:325-326 | `max(lo, min(v, hi))` lies in [lo, hi] when lo ≤ hi and returns v when v already lies there |
| Geometry.Nearest | server.js:102-103 | the clamped point lies in the closed rectangle and is the point itself when that is inside |
| Geometry.RectOverlapSymmetric | server.js:96-98 | `rectOverlap` gives the same answer with its two rectangles swapped |
| Geometry.SharedEdgeIsNoOverlap | server.js:96-98 | rectangles that only share an edge (one ends where the other begins) do not overlap, because the comparisons are strict |
| Geometry.RectOverlap | server.js:96-98 | rectangles that `rectOverlap` rejects share no point strictly inside both, whatever their size |
| Geometry.RectOverlapIffCommonPoint | server.js:96-98 | for rectangles of positive size, `rectOverlap` holds exactly when some point lies strictly inside both |
| Geometry.ClampIsClosest | server.js:102-103 | the clamped coordinate is at least as close to the input as every point of the interval |
| Geometry.CircleRect | server.js:101-106 | a hit is genuine: for a rectangle of non-negative size, some point of the closed rectangle lies within the radius of the centre |
| Geometry.CircleRectIffNearPoint | server.js:101-106 | for a rectangle of non-negative size, `circleRect` holds exactly when some point of the closed rectangle lies within the radius of the centre |
| Geometry.NearestIsClosest | server.js:102-104 | the clamped point is at least as close to the centre as every point of the closed rectangle |
| Geometry.SquaredReachMatchesDistance | server.js:425-428 | for a distance d with d·d = dx²+dy², `d < reach` holds exactly when the squared comparison used by the model holds |
| Heading.JsRem | server.js:309-310 | JavaScript's `%` for a positive modulus: in [0, m) for a non-negative dividend and in (−m, 0] for a negative one, and always congruent to the dividend modulo m, which fixes the value |
| Heading.TurnLeft | server.js:309 | a turn left keeps a heading in [0, 360) and is the heading minus TURN_SPEED, wrapped once |
| Heading.TurnRight | server.js:310 | a turn right keeps a heading in [0, 360) and is the heading plus TURN_SPEED, wrapped once |
| Heading.ReflectH | server.js:398 | `(180 − a + 360) % 360` keeps a heading in [0, 360) and sums with a to 180 or 540 (mirror about the vertical axis) |
| Heading.ReflectV | server.js:400 | `(360 − a + 360) % 360` keeps a heading in [0, 360) and sums with a to 0 or 360 (mirror about the horizontal axis) |
| Heading.TurnsCancel | server.js:309-310 | turning left then right, or right then left, returns to the starting heading |
| Heading.ReflectionsAreInvolutions | server.js:397-401 | reflecting twice on the same axis returns the starting heading |
| Arena.GenerateWalls | server.js:48-65 | five 120×120 cubes, all inside the arena, whatever the player count |
| Arena.ClampPosition | server.js:321-328 | the centre is clamped coordinate by coordinate: x into [SAFE, GAME_W − SAFE] and y into [TOP_SAFE, GAME_H − SAFE]; so it lies in the safe band, a candidate already there is unchanged, and each coordinate is either unchanged or pinned to a band edge |
| Arena.ClampIdempotent | server.js:321-328 | clamping a clamped position changes nothing |
| Arena.LayoutIsClear | server.js:35-65 | the cubes are pairwise disjoint, every spawn body is clear of every cube, and spawn bodies are pairwise clear |
| Entities.NewGame | server.js:271-293 | a fresh match has one tank per letter, each at its letter's spawn point and heading with no hits, not reloading, in play and idle; no bullets, and the next id is 0 |
| Entities.NewGameOk | server.js:269-295 | a freshly launched match satisfies the match invariant on the room's walls |
| TankPhase.Turn | server.js:308-310 | only the heading changes and it stays in [0, 360); left alone turns left by TURN_SPEED, right alone turns right, and both or neither leave the heading unchanged |
| TankPhase.Candidate | server.js:313-328 | the proposal is one TANK_SPEED step along the heading (forward if forward is held, else backward) passed through the arena clamp; its centre always lies in the safe band, and a step already in the band is proposed unchanged |
| TankPhase.Move | server.js:312-348 | all or nothing: a moving tank takes the whole clamped step exactly when its body there is clear of every cube and every other live tank, and otherwise stays put |
| TankPhase.Shoot | server.js:350-368 | fires exactly when shoot is held and the tank is not reloading; the bullet gets the next id, the owner, the tank's heading, zero bounces and frames, and sits SPAWN_DIST ahead of the centre; the reload lasts RELOAD_TIME and otherwise ends once `now` reaches its deadline |
| TankPhase.ShotThenReload | server.js:350-368 | right after a shot the tank cannot fire on its next step, and that step ends the reload exactly when `now` has reached the shot's time plus RELOAD_TIME |
| TankPhase.UpdateTank | server.js:301-369 | an eliminated tank is skipped; other tanks, hit counts and elimination are untouched; a live tank ends with the turned heading and the position its move takes; a bullet carrying the next id is appended exactly when the tank is live, shoot is held and it is not reloading; on a shot the reload runs until now + RELOAD_TIME and the bullet sits SPAWN_DIST ahead of the moved tank's centre along its new heading; without a shot the deadline is kept and the reload holds exactly while it was reloading and `now` is before the deadline |
| TankPhase.UpdateTanks | server.js:301-369 | each tank's own turn: an eliminated tank is untouched, a live one turns, reloads as firing dictates and keeps its hits, flash and elimination, and either stays put or takes its clamped step clear of every cube; the old bullets stay in front, one bullet per firing tank is appended, and the next id advances by the same number |
| TankPhase.TankPhaseInOrder | server.js:301-348 | the tanks act in letter order: a live tank ends exactly where `Move` puts it when tested against the earlier letters where their own turns left them and the later letters where they still stand |
| TankPhase.TankPhaseShots | server.js:350-368 | the appended bullets carry consecutive ids from the next id, and each is owned by a letter that fires this tick |
| TankPhase.TankPhaseFreshShots | server.js:350-368 | every appended bullet is a fresh shot of its owner as its turn left it: no bounces, frames or bounce flag, the owner's new heading, SPAWN_DIST ahead of its new centre |
| TankPhase.TankPhaseVolleyOrdered | server.js:301-369 | the appended bullets are in letter order of their owners, so no tank fires twice in one tick |
| TankPhase.TankPhaseVolleyComplete | server.js:301-369 | every tank that fires this tick owns one of the appended bullets |
| TankPhase.UpdateTanksKeepsGameOk | server.js:301-369 | the tank phase keeps the match invariant: headings valid, bullets in range with ordered ids, live tanks clear of cubes and of each other |
| BulletPhase.FirstWall | server.js:388-389 | the first cube, in layout order, that the bullet circle touches, and none exactly when it touches no cube |
| BulletPhase.Bounce | server.js:391-407 | a bounce counts one more and flags the wall hit; it keeps the heading in [0, 360); on the smaller horizontal penetration the old and new headings sum to 180 or 540 (the horizontal travel reverses), otherwise to 0 or 360; the bullet then advances one step along the new heading |
| BulletPhase.Targets | server.js:418-432 | exactly the live tanks within reach, in letter order, excluding the owner during its immunity window; several tanks can be struck |
| BulletPhase.OneBulletStrikesTwoTanks | server.js:418-432 | a concrete case: two live tanks whose bodies just touch, and one bullet past its immunity window on their shared edge, strike both in one tick |
| BulletPhase.Fly | server.js:414-432 | the frame count rises by one, the struck tanks are exactly the eligible tanks in reach, listed in increasing letter order, and the bullet is removed exactly when it strikes something |
| BulletPhase.StepBullet | server.js:376-432 | a bullet leaving the arena is removed; one touching a cube at five bounces is removed without reflecting; otherwise a touch adds exactly one bounce and reflects off the first touched cube in layout order (the horizontal reflection exactly when the smaller horizontal penetration is below the smaller vertical one), then advances one step along the new heading; the struck tanks are exactly the eligible tanks in reach of the new position; bounces stay in [0, 5]; it never strikes an eliminated tank, nor its owner while frames are below 20 |
| BulletPhase.StepBullets | server.js:372-433 | every bullet is kept in place with its id and owner, marks are only added, and every hit names a real tank |
| BulletPhase.BulletsStepIndependently | server.js:375-376 | with no bullet pre-marked, every bullet is stepped on its own |
| BulletPhase.MarkedIffRemoved | server.js:375-433 | with no bullet pre-marked, a bullet is marked for removal exactly when its own step removes it |
| BulletPhase.HitsRecorded | server.js:375-433 | with no bullet pre-marked, a hit is recorded exactly when some bullet's own step strikes its tank and the hit names that bullet's owner (membership only; the order and multiplicity are `HitsInBulletOrder`'s) |
| BulletPhase.HitsInBulletOrder | server.js:375-433 | with no bullet pre-marked, the recorded hit list is exactly each bullet's own strikes in turn, one hit per struck tank in letter order, credited to the owner: no hit is repeated or dropped |
| BulletPhase.StepBulletsKeepsBulletsOk | server.js:375-433 | after the bullet phase every bullet still has bounces in [0, 5], a valid heading and a real owner |
| Combat.ApplyHit | server.js:437-449 | a hit on an eliminated tank changes nothing; otherwise the count rises by one, the flash is armed for HIT_FLASH, and elimination happens exactly at MAX_HITS |
| Combat.ApplyHits | server.js:435-451 | hits never move, turn or unload a tank, never touch an eliminated tank, never lower a count, and report as eliminated only tanks this tick eliminated |
| Combat.ApplyHitsCounts | server.js:435-451 | each tank ends with min(10, previous hits + hits aimed at it), stays consistent (eliminated exactly at 10), and is reported when newly eliminated |
| Combat.HitEventsLanded | server.js:435-443 | the hit events are one per hit that lands, in hit order: a hit lands exactly when its tank's count before the tick plus the earlier hits on it this tick is below 10, and its event names the tank, the shooter and that count plus one |
| Combat.ReplayMatchesCount | server.js:435-451 | replaying the hits one by one against tanks whose counts already include the earlier hits gives the events the counting description gives |
| Combat.RemoveBullets | server.js:453-456 | exactly the bullets whose ids are not marked survive, in their original order |
| Combat.TakeSnapshot | server.js:466-481 | one view per tank and per bullet, in order: position, heading, hits, reloading and elimination as they stand, the hit flash shown exactly while `now` is before its deadline, and each bullet's id, owner, position and wall-hit flag |
| Combat.Alive | server.js:459 | the letters still in play, in increasing order |
| Combat.Decide | server.js:459-464 | there is no winner exactly when two distinct tanks are in play; a draw exactly when every tank is eliminated (outside the one-letter case); a declared winner is a real letter and every other tank is eliminated; a single tank in play is the winner |
| Combat.SimTick | server.js:297-464 | a tick keeps the tank count, never revives a tank, never lowers a hit count, and its winner is the win rule applied to the tanks after hits |
| Combat.SimTickKeepsGameOk | server.js:297-487 | every tick keeps the whole match invariant |
| Combat.StruckIffCounted | server.js:376-433 | some bullet's own step strikes a tank exactly when the recorded hits name it, and only a tank in play can be struck |
| Combat.PhaseHitsOnTank | server.js:372-451 | after the bullet phase and hit application, a tank no bullet's own step strikes keeps its count, and a struck tank was in play and gains at least one hit, capped at 10 |
| Combat.CountAllHits | server.js:418-451 | in the bullet phase's hit list, each tank is named once for every bullet whose own step strikes it |
| Combat.PhaseTally | server.js:372-451 | after the bullet phase and hit application, each tank's count is min(10, its count before + the number of bullets whose own step strikes it) |
| Combat.PhaseEvents | server.js:372-451 | the bullet phase's hit events are the counted events of its hits taken in bullet order and then letter order |
| Combat.SimTickEliminated | server.js:435-451 | a tick reports as newly eliminated exactly the letters whose tanks were in play before it and are out of play after it |
| Combat.SimTickEvents | server.js:435-451 | a tick's hit events are the counted events of the bullet phase's hits in bullet order: one per hit that lands, with the struck tank's new count |
| Combat.SimTickSnapshot | server.js:466-481 | a tick's snapshot carries the tick's hit events, one view per tank of the tick's result as the tick leaves it, and one view per surviving bullet with its id, owner and position |
| Combat.SimTickUnstruck | server.js:297-451 | in a whole tick, a tank that no bullet's own step strikes after the tank phase keeps its hit count |
| Combat.TickStruck | server.js:297-451 | a tank that some bullet's own step strikes after the tank phase was in play and ends the tick with at least one more hit, capped at 10 |
| Combat.SimTickStruck | server.js:297-451 | the same for the tanks `SimTick` returns: a struck tank was in play and gains at least one hit, capped at 10 |
| Combat.SimTickTanks | server.js:297-451 | a tick's tanks are the tank phase's tanks with the bullet phase's hits applied |
| Combat.PhaseKeepsBullet | server.js:372-456 | after removal, a bullet of the bullet phase is still listed exactly when its own step does not remove it |
| Combat.SimTickBullets | server.js:297-456 | in a whole tick, a bullet of the tank phase's result survives exactly when its own step does not remove it |
| Combat.SimTickKept | server.js:453-484 | the tick's match keeps the surviving bullets in order with their bounce flags reset, and its snapshot shows the same bullets with the flags as the bullet phase set them |
| Combat.TickKeptStepped | server.js:372-456 | every surviving bullet is some bullet of the tank phase's result after its own step |
| Rooms.NewRoom | server.js:143-157 | a new room is waiting, with nothing reserved, no game, no countdown, no loop, and no armed inactivity timeout |
| Rooms.FirstFree | server.js:180-181 | the first unreserved letter below the count, or none exactly when all of them are reserved |
| Rooms.ClaimedSlot | server.js:171-182 | a claim gets a letter exactly when the room is waiting and some letter is free, and that letter is the first free one |
| Rooms.Claim | server.js:171-189 | answers "Game already started" outside waiting and "Room is full" when every letter is taken; otherwise reserves exactly the first free letter, never releasing one, tells the claimant its letter and tells the host the new count; nothing else changes |
| Rooms.StartCountdown | server.js:124-128 | the room enters countdown and one more interval starting at 7 is added while existing ones keep counting; nothing else changes; everyone is sent `countdown_start` and then 7 |
| Rooms.RequestStart | server.js:208-218 | ignored unless sent by the host; with a letter unclaimed, answers "Not all players have joined yet" and changes nothing; otherwise the host is marked as navigating, the room enters countdown with one more interval at 7, nothing else changes (reservations, match and timers are kept), and everyone is sent `countdown_start` and then 7 |
| Rooms.Restart | server.js:231-238 | from any state, the loop stops and the timeout is disarmed, the room enters countdown with one more interval at 7, reservations and the current match are kept, and everyone is sent `countdown_start` and then 7 |
| Rooms.CountdownTick | server.js:129-133 | the interval's value drops by one and is announced while it stays at or above zero; past zero exactly that interval ends (the others keep their places and values) and the match launches: the timeout is disarmed, a fresh match for the room's letters is played on the cube layout for its player count, the loop runs, nothing else changes, and everyone is sent `game_start` with the cubes; a gone interval does nothing |
| Rooms.Launch | server.js:269-295 | the timeout is disarmed, the room plays a fresh match for its letters on the cube layout for its player count, the loop runs, and nothing else changes (host, controllers, navigation flag, reservations and countdown intervals are kept); everyone is sent `game_start` with the cubes |
| Rooms.EliminationNotices | server.js:444-447 | each notice goes to the controller of a newly eliminated letter, and every such controller gets one |
| Rooms.Conclude | server.js:444-510 | the tick's outcome for the room: an `eliminated` notice to exactly the attached controllers of the reported letters, then the state, and nothing else; on a decision `game_over` follows, the loop stops, the room finishes and the timeout is armed; otherwise only the match changes |
| Rooms.GameTick | server.js:489-510 | without a running loop nothing happens; otherwise the match advances and the room sends exactly the tick's `eliminated` notices (one per attached controller of a reported letter), then the state; on a decision `game_over` follows, the loop stops, the room finishes and the timeout is armed, and otherwise only the match changes |
| Rooms.Steer | server.js:220-229 | while playing, input from the controller of a tank still in play becomes that tank's input and nothing else changes; in every other case the room is unchanged |
| Rooms.HostLeaves | server.js:246-252 | a navigating host only drops its connection; otherwise the loop stops, the timeout is armed, the state and the match are kept as they are, and everyone else is told the host left |
| Rooms.PlayerLeaves | server.js:255-264 | only the attached controller counts; it is detached and nothing else changes outside a match; during a match the loop stops, the room goes back to waiting and the timeout is armed, while every other controller, the host, the reservations and the match are kept, and everyone else in the room is told `Tank <letter>` left |
| Rooms.Expire | server.js:109-118 | an unarmed timeout does nothing; an armed one deletes the room, after announcing `room_expired` to everyone, exactly when the room is not playing; in a playing room it only disarms itself and sends nothing |
| Rooms.RoomStep | server.js:140-265 | a room is deleted only by its armed inactivity timeout outside play, and keeps its code and player count otherwise |
| RoomProps.NewRoomOk | server.js:143-157 | a new room satisfies the room invariant |
| RoomProps.CreatedRoomLetters | server.js:145-148 | a room created with no or a zero player count plays with two letters, a count of 1–4 gives that many, and a larger count is capped at four |
| RoomProps.ReservationsBounded | server.js:180-185 | a room never holds more claims than letters, so never more than four, and never more than a player count of 0–4 |
| RoomProps.SteerKeepsGameOk | server.js:220-229 | storing input keeps the match invariant |
| RoomProps.LaunchKeepsRoomOk | server.js:269-297 | launching a match keeps the room invariant |
| RoomProps.CountdownTickKeepsRoomOk | server.js:129-133 | a countdown second keeps the room invariant |
| RoomProps.GameTickKeepsRoomOk | server.js:297-510 | a loop step keeps the room invariant |
| RoomProps.GameTickDecides | server.js:459-501 | a loop step keeps a match playing exactly while two or more tanks remain in play, and otherwise finishes it with the loop stopped |
| RoomProps.GameTickNotifiesEliminated | server.js:435-451 | a loop step sends `eliminated` to the attached controller of every tank that was in play before the step and is out of play after it, and sends no other `eliminated` notice |
| RoomProps.RoomStepKeepsRoomOk | server.js:140-265 | every event keeps the room invariant: claims within the letters, a game whenever playing or looping, the match invariant, countdown values in [0, 7] |
| RoomProps.ClaimTakesNextLetter | server.js:180-185 | with the first m letters taken, the next claim takes letter m |
| RoomProps.ClaimsHandOutInOrder | server.js:171-189 | successive claims hand out A, B, C, D in order without gaps |
| RoomProps.FullRoomRefuses | server.js:181-182 | once every letter is taken, a claim is answered "Room is full" and changes nothing |
| RoomProps.AnnouncementsDescend | server.js:128-131 | the announced countdown values go down by one from the first to the last, each exactly once |
| RoomProps.CountdownCounts | server.js:129-131 | for its first v seconds, an interval holding v only counts down and announces v−1, …, v−n in order |
| RoomProps.CountdownExpiryLaunches | server.js:129-133 | an interval holding v launches a fresh match on its (v+1)-th second and removes itself |
| RoomProps.CountdownKeepsCounting | server.js:124-133 | the room stays in countdown for the first seven seconds |
| RoomProps.CountdownThenLaunch | server.js:124-133 | the eighth second starts the match, no interval is left, and nothing more is sent |
| RoomProps.CountdownMessages | server.js:124-133 | the countdown sends `countdown_start`, then 7, 6, …, 0, then `game_start` exactly once |
| RoomProps.RestartIgnoresReadiness | server.js:208-238 | with a letter unclaimed, the host's start changes nothing, yet a restart's countdown launches a match |
| RoomProps.LeftoverCountdownReplacesMatch | server.js:124-134 | an interval still counting while a match is played leaves the match alone, then replaces it with a fresh one |
| RoomProps.RestartDuringCountdownDoublesTimers | server.js:208-238 | a restart, or the host's start, during a countdown leaves two intervals counting |
| RoomProps.HostDropStrandsMatch | server.js:246-252 | the host leaving mid-match leaves the room playing with no loop and an armed timeout |
| RoomProps.StrandedStaysPlaying | server.js:109-118 | a stranded room stays stranded under every event except restart, start and a controller leaving: it is never deleted and never finishes |
| RoomProps.PlayerDropReopensLobby | server.js:255-264 | a controller leaving mid-match returns the room to waiting with its reservations and no loop |
| Registry.RouteOf | server.js:140-265 | an event reaches at most its own existing room; an inactivity event is the only route to a deletion; otherwise only `create_room` adds a room |
| Registry.RouteMessage | server.js:140-238 | a message reaches only an existing room; an unrecognised message does nothing; `start_game` and `tank_input` from a connection bound to no existing room do nothing; a start counts as the host's exactly when the sender is bound as host; steering names a letter exactly when the sender is bound as a controller, and then its own letter |
| Registry.RouteClose | server.js:242-264 | a closing connection loses its binding; the host or the attached controller it was bound as leaves its room; an unbound connection, a claimant, or one whose room is gone changes no room and sends nothing |
| Registry.Step | server.js:140-265 | rooms other than the event's target are untouched; a room appears only through `create_room`; a room disappears only through its armed inactivity timeout outside play; `claim_slot` and `attach` for an unknown code answer "Room not found"; `start_game` from anyone but the room's host, and `tank_input` from a connection not bound as a controller, change nothing and send nothing |
| Registry.StepKeepsServerOk | server.js:140-265 | every event keeps every room stored under its own code and satisfying the room invariant |

## Left out

- Networking: the HTTP routes, `getLocalIP` and the `listen` bootstrap.
- JSON parsing: inbound messages arrive already decoded, and unknown or unparseable
  ones are one `Unrecognised` value.
- Outbound messages are values addressed to a set of connections, so a connection
  listed twice receives one copy. Whether a socket is still open is not modelled, but
  a closing connection is left out of the broadcast about its own departure.
- Random room codes: `create_room` takes the new code as an event parameter, and
  `Registry.Step` requires that no room uses it yet.
- Timers: the countdown, the game loop and the inactivity timeout are explicit events.
  Wall-clock time `now` is a parameter.
  - A timer belonging to a room that has since been deleted is dropped.
  - In the source, such an orphaned countdown still launches a match on the detached
    room object.
- A second game-loop interval is left out. `startGame` never clears an existing loop,
  so launching while a loop runs would leave two loops stepping the match. The model
  keeps a single `loopRunning` flag.
- Trigonometry: the cosine and sine of a heading are a `Compass` parameter.
- Rounding: snapshot positions are not rounded, and the heading is not rounded to a
  tenth.
- Letter keys: controllers may attach under any key; the model uses natural numbers,
  and a key outside the match's letters steers nothing.
- Steering input: `tank_input` stores `msg.input` without checking it (server.js:227).
  A message without that field makes the next tick read a property of `undefined`
  (server.js:306-309), which throws inside the interval and ends the process. The
  model's input always carries all five keys, so that crash is not modelled.
- Player count: `playerCount` is an integer. Non-integer and non-numeric JSON values
  are not modelled.
- Combat.Decide: the one-letter edge case is modelled, but no lemma states a property
  about it, because player counts 2–4 never reach it.
- Geometry.SquaredReachMatchesDistance: it relates the squared test to a distance `d`
  with d·d = dx²+dy². It does not model `Math.sqrt` itself.
- UpdateTanks: its own contract lets a live tank stay put whatever its step, and it
  does not describe the appended bullets one by one. The exact position is stated by
  `TankPhase.TankPhaseInOrder`, and the bullets by `TankPhaseShots`,
  `TankPhaseFreshShots`, `TankPhaseVolleyOrdered` and `TankPhaseVolleyComplete`.
  Stating them on the function itself would make every proof about a tick slower.
- TankPhase.Shoot: the `shootQueued` flag is not a field. It is set and cleared within
  the same tank step, so it never carries state from one tick to the next.
