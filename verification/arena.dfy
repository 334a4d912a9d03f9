/** The fixed arena: its dimensions and tuning constants, the wall layout, the spawn
    table, the tank body used for collisions and the clamp that keeps tanks on screen. */
module Arena {
  import opened Base
  import opened Geometry

  const GAME_W: real := 1920.0
  const GAME_H: real := 1080.0
  const TANK_W: real := 173.0
  const TANK_H: real := 94.0
  const BULLET_R: real := 7.0
  const TANK_SPEED: real := 4.0
  const BULLET_SPEED: real := 20.0
  /** Reload cooldown and hit-flash duration, in milliseconds. */
  const RELOAD_TIME: int := 5000
  const HIT_FLASH: int := 400
  /** Hits that eliminate a tank. */
  const MAX_HITS: int := 10
  const CUBE_SIZE: real := 120.0
  /** Minimum distance of a tank centre from the arena edges; the top edge keeps an
      extra band free for the scoreboard. */
  const SAFE: real := 105.0
  const TOP_SAFE: real := SAFE + 80.0
  /** The collision body: a 100 x 70 rectangle centred on the 173 x 94 sprite. */
  const BODY_W: real := 100.0
  const BODY_H: real := 70.0
  /** Radius of the circle around a tank centre that a bullet must reach to hit. */
  const HIT_RADIUS: real := 38.0
  /** Distance from the tank centre at which a new bullet appears. */
  const SPAWN_DIST: real := TANK_W / 2.0 + 30.0
  /** Ticks during which a bullet cannot hit the tank that fired it. */
  const OWNER_IMMUNITY: int := 20
  const MAX_BOUNCES: int := 5
  /** First value the pre-match countdown announces. */
  const COUNTDOWN_FROM: int := 7

  /** The top-left corner a tank of letter `s` spawns at. */
  function SpawnPos(s: nat): Point
    requires s < LETTER_COUNT
  {
    match s
    case 0 => Point(120.0, 200.0)
    case 1 => Point(GAME_W - 120.0 - TANK_W, 200.0)
    case 2 => Point(120.0, GAME_H - 200.0 - TANK_H)
    case 3 => Point(GAME_W - 120.0 - TANK_W, GAME_H - 200.0 - TANK_H)
  }

  /** The heading, in degrees, a tank of letter `s` spawns with: each tank faces the
      arena centre. */
  function SpawnAngle(s: nat): int
    requires s < LETTER_COUNT
  {
    match s
    case 0 => 45
    case 1 => 135
    case 2 => 315
    case 3 => 225
  }

  predicate InArena(r: Rect) {
    0.0 <= r.x && r.x + r.w <= GAME_W && 0.0 <= r.y && r.y + r.h <= GAME_H
  }

  /** Outside the arena, edges excluded. */
  predicate OutOfArena(p: Point) {
    p.x < 0.0 || p.x > GAME_W || p.y < 0.0 || p.y > GAME_H
  }

  /** The five cubes: dead centre, then between A and B, C and D, A and C, B and D.
      The layout does not depend on the player count. */
  function GenerateWalls(playerCount: int): (walls: seq<Rect>)
    ensures |walls| == 5
    ensures forall k :: 0 <= k < |walls| ==>
      walls[k].w == CUBE_SIZE && walls[k].h == CUBE_SIZE && InArena(walls[k])
  {
    var c := CUBE_SIZE;
    var midX := GAME_W / 2.0 - c / 2.0;
    var midY := GAME_H / 2.0 - c / 2.0;
    [ Rect(midX, midY, c, c),
      Rect(midX, 140.0, c, c),
      Rect(midX, GAME_H - 140.0 - c, c, c),
      Rect(140.0, midY, c, c),
      Rect(GAME_W - 140.0 - c, midY, c, c) ]
  }

  /** The collision body of a tank whose sprite has top-left corner `p`. */
  function TankBody(p: Point): (b: Rect)
    ensures b.w == BODY_W && b.h == BODY_H
    ensures TankCentre(p) == Point(b.x + b.w / 2.0, b.y + b.h / 2.0)
  {
    Rect(p.x + (TANK_W - BODY_W) / 2.0, p.y + (TANK_H - BODY_H) / 2.0, BODY_W, BODY_H)
  }

  function TankCentre(p: Point): Point {
    Point(p.x + TANK_W / 2.0, p.y + TANK_H / 2.0)
  }

  /** The tank centre lies in the safe band. */
  predicate SafeCentre(p: Point) {
    var c := TankCentre(p);
    SAFE <= c.x <= GAME_W - SAFE && TOP_SAFE <= c.y <= GAME_H - SAFE
  }

  /** Clamps the centre of a candidate position into the safe band and returns the
      corresponding top-left corner. A coordinate already in the band is kept; one
      outside it is moved onto the nearer edge of the band. */
  function ClampPosition(p: Point): (q: Point)
    ensures SafeCentre(q)
    ensures SafeCentre(p) ==> q == p
    ensures q.x == p.x || TankCentre(q).x == SAFE || TankCentre(q).x == GAME_W - SAFE
    ensures q.y == p.y || TankCentre(q).y == TOP_SAFE || TankCentre(q).y == GAME_H - SAFE
    ensures TankCentre(q).x == Clamp(TankCentre(p).x, SAFE, GAME_W - SAFE)
    ensures TankCentre(q).y == Clamp(TankCentre(p).y, TOP_SAFE, GAME_H - SAFE)
  {
    var cx := Clamp(p.x + TANK_W / 2.0, SAFE, GAME_W - SAFE);
    var cy := Clamp(p.y + TANK_H / 2.0, TOP_SAFE, GAME_H - SAFE);
    Point(cx - TANK_W / 2.0, cy - TANK_H / 2.0)
  }

  /** Clamping twice is clamping once. */
  lemma ClampIdempotent(p: Point)
    ensures ClampPosition(ClampPosition(p)) == ClampPosition(p)
  {
  }

  /** The wall layout is sound for a match: the cubes do not overlap each other and no
      spawn body overlaps a cube or another spawn body. */
  lemma LayoutIsClear(playerCount: int)
    ensures var walls := GenerateWalls(playerCount);
      && (forall i, j :: 0 <= i < j < |walls| ==> !RectOverlap(walls[i], walls[j]))
      && (forall s, k :: 0 <= s < LETTER_COUNT && 0 <= k < |walls| ==>
            !RectOverlap(TankBody(SpawnPos(s)), walls[k]))
      && (forall s, t :: 0 <= s < t < LETTER_COUNT ==>
            !RectOverlap(TankBody(SpawnPos(s)), TankBody(SpawnPos(t))))
  {
    var walls := GenerateWalls(playerCount);
    forall s, k | 0 <= s < LETTER_COUNT && 0 <= k < |walls|
      ensures !RectOverlap(TankBody(SpawnPos(s)), walls[k])
    {
      assert s == 0 || s == 1 || s == 2 || s == 3;
      assert k == 0 || k == 1 || k == 2 || k == 3 || k == 4;
    }
    forall i, j | 0 <= i < j < |walls|
      ensures !RectOverlap(walls[i], walls[j])
    {
      assert i == 0 || i == 1 || i == 2 || i == 3;
    }
    forall s, t | 0 <= s < t < LETTER_COUNT
      ensures !RectOverlap(TankBody(SpawnPos(s)), TankBody(SpawnPos(t)))
    {
      assert s == 0 || s == 1 || s == 2;
    }
  }
}
