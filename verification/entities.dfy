/** The simulated entities of one match (tanks, bullets, the match state) and the
    invariants a match keeps from spawn to its end. */
module Entities {
  import opened Base
  import opened Geometry
  import opened Arena
  import Heading

  /** A displacement; `Compass(a)` is `(Math.cos, Math.sin)` of heading `a` degrees. */
  datatype Vec = Vec(dx: real, dy: real)

  /** Trigonometry is not modelled: every operation that moves something along a
      heading receives the unit vector of that heading from this parameter. */
  type Compass = int -> Vec

  /** The latest controller state a player sent. */
  datatype Input = Input(forward: bool, backward: bool, left: bool, right: bool, shoot: bool)

  const IDLE: Input := Input(false, false, false, false, false)

  /** A tank: sprite top-left corner, heading in degrees, hits taken, reload state,
      hit-flash deadline (both deadlines in milliseconds), elimination flag and input. */
  datatype Tank = Tank(
    pos: Point,
    angle: int,
    hits: int,
    reloading: bool,
    reloadEnd: int,
    hitFlashEnd: int,
    eliminated: bool,
    input: Input)

  /** A bullet: match-unique id, the letter that fired it, centre, heading, wall
      bounces so far, ticks flown, and whether it bounced during the current tick. */
  datatype Bullet = Bullet(
    id: nat,
    owner: nat,
    pos: Point,
    angle: int,
    bounces: int,
    frames: int,
    wallHit: bool)

  /** The per-match state: one tank per configured letter, the live bullets in spawn
      order, and the next bullet id. */
  datatype Game = Game(tanks: seq<Tank>, bullets: seq<Bullet>, nextId: nat)

  function SpawnTank(s: nat): (t: Tank)
    requires s < LETTER_COUNT
    ensures t.hits == 0 && !t.eliminated && !t.reloading && t.input == IDLE
    ensures Heading.Valid(t.angle)
  {
    Tank(SpawnPos(s), SpawnAngle(s), 0, false, 0, 0, false, IDLE)
  }

  /** A fresh match for the first `n` letters: every tank at its spawn, no bullets. */
  function NewGame(n: nat): (g: Game)
    requires n <= LETTER_COUNT
    ensures |g.tanks| == n && g.bullets == [] && g.nextId == 0
    ensures forall s :: 0 <= s < n ==> g.tanks[s] == SpawnTank(s)
    ensures forall s :: 0 <= s < n ==>
      && g.tanks[s].pos == SpawnPos(s) && g.tanks[s].angle == SpawnAngle(s)
      && g.tanks[s].hits == 0 && !g.tanks[s].eliminated && !g.tanks[s].reloading && g.tanks[s].input == IDLE
  {
    Game(seq(n, s requires 0 <= s < n => SpawnTank(s)), [], 0)
  }

  /** Hit count within [0, MAX_HITS], eliminated exactly at MAX_HITS, heading normalised. */
  predicate TankOk(t: Tank) {
    && 0 <= t.hits <= MAX_HITS
    && (t.eliminated <==> t.hits == MAX_HITS)
    && Heading.Valid(t.angle)
  }

  /** Bounce count within [0, MAX_BOUNCES], heading normalised, owner one of the `n` letters. */
  predicate BulletOk(b: Bullet, n: nat) {
    && 0 <= b.bounces <= MAX_BOUNCES
    && Heading.Valid(b.angle)
    && b.owner < n
    && b.frames >= 0
  }

  /** Ids strictly increase along the bullet list and are all below `nextId`. */
  predicate IdsOrdered(bs: seq<Bullet>, nextId: nat) {
    && (forall i, j :: 0 <= i < j < |bs| ==> bs[i].id < bs[j].id)
    && (forall i :: 0 <= i < |bs| ==> bs[i].id < nextId)
  }

  /** No live tank's body overlaps a wall, and no two live tanks' bodies overlap. */
  predicate Separated(tanks: seq<Tank>, walls: seq<Rect>) {
    && (forall i, k :: 0 <= i < |tanks| && 0 <= k < |walls| && !tanks[i].eliminated ==>
          !RectOverlap(TankBody(tanks[i].pos), walls[k]))
    && (forall i, j ::
          0 <= i < |tanks| && 0 <= j < |tanks| && i != j && !tanks[i].eliminated && !tanks[j].eliminated
          ==> !RectOverlap(TankBody(tanks[i].pos), TankBody(tanks[j].pos)))
  }

  /** Everything a match keeps true between ticks, for `n` letters and the given walls. */
  predicate GameOk(g: Game, walls: seq<Rect>, n: nat) {
    && |g.tanks| == n
    && (forall i :: 0 <= i < |g.tanks| ==> TankOk(g.tanks[i]))
    && (forall i :: 0 <= i < |g.bullets| ==> BulletOk(g.bullets[i], n))
    && IdsOrdered(g.bullets, g.nextId)
    && Separated(g.tanks, walls)
  }

  /** A match starts in a good state for any supported number of letters. */
  lemma NewGameOk(n: nat, playerCount: int)
    requires n <= LETTER_COUNT
    ensures GameOk(NewGame(n), GenerateWalls(playerCount), n)
  {
    var g := NewGame(n);
    var walls := GenerateWalls(playerCount);
    LayoutIsClear(playerCount);
    forall i, j | 0 <= i < n && 0 <= j < n && i != j
      ensures !RectOverlap(TankBody(g.tanks[i].pos), TankBody(g.tanks[j].pos))
    {
      if i < j {
        assert !RectOverlap(TankBody(SpawnPos(i)), TankBody(SpawnPos(j)));
      } else {
        assert !RectOverlap(TankBody(SpawnPos(j)), TankBody(SpawnPos(i)));
      }
    }
  }
}
