/** The first half of a game tick: every live tank, in letter order, turns, tries to
    move, and may fire. */
module TankPhase {
  import opened Base
  import opened Geometry
  import opened Arena
  import opened Entities
  import Heading

  /** Turning: the left key first, then the right key. */
  function Turn(t: Tank): (r: Tank)
    ensures r == t.(angle := r.angle)
    ensures Heading.Valid(t.angle) ==> Heading.Valid(r.angle)
    ensures Heading.Valid(t.angle) ==>
      r.angle == t.angle || r.angle == Heading.TurnLeft(t.angle) || r.angle == Heading.TurnRight(t.angle)
    ensures Heading.Valid(t.angle) && t.input.left == t.input.right ==> r.angle == t.angle
    ensures t.input.left && !t.input.right ==> r.angle == Heading.TurnLeft(t.angle)
    ensures t.input.right && !t.input.left ==> r.angle == Heading.TurnRight(t.angle)
  {
    var a1 := if t.input.left then Heading.TurnLeft(t.angle) else t.angle;
    var a2 := if t.input.right then Heading.TurnRight(a1) else a1;
    t.(angle := a2)
  }

  predicate Moving(t: Tank) {
    t.input.forward || t.input.backward
  }

  /** The position a moving tank proposes: one step of TANK_SPEED along its heading
      (forward wins when both keys are held), with the centre clamped into the safe band. */
  function Candidate(t: Tank, dir: Compass): (p: Point)
    ensures SafeCentre(p)
    ensures var u := dir(t.angle);
      var step := if t.input.forward
        then Point(t.pos.x + TANK_SPEED * u.dx, t.pos.y + TANK_SPEED * u.dy)
        else Point(t.pos.x - TANK_SPEED * u.dx, t.pos.y - TANK_SPEED * u.dy);
      && (SafeCentre(step) ==> p == step)
      && p == ClampPosition(step)
  {
    var u := dir(t.angle);
    var sign := if t.input.forward then 1.0 else -1.0;
    ClampPosition(Point(t.pos.x + u.dx * TANK_SPEED * sign, t.pos.y + u.dy * TANK_SPEED * sign))
  }

  /** Some wall overlaps the body. */
  predicate WallBlocked(body: Rect, walls: seq<Rect>) {
    exists k :: 0 <= k < |walls| && RectOverlap(body, walls[k])
  }

  /** Some other live tank's body overlaps the body of tank `l`. */
  predicate TankBlocked(body: Rect, tanks: seq<Tank>, l: nat) {
    exists j :: 0 <= j < |tanks| && j != l && !tanks[j].eliminated && RectOverlap(body, TankBody(tanks[j].pos))
  }

  predicate Blocked(p: Point, tanks: seq<Tank>, walls: seq<Rect>, l: nat) {
    WallBlocked(TankBody(p), walls) || TankBlocked(TankBody(p), tanks, l)
  }

  /** Movement is all or nothing: a tank either stays where it is or takes the whole
      clamped candidate step, and takes it exactly when the candidate body is clear of
      every wall and every other live tank (there is no sliding along an obstacle). */
  function Move(t: Tank, l: nat, tanks: seq<Tank>, walls: seq<Rect>, dir: Compass): (r: Tank)
    ensures r == t.(pos := r.pos)
    ensures Moving(t) && !Blocked(Candidate(t, dir), tanks, walls, l) ==> r.pos == Candidate(t, dir)
    ensures !Moving(t) || Blocked(Candidate(t, dir), tanks, walls, l) ==> r.pos == t.pos
    ensures r.pos != t.pos ==> SafeCentre(r.pos) && !Blocked(r.pos, tanks, walls, l)
  {
    if Moving(t) then
      var p := Candidate(t, dir);
      if !Blocked(p, tanks, walls, l) then t.(pos := p) else t
    else t
  }

  datatype Shot = Shot(tank: Tank, bullet: Option<Bullet>)

  /** Shooting and reloading. A tank fires when its shoot key is down and it is not
      reloading; firing starts a RELOAD_TIME cooldown and spawns a bullet SPAWN_DIST
      ahead of the tank centre on the tank's heading. A reload whose deadline has
      passed ends. The source's `shootQueued` flag is set and cleared within this
      step, so it carries no state between ticks. */
  function Shoot(t: Tank, l: nat, now: int, dir: Compass, nextId: nat): (r: Shot)
    ensures r.bullet.Some? <==> t.input.shoot && !t.reloading
    ensures r.tank == t.(reloading := r.tank.reloading, reloadEnd := r.tank.reloadEnd)
    ensures r.bullet.Some? ==>
      && r.tank.reloading && r.tank.reloadEnd == now + RELOAD_TIME
      && var b := r.bullet.value;
      && b.id == nextId && b.owner == l && b.angle == t.angle
      && b.bounces == 0 && b.frames == 0 && !b.wallHit
      && b.pos == Point(TankCentre(t.pos).x + dir(t.angle).dx * SPAWN_DIST,
                        TankCentre(t.pos).y + dir(t.angle).dy * SPAWN_DIST)
    ensures r.bullet.None? ==>
      r.tank.reloadEnd == t.reloadEnd && (r.tank.reloading <==> t.reloading && now < t.reloadEnd)
  {
    var fire := t.input.shoot && !t.reloading;
    var t1 := if fire then t.(reloading := true, reloadEnd := now + RELOAD_TIME) else t;
    var u := dir(t.angle);
    var b := Bullet(nextId, l,
                    Point(t.pos.x + TANK_W / 2.0 + u.dx * SPAWN_DIST, t.pos.y + TANK_H / 2.0 + u.dy * SPAWN_DIST),
                    t.angle, 0, 0, false);
    var t2 := if t1.reloading && now >= t1.reloadEnd then t1.(reloading := false) else t1;
    Shot(t2, if fire then Some(b) else None)
  }

  /** The reload gate across two steps: right after a shot the tank cannot fire again,
      and its reload lifts exactly once `now` reaches the shot's time plus RELOAD_TIME. */
  lemma ShotThenReload(t: Tank, l: nat, now: int, later: int, dir: Compass, id: nat, id': nat)
    requires Shoot(t, l, now, dir, id).bullet.Some?
    ensures var t' := Shoot(t, l, now, dir, id).tank;
      && Shoot(t', l, later, dir, id').bullet.None?
      && (Shoot(t', l, later, dir, id').tank.reloading <==> later < now + RELOAD_TIME)
  {
  }

  /** One tank's turn within the tick; an eliminated tank is skipped. */
  function UpdateTank(g: Game, l: nat, walls: seq<Rect>, now: int, dir: Compass): (r: Game)
    requires l < |g.tanks|
    ensures |r.tanks| == |g.tanks|
    ensures forall i :: 0 <= i < |g.tanks| && i != l ==> r.tanks[i] == g.tanks[i]
    ensures forall i :: 0 <= i < |g.tanks| ==>
      && r.tanks[i].eliminated == g.tanks[i].eliminated
      && r.tanks[i].hits == g.tanks[i].hits
      && r.tanks[i].hitFlashEnd == g.tanks[i].hitFlashEnd
    ensures g.tanks[l].eliminated ==> r == g
    ensures !g.tanks[l].eliminated ==>
      && r.tanks[l].angle == Turn(g.tanks[l]).angle
      && r.tanks[l].pos == Move(Turn(g.tanks[l]), l, g.tanks, walls, dir).pos
      && r.tanks[l].input == g.tanks[l].input
    ensures |r.bullets| > |g.bullets| <==> !g.tanks[l].eliminated && g.tanks[l].input.shoot && !g.tanks[l].reloading
    ensures r.tanks[l] == g.tanks[l].(pos := r.tanks[l].pos, angle := r.tanks[l].angle,
                                      reloading := r.tanks[l].reloading, reloadEnd := r.tanks[l].reloadEnd)
    ensures |r.bullets| > |g.bullets| ==>
      && r.tanks[l].reloading && r.tanks[l].reloadEnd == now + RELOAD_TIME
      && r.bullets[|g.bullets|].pos == Point(TankCentre(r.tanks[l].pos).x + dir(r.tanks[l].angle).dx * SPAWN_DIST,
                                             TankCentre(r.tanks[l].pos).y + dir(r.tanks[l].angle).dy * SPAWN_DIST)
    ensures !g.tanks[l].eliminated && |r.bullets| == |g.bullets| ==>
      && r.tanks[l].reloadEnd == g.tanks[l].reloadEnd
      && (r.tanks[l].reloading <==> g.tanks[l].reloading && now < g.tanks[l].reloadEnd)
    ensures |r.bullets| >= |g.bullets| && r.bullets[..|g.bullets|] == g.bullets
    ensures |r.bullets| == |g.bullets| ==> r.nextId == g.nextId
    ensures |r.bullets| > |g.bullets| ==>
      && |r.bullets| == |g.bullets| + 1 && r.nextId == g.nextId + 1
      && var b := r.bullets[|g.bullets|];
      && b.id == g.nextId && b.owner == l && b.angle == r.tanks[l].angle && b.bounces == 0 && b.frames == 0
      && !b.wallHit
  {
    var t := g.tanks[l];
    if t.eliminated then g
    else
      var t1 := Turn(t);
      var t2 := Move(t1, l, g.tanks, walls, dir);
      var shot := Shoot(t2, l, now, dir, g.nextId);
      var tanks := g.tanks[l := shot.tank];
      match shot.bullet
      case None => Game(tanks, g.bullets, g.nextId)
      case Some(b) => Game(tanks, g.bullets + [b], g.nextId + 1)
  }

  /** A tank fires this tick: it is in play, its shoot key is down and it is not reloading. */
  predicate Fires(t: Tank) {
    !t.eliminated && t.input.shoot && !t.reloading
  }

  /** How many of the tanks fire. */
  function Shooters(ts: seq<Tank>): nat {
    if ts == [] then 0 else (if Fires(ts[0]) then 1 else 0) + Shooters(ts[1..])
  }

  /** What one tank's turn does to it, from `before` to `after`: a tank out of play is
      untouched; a tank in play takes the turned heading, keeps its input, hit state and
      elimination, either stays put or takes its candidate step clear of every cube, and
      updates its reload as firing or not firing dictates. */
  predicate Acted(before: Tank, after: Tank, walls: seq<Rect>, now: int, dir: Compass) {
    if before.eliminated then after == before
    else
      && after == before.(pos := after.pos, angle := after.angle, reloading := after.reloading, reloadEnd := after.reloadEnd)
      && after.angle == Turn(before).angle
      && (after.pos == before.pos
          || (after.pos == Candidate(Turn(before), dir) && !WallBlocked(TankBody(after.pos), walls)))
      && (Fires(before) ==> after.reloading && after.reloadEnd == now + RELOAD_TIME)
      && (!Fires(before) ==>
            after.reloadEnd == before.reloadEnd && (after.reloading <==> before.reloading && now < before.reloadEnd))
  }

  /** The tank phase: letters `l`, `l + 1`, ... in order, each seeing the positions
      the earlier letters already committed. */
  function UpdateTanks(g: Game, walls: seq<Rect>, now: int, dir: Compass, l: nat): (r: Game)
    requires l <= |g.tanks|
    decreases |g.tanks| - l
    ensures |r.tanks| == |g.tanks|
    ensures forall i :: 0 <= i < |g.tanks| ==>
      && r.tanks[i].eliminated == g.tanks[i].eliminated
      && r.tanks[i].hits == g.tanks[i].hits
      && r.tanks[i].hitFlashEnd == g.tanks[i].hitFlashEnd
    ensures forall i :: 0 <= i < l ==> r.tanks[i] == g.tanks[i]
    ensures forall i {:trigger Acted(g.tanks[i], r.tanks[i], walls, now, dir)} :: l <= i < |g.tanks| ==> Acted(g.tanks[i], r.tanks[i], walls, now, dir)
    ensures |r.bullets| == |g.bullets| + Shooters(g.tanks[l..]) && r.bullets[..|g.bullets|] == g.bullets
    ensures r.nextId == g.nextId + Shooters(g.tanks[l..])
  {
    if l == |g.tanks| then g
    else
      var g1 := UpdateTank(g, l, walls, now, dir);
      assert Acted(g.tanks[l], g1.tanks[l], walls, now, dir);
      assert g.tanks[l..][1..] == g.tanks[l + 1..] == g1.tanks[l + 1..];
      var r := UpdateTanks(g1, walls, now, dir, l + 1);
      assert r.bullets[..|g.bullets|] == r.bullets[..|g1.bullets|][..|g.bullets|];
      r
  }

  /** The tank phase runs in letter order: a live tank's move is tested against the
      earlier letters where their own turns in this phase left them and against the
      later letters where they still stand. */
  lemma {:induction false} TankPhaseInOrder(g: Game, walls: seq<Rect>, now: int, dir: Compass, l: nat)
    requires l <= |g.tanks|
    decreases |g.tanks| - l
    ensures var r := UpdateTanks(g, walls, now, dir, l);
      forall i :: l <= i < |g.tanks| && !g.tanks[i].eliminated ==>
        r.tanks[i].pos == Move(Turn(g.tanks[i]), i, r.tanks[..i] + g.tanks[i..], walls, dir).pos
  {
    if l < |g.tanks| {
      var g1 := UpdateTank(g, l, walls, now, dir);
      var r := UpdateTanks(g, walls, now, dir, l);
      assert r == UpdateTanks(g1, walls, now, dir, l + 1);
      TankPhaseInOrder(g1, walls, now, dir, l + 1);
      forall i | l <= i < |g.tanks| && !g.tanks[i].eliminated
        ensures r.tanks[i].pos == Move(Turn(g.tanks[i]), i, r.tanks[..i] + g.tanks[i..], walls, dir).pos
      {
        if i == l {
          assert r.tanks[l] == g1.tanks[l];
          assert r.tanks[..l] + g.tanks[l..] == g.tanks;
        } else {
          assert g1.tanks[i..] == g.tanks[i..] && g1.tanks[i] == g.tanks[i];
        }
      }
    }
  }

  /** `b` is a bullet just fired by tank `t` (as it stands after its move): no bounces,
      no frames, no bounce flag, on the tank's heading, SPAWN_DIST ahead of its centre. */
  predicate FreshShot(b: Bullet, t: Tank, dir: Compass) {
    && b.angle == t.angle && b.bounces == 0 && b.frames == 0 && !b.wallHit
    && b.pos == Point(TankCentre(t.pos).x + dir(t.angle).dx * SPAWN_DIST, TankCentre(t.pos).y + dir(t.angle).dy * SPAWN_DIST)
  }

  /** The bullets the tank phase appends carry consecutive ids from the next id, and
      each is owned by a tank that fires this tick. */
  lemma {:induction false} TankPhaseShots(g: Game, walls: seq<Rect>, now: int, dir: Compass, l: nat)
    requires l <= |g.tanks|
    decreases |g.tanks| - l
    ensures var r := UpdateTanks(g, walls, now, dir, l);
      forall j :: |g.bullets| <= j < |r.bullets| ==>
        && r.bullets[j].id == g.nextId + (j - |g.bullets|)
        && l <= r.bullets[j].owner < |g.tanks| && Fires(g.tanks[r.bullets[j].owner])
  {
    if l < |g.tanks| {
      var g1 := UpdateTank(g, l, walls, now, dir);
      var r := UpdateTanks(g, walls, now, dir, l);
      assert r == UpdateTanks(g1, walls, now, dir, l + 1);
      TankPhaseShots(g1, walls, now, dir, l + 1);
      forall j | |g.bullets| <= j < |r.bullets|
        ensures && r.bullets[j].id == g.nextId + (j - |g.bullets|)
                && l <= r.bullets[j].owner < |g.tanks| && Fires(g.tanks[r.bullets[j].owner])
      {
        if j < |g1.bullets| {
          assert r.bullets[j] == r.bullets[..|g1.bullets|][j] == g1.bullets[j];
        } else {
          assert g1.tanks[r.bullets[j].owner] == g.tanks[r.bullets[j].owner];
        }
      }
    }
  }

  /** Each bullet the tank phase appends is a fresh shot of its owner as the owner's
      turn left it. */
  lemma {:induction false} TankPhaseFreshShots(g: Game, walls: seq<Rect>, now: int, dir: Compass, l: nat)
    requires l <= |g.tanks|
    decreases |g.tanks| - l
    ensures var r := UpdateTanks(g, walls, now, dir, l);
      forall j :: |g.bullets| <= j < |r.bullets| ==>
        r.bullets[j].owner < |r.tanks| && FreshShot(r.bullets[j], r.tanks[r.bullets[j].owner], dir)
  {
    if l < |g.tanks| {
      var g1 := UpdateTank(g, l, walls, now, dir);
      var r := UpdateTanks(g, walls, now, dir, l);
      assert r == UpdateTanks(g1, walls, now, dir, l + 1);
      TankPhaseFreshShots(g1, walls, now, dir, l + 1);
      forall j | |g.bullets| <= j < |r.bullets|
        ensures r.bullets[j].owner < |r.tanks| && FreshShot(r.bullets[j], r.tanks[r.bullets[j].owner], dir)
      {
        if j < |g1.bullets| {
          assert r.bullets[j] == r.bullets[..|g1.bullets|][j] == g1.bullets[j];
          assert r.tanks[l] == g1.tanks[l];
        }
      }
    }
  }

  /** The tank phase appends its bullets in letter order of their owners. */
  lemma {:induction false} TankPhaseVolleyOrdered(g: Game, walls: seq<Rect>, now: int, dir: Compass, l: nat)
    requires l <= |g.tanks|
    decreases |g.tanks| - l
    ensures var r := UpdateTanks(g, walls, now, dir, l);
      forall j, j' :: |g.bullets| <= j < j' < |r.bullets| ==> r.bullets[j].owner < r.bullets[j'].owner
  {
    if l < |g.tanks| {
      var g1 := UpdateTank(g, l, walls, now, dir);
      var r := UpdateTanks(g, walls, now, dir, l);
      assert r == UpdateTanks(g1, walls, now, dir, l + 1);
      TankPhaseVolleyOrdered(g1, walls, now, dir, l + 1);
      var k := |g.bullets|;
      if |g1.bullets| > k {
        assert r.bullets[k].owner == l by {
          assert r.bullets[k] == r.bullets[..|g1.bullets|][k] == g1.bullets[k];
        }
        assert forall j' :: k < j' < |r.bullets| ==> l < r.bullets[j'].owner by {
          TankPhaseShots(g1, walls, now, dir, l + 1);
        }
      }
    }
  }

  /** Some bullet from position `from` on is owned by letter `i`. */
  predicate Owns(bs: seq<Bullet>, from: nat, i: nat) {
    exists j :: from <= j < |bs| && bs[j].owner == i
  }

  /** Every tank that fires during the tank phase owns one of the appended bullets. */
  lemma {:induction false} TankPhaseVolleyComplete(g: Game, walls: seq<Rect>, now: int, dir: Compass, l: nat)
    requires l <= |g.tanks|
    decreases |g.tanks| - l
    ensures var r := UpdateTanks(g, walls, now, dir, l);
      forall i :: l <= i < |g.tanks| && Fires(g.tanks[i]) ==> Owns(r.bullets, |g.bullets|, i)
  {
    if l < |g.tanks| {
      var g1 := UpdateTank(g, l, walls, now, dir);
      var r := UpdateTanks(g, walls, now, dir, l);
      assert r == UpdateTanks(g1, walls, now, dir, l + 1);
      TankPhaseVolleyComplete(g1, walls, now, dir, l + 1);
      var k := |g.bullets|;
      forall i | l <= i < |g.tanks| && Fires(g.tanks[i])
        ensures Owns(r.bullets, k, i)
      {
        if i == l {
          assert r.bullets[k] == r.bullets[..|g1.bullets|][k] == g1.bullets[k];
        } else {
          assert g1.tanks[i] == g.tanks[i];
        }
      }
    }
  }

  /** One tank's turn keeps every match invariant: hit counts and eliminations are
      untouched, headings stay normalised, a new bullet gets a fresh larger id, and a
      committed move keeps the live tanks clear of the walls and of each other. */
  lemma UpdateTankKeepsGameOk(g: Game, walls: seq<Rect>, n: nat, l: nat, now: int, dir: Compass)
    requires l < |g.tanks|
    requires GameOk(g, walls, n)
    ensures GameOk(UpdateTank(g, l, walls, now, dir), walls, n)
  {
    var r := UpdateTank(g, l, walls, now, dir);
    if !g.tanks[l].eliminated {
      var t1 := Turn(g.tanks[l]);
      var t2 := Move(t1, l, g.tanks, walls, dir);
      assert r.tanks[l].pos == t2.pos;
      forall i, k | 0 <= i < |r.tanks| && 0 <= k < |walls| && !r.tanks[i].eliminated
        ensures !RectOverlap(TankBody(r.tanks[i].pos), walls[k])
      {
        if i == l && t2.pos != t1.pos {
          assert !WallBlocked(TankBody(t2.pos), walls);
        }
      }
      forall i, j | 0 <= i < |r.tanks| && 0 <= j < |r.tanks| && i != j
                    && !r.tanks[i].eliminated && !r.tanks[j].eliminated
        ensures !RectOverlap(TankBody(r.tanks[i].pos), TankBody(r.tanks[j].pos))
      {
        if i == l && t2.pos != t1.pos {
          assert !TankBlocked(TankBody(t2.pos), g.tanks, l);
        } else if j == l && t2.pos != t1.pos {
          assert !TankBlocked(TankBody(t2.pos), g.tanks, l);
          RectOverlapSymmetric(TankBody(r.tanks[i].pos), TankBody(r.tanks[j].pos));
        }
      }
      forall i | 0 <= i < |r.bullets|
        ensures BulletOk(r.bullets[i], n)
      {
        if i < |g.bullets| {
          assert r.bullets[i] == r.bullets[..|g.bullets|][i];
        }
      }
      forall i, j | 0 <= i < j < |r.bullets|
        ensures r.bullets[i].id < r.bullets[j].id
      {
        assert r.bullets[i] == r.bullets[..|g.bullets|][i];
        if j < |g.bullets| {
          assert r.bullets[j] == r.bullets[..|g.bullets|][j];
        }
      }
      forall i | 0 <= i < |r.bullets|
        ensures r.bullets[i].id < r.nextId
      {
        if i < |g.bullets| {
          assert r.bullets[i] == r.bullets[..|g.bullets|][i];
        }
      }
    }
  }

  /** The whole tank phase keeps every match invariant. */
  lemma {:induction false} UpdateTanksKeepsGameOk(g: Game, walls: seq<Rect>, n: nat, l: nat, now: int, dir: Compass)
    requires l <= |g.tanks|
    requires GameOk(g, walls, n)
    decreases |g.tanks| - l
    ensures GameOk(UpdateTanks(g, walls, now, dir, l), walls, n)
  {
    if l < |g.tanks| {
      UpdateTankKeepsGameOk(g, walls, n, l, now, dir);
      UpdateTanksKeepsGameOk(UpdateTank(g, l, walls, now, dir), walls, n, l + 1, now, dir);
    }
  }
}
