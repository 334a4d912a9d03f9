/** The second half of a game tick: every bullet, in spawn order, flies one step,
    leaves the arena, bounces off (or dies on) a cube, and may strike tanks. */
module BulletPhase {
  import opened Base
  import opened Geometry
  import opened Arena
  import opened Entities
  import Heading

  /** One BULLET_SPEED step along heading `a`. */
  function Advance(p: Point, a: int, dir: Compass): Point {
    Point(p.x + dir(a).dx * BULLET_SPEED, p.y + dir(a).dy * BULLET_SPEED)
  }

  /** The bullet circle at `p` touches some wall. */
  predicate TouchesWall(p: Point, walls: seq<Rect>) {
    exists k :: 0 <= k < |walls| && CircleRect(p, BULLET_R, walls[k])
  }

  /** The first wall, from index `k` on, that the bullet circle at `p` touches. */
  function FirstWall(p: Point, walls: seq<Rect>, k: nat): (r: Option<nat>)
    requires k <= |walls|
    decreases |walls| - k
    ensures r.Some? ==>
      && k <= r.value < |walls| && CircleRect(p, BULLET_R, walls[r.value])
      && forall j :: k <= j < r.value ==> !CircleRect(p, BULLET_R, walls[j])
    ensures r.None? ==> forall j :: k <= j < |walls| ==> !CircleRect(p, BULLET_R, walls[j])
  {
    if k == |walls| then None
    else if CircleRect(p, BULLET_R, walls[k]) then Some(k)
    else FirstWall(p, walls, k + 1)
  }

  /** The bullet at `p` penetrates wall `w` less horizontally than vertically: the
      smaller of its left and right overlaps is below the smaller of its top and
      bottom overlaps, so it struck a vertical face. */
  predicate HorizontalHit(p: Point, w: Rect) {
    var overlapLeft := (p.x + BULLET_R) - w.x;
    var overlapRight := (w.x + w.w) - (p.x - BULLET_R);
    var overlapTop := (p.y + BULLET_R) - w.y;
    var overlapBottom := (w.y + w.h) - (p.y - BULLET_R);
    Min(overlapLeft, overlapRight) < Min(overlapTop, overlapBottom)
  }

  /** A bounce off wall `w`: reflect the heading on the axis of smaller penetration,
      count the bounce, fly one more step on the new heading and flag the bounce. */
  function Bounce(b: Bullet, w: Rect, dir: Compass): (r: Bullet)
    ensures r.id == b.id && r.owner == b.owner && r.frames == b.frames
    ensures r.bounces == b.bounces + 1 && r.wallHit
    ensures r.pos == Advance(b.pos, r.angle, dir)
    ensures Heading.Valid(b.angle) ==> Heading.Valid(r.angle)
    ensures Heading.Valid(b.angle) && HorizontalHit(b.pos, w) ==> r.angle + b.angle == 180 || r.angle + b.angle == 540
    ensures Heading.Valid(b.angle) && !HorizontalHit(b.pos, w) ==> r.angle + b.angle == 0 || r.angle + b.angle == 360
  {
    var a := if HorizontalHit(b.pos, w) then Heading.ReflectH(b.angle) else Heading.ReflectV(b.angle);
    b.(pos := Advance(b.pos, a, dir), angle := a, bounces := b.bounces + 1, wallHit := true)
  }

  /** Tank `k` is struck by bullet `b`: it is live, it is not the owner while the
      bullet is within its immunity window, and the bullet centre is within
      BULLET_R + HIT_RADIUS of the tank centre. */
  predicate Struck(b: Bullet, tanks: seq<Tank>, k: nat)
    requires k < |tanks|
  {
    && !tanks[k].eliminated
    && !(k == b.owner && b.frames < OWNER_IMMUNITY)
    && WithinReach(b.pos, TankCentre(tanks[k].pos), BULLET_R + HIT_RADIUS)
  }

  /** Every tank from letter `l` on that the bullet strikes, in letter order. The
      source does not stop at the first struck tank, so one bullet can strike several. */
  function Targets(b: Bullet, tanks: seq<Tank>, l: nat): (r: seq<nat>)
    requires l <= |tanks|
    decreases |tanks| - l
    ensures forall k: nat :: k in r <==> l <= k < |tanks| && Struck(b, tanks, k)
    ensures forall i :: 0 <= i < |r| ==> l <= r[i] < |tanks|
    ensures forall i, j :: 0 <= i < j < |r| ==> r[i] < r[j]
  {
    if l == |tanks| then []
    else
      var rest := Targets(b, tanks, l + 1);
      if Struck(b, tanks, l) then [l] + rest else rest
  }

  /** One bullet can strike two tanks in the same tick: two live tanks stacked so
      their bodies just touch, and a bullet (past its owner's immunity window) on their
      shared edge, within reach of both centres. */
  lemma OneBulletStrikesTwoTanks()
    ensures var upper := Tank(Point(500.0, 300.0), 0, 0, false, 0, 0, false, IDLE);
      var lower := Tank(Point(500.0, 370.0), 0, 0, false, 0, 0, false, IDLE);
      var b := Bullet(0, 0, Point(586.5, 382.0), 0, 0, OWNER_IMMUNITY, false);
      && !RectOverlap(TankBody(upper.pos), TankBody(lower.pos))
      && Targets(b, [upper, lower], 0) == [0, 1]
  {
    var upper := Tank(Point(500.0, 300.0), 0, 0, false, 0, 0, false, IDLE);
    var lower := Tank(Point(500.0, 370.0), 0, 0, false, 0, 0, false, IDLE);
    var b := Bullet(0, 0, Point(586.5, 382.0), 0, 0, OWNER_IMMUNITY, false);
    var ts := [upper, lower];
    assert TankCentre(upper.pos) == Point(586.5, 347.0);
    assert TankCentre(lower.pos) == Point(586.5, 417.0);
    assert Struck(b, ts, 0) && Struck(b, ts, 1);
    assert Targets(b, ts, 2) == [];
    assert Targets(b, ts, 1) == [1];
  }

  /** What one tick does to one bullet: its new state, whether it is to be removed,
      and the tanks it struck. */
  datatype Outcome = Outcome(bullet: Bullet, removed: bool, struck: seq<nat>)

  /** Counts the tick and tests the bullet against the tanks; it is removed if it
      struck anything. */
  function Fly(b: Bullet, tanks: seq<Tank>): (o: Outcome)
    ensures o.bullet == b.(frames := b.frames + 1)
    ensures o.removed <==> |o.struck| > 0
    ensures forall k: nat :: k in o.struck <==> k < |tanks| && Struck(o.bullet, tanks, k)
    ensures forall i, j :: 0 <= i < j < |o.struck| ==> o.struck[i] < o.struck[j]
  {
    var b1 := b.(frames := b.frames + 1);
    var s := Targets(b1, tanks, 0);
    Outcome(b1, |s| > 0, s)
  }

  /** One bullet's tick. */
  function StepBullet(b: Bullet, tanks: seq<Tank>, walls: seq<Rect>, dir: Compass): (o: Outcome)
    ensures o.bullet.id == b.id && o.bullet.owner == b.owner
    ensures var moved := Advance(b.pos, b.angle, dir);
      if OutOfArena(moved) then o.removed && o.struck == []
      else if TouchesWall(moved, walls) && b.bounces >= MAX_BOUNCES then o.removed && o.struck == []
      else
        && (o.removed <==> |o.struck| > 0)
        && (forall k: nat {:trigger Struck(o.bullet, tanks, k)} :: k in o.struck <==> k < |tanks| && Struck(o.bullet, tanks, k))
        && if TouchesWall(moved, walls) then
             && o.bullet.bounces == b.bounces + 1 && o.bullet.wallHit
             && FirstWall(moved, walls, 0).Some?
             && var w := walls[FirstWall(moved, walls, 0).value];
             && o.bullet.angle == (if HorizontalHit(moved, w) then Heading.ReflectH(b.angle) else Heading.ReflectV(b.angle))
             && o.bullet.pos == Advance(moved, o.bullet.angle, dir)
             && o.bullet.frames == b.frames + 1
           else o.bullet == b.(pos := moved, frames := b.frames + 1)
    ensures forall k :: k in o.struck ==>
      k < |tanks| && !tanks[k].eliminated && !(k == b.owner && b.frames + 1 < OWNER_IMMUNITY)
    ensures 0 <= b.bounces <= MAX_BOUNCES ==> 0 <= o.bullet.bounces <= MAX_BOUNCES
    ensures Heading.Valid(b.angle) ==> Heading.Valid(o.bullet.angle)
    ensures b.frames >= 0 ==> o.bullet.frames >= 0
  {
    var moved := Advance(b.pos, b.angle, dir);
    var b1 := b.(pos := moved);
    if OutOfArena(moved) then Outcome(b1, true, [])
    else
      match FirstWall(moved, walls, 0)
      case Some(k) =>
        if b.bounces >= MAX_BOUNCES then Outcome(b1, true, [])
        else Fly(Bounce(b1, walls[k], dir), tanks)
      case None => Fly(b1, tanks)
  }

  /** The tanks one bullet's step strikes are listed in increasing letter order, so
      none is listed twice. */
  lemma StruckAscending(b: Bullet, tanks: seq<Tank>, walls: seq<Rect>, dir: Compass)
    ensures var s := StepBullet(b, tanks, walls, dir).struck;
      forall i, j :: 0 <= i < j < |s| ==> s[i] < s[j]
  {
  }

  /** A registered hit: the struck tank's letter and the letter that fired the bullet. */
  datatype Hit = Hit(tank: nat, shooter: nat)

  function HitsBy(struck: seq<nat>, shooter: nat): (r: seq<Hit>)
    ensures |r| == |struck|
    ensures forall i :: 0 <= i < |r| ==> r[i] == Hit(struck[i], shooter)
    ensures forall h :: h in r ==> h.tank in struck && h.shooter == shooter
  {
    seq(|struck|, i requires 0 <= i < |struck| => Hit(struck[i], shooter))
  }

  /** The bullet phase's result: the stepped bullets (removed ones still present), the
      ids marked for removal, and the hits in bullet order then letter order. */
  datatype Scan = Scan(bullets: seq<Bullet>, removed: set<nat>, hits: seq<Hit>)

  /** The bullet phase from the given removal set on. A bullet whose id is already
      marked is passed over unchanged, as the source does. */
  function StepBullets(bs: seq<Bullet>, tanks: seq<Tank>, walls: seq<Rect>, dir: Compass, removed: set<nat>): (r: Scan)
    decreases |bs|
    ensures |r.bullets| == |bs|
    ensures forall i :: 0 <= i < |bs| ==> r.bullets[i].id == bs[i].id && r.bullets[i].owner == bs[i].owner
    ensures removed <= r.removed
    ensures forall h :: h in r.hits ==> h.tank < |tanks|
  {
    if bs == [] then Scan([], removed, [])
    else
      var b := bs[0];
      if b.id in removed then
        var rest := StepBullets(bs[1..], tanks, walls, dir, removed);
        Scan([b] + rest.bullets, rest.removed, rest.hits)
      else
        var o := StepBullet(b, tanks, walls, dir);
        var removed' := if o.removed then removed + {b.id} else removed;
        var rest := StepBullets(bs[1..], tanks, walls, dir, removed');
        Scan([o.bullet] + rest.bullets, rest.removed, HitsBy(o.struck, b.owner) + rest.hits)
  }

  /** Ids strictly increase along the list. */
  predicate Increasing(bs: seq<Bullet>) {
    forall i, j :: 0 <= i < j < |bs| ==> bs[i].id < bs[j].id
  }

  /** When no listed bullet is already marked (true at the start of every tick, since
      ids are unique), the skip in the bullet phase never fires: every bullet is
      stepped on its own. */
  lemma {:induction false} BulletsStepIndependently(bs: seq<Bullet>, tanks: seq<Tank>, walls: seq<Rect>, dir: Compass, removed: set<nat>)
    requires Increasing(bs)
    requires forall i :: 0 <= i < |bs| ==> bs[i].id !in removed
    ensures forall i :: 0 <= i < |bs| ==>
      StepBullets(bs, tanks, walls, dir, removed).bullets[i] == StepBullet(bs[i], tanks, walls, dir).bullet
    decreases |bs|
  {
    if bs != [] {
      var o := StepBullet(bs[0], tanks, walls, dir);
      var removed' := if o.removed then removed + {bs[0].id} else removed;
      var tail := bs[1..];
      var rest := StepBullets(tail, tanks, walls, dir, removed');
      var r := StepBullets(bs, tanks, walls, dir, removed);
      assert r.bullets == [o.bullet] + rest.bullets;
      assert forall i :: 0 <= i < |tail| ==> tail[i] == bs[i + 1];
      BulletsStepIndependently(tail, tanks, walls, dir, removed');
      forall i | 0 <= i < |bs|
        ensures r.bullets[i] == StepBullet(bs[i], tanks, walls, dir).bullet
      {
        if i > 0 {
          assert r.bullets[i] == rest.bullets[i - 1];
        }
      }
    }
  }

  /** Under the same condition, a bullet is marked for removal exactly when its own
      step removes it. */
  lemma {:induction false} MarkedIffRemoved(bs: seq<Bullet>, tanks: seq<Tank>, walls: seq<Rect>, dir: Compass, removed: set<nat>)
    requires Increasing(bs)
    requires forall i :: 0 <= i < |bs| ==> bs[i].id !in removed
    ensures forall i :: 0 <= i < |bs| ==>
      (bs[i].id in StepBullets(bs, tanks, walls, dir, removed).removed <==> StepBullet(bs[i], tanks, walls, dir).removed)
    decreases |bs|
  {
    if bs != [] {
      var b := bs[0];
      var o := StepBullet(b, tanks, walls, dir);
      var removed' := if o.removed then removed + {b.id} else removed;
      var tail := bs[1..];
      assert StepBullets(bs, tanks, walls, dir, removed).removed == StepBullets(tail, tanks, walls, dir, removed').removed;
      assert forall i :: 0 <= i < |tail| ==> tail[i] == bs[i + 1];
      MarkedIffRemoved(tail, tanks, walls, dir, removed');
      if !o.removed {
        NotMarkedLater(tail, tanks, walls, dir, removed', b.id);
      }
    }
  }

  /** Under the same condition, the hits the bullet phase records are exactly the
      tanks each bullet's own step strikes, each credited to that bullet's owner. */
  lemma {:induction false} HitsRecorded(bs: seq<Bullet>, tanks: seq<Tank>, walls: seq<Rect>, dir: Compass, removed: set<nat>)
    requires Increasing(bs)
    requires forall i :: 0 <= i < |bs| ==> bs[i].id !in removed
    ensures forall h :: h in StepBullets(bs, tanks, walls, dir, removed).hits <==>
      exists i :: 0 <= i < |bs| && h.tank in StepBullet(bs[i], tanks, walls, dir).struck && h.shooter == bs[i].owner
    decreases |bs|
  {
    if bs != [] {
      var b := bs[0];
      var o := StepBullet(b, tanks, walls, dir);
      var removed' := if o.removed then removed + {b.id} else removed;
      var tail := bs[1..];
      var rest := StepBullets(tail, tanks, walls, dir, removed');
      var r := StepBullets(bs, tanks, walls, dir, removed);
      assert r.hits == HitsBy(o.struck, b.owner) + rest.hits;
      assert forall i :: 0 <= i < |tail| ==> tail[i] == bs[i + 1];
      HitsRecorded(tail, tanks, walls, dir, removed');
      forall h
        ensures h in r.hits <==>
          exists i :: 0 <= i < |bs| && h.tank in StepBullet(bs[i], tanks, walls, dir).struck && h.shooter == bs[i].owner
      {
        if h in r.hits {
          if h in HitsBy(o.struck, b.owner) {
            assert h.tank in StepBullet(bs[0], tanks, walls, dir).struck && h.shooter == bs[0].owner;
          } else {
            assert h in rest.hits;
            var j :| 0 <= j < |tail| && h.tank in StepBullet(tail[j], tanks, walls, dir).struck && h.shooter == tail[j].owner;
            assert h.tank in StepBullet(bs[j + 1], tanks, walls, dir).struck && h.shooter == bs[j + 1].owner;
          }
        } else {
          forall i | 0 <= i < |bs| && h.tank in StepBullet(bs[i], tanks, walls, dir).struck
            ensures h.shooter != bs[i].owner
          {
            if i == 0 {
              var k :| 0 <= k < |o.struck| && o.struck[k] == h.tank;
              assert HitsBy(o.struck, b.owner)[k] == Hit(h.tank, b.owner);
            } else {
              assert tail[i - 1] == bs[i];
            }
          }
        }
      }
    }
  }

  /** The hits of a bullet phase in which every bullet is stepped on its own: each
      bullet in turn contributes one hit per tank its step strikes, in letter order,
      credited to its owner. */
  function AllHits(bs: seq<Bullet>, tanks: seq<Tank>, walls: seq<Rect>, dir: Compass): (r: seq<Hit>)
    decreases |bs|
    ensures forall h :: h in r ==> h.tank < |tanks|
  {
    if bs == [] then []
    else HitsBy(StepBullet(bs[0], tanks, walls, dir).struck, bs[0].owner) + AllHits(bs[1..], tanks, walls, dir)
  }

  /** Under the same condition, the recorded hits are exactly `AllHits`: one hit per
      struck tank per bullet, in bullet order and then letter order, none repeated and
      none dropped. */
  lemma {:induction false} HitsInBulletOrder(bs: seq<Bullet>, tanks: seq<Tank>, walls: seq<Rect>, dir: Compass, removed: set<nat>)
    requires Increasing(bs)
    requires forall i :: 0 <= i < |bs| ==> bs[i].id !in removed
    ensures StepBullets(bs, tanks, walls, dir, removed).hits == AllHits(bs, tanks, walls, dir)
    decreases |bs|
  {
    if bs != [] {
      var o := StepBullet(bs[0], tanks, walls, dir);
      var removed' := if o.removed then removed + {bs[0].id} else removed;
      var tail := bs[1..];
      assert forall i :: 0 <= i < |tail| ==> tail[i] == bs[i + 1];
      HitsInBulletOrder(tail, tanks, walls, dir, removed');
    }
  }

  /** An id below every listed id is marked by the bullet phase only if it was already marked. */
  lemma {:induction false} NotMarkedLater(bs: seq<Bullet>, tanks: seq<Tank>, walls: seq<Rect>, dir: Compass, removed: set<nat>, id: nat)
    requires forall i :: 0 <= i < |bs| ==> id != bs[i].id
    ensures id in StepBullets(bs, tanks, walls, dir, removed).removed ==> id in removed
    decreases |bs|
  {
    if bs != [] {
      var b := bs[0];
      var o := StepBullet(b, tanks, walls, dir);
      var removed' := if o.removed && b.id !in removed then removed + {b.id} else removed;
      forall i | 0 <= i < |bs[1..]|
        ensures id != bs[1..][i].id
      {
        assert bs[1..][i] == bs[i + 1];
      }
      NotMarkedLater(bs[1..], tanks, walls, dir, removed', id);
    }
  }

  lemma StepBulletOk(b: Bullet, tanks: seq<Tank>, walls: seq<Rect>, dir: Compass, n: nat)
    requires BulletOk(b, n)
    ensures BulletOk(StepBullet(b, tanks, walls, dir).bullet, n)
  {
  }

  /** The bullet phase keeps every bullet's bounce count, heading and owner in range. */
  lemma {:induction false} StepBulletsKeepsBulletsOk(bs: seq<Bullet>, tanks: seq<Tank>, walls: seq<Rect>, dir: Compass, removed: set<nat>, n: nat)
    requires forall i :: 0 <= i < |bs| ==> BulletOk(bs[i], n)
    ensures forall i :: 0 <= i < |bs| ==> BulletOk(StepBullets(bs, tanks, walls, dir, removed).bullets[i], n)
    decreases |bs|
  {
    if bs != [] {
      var b := bs[0];
      var o := StepBullet(b, tanks, walls, dir);
      var removed' := if o.removed then removed + {b.id} else removed;
      var next := if b.id in removed then removed else removed';
      var tail := bs[1..];
      assert forall i :: 0 <= i < |tail| ==> tail[i] == bs[i + 1];
      StepBulletsKeepsBulletsOk(tail, tanks, walls, dir, next, n);
      var rest := StepBullets(tail, tanks, walls, dir, next);
      var first := if b.id in removed then b else o.bullet;
      var r := StepBullets(bs, tanks, walls, dir, removed);
      assert r.bullets == [first] + rest.bullets;
      StepBulletOk(b, tanks, walls, dir, n);
      assert BulletOk(first, n);
      forall i | 0 <= i < |bs|
        ensures BulletOk(r.bullets[i], n)
      {
        if i > 0 {
          assert r.bullets[i] == rest.bullets[i - 1];
          assert BulletOk(rest.bullets[i - 1], n);
        } else {
          assert r.bullets[0] == first;
        }
      }
    }
  }
}
