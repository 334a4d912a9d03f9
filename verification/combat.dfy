/** Hit bookkeeping, bullet removal, the win rule and the whole fixed-step tick of a
    match. */
module Combat {
  import opened Base
  import opened Geometry
  import opened Arena
  import opened Entities
  import opened TankPhase
  import opened BulletPhase
  import Heading

  /** A hit as reported to the clients: struck letter, shooter letter, the struck
      tank's new hit count. */
  datatype HitEvent = HitEvent(tank: nat, shooter: nat, hits: int)

  /** One hit on one tank. A hit on an eliminated tank changes nothing; otherwise the
      count rises by one, the hit flash is armed, and reaching MAX_HITS eliminates. */
  function ApplyHit(t: Tank, now: int): (r: Tank)
    ensures t.eliminated ==> r == t
    ensures !t.eliminated ==>
      && r == t.(hits := r.hits, hitFlashEnd := r.hitFlashEnd, eliminated := r.eliminated)
      && r.hits == t.hits + 1 && r.hitFlashEnd == now + HIT_FLASH
      && (r.eliminated <==> r.hits >= MAX_HITS)
    ensures TankOk(t) ==> TankOk(r)
  {
    if t.eliminated then t
    else
      var h := t.hits + 1;
      t.(hits := h, hitFlashEnd := now + HIT_FLASH, eliminated := h >= MAX_HITS)
  }

  datatype Applied = Applied(tanks: seq<Tank>, events: seq<HitEvent>, eliminated: seq<nat>)

  /** Applies the tick's hits in order, collecting a hit event for every hit that
      lands on a live tank and the letters eliminated by this tick. */
  function ApplyHits(tanks: seq<Tank>, hits: seq<Hit>, now: int): (r: Applied)
    requires forall h :: h in hits ==> h.tank < |tanks|
    ensures |r.tanks| == |tanks|
    ensures forall i :: 0 <= i < |tanks| ==>
      && r.tanks[i].pos == tanks[i].pos && r.tanks[i].angle == tanks[i].angle
      && r.tanks[i].reloading == tanks[i].reloading && r.tanks[i].reloadEnd == tanks[i].reloadEnd
      && r.tanks[i].input == tanks[i].input
      && (tanks[i].eliminated ==> r.tanks[i] == tanks[i])
      && r.tanks[i].hits >= tanks[i].hits
    ensures |r.events| <= |hits|
    ensures hits != [] && !tanks[hits[0].tank].eliminated ==>
      |r.events| > 0 && r.events[0] == HitEvent(hits[0].tank, hits[0].shooter, tanks[hits[0].tank].hits + 1)
    ensures forall l :: l in r.eliminated ==> l < |tanks| && !tanks[l].eliminated && r.tanks[l].eliminated
    decreases |hits|
  {
    if hits == [] then Applied(tanks, [], [])
    else
      var h := hits[0];
      var t := tanks[h.tank];
      if t.eliminated then ApplyHits(tanks, hits[1..], now)
      else
        var t' := ApplyHit(t, now);
        var rest := ApplyHits(tanks[h.tank := t'], hits[1..], now);
        Applied(rest.tanks,
                [HitEvent(h.tank, h.shooter, t'.hits)] + rest.events,
                (if t'.eliminated then [h.tank] else []) + rest.eliminated)
  }

  /** How many of the hits name letter `l`. */
  function CountHits(hits: seq<Hit>, l: nat): nat {
    if hits == [] then 0 else (if hits[0].tank == l then 1 else 0) + CountHits(hits[1..], l)
  }

  function MinInt(a: int, b: int): int {
    if a <= b then a else b
  }

  /** Hit accounting over a whole tick: each tank ends with its previous count plus the
      hits aimed at it, capped at MAX_HITS; it is eliminated exactly when it reaches
      the cap, and it is reported as newly eliminated exactly when this tick did it. */
  lemma ApplyHitsCounts(tanks: seq<Tank>, hits: seq<Hit>, now: int)
    requires forall h :: h in hits ==> h.tank < |tanks|
    requires forall i :: 0 <= i < |tanks| ==> TankOk(tanks[i])
    ensures var r := ApplyHits(tanks, hits, now);
      && (forall i :: 0 <= i < |tanks| ==> TankOk(r.tanks[i]))
      && (forall i :: 0 <= i < |tanks| ==> r.tanks[i].hits == MinInt(MAX_HITS, tanks[i].hits + CountHits(hits, i)))
      && (forall l: nat :: l < |tanks| && !tanks[l].eliminated && r.tanks[l].eliminated ==> l in r.eliminated)
  {
    ApplyHitsTally(tanks, hits, now);
    ApplyHitsReports(tanks, hits, now);
  }

  /** Each tank's count after the hits, and its good state. */
  lemma {:induction false} ApplyHitsTally(tanks: seq<Tank>, hits: seq<Hit>, now: int)
    requires forall h :: h in hits ==> h.tank < |tanks|
    requires forall i :: 0 <= i < |tanks| ==> TankOk(tanks[i])
    ensures var r := ApplyHits(tanks, hits, now);
      && (forall i :: 0 <= i < |tanks| ==> TankOk(r.tanks[i]))
      && (forall i :: 0 <= i < |tanks| ==> r.tanks[i].hits == MinInt(MAX_HITS, tanks[i].hits + CountHits(hits, i)))
    decreases |hits|
  {
    if hits != [] {
      var h := hits[0];
      var tail := hits[1..];
      assert forall x :: x in tail ==> x in hits;
      if tanks[h.tank].eliminated {
        ApplyHitsTally(tanks, tail, now);
      } else {
        ApplyHitsTally(tanks[h.tank := ApplyHit(tanks[h.tank], now)], tail, now);
      }
    }
  }

  /** A tank the hits take out of play is reported as newly eliminated. */
  lemma {:induction false} ApplyHitsReports(tanks: seq<Tank>, hits: seq<Hit>, now: int)
    requires forall h :: h in hits ==> h.tank < |tanks|
    ensures var r := ApplyHits(tanks, hits, now);
      forall l: nat :: l < |tanks| && !tanks[l].eliminated && r.tanks[l].eliminated ==> l in r.eliminated
    decreases |hits|
  {
    if hits != [] {
      var h := hits[0];
      var t := tanks[h.tank];
      var tail := hits[1..];
      assert forall x :: x in tail ==> x in hits;
      if t.eliminated {
        ApplyHitsReports(tanks, tail, now);
      } else {
        var t' := ApplyHit(t, now);
        var next := tanks[h.tank := t'];
        ApplyHitsReports(next, tail, now);
        var rest := ApplyHits(next, tail, now);
        assert ApplyHits(tanks, hits, now).tanks == rest.tanks;
        forall l: nat | l < |tanks| && !tanks[l].eliminated && rest.tanks[l].eliminated
          ensures l in ApplyHits(tanks, hits, now).eliminated
        {
          if l != h.tank || !t'.eliminated {
            assert !next[l].eliminated;
          }
        }
      }
    }
  }

  /** The event hit `h` reports after the hits `done`, counted rather than replayed:
      it lands exactly when its tank's count before the tick plus the earlier hits on
      it is still below MAX_HITS, and it reports that count plus one. */
  function CountedEvent(tanks: seq<Tank>, done: seq<Hit>, h: Hit): seq<HitEvent>
    requires h.tank < |tanks|
  {
    var n := tanks[h.tank].hits + CountHits(done, h.tank);
    if n < MAX_HITS then [HitEvent(h.tank, h.shooter, n + 1)] else []
  }

  /** The hit events of `hits` when the hits `done` came before them, stated without
      replaying anything. */
  function LandedEvents(tanks: seq<Tank>, done: seq<Hit>, hits: seq<Hit>): seq<HitEvent>
    requires forall h :: h in hits ==> h.tank < |tanks|
    decreases |hits|
  {
    if hits == [] then []
    else
      assert forall x :: x in hits[1..] ==> x in hits;
      CountedEvent(tanks, done, hits[0]) + LandedEvents(tanks, done + [hits[0]], hits[1..])
  }

  /** One more hit counts once more against its own tank and not against any other. */
  lemma {:induction false} CountHitsSnoc(done: seq<Hit>, h: Hit, l: nat)
    ensures CountHits(done + [h], l) == CountHits(done, l) + (if h.tank == l then 1 else 0)
    decreases |done|
  {
    if done == [] {
      assert [h][1..] == [];
    } else {
      assert (done + [h])[1..] == done[1..] + [h];
      CountHitsSnoc(done[1..], h, l);
    }
  }

  /** The tanks `cur` are in good state and each one's count is its count in `tanks`
      plus the hits on it among `done`, capped at MAX_HITS. */
  predicate CountsInclude(tanks: seq<Tank>, cur: seq<Tank>, done: seq<Hit>) {
    && |cur| == |tanks|
    && forall i :: 0 <= i < |cur| ==>
         TankOk(cur[i]) && cur[i].hits == MinInt(MAX_HITS, tanks[i].hits + CountHits(done, i))
  }

  /** The tanks after one hit: unchanged if its tank is out, else that tank hit once. */
  function HitTanks(cur: seq<Tank>, h: Hit, now: int): (r: seq<Tank>)
    requires h.tank < |cur|
    ensures |r| == |cur|
  {
    if cur[h.tank].eliminated then cur else cur[h.tank := ApplyHit(cur[h.tank], now)]
  }

  /** The event one hit produces when replayed on a tank in state `t`. */
  function ReplayedEvent(t: Tank, h: Hit): seq<HitEvent> {
    if t.eliminated then [] else [HitEvent(h.tank, h.shooter, t.hits + 1)]
  }

  /** The first hit's event, then the rest replayed on the tanks it leaves behind. */
  lemma ApplyHitsFront(cur: seq<Tank>, hits: seq<Hit>, now: int)
    requires hits != [] && forall h :: h in hits ==> h.tank < |cur|
    ensures hits[0].tank < |cur|
    ensures forall h :: h in hits[1..] ==> h.tank < |cur|
    ensures ApplyHits(cur, hits, now).events
      == ReplayedEvent(cur[hits[0].tank], hits[0]) + ApplyHits(HitTanks(cur, hits[0], now), hits[1..], now).events
  {
    assert hits[0] in hits;
    assert forall x :: x in hits[1..] ==> x in hits;
  }

  /** One more hit keeps the counting invariant. */
  lemma CountsStep(tanks: seq<Tank>, cur: seq<Tank>, done: seq<Hit>, h: Hit, now: int)
    requires CountsInclude(tanks, cur, done) && h.tank < |cur|
    ensures CountsInclude(tanks, HitTanks(cur, h, now), done + [h])
  {
    var next := HitTanks(cur, h, now);
    forall i | 0 <= i < |next|
      ensures TankOk(next[i]) && next[i].hits == MinInt(MAX_HITS, tanks[i].hits + CountHits(done + [h], i))
    {
      CountHitsSnoc(done, h, i);
    }
  }

  /** Under the counting invariant, the counted event and the replayed one agree. */
  lemma CountedIsReplayed(tanks: seq<Tank>, cur: seq<Tank>, done: seq<Hit>, h: Hit)
    requires CountsInclude(tanks, cur, done) && h.tank < |cur|
    ensures CountedEvent(tanks, done, h) == ReplayedEvent(cur[h.tank], h)
  {
    assert TankOk(cur[h.tank]);
  }

  /** Replaying hits on tanks whose counts already include the hits `done` reports
      exactly the counted events. */
  lemma {:induction false} ReplayMatchesCount(tanks: seq<Tank>, cur: seq<Tank>, done: seq<Hit>, hits: seq<Hit>, now: int)
    requires forall h :: h in hits ==> h.tank < |tanks|
    requires CountsInclude(tanks, cur, done)
    ensures ApplyHits(cur, hits, now).events == LandedEvents(tanks, done, hits)
    decreases |hits|
  {
    if hits != [] {
      var h := hits[0];
      ApplyHitsFront(cur, hits, now);
      CountsStep(tanks, cur, done, h, now);
      CountedIsReplayed(tanks, cur, done, h);
      ReplayMatchesCount(tanks, HitTanks(cur, h, now), done + [h], hits[1..], now);
    }
  }

  /** The hit events are exactly one per hit that lands on a tank still in play, in
      hit order, each carrying the struck tank's new count. */
  lemma HitEventsLanded(tanks: seq<Tank>, hits: seq<Hit>, now: int)
    requires forall h :: h in hits ==> h.tank < |tanks|
    requires forall i :: 0 <= i < |tanks| ==> TankOk(tanks[i])
    ensures ApplyHits(tanks, hits, now).events == LandedEvents(tanks, [], hits)
  {
    assert CountsInclude(tanks, tanks, []);
    ReplayMatchesCount(tanks, tanks, [], hits, now);
  }

  /** Drops every bullet whose id is marked, keeping the others in order. */
  function RemoveBullets(bs: seq<Bullet>, ids: set<nat>): (r: seq<Bullet>)
    ensures forall b :: b in r <==> b in bs && b.id !in ids
    ensures |r| <= |bs|
    ensures Increasing(bs) ==> Increasing(r)
  {
    if bs == [] then []
    else
      var rest := RemoveBullets(bs[1..], ids);
      assert Increasing(bs) ==> Increasing(rest) by {
        if Increasing(bs) {
          assert Increasing(bs[1..]);
        }
      }
      assert forall b :: b in bs <==> b == bs[0] || b in bs[1..];
      if bs[0].id in ids then rest
      else
        assert Increasing(bs) ==> Increasing([bs[0]] + rest) by {
          if Increasing(bs) {
            assert forall k :: 0 <= k < |rest| ==> rest[k] in bs[1..];
            PrependIncreasing(bs[0], rest);
          }
        }
        [bs[0]] + rest
  }

  lemma PrependIncreasing(b: Bullet, rest: seq<Bullet>)
    requires Increasing(rest)
    requires forall k :: 0 <= k < |rest| ==> b.id < rest[k].id
    ensures Increasing([b] + rest)
  {
    var r := [b] + rest;
    forall i, j | 0 <= i < j < |r|
      ensures r[i].id < r[j].id
    {
      assert r[j] == rest[j - 1];
      if i > 0 {
        assert r[i] == rest[i - 1];
      }
    }
  }

  /** The letters from `l` on whose tanks are still in play, in letter order. */
  function Alive(tanks: seq<Tank>, l: nat): (r: seq<nat>)
    requires l <= |tanks|
    decreases |tanks| - l
    ensures forall k: nat :: k in r <==> l <= k < |tanks| && !tanks[k].eliminated
    ensures forall i :: 0 <= i < |r| ==> l <= r[i] < |tanks|
    ensures forall i, j :: 0 <= i < j < |r| ==> r[i] < r[j]
  {
    if l == |tanks| then []
    else
      var rest := Alive(tanks, l + 1);
      if tanks[l].eliminated then rest else [l] + rest
  }

  datatype Winner = Won(letter: nat) | Draw

  /** The source's win rule: one letter left wins, none left is a draw, two or more
      means play on. In a one-letter match an eliminated tank is declared the winner.
      Play goes on exactly while two distinct tanks are live; a draw is declared exactly
      when every tank is eliminated (in a match of other than one letter); a declared
      winner is the only tank not eliminated, and a sole live tank is declared the winner. */
  function Decide(tanks: seq<Tank>): (w: Option<Winner>)
    ensures w.None? <==> exists i, j :: Live(tanks, i) && Live(tanks, j) && i < j
    ensures w == Some(Draw) <==> |tanks| != 1 && forall j :: 0 <= j < |tanks| ==> tanks[j].eliminated
    ensures w.Some? && w.value.Won? ==>
      && w.value.letter < |tanks|
      && forall j :: 0 <= j < |tanks| && j != w.value.letter ==> tanks[j].eliminated
    ensures forall l :: Live(tanks, l) && (forall j :: Live(tanks, j) ==> j == l) ==> w == Some(Won(l))
  {
    AliveEmpty(tanks);
    AliveMany(tanks);
    AliveOne(tanks);
    var alive := Alive(tanks, 0);
    var w := if |alive| == 1 then Some(Won(alive[0])) else if |alive| == 0 then Some(Draw) else None;
    if |tanks| == 1 && tanks[0].eliminated then Some(Won(0)) else w
  }

  predicate Live(tanks: seq<Tank>, l: nat) {
    l < |tanks| && !tanks[l].eliminated
  }

  /** No letter is alive exactly when every tank is eliminated. */
  lemma AliveEmpty(tanks: seq<Tank>)
    ensures |Alive(tanks, 0)| == 0 <==> forall j :: 0 <= j < |tanks| ==> tanks[j].eliminated
  {
    var alive := Alive(tanks, 0);
    if |alive| > 0 {
      assert Live(tanks, alive[0]);
    } else {
      forall j | 0 <= j < |tanks|
        ensures tanks[j].eliminated
      {
        assert j !in alive;
      }
    }
  }

  /** Two or more letters are alive exactly when two distinct tanks are live. */
  lemma AliveMany(tanks: seq<Tank>)
    ensures |Alive(tanks, 0)| >= 2 <==> exists i, j :: Live(tanks, i) && Live(tanks, j) && i < j
  {
    var alive := Alive(tanks, 0);
    if |alive| >= 2 {
      assert Live(tanks, alive[0]) && Live(tanks, alive[1]) && alive[0] < alive[1];
    }
  }

  /** With exactly one letter alive, it is the only live tank. */
  lemma AliveOne(tanks: seq<Tank>)
    ensures |Alive(tanks, 0)| == 1 ==>
      && Live(tanks, Alive(tanks, 0)[0])
      && forall j :: Live(tanks, j) ==> j == Alive(tanks, 0)[0]
  {
    var alive := Alive(tanks, 0);
    if |alive| == 1 {
      forall j | Live(tanks, j)
        ensures j == alive[0]
      {
        assert j in alive;
      }
    }
  }

  /** What the clients see of a tank and a bullet each tick (positions not rounded). */
  datatype TankView = TankView(pos: Point, angle: int, hits: int, reloading: bool, hitFlash: bool, eliminated: bool)
  datatype BulletView = BulletView(id: nat, owner: nat, pos: Point, wallHit: bool)
  datatype Snapshot = Snapshot(tanks: seq<TankView>, bullets: seq<BulletView>, hitEvents: seq<HitEvent>)

  function ViewTank(t: Tank, now: int): TankView {
    TankView(t.pos, t.angle, t.hits, t.reloading, now < t.hitFlashEnd, t.eliminated)
  }

  function ViewBullet(b: Bullet): BulletView {
    BulletView(b.id, b.owner, b.pos, b.wallHit)
  }

  function TakeSnapshot(tanks: seq<Tank>, bullets: seq<Bullet>, events: seq<HitEvent>, now: int): (s: Snapshot)
    ensures |s.tanks| == |tanks| && |s.bullets| == |bullets| && s.hitEvents == events
    ensures forall i {:trigger s.tanks[i]} :: 0 <= i < |tanks| ==> s.tanks[i] == ViewTank(tanks[i], now)
    ensures forall i {:trigger s.bullets[i]} :: 0 <= i < |bullets| ==> s.bullets[i] == ViewBullet(bullets[i])
    ensures forall i {:trigger s.tanks[i]} :: 0 <= i < |tanks| ==>
      && s.tanks[i].pos == tanks[i].pos && s.tanks[i].angle == tanks[i].angle
      && s.tanks[i].hits == tanks[i].hits && s.tanks[i].reloading == tanks[i].reloading
      && s.tanks[i].eliminated == tanks[i].eliminated
      && (s.tanks[i].hitFlash <==> now < tanks[i].hitFlashEnd)
    ensures forall i {:trigger s.bullets[i]} :: 0 <= i < |bullets| ==>
      && s.bullets[i].id == bullets[i].id && s.bullets[i].owner == bullets[i].owner
      && s.bullets[i].pos == bullets[i].pos && s.bullets[i].wallHit == bullets[i].wallHit
  {
    Snapshot(seq(|tanks|, i requires 0 <= i < |tanks| => ViewTank(tanks[i], now)),
             seq(|bullets|, i requires 0 <= i < |bullets| => ViewBullet(bullets[i])),
             events)
  }

  /** After the snapshot every bounce flag is reset. */
  function ClearWallHits(bs: seq<Bullet>): (r: seq<Bullet>)
    ensures |r| == |bs|
    ensures forall i :: 0 <= i < |bs| ==> r[i] == bs[i].(wallHit := false)
  {
    seq(|bs|, i requires 0 <= i < |bs| => bs[i].(wallHit := false))
  }

  datatype TickResult = TickResult(
    game: Game,
    events: seq<HitEvent>,
    eliminated: seq<nat>,
    snapshot: Snapshot,
    winner: Option<Winner>)

  /** One fixed step of a match at wall-clock time `now` (milliseconds): the tank
      phase, the bullet phase, hits, removal of spent bullets, the win rule and the
      snapshot (taken before the bounce flags are reset). */
  function SimTick(g: Game, walls: seq<Rect>, now: int, dir: Compass): (r: TickResult)
    ensures |r.game.tanks| == |g.tanks|
    ensures forall i :: 0 <= i < |g.tanks| && g.tanks[i].eliminated ==> r.game.tanks[i].eliminated
    ensures forall i :: 0 <= i < |g.tanks| ==> r.game.tanks[i].hits >= g.tanks[i].hits
    ensures r.winner == Decide(r.game.tanks)
  {
    var g1 := UpdateTanks(g, walls, now, dir, 0);
    var scan := StepBullets(g1.bullets, g1.tanks, walls, dir, {});
    var applied := ApplyHits(g1.tanks, scan.hits, now);
    var kept := RemoveBullets(scan.bullets, scan.removed);
    var snap := TakeSnapshot(applied.tanks, kept, applied.events, now);
    TickResult(Game(applied.tanks, ClearWallHits(kept), g1.nextId),
               applied.events, applied.eliminated, snap, Decide(applied.tanks))
  }

  /** Hits only ever remove tanks from play, so separation survives them. */
  lemma SeparationSurvivesHits(before: seq<Tank>, after: seq<Tank>, walls: seq<Rect>)
    requires |after| == |before|
    requires forall i :: 0 <= i < |before| ==> after[i].pos == before[i].pos
    requires forall i :: 0 <= i < |before| && before[i].eliminated ==> after[i].eliminated
    requires Separated(before, walls)
    ensures Separated(after, walls)
  {
  }

  /** Removing marked bullets from a phase result whose ids match an ordered list
      keeps every remaining bullet in range and the ids ordered; so does resetting the
      bounce flags. */
  lemma KeptBulletsOk(stepped: seq<Bullet>, before: seq<Bullet>, ids: set<nat>, n: nat, nextId: nat)
    requires |stepped| == |before|
    requires forall i :: 0 <= i < |before| ==> stepped[i].id == before[i].id
    requires forall i :: 0 <= i < |stepped| ==> BulletOk(stepped[i], n)
    requires IdsOrdered(before, nextId)
    ensures var kept := ClearWallHits(RemoveBullets(stepped, ids));
      && (forall i :: 0 <= i < |kept| ==> BulletOk(kept[i], n))
      && IdsOrdered(kept, nextId)
  {
    assert Increasing(stepped);
    var kept := RemoveBullets(stepped, ids);
    forall b | b in kept
      ensures BulletOk(b, n) && b.id < nextId
    {
      var i :| 0 <= i < |stepped| && stepped[i] == b;
    }
    assert forall i :: 0 <= i < |kept| ==> kept[i] in kept;
  }

  /** Every tick keeps every match invariant: hit counts in [0, MAX_HITS] with
      elimination exactly at the cap, bounce counts in [0, MAX_BOUNCES], normalised
      headings, ordered unique bullet ids, and live tanks clear of walls and of each other. */
  lemma SimTickKeepsGameOk(g: Game, walls: seq<Rect>, n: nat, now: int, dir: Compass)
    requires GameOk(g, walls, n)
    ensures GameOk(SimTick(g, walls, now, dir).game, walls, n)
  {
    var g1 := UpdateTanks(g, walls, now, dir, 0);
    UpdateTanksKeepsGameOk(g, walls, n, 0, now, dir);
    var scan := StepBullets(g1.bullets, g1.tanks, walls, dir, {});
    StepBulletsKeepsBulletsOk(g1.bullets, g1.tanks, walls, dir, {}, n);
    var applied := ApplyHits(g1.tanks, scan.hits, now);
    ApplyHitsCounts(g1.tanks, scan.hits, now);
    SeparationSurvivesHits(g1.tanks, applied.tanks, walls);
    KeptBulletsOk(scan.bullets, g1.bullets, scan.removed, n, g1.nextId);
  }

  /** A letter is hit at least once exactly when some hit names it. */
  lemma {:induction false} CountHitsPositive(hits: seq<Hit>, k: nat)
    ensures CountHits(hits, k) > 0 <==> exists h :: h in hits && h.tank == k
    decreases |hits|
  {
    if hits != [] {
      CountHitsPositive(hits[1..], k);
      assert forall h :: h in hits <==> h == hits[0] || h in hits[1..];
    }
  }

  /** Some bullet's own step in the bullet phase strikes tank `k`. */
  predicate StruckInPhase(bs: seq<Bullet>, tanks: seq<Tank>, walls: seq<Rect>, dir: Compass, k: nat) {
    exists i :: 0 <= i < |bs| && k in StepBullet(bs[i], tanks, walls, dir).struck
  }

  /** The bullet phase and hit application on one tank: a tank that no bullet's own
      step strikes keeps its count; a struck tank was in play and gains at least one hit,
      up to the cap. */
  lemma PhaseHitsOnTank(tanks: seq<Tank>, bs: seq<Bullet>, walls: seq<Rect>, dir: Compass, now: int, k: nat)
    requires Increasing(bs) && k < |tanks|
    requires forall i :: 0 <= i < |tanks| ==> TankOk(tanks[i])
    ensures var after := ApplyHits(tanks, StepBullets(bs, tanks, walls, dir, {}).hits, now).tanks;
      && (!StruckInPhase(bs, tanks, walls, dir, k) ==> after[k].hits == tanks[k].hits)
      && (StruckInPhase(bs, tanks, walls, dir, k) ==>
            !tanks[k].eliminated && MinInt(MAX_HITS, tanks[k].hits + 1) <= after[k].hits <= MAX_HITS)
  {
    var hits := StepBullets(bs, tanks, walls, dir, {}).hits;
    var after := ApplyHits(tanks, hits, now).tanks;
    assert after[k].hits == MinInt(MAX_HITS, tanks[k].hits + CountHits(hits, k)) by {
      ApplyHitsCounts(tanks, hits, now);
    }
    assert TankOk(tanks[k]);
    StruckIffCounted(bs, tanks, walls, dir, k);
  }

  /** A tank is struck in the bullet phase exactly when the recorded hits name it,
      and only a tank still in play can be struck. */
  lemma StruckIffCounted(bs: seq<Bullet>, tanks: seq<Tank>, walls: seq<Rect>, dir: Compass, k: nat)
    requires Increasing(bs)
    ensures StruckInPhase(bs, tanks, walls, dir, k) <==> CountHits(StepBullets(bs, tanks, walls, dir, {}).hits, k) > 0
    ensures StruckInPhase(bs, tanks, walls, dir, k) ==> k < |tanks| && !tanks[k].eliminated
  {
    var hits := StepBullets(bs, tanks, walls, dir, {}).hits;
    if StruckInPhase(bs, tanks, walls, dir, k) {
      var i :| 0 <= i < |bs| && k in StepBullet(bs[i], tanks, walls, dir).struck;
      assert Hit(k, bs[i].owner) in hits by {
        HitsRecorded(bs, tanks, walls, dir, {});
      }
      CountHitsPositive(hits, k);
    }
    if CountHits(hits, k) > 0 {
      CountHitsPositive(hits, k);
      var h :| h in hits && h.tank == k;
      assert exists i :: 0 <= i < |bs| && h.tank in StepBullet(bs[i], tanks, walls, dir).struck by {
        HitsRecorded(bs, tanks, walls, dir, {});
      }
    }
  }

  /** How many bullets' own steps strike letter `k`. */
  function Strikes(bs: seq<Bullet>, tanks: seq<Tank>, walls: seq<Rect>, dir: Compass, k: nat): nat
    decreases |bs|
  {
    if bs == [] then 0
    else (if k in StepBullet(bs[0], tanks, walls, dir).struck then 1 else 0) + Strikes(bs[1..], tanks, walls, dir, k)
  }

  lemma {:induction false} CountHitsAppend(a: seq<Hit>, b: seq<Hit>, l: nat)
    ensures CountHits(a + b, l) == CountHits(a, l) + CountHits(b, l)
    decreases |a|
  {
    if a != [] {
      assert (a + b)[0] == a[0] && (a + b)[1..] == a[1..] + b;
      CountHitsAppend(a[1..], b, l);
    } else {
      assert a + b == b;
    }
  }

  /** One bullet's hits on distinct letters name a letter at most once. */
  lemma {:induction false} CountHitsBy(struck: seq<nat>, shooter: nat, l: nat)
    requires forall i, j :: 0 <= i < j < |struck| ==> struck[i] < struck[j]
    ensures CountHits(HitsBy(struck, shooter), l) == if l in struck then 1 else 0
    decreases |struck|
  {
    if struck != [] {
      assert HitsBy(struck, shooter)[1..] == HitsBy(struck[1..], shooter);
      CountHitsBy(struck[1..], shooter, l);
      assert forall i :: 0 <= i < |struck[1..]| ==> struck[1..][i] == struck[i + 1];
      assert l in struck <==> l == struck[0] || l in struck[1..];
    }
  }

  /** Each bullet whose own step strikes a tank counts exactly one hit against it. */
  lemma {:induction false} CountAllHits(bs: seq<Bullet>, tanks: seq<Tank>, walls: seq<Rect>, dir: Compass, k: nat)
    ensures CountHits(AllHits(bs, tanks, walls, dir), k) == Strikes(bs, tanks, walls, dir, k)
    decreases |bs|
  {
    if bs != [] {
      var o := StepBullet(bs[0], tanks, walls, dir);
      StruckAscending(bs[0], tanks, walls, dir);
      CountHitsAppend(HitsBy(o.struck, bs[0].owner), AllHits(bs[1..], tanks, walls, dir), k);
      CountHitsBy(o.struck, bs[0].owner, k);
      CountAllHits(bs[1..], tanks, walls, dir, k);
    }
  }

  /** The bullet phase and hit application on one tank, exactly: its count rises by
      one for every bullet whose own step strikes it, capped at MAX_HITS. */
  lemma PhaseTally(tanks: seq<Tank>, bs: seq<Bullet>, walls: seq<Rect>, dir: Compass, now: int, k: nat)
    requires Increasing(bs) && k < |tanks|
    requires forall i :: 0 <= i < |tanks| ==> TankOk(tanks[i])
    ensures ApplyHits(tanks, StepBullets(bs, tanks, walls, dir, {}).hits, now).tanks[k].hits
      == MinInt(MAX_HITS, tanks[k].hits + Strikes(bs, tanks, walls, dir, k))
  {
    var hits := StepBullets(bs, tanks, walls, dir, {}).hits;
    assert CountHits(hits, k) == Strikes(bs, tanks, walls, dir, k) by {
      HitsInBulletOrder(bs, tanks, walls, dir, {});
      CountAllHits(bs, tanks, walls, dir, k);
    }
    assert ApplyHits(tanks, hits, now).tanks[k].hits == MinInt(MAX_HITS, tanks[k].hits + CountHits(hits, k)) by {
      ApplyHitsTally(tanks, hits, now);
    }
  }

  /** The bullet phase's hit events, stated without replaying: the counted events of
      its hits in bullet order. */
  lemma PhaseEvents(tanks: seq<Tank>, bs: seq<Bullet>, walls: seq<Rect>, dir: Compass, now: int)
    requires Increasing(bs)
    requires forall i :: 0 <= i < |tanks| ==> TankOk(tanks[i])
    ensures ApplyHits(tanks, StepBullets(bs, tanks, walls, dir, {}).hits, now).events
      == LandedEvents(tanks, [], AllHits(bs, tanks, walls, dir))
  {
    HitsInBulletOrder(bs, tanks, walls, dir, {});
    HitEventsLanded(tanks, StepBullets(bs, tanks, walls, dir, {}).hits, now);
  }

  /** The letters a tick reports as newly eliminated are exactly the tanks in play
      before it and out of play after it. */
  lemma SimTickEliminated(g: Game, walls: seq<Rect>, now: int, dir: Compass)
    ensures var r := SimTick(g, walls, now, dir);
      forall l: nat :: l in r.eliminated <==> l < |g.tanks| && !g.tanks[l].eliminated && r.game.tanks[l].eliminated
  {
    var g1 := UpdateTanks(g, walls, now, dir, 0);
    var hits := StepBullets(g1.bullets, g1.tanks, walls, dir, {}).hits;
    ApplyHitsReports(g1.tanks, hits, now);
  }

  /** A tick's hit events are the counted events of the bullet phase's hits in bullet
      order. */
  lemma SimTickEvents(g: Game, walls: seq<Rect>, n: nat, now: int, dir: Compass)
    requires GameOk(g, walls, n)
    ensures var g1 := UpdateTanks(g, walls, now, dir, 0);
      SimTick(g, walls, now, dir).events == LandedEvents(g1.tanks, [], AllHits(g1.bullets, g1.tanks, walls, dir))
  {
    var g1 := UpdateTanks(g, walls, now, dir, 0);
    assert Increasing(g1.bullets) && forall i :: 0 <= i < |g1.tanks| ==> TankOk(g1.tanks[i]) by {
      UpdateTanksKeepsGameOk(g, walls, n, 0, now, dir);
    }
    PhaseEvents(g1.tanks, g1.bullets, walls, dir, now);
  }

  /** A tick's snapshot shows every tank as the tick leaves it, one view per surviving
      bullet, and the tick's hit events. */
  lemma SimTickSnapshot(g: Game, walls: seq<Rect>, now: int, dir: Compass)
    ensures var r := SimTick(g, walls, now, dir);
      && r.snapshot.hitEvents == r.events
      && |r.snapshot.tanks| == |r.game.tanks|
      && (forall i :: 0 <= i < |r.game.tanks| ==> r.snapshot.tanks[i] == ViewTank(r.game.tanks[i], now))
      && |r.snapshot.bullets| == |r.game.bullets|
      && (forall j :: 0 <= j < |r.game.bullets| ==>
            r.snapshot.bullets[j] == ViewBullet(r.game.bullets[j]).(wallHit := r.snapshot.bullets[j].wallHit))
  {
  }

  /** Some bullet in the list carries id `id`. */
  predicate Listed(bs: seq<Bullet>, id: nat) {
    exists j :: 0 <= j < |bs| && bs[j].id == id
  }

  /** Removal on ordered bullets: a bullet is still listed after removal, with its
      bounce flag reset, exactly when its id is not marked. */
  lemma KeptIffUnmarked(bs: seq<Bullet>, ids: set<nat>, i: nat, id: nat)
    requires Increasing(bs) && i < |bs| && bs[i].id == id
    ensures Listed(ClearWallHits(RemoveBullets(bs, ids)), id) <==> id !in ids
  {
    if id !in ids {
      KeptWhenUnmarked(bs, ids, i);
      var kept := RemoveBullets(bs, ids);
      var j :| 0 <= j < |kept| && kept[j] == bs[i];
      assert ClearWallHits(kept)[j].id == bs[i].id;
    } else {
      var kept := RemoveBullets(bs, ids);
      forall j | 0 <= j < |kept|
        ensures ClearWallHits(kept)[j].id != bs[i].id
      {
        assert kept[j] in kept;
      }
    }
  }

  lemma KeptWhenUnmarked(bs: seq<Bullet>, ids: set<nat>, i: nat)
    requires i < |bs| && bs[i].id !in ids
    ensures exists j :: 0 <= j < |RemoveBullets(bs, ids)| && RemoveBullets(bs, ids)[j] == bs[i]
  {
    var r := RemoveBullets(bs, ids);
    assert bs[i] in bs;
    assert bs[i] in r;
    var j :| 0 <= j < |r| && r[j] == bs[i];
  }

  /** The bullet phase and removal on one bullet: it survives exactly when its own step
      does not remove it. */
  lemma PhaseKeepsBullet(bs: seq<Bullet>, tanks: seq<Tank>, walls: seq<Rect>, dir: Compass, i: nat)
    requires Increasing(bs) && i < |bs|
    ensures var scan := StepBullets(bs, tanks, walls, dir, {});
      Listed(ClearWallHits(RemoveBullets(scan.bullets, scan.removed)), bs[i].id) <==> !StepBullet(bs[i], tanks, walls, dir).removed
  {
    var scan := StepBullets(bs, tanks, walls, dir, {});
    assert bs[i].id in scan.removed <==> StepBullet(bs[i], tanks, walls, dir).removed by {
      MarkedIffRemoved(bs, tanks, walls, dir, {});
    }
    assert Increasing(scan.bullets);
    KeptIffUnmarked(scan.bullets, scan.removed, i, bs[i].id);
  }

  /** Every survivor of the bullet phase is some bullet's own stepped state. */
  lemma PhaseSurvivorStepped(bs: seq<Bullet>, tanks: seq<Tank>, walls: seq<Rect>, dir: Compass, j: nat)
    requires Increasing(bs)
    requires var scan := StepBullets(bs, tanks, walls, dir, {});
      j < |RemoveBullets(scan.bullets, scan.removed)|
    ensures var scan := StepBullets(bs, tanks, walls, dir, {});
      exists i :: 0 <= i < |bs| && RemoveBullets(scan.bullets, scan.removed)[j] == StepBullet(bs[i], tanks, walls, dir).bullet
  {
    var scan := StepBullets(bs, tanks, walls, dir, {});
    BulletsStepIndependently(bs, tanks, walls, dir, {});
    var kept := RemoveBullets(scan.bullets, scan.removed);
    assert kept[j] in kept;
    var m :| 0 <= m < |scan.bullets| && scan.bullets[m] == kept[j];
    assert kept[j] == StepBullet(bs[m], tanks, walls, dir).bullet;
  }

  /** A tick and a tank that no bullet's own step strikes after the tank phase `g1`:
      the tank's hit count is unchanged. */
  lemma SimTickUnstruck(g: Game, walls: seq<Rect>, n: nat, now: int, dir: Compass, k: nat)
    requires GameOk(g, walls, n) && k < |g.tanks|
    requires var g1 := UpdateTanks(g, walls, now, dir, 0);
      !StruckInPhase(g1.bullets, g1.tanks, walls, dir, k)
    ensures SimTick(g, walls, now, dir).game.tanks[k].hits == g.tanks[k].hits
  {
    var g1 := UpdateTanks(g, walls, now, dir, 0);
    TankPhaseReady(g, walls, n, now, dir, k);
    SimTickTanks(g, walls, now, dir);
    PhaseHitsOnTank(g1.tanks, g1.bullets, walls, dir, now, k);
  }

  /** A tick and a tank that some bullet's own step strikes after the tank phase `g1`:
      the tank was in play and gains at least one hit, up to the cap. */
  lemma SimTickStruck(g: Game, walls: seq<Rect>, n: nat, now: int, dir: Compass, k: nat)
    requires GameOk(g, walls, n) && k < |g.tanks|
    requires var g1 := UpdateTanks(g, walls, now, dir, 0);
      StruckInPhase(g1.bullets, g1.tanks, walls, dir, k)
    ensures !g.tanks[k].eliminated
    ensures MinInt(MAX_HITS, g.tanks[k].hits + 1) <= SimTick(g, walls, now, dir).game.tanks[k].hits <= MAX_HITS
  {
    SimTickTanks(g, walls, now, dir);
    TickStruck(g, walls, n, now, dir, k);
  }

  /** The tanks at the end of a tick: the tank phase's tanks with the bullet phase's
      hits applied. */
  function TickTanks(g: Game, walls: seq<Rect>, now: int, dir: Compass): seq<Tank> {
    var g1 := UpdateTanks(g, walls, now, dir, 0);
    ApplyHits(g1.tanks, StepBullets(g1.bullets, g1.tanks, walls, dir, {}).hits, now).tanks
  }

  /** A tank struck in the bullet phase was in play and ends the tick with at least
      one more hit, up to the cap. */
  lemma TickStruck(g: Game, walls: seq<Rect>, n: nat, now: int, dir: Compass, k: nat)
    requires GameOk(g, walls, n) && k < |g.tanks|
    requires var g1 := UpdateTanks(g, walls, now, dir, 0);
      StruckInPhase(g1.bullets, g1.tanks, walls, dir, k)
    ensures !g.tanks[k].eliminated && |TickTanks(g, walls, now, dir)| == |g.tanks|
    ensures MinInt(MAX_HITS, g.tanks[k].hits + 1) <= TickTanks(g, walls, now, dir)[k].hits <= MAX_HITS
  {
    var g1 := UpdateTanks(g, walls, now, dir, 0);
    var after := TickTanks(g, walls, now, dir);
    assert !g1.tanks[k].eliminated && MinInt(MAX_HITS, g1.tanks[k].hits + 1) <= after[k].hits <= MAX_HITS by {
      TankPhaseReady(g, walls, n, now, dir, k);
      PhaseHitsOnTank(g1.tanks, g1.bullets, walls, dir, now, k);
    }
  }

  /** The tank phase leaves ordered bullets and tanks in good state, and does not touch
      any tank's hit count or elimination. */
  lemma TankPhaseReady(g: Game, walls: seq<Rect>, n: nat, now: int, dir: Compass, k: nat)
    requires GameOk(g, walls, n) && k < |g.tanks|
    ensures var g1 := UpdateTanks(g, walls, now, dir, 0);
      && Increasing(g1.bullets) && (forall i :: 0 <= i < |g1.tanks| ==> TankOk(g1.tanks[i]))
      && g1.tanks[k].hits == g.tanks[k].hits && g1.tanks[k].eliminated == g.tanks[k].eliminated
  {
    var g1 := UpdateTanks(g, walls, now, dir, 0);
    UpdateTanksKeepsGameOk(g, walls, n, 0, now, dir);
  }

  /** A tick's tanks are the ones `TickTanks` describes. */
  lemma SimTickTanks(g: Game, walls: seq<Rect>, now: int, dir: Compass)
    ensures SimTick(g, walls, now, dir).game.tanks == TickTanks(g, walls, now, dir)
  {
  }

  /** How a tick's bullets follow from the bullet phase: a bullet of the tank phase's
      result survives the tick exactly when its own step does not remove it. */
  lemma SimTickBullets(g: Game, walls: seq<Rect>, n: nat, now: int, dir: Compass)
    requires GameOk(g, walls, n)
    ensures var g1 := UpdateTanks(g, walls, now, dir, 0);
      var r := SimTick(g, walls, now, dir);
      forall i :: 0 <= i < |g1.bullets| ==>
        (Listed(r.game.bullets, g1.bullets[i].id) <==> !StepBullet(g1.bullets[i], g1.tanks, walls, dir).removed)
  {
    var g1 := UpdateTanks(g, walls, now, dir, 0);
    assert Increasing(g1.bullets) by {
      UpdateTanksKeepsGameOk(g, walls, n, 0, now, dir);
    }
    forall i | 0 <= i < |g1.bullets| {
      PhaseKeepsBullet(g1.bullets, g1.tanks, walls, dir, i);
    }
  }

  /** The bullets a tick keeps, before their bounce flags are reset. */
  function TickKept(g: Game, walls: seq<Rect>, now: int, dir: Compass): seq<Bullet> {
    var g1 := UpdateTanks(g, walls, now, dir, 0);
    var scan := StepBullets(g1.bullets, g1.tanks, walls, dir, {});
    RemoveBullets(scan.bullets, scan.removed)
  }

  /** A tick's match keeps `TickKept` with the bounce flags reset, and its snapshot
      shows `TickKept` as it is. */
  lemma SimTickKept(g: Game, walls: seq<Rect>, now: int, dir: Compass)
    ensures var r := SimTick(g, walls, now, dir);
      var kept := TickKept(g, walls, now, dir);
      && |r.game.bullets| == |kept| == |r.snapshot.bullets|
      && forall j :: 0 <= j < |kept| ==>
           r.game.bullets[j] == kept[j].(wallHit := false) && r.snapshot.bullets[j] == ViewBullet(kept[j])
  {
  }

  /** Bullet `i` of the tank phase's result after its own step in the bullet phase. */
  function TankPhaseStep(g: Game, walls: seq<Rect>, now: int, dir: Compass, i: nat): Bullet
    requires i < |UpdateTanks(g, walls, now, dir, 0).bullets|
  {
    var g1 := UpdateTanks(g, walls, now, dir, 0);
    StepBullet(g1.bullets[i], g1.tanks, walls, dir).bullet
  }

  /** `b` is some bullet of the tank phase's result after its own step. */
  predicate SteppedFrom(g: Game, walls: seq<Rect>, now: int, dir: Compass, b: Bullet) {
    exists i :: 0 <= i < |UpdateTanks(g, walls, now, dir, 0).bullets| && b == TankPhaseStep(g, walls, now, dir, i)
  }

  /** Every bullet a tick keeps is some bullet's own stepped state. */
  lemma TickKeptStepped(g: Game, walls: seq<Rect>, n: nat, now: int, dir: Compass)
    requires GameOk(g, walls, n)
    ensures forall j :: 0 <= j < |TickKept(g, walls, now, dir)| ==> SteppedFrom(g, walls, now, dir, TickKept(g, walls, now, dir)[j])
  {
    var g1 := UpdateTanks(g, walls, now, dir, 0);
    assert Increasing(g1.bullets) by {
      UpdateTanksKeepsGameOk(g, walls, n, 0, now, dir);
    }
    var kept := TickKept(g, walls, now, dir);
    forall j | 0 <= j < |kept|
      ensures SteppedFrom(g, walls, now, dir, kept[j])
    {
      PhaseSurvivorStepped(g1.bullets, g1.tanks, walls, dir, j);
      var i :| 0 <= i < |g1.bullets| && kept[j] == StepBullet(g1.bullets[i], g1.tanks, walls, dir).bullet;
      assert kept[j] == TankPhaseStep(g, walls, now, dir, i);
    }
  }
}
