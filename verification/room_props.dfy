/** Properties of the room state machine: its invariant, the countdown, the claim
    order, and what restarts and disconnects do. */
module RoomProps {
  import opened Base
  import opened Geometry
  import opened Arena
  import opened Entities
  import opened Combat
  import opened Rooms

  /** What every room keeps: claims name letters the room plays with, a match in play
      or a running loop has a game, the game satisfies its own invariant, and every
      countdown interval holds a value in [0, COUNTDOWN_FROM]. */
  predicate RoomOk(r: Room) {
    && (forall l: nat :: l in r.reserved ==> l < Letters(r))
    && (r.state == Playing ==> r.game.Some?)
    && (r.loopRunning ==> r.game.Some?)
    && (r.game.Some? ==> GameOk(r.game.value, r.walls, Letters(r)))
    && (forall i :: 0 <= i < |r.countdowns| ==> 0 <= r.countdowns[i] <= COUNTDOWN_FROM)
  }

  lemma NewRoomOk(code: Code, host: ConnId, playerCount: int)
    ensures RoomOk(NewRoom(code, host, playerCount))
  {
  }

  /** The letters a created room plays with: an absent or zero count gives two, a
      count from one to four gives that many, and a larger one is capped at four. */
  lemma CreatedRoomLetters(code: Code, host: ConnId, raw: Option<int>)
    ensures var r := NewRoom(code, host, EffectivePlayerCount(raw));
      && (raw.None? || raw == Some(0) ==> Letters(r) == 2)
      && (raw.Some? && 1 <= raw.value <= LETTER_COUNT ==> Letters(r) == raw.value)
      && (raw.Some? && raw.value > LETTER_COUNT ==> Letters(r) == LETTER_COUNT)
  {
  }

  /** A room never has more claims than letters, so never more than four, and never
      more than its player count when that count is 2, 3 or 4. */
  lemma ReservationsBounded(r: Room)
    requires RoomOk(r)
    ensures |r.reserved| <= Letters(r) <= LETTER_COUNT
    ensures 0 <= r.playerCount <= LETTER_COUNT ==> |r.reserved| <= r.playerCount
  {
    BoundedLetters(r.reserved, Letters(r));
  }

  /** Storing a controller's input leaves the game invariant intact. */
  lemma SteerKeepsGameOk(g: Game, walls: seq<Rect>, n: nat, l: nat, input: Input)
    requires GameOk(g, walls, n) && l < |g.tanks|
    ensures GameOk(g.(tanks := g.tanks[l := g.tanks[l].(input := input)]), walls, n)
  {
    var ts := g.tanks[l := g.tanks[l].(input := input)];
    assert forall i :: 0 <= i < |ts| ==> ts[i].pos == g.tanks[i].pos && ts[i].eliminated == g.tanks[i].eliminated;
    assert forall i :: 0 <= i < |ts| ==> TankOk(ts[i]) == TankOk(g.tanks[i]);
  }

  lemma LaunchKeepsRoomOk(r: Room)
    requires RoomOk(r)
    ensures RoomOk(Launch(r).room)
  {
    NewGameOk(Letters(r), r.playerCount);
  }

  lemma CountdownTickKeepsRoomOk(r: Room, k: nat)
    requires RoomOk(r)
    ensures RoomOk(CountdownTick(r, k).room)
  {
    if k < |r.countdowns| && r.countdowns[k] <= 0 {
      var r1 := r.(countdowns := r.countdowns[..k] + r.countdowns[k + 1..]);
      assert forall i :: 0 <= i < |r1.countdowns| ==>
        r1.countdowns[i] == if i < k then r.countdowns[i] else r.countdowns[i + 1];
      LaunchKeepsRoomOk(r1);
    }
  }

  lemma GameTickKeepsRoomOk(r: Room, now: int, dir: Compass)
    requires RoomOk(r)
    ensures RoomOk(GameTick(r, now, dir).room)
  {
    if r.loopRunning && r.game.Some? {
      SimTickKeepsGameOk(r.game.value, r.walls, Letters(r), now, dir);
    }
  }

  /** Every event keeps the room invariant. */
  lemma RoomStepKeepsRoomOk(r: Room, ev: RoomEvent)
    requires RoomOk(r)
    ensures RoomStep(r, ev).room.Some? ==> RoomOk(RoomStep(r, ev).room.value)
  {
    match ev
    case ClaimSlot(c) => ClaimKeepsRoomOk(r, c);
    case TankInput(letter, input) => SteerKeepsRoomOk(r, letter, input);
    case CountdownElapsed(k) => CountdownTickKeepsRoomOk(r, k);
    case LoopElapsed(now, dir) => GameTickKeepsRoomOk(r, now, dir);
    case Attach(c, player) =>
    case Observe(c) =>
    case HostNavigating =>
    case StartRequest(c, fromHost) => RequestStartKeepsRoomOk(r, c, fromHost);
    case RestartRequest => RestartKeepsRoomOk(r);
    case HostClosed(c) => HostLeavesKeepsRoomOk(r, c);
    case PlayerClosed(c, letter) => PlayerLeavesKeepsRoomOk(r, c, letter);
    case InactivityElapsed =>
  }

  lemma ClaimKeepsRoomOk(r: Room, c: ConnId)
    requires RoomOk(r)
    ensures RoomOk(Claim(r, c).room)
  {
  }

  lemma SteerKeepsRoomOk(r: Room, letter: Option<nat>, input: Input)
    requires RoomOk(r)
    ensures RoomOk(Steer(r, letter, input))
  {
    if Steer(r, letter, input) != r {
      SteerKeepsGameOk(r.game.value, r.walls, Letters(r), letter.value, input);
    }
  }

  lemma RequestStartKeepsRoomOk(r: Room, c: ConnId, fromHost: bool)
    requires RoomOk(r)
    ensures RoomOk(RequestStart(r, c, fromHost).room)
  {
  }

  lemma RestartKeepsRoomOk(r: Room)
    requires RoomOk(r)
    ensures RoomOk(Restart(r).room)
  {
  }

  lemma HostLeavesKeepsRoomOk(r: Room, c: ConnId)
    requires RoomOk(r)
    ensures RoomOk(HostLeaves(r, c).room)
  {
  }

  lemma PlayerLeavesKeepsRoomOk(r: Room, c: ConnId, letter: nat)
    requires RoomOk(r)
    ensures RoomOk(PlayerLeaves(r, c, letter).room)
  {
  }

  /** The win transition: a loop step on a match in play keeps the room playing
      exactly while two or more tanks remain in play afterwards, and otherwise
      finishes it with the loop stopped. */
  lemma GameTickDecides(r: Room, now: int, dir: Compass)
    requires r.state == Playing && r.loopRunning && r.game.Some?
    ensures GameTick(r, now, dir).room.game.Some?
    ensures var r' := GameTick(r, now, dir).room;
      r'.state == Playing <==> exists i, j :: Live(r'.game.value.tanks, i) && Live(r'.game.value.tanks, j) && i < j
    ensures var r' := GameTick(r, now, dir).room;
      r'.state != Playing ==> r'.state == Finished && !r'.loopRunning
  {
    var res := SimTick(r.game.value, r.walls, now, dir);
  }

  /** Letter `l` was in play in `before` and is out of play in `after`. */
  predicate KnockedOut(before: seq<Tank>, after: seq<Tank>, l: nat) {
    l < |before| && l < |after| && !before[l].eliminated && after[l].eliminated
  }

  /** The `eliminated` notices of a loop step go to exactly the attached controllers of
      the tanks that step takes out of play. */
  lemma GameTickNotifiesEliminated(r: Room, now: int, dir: Compass)
    requires r.loopRunning && r.game.Some?
    ensures var t := GameTick(r, now, dir);
      && t.room.game.Some?
      && (forall l: nat :: KnockedOut(r.game.value.tanks, t.room.game.value.tanks, l) && l in r.playerConns
            ==> Out({r.playerConns[l]}, Eliminated) in t.outs)
      && (forall o :: o in t.outs && o.msg == Eliminated ==>
            exists l: nat :: KnockedOut(r.game.value.tanks, t.room.game.value.tanks, l)
                             && l in r.playerConns && o.to == {r.playerConns[l]})
  {
    SimTickEliminated(r.game.value, r.walls, now, dir);
  }

  // ---------------------------------------------------------------- claims

  /** `claim_slot` from each connection of `cs` in turn. */
  function ClaimAll(r: Room, cs: seq<ConnId>): Room
    decreases |cs|
  {
    if cs == [] then r else ClaimAll(Claim(r, cs[0]).room, cs[1..])
  }

  /** With the first `m` letters claimed, the next claim takes letter `m`. */
  lemma ClaimTakesNextLetter(r: Room, m: nat, c: ConnId)
    requires r.state == Waiting && r.reserved == Range(m) && m < Letters(r)
    ensures Claim(r, c).room == r.(reserved := Range(m + 1))
  {
    var slot := FirstFree(r.reserved, Letters(r), 0);
    assert m !in r.reserved;
    assert slot.Some?;
    assert slot.value == m;
    assert Range(m) + {m} == Range(m + 1);
  }

  /** Claims hand the letters out in order: starting from the first `m` letters
      claimed, `|cs|` further claims take exactly the next `|cs|` letters. */
  lemma {:induction false} ClaimsHandOutInOrder(r: Room, m: nat, cs: seq<ConnId>)
    requires r.state == Waiting && r.reserved == Range(m) && m + |cs| <= Letters(r)
    ensures ClaimAll(r, cs) == r.(reserved := Range(m + |cs|))
    decreases |cs|
  {
    if cs != [] {
      ClaimTakesNextLetter(r, m, cs[0]);
      ClaimsHandOutInOrder(Claim(r, cs[0]).room, m + 1, cs[1..]);
    }
  }

  /** Once every letter is taken, further claims are refused with "Room is full". */
  lemma FullRoomRefuses(r: Room, c: ConnId)
    requires r.state == Waiting && r.reserved == Range(Letters(r))
    ensures Claim(r, c) == Transition(r, [Out({c}, Error(ROOM_FULL))])
  {
  }

  // ---------------------------------------------------------------- countdown

  /** `n` seconds of countdown interval `k`, the last tick applied last. */
  function RunTimer(r: Room, k: nat, n: nat): Transition
    decreases n
  {
    if n == 0 then Transition(r, [])
    else
      var before := RunTimer(r, k, n - 1);
      var t := CountdownTick(before.room, k);
      Transition(t.room, before.outs + t.outs)
  }

  /** The announcements of the values `hi`, `hi - 1`, ..., `lo`. */
  function Announcements(to: set<ConnId>, hi: int, lo: int): seq<Out>
    decreases hi - lo
  {
    if hi < lo then [] else [Out(to, CountdownValue(hi))] + Announcements(to, hi - 1, lo)
  }

  /** The announced values descend by one from `hi` to `lo`, each exactly once. */
  lemma {:induction false} AnnouncementsDescend(to: set<ConnId>, hi: int, lo: int)
    requires lo <= hi + 1
    ensures |Announcements(to, hi, lo)| == hi - lo + 1
    ensures forall i :: 0 <= i < |Announcements(to, hi, lo)| ==>
      Announcements(to, hi, lo)[i] == Out(to, CountdownValue(hi - i))
    decreases hi - lo
  {
    if lo <= hi {
      AnnouncementsDescend(to, hi - 1, lo);
    }
  }

  lemma {:induction false} AnnouncementsExtend(to: set<ConnId>, hi: int, lo: int)
    requires lo <= hi + 1
    ensures Announcements(to, hi, lo) + [Out(to, CountdownValue(lo - 1))] == Announcements(to, hi, lo - 1)
    decreases hi - lo
  {
    if lo <= hi {
      AnnouncementsExtend(to, hi - 1, lo);
    }
  }

  /** While a lone countdown interval holding `v` runs for `n <= v` seconds, it only
      counts: the room keeps everything but the value, which is now `v - n`, and the
      values `v - 1` down to `v - n` have been announced, in that order. */
  lemma {:induction false} CountdownCounts(r: Room, v: int, n: nat)
    requires r.countdowns == [v] && n <= v
    ensures RunTimer(r, 0, n).room == r.(countdowns := [v - n])
    ensures RunTimer(r, 0, n).outs == Announcements(Recipients(r), v - 1, v - n)
    decreases n
  {
    if n > 0 {
      CountdownCounts(r, v, n - 1);
      AnnouncementsExtend(Recipients(r), v - 1, v - n + 1);
    }
  }

  /** Once a lone countdown interval reaches zero, its next second launches the match:
      a fresh game with one tank per letter, the interval gone, and `game_start` sent. */
  lemma CountdownExpiryLaunches(r: Room, v: nat)
    requires r.countdowns == [v]
    ensures RunTimer(r, 0, v + 1).room.state == Playing
    ensures RunTimer(r, 0, v + 1).room.loopRunning
    ensures RunTimer(r, 0, v + 1).room.countdowns == []
    ensures RunTimer(r, 0, v + 1).room.game == Some(NewGame(Letters(r)))
    ensures RunTimer(r, 0, v + 1).outs ==
      Announcements(Recipients(r), v - 1, 0) + [Out(Recipients(r), GameStart(GenerateWalls(r.playerCount), r.playerCount))]
  {
    CountdownCounts(r, v, v);
  }

  /** During the countdown the room stays in `countdown` for its first seven seconds. */
  lemma CountdownKeepsCounting(r: Room)
    requires r.countdowns == []
    ensures forall n: nat :: n <= COUNTDOWN_FROM ==>
      RunTimer(StartCountdown(r).room, 0, n).room.state == Countdown
  {
    var s := StartCountdown(r).room;
    assert s.countdowns == [COUNTDOWN_FROM] && s.state == Countdown;
    forall n: nat | n <= COUNTDOWN_FROM
      ensures RunTimer(s, 0, n).room.state == Countdown
    {
      CountdownCounts(s, COUNTDOWN_FROM, n);
    }
  }

  /** The first announcement comes ahead of the lower ones. */
  lemma AnnouncementsStart(to: set<ConnId>, first: Out, hi: int, last: seq<Out>)
    requires 0 <= hi
    ensures [first, Out(to, CountdownValue(hi))] + (Announcements(to, hi - 1, 0) + last)
         == [first] + Announcements(to, hi, 0) + last
  {
    assert Announcements(to, hi, 0) == [Out(to, CountdownValue(hi))] + Announcements(to, hi - 1, 0);
  }

  /** The whole countdown launches the match on its eighth second and removes itself,
      so its interval does nothing more. */
  lemma CountdownThenLaunch(r: Room)
    requires r.countdowns == []
    ensures RunTimer(StartCountdown(r).room, 0, COUNTDOWN_FROM + 1).room.state == Playing
    ensures RunTimer(StartCountdown(r).room, 0, COUNTDOWN_FROM + 1).room.countdowns == []
    ensures CountdownTick(RunTimer(StartCountdown(r).room, 0, COUNTDOWN_FROM + 1).room, 0).outs == []
  {
    assert StartCountdown(r).room.countdowns == [COUNTDOWN_FROM];
    CountdownExpiryLaunches(StartCountdown(r).room, COUNTDOWN_FROM);
  }

  /** What the countdown sends: `countdown_start`, the values 7 down to 0 one second
      apart, then `game_start` exactly once. */
  lemma CountdownMessages(r: Room)
    requires r.countdowns == []
    ensures StartCountdown(r).outs + RunTimer(StartCountdown(r).room, 0, COUNTDOWN_FROM + 1).outs ==
      [Out(Recipients(r), CountdownStart)] + Announcements(Recipients(r), COUNTDOWN_FROM, 0)
      + [Out(Recipients(r), GameStart(GenerateWalls(r.playerCount), r.playerCount))]
  {
    var s := StartCountdown(r).room;
    assert s.countdowns == [COUNTDOWN_FROM];
    assert Recipients(s) == Recipients(r) && s.playerCount == r.playerCount;
    CountdownExpiryLaunches(s, COUNTDOWN_FROM);
    AnnouncementsStart(Recipients(r), Out(Recipients(r), CountdownStart), COUNTDOWN_FROM,
                       [Out(Recipients(r), GameStart(GenerateWalls(r.playerCount), r.playerCount))]);
  }

  /** `restart_game` reaches play even from a room `start_game` refuses: with a letter
      still unclaimed, the host's start is answered with an error, yet a restart's
      countdown launches a match. */
  lemma RestartIgnoresReadiness(r: Room, c: ConnId)
    requires r.countdowns == [] && !AllReserved(r)
    ensures RequestStart(r, c, true).room == r
    ensures RunTimer(Restart(r).room, 0, COUNTDOWN_FROM + 1).room.state == Playing
  {
    assert Restart(r) == StartCountdown(r.(loopRunning := false, inactivityArmed := false));
    CountdownThenLaunch(r.(loopRunning := false, inactivityArmed := false));
  }

  /** A countdown interval still pending when a match is already in play relaunches it
      when it runs out: the match in progress is replaced by a fresh one. This is what
      a second `start_game` or a `restart_game` during a countdown leads to. */
  lemma LeftoverCountdownReplacesMatch(r: Room, v: nat)
    requires r.state == Playing && r.countdowns == [v]
    ensures forall n: nat :: n <= v ==> RunTimer(r, 0, n).room.game == r.game
    ensures RunTimer(r, 0, v + 1).room.game == Some(NewGame(Letters(r)))
  {
    forall n: nat | n <= v
      ensures RunTimer(r, 0, n).room.game == r.game
    {
      CountdownCounts(r, v, n);
    }
    CountdownExpiryLaunches(r, v);
  }

  /** A start or restart during a countdown leaves two intervals counting. */
  lemma RestartDuringCountdownDoublesTimers(r: Room)
    requires r.state == Countdown && |r.countdowns| == 1
    ensures Restart(r).room.countdowns == [r.countdowns[0], COUNTDOWN_FROM]
    ensures AllReserved(r) ==> RequestStart(r, 0, true).room.countdowns == [r.countdowns[0], COUNTDOWN_FROM]
  {
  }

  // ---------------------------------------------------------------- disconnects

  /** A match left in `playing` with no loop and no countdown. */
  predicate Stranded(r: Room) {
    r.state == Playing && !r.loopRunning && r.countdowns == [] && r.game.Some?
  }

  /** Events that do not by themselves take a room out of play. */
  predicate Passive(ev: RoomEvent) {
    !ev.RestartRequest? && !ev.StartRequest? && !ev.PlayerClosed?
  }

  /** The room after a sequence of events, or None once it is deleted. */
  function RunEvents(r: Room, evs: seq<RoomEvent>): Option<Room>
    decreases |evs|
  {
    if evs == [] then Some(r)
    else
      match RoomStep(r, evs[0]).room
      case None => None
      case Some(r') => RunEvents(r', evs[1..])
  }

  /** The host leaving mid-match (not while navigating) stops the loop but leaves the
      room in `playing`. */
  lemma HostDropStrandsMatch(r: Room, c: ConnId)
    requires r.state == Playing && r.game.Some? && r.countdowns == [] && !r.hostNavigating
    ensures Stranded(HostLeaves(r, c).room) && HostLeaves(r, c).room.inactivityArmed
  {
  }

  /** A stranded room stays stranded under every passive event: loop ticks do nothing,
      the inactivity timeout never deletes it, and it never finishes. Only a restart, a
      start or a controller leaving moves it on. */
  lemma {:induction false} StrandedStaysPlaying(r: Room, evs: seq<RoomEvent>)
    requires Stranded(r)
    requires forall i :: 0 <= i < |evs| ==> Passive(evs[i])
    ensures RunEvents(r, evs).Some? && Stranded(RunEvents(r, evs).value)
    decreases |evs|
  {
    if evs != [] {
      assert Passive(evs[0]);
      var n := RoomStep(r, evs[0]);
      assert n.room.Some? && Stranded(n.room.value) by {
        match evs[0]
        case TankInput(letter, input) =>
        case LoopElapsed(now, dir) =>
        case _ =>
      }
      assert forall i :: 0 <= i < |evs[1..]| ==> evs[1..][i] == evs[i + 1];
      StrandedStaysPlaying(n.room.value, evs[1..]);
    }
  }

  /** A controller leaving mid-match sends the room back to waiting, where claims are
      still refused when every letter is taken. */
  lemma PlayerDropReopensLobby(r: Room, c: ConnId, l: nat)
    requires r.state == Playing && l in r.playerConns && r.playerConns[l] == c
    ensures PlayerLeaves(r, c, l).room.state == Waiting
    ensures PlayerLeaves(r, c, l).room.reserved == r.reserved
    ensures !PlayerLeaves(r, c, l).room.loopRunning
  {
  }
}
