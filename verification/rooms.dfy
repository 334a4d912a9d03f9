/** One room's lobby and match state machine. Every transition is a pure function from
    a room and an event to the next room and the messages it sends; timers are
    explicit events (`CountdownTick`, `GameTick`, `InactivityExpired`). */
module Rooms {
  import opened Base
  import opened Geometry
  import opened Arena
  import opened Entities
  import opened Combat

  type Code = string
  type ConnId = nat

  datatype RoomState = Waiting | Countdown | Playing | Finished

  /** Who left, as `player_disconnected` reports it: the host, or `Tank <letter>`. */
  datatype Who = HostLeft | TankLeft(letter: nat)

  /** The outbound protocol, already decoded. `GameInProgress` is the bare
      `game_start` sent to a controller that attaches while a match is being played. */
  datatype OutMsg =
    | RoomCreated(code: Code, playerCount: int)
    | Error(message: string)
    | SlotClaimed(player: nat)
    | PlayerJoined(count: nat, player: nat, total: int)
    | Attached(player: nat)
    | GameInProgress
    | GameStart(walls: seq<Rect>, playerCount: int)
    | CountdownStart
    | CountdownValue(value: int)
    | GameState(snapshot: Snapshot)
    | Eliminated
    | GameOver(winner: Winner)
    | PlayerDisconnected(who: Who)
    | RoomExpired

  /** A message and the connections it is addressed to. Whether a connection is still
      open when the message is written is not modelled. */
  datatype Out = Out(to: set<ConnId>, msg: OutMsg)

  const ROOM_NOT_FOUND: string := "Room not found"
  const GAME_STARTED: string := "Game already started"
  const ROOM_FULL: string := "Room is full"
  const NOT_ALL_JOINED: string := "Not all players have joined yet"

  /** A room. `playerConns` maps a letter to its attached controller (a cleared entry
      is simply absent); `reserved` holds the claimed letters; `loopRunning` says the
      game-loop interval is live; `countdowns` holds the current value of every live
      countdown interval; `inactivityArmed` says the inactivity timeout is pending. */
  datatype Room = Room(
    code: Code,
    playerCount: int,
    hostConn: Option<ConnId>,
    playerConns: map<nat, ConnId>,
    reserved: set<nat>,
    hostNavigating: bool,
    state: RoomState,
    game: Option<Game>,
    walls: seq<Rect>,
    loopRunning: bool,
    countdowns: seq<int>,
    inactivityArmed: bool)

  datatype Transition = Transition(room: Room, outs: seq<Out>)

  /** Number of letters the room plays with. */
  function Letters(r: Room): nat {
    SlotCount(r.playerCount)
  }

  function HostSet(r: Room): set<ConnId> {
    if r.hostConn.Some? then {r.hostConn.value} else {}
  }

  /** Everyone a broadcast reaches: the host and every attached controller. */
  function Recipients(r: Room): set<ConnId> {
    HostSet(r) + r.playerConns.Values
  }

  /** The room `create_room` makes: waiting, nothing reserved, no timers. The
      inactivity timeout is not armed at creation. */
  function NewRoom(code: Code, host: ConnId, playerCount: int): (r: Room)
    ensures r.state == Waiting && r.reserved == {} && r.game.None? && r.countdowns == []
    ensures !r.loopRunning && !r.inactivityArmed && r.hostConn == Some(host)
  {
    Room(code, playerCount, Some(host), map[], {}, false, Waiting, None, [], false, [], false)
  }

  /** Every letter the room plays with is claimed. */
  predicate AllReserved(r: Room) {
    forall l: nat :: l < Letters(r) ==> l in r.reserved
  }

  /** `l` is the first unclaimed letter of the room. */
  predicate LeastFree(r: Room, l: nat) {
    l < Letters(r) && l !in r.reserved && forall k: nat :: k < l ==> k in r.reserved
  }

  /** The first letter from `from` below `n` that is not in `reserved`. */
  function FirstFree(reserved: set<nat>, n: nat, from: nat): (r: Option<nat>)
    requires from <= n
    decreases n - from
    ensures r.Some? ==> (from <= r.value < n && r.value !in reserved
                         && forall k: nat :: from <= k < r.value ==> k in reserved)
    ensures r.None? ==> forall k: nat :: from <= k < n ==> k in reserved
  {
    if from == n then None
    else if from !in reserved then Some(from)
    else FirstFree(reserved, n, from + 1)
  }

  /** The letter a `claim_slot` on this room would take, if any. */
  function ClaimedSlot(r: Room): (s: Option<nat>)
    ensures s.Some? <==> r.state == Waiting && !AllReserved(r)
    ensures s.Some? ==> LeastFree(r, s.value)
  {
    if r.state == Waiting then FirstFree(r.reserved, Letters(r), 0) else None
  }

  /** `claim_slot` from connection `c`: refused once the room has left waiting or
      when every letter is taken; otherwise the first free letter is reserved, the
      claimant is told its letter and the host is told the new count. */
  function Claim(r: Room, c: ConnId): (t: Transition)
    ensures t.room == r.(reserved := t.room.reserved)
    ensures r.reserved <= t.room.reserved
    ensures r.state != Waiting ==> t.room == r && t.outs == [Out({c}, Error(GAME_STARTED))]
    ensures r.state == Waiting && AllReserved(r) ==> t.room == r && t.outs == [Out({c}, Error(ROOM_FULL))]
    ensures r.state == Waiting && !AllReserved(r) ==>
      exists l: nat :: (LeastFree(r, l) && t.room.reserved == r.reserved + {l}
                   && t.outs == [Out({c}, SlotClaimed(l)), Out(HostSet(r), PlayerJoined(|r.reserved| + 1, l, r.playerCount))])
  {
    match ClaimedSlot(r)
    case None =>
      Transition(r, [Out({c}, Error(if r.state != Waiting then GAME_STARTED else ROOM_FULL))])
    case Some(l) =>
      var r' := r.(reserved := r.reserved + {l});
      Transition(r', [Out({c}, SlotClaimed(l)), Out(HostSet(r), PlayerJoined(|r'.reserved|, l, r.playerCount))])
  }

  /** `startCountdown`: enter the countdown, announce it, announce the first value and
      start one more countdown interval (any running ones keep running). */
  function StartCountdown(r: Room): (t: Transition)
    ensures t.room.state == Countdown
    ensures |t.room.countdowns| == |r.countdowns| + 1 && t.room.countdowns[..|r.countdowns|] == r.countdowns
    ensures t.room.countdowns[|r.countdowns|] == COUNTDOWN_FROM
    ensures t.room == r.(state := t.room.state, countdowns := t.room.countdowns)
    ensures Recipients(t.room) == Recipients(r)
    ensures t.outs == [Out(Recipients(r), CountdownStart), Out(Recipients(r), CountdownValue(COUNTDOWN_FROM))]
  {
    var r' := r.(state := Countdown, countdowns := r.countdowns + [COUNTDOWN_FROM]);
    Transition(r', [Out(Recipients(r), CountdownStart), Out(Recipients(r), CountdownValue(COUNTDOWN_FROM))])
  }

  /** `start_game` from connection `c`: ignored unless the sender is the host; refused
      with an error while some letter is unclaimed; otherwise the countdown starts. The
      room's state is not checked. */
  function RequestStart(r: Room, c: ConnId, fromHost: bool): (t: Transition)
    ensures !fromHost ==> t == Transition(r, [])
    ensures fromHost && !AllReserved(r) ==> t == Transition(r, [Out({c}, Error(NOT_ALL_JOINED))])
    ensures t.room.state == Countdown && r.state != Countdown ==> fromHost && AllReserved(r)
    ensures fromHost && AllReserved(r) ==>
      && t.room == r.(hostNavigating := true, state := Countdown, countdowns := r.countdowns + [COUNTDOWN_FROM])
      && t.outs == [Out(Recipients(r), CountdownStart), Out(Recipients(r), CountdownValue(COUNTDOWN_FROM))]
  {
    if !fromHost then Transition(r, [])
    else if !AllReserved(r) then Transition(r, [Out({c}, Error(NOT_ALL_JOINED))])
    else StartCountdown(r.(hostNavigating := true))
  }

  /** `restart_game`: from any connection bound to the room and in any state; stops
      the game loop, cancels the inactivity timeout and starts a countdown.
      Reservations are kept and readiness is not checked. */
  function Restart(r: Room): (t: Transition)
    ensures t.room.state == Countdown && !t.room.loopRunning && !t.room.inactivityArmed
    ensures |t.room.countdowns| == |r.countdowns| + 1 && t.room.countdowns[..|r.countdowns|] == r.countdowns
    ensures t.room.countdowns[|r.countdowns|] == COUNTDOWN_FROM
    ensures t.room.reserved == r.reserved && t.room.game == r.game
    ensures t.room == r.(loopRunning := t.room.loopRunning, inactivityArmed := t.room.inactivityArmed,
                         state := t.room.state, countdowns := t.room.countdowns)
    ensures t.outs == [Out(Recipients(r), CountdownStart), Out(Recipients(r), CountdownValue(COUNTDOWN_FROM))]
  {
    StartCountdown(r.(loopRunning := false, inactivityArmed := false))
  }

  /** `startGame`: cancel the inactivity timeout, enter playing, spawn the tanks, lay
      out the walls, announce them and start the game loop. */
  function Launch(r: Room): (t: Transition)
    ensures t.room.state == Playing && t.room.loopRunning && !t.room.inactivityArmed
    ensures t.room.game == Some(NewGame(Letters(r))) && t.room.walls == GenerateWalls(r.playerCount)
    ensures t.room.countdowns == r.countdowns && t.room.reserved == r.reserved
    ensures t.room == r.(inactivityArmed := false, state := Playing, game := t.room.game,
                         walls := t.room.walls, loopRunning := true)
    ensures Recipients(t.room) == Recipients(r)
    ensures t.outs == [Out(Recipients(r), GameStart(GenerateWalls(r.playerCount), r.playerCount))]
  {
    var walls := GenerateWalls(r.playerCount);
    var r' := r.(inactivityArmed := false, state := Playing, game := Some(NewGame(Letters(r))),
                 walls := walls, loopRunning := true);
    Transition(r', [Out(Recipients(r'), GameStart(walls, r.playerCount))])
  }

  /** One second of countdown interval `k`: the value drops by one and is announced
      while it is still at least zero; below zero the interval ends and the match is
      launched. A timer that does not exist does nothing. */
  function CountdownTick(r: Room, k: nat): (t: Transition)
    ensures k >= |r.countdowns| ==> t == Transition(r, [])
    ensures k < |r.countdowns| && r.countdowns[k] >= 1 ==>
      t == Transition(r.(countdowns := r.countdowns[k := r.countdowns[k] - 1]),
                      [Out(Recipients(r), CountdownValue(r.countdowns[k] - 1))])
    ensures k < |r.countdowns| && r.countdowns[k] <= 0 ==>
      && t.room == r.(inactivityArmed := false, state := Playing, game := Some(NewGame(Letters(r))),
                      walls := GenerateWalls(r.playerCount), loopRunning := true,
                      countdowns := r.countdowns[..k] + r.countdowns[k + 1..])
      && t.outs == [Out(Recipients(r), GameStart(GenerateWalls(r.playerCount), r.playerCount))]
  {
    if k >= |r.countdowns| then Transition(r, [])
    else
      var v := r.countdowns[k] - 1;
      if v >= 0 then
        Transition(r.(countdowns := r.countdowns[k := v]), [Out(Recipients(r), CountdownValue(v))])
      else
        Launch(r.(countdowns := r.countdowns[..k] + r.countdowns[k + 1..]))
  }

  /** The notices sent to the controllers of the newly eliminated letters (a letter
      with no attached controller gets none). */
  function EliminationNotices(letters: seq<nat>, conns: map<nat, ConnId>): (outs: seq<Out>)
    ensures forall o :: o in outs ==>
      (o.msg == Eliminated && exists l :: l in letters && l in conns && o.to == {conns[l]})
    ensures forall l :: l in letters && l in conns ==> Out({conns[l]}, Eliminated) in outs
  {
    if letters == [] then []
    else
      var rest := EliminationNotices(letters[1..], conns);
      assert forall l :: l in letters[1..] ==> l in letters;
      if letters[0] in conns then [Out({conns[letters[0]]}, Eliminated)] + rest else rest
  }

  /** One game-loop step at time `now`. Without a live loop nothing happens. On a
      decision the loop stops, the room is finished, the final snapshot and then the
      outcome are broadcast, and the inactivity timeout is armed. */
  function GameTick(r: Room, now: int, dir: Compass): (t: Transition)
    ensures !r.loopRunning || r.game.None? ==> t == Transition(r, [])
    ensures r.loopRunning && r.game.Some? ==>
      var res := SimTick(r.game.value, r.walls, now, dir);
      && t.room.game == Some(res.game)
      && (forall l :: l in res.eliminated && l in r.playerConns ==> Out({r.playerConns[l]}, Eliminated) in t.outs)
      && (forall o :: o in t.outs && o.msg == Eliminated ==>
            exists l :: l in res.eliminated && l in r.playerConns && o.to == {r.playerConns[l]})
      && (res.winner.Some? ==>
            && t.room == r.(game := Some(res.game), loopRunning := false, state := Finished, inactivityArmed := true)
            && t.outs == EliminationNotices(res.eliminated, r.playerConns)
                         + [Out(Recipients(r), GameState(res.snapshot)), Out(Recipients(r), GameOver(res.winner.value))])
      && (res.winner.None? ==>
            && t.room == r.(game := Some(res.game))
            && t.outs == EliminationNotices(res.eliminated, r.playerConns) + [Out(Recipients(r), GameState(res.snapshot))])
  {
    if !r.loopRunning || r.game.None? then Transition(r, [])
    else Conclude(r, SimTick(r.game.value, r.walls, now, dir))
  }

  /** The room after a simulated tick with result `res`: the notices to the newly
      eliminated, the snapshot, and on a decision the outcome and the end of the match. */
  function Conclude(r: Room, res: TickResult): (t: Transition)
    ensures t.room.game == Some(res.game)
    ensures forall l :: l in res.eliminated && l in r.playerConns ==> Out({r.playerConns[l]}, Eliminated) in t.outs
    ensures forall o :: o in t.outs && o.msg == Eliminated ==>
      exists l :: l in res.eliminated && l in r.playerConns && o.to == {r.playerConns[l]}
    ensures res.winner.Some? ==>
      && t.room == r.(game := Some(res.game), loopRunning := false, state := Finished, inactivityArmed := true)
      && t.outs == EliminationNotices(res.eliminated, r.playerConns)
                   + [Out(Recipients(r), GameState(res.snapshot)), Out(Recipients(r), GameOver(res.winner.value))]
    ensures res.winner.None? ==>
      && t.room == r.(game := Some(res.game))
      && t.outs == EliminationNotices(res.eliminated, r.playerConns) + [Out(Recipients(r), GameState(res.snapshot))]
  {
    var notices := EliminationNotices(res.eliminated, r.playerConns);
    var state := Out(Recipients(r), GameState(res.snapshot));
    match res.winner
    case Some(w) =>
      var over := Out(Recipients(r), GameOver(w));
      assert forall o :: o in notices + [state, over] ==> o in notices || o == state || o == over;
      Transition(r.(game := Some(res.game), loopRunning := false, state := Finished, inactivityArmed := true),
                 notices + [state, over])
    case None =>
      assert forall o :: o in notices + [state] ==> o in notices || o == state;
      Transition(r.(game := Some(res.game)), notices + [state])
  }

  /** Input from `letter` reaches a tank: the room is playing and the letter names a
      tank of the match that is still in play. */
  predicate Steerable(r: Room, letter: Option<nat>) {
    && r.state == Playing && r.game.Some? && letter.Some?
    && letter.value < |r.game.value.tanks| && !r.game.value.tanks[letter.value].eliminated
  }

  /** `tank_input` from the controller of `letter` (None for a connection that is not
      an attached controller): stored on the tank only while playing and only for a
      tank of the match that is still in play. */
  function Steer(r: Room, letter: Option<nat>, input: Input): (r': Room)
    ensures r' == r || (r.state == Playing && r.game.Some? && letter.Some?
      && letter.value < |r.game.value.tanks| && !r.game.value.tanks[letter.value].eliminated
      && r' == r.(game := Some(r.game.value.(tanks := r.game.value.tanks[letter.value :=
                    r.game.value.tanks[letter.value].(input := input)]))))
    ensures !Steerable(r, letter) ==> r' == r
    ensures Steerable(r, letter) ==>
      && r' == r.(game := r'.game) && r'.game.Some?
      && r'.game.value == r.game.value.(tanks := r'.game.value.tanks)
      && |r'.game.value.tanks| == |r.game.value.tanks|
      && r'.game.value.tanks[letter.value].input == input
      && r'.game.value.tanks[letter.value] == r.game.value.tanks[letter.value].(input := r'.game.value.tanks[letter.value].input)
      && forall i :: 0 <= i < |r.game.value.tanks| && i != letter.value ==> r'.game.value.tanks[i] == r.game.value.tanks[i]
  {
    if r.state != Playing || r.game.None? || letter.None? then r
    else
      var g := r.game.value;
      var l := letter.value;
      if l < |g.tanks| && !g.tanks[l].eliminated then
        r.(game := Some(g.(tanks := g.tanks[l := g.tanks[l].(input := input)])))
      else r
  }

  /** The host connection closed. A navigating host only drops its binding. Otherwise
      the game loop is stopped and the others are told, but the state is NOT reverted
      (a match in play stays `Playing` with no loop running), and the inactivity
      timeout is armed. */
  function HostLeaves(r: Room, c: ConnId): (t: Transition)
    ensures r.hostNavigating ==> t.room.hostConn.None? && t.room == r.(hostConn := t.room.hostConn) && t.outs == []
    ensures !r.hostNavigating ==>
      && !t.room.loopRunning && t.room.inactivityArmed
      && t.room.state == r.state && t.room.game == r.game && t.room.hostConn == r.hostConn
      && t.room == r.(loopRunning := t.room.loopRunning, inactivityArmed := t.room.inactivityArmed)
      && t.outs == [Out(Recipients(r) - {c}, PlayerDisconnected(HostLeft))]
  {
    if r.hostNavigating then Transition(r.(hostConn := None), [])
    else Transition(r.(loopRunning := false, inactivityArmed := true),
                    [Out(Recipients(r) - {c}, PlayerDisconnected(HostLeft))])
  }

  /** The controller `c` of `letter` closed. Only the currently attached controller
      counts; it is detached, and a match in play is abandoned: the loop stops, the room
      goes back to waiting, the others are told and the inactivity timeout is armed. */
  function PlayerLeaves(r: Room, c: ConnId, letter: nat): (t: Transition)
    ensures !(letter in r.playerConns && r.playerConns[letter] == c) ==> t == Transition(r, [])
    ensures letter in r.playerConns && r.playerConns[letter] == c ==>
      && letter !in t.room.playerConns
      && (r.state == Playing ==> t.room.state == Waiting && !t.room.loopRunning && t.room.inactivityArmed)
      && (r.state != Playing ==> t == Transition(r.(playerConns := r.playerConns - {letter}), []))
      && (r.state == Playing ==>
            && t.room == r.(playerConns := r.playerConns - {letter}, loopRunning := false, state := Waiting,
                            inactivityArmed := true)
            && t.outs == [Out(Recipients(r) - {c}, PlayerDisconnected(TankLeft(letter)))])
  {
    if letter in r.playerConns && r.playerConns[letter] == c then
      var r1 := r.(playerConns := r.playerConns - {letter});
      if r.state == Playing then
        DetachedRecipients(r, c, letter);
        Transition(r1.(loopRunning := false, state := Waiting, inactivityArmed := true),
                   [Out(Recipients(r1) - {c}, PlayerDisconnected(TankLeft(letter)))])
      else Transition(r1, [])
    else Transition(r, [])
  }

  /** Detaching the controller `c` of `letter` leaves everyone else a broadcast reaches. */
  lemma DetachedRecipients(r: Room, c: ConnId, letter: nat)
    requires letter in r.playerConns && r.playerConns[letter] == c
    ensures Recipients(r.(playerConns := r.playerConns - {letter})) - {c} == Recipients(r) - {c}
  {
    var rest := r.playerConns - {letter};
    forall v | v in r.playerConns.Values && v != c
      ensures v in rest.Values
    {
      var k :| k in r.playerConns && r.playerConns[k] == v;
      assert k in rest && rest[k] == v;
    }
  }

  /** The room after an event, or None when the room is deleted. */
  datatype Next = Next(room: Option<Room>, outs: seq<Out>)

  /** The inactivity timeout fired. It deletes the room (after announcing it) unless
      the room is playing at that moment. */
  function Expire(r: Room): (n: Next)
    ensures !r.inactivityArmed ==> n == Next(Some(r), [])
    ensures r.inactivityArmed ==> (n.room.None? <==> r.state != Playing)
    ensures r.inactivityArmed && r.state != Playing ==> n.outs == [Out(Recipients(r), RoomExpired)]
    ensures r.inactivityArmed && r.state == Playing ==> n == Next(Some(r.(inactivityArmed := false)), [])
  {
    if !r.inactivityArmed then Next(Some(r), [])
    else if r.state != Playing then Next(None, [Out(Recipients(r), RoomExpired)])
    else Next(Some(r.(inactivityArmed := false)), [])
  }

  /** Events that reach one room, already routed by the registry. */
  datatype RoomEvent =
    | ClaimSlot(conn: ConnId)
    | Attach(conn: ConnId, player: nat)
    | Observe(conn: ConnId)
    | HostNavigating
    | StartRequest(conn: ConnId, fromHost: bool)
    | TankInput(sender: Option<nat>, input: Input)
    | RestartRequest
    | HostClosed(conn: ConnId)
    | PlayerClosed(conn: ConnId, letter: nat)
    | CountdownElapsed(timer: nat)
    | LoopElapsed(now: int, dir: Compass)
    | InactivityElapsed

  function Kept(t: Transition): Next {
    Next(Some(t.room), t.outs)
  }

  /** The room state machine: one event, one step. */
  function RoomStep(r: Room, ev: RoomEvent): (n: Next)
    ensures n.room.None? ==> ev.InactivityElapsed? && r.inactivityArmed && r.state != Playing
    ensures n.room.Some? ==> n.room.value.code == r.code && n.room.value.playerCount == r.playerCount
  {
    match ev
    case ClaimSlot(c) => Kept(Claim(r, c))
    case Attach(c, player) =>
      Kept(Transition(r.(playerConns := r.playerConns[player := c]),
                      [Out({c}, Attached(player))] + (if r.state == Playing then [Out({c}, GameInProgress)] else [])))
    case Observe(c) => Kept(Transition(r.(hostConn := Some(c), hostNavigating := false), []))
    case HostNavigating => Kept(Transition(r.(hostNavigating := true), []))
    case StartRequest(c, fromHost) => Kept(RequestStart(r, c, fromHost))
    case TankInput(letter, input) => Kept(Transition(Steer(r, letter, input), []))
    case RestartRequest => Kept(Restart(r))
    case HostClosed(c) => Kept(HostLeaves(r, c))
    case PlayerClosed(c, letter) => Kept(PlayerLeaves(r, c, letter))
    case CountdownElapsed(k) => Kept(CountdownTick(r, k))
    case LoopElapsed(now, dir) => Kept(GameTick(r, now, dir))
    case InactivityElapsed => Expire(r)
  }
}
