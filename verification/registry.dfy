/** The server's room registry and connection routing: which room and role every
    connection is bound to, and how each inbound message, disconnect and timer event
    reaches one room. */
module Registry {
  import opened Base
  import opened Entities
  import opened Rooms
  import opened RoomProps

  /** The role a connection announced: the host screen, a phone that has claimed a
      letter on the join page, or the controller attached to a letter. */
  datatype Role = HostRole | Claimant(slot: nat) | PlayerRole(letter: nat)

  datatype Binding = Binding(code: Code, role: Role)

  datatype Server = Server(rooms: map<Code, Room>, bindings: map<ConnId, Binding>)

  /** Inbound messages, already decoded. Unparseable text and unknown types are
      `Unrecognised`. */
  datatype InMsg =
    | CreateRoom(playerCount: Option<int>)
    | ObserveRoom(code: Code)
    | ClaimSlotIn(code: Code)
    | AttachTo(code: Code, player: nat)
    | NavigatingAway
    | StartGame
    | SteerTank(input: Input)
    | RestartGame
    | Unrecognised

  /** What can happen to the server. `newCode` is the room code the random generator
      would produce for a `create_room`. Timer events name the room they belong to. */
  datatype Event =
    | Receive(conn: ConnId, msg: InMsg, newCode: Code)
    | Disconnect(conn: ConnId)
    | CountdownFires(code: Code, timer: nat)
    | LoopFires(code: Code, now: int, dir: Compass)
    | InactivityFires(code: Code)

  datatype Reply = Reply(server: Server, outs: seq<Out>)

  /** Every registered room is stored under its own code and keeps the room invariant. */
  predicate ServerOk(s: Server) {
    forall c :: c in s.rooms ==> s.rooms[c].code == c && RoomOk(s.rooms[c])
  }

  /** The room an event is routed to, if it names or is bound to one. */
  function Target(s: Server, ev: Event): Option<Code> {
    match ev
    case Receive(conn, msg, newCode) =>
      (match msg
       case CreateRoom(_) => Some(newCode)
       case ObserveRoom(code) => Some(code)
       case ClaimSlotIn(code) => Some(code)
       case AttachTo(code, _) => Some(code)
       case Unrecognised => None
       case _ => if conn in s.bindings then Some(s.bindings[conn].code) else None)
    case Disconnect(conn) => if conn in s.bindings then Some(s.bindings[conn].code) else None
    case CountdownFires(code, _) => Some(code)
    case LoopFires(code, _, _) => Some(code)
    case InactivityFires(code) => Some(code)
  }

  /** Run a room event on the room under `code` and store the outcome: the next room,
      or nothing when the room is deleted. */
  function Deliver(s: Server, code: Code, ev: RoomEvent, bindings: map<ConnId, Binding>): (r: Reply)
    requires code in s.rooms
    ensures forall c :: c != code ==> (c in r.server.rooms <==> c in s.rooms)
    ensures forall c :: c != code && c in s.rooms ==> r.server.rooms[c] == s.rooms[c]
    ensures code !in r.server.rooms <==> RoomStep(s.rooms[code], ev).room.None?
    ensures code in r.server.rooms ==> Some(r.server.rooms[code]) == RoomStep(s.rooms[code], ev).room
    ensures r.server.bindings == bindings
  {
    var n := RoomStep(s.rooms[code], ev);
    match n.room
    case None => Reply(Server(s.rooms - {code}, bindings), n.outs)
    case Some(room) => Reply(Server(s.rooms[code := room], bindings), n.outs)
  }

  /** How an event is handled: by one room (with the connection bindings to keep), or
      entirely by the registry. */
  datatype Route =
    | Via(code: Code, ev: RoomEvent, bindings: map<ConnId, Binding>)
    | Direct(reply: Reply)

  /** The binding of a connection whose room still exists. */
  function BoundTo(s: Server, conn: ConnId): Option<Binding> {
    if conn in s.bindings && s.bindings[conn].code in s.rooms then Some(s.bindings[conn]) else None
  }

  /** Routing of a connection's message. `create_room` needs a code no room uses,
      which the code generator guarantees by retrying; `observe` for an unknown room is
      ignored while `claim_slot` and `attach` answer "Room not found"; the other
      messages go to the sender's own room and are ignored without one. */
  function RouteMessage(s: Server, conn: ConnId, msg: InMsg, newCode: Code): (rt: Route)
    ensures rt.Via? ==> rt.code in s.rooms
    ensures msg.Unrecognised? ==> rt == Direct(Reply(s, []))
    ensures msg.StartGame? ==>
      (rt.Direct? <==> BoundTo(s, conn).None?) && (rt.Direct? ==> rt.reply == Reply(s, []))
    ensures rt.Via? && msg.StartGame? ==>
      rt.ev.StartRequest? && (rt.ev.fromHost <==> s.bindings[conn].role == HostRole)
    ensures msg.SteerTank? ==>
      (rt.Direct? <==> BoundTo(s, conn).None?) && (rt.Direct? ==> rt.reply == Reply(s, []))
    ensures rt.Via? && msg.SteerTank? ==>
      && rt.ev.TankInput? && rt.ev.input == msg.input
      && (rt.ev.sender.Some? <==> s.bindings[conn].role.PlayerRole?)
      && (rt.ev.sender.Some? ==> rt.ev.sender.value == s.bindings[conn].role.letter)
  {
    match msg
    case CreateRoom(raw) =>
      var room := NewRoom(newCode, conn, EffectivePlayerCount(raw));
      Direct(Reply(Server(s.rooms[newCode := room], s.bindings[conn := Binding(newCode, HostRole)]),
                   [Out({conn}, RoomCreated(newCode, room.playerCount))]))
    case ObserveRoom(code) =>
      if code !in s.rooms then Direct(Reply(s, []))
      else Via(code, Observe(conn), s.bindings[conn := Binding(code, HostRole)])
    case ClaimSlotIn(code) =>
      if code !in s.rooms then Direct(Reply(s, [Out({conn}, Error(ROOM_NOT_FOUND))]))
      else
        var bindings := match ClaimedSlot(s.rooms[code])
                        case Some(l) => s.bindings[conn := Binding(code, Claimant(l))]
                        case None => s.bindings;
        Via(code, ClaimSlot(conn), bindings)
    case AttachTo(code, player) =>
      if code !in s.rooms then Direct(Reply(s, [Out({conn}, Error(ROOM_NOT_FOUND))]))
      else Via(code, Attach(conn, player), s.bindings[conn := Binding(code, PlayerRole(player))])
    case Unrecognised => Direct(Reply(s, []))
    case NavigatingAway => ToOwnRoom(s, conn, role => HostNavigating)
    case StartGame => ToOwnRoom(s, conn, role => StartRequest(conn, role == HostRole))
    case SteerTank(input) => ToOwnRoom(s, conn, role => TankInput(LetterOf(role), input))
    case RestartGame => ToOwnRoom(s, conn, role => RestartRequest)
  }

  /** The letter a connection steers: only an attached controller steers one. */
  function LetterOf(role: Role): Option<nat> {
    match role
    case PlayerRole(l) => Some(l)
    case _ => None
  }

  /** A message for the sender's own room, built from the sender's role; ignored when
      the sender is bound to no existing room. */
  function ToOwnRoom(s: Server, conn: ConnId, make: Role -> RoomEvent): Route {
    match BoundTo(s, conn)
    case None => Direct(Reply(s, []))
    case Some(b) => Via(b.code, make(b.role), s.bindings)
  }

  /** Routing of a closed connection: the host or the controller it was bound as
      leaves its room; a claimant's close changes nothing. */
  function RouteClose(s: Server, conn: ConnId): (rt: Route)
    ensures conn !in s.bindings ==> rt == Direct(Reply(s, []))
    ensures rt.Direct? ==> rt.reply.server.rooms == s.rooms && rt.reply.outs == []
    ensures rt.Direct? && conn in s.bindings ==> rt.reply.server.bindings == s.bindings - {conn}
    ensures rt.Via? ==>
      && conn in s.bindings && rt.code == s.bindings[conn].code && rt.code in s.rooms
      && rt.bindings == s.bindings - {conn}
      && !s.bindings[conn].role.Claimant?
    ensures rt.Via? && s.bindings[conn].role == HostRole ==> rt.ev == HostClosed(conn)
    ensures rt.Via? && s.bindings[conn].role.PlayerRole? ==> rt.ev == PlayerClosed(conn, s.bindings[conn].role.letter)
    ensures conn in s.bindings && s.bindings[conn].code in s.rooms && !s.bindings[conn].role.Claimant? ==> rt.Via?
  {
    if conn !in s.bindings then Direct(Reply(s, []))
    else
      var b := s.bindings[conn];
      var bindings := s.bindings - {conn};
      if b.code !in s.rooms then Direct(Reply(Server(s.rooms, bindings), []))
      else
        match b.role
        case HostRole => Via(b.code, HostClosed(conn), bindings)
        case PlayerRole(l) => Via(b.code, PlayerClosed(conn, l), bindings)
        case Claimant(_) => Direct(Reply(Server(s.rooms, bindings), []))
  }

  /** Routing of any event. A timer of a room that no longer exists does nothing. */
  function RouteOf(s: Server, ev: Event): (rt: Route)
    ensures rt.Via? ==> rt.code in s.rooms && Some(rt.code) == Target(s, ev)
    ensures rt.Via? && rt.ev.InactivityElapsed? ==> ev == InactivityFires(rt.code)
    ensures rt.Direct? ==>
      (rt.reply.server.rooms == s.rooms || (ev.Receive? && ev.msg.CreateRoom? && rt.reply.server.rooms ==
            s.rooms[ev.newCode := NewRoom(ev.newCode, ev.conn, EffectivePlayerCount(ev.msg.playerCount))]))
  {
    match ev
    case Receive(conn, msg, newCode) => RouteMessage(s, conn, msg, newCode)
    case Disconnect(conn) => RouteClose(s, conn)
    case CountdownFires(code, k) =>
      if code in s.rooms then Via(code, CountdownElapsed(k), s.bindings) else Direct(Reply(s, []))
    case LoopFires(code, now, dir) =>
      if code in s.rooms then Via(code, LoopElapsed(now, dir), s.bindings) else Direct(Reply(s, []))
    case InactivityFires(code) =>
      if code in s.rooms then Via(code, InactivityElapsed, s.bindings) else Direct(Reply(s, []))
  }

  /** One event on the server. Rooms other than the event's target are untouched; a
      room appears only through `create_room` (under a code no room used) and
      disappears only when its armed inactivity timeout fires while it is not playing;
      `claim_slot` and `attach` naming no room answer "Room not found". */
  function Step(s: Server, ev: Event): (r: Reply)
    requires ev.Receive? && ev.msg.CreateRoom? ==> ev.newCode !in s.rooms
    ensures forall c :: Some(c) != Target(s, ev) ==>
      (c in r.server.rooms <==> c in s.rooms) && (c in s.rooms ==> r.server.rooms[c] == s.rooms[c])
    ensures forall c :: c !in s.rooms && c in r.server.rooms ==>
      ev.Receive? && ev.msg.CreateRoom? && c == ev.newCode
    ensures forall c :: c in s.rooms && c !in r.server.rooms ==>
      ev == InactivityFires(c) && s.rooms[c].inactivityArmed && s.rooms[c].state != Playing
    ensures ev.Receive? && (ev.msg.ClaimSlotIn? || ev.msg.AttachTo?) && ev.msg.code !in s.rooms ==>
      r == Reply(s, [Out({ev.conn}, Error(ROOM_NOT_FOUND))])
    ensures ev.Receive? && ev.msg.StartGame? && !(BoundTo(s, ev.conn).Some? && BoundTo(s, ev.conn).value.role == HostRole) ==>
      r == Reply(s, [])
    ensures ev.Receive? && ev.msg.SteerTank? && !(BoundTo(s, ev.conn).Some? && BoundTo(s, ev.conn).value.role.PlayerRole?) ==>
      r == Reply(s, [])
  {
    match RouteOf(s, ev)
    case Via(code, re, bindings) => Deliver(s, code, re, bindings)
    case Direct(reply) => reply
  }

  /** Every event keeps the registry invariant. */
  lemma StepKeepsServerOk(s: Server, ev: Event)
    requires ServerOk(s)
    requires ev.Receive? && ev.msg.CreateRoom? ==> ev.newCode !in s.rooms
    ensures ServerOk(Step(s, ev).server)
  {
    match RouteOf(s, ev)
    case Via(code, re, bindings) =>
      RoomStepKeepsRoomOk(s.rooms[code], re);
    case Direct(reply) =>
      if reply.server.rooms != s.rooms {
        NewRoomOk(ev.newCode, ev.conn, EffectivePlayerCount(ev.msg.playerCount));
      }
  }
}
