/** The whole chat system: any number of rooms on one `io_context`, any number
    of clients, and peers that are not our client and send arbitrary bytes. Each
    handler completion, each partial transfer and each error is one step, in any
    order. Connections are in-order byte streams (section 2.2 of RFC 9293). */
module ChatWorld {
  import opened Codec
  import opened Framing
  import opened Endpoint
  import opened RoomSpec
  import ClientSpec

  type ConnId = nat
  type RoomId = nat

  datatype Peer = Honest(client: ClientSpec.Client) | Foreign

  /** One connection: all bytes sent each way so far and how many of them have
      been taken by the other side. */
  datatype Conn = Conn(room: RoomId, peer: Peer, up: seq<Byte>, upTaken: nat, down: seq<Byte>, downTaken: nat)

  datatype World = World(rooms: map<RoomId, Room<ConnId>>, conns: map<ConnId, Conn>)

  datatype ClientAction =
    | TypeLine(line: seq<Byte>)
    | EndInput
    | RunPosted
    | Connect(ok: bool)
    | ClientReceives(count: nat)
    | ClientRead(ok: bool)
    | ClientTransmits(i: nat, count: nat)
    | ClientWrite(i: nat, ok: bool)

  datatype ServerAction =
    | Accept(junk: Message)
    | ServerReceives(count: nat)
    | ServerRead(ok: bool)
    | ServerTransmits(i: nat, count: nat)
    | ServerWrite(i: nat, ok: bool)

  datatype Step =
    | Open(c: ConnId, room: RoomId, honest: bool, junk: Message)
    | ForeignSends(c: ConnId, bytes: seq<Byte>)
    | AtClient(c: ConnId, clientAction: ClientAction)
    | AtServer(c: ConnId, serverAction: ServerAction)

  // ---------------------------------------------------------------- steps

  /** A step of the client program; an action that is not possible changes nothing. */
  function ClientStep(conn: Conn, a: ClientAction): Conn
    requires conn.peer.Honest?
  {
    var cl := conn.peer.client;
    match a
    case TypeLine(line) =>
      if !cl.ended && |line| <= MAX_BODY_LENGTH
      then conn.(peer := Honest(ClientSpec.TypeLine(cl, line))) else conn
    case EndInput =>
      if !cl.ended then conn.(peer := Honest(ClientSpec.EndInput(cl))) else conn
    case RunPosted =>
      if cl.posted != [] then conn.(peer := Honest(ClientSpec.RunPosted(cl))) else conn
    case Connect(ok) =>
      if cl.link == ClientSpec.Connecting then conn.(peer := Honest(ClientSpec.OnConnect(cl, ok))) else conn
    case ClientReceives(n) =>
      if !cl.closed && conn.downTaken + n <= |conn.down|
         && CanReceive(cl.reader, conn.down[conn.downTaken..conn.downTaken + n])
      then conn.(downTaken := conn.downTaken + n,
                 peer := Honest(cl.(reader := Receive(cl.reader, conn.down[conn.downTaken..conn.downTaken + n]))))
      else conn
    case ClientRead(ok) =>
      if cl.reader.phase != Stopped && (ok ==> CanComplete(cl.reader))
      then conn.(peer := Honest(ClientSpec.OnRead(cl, ok))) else conn
    case ClientTransmits(i, n) =>
      if !cl.closed && CanTransmit(cl.writer, i, n)
      then conn.(up := conn.up + Outgoing(cl.writer, i, n),
                 peer := Honest(cl.(writer := Transmit(cl.writer, i, n))))
      else conn
    case ClientWrite(i, ok) =>
      if i < |cl.writer.ops| && (ok ==> CanFinish(cl.writer, i) && cl.writer.queue != [])
      then conn.(peer := Honest(ClientSpec.OnWrite(cl, i, ok))) else conn
  }

  /** A step of the server program on connection `c`. */
  function ServerStep(room: Room<ConnId>, conn: Conn, c: ConnId, a: ServerAction): (Room<ConnId>, Conn) {
    if a.Accept? then
      if c !in room.sessions && IsMessage(a.junk) then (Start(room, c, a.junk), conn) else (room, conn)
    else if c !in room.sessions then (room, conn)
    else
      var se := room.sessions[c];
      match a
      case ServerReceives(n) =>
        if conn.upTaken + n <= |conn.up| && CanReceive(se.reader, conn.up[conn.upTaken..conn.upTaken + n])
        then (Update(room, c, se.(reader := Receive(se.reader, conn.up[conn.upTaken..conn.upTaken + n]))),
              conn.(upTaken := conn.upTaken + n))
        else (room, conn)
      case ServerRead(ok) =>
        if se.reader.phase != Stopped && IsMessage(se.reader.msg) && (ok ==> CanComplete(se.reader))
        then (if se.reader.phase == Header then OnHeader(room, c, ok) else OnBody(room, c, ok), conn)
        else (room, conn)
      case ServerTransmits(i, n) =>
        if CanTransmit(se.writer, i, n)
        then (Update(room, c, se.(writer := Transmit(se.writer, i, n))),
              conn.(down := conn.down + Outgoing(se.writer, i, n)))
        else (room, conn)
      case ServerWrite(i, ok) =>
        if i < |se.writer.ops| && (ok ==> CanFinish(se.writer, i) && se.writer.queue != [])
        then (OnWrite(room, c, i, ok), conn) else (room, conn)
  }

  function Next(w: World, step: Step): World {
    match step
    case Open(c, room, honest, junk) =>
      if c in w.conns || room !in w.rooms || c in w.rooms[room].sessions || !IsMessage(junk) then w else
      var peer := if honest then Honest(ClientSpec.NewClient(junk)) else Foreign;
      w.(conns := w.conns[c := Conn(room, peer, [], 0, [], 0)])
    case ForeignSends(c, bytes) =>
      if c in w.conns && w.conns[c].peer.Foreign?
      then w.(conns := w.conns[c := w.conns[c].(up := w.conns[c].up + bytes)]) else w
    case AtClient(c, a) =>
      if c in w.conns && w.conns[c].peer.Honest?
      then w.(conns := w.conns[c := ClientStep(w.conns[c], a)]) else w
    case AtServer(c, a) =>
      if c in w.conns && w.conns[c].room in w.rooms then
        var id := w.conns[c].room;
        var (room, conn) := ServerStep(w.rooms[id], w.conns[c], c, a);
        World(w.rooms[id := room], w.conns[c := conn])
      else w
  }

  function Initial(rooms: set<RoomId>): World {
    World(map r | r in rooms :: Room([], [], {}, map[]), map[])
  }

  /** The state after a run: any sequence of steps. */
  function Run(rooms: set<RoomId>, steps: seq<Step>): World {
    if steps == [] then Initial(rooms)
    else Next(Run(rooms, steps[..|steps| - 1]), steps[|steps| - 1])
  }

  /** The state after further steps from `w`. */
  function RunFrom(w: World, steps: seq<Step>): World
    decreases |steps|
  {
    if steps == [] then w else RunFrom(Next(w, steps[0]), steps[1..])
  }

  lemma {:induction false} RunThen(rooms: set<RoomId>, steps: seq<Step>, more: seq<Step>)
    ensures Run(rooms, steps + more) == RunFrom(Run(rooms, steps), more)
    decreases |more|
  {
    if more == [] {
      assert steps + more == steps;
    } else {
      RunThen(rooms, steps + [more[0]], more[1..]);
      assert (steps + [more[0]]) + more[1..] == steps + more;
      assert (steps + [more[0]])[..|steps|] == steps;
    }
  }

  // ---------------------------------------------------------------- invariant

  ghost predicate ClientSide(conn: Conn) {
    && conn.downTaken <= |conn.down|
    && conn.upTaken <= |conn.up|
    && (conn.peer.Honest? ==> ClientSpec.ClientInv(conn.peer.client, conn.up, conn.down[..conn.downTaken]))
  }

  ghost predicate ServerSide(conn: Conn, room: Room<ConnId>, c: ConnId)
    requires conn.upTaken <= |conn.up|
  {
    if c in room.sessions
    then SessionInv(room.sessions[c], c, room.log, c in room.members, conn.up[..conn.upTaken], conn.down)
    else conn.upTaken == 0 && conn.down == [] && By(room.log, c) == []
  }

  ghost predicate ConnInv(conn: Conn, room: Room<ConnId>, c: ConnId) {
    ClientSide(conn) && ServerSide(conn, room, c)
  }

  ghost predicate Inv(w: World) {
    && (forall r :: r in w.rooms ==> RoomInv(w.rooms[r]))
    && (forall c :: c in w.conns ==> w.conns[c].room in w.rooms && ConnInv(w.conns[c], w.rooms[w.conns[c].room], c))
    && (forall r, c :: r in w.rooms && c in w.rooms[r].sessions ==> c in w.conns && w.conns[c].room == r)
    && (forall r, e :: r in w.rooms && e in w.rooms[r].log ==> e.author in w.rooms[r].sessions)
  }

  lemma ClientStepKeeps(conn: Conn, a: ClientAction)
    requires conn.peer.Honest? && ClientSide(conn)
    ensures var after := ClientStep(conn, a);
            && ClientSide(after) && after.peer.Honest?
            && conn.up <= after.up
            && after.(peer := conn.peer, up := conn.up, downTaken := conn.downTaken) == conn
  {
    hide ClientSpec.ClientInv, Receive, Transmit, ClientSpec.OnRead, ClientSpec.OnWrite, ClientSpec.TypeLine;
    var cl, received := conn.peer.client, conn.down[..conn.downTaken];
    match a
    case TypeLine(line) =>
      if !cl.ended && |line| <= MAX_BODY_LENGTH { ClientSpec.TypeLineKeeps(cl, conn.up, received, line); }
    case EndInput => if !cl.ended { ClientSpec.EndInputKeeps(cl, conn.up, received); }
    case RunPosted => if cl.posted != [] { ClientSpec.RunPostedKeeps(cl, conn.up, received); }
    case Connect(ok) => if cl.link == ClientSpec.Connecting { ClientSpec.OnConnectKeeps(cl, conn.up, received, ok); }
    case ClientReceives(n) => ClientReceivesKeeps(conn, n);
    case ClientRead(ok) =>
      if cl.reader.phase != Stopped && (ok ==> CanComplete(cl.reader)) {
        ClientSpec.OnReadKeeps(cl, conn.up, received, ok);
      }
    case ClientTransmits(i, n) => ClientTransmitsKeeps(conn, i, n);
    case ClientWrite(i, ok) =>
      if i < |cl.writer.ops| && (ok ==> CanFinish(cl.writer, i) && cl.writer.queue != []) {
        ClientSpec.OnWriteKeeps(cl, conn.up, received, i, ok);
      }
  }

  lemma ClientReceivesKeeps(conn: Conn, n: nat)
    requires conn.peer.Honest? && ClientSide(conn)
    ensures ClientSide(ClientStep(conn, ClientReceives(n)))
  {
    hide ReaderInv, WriterInv, Overwrite;
    if ClientStep(conn, ClientReceives(n)) != conn {
      TakeKeeps(conn.peer.client.reader, conn.downTaken, conn.down, n);
    }
  }

  lemma ClientTransmitsKeeps(conn: Conn, i: nat, n: nat)
    requires conn.peer.Honest? && ClientSide(conn)
    ensures ClientSide(ClientStep(conn, ClientTransmits(i, n)))
  {
    if CanTransmit(conn.peer.client.writer, i, n) {
      TransmitKeeps(conn.peer.client.writer, conn.up, i, n);
    }
  }

  /** What a server step leaves alone: the connection except for the bytes it
      moves, and everyone else's session except for a delivery. */
  lemma ServerStepConn(room: Room<ConnId>, conn: Conn, c: ConnId, a: ServerAction)
    requires ClientSide(conn)
    ensures var after := ServerStep(room, conn, c, a).1;
            && ClientSide(after)
            && conn.down <= after.down
            && after.(upTaken := conn.upTaken, down := conn.down) == conn
  {
    var after := ServerStep(room, conn, c, a).1;
    assert after.down[..conn.downTaken] == conn.down[..conn.downTaken];
  }

  lemma ServerStepOwn(room: Room<ConnId>, conn: Conn, c: ConnId, a: ServerAction)
    requires RoomInv(room) && ConnInv(conn, room, c)
    ensures var (room', conn') := ServerStep(room, conn, c, a);
            && RoomInv(room')
            && conn'.upTaken <= |conn'.up|
            && ServerSide(conn', room', c)
  {
    hide RoomInv, ClientSpec.ClientInv, SessionInv, Decode;
    hide Receive, Transmit, Written, WriteError, OnHeader, OnBody, OnWrite;
    if a.Accept? {
      AcceptKeeps(room, conn, c, a.junk);
    } else if c in room.sessions {
      match a
      case ServerReceives(n) => ServerReceivesKeeps(room, conn, c, n);
      case ServerRead(ok) => ServerReadKeeps(room, conn, c, ok);
      case ServerTransmits(i, n) => ServerTransmitsKeeps(room, conn, c, i, n);
      case ServerWrite(i, ok) => ServerWriteKeeps(room, conn, c, i, ok);
    }
  }

  lemma AcceptKeeps(room: Room<ConnId>, conn: Conn, c: ConnId, junk: Message)
    requires RoomInv(room) && ConnInv(conn, room, c)
    ensures var room' := ServerStep(room, conn, c, Accept(junk)).0;
            RoomInv(room') && ServerSide(conn, room', c)
  {
    hide SessionInv, RoomInv, IsMessage, ClientSide;
    if c !in room.sessions && IsMessage(junk) {
      StartKeeps(room, c, junk);
      assert conn.up[..0] == [];
    }
  }

  lemma ServerReceivesKeeps(room: Room<ConnId>, conn: Conn, c: ConnId, n: nat)
    requires RoomInv(room) && ConnInv(conn, room, c) && c in room.sessions
    ensures var (room', conn') := ServerStep(room, conn, c, ServerReceives(n));
            RoomInv(room') && conn'.upTaken <= |conn'.up| && ServerSide(conn', room', c)
  {
    hide ClientSpec.ClientInv, WriterInv, ReaderInv, Overwrite;
    var se := room.sessions[c];
    if conn.upTaken + n <= |conn.up| && CanReceive(se.reader, conn.up[conn.upTaken..conn.upTaken + n]) {
      TakeKeeps(se.reader, conn.upTaken, conn.up, n);
    }
  }

  lemma ServerReadKeeps(room: Room<ConnId>, conn: Conn, c: ConnId, ok: bool)
    requires RoomInv(room) && ConnInv(conn, room, c) && c in room.sessions
    ensures var (room', conn') := ServerStep(room, conn, c, ServerRead(ok));
            conn' == conn && RoomInv(room') && ServerSide(conn, room', c)
  {
    hide ClientSpec.ClientInv, WriterInv, RoomInv;
    var r, consumed := room.sessions[c].reader, conn.up[..conn.upTaken];
    if r.phase == Header && (ok ==> CanComplete(r)) {
      OnHeaderKeeps(room, c, ok, consumed, conn.down);
    } else if r.phase == Body && (ok ==> CanComplete(r)) {
      OnBodyKeeps(room, c, ok, consumed, conn.down);
    }
  }

  lemma ServerTransmitsKeeps(room: Room<ConnId>, conn: Conn, c: ConnId, i: nat, n: nat)
    requires RoomInv(room) && ConnInv(conn, room, c) && c in room.sessions
    ensures var (room', conn') := ServerStep(room, conn, c, ServerTransmits(i, n));
            RoomInv(room') && ServerSide(conn', room', c)
  {
    hide ClientSpec.ClientInv, ReaderInv;
    if CanTransmit(room.sessions[c].writer, i, n) {
      TransmitKeeps(room.sessions[c].writer, conn.down, i, n);
    }
  }

  lemma ServerWriteKeeps(room: Room<ConnId>, conn: Conn, c: ConnId, i: nat, ok: bool)
    requires RoomInv(room) && ConnInv(conn, room, c) && c in room.sessions
    ensures var (room', conn') := ServerStep(room, conn, c, ServerWrite(i, ok));
            conn' == conn && RoomInv(room') && ServerSide(conn, room', c)
  {
    hide ClientSpec.ClientInv, RoomInv, SessionInv, Written;
    var w := room.sessions[c].writer;
    if i < |w.ops| && (ok ==> CanFinish(w, i)) {
      OnWriteKeeps(room, c, i, ok, conn.up[..conn.upTaken], conn.down);
    }
  }

  /** Whether the step publishes a message. */
  ghost predicate Publishes(room: Room<ConnId>, c: ConnId, a: ServerAction) {
    c in room.sessions && a == ServerRead(true)
    && CanComplete(room.sessions[c].reader) && room.sessions[c].reader.phase == Body
  }

  /** A server step on `c` delivers a message of `c` to everyone, or leaves
      every other session and the log alone. */
  lemma ServerStepOthers(room: Room<ConnId>, conn: Conn, c: ConnId, a: ServerAction)
    ensures var room' := ServerStep(room, conn, c, a).0;
            && room'.sessions.Keys == room.sessions.Keys + (if a.Accept? && IsMessage(a.junk) then {c} else {})
            && (forall j :: j != c ==> (j in room'.members <==> j in room.members))
            && (Publishes(room, c, a) ==>
                  var f := FrameOf(room.sessions[c].reader.msg);
                  && room'.log == room.log + [Entry(c, f)]
                  && forall j :: j in room.sessions && j != c ==>
                       room'.sessions[j] == Publish(room, c, f).sessions[j])
            && (!Publishes(room, c, a) ==>
                  && room'.log == room.log
                  && forall j :: j in room.sessions && j != c ==> room'.sessions[j] == room.sessions[j])
  {
    hide Decode, PushAll, DeliverAll, Written, WriteError, Receive, Transmit;
  }

  lemma OtherConnKeeps(room: Room<ConnId>, conn: Conn, c: ConnId, a: ServerAction, other: Conn, j: ConnId)
    requires RoomInv(room) && ConnInv(conn, room, c) && j != c && ConnInv(other, room, j)
    ensures ConnInv(other, ServerStep(room, conn, c, a).0, j)
  {
    hide ServerStep, Publish, ClientSpec.ClientInv, SessionInv, RoomInv;
    ServerStepOthers(room, conn, c, a);
    if Publishes(room, c, a) {
      var f := FrameOf(room.sessions[c].reader.msg);
      PublishedWellFormed(room, conn, c, a);
      if j in room.sessions {
        OthersKeep(room, c, j, f, other.up[..other.upTaken], other.down);
      } else {
        BySnoc(room.log, Entry(c, f), j);
      }
    }
  }

  lemma PublishedWellFormed(room: Room<ConnId>, conn: Conn, c: ConnId, a: ServerAction)
    requires ConnInv(conn, room, c) && Publishes(room, c, a)
    ensures WellFormed(FrameOf(room.sessions[c].reader.msg))
  {
    BodyReadKeeps(room.sessions[c].reader, conn.up[..conn.upTaken]);
  }

  lemma AtServerKeeps(w: World, c: ConnId, a: ServerAction)
    requires Inv(w)
    ensures Inv(Next(w, AtServer(c, a)))
  {
    hide ServerSide, RoomInv, ClientSide, ServerStep;
    if c in w.conns {
      var id := w.conns[c].room;
      var room, conn := w.rooms[id], w.conns[c];
      ServerStepConn(room, conn, c, a);
      ServerStepOwn(room, conn, c, a);
      ServerStepOthers(room, conn, c, a);
      forall j | j in w.conns && j != c && w.conns[j].room == id
        ensures ConnInv(w.conns[j], ServerStep(room, conn, c, a).0, j)
      {
        OtherConnKeeps(room, conn, c, a, w.conns[j], j);
      }
    }
  }

  lemma AtClientKeeps(w: World, c: ConnId, a: ClientAction)
    requires Inv(w)
    ensures Inv(Next(w, AtClient(c, a)))
  {
    hide ClientStep, RoomInv, ClientSpec.ClientInv, SessionInv;
    if c in w.conns && w.conns[c].peer.Honest? {
      ClientStepKeeps(w.conns[c], a);
      var conn, after := w.conns[c], ClientStep(w.conns[c], a);
      assert after.up[..conn.upTaken] == conn.up[..conn.upTaken];
    }
  }

  lemma OpenKeeps(w: World, c: ConnId, room: RoomId, honest: bool, junk: Message)
    requires Inv(w)
    ensures Inv(Next(w, Open(c, room, honest, junk)))
  {
    hide RoomInv, ClientSpec.ClientInv, SessionInv, IsMessage;
    if IsMessage(junk) {
      ClientSpec.NewClientInv(junk);
      if room in w.rooms && c !in w.rooms[room].sessions {
        NoEntries(w.rooms[room].log, c, w.rooms[room].sessions.Keys);
      }
    }
  }

  lemma {:induction false} NoEntries(log: seq<Entry<ConnId>>, c: ConnId, authors: set<ConnId>)
    requires c !in authors && forall e :: e in log ==> e.author in authors
    ensures By(log, c) == []
  {
    if log != [] {
      assert log[|log| - 1] in log;
      NoEntries(log[..|log| - 1], c, authors);
    }
  }

  lemma ForeignKeeps(w: World, c: ConnId, bytes: seq<Byte>)
    requires Inv(w)
    ensures Inv(Next(w, ForeignSends(c, bytes)))
  {
    hide RoomInv, ClientSpec.ClientInv, SessionInv;
    if c in w.conns {
      var conn := w.conns[c];
      assert (conn.up + bytes)[..conn.upTaken] == conn.up[..conn.upTaken];
    }
  }

  /** Every reachable state satisfies the invariant. */
  lemma {:induction false} RunInv(rooms: set<RoomId>, steps: seq<Step>)
    ensures Inv(Run(rooms, steps))
  {
    if steps != [] {
      var w := Run(rooms, steps[..|steps| - 1]);
      RunInv(rooms, steps[..|steps| - 1]);
      match steps[|steps| - 1]
      case Open(c, room, honest, junk) => OpenKeeps(w, c, room, honest, junk);
      case ForeignSends(c, bytes) => ForeignKeeps(w, c, bytes);
      case AtClient(c, a) => AtClientKeeps(w, c, a);
      case AtServer(c, a) => AtServerKeeps(w, c, a);
    }
  }
}
