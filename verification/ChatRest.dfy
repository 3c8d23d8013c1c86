/** The way to rest: from every reachable state of a connection on which nothing
    has failed and nothing was closed, steps of that connection alone deliver all
    that was typed on it and print all that its room has logged. */
module ChatRest {
  import opened Codec
  import opened Framing
  import opened Endpoint
  import opened RoomSpec
  import opened ChatWorld
  import opened ChatProperties
  import ClientSpec

  /** Nothing of connection `c` has failed, and its client's socket is open. */
  ghost predicate Unfailed(w: World, c: ConnId) {
    && IsClient(w, c)
    && !ClientOf(w, c).closed && ClientOf(w, c).link != ClientSpec.NoConnection
    && (HasSession(w, c) ==> SessionOf(w, c).reader.phase != Stopped && SessionOf(w, c).writer.broken == [])
  }

  /** The step is one of `c`, succeeds, and types nothing. */
  predicate Succeeds(c: ConnId, step: Step) {
    match step
    case Open(_, _, _, _) => false
    case ForeignSends(_, _) => false
    case AtClient(j, a) =>
      j == c &&
      (match a
       case TypeLine(_) => false
       case EndInput => false
       case Connect(ok) => ok
       case ClientRead(ok) => ok
       case ClientWrite(_, ok) => ok
       case _ => true)
    case AtServer(j, a) =>
      j == c &&
      (match a
       case ServerRead(ok) => ok
       case ServerWrite(_, ok) => ok
       case _ => true)
  }

  ghost predicate AllSucceed(c: ConnId, steps: seq<Step>) {
    forall i :: 0 <= i < |steps| ==> Succeeds(c, steps[i])
  }

  /** Nothing is under way on connection `c`, in either direction. */
  ghost predicate AtRest(w: World, c: ConnId) {
    && IsClient(w, c) && HasSession(w, c)
    && ClientOf(w, c).posted == [] && Current(ClientOf(w, c).writer) == []
    && w.conns[c].upTaken == |w.conns[c].up|
    && SessionOf(w, c).reader.phase != Stopped && !CanComplete(SessionOf(w, c).reader)
    && Current(SessionOf(w, c).writer) == []
    && w.conns[c].downTaken == |w.conns[c].down|
    && ClientOf(w, c).reader.phase != Stopped && !CanComplete(ClientOf(w, c).reader)
  }

  // ---------------------------------------------------------------- work left

  function Left(total: nat, taken: nat): nat {
    if taken < total then total - taken else 0
  }

  /** Work left in a read loop that has `left` more bytes to take. */
  function ReadWork(r: Reader, left: nat): nat {
    3 * left + if !CanComplete(r) then 0 else if r.phase == Header then 2 else 1
  }

  function WriteWork(w: Writer): nat {
    2 * |w.queue| + if w.ops != [] && w.ops[0].done < |w.ops[0].buffer| then 1 else 0
  }

  /** The work left on a connection, in the order in which it is taken up: each
      part makes more work only for those behind it. */
  datatype Work = Work(posted: nat, up: nat, logging: nat, down: nat, printing: nat)

  function WorkOf(conn: Conn, se: Session): Work
    requires conn.peer.Honest?
  {
    var cl := conn.peer.client;
    Work(|cl.posted|, WriteWork(cl.writer), ReadWork(se.reader, Left(|conn.up|, conn.upTaken)),
         WriteWork(se.writer), ReadWork(cl.reader, Left(|conn.down|, conn.downTaken)))
  }

  predicate Less(a: Work, b: Work) {
    || a.posted < b.posted
    || (a.posted == b.posted &&
        (|| a.up < b.up
         || (a.up == b.up &&
             (|| a.logging < b.logging
              || (a.logging == b.logging &&
                  (a.down < b.down || (a.down == b.down && a.printing < b.printing)))))))
  }

  datatype Move = AClient(clientAction: ClientAction) | AServer(serverAction: ServerAction) | Nothing

  function Piece(r: Reader, left: nat): nat {
    if r.got <= Want(r) && Want(r) - r.got < left then Want(r) - r.got else left
  }

  /** The next successful step of the connection. */
  function NextMove(conn: Conn, se: Session): Move
    requires conn.peer.Honest?
  {
    var cl := conn.peer.client;
    if cl.posted != [] && cl.posted[0].PostWrite? then AClient(RunPosted)
    else if cl.writer.ops != [] then
      var op := cl.writer.ops[0];
      AClient(if op.done < |op.buffer| then ClientTransmits(0, |op.buffer| - op.done) else ClientWrite(0, true))
    else if CanComplete(se.reader) then AServer(ServerRead(true))
    else if conn.upTaken < |conn.up| then AServer(ServerReceives(Piece(se.reader, |conn.up| - conn.upTaken)))
    else if se.writer.ops != [] then
      var op := se.writer.ops[0];
      AServer(if op.done < |op.buffer| then ServerTransmits(0, |op.buffer| - op.done) else ServerWrite(0, true))
    else if CanComplete(cl.reader) then AClient(ClientRead(true))
    else if conn.downTaken < |conn.down| then
      AClient(ClientReceives(Piece(cl.reader, |conn.down| - conn.downTaken)))
    else Nothing
  }

  // ---------------------------------------------------------------- progress of a reader and of a writer

  lemma ReceiveProgress(r: Reader, consumed: seq<Byte>, stream: seq<Byte>, taken: nat)
    requires ReaderInv(r, consumed) && r.phase != Stopped && !CanComplete(r) && taken < |stream|
    ensures var n := Piece(r, |stream| - taken);
            && 0 < n <= |stream| - taken && CanReceive(r, stream[taken..taken + n])
            && var r' := Receive(r, stream[taken..taken + n]);
               r'.phase == r.phase && ReadWork(r', Left(|stream|, taken + n)) < ReadWork(r, Left(|stream|, taken))
  {
    hide Overwrite, Decode;
  }

  lemma CompleteProgress(r: Reader, left: nat)
    requires CanComplete(r) && HeaderIsGood(r)
    ensures Completed(r).phase != Stopped && ReadWork(Completed(r), left) < ReadWork(r, left)
  {
    hide Decode;
  }

  lemma TransmitProgress(w: Writer)
    requires w.ops != [] && w.ops[0].done < |w.ops[0].buffer|
    ensures var n := |w.ops[0].buffer| - w.ops[0].done;
            CanTransmit(w, 0, n) && WriteWork(Transmit(w, 0, n)) < WriteWork(w)
            && Transmit(w, 0, n).broken == w.broken
  {
  }

  lemma FinishProgress(w: Writer, stream: seq<Byte>)
    requires WriterInv(w, stream) && w.ops != [] && w.ops[0].done >= |w.ops[0].buffer|
    ensures w.queue != [] && CanFinish(w, 0)
    ensures WriteWork(Written(w, 0)) < WriteWork(w) && Written(w, 0).broken == w.broken
  {
    hide WellFormed, Concat;
    assert Current(w) == [w.ops[0]];
    WrittenValue(w, stream, 0);
  }

  // ---------------------------------------------------------------- progress of the two programs

  ghost predicate Runs(cl: ClientSpec.Client) {
    cl.link == ClientSpec.Connected && !cl.closed && cl.reader.phase != Stopped && cl.writer.broken == []
  }

  ghost predicate SessionRuns(se: Session) {
    se.reader.phase != Stopped && se.writer.broken == []
  }

  lemma ClientMoves(conn: Conn, se: Session, a: ClientAction)
    requires conn.peer.Honest? && ClientSide(conn) && Runs(conn.peer.client)
    requires HeaderIsGood(conn.peer.client.reader) && NextMove(conn, se) == AClient(a)
    ensures var conn' := ClientStep(conn, a);
            && conn'.peer.Honest? && Runs(conn'.peer.client)
            && conn'.peer.client.typed == conn.peer.client.typed
            && Less(WorkOf(conn', se), WorkOf(conn, se))
  {
    hide ReaderInv, WriterInv, Receive, Transmit, Written, HeaderRead, BodyRead, HeaderIsGood;
    var cl := conn.peer.client;
    if cl.posted != [] && cl.posted[0].PostWrite? {
    } else if cl.writer.ops != [] {
      if cl.writer.ops[0].done < |cl.writer.ops[0].buffer| {
        TransmitProgress(cl.writer);
      } else {
        FinishProgress(cl.writer, conn.up);
      }
    } else if CanComplete(cl.reader) {
      CompleteProgress(cl.reader, Left(|conn.down|, conn.downTaken));
    } else {
      ReceiveProgress(cl.reader, conn.down[..conn.downTaken], conn.down, conn.downTaken);
    }
  }

  lemma ServerMoves(room: Room<ConnId>, conn: Conn, c: ConnId, a: ServerAction)
    requires c in room.sessions && ConnInv(conn, room, c) && SessionRuns(room.sessions[c])
    requires conn.peer.Honest? && HeaderIsGood(room.sessions[c].reader)
    requires NextMove(conn, room.sessions[c]) == AServer(a)
    ensures var (room', conn') := ServerStep(room, conn, c, a);
            && c in room'.sessions && SessionRuns(room'.sessions[c])
            && conn'.peer == conn.peer && conn'.room == conn.room
            && Less(WorkOf(conn', room'.sessions[c]), WorkOf(conn, room.sessions[c]))
  {
    hide ReaderInv, WriterInv, Receive, Transmit, Written, HeaderRead, BodyRead, HeaderIsGood, By, Frames;
    var se := room.sessions[c];
    if CanComplete(se.reader) {
      CompleteProgress(se.reader, Left(|conn.up|, conn.upTaken));
    } else if conn.upTaken < |conn.up| {
      ReceiveProgress(se.reader, conn.up[..conn.upTaken], conn.up, conn.upTaken);
    } else if se.writer.ops[0].done < |se.writer.ops[0].buffer| {
      TransmitProgress(se.writer);
    } else {
      FinishProgress(se.writer, conn.down);
    }
  }

  // ---------------------------------------------------------------- the whole connection

  /** The connection is up at both ends and nothing of it has failed. */
  ghost predicate Ready(w: World, c: ConnId) {
    IsClient(w, c) && HasSession(w, c) && Runs(ClientOf(w, c)) && SessionRuns(SessionOf(w, c))
  }

  ghost function MoveOf(w: World, c: ConnId): Move
    requires Ready(w, c)
  {
    NextMove(w.conns[c], SessionOf(w, c))
  }

  ghost function WorkLeft(w: World, c: ConnId): Work
    requires Ready(w, c)
  {
    WorkOf(w.conns[c], SessionOf(w, c))
  }

  function StepOf(c: ConnId, m: Move): Step
    requires m != Nothing
  {
    match m
    case AClient(a) => AtClient(c, a)
    case AServer(a) => AtServer(c, a)
  }

  lemma ClientNext(w: World, c: ConnId, a: ClientAction)
    requires Inv(w) && IsClient(w, c)
    ensures var w' := Next(w, AtClient(c, a));
            && Inv(w') && IsClient(w', c) && w'.conns[c] == ClientStep(w.conns[c], a)
            && w'.rooms == w.rooms && w'.conns[c].room == w.conns[c].room
  {
    hide Inv, ClientStep;
    AtClientKeeps(w, c, a);
    ClientStepRoom(w.conns[c], a);
    ClientStepPeer(w.conns[c], a);
  }

  lemma ServerNext(w: World, c: ConnId, a: ServerAction)
    requires Inv(w) && c in w.conns
    ensures var id, w' := w.conns[c].room, Next(w, AtServer(c, a));
            && id in w.rooms
            && var (room, conn) := ServerStep(w.rooms[id], w.conns[c], c, a);
               && Inv(w') && c in w'.conns && w'.conns[c] == conn && conn.room == id && conn.peer == w.conns[c].peer
               && id in w'.rooms && w'.rooms[id] == room
  {
    hide Inv, ServerStep, ConnInv;
    RoomOf(w, c);
    AtServerKeeps(w, c, a);
    ServerStepConn'(w.rooms[w.conns[c].room], w.conns[c], c, a);
    ServerStepPeer(w.rooms[w.conns[c].room], w.conns[c], c, a);
  }

  lemma RoomOf(w: World, c: ConnId)
    requires Inv(w) && c in w.conns
    ensures w.conns[c].room in w.rooms && ConnInv(w.conns[c], w.rooms[w.conns[c].room], c)
  {
    hide ConnInv, RoomInv;
  }

  lemma MoveHelps(w: World, c: ConnId)
    requires Inv(w) && Ready(w, c) && MoveOf(w, c) != Nothing
    ensures var w' := Next(w, StepOf(c, MoveOf(w, c)));
            && Succeeds(c, StepOf(c, MoveOf(w, c)))
            && Inv(w') && Ready(w', c)
            && ClientOf(w', c).typed == ClientOf(w, c).typed
            && Less(WorkLeft(w', c), WorkLeft(w, c))
  {
    hide Inv, WorkOf, Less, ClientStep, ServerStep, Next, ConnInv, ClientSide, HeaderIsGood, Runs, SessionRuns;
    var conn := w.conns[c];
    RoomOf(w, c);
    ClientHeaderIsGood(w, c);
    SessionHeaderIsGood(w, c);
    match MoveOf(w, c)
    case AClient(a) =>
      ClientNext(w, c, a);
      ClientSideOf(w, c);
      ClientMoves(conn, SessionOf(w, c), a);
    case AServer(a) =>
      ServerNext(w, c, a);
      ServerMoves(w.rooms[conn.room], conn, c, a);
  }

  lemma ClientSideOf(w: World, c: ConnId)
    requires Inv(w) && c in w.conns
    ensures ClientSide(w.conns[c])
  {
    hide ClientSide, ServerSide, RoomInv;
  }

  /** Step by step the work of the connection is done. */
  lemma {:induction false} WorkEnds(w: World, c: ConnId) returns (more: seq<Step>)
    requires Inv(w) && Ready(w, c)
    ensures var w' := RunFrom(w, more);
            && AllSucceed(c, more) && Inv(w') && Ready(w', c) && MoveOf(w', c) == Nothing
            && ClientOf(w', c).typed == ClientOf(w, c).typed
    decreases WorkLeft(w, c).posted, WorkLeft(w, c).up, WorkLeft(w, c).logging, WorkLeft(w, c).down,
              WorkLeft(w, c).printing
  {
    hide Inv, Ready, WorkLeft, MoveOf, Next, Succeeds, StepOf;
    more := [];
    if MoveOf(w, c) != Nothing {
      var step := StepOf(c, MoveOf(w, c));
      MoveHelps(w, c);
      var rest := WorkEnds(Next(w, step), c);
      more := [step] + rest;
      assert more[1..] == rest;
    }
  }

  /** The two ends of a connection that are not up yet come up. */
  lemma {:induction false} ComesUp(w: World, c: ConnId) returns (more: seq<Step>)
    requires Inv(w) && Unfailed(w, c)
    ensures var w' := RunFrom(w, more);
            && AllSucceed(c, more) && Inv(w') && Ready(w', c)
            && ClientOf(w', c).typed == ClientOf(w, c).typed
  {
    var connect := Connects(w, c);
    var accept := IsAccepted(RunFrom(w, connect), c);
    more := connect + accept;
    RunFromAppend(w, connect, accept);
  }

  lemma {:induction false} Connects(w: World, c: ConnId) returns (more: seq<Step>)
    requires Inv(w) && Unfailed(w, c)
    ensures var w' := RunFrom(w, more);
            && AllSucceed(c, more) && Inv(w') && Unfailed(w', c)
            && ClientOf(w', c).link == ClientSpec.Connected && ClientOf(w', c).typed == ClientOf(w, c).typed
  {
    hide Inv, Next;
    more := [];
    if ClientOf(w, c).link == ClientSpec.Connecting {
      more := [AtClient(c, Connect(true))];
      ClientNext(w, c, Connect(true));
      RunFromOne(w, more[0]);
    }
  }

  lemma {:induction false} IsAccepted(w: World, c: ConnId) returns (more: seq<Step>)
    requires Inv(w) && Unfailed(w, c) && ClientOf(w, c).link == ClientSpec.Connected
    ensures var w' := RunFrom(w, more);
            && AllSucceed(c, more) && Inv(w') && Ready(w', c)
            && ClientOf(w', c).typed == ClientOf(w, c).typed
  {
    hide Inv, Next;
    more := [];
    OpenRuns(w, c);
    if !HasSession(w, c) {
      var junk := ClientOf(w, c).reader.msg;
      more := [AtServer(c, Accept(junk))];
      ServerNext(w, c, Accept(junk));
      RunFromOne(w, more[0]);
      Accepted(w.rooms[w.conns[c].room], w.conns[c], c, junk);
    }
  }

  lemma Accepted(room: Room<ConnId>, conn: Conn, c: ConnId, junk: Message)
    requires c !in room.sessions && IsMessage(junk)
    ensures var room' := ServerStep(room, conn, c, Accept(junk)).0;
            c in room'.sessions && SessionRuns(room'.sessions[c])
  {
    StartedSession(room, c, junk);
  }

  /** A connected client with an open socket reads and can write. */
  lemma OpenRuns(w: World, c: ConnId)
    requires Inv(w) && Unfailed(w, c) && ClientOf(w, c).link == ClientSpec.Connected
    ensures Runs(ClientOf(w, c)) && IsMessage(ClientOf(w, c).reader.msg)
  {
    ClientSideOf(w, c);
    hide Inv, WriterInv, Decode;
  }

  lemma RunFromOne(w: World, step: Step)
    ensures RunFrom(w, [step]) == Next(w, step)
  {
    hide Next;
  }

  lemma {:induction false} RunFromAppend(w: World, steps: seq<Step>, more: seq<Step>)
    ensures RunFrom(w, steps + more) == RunFrom(RunFrom(w, steps), more)
    decreases |steps|
  {
    hide Next;
    if steps == [] {
      assert steps + more == more;
    } else {
      RunFromAppend(Next(w, steps[0]), steps[1..], more);
      assert (steps + more)[1..] == steps[1..] + more;
    }
  }

  /** With no work left only the closing may still be posted, and it may run. */
  lemma {:induction false} ClosesLast(w: World, c: ConnId) returns (more: seq<Step>)
    requires Inv(w) && Ready(w, c) && MoveOf(w, c) == Nothing
    ensures var w' := RunFrom(w, more);
            && AllSucceed(c, more) && Inv(w') && AtRest(w', c) && SessionRuns(SessionOf(w', c))
            && ClientOf(w', c).typed == ClientOf(w, c).typed
  {
    hide Inv, Next;
    more := [];
    NothingMoves(w, c);
    if ClientOf(w, c).posted != [] {
      more := [AtClient(c, RunPosted)];
      ClientNext(w, c, RunPosted);
      RunFromOne(w, more[0]);
      OnlyCloseIsPosted(w, c);
    }
  }

  lemma NothingMoves(w: World, c: ConnId)
    requires Inv(w) && Ready(w, c) && MoveOf(w, c) == Nothing
    ensures ClientOf(w, c).posted == [] ==> AtRest(w, c)
    ensures w.conns[c].upTaken == |w.conns[c].up| && w.conns[c].downTaken == |w.conns[c].down|
    ensures Current(ClientOf(w, c).writer) == [] && Current(SessionOf(w, c).writer) == []
    ensures !CanComplete(ClientOf(w, c).reader) && !CanComplete(SessionOf(w, c).reader)
  {
    ClientSideOf(w, c);
    TakenOf(w, c);
    hide Inv, ClientSide;
  }

  lemma TakenOf(w: World, c: ConnId)
    requires Inv(w) && c in w.conns
    ensures w.conns[c].upTaken <= |w.conns[c].up| && w.conns[c].downTaken <= |w.conns[c].down|
  {
    ClientSideOf(w, c);
    hide Inv;
  }

  lemma OnlyCloseIsPosted(w: World, c: ConnId)
    requires Inv(w) && Ready(w, c) && MoveOf(w, c) == Nothing && ClientOf(w, c).posted != []
    ensures ClientOf(w, c).posted == [ClientSpec.PostClose]
  {
    hide Inv, ClientSide, ClientSpec.Closes;
    ClientSideOf(w, c);
    ClosesOf(w.conns[c]);
    CloseAlone(ClientOf(w, c));
  }

  lemma ClosesOf(conn: Conn)
    requires conn.peer.Honest? && ClientSide(conn)
    ensures ClientSpec.Closes(conn.peer.client)
  {
    hide ReaderInv, WriterInv, ClientSpec.Closes;
  }

  lemma CloseAlone(cl: ClientSpec.Client)
    requires ClientSpec.Closes(cl) && cl.posted != [] && cl.posted[0] == ClientSpec.PostClose
    ensures cl.posted == [ClientSpec.PostClose]
  {
  }

  /** Nothing need be lost: from every reachable state in which nothing of a
      connection has failed and its socket is open, its own successful steps lead
      to a state of rest. There its room's log holds, as its messages, exactly
      the lines typed so far, and the client has printed the whole log from the start
      of its replay. */
  lemma {:induction false} EverythingArrives(rooms: set<RoomId>, steps: seq<Step>, c: ConnId)
    requires Unfailed(Run(rooms, steps), c)
    ensures exists more ::
              && AllSucceed(c, more)
              && Arrived(Run(rooms, steps), Run(rooms, steps + more), c, LinesTyped(rooms, steps, c))
  {
    hide LinesTyped, Run, RunFrom, Inv, Unfailed, Ready, AtRest, AllSucceed;
    var w := Run(rooms, steps);
    RunInv(rooms, steps);
    var up := ComesUp(w, c);
    var work := WorkEnds(RunFrom(w, up), c);
    var close := ClosesLast(RunFrom(RunFrom(w, up), work), c);
    RunFromAppend(w, up, work);
    RunFromAppend(w, up + work, close);
    var more := up + work + close;
    RunThen(rooms, steps, more);
    AppendSucceeds(c, up, work);
    AppendSucceeds(c, up + work, close);
    UnfailedIsClient(w, c);
    TypedAreLines(rooms, steps, c);
    RestIsArrival(w, Run(rooms, steps + more), c, LinesTyped(rooms, steps, c));
  }

  lemma UnfailedIsClient(w: World, c: ConnId)
    requires Unfailed(w, c)
    ensures IsClient(w, c)
  {
  }

  lemma AppendSucceeds(c: ConnId, a: seq<Step>, b: seq<Step>)
    requires AllSucceed(c, a) && AllSucceed(c, b)
    ensures AllSucceed(c, a + b)
  {
  }

  /** In `w'` the `lines` typed at `c` by the time of `w` are what is logged of it,
      and all that is logged is printed at `c`. */
  ghost predicate Arrived(w: World, w': World, c: ConnId, lines: seq<seq<Byte>>) {
    && IsClient(w, c) && AtRest(w', c) && Bodies(By(LogOf(w', c), c)) == lines
    && var from, log := WindowStart(SessionOf(w', c).joinedAt), LogOf(w', c);
       && By(log, c) == ClientOf(w', c).typed == ClientOf(w, c).typed
       && from <= |log| && ClientOf(w', c).printed == Bodies(Frames(log)[from..])
  }

  lemma RestIsArrival(w: World, w': World, c: ConnId, lines: seq<seq<Byte>>)
    requires Inv(w') && AtRest(w', c) && SessionRuns(SessionOf(w', c))
    requires IsClient(w, c) && ClientOf(w', c).typed == ClientOf(w, c).typed && Bodies(ClientOf(w, c).typed) == lines
    ensures Arrived(w, w', c, lines)
  {
    hide Inv, By, Frames, Bodies, SessionRuns;
    ReadAllAtRest(w', c);
    TypedAllAtRest(w', c);
    WindowBounds(w', c);
    StillMember(w', c);
    ToTheEnd(Frames(LogOf(w', c)), WindowStart(SessionOf(w', c).joinedAt));
  }

  lemma ToTheEnd(fs: seq<Frame>, from: nat)
    requires from <= |fs|
    ensures fs[from..|fs|] == fs[from..]
  {
  }

  lemma StillMember(w: World, c: ConnId)
    requires Inv(w) && HasSession(w, c) && SessionRuns(SessionOf(w, c))
    ensures SessionOf(w, c).left == None
  {
  }

  // ---------------------------------------------------------------- what is posted runs

  /** `n` posted handlers of client `c` run, one after the other. */
  function RunsOfPosted(c: ConnId, n: nat): seq<Step> {
    seq(n, i => AtClient(c, RunPosted))
  }

  /** Everything posted can run, also when the socket is closed already: then every
      line given to the loop has been queued, and the socket is closed if the input
      has ended. */
  lemma {:induction false} PostedRuns(rooms: set<RoomId>, steps: seq<Step>, c: ConnId)
    requires IsClient(Run(rooms, steps), c)
    ensures var w := Run(rooms, steps);
            var w' := Run(rooms, steps + RunsOfPosted(c, |ClientOf(w, c).posted|));
            && IsClient(w', c) && ClientOf(w', c).posted == []
            && Bodies(ClientOf(w', c).writer.popped + ClientOf(w', c).writer.queue) == LinesTyped(rooms, steps, c)
            && (InputEnded(rooms, steps, c) ==> ClientOf(w', c).closed)
  {
    hide Run, RunFrom, Inv, LinesTyped, InputEnded, Bodies;
    var w := Run(rooms, steps);
    var all := RunsOfPosted(c, |ClientOf(w, c).posted|);
    RunInv(rooms, steps);
    TypedAreLines(rooms, steps, c);
    EndedIsInputEnded(rooms, steps, c);
    RunThen(rooms, steps, all);
    PostedRunsFrom(w, c);
    NothingPosted(RunFrom(w, all), c);
  }

  lemma {:induction false} PostedRunsFrom(w: World, c: ConnId)
    requires Inv(w) && IsClient(w, c)
    ensures var w' := RunFrom(w, RunsOfPosted(c, |ClientOf(w, c).posted|));
            && Inv(w') && IsClient(w', c) && ClientOf(w', c).posted == []
            && ClientOf(w', c).typed == ClientOf(w, c).typed && ClientOf(w', c).ended == ClientOf(w, c).ended
    decreases |ClientOf(w, c).posted|
  {
    hide Inv, Next;
    var n := |ClientOf(w, c).posted|;
    if n > 0 {
      ClientNext(w, c, RunPosted);
      PostedRunsFrom(Next(w, AtClient(c, RunPosted)), c);
      assert RunsOfPosted(c, n)[1..] == RunsOfPosted(c, n - 1);
    }
  }

  lemma NothingPosted(w: World, c: ConnId)
    requires Inv(w) && IsClient(w, c) && ClientOf(w, c).posted == []
    ensures ClientOf(w, c).writer.popped + ClientOf(w, c).writer.queue == ClientOf(w, c).typed
    ensures ClientOf(w, c).ended ==> ClientOf(w, c).closed
  {
    hide Inv, ReaderInv, WriterInv;
    ClientSideOf(w, c);
    var wr := ClientOf(w, c).writer;
    assert wr.popped + wr.queue + [] == wr.popped + wr.queue;
  }

  // ---------------------------------------------------------------- a session that goes on writing

  predicate Sends(c: ConnId, step: Step) {
    match step
    case AtServer(j, ServerTransmits(_, _)) => j == c
    case AtServer(j, ServerWrite(_, ok)) => j == c && ok
    case _ => false
  }

  ghost predicate AllSend(c: ConnId, steps: seq<Step>) {
    forall i :: 0 <= i < |steps| ==> Sends(c, steps[i])
  }

  /** From `w` to `w'` session `c` has only written. */
  ghost predicate OnlyWrites(w: World, w': World, c: ConnId) {
    && HasSession(w, c) && HasSession(w', c)
    && w'.conns[c] == w.conns[c].(down := w'.conns[c].down)
    && SessionOf(w', c) == SessionOf(w, c).(writer := SessionOf(w', c).writer, refs := SessionOf(w', c).refs)
    && SessionOf(w', c).writer.broken == SessionOf(w, c).writer.broken
    && LogOf(w', c) == LogOf(w, c)
  }

  function SendStep(c: ConnId, w: Writer): Step
    requires w.ops != []
  {
    var op := w.ops[0];
    AtServer(c, if op.done < |op.buffer| then ServerTransmits(0, |op.buffer| - op.done) else ServerWrite(0, true))
  }

  lemma SendHelps(w: World, c: ConnId)
    requires Inv(w) && HasSession(w, c) && SessionOf(w, c).writer.ops != []
    ensures var step := SendStep(c, SessionOf(w, c).writer);
            && Sends(c, step) && Inv(Next(w, step)) && OnlyWrites(w, Next(w, step), c)
            && WriteWork(SessionOf(Next(w, step), c).writer) < WriteWork(SessionOf(w, c).writer)
  {
    hide Inv, Next, ServerStep, WriteWork, ConnInv;
    var conn, step := w.conns[c], SendStep(c, SessionOf(w, c).writer);
    RoomOf(w, c);
    ServerNext(w, c, step.serverAction);
    OwnSend(w.rooms[conn.room], conn, c);
  }

  lemma OwnSend(room: Room<ConnId>, conn: Conn, c: ConnId)
    requires c in room.sessions && ConnInv(conn, room, c) && room.sessions[c].writer.ops != []
    ensures var (room', conn') := ServerStep(room, conn, c, SendStep(c, room.sessions[c].writer).serverAction);
            && c in room'.sessions && room'.log == room.log && conn' == conn.(down := conn'.down)
            && var se, se' := room.sessions[c], room'.sessions[c];
               && se' == se.(writer := se'.writer, refs := se'.refs) && se'.writer.broken == se.writer.broken
               && WriteWork(se'.writer) < WriteWork(se.writer)
  {
    hide ReaderInv, WriterInv, Transmit, Written, By, Frames;
    var w := room.sessions[c].writer;
    if w.ops[0].done < |w.ops[0].buffer| {
      TransmitProgress(w);
    } else {
      FinishProgress(w, conn.down);
    }
  }

  lemma {:induction false} SendsAll(w: World, c: ConnId) returns (more: seq<Step>)
    requires Inv(w) && HasSession(w, c)
    ensures var w' := RunFrom(w, more);
            AllSend(c, more) && Inv(w') && OnlyWrites(w, w', c) && SessionOf(w', c).writer.ops == []
    decreases WriteWork(SessionOf(w, c).writer)
  {
    hide Inv, Next, Sends, WriteWork;
    more := [];
    if SessionOf(w, c).writer.ops != [] {
      var step := SendStep(c, SessionOf(w, c).writer);
      SendHelps(w, c);
      var rest := SendsAll(Next(w, step), c);
      more := [step] + rest;
      assert more[1..] == rest;
    }
  }

  /** A session keeps its promise to write what it was given, in its room or out
      of it: from every reachable state in which none of its writes has failed, its
      own transfers and write handlers empty its queue, and all of its window is on
      the wire. If its reads have ended, it is then released. */
  lemma {:induction false} QueueDrains(rooms: set<RoomId>, steps: seq<Step>, c: ConnId)
    requires HasSession(Run(rooms, steps), c) && SessionOf(Run(rooms, steps), c).writer.broken == []
    ensures exists more :: AllSend(c, more) && Drained(Run(rooms, steps), Run(rooms, steps + more), c)
  {
    hide Run, RunFrom, Inv, AllSend, Drained;
    RunInv(rooms, steps);
    var w := Run(rooms, steps);
    var more := SendsAll(w, c);
    RunThen(rooms, steps, more);
    EmptyIsDrained(w, RunFrom(w, more), c);
  }

  ghost predicate Drained(w: World, w': World, c: ConnId) {
    && OnlyWrites(w, w', c)
    && var se := SessionOf(w', c);
       && se.writer.queue == [] && se.writer.ops == []
       && w'.conns[c].down == Concat(WindowOf(w', c)) && WindowOf(w', c) == WindowOf(w, c)
       && (se.reader.phase == Stopped ==> se.refs == 0)
  }

  lemma EmptyIsDrained(w: World, w': World, c: ConnId)
    requires Inv(w') && OnlyWrites(w, w', c)
    requires SessionOf(w', c).writer.ops == [] && SessionOf(w', c).writer.broken == []
    ensures Drained(w, w', c)
  {
    hide RoomInv, ReaderInv, By;
    var wr := SessionOf(w', c).writer;
    assert Current(wr) == [];
    assert wr.popped + wr.queue == wr.popped;
  }

  // ---------------------------------------------------------------- a session that goes on reading

  predicate Takes(c: ConnId, step: Step) {
    match step
    case AtServer(j, ServerReceives(_)) => j == c
    case AtServer(j, ServerRead(ok)) => j == c && ok
    case _ => false
  }

  ghost predicate AllTake(c: ConnId, steps: seq<Step>) {
    forall i :: 0 <= i < |steps| ==> Takes(c, steps[i])
  }

  /** The log holds, of `c`, what all the bytes sent by its peer mean. */
  ghost predicate LogsStream(w: World, c: ConnId) {
    HasSession(w, c) && By(LogOf(w, c), c) == Parse(w.conns[c].up)
  }

  function TakeStep(c: ConnId, conn: Conn, r: Reader): Step
    requires conn.upTaken <= |conn.up|
  {
    AtServer(c, if CanComplete(r) then ServerRead(true) else ServerReceives(Piece(r, |conn.up| - conn.upTaken)))
  }

  ghost function ReadingLeft(w: World, c: ConnId): nat
    requires HasSession(w, c)
  {
    ReadWork(SessionOf(w, c).reader, Left(|w.conns[c].up|, w.conns[c].upTaken))
  }

  lemma TakeHelps(w: World, c: ConnId)
    requires Inv(w) && HasSession(w, c) && SessionOf(w, c).reader.phase != Stopped
    requires w.conns[c].upTaken <= |w.conns[c].up|
    requires CanComplete(SessionOf(w, c).reader) || w.conns[c].upTaken < |w.conns[c].up|
    ensures var step := TakeStep(c, w.conns[c], SessionOf(w, c).reader);
            && Takes(c, step) && Inv(Next(w, step)) && HasSession(Next(w, step), c)
            && Next(w, step).conns[c].up == w.conns[c].up
            && (HeaderIsGood(SessionOf(w, c).reader) ==>
                  && SessionOf(Next(w, step), c).reader.phase != Stopped
                  && ReadingLeft(Next(w, step), c) < ReadingLeft(w, c))
            && (!HeaderIsGood(SessionOf(w, c).reader) ==>
                  && SessionOf(Next(w, step), c).reader.phase == Stopped
                  && LogOf(Next(w, step), c) == LogOf(w, c))
  {
    hide Inv, Next, ServerStep, ReadWork, ConnInv, HeaderIsGood;
    var conn, step := w.conns[c], TakeStep(c, w.conns[c], SessionOf(w, c).reader);
    RoomOf(w, c);
    ServerNext(w, c, step.serverAction);
    OwnTake(w.rooms[conn.room], conn, c);
  }

  lemma OwnTake(room: Room<ConnId>, conn: Conn, c: ConnId)
    requires c in room.sessions && ConnInv(conn, room, c) && room.sessions[c].reader.phase != Stopped
    requires CanComplete(room.sessions[c].reader) || conn.upTaken < |conn.up|
    ensures var r := room.sessions[c].reader;
            var (room', conn') := ServerStep(room, conn, c, TakeStep(c, conn, r).serverAction);
            && c in room'.sessions && conn'.up == conn.up
            && (HeaderIsGood(r) ==>
                  && room'.sessions[c].reader.phase != Stopped
                  && ReadWork(room'.sessions[c].reader, Left(|conn.up|, conn'.upTaken))
                     < ReadWork(r, Left(|conn.up|, conn.upTaken)))
            && (!HeaderIsGood(r) ==> room'.sessions[c].reader.phase == Stopped && room'.log == room.log)
  {
    hide ReaderInv, WriterInv, Receive, HeaderRead, BodyRead, HeaderIsGood, By, Frames, ReadWork;
    var r := room.sessions[c].reader;
    if CanComplete(r) {
      if HeaderIsGood(r) { CompleteProgress(r, Left(|conn.up|, conn.upTaken)); } else { BadHeader(r); }
    } else {
      NotComplete(r);
      ReceiveProgress(r, conn.up[..conn.upTaken], conn.up, conn.upTaken);
    }
  }

  lemma BadHeader(r: Reader)
    requires CanComplete(r) && !HeaderIsGood(r)
    ensures r.phase == Header && HeaderRead(r).phase == Stopped
  {
    hide Decode;
  }

  lemma NotComplete(r: Reader)
    requires r.phase != Stopped && !CanComplete(r)
    ensures IsMessage(r.msg) ==> HeaderIsGood(r)
  {
    hide Decode;
  }

  /** A header that is rejected ends what the stream means, whatever follows it. */
  lemma RejectedEnds(r: Reader, consumed: seq<Byte>, stream: seq<Byte>)
    requires ReaderInv(r, consumed) && CanComplete(r) && !HeaderIsGood(r) && consumed <= stream
    ensures r.emitted == Parse(stream)
  {
    hide Decode, WellFormed;
    var header := r.msg.data[..HEADER_LENGTH];
    var rest := stream[|consumed|..];
    assert stream == consumed + rest == Concat(r.emitted) + (header + rest);
    ParseConcat(r.emitted, header + rest);
    assert (header + rest)[..HEADER_LENGTH] == header;
    assert Parse(header + rest) == [];
  }

  lemma {:induction false} TakesAll(w: World, c: ConnId) returns (more: seq<Step>)
    requires Inv(w) && HasSession(w, c) && SessionOf(w, c).reader.phase != Stopped
    ensures var w' := RunFrom(w, more);
            && AllTake(c, more) && LogsStream(w', c) && w'.conns[c].up == w.conns[c].up
    decreases ReadingLeft(w, c)
  {
    hide Inv, Next, Takes, ReadingLeft, Parse, By, HeaderIsGood, CanComplete;
    more := [];
    TakenOf(w, c);
    if CanComplete(SessionOf(w, c).reader) || w.conns[c].upTaken < |w.conns[c].up| {
      var step := TakeStep(c, w.conns[c], SessionOf(w, c).reader);
      TakeHelps(w, c);
      if HeaderIsGood(SessionOf(w, c).reader) {
        var rest := TakesAll(Next(w, step), c);
        more := [step] + rest;
        assert more[1..] == rest;
      } else {
        more := [step];
        RunFromOne(w, step);
        RejectedStream(w, c);
        SameLog(w, Next(w, step), c);
      }
    } else {
      AllTaken(w, c);
    }
  }

  lemma SameLog(w: World, w': World, c: ConnId)
    requires HasSession(w, c) && HasSession(w', c) && LogOf(w', c) == LogOf(w, c)
    requires By(LogOf(w, c), c) == Parse(w.conns[c].up) && w'.conns[c].up == w.conns[c].up
    ensures LogsStream(w', c)
  {
  }

  lemma RejectedStream(w: World, c: ConnId)
    requires Inv(w) && HasSession(w, c) && w.conns[c].upTaken <= |w.conns[c].up|
    requires SessionOf(w, c).reader.phase != Stopped && !HeaderIsGood(SessionOf(w, c).reader)
    ensures By(LogOf(w, c), c) == Parse(w.conns[c].up)
  {
    hide RoomInv, WriterInv, Decode, Parse, By, WellFormed;
    var r, conn := SessionOf(w, c).reader, w.conns[c];
    assert r.phase == Header && r.got == HEADER_LENGTH;
    RejectedEnds(r, conn.up[..conn.upTaken], conn.up);
  }

  lemma AllTaken(w: World, c: ConnId)
    requires Inv(w) && HasSession(w, c) && w.conns[c].upTaken == |w.conns[c].up|
    requires SessionOf(w, c).reader.phase != Stopped && !CanComplete(SessionOf(w, c).reader)
    ensures LogsStream(w, c)
  {
    hide RoomInv, WriterInv, Decode, Parse, By, WellFormed;
    var conn := w.conns[c];
    assert conn.up[..conn.upTaken] == conn.up;
    EmittedParses(SessionOf(w, c).reader, conn.up);
  }

  /** A session logs all that its peer's bytes mean, whoever the peer is and whether
      the session is in its room or not: from every reachable state in which it
      reads, its own successful reads make the log hold, as its messages, exactly
      the frames of the whole stream, up to a header that is rejected. */
  lemma {:induction false} StreamIsLogged(rooms: set<RoomId>, steps: seq<Step>, c: ConnId)
    requires HasSession(Run(rooms, steps), c) && SessionOf(Run(rooms, steps), c).reader.phase != Stopped
    ensures exists more ::
              && AllTake(c, more)
              && LogsStream(Run(rooms, steps + more), c)
              && Run(rooms, steps + more).conns[c].up == Run(rooms, steps).conns[c].up
  {
    hide Run, RunFrom, Inv, AllTake;
    RunInv(rooms, steps);
    var more := TakesAll(Run(rooms, steps), c);
    RunThen(rooms, steps, more);
    assert AllTake(c, more);
  }
}
