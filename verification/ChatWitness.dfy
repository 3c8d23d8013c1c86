/** A concrete run in which a session publishes from outside its room. One peer
    sends two empty messages; the write that relays the first one back to it
    fails, so its session leaves, reads on and relays the second one. */
module ChatWitness {
  import opened Codec
  import opened Framing
  import opened Endpoint
  import opened RoomSpec
  import opened ChatWorld
  import opened ChatProperties
  import opened ChatRest
  import ClientSpec

  const ME: ConnId := 0
  const HERE: RoomId := 0
  const EMPTY_MESSAGE: Frame := [32, 32, 32, 48]  // "   0"

  function Junk(): Message {
    Message(seq(CAPACITY, _ => 0), 0)
  }

  /** The peer sends an empty message, its header arrives and is accepted. */
  function Arrival(): seq<Step> {
    [ForeignSends(ME, EMPTY_MESSAGE), AtServer(ME, ServerReceives(4)), AtServer(ME, ServerRead(true))]
  }

  function Beginning(): seq<Step> {
    [Open(ME, HERE, false, Junk()), AtServer(ME, Accept(Junk()))]
  }

  function Failing(): seq<Step> {
    [AtServer(ME, ServerRead(true)), AtServer(ME, ServerWrite(0, false))]
  }

  function Witness(): seq<Step> {
    Beginning() + Arrival() + Failing() + Arrival()
  }

  /** The world of one room and one foreign peer. */
  function Solo(room: Room<ConnId>, up: seq<Byte>, taken: nat): World {
    World(map[HERE := room], map[ME := Conn(HERE, Foreign, up, taken, [], 0)])
  }

  lemma SoloServer(room: Room<ConnId>, up: seq<Byte>, taken: nat, a: ServerAction)
    ensures var conn := Conn(HERE, Foreign, up, taken, [], 0);
            var (room', conn') := ServerStep(room, conn, ME, a);
            Next(Solo(room, up, taken), AtServer(ME, a)) == World(map[HERE := room'], map[ME := conn'])
  {
    hide ServerStep;
  }

  lemma SoloSends(room: Room<ConnId>, up: seq<Byte>, taken: nat, bytes: seq<Byte>)
    ensures Next(Solo(room, up, taken), ForeignSends(ME, bytes)) == Solo(room, up + bytes, taken)
  {
  }

  lemma EmptyHeader()
    ensures Decode(EMPTY_MESSAGE) == Some(0)
  {
    DecodeEncode(0);
    assert Encode(0) == EMPTY_MESSAGE;
  }

  /** The message buffer after the header of an empty message has been read into it. */
  function HeaderIn(m: Message): (r: Message)
    requires IsMessage(m)
    ensures IsMessage(r) && r.bodyLength == 0
  {
    Message(Overwrite(m.data, 0, EMPTY_MESSAGE), 0)
  }

  /** An arrival takes a session that is waiting for a header to its body read. */
  lemma ArrivalRuns(room: Room<ConnId>, up: seq<Byte>, taken: nat)
    requires ME in room.sessions && taken == |up|
    requires var r := room.sessions[ME].reader; r.phase == Header && r.got == 0 && IsMessage(r.msg)
    ensures var se := room.sessions[ME];
            RunFrom(Solo(room, up, taken), Arrival())
            == Solo(Update(room, ME, se.(reader := Reader(HeaderIn(se.reader.msg), Body, 0, se.reader.emitted))),
                    up + EMPTY_MESSAGE, taken + 4)
  {
    var se := room.sessions[ME];
    var sent := up + EMPTY_MESSAGE;
    SoloSends(room, up, taken, EMPTY_MESSAGE);
    assert sent[taken..taken + 4] == EMPTY_MESSAGE;
    var got := Receive(se.reader, EMPTY_MESSAGE);
    var received := Update(room, ME, se.(reader := got));
    SoloServer(room, sent, taken, ServerReceives(4));
    HeaderHandled(received, sent, taken + 4, se.reader);
    RunsThree(Solo(room, up, taken), Arrival());
    assert received.sessions[ME := se] == room.sessions[ME := se];
    UpdateTwice(room, se.(reader := got), se.(reader := Reader(HeaderIn(se.reader.msg), Body, 0, se.reader.emitted)));
  }

  lemma RunsThree(w: World, steps: seq<Step>)
    requires |steps| == 3
    ensures RunFrom(w, steps) == Next(Next(Next(w, steps[0]), steps[1]), steps[2])
  {
    hide Next;
    assert steps[1..][1..] == [steps[2]];
    RunsTwo(Next(w, steps[0]), steps[1..]);
  }

  lemma {:induction false} RunsTwo(w: World, steps: seq<Step>)
    requires |steps| >= 2
    ensures RunFrom(w, steps) == RunFrom(Next(Next(w, steps[0]), steps[1]), steps[2..])
  {
    hide Next;
    assert steps[1..][1..] == steps[2..];
  }

  lemma UpdateTwice(room: Room<ConnId>, a: Session, b: Session)
    ensures Update(Update(room, ME, a), ME, b) == Update(room, ME, b)
  {
    assert room.sessions[ME := a][ME := b] == room.sessions[ME := b];
  }

  lemma HeaderHandled(room: Room<ConnId>, up: seq<Byte>, taken: nat, before: Reader)
    requires ME in room.sessions && before.phase == Header && before.got == 0 && IsMessage(before.msg)
    requires room.sessions[ME].reader == Receive(before, EMPTY_MESSAGE)
    ensures var se := room.sessions[ME];
            Next(Solo(room, up, taken), AtServer(ME, ServerRead(true)))
            == Solo(Update(room, ME, se.(reader := Reader(HeaderIn(before.msg), Body, 0, before.emitted))), up, taken)
  {
    hide Receive, HeaderRead, HeaderIn;
    ArrivedHeader(before);
    SoloServer(room, up, taken, ServerRead(true));
  }

  lemma ArrivedHeader(before: Reader)
    requires before.phase == Header && before.got == 0 && IsMessage(before.msg)
    ensures var r := Receive(before, EMPTY_MESSAGE);
            && CanComplete(r) && r.phase == Header
            && HeaderRead(r) == Reader(HeaderIn(before.msg), Body, 0, before.emitted)
  {
    hide Decode;
    EmptyHeader();
    assert Receive(before, EMPTY_MESSAGE).msg.data[..HEADER_LENGTH] == EMPTY_MESSAGE;
  }

  /** The room after the session has joined. */
  function Joined(): Room<ConnId> {
    Room([], [], {ME}, map[ME := Session(Reader(Junk(), Header, 0, []), NO_WRITES, 2, 0, None)])
  }

  lemma BeginningRuns()
    ensures Run({HERE}, Beginning()) == Solo(Joined(), [], 0)
  {
    var empty := Room([], [], {}, map[]);
    RunThen({HERE}, [], Beginning());
    assert [] + Beginning() == Beginning();
    RunsTwo(Initial({HERE}), Beginning());
    assert Initial({HERE}).rooms == map[HERE := empty];
    assert Next(Initial({HERE}), Beginning()[0]) == Solo(empty, [], 0);
    SoloServer(empty, [], 0, Accept(Junk()));
    StartedSession(empty, ME, Junk());
    assert PushAll(NO_WRITES, []) == NO_WRITES;
    assert Start(empty, ME, Junk()) == Joined();
  }

  /** A session whose body read is due, alone in its room. */
  function Due(m: Message): Room<ConnId> {
    Room([], [], {ME}, map[ME := Session(Reader(m, Body, 0, []), NO_WRITES, 2, 0, None)])
  }

  /** It has published, and its own message is being written back to it. */
  function Published(m: Message): Room<ConnId>
    requires IsMessage(m)
  {
    var f := FrameOf(m);
    Room([Entry(ME, f)], [f], {ME},
         map[ME := Session(Reader(m, Header, 0, [f]), Writer([f], [WriteOp(f, 0)], [], []), 3, 0, None)])
  }

  /** That write has failed; the session has left and reads on. */
  function Outside(m: Message): Room<ConnId>
    requires IsMessage(m)
  {
    var f := FrameOf(m);
    Room([Entry(ME, f)], [f], {},
         map[ME := Session(Reader(m, Header, 0, [f]), Writer([f], [], [], [WriteOp(f, 0)]), 1, 0, Some(1))])
  }

  lemma DuePublishes(m: Message)
    requires IsMessage(m)
    ensures OnBody(Due(m), ME, true) == Published(m)
  {
    var f := FrameOf(m);
    var se := Due(m).sessions[ME];
    assert Push(NO_WRITES, f) == Writer([f], [WriteOp(f, 0)], [], []);
    assert Trim([f]) == [f];
    assert Publish(Due(m), ME, f).sessions == map[ME := Deliver(se, f)];
    assert BodyRead(se.reader) == Reader(m, Header, 0, [f]);
    assert OnBody(Due(m), ME, true).sessions == Published(m).sessions;
  }

  lemma PublishedLeaves(m: Message)
    requires IsMessage(m)
    ensures OnWrite(Published(m), ME, 0, false) == Outside(m)
  {
    var w := Published(m).sessions[ME].writer;
    assert WriteError(w, 0) == Outside(m).sessions[ME].writer;
    assert OnWrite(Published(m), ME, 0, false).sessions == Outside(m).sessions;
  }

  lemma FailingRuns(up: seq<Byte>, taken: nat, m: Message)
    requires IsMessage(m) && m.bodyLength == 0
    ensures RunFrom(Solo(Due(m), up, taken), Failing()) == Solo(Outside(m), up, taken)
  {
    SoloServer(Due(m), up, taken, ServerRead(true));
    DuePublishes(m);
    SoloServer(Published(m), up, taken, ServerWrite(0, false));
    PublishedLeaves(m);
    hide OnBody, OnWrite;
    RunsTwo(Solo(Due(m), up, taken), Failing());
  }

  /** The room when the second message's body read is due. */
  function DueAgain(m: Message): Room<ConnId>
    requires IsMessage(m)
  {
    var se := Outside(m).sessions[ME];
    Update(Outside(m), ME, se.(reader := Reader(HeaderIn(m), Body, 0, se.reader.emitted)))
  }

  lemma WitnessRuns()
    ensures Run({HERE}, Witness()) == Solo(DueAgain(HeaderIn(Junk())), EMPTY_MESSAGE + EMPTY_MESSAGE, 8)
  {
    hide ServerStep, Receive, Next, Run, RunFrom, HeaderIn, FrameOf, Beginning, Arrival, Failing;
    BeginningRuns();
    RunThen({HERE}, Beginning(), Arrival());
    ArrivalRuns(Joined(), [], 0);
    var m := HeaderIn(Junk());
    assert [] + EMPTY_MESSAGE == EMPTY_MESSAGE;
    FirstArrival();
    RunThen({HERE}, Beginning() + Arrival(), Failing());
    FailingRuns(EMPTY_MESSAGE, 4, m);
    RunThen({HERE}, Beginning() + Arrival() + Failing(), Arrival());
    ArrivalRuns(Outside(m), EMPTY_MESSAGE, 4);
  }

  lemma FirstArrival()
    ensures var se := Joined().sessions[ME];
            Update(Joined(), ME, se.(reader := Reader(HeaderIn(se.reader.msg), Body, 0, se.reader.emitted)))
            == Due(HeaderIn(Junk()))
  {
    assert Joined().sessions[ME := Due(HeaderIn(Junk())).sessions[ME]] == Due(HeaderIn(Junk())).sessions;
  }

  /** The input at which "a session outside the room is silent" fails. */
  lemma SessionPublishesFromOutside()
    ensures var w, w' := Run({HERE}, Witness()), Run({HERE}, Witness() + [AtServer(ME, ServerRead(true))]);
            && HERE in w.rooms && HERE in w'.rooms
            && ME !in w.rooms[HERE].members && ME !in w'.rooms[HERE].members
            && |w.rooms[HERE].log| == 1 && |w'.rooms[HERE].log| == 2
  {
    WitnessRuns();
    hide Witness, Run, ServerStep;
    LeftSessionStillPublishes({HERE}, Witness(), ME);
  }

  // ---------------------------------------------------------------- a client that hears itself

  /** A client opens a connection and all of some lines are typed at it. */
  function Typing(lines: seq<seq<Byte>>): seq<Step>
    ensures |Typing(lines)| == |lines| + 1
  {
    if lines == [] then [Open(ME, HERE, true, Junk())]
    else Typing(lines[..|lines| - 1]) + [AtClient(ME, TypeLine(lines[|lines| - 1]))]
  }

  lemma {:induction false} TypingRuns(lines: seq<seq<Byte>>)
    requires forall i :: 0 <= i < |lines| ==> |lines[i]| <= 512
    ensures var w := Run({HERE}, Typing(lines));
            && w.conns.Keys == {ME} && Unfailed(w, ME)
            && !ClientOf(w, ME).ended && w.rooms == Initial({HERE}).rooms && w.conns[ME].room == HERE
    ensures LinesTyped({HERE}, Typing(lines), ME) == lines
  {
    hide LinesTyped;
    if lines == [] {
      Opening();
    } else {
      var init, last := lines[..|lines| - 1], lines[|lines| - 1];
      TypingRuns(init);
      var w, steps := Run({HERE}, Typing(init)), Typing(lines);
      assert steps[..|steps| - 1] == Typing(init) && steps[|steps| - 1] == AtClient(ME, TypeLine(last));
      LastLineTyped(Typing(init), last);
      hide ClientSpec.TypeLine;
      OneMoreLine(w, last);
      assert init + [last] == lines;
    }
  }

  lemma Opening()
    ensures var w := Run({HERE}, Typing([]));
            && w.conns.Keys == {ME} && Unfailed(w, ME) && !ClientOf(w, ME).ended
            && w.rooms == Initial({HERE}).rooms && w.conns[ME].room == HERE
    ensures LinesTyped({HERE}, Typing([]), ME) == []
  {
    RunThen({HERE}, [], Typing([]));
    assert [] + Typing([]) == Typing([]);
    assert Typing([])[..0] == [];
  }

  lemma LastLineTyped(steps: seq<Step>, line: seq<Byte>)
    requires |line| <= 512 && IsClient(Run({HERE}, steps), ME) && !ClientOf(Run({HERE}, steps), ME).ended
    ensures LinesTyped({HERE}, steps + [AtClient(ME, TypeLine(line))], ME) == LinesTyped({HERE}, steps, ME) + [line]
  {
    hide Run;
    assert (steps + [AtClient(ME, TypeLine(line))])[..|steps|] == steps;
  }

  lemma OneMoreLine(w: World, line: seq<Byte>)
    requires w.conns.Keys == {ME} && Unfailed(w, ME) && !ClientOf(w, ME).ended && |line| <= 512
    ensures var w' := Next(w, AtClient(ME, TypeLine(line)));
            && w'.conns.Keys == {ME} && Unfailed(w', ME) && !ClientOf(w', ME).ended
            && w'.rooms == w.rooms && w'.conns[ME].room == w.conns[ME].room
  {
  }

  /** No connection is opened by the steps of a connection. */
  lemma {:induction false} SameConns(w: World, c: ConnId, steps: seq<Step>)
    requires AllSucceed(c, steps)
    ensures RunFrom(w, steps).conns.Keys == w.conns.Keys
    decreases |steps|
  {
    hide ServerStep, ClientStep;
    if steps != [] {
      assert Succeeds(c, steps[0]);
      assert forall i :: 0 <= i < |steps| - 1 ==> steps[1..][i] == steps[i + 1];
      SameConns(Next(w, steps[0]), c, steps[1..]);
    }
  }

  lemma {:induction false} OneAuthor(log: seq<Entry<ConnId>>, c: ConnId)
    requires forall e :: e in log ==> e.author == c
    ensures By(log, c) == Frames(log)
  {
    if log != [] {
      var init, last := log[..|log| - 1], log[|log| - 1];
      assert last in log;
      OneAuthor(init, c);
      FramesSnoc(init, last);
      assert init + [last] == log;
    }
  }

  /** Whatever lines are typed, up to a hundred of them, can come back: there is a
      run in which a client alone in its room prints exactly those lines. */
  lemma {:induction false} LinesComeBack(lines: seq<seq<Byte>>)
    requires |lines| <= 100 && forall i :: 0 <= i < |lines| ==> |lines[i]| <= 512
    ensures exists more :: AllSucceed(ME, more) && Prints(Run({HERE}, Typing(lines) + more), lines)
  {
    hide Run, Typing, Unfailed, AllSucceed, Arrived, Prints, LinesTyped;
    TypingRuns(lines);
    EverythingArrives({HERE}, Typing(lines), ME);
    var w := Run({HERE}, Typing(lines));
    var more :| AllSucceed(ME, more) && Arrived(w, Run({HERE}, Typing(lines) + more), ME, lines);
    RunThen({HERE}, Typing(lines), more);
    SameConns(w, ME, more);
    RunInv({HERE}, Typing(lines) + more);
    ArrivedPrints(w, RunFrom(w, more), lines);
  }

  ghost predicate Prints(w: World, lines: seq<seq<Byte>>) {
    IsClient(w, ME) && ClientOf(w, ME).printed == lines
  }

  lemma ArrivedPrints(w: World, w': World, lines: seq<seq<Byte>>)
    requires Inv(w') && Arrived(w, w', ME, lines) && w'.conns.Keys == {ME} && |lines| <= 100
    ensures Prints(w', lines)
  {
    hide RoomInv, ConnInv, By;
    var log := LogOf(w', ME);
    AuthorsAreHere(w');
    OneAuthor(log, ME);
    JoinedInside(w', ME);
    assert Frames(log)[0..] == Frames(log);
  }

  lemma AuthorsAreHere(w: World)
    requires Inv(w) && HasSession(w, ME) && w.conns.Keys == {ME}
    ensures forall e :: e in LogOf(w, ME) ==> e.author == ME
  {
    hide RoomInv, ConnInv;
    forall e | e in LogOf(w, ME) ensures e.author == ME {
      assert e.author in w.rooms[w.conns[ME].room].sessions;
      assert e.author in w.conns;
    }
  }

  lemma JoinedInside(w: World, c: ConnId)
    requires Inv(w) && HasSession(w, c)
    ensures SessionOf(w, c).joinedAt <= |LogOf(w, c)|
  {
  }
}
