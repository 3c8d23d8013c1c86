/** What the chat system guarantees in every run. */
module ChatProperties {
  import opened Codec
  import opened Framing
  import opened Endpoint
  import opened RoomSpec
  import opened ChatWorld
  import ClientSpec

  // ---------------------------------------------------------------- a session and its window of the log

  ghost predicate HasSession(w: World, c: ConnId) {
    c in w.conns && w.conns[c].room in w.rooms && c in w.rooms[w.conns[c].room].sessions
  }

  ghost function SessionOf(w: World, c: ConnId): Session
    requires HasSession(w, c)
  {
    w.rooms[w.conns[c].room].sessions[c]
  }

  ghost function LogOf(w: World, c: ConnId): seq<Entry<ConnId>>
    requires HasSession(w, c)
  {
    w.rooms[w.conns[c].room].log
  }

  /** The part of the log that session `c` was sent or will be sent. */
  ghost function WindowOf(w: World, c: ConnId): (r: seq<Frame>)
    requires HasSession(w, c)
  {
    var se, log := SessionOf(w, c), LogOf(w, c);
    if WindowStart(se.joinedAt) <= WindowEnd(se, |log|) <= |log|
    then Frames(log)[WindowStart(se.joinedAt)..WindowEnd(se, |log|)] else []
  }

  /** In every reachable state, the messages a session has finished sending
      followed by its queue are one window of the room's log: from a hundred
      messages before it joined, up to now while it is in the room, or up to the
      moment it left. */
  lemma {:induction false} SessionWindow(rooms: set<RoomId>, steps: seq<Step>, c: ConnId)
    requires HasSession(Run(rooms, steps), c)
    ensures var w := Run(rooms, steps);
            var se, log := SessionOf(w, c), LogOf(w, c);
            && WindowStart(se.joinedAt) <= WindowEnd(se, |log|) <= |log|
            && (c in w.rooms[w.conns[c].room].members <==> se.left == None)
            && se.writer.popped + se.writer.queue
               == Frames(log)[WindowStart(se.joinedAt)..WindowEnd(se, |log|)]
  {
    RunInv(rooms, steps);
  }

  // ---------------------------------------------------------------- end to end

  ghost predicate IsClient(w: World, c: ConnId) {
    c in w.conns && w.conns[c].peer.Honest?
  }

  ghost function ClientOf(w: World, c: ConnId): ClientSpec.Client
    requires IsClient(w, c)
  {
    w.conns[c].peer.client
  }

  lemma SentIsWindow(w: World, c: ConnId)
    requires Inv(w) && HasSession(w, c)
    ensures AllWellFormed(WindowOf(w, c)) && w.conns[c].down <= Concat(WindowOf(w, c))
  {
    hide RoomInv, Decode, By, ReaderInv;
    StreamIsPrefix(SessionOf(w, c).writer, w.conns[c].down);
  }

  /** The frames a client has read are a prefix of its session's window. */
  lemma ReadIsWindowPrefix(w: World, c: ConnId)
    requires Inv(w) && IsClient(w, c)
    ensures AllWellFormed(ClientOf(w, c).reader.emitted)
    ensures if HasSession(w, c)
            then AllWellFormed(WindowOf(w, c)) && w.conns[c].down <= Concat(WindowOf(w, c))
                 && ClientOf(w, c).reader.emitted <= WindowOf(w, c)
            else ClientOf(w, c).reader.emitted == [] && w.conns[c].down == []
  {
    hide RoomInv, Decode, By;
    var conn := w.conns[c];
    var read, received := conn.peer.client.reader.emitted, conn.down[..conn.downTaken];
    EmittedParses(conn.peer.client.reader, received);
    if HasSession(w, c) {
      SentIsWindow(w, c);
      ParsePrefix(WindowOf(w, c), received);
    } else {
      assert Parse(received) == [];
    }
  }

  /** End to end: in every run, with any chunking and any failures, what a client
      has printed are the bodies of one contiguous piece of the room's log, and
      that piece starts where the replay for its session started. */
  lemma {:induction false} PrintedIsLogWindow(rooms: set<RoomId>, steps: seq<Step>, c: ConnId)
    requires IsClient(Run(rooms, steps), c)
    ensures var w := Run(rooms, steps);
            var printed := ClientOf(w, c).printed;
            if HasSession(w, c) then
              var se, log := SessionOf(w, c), LogOf(w, c);
              var from := WindowStart(se.joinedAt);
              && from + |printed| <= WindowEnd(se, |log|) <= |log|
              && printed == Bodies(Frames(log)[from..from + |printed|])
            else printed == []
  {
    hide *;
    RunInv(rooms, steps);
    PrintedWindow(Run(rooms, steps), c);
  }

  lemma PrintedWindow(w: World, c: ConnId)
    requires Inv(w) && IsClient(w, c)
    ensures var printed := ClientOf(w, c).printed;
            if HasSession(w, c) then
              var se, log := SessionOf(w, c), LogOf(w, c);
              var from := WindowStart(se.joinedAt);
              && from + |printed| <= WindowEnd(se, |log|) <= |log|
              && printed == Bodies(Frames(log)[from..from + |printed|])
            else printed == []
  {
    hide RoomInv, Decode, By, ReaderInv, WriterInv;
    ReadIsWindowPrefix(w, c);
    var read := ClientOf(w, c).reader.emitted;
    if HasSession(w, c) {
      WindowBounds(w, c);
      SubPiece(LogOf(w, c), WindowStart(SessionOf(w, c).joinedAt), WindowOf(w, c), read);
    }
  }

  lemma WindowBounds(w: World, c: ConnId)
    requires Inv(w) && HasSession(w, c)
    ensures var se, log := SessionOf(w, c), LogOf(w, c);
            && WindowStart(se.joinedAt) <= WindowEnd(se, |log|) <= |log|
            && WindowOf(w, c) == Frames(log)[WindowStart(se.joinedAt)..WindowEnd(se, |log|)]
  {
  }

  lemma SubPiece(log: seq<Entry<ConnId>>, from: nat, window: seq<Frame>, read: seq<Frame>)
    requires from + |window| <= |log| && window == Frames(log)[from..from + |window|] && read <= window
    ensures read == Frames(log)[from..from + |read|]
  {
    assert read == window[..|read|];
  }

  /** Nothing is lost: once the session has sent all it was given without a
      failure, the client has taken every byte and handled every completion, it has
      printed the whole window of its session. */
  lemma {:induction false} PrintedAllAtRest(rooms: set<RoomId>, steps: seq<Step>, c: ConnId)
    requires IsClient(Run(rooms, steps), c) && HasSession(Run(rooms, steps), c)
    requires var w := Run(rooms, steps);
             && Current(SessionOf(w, c).writer) == []
             && w.conns[c].downTaken == |w.conns[c].down|
             && ClientOf(w, c).reader.phase != Stopped && !CanComplete(ClientOf(w, c).reader)
    ensures var w := Run(rooms, steps);
            ClientOf(w, c).printed == Bodies(WindowOf(w, c))
  {
    hide Run;
    RunInv(rooms, steps);
    ReadAllAtRest(Run(rooms, steps), c);
  }

  lemma ReadAllAtRest(w: World, c: ConnId)
    requires Inv(w) && IsClient(w, c) && HasSession(w, c)
    requires Current(SessionOf(w, c).writer) == [] && w.conns[c].downTaken == |w.conns[c].down|
    requires ClientOf(w, c).reader.phase != Stopped && !CanComplete(ClientOf(w, c).reader)
    ensures ClientOf(w, c).printed == Bodies(WindowOf(w, c))
  {
    hide RoomInv, Decode, By;
    var conn, wr := w.conns[c], SessionOf(w, c).writer;
    assert conn.down[..conn.downTaken] == conn.down;
    EmittedParses(ClientOf(w, c).reader, conn.down);
    SentIsWindow(w, c);
    assert wr.queue == [] && wr.popped + wr.queue == wr.popped;
    ParsePrefix(WindowOf(w, c), conn.down);
  }

  /** Two clients of a room print the same message for the same place in the log. */
  lemma {:induction false} ClientsAgree(rooms: set<RoomId>, steps: seq<Step>, a: ConnId, b: ConnId, i: nat, j: nat)
    requires var w := Run(rooms, steps);
             && IsClient(w, a) && IsClient(w, b) && w.conns[a].room == w.conns[b].room
             && HasSession(w, a) && HasSession(w, b)
             && i < |ClientOf(w, a).printed| && j < |ClientOf(w, b).printed|
             && WindowStart(SessionOf(w, a).joinedAt) + i == WindowStart(SessionOf(w, b).joinedAt) + j
    ensures var w := Run(rooms, steps);
            ClientOf(w, a).printed[i] == ClientOf(w, b).printed[j]
  {
    hide Run;
    PrintedIsLogWindow(rooms, steps, a);
    PrintedIsLogWindow(rooms, steps, b);
  }

  // ---------------------------------------------------------------- per sender

  /** What a session has read are bytes its peer sent, frame by frame. */
  lemma PublishedFromStream(w: World, c: ConnId)
    requires Inv(w) && HasSession(w, c)
    ensures AllWellFormed(By(LogOf(w, c), c))
    ensures By(LogOf(w, c), c) <= Parse(w.conns[c].up[..w.conns[c].upTaken])
    ensures Concat(By(LogOf(w, c), c)) <= w.conns[c].up
  {
    hide RoomInv, Decode, WriterInv;
    var conn := w.conns[c];
    EmittedParses(SessionOf(w, c).reader, conn.up[..conn.upTaken]);
    ConcatEmitted(SessionOf(w, c).reader, conn.up[..conn.upTaken]);
  }

  lemma ConcatEmitted(r: Reader, consumed: seq<Byte>)
    requires ReaderInv(r, consumed)
    ensures Concat(r.emitted) <= consumed
  {
  }

  lemma AuthorsTyped(w: World, c: ConnId)
    requires Inv(w) && IsClient(w, c) && HasSession(w, c)
    ensures By(LogOf(w, c), c) <= ClientOf(w, c).typed
  {
    hide RoomInv, Decode, ReaderInv, WriterInv, By;
    PublishedFromStream(w, c);
    var wr := ClientOf(w, c).writer;
    StreamIsPrefix(wr, w.conns[c].up);
    PrefixUnique(By(LogOf(w, c), c), wr.popped + wr.queue);
    assert wr.popped + wr.queue <= ClientOf(w, c).typed;
  }

  /** The lines of `main`'s loop at client `c` in a run: those of the steps that
      came while there was a client that went on reading its input. */
  ghost function LinesTyped(rooms: set<RoomId>, steps: seq<Step>, c: ConnId): seq<seq<Byte>> {
    if steps == [] then [] else
    var before := steps[..|steps| - 1];
    LinesTyped(rooms, before, c) + LineOf(Run(rooms, before), c, steps[|steps| - 1])
  }

  ghost function LineOf(w: World, c: ConnId, step: Step): seq<seq<Byte>> {
    match step
    case AtClient(j, TypeLine(line)) =>
      if j == c && IsClient(w, c) && !ClientOf(w, c).ended && |line| <= 512 then [line] else []
    case _ => []
  }

  /** Whether the loop of client `c` has come to the end of its input. */
  ghost predicate InputEnded(rooms: set<RoomId>, steps: seq<Step>, c: ConnId) {
    steps != [] &&
    var before := steps[..|steps| - 1];
    InputEnded(rooms, before, c) || (steps[|steps| - 1] == AtClient(c, EndInput) && IsClient(Run(rooms, before), c))
  }

  /** The client knows that its input has ended exactly when it has. */
  lemma {:induction false} EndedIsInputEnded(rooms: set<RoomId>, steps: seq<Step>, c: ConnId)
    ensures var w := Run(rooms, steps);
            InputEnded(rooms, steps, c) <==> IsClient(w, c) && ClientOf(w, c).ended
  {
    hide Next;
    if steps == [] {
      NoneInitially(rooms, c);
    } else {
      var before, last := steps[..|steps| - 1], steps[|steps| - 1];
      EndedIsInputEnded(rooms, before, c);
      EndedStep(Run(rooms, before), c, last);
    }
  }

  lemma EndedStep(w: World, c: ConnId, step: Step)
    ensures var w' := Next(w, step);
            (IsClient(w', c) && ClientOf(w', c).ended)
            <==> IsClient(w, c) && (ClientOf(w, c).ended || step == AtClient(c, EndInput))
  {
    hide ServerStep, ClientStep;
    if c in w.conns { SamePeer(w, c, step); }
    match step
    case AtClient(j, a) =>
      if j == c && IsClient(w, c) { OwnEnded(w.conns[c], a); }
    case AtServer(j, a) =>
      if j in w.conns && w.conns[j].room in w.rooms {
        ServerStepPeer(w.rooms[w.conns[j].room], w.conns[j], j, a);
      }
    case _ =>
  }

  lemma OwnEnded(conn: Conn, a: ClientAction)
    requires conn.peer.Honest?
    ensures var after := ClientStep(conn, a);
            after.peer.Honest? && (after.peer.client.ended <==> conn.peer.client.ended || a == EndInput)
  {
    hide Decode, Receive, Transmit, HeaderRead, BodyRead, Written, WriteError, Push, ClientSpec.MessageOfLine;
  }

  /** What is typed is what the loop was given, line by line, in every run. */
  lemma {:induction false} TypedAreLines(rooms: set<RoomId>, steps: seq<Step>, c: ConnId)
    ensures var w := Run(rooms, steps);
            LinesTyped(rooms, steps, c) == if IsClient(w, c) then Bodies(ClientOf(w, c).typed) else []
  {
    hide Next, Bodies, LineOf;
    if steps == [] {
      NoneInitially(rooms, c);
    } else {
      var before, last := steps[..|steps| - 1], steps[|steps| - 1];
      TypedAreLines(rooms, before, c);
      TypedStep(Run(rooms, before), c, last);
    }
  }

  lemma TypedStep(w: World, c: ConnId, step: Step)
    ensures var w' := Next(w, step);
            if IsClient(w, c) then
              IsClient(w', c) && Bodies(ClientOf(w', c).typed) == Bodies(ClientOf(w, c).typed) + LineOf(w, c, step)
            else
              LineOf(w, c, step) == [] && (IsClient(w', c) ==> Bodies(ClientOf(w', c).typed) == [])
  {
    hide ServerStep, ClientStep, LineOf;
    if c in w.conns { SamePeer(w, c, step); }
    match step
    case AtClient(j, a) =>
      if j == c && IsClient(w, c) { OwnTyped(w.conns[c], a); }
      LineOfClient(w, c, j, a);
    case AtServer(j, a) =>
      if j in w.conns && w.conns[j].room in w.rooms {
        ServerStepPeer(w.rooms[w.conns[j].room], w.conns[j], j, a);
      }
      LineOfOthers(w, c, step);
    case _ => LineOfOthers(w, c, step);
  }

  lemma LineOfOthers(w: World, c: ConnId, step: Step)
    ensures !step.AtClient? ==> LineOf(w, c, step) == []
  {
  }

  lemma LineOfClient(w: World, c: ConnId, j: ConnId, a: ClientAction)
    ensures LineOf(w, c, AtClient(j, a))
            == if j == c && IsClient(w, c) then TypedBy(ClientOf(w, c), a) else []
  {
  }

  function TypedBy(cl: ClientSpec.Client, a: ClientAction): seq<seq<Byte>> {
    if a.TypeLine? && !cl.ended && |a.line| <= 512 then [a.line] else []
  }

  lemma OwnTyped(conn: Conn, a: ClientAction)
    requires conn.peer.Honest?
    ensures var after := ClientStep(conn, a);
            after.peer.Honest?
            && Bodies(after.peer.client.typed)
               == Bodies(conn.peer.client.typed) + TypedBy(conn.peer.client, a)
  {
    hide Decode, Receive, Transmit, HeaderRead, BodyRead, Written, WriteError, Push, ClientSpec.MessageOfLine;
    if a.TypeLine? && |a.line| <= MAX_BODY_LENGTH {
      ClientSpec.LineWellFormed(a.line);
    }
  }

  /** Per-sender order: the log's messages from a client are, in order and
      without repetition, the first of the messages its `main` loop wrote. */
  lemma {:induction false} LoggedIsTypedPrefix(rooms: set<RoomId>, steps: seq<Step>, c: ConnId)
    requires IsClient(Run(rooms, steps), c) && HasSession(Run(rooms, steps), c)
    ensures var w := Run(rooms, steps);
            && By(LogOf(w, c), c) <= ClientOf(w, c).typed
            && Bodies(By(LogOf(w, c), c)) <= LinesTyped(rooms, steps, c)
  {
    hide Inv;
    RunInv(rooms, steps);
    AuthorsTyped(Run(rooms, steps), c);
    TypedAreLines(rooms, steps, c);
  }

  /** Once nothing is posted, the client's writes are done and the session has
      taken every byte and handled every completion, every typed message is logged. */
  lemma {:induction false} LoggedAllAtRest(rooms: set<RoomId>, steps: seq<Step>, c: ConnId)
    requires IsClient(Run(rooms, steps), c) && HasSession(Run(rooms, steps), c)
    requires var w := Run(rooms, steps);
             && ClientOf(w, c).posted == [] && Current(ClientOf(w, c).writer) == []
             && w.conns[c].upTaken == |w.conns[c].up|
             && SessionOf(w, c).reader.phase != Stopped && !CanComplete(SessionOf(w, c).reader)
    ensures var w := Run(rooms, steps);
            && By(LogOf(w, c), c) == ClientOf(w, c).typed
            && Bodies(By(LogOf(w, c), c)) == LinesTyped(rooms, steps, c)
  {
    hide Run;
    RunInv(rooms, steps);
    TypedAllAtRest(Run(rooms, steps), c);
    TypedAreLines(rooms, steps, c);
  }

  lemma TypedAllAtRest(w: World, c: ConnId)
    requires Inv(w) && IsClient(w, c) && HasSession(w, c)
    requires ClientOf(w, c).posted == [] && Current(ClientOf(w, c).writer) == []
    requires w.conns[c].upTaken == |w.conns[c].up|
    requires SessionOf(w, c).reader.phase != Stopped && !CanComplete(SessionOf(w, c).reader)
    ensures By(LogOf(w, c), c) == ClientOf(w, c).typed
  {
    hide RoomInv, Decode, By;
    var conn, wr := w.conns[c], ClientOf(w, c).writer;
    assert conn.up[..conn.upTaken] == conn.up;
    EmittedParses(SessionOf(w, c).reader, conn.up);
    StreamIsPrefix(wr, conn.up);
    assert wr.queue == [] && wr.popped + wr.queue == wr.popped;
    ParsePrefix(wr.popped, conn.up);
  }

  lemma {:induction false} BySplit<K>(log: seq<Entry<K>>, m: nat, k: K)
    requires m <= |log|
    ensures By(log, k) == By(log[..m], k) + By(log[m..], k)
  {
    if m == |log| {
      assert log[..m] == log && log[m..] == [];
    } else {
      var init := log[..|log| - 1];
      BySplit(init, m, k);
      assert init[..m] == log[..m] && log[m..][..|log| - m - 1] == init[m..];
    }
  }

  /** The messages of `b` among those that `a` has printed are consecutive ones of
      those typed at `b`, whose texts are `lines`, starting after those of `b` that
      the log holds before `a`'s window. */
  ghost predicate HearsInOrder(w: World, a: ConnId, b: ConnId, lines: seq<seq<Byte>>)
    requires IsClient(w, a) && IsClient(w, b) && HasSession(w, a)
  {
    var log, printed, typed := LogOf(w, a), ClientOf(w, a).printed, ClientOf(w, b).typed;
    var from := WindowStart(SessionOf(w, a).joinedAt);
    && from + |printed| <= |log|
    && var heard, skipped := log[from..from + |printed|], |By(log[..from], b)|;
       && printed == Bodies(Frames(heard))
       && skipped + |By(heard, b)| <= |typed| == |lines|
       && By(heard, b) == typed[skipped..skipped + |By(heard, b)|]
       && Bodies(By(heard, b)) == lines[skipped..skipped + |By(heard, b)|]
  }

  /** From keyboard to screen: the messages of client `b` among those that client
      `a` has printed are consecutive lines typed at `b`, in the order typed. */
  lemma {:induction false} HeardIsConsecutivelyTyped(rooms: set<RoomId>, steps: seq<Step>, a: ConnId, b: ConnId)
    requires var w := Run(rooms, steps);
             && IsClient(w, a) && IsClient(w, b) && w.conns[a].room == w.conns[b].room
             && HasSession(w, a) && HasSession(w, b)
    ensures HearsInOrder(Run(rooms, steps), a, b, LinesTyped(rooms, steps, b))
  {
    hide Run, Inv, LinesTyped, Bodies, By, Frames, ClientOf, SessionOf, HasSession, IsClient;
    TypedAreLines(rooms, steps, b);
    PrintedIsLogWindow(rooms, steps, a);
    LoggedIsTypedPrefix(rooms, steps, b);
    var w := Run(rooms, steps);
    var log, n := LogOf(w, a), |ClientOf(w, a).printed|;
    SameRoom(w, a, b);
    PieceOfTyped(log, WindowStart(SessionOf(w, a).joinedAt), n, b, ClientOf(w, b).typed);
    BodiesOfPieces(ClientOf(w, b).typed);
  }

  lemma BodiesOfPieces(fs: seq<Frame>)
    ensures |Bodies(fs)| == |fs|
    ensures forall i, j :: 0 <= i <= j <= |fs| ==> Bodies(fs[i..j]) == Bodies(fs)[i..j]
  {
  }

  lemma SameRoom(w: World, a: ConnId, b: ConnId)
    requires HasSession(w, a) && HasSession(w, b) && w.conns[a].room == w.conns[b].room
    ensures LogOf(w, a) == LogOf(w, b)
  {
  }

  lemma PieceOfTyped(log: seq<Entry<ConnId>>, from: nat, n: nat, k: ConnId, typed: seq<Frame>)
    requires from + n <= |log| && By(log, k) <= typed
    ensures Frames(log)[from..from + n] == Frames(log[from..from + n])
    ensures var heard, skipped := log[from..from + n], |By(log[..from], k)|;
            skipped + |By(heard, k)| <= |typed| && By(heard, k) == typed[skipped..skipped + |By(heard, k)|]
  {
    hide By;
    var to := from + n;
    BySplit(log, to, k);
    BySplit(log[..to], from, k);
    assert log[..to][..from] == log[..from] && log[..to][from..] == log[from..to];
    MiddlePiece(By(log[..from], k), By(log[from..to], k), By(log[to..], k), typed);
  }

  lemma MiddlePiece(a: seq<Frame>, b: seq<Frame>, c: seq<Frame>, typed: seq<Frame>)
    requires a + b + c <= typed
    ensures b == typed[|a|..|a| + |b|]
  {
    assert b == (a + b + c)[|a|..|a| + |b|];
  }

  // ---------------------------------------------------------------- relay

  /** Relay transparency, for any peer and any bytes it sends: every frame logged
      from a connection is a well-formed frame found in place in that
      connection's stream, byte for byte, and is what the stream means; and the
      bytes sent to a connection are a prefix of those of its window of the log. */
  lemma {:induction false} RelayIsTransparent(rooms: set<RoomId>, steps: seq<Step>, c: ConnId)
    requires HasSession(Run(rooms, steps), c)
    ensures var w := Run(rooms, steps);
            && AllWellFormed(By(LogOf(w, c), c))
            && By(LogOf(w, c), c) <= Parse(w.conns[c].up)
            && Concat(By(LogOf(w, c), c)) <= w.conns[c].up
            && w.conns[c].down <= Concat(WindowOf(w, c))
  {
    hide Inv;
    var w := Run(rooms, steps);
    RunInv(rooms, steps);
    PublishedFromStream(w, c);
    SentIsWindow(w, c);
    var fs := By(LogOf(w, c), c);
    var tail := w.conns[c].up[|Concat(fs)|..];
    assert w.conns[c].up == Concat(fs) + tail;
    ParseConcat(fs, tail);
  }

  /** No client ever rejects a complete header that came from the server. */
  lemma {:induction false} ClientNeverRejects(rooms: set<RoomId>, steps: seq<Step>, c: ConnId)
    requires IsClient(Run(rooms, steps), c)
    requires var r := ClientOf(Run(rooms, steps), c).reader; r.phase == Header && r.got == HEADER_LENGTH
    ensures var m := ClientOf(Run(rooms, steps), c).reader.msg;
            IsMessage(m) && Decode(m.data[..HEADER_LENGTH]).Some?
  {
    RunInv(rooms, steps);
    HeaderFromServer(Run(rooms, steps), c);
  }

  lemma HeaderFromServer(w: World, c: ConnId)
    requires Inv(w) && IsClient(w, c)
    requires ClientOf(w, c).reader.phase == Header && ClientOf(w, c).reader.got == HEADER_LENGTH
    ensures IsMessage(ClientOf(w, c).reader.msg)
    ensures Decode(ClientOf(w, c).reader.msg.data[..HEADER_LENGTH]).Some?
  {
    hide RoomInv, Decode, By, WriterInv;
    ReadIsWindowPrefix(w, c);
    var conn := w.conns[c];
    var window := if HasSession(w, c) then WindowOf(w, c) else [];
    CompleteHeaderDecodes(ClientOf(w, c).reader, conn.down[..conn.downTaken], window);
  }

  /** No session ever rejects a complete header that came from a `chat_client`. */
  lemma {:induction false} SessionNeverRejectsClient(rooms: set<RoomId>, steps: seq<Step>, c: ConnId)
    requires IsClient(Run(rooms, steps), c) && HasSession(Run(rooms, steps), c)
    requires var r := SessionOf(Run(rooms, steps), c).reader; r.phase == Header && r.got == HEADER_LENGTH
    ensures var m := SessionOf(Run(rooms, steps), c).reader.msg;
            IsMessage(m) && Decode(m.data[..HEADER_LENGTH]).Some?
  {
    RunInv(rooms, steps);
    HeaderFromClient(Run(rooms, steps), c);
  }

  lemma HeaderFromClient(w: World, c: ConnId)
    requires Inv(w) && IsClient(w, c) && HasSession(w, c)
    requires SessionOf(w, c).reader.phase == Header && SessionOf(w, c).reader.got == HEADER_LENGTH
    ensures IsMessage(SessionOf(w, c).reader.msg)
    ensures Decode(SessionOf(w, c).reader.msg.data[..HEADER_LENGTH]).Some?
  {
    hide RoomInv, Decode, By;
    var conn, wr := w.conns[c], ClientOf(w, c).writer;
    StreamIsPrefix(wr, conn.up);
    CompleteHeaderDecodes(SessionOf(w, c).reader, conn.up[..conn.upTaken], wr.popped + wr.queue);
  }

  // ---------------------------------------------------------------- lifetime

  /** The shared pointers to a session are the room's, the read handler's and the
      write handler's; a session is in the room exactly while it reads and no write
      of it has failed; one that has left and ended both chains is released. */
  lemma {:induction false} SessionLifetime(rooms: set<RoomId>, steps: seq<Step>, c: ConnId)
    requires HasSession(Run(rooms, steps), c)
    ensures var w := Run(rooms, steps);
            var se, member := SessionOf(w, c), c in w.rooms[w.conns[c].room].members;
            && se.refs == Count(member) + Count(se.reader.phase != Stopped) + |se.writer.ops|
            && (member <==> se.reader.phase != Stopped && se.writer.broken == [])
            && (se.refs == 0 <==> se.reader.phase == Stopped && se.writer.ops == [])
  {
    RunInv(rooms, steps);
  }

  /** A session that has been released is never touched again, in any
      continuation of the run. */
  lemma {:induction false} ReleasedIsUntouched(rooms: set<RoomId>, steps: seq<Step>, more: seq<Step>, c: ConnId)
    requires HasSession(Run(rooms, steps), c) && SessionOf(Run(rooms, steps), c).refs <= 0
    ensures HasSession(Run(rooms, steps + more), c)
    ensures SessionOf(Run(rooms, steps + more), c) == SessionOf(Run(rooms, steps), c)
  {
    hide Next;
    if more == [] {
      assert steps + more == steps;
    } else {
      var before, last := more[..|more| - 1], more[|more| - 1];
      ReleasedIsUntouched(rooms, steps, before, c);
      assert (steps + more)[..|steps + more| - 1] == steps + before;
      SessionLifetime(rooms, steps + before, c);
      ReleasedStep(Run(rooms, steps + before), c, last);
    }
  }

  lemma ReleasedStep(w: World, c: ConnId, step: Step)
    requires HasSession(w, c)
    requires c !in w.rooms[w.conns[c].room].members
    requires SessionOf(w, c).reader.phase == Stopped && SessionOf(w, c).writer.ops == []
    ensures HasSession(Next(w, step), c) && SessionOf(Next(w, step), c) == SessionOf(w, c)
  {
    hide ServerStep, ClientStep;
    match step
    case AtServer(j, a) =>
      if j in w.conns && w.conns[j].room in w.rooms {
        ServerStepConn'(w.rooms[w.conns[j].room], w.conns[j], j, a);
        if j == c {
          StoppedStep(w.rooms[w.conns[j].room], w.conns[j], j, a);
        } else if w.conns[j].room == w.conns[c].room {
          ServerStepOthers(w.rooms[w.conns[j].room], w.conns[j], j, a);
        }
      }
    case AtClient(j, a) =>
      if IsClient(w, j) { ClientStepRoom(w.conns[j], a); }
    case _ =>
  }

  lemma StoppedStep(room: Room<ConnId>, conn: Conn, c: ConnId, a: ServerAction)
    requires c in room.sessions
    requires room.sessions[c].reader.phase == Stopped && room.sessions[c].writer.ops == []
    ensures ServerStep(room, conn, c, a) == (room, conn)
  {
  }

  lemma ServerStepConn'(room: Room<ConnId>, conn: Conn, c: ConnId, a: ServerAction)
    ensures ServerStep(room, conn, c, a).1.room == conn.room
    ensures room.sessions.Keys <= ServerStep(room, conn, c, a).0.sessions.Keys
  {
    ServerStepOthers(room, conn, c, a);
  }

  lemma ClientStepRoom(conn: Conn, a: ClientAction)
    requires conn.peer.Honest?
    ensures ClientStep(conn, a).room == conn.room && ClientStep(conn, a).down == conn.down
  {
  }

  /** A client's socket is closed exactly when its read chain has ended, a write
      has failed, or the closing posted after its input has run. */
  lemma {:induction false} ClientCloses(rooms: set<RoomId>, steps: seq<Step>, c: ConnId)
    requires IsClient(Run(rooms, steps), c)
    ensures var cl := ClientOf(Run(rooms, steps), c);
            cl.closed <==> (cl.link == ClientSpec.Connected && cl.reader.phase == Stopped)
                           || cl.writer.broken != []
                           || (cl.ended && ClientSpec.PostClose !in cl.posted)
  {
    RunInv(rooms, steps);
  }

  // ---------------------------------------------------------------- when a step fails

  /** A read that fails, whatever was being read, closes the socket of a client and
      ends its reads; it loses nothing and sends nothing. */
  lemma {:induction false} FailedReadCloses(rooms: set<RoomId>, steps: seq<Step>, c: ConnId)
    requires IsClient(Run(rooms, steps), c) && ClientOf(Run(rooms, steps), c).reader.phase != Stopped
    ensures var w, w' := Run(rooms, steps), Run(rooms, steps + [AtClient(c, ClientRead(false))]);
            && IsClient(w', c) && w'.rooms == w.rooms
            && var cl, cl' := ClientOf(w, c), ClientOf(w', c);
               && cl'.closed && cl'.reader.phase == Stopped && cl'.reader.emitted == cl.reader.emitted
               && cl' == cl.(closed := true, reader := cl'.reader)
               && w'.conns[c] == w.conns[c].(peer := w'.conns[c].peer)
  {
    hide Run;
    RunThen(rooms, steps, [AtClient(c, ClientRead(false))]);
  }

  /** A write that fails closes the socket of a client and ends its writes. */
  lemma {:induction false} FailedWriteCloses(rooms: set<RoomId>, steps: seq<Step>, c: ConnId)
    requires IsClient(Run(rooms, steps), c) && ClientOf(Run(rooms, steps), c).writer.ops != []
    ensures var w, w' := Run(rooms, steps), Run(rooms, steps + [AtClient(c, ClientWrite(0, false))]);
            && IsClient(w', c) && w'.rooms == w.rooms
            && var cl, cl' := ClientOf(w, c), ClientOf(w', c);
               && cl'.closed && cl'.writer.ops == [] && cl'.writer.broken != []
               && cl'.writer.queue == cl.writer.queue && cl'.writer.popped == cl.writer.popped
               && cl' == cl.(closed := true, writer := cl'.writer)
  {
    hide Run;
    RunThen(rooms, steps, [AtClient(c, ClientWrite(0, false))]);
    WritesAreDisciplined(rooms, steps, c);
  }

  /** A connect that fails leaves the client without a connection, reading nothing. */
  lemma {:induction false} FailedConnect(rooms: set<RoomId>, steps: seq<Step>, c: ConnId)
    requires IsClient(Run(rooms, steps), c) && ClientOf(Run(rooms, steps), c).link == ClientSpec.Connecting
    ensures var w' := Run(rooms, steps + [AtClient(c, Connect(false))]);
            && IsClient(w', c) && ClientOf(w', c).link == ClientSpec.NoConnection
            && ClientOf(w', c).reader.phase == Stopped && ClientOf(w', c).printed == []
  {
    hide Run, Inv;
    RunThen(rooms, steps, [AtClient(c, Connect(false))]);
    RunInv(rooms, steps);
    Unconnected(Run(rooms, steps), c);
  }

  lemma Unconnected(w: World, c: ConnId)
    requires Inv(w) && IsClient(w, c) && ClientOf(w, c).link == ClientSpec.Connecting
    ensures ClientOf(w, c).reader.phase == Stopped && ClientOf(w, c).printed == []
  {
  }

  /** A read that fails takes a session out of its room and ends its reads; its
      writes and everybody else go on. */
  lemma {:induction false} FailedReadLeaves(rooms: set<RoomId>, steps: seq<Step>, c: ConnId)
    requires HasSession(Run(rooms, steps), c) && SessionOf(Run(rooms, steps), c).reader.phase != Stopped
    ensures var w, w' := Run(rooms, steps), Run(rooms, steps + [AtServer(c, ServerRead(false))]);
            && HasSession(w', c) && w'.conns == w.conns
            && SessionOf(w', c).reader.phase == Stopped && SessionOf(w', c).writer == SessionOf(w, c).writer
            && var room, room' := w.rooms[w.conns[c].room], w'.rooms[w.conns[c].room];
               && room'.members == room.members - {c}
               && room' == room.(members := room'.members, sessions := room.sessions[c := SessionOf(w', c)])
  {
    hide Run, Inv;
    RunThen(rooms, steps, [AtServer(c, ServerRead(false))]);
    RunInv(rooms, steps);
    ReaderHasMessage(Run(rooms, steps), c);
  }

  lemma ReaderHasMessage(w: World, c: ConnId)
    requires Inv(w) && HasSession(w, c)
    ensures IsMessage(SessionOf(w, c).reader.msg)
  {
  }

  /** A write that fails takes a session out of its room and ends its writes; it
      reads on, and everybody else goes on. */
  lemma {:induction false} FailedWriteLeaves(rooms: set<RoomId>, steps: seq<Step>, c: ConnId)
    requires HasSession(Run(rooms, steps), c) && SessionOf(Run(rooms, steps), c).writer.ops != []
    ensures var w, w' := Run(rooms, steps), Run(rooms, steps + [AtServer(c, ServerWrite(0, false))]);
            && HasSession(w', c) && w'.conns == w.conns
            && SessionOf(w', c).reader == SessionOf(w, c).reader
            && SessionOf(w', c).writer.ops == [] && SessionOf(w', c).writer.broken != []
            && var room, room' := w.rooms[w.conns[c].room], w'.rooms[w.conns[c].room];
               && room'.members == room.members - {c}
               && room' == room.(members := room'.members, sessions := room.sessions[c := SessionOf(w', c)])
  {
    hide Run;
    RunThen(rooms, steps, [AtServer(c, ServerWrite(0, false))]);
    WritesAreDisciplined(rooms, steps, c);
  }

  // ---------------------------------------------------------------- until a step fails

  ghost predicate ServerFailure(c: ConnId, step: Step) {
    match step
    case AtServer(j, ServerRead(ok)) => j == c && !ok
    case AtServer(j, ServerWrite(_, ok)) => j == c && !ok
    case _ => false
  }

  ghost predicate ClientFailure(c: ConnId, step: Step) {
    match step
    case AtClient(j, ClientRead(ok)) => j == c && !ok
    case AtClient(j, ClientWrite(_, ok)) => j == c && !ok
    case _ => false
  }

  /** The session of a client reads on until a read of it fails. */
  lemma {:induction false} SessionReadsOn(rooms: set<RoomId>, steps: seq<Step>, c: ConnId)
    requires IsClient(Run(rooms, steps), c) && HasSession(Run(rooms, steps), c)
    requires AtServer(c, ServerRead(false)) !in steps
    ensures SessionOf(Run(rooms, steps), c).reader.phase != Stopped
  {
    hide Next, Inv;
    if steps == [] {
      NoneInitially(rooms, c);
    } else {
      var w, last := Run(rooms, steps[..|steps| - 1]), steps[|steps| - 1];
      RunInv(rooms, steps[..|steps| - 1]);
      if HasSession(w, c) {
        SamePeer(w, c, last);
        SessionReadsOn(rooms, steps[..|steps| - 1], c);
        SessionHeaderIsGood(w, c);
        SessionStep(w, c, last);
      } else {
        NewSession(w, last, c);
      }
    }
  }

  lemma SessionHeaderIsGood(w: World, c: ConnId)
    requires Inv(w) && IsClient(w, c) && HasSession(w, c)
    ensures HeaderIsGood(SessionOf(w, c).reader)
  {
    hide Inv;
    var r := SessionOf(w, c).reader;
    if r.phase == Header && r.got == HEADER_LENGTH { HeaderFromClient(w, c); }
  }

  lemma ClientHeaderIsGood(w: World, c: ConnId)
    requires Inv(w) && IsClient(w, c)
    ensures HeaderIsGood(ClientOf(w, c).reader)
  {
    hide Inv;
    var r := ClientOf(w, c).reader;
    if r.phase == Header && r.got == HEADER_LENGTH { HeaderFromServer(w, c); }
  }

  lemma NoneInitially(rooms: set<RoomId>, c: ConnId)
    ensures c !in Run(rooms, []).conns
  {
  }

  /** Whether the program runs at the other end never changes. */
  lemma SamePeer(w: World, c: ConnId, step: Step)
    requires c in w.conns
    ensures c in Next(w, step).conns && (IsClient(Next(w, step), c) <==> IsClient(w, c))
  {
    hide ServerStep, ClientStep;
    match step
    case AtServer(j, a) =>
      if j in w.conns && w.conns[j].room in w.rooms {
        ServerStepPeer(w.rooms[w.conns[j].room], w.conns[j], j, a);
      }
    case AtClient(j, a) =>
      if IsClient(w, j) { ClientStepPeer(w.conns[j], a); }
    case _ =>
  }

  lemma ClientStepPeer(conn: Conn, a: ClientAction)
    requires conn.peer.Honest?
    ensures ClientStep(conn, a).peer.Honest?
  {
  }

  /** The session's outstanding read, if it is of a complete header, will be accepted. */
  ghost predicate HeaderIsGood(r: Reader) {
    r.phase == Header && r.got == HEADER_LENGTH ==> IsMessage(r.msg) && Decode(r.msg.data[..HEADER_LENGTH]).Some?
  }

  /** What one step of anyone leaves of a session, unless it is a failure of its own. */
  lemma SessionStep(w: World, c: ConnId, step: Step)
    requires HasSession(w, c)
    ensures HasSession(Next(w, step), c)
    ensures HeaderIsGood(SessionOf(w, c).reader) && step != AtServer(c, ServerRead(false))
            && SessionOf(w, c).reader.phase != Stopped ==>
              SessionOf(Next(w, step), c).reader.phase != Stopped
    ensures !ServerFailure(c, step) ==>
              SessionOf(Next(w, step), c).writer.broken == SessionOf(w, c).writer.broken
  {
    hide ServerStep, ClientStep, HeaderIsGood;
    if step.AtServer? {
      var j, a := step.c, step.serverAction;
      if j in w.conns && w.conns[j].room in w.rooms {
        var room, conn := w.rooms[w.conns[j].room], w.conns[j];
        ServerStepConn'(room, conn, j, a);
        if j == c {
          OwnStep(room, conn, c, a);
        } else if conn.room == w.conns[c].room {
          OthersStep(room, conn, j, a, c);
        }
      }
    } else {
      RoomsUntouched(w, step);
    }
  }

  lemma OwnStep(room: Room<ConnId>, conn: Conn, c: ConnId, a: ServerAction)
    requires c in room.sessions
    ensures var (se, room') := (room.sessions[c], ServerStep(room, conn, c, a).0);
            && c in room'.sessions
            && (a != ServerRead(false) && se.reader.phase != Stopped && HeaderIsGood(se.reader) ==>
                  room'.sessions[c].reader.phase != Stopped)
            && (!(a.ServerWrite? && !a.ok) ==> room'.sessions[c].writer.broken == se.writer.broken)
  {
    hide Decode, Overwrite;
  }

  lemma OthersStep(room: Room<ConnId>, conn: Conn, j: ConnId, a: ServerAction, c: ConnId)
    requires c in room.sessions && c != j
    ensures var room' := ServerStep(room, conn, j, a).0;
            && c in room'.sessions
            && room'.sessions[c].reader == room.sessions[c].reader
            && room'.sessions[c].writer.broken == room.sessions[c].writer.broken
  {
    hide ServerStep, Decode;
    ServerStepOthers(room, conn, j, a);
  }

  lemma {:induction false} UnfailedWrites(rooms: set<RoomId>, steps: seq<Step>, c: ConnId)
    requires HasSession(Run(rooms, steps), c) && forall s :: s in steps ==> !ServerFailure(c, s)
    ensures SessionOf(Run(rooms, steps), c).writer.broken == []
  {
    hide Next, Inv, ServerFailure;
    if steps == [] {
      NoneInitially(rooms, c);
    } else {
      var w, last := Run(rooms, steps[..|steps| - 1]), steps[|steps| - 1];
      RunInv(rooms, steps[..|steps| - 1]);
      if HasSession(w, c) {
        UnfailedWrites(rooms, steps[..|steps| - 1], c);
        SessionStep(w, c, last);
      } else {
        NewSession(w, last, c);
      }
    }
  }

  /** The session of a client stays in its room until a step of its own fails. */
  lemma {:induction false} SessionStays(rooms: set<RoomId>, steps: seq<Step>, c: ConnId)
    requires IsClient(Run(rooms, steps), c) && HasSession(Run(rooms, steps), c)
    requires forall s :: s in steps ==> !ServerFailure(c, s)
    ensures var w := Run(rooms, steps);
            && c in w.rooms[w.conns[c].room].members
            && SessionOf(w, c).left == None && SessionOf(w, c).refs >= 2
  {
    hide Run, Inv;
    assert AtServer(c, ServerRead(false)) !in steps;
    SessionReadsOn(rooms, steps, c);
    UnfailedWrites(rooms, steps, c);
    SessionLifetime(rooms, steps, c);
    SessionWindow(rooms, steps, c);
  }

  /** What one step leaves of a client, unless it is a failure of its own. */
  lemma ClientGoesOn(w: World, c: ConnId, step: Step)
    requires IsClient(w, c)
    ensures var w' := Next(w, step);
            && IsClient(w', c)
            && (HeaderIsGood(ClientOf(w, c).reader) && step != AtClient(c, ClientRead(false))
                && (ClientOf(w, c).link == ClientSpec.Connected ==> ClientOf(w, c).reader.phase != Stopped)
                && ClientOf(w', c).link == ClientSpec.Connected ==>
                  ClientOf(w', c).reader.phase != Stopped)
            && (!ClientFailure(c, step) ==> ClientOf(w', c).writer.broken == ClientOf(w, c).writer.broken)
  {
    hide ServerStep, ClientStep, HeaderIsGood;
    match step
    case AtServer(j, a) =>
      if j in w.conns && w.conns[j].room in w.rooms {
        ServerStepPeer(w.rooms[w.conns[j].room], w.conns[j], j, a);
      }
    case AtClient(j, a) =>
      if j == c { OwnClientStep(w.conns[c], a); }
    case _ =>
  }

  lemma OwnClientStep(conn: Conn, a: ClientAction)
    requires conn.peer.Honest?
    ensures var cl, conn' := conn.peer.client, ClientStep(conn, a);
            && conn'.peer.Honest?
            && var cl' := conn'.peer.client;
               && (HeaderIsGood(cl.reader) && a != ClientRead(false)
                   && (cl.link == ClientSpec.Connected ==> cl.reader.phase != Stopped)
                   && cl'.link == ClientSpec.Connected ==>
                     cl'.reader.phase != Stopped)
               && (!(a.ClientWrite? && !a.ok) ==> cl'.writer.broken == cl.writer.broken)
  {
    hide Decode, Overwrite;
  }

  /** A connected client reads on until a read of it fails. */
  lemma {:induction false} ClientReadsOn(rooms: set<RoomId>, steps: seq<Step>, c: ConnId)
    requires IsClient(Run(rooms, steps), c) && ClientOf(Run(rooms, steps), c).link == ClientSpec.Connected
    requires AtClient(c, ClientRead(false)) !in steps
    ensures ClientOf(Run(rooms, steps), c).reader.phase != Stopped
  {
    hide Next, Inv;
    if steps == [] {
      NoneInitially(rooms, c);
    } else {
      var w, last := Run(rooms, steps[..|steps| - 1]), steps[|steps| - 1];
      RunInv(rooms, steps[..|steps| - 1]);
      if IsClient(w, c) {
        if ClientOf(w, c).link == ClientSpec.Connected { ClientReadsOn(rooms, steps[..|steps| - 1], c); }
        ClientHeaderIsGood(w, c);
        ClientGoesOn(w, c, last);
      } else {
        NewClientConnects(w, c, last);
      }
    }
  }

  lemma NewClientConnects(w: World, c: ConnId, step: Step)
    requires !IsClient(w, c) && IsClient(Next(w, step), c)
    ensures ClientOf(Next(w, step), c).link == ClientSpec.Connecting
    ensures ClientOf(Next(w, step), c).writer.broken == []
  {
    if c in w.conns { SamePeer(w, c, step); }
    hide ServerStep, ClientStep;
  }

  /** A client's socket stays open until a step of its own fails or the closing
      posted after its input has run. */
  lemma {:induction false} ClientStaysOpen(rooms: set<RoomId>, steps: seq<Step>, c: ConnId)
    requires IsClient(Run(rooms, steps), c)
    requires forall s :: s in steps ==> !ClientFailure(c, s)
    ensures var cl := ClientOf(Run(rooms, steps), c);
            cl.closed <==> cl.ended && ClientSpec.PostClose !in cl.posted
  {
    hide Run, Inv;
    assert AtClient(c, ClientRead(false)) !in steps;
    if ClientOf(Run(rooms, steps), c).link == ClientSpec.Connected { ClientReadsOn(rooms, steps, c); }
    UnfailedClientWrites(rooms, steps, c);
    ClientCloses(rooms, steps, c);
  }

  lemma {:induction false} UnfailedClientWrites(rooms: set<RoomId>, steps: seq<Step>, c: ConnId)
    requires IsClient(Run(rooms, steps), c) && forall s :: s in steps ==> !ClientFailure(c, s)
    ensures ClientOf(Run(rooms, steps), c).writer.broken == []
  {
    hide Next, ClientFailure;
    if steps == [] {
      NoneInitially(rooms, c);
    } else {
      var w, last := Run(rooms, steps[..|steps| - 1]), steps[|steps| - 1];
      if IsClient(w, c) {
        UnfailedClientWrites(rooms, steps[..|steps| - 1], c);
        ClientGoesOn(w, c, last);
      } else {
        NewClientConnects(w, c, last);
      }
    }
  }

  // ---------------------------------------------------------------- history

  /** What the history of a session may become in one step or many. */
  ghost predicate HistoryContinues(w: World, w': World, c: ConnId) {
    && HasSession(w, c) && HasSession(w', c)
    && LogOf(w, c) <= LogOf(w', c)
    && SessionOf(w', c).joinedAt == SessionOf(w, c).joinedAt
    && (SessionOf(w, c).left.Some? ==> SessionOf(w', c).left == SessionOf(w, c).left)
    && (SessionOf(w, c).left == None && SessionOf(w', c).left.Some? ==>
          |LogOf(w, c)| <= SessionOf(w', c).left.value <= |LogOf(w', c)|)
  }

  /** The recorded history is what it says: whatever steps follow, of anyone, the
      log only grows, and a session's places of joining and leaving, once
      recorded, never change. */
  lemma {:induction false} HistoryIsKept(rooms: set<RoomId>, steps: seq<Step>, more: seq<Step>, c: ConnId)
    requires HasSession(Run(rooms, steps), c)
    ensures HistoryContinues(Run(rooms, steps), Run(rooms, steps + more), c)
  {
    hide Next, Inv;
    if more == [] {
      assert steps + more == steps;
    } else {
      var before, last := more[..|more| - 1], more[|more| - 1];
      HistoryIsKept(rooms, steps, before, c);
      assert (steps + more)[..|steps + more| - 1] == steps + before;
      RunInv(rooms, steps + before);
      HistoryStep(Run(rooms, steps + before), c, last);
    }
  }

  /** In one step a session leaves, if it does, at the current end of the log. */
  lemma HistoryStep(w: World, c: ConnId, step: Step)
    requires Inv(w) && HasSession(w, c)
    ensures HistoryContinues(w, Next(w, step), c)
    ensures SessionOf(Next(w, step), c).left in {SessionOf(w, c).left, Some(|LogOf(w, c)|)}
  {
    hide ServerStep, ClientStep;
    if step.AtServer? {
      SessionMembership(w, c);
      hide Inv;
      ServerHistory(w, c, step.c, step.serverAction);
    } else {
      hide Inv;
      RoomsUntouched(w, step);
    }
  }

  /** Only steps of the server program change a room; none changes a connection's room. */
  lemma RoomsUntouched(w: World, step: Step)
    requires !step.AtServer?
    ensures Next(w, step).rooms == w.rooms
    ensures forall j :: j in w.conns ==> j in Next(w, step).conns && Next(w, step).conns[j].room == w.conns[j].room
    ensures step.AtClient? ==> Next(w, step).conns.Keys == w.conns.Keys
  {
    hide ServerStep, ClientStep;
    if step.AtClient? && IsClient(w, step.c) {
      ClientStepRoom(w.conns[step.c], step.clientAction);
    }
  }

  lemma ServerHistory(w: World, c: ConnId, j: ConnId, a: ServerAction)
    requires HasSession(w, c)
    requires c in w.rooms[w.conns[c].room].members <==> SessionOf(w, c).left == None
    ensures HistoryContinues(w, Next(w, AtServer(j, a)), c)
    ensures SessionOf(Next(w, AtServer(j, a)), c).left in {SessionOf(w, c).left, Some(|LogOf(w, c)|)}
  {
    hide ServerStep;
    if j in w.conns && w.conns[j].room in w.rooms {
      var room, conn := w.rooms[w.conns[j].room], w.conns[j];
      ServerStepConn'(room, conn, j, a);
      if j == c {
        OwnHistory(room, conn, c, a);
      } else if conn.room == w.conns[c].room {
        OthersHistory(room, conn, j, a, c);
      }
    }
  }

  lemma SessionMembership(w: World, c: ConnId)
    requires Inv(w) && HasSession(w, c)
    ensures c in w.rooms[w.conns[c].room].members <==> SessionOf(w, c).left == None
  {
  }

  lemma OthersHistory(room: Room<ConnId>, conn: Conn, j: ConnId, a: ServerAction, c: ConnId)
    requires c in room.sessions && c != j
    ensures var room' := ServerStep(room, conn, j, a).0;
            && c in room'.sessions && room.log <= room'.log
            && room'.sessions[c].joinedAt == room.sessions[c].joinedAt
            && room'.sessions[c].left == room.sessions[c].left
  {
    hide ServerStep, Decode;
    ServerStepOthers(room, conn, j, a);
  }

  /** A session is recorded as joining at the current end of its room's log. */
  lemma {:induction false} JoinsAtEndOfLog(rooms: set<RoomId>, steps: seq<Step>, step: Step, c: ConnId)
    requires !HasSession(Run(rooms, steps), c) && HasSession(Run(rooms, steps + [step]), c)
    ensures var w' := Run(rooms, steps + [step]);
            SessionOf(w', c).joinedAt == |LogOf(w', c)| && SessionOf(w', c).left == None
  {
    RunInv(rooms, steps);
    var w := Run(rooms, steps);
    assert (steps + [step])[..|steps|] == steps;
    assert Run(rooms, steps + [step]) == Next(w, step);
    NewSession(w, step, c);
  }

  lemma NewSession(w: World, step: Step, c: ConnId)
    requires Inv(w) && !HasSession(w, c) && HasSession(Next(w, step), c)
    ensures var w' := Next(w, step);
            && SessionOf(w', c).joinedAt == |LogOf(w', c)| && SessionOf(w', c).left == None
            && SessionOf(w', c).reader.phase == Header && SessionOf(w', c).writer.broken == []
  {
    hide RoomInv, ClientSide, ServerSide, ServerStep, ClientStep;
    if step.AtServer? {
      var j, a := step.c, step.serverAction;
      ServerStepConn'(w.rooms[w.conns[j].room], w.conns[j], j, a);
      ServerStepOthers(w.rooms[w.conns[j].room], w.conns[j], j, a);
      assert j == c && a.Accept?;
      AcceptedHistory(w.rooms[w.conns[c].room], w.conns[c], c, a.junk);
    } else {
      NoNewSession(w, step, c);
    }
  }

  lemma NoNewSession(w: World, step: Step, c: ConnId)
    requires Inv(w) && !step.AtServer?
    ensures HasSession(Next(w, step), c) ==> HasSession(w, c)
  {
    hide RoomInv, ClientSide, ServerSide, ClientStep;
    RoomsUntouched(w, step);
  }

  lemma AcceptedHistory(room: Room<ConnId>, conn: Conn, c: ConnId, junk: Message)
    requires c !in room.sessions && IsMessage(junk)
    ensures var room' := ServerStep(room, conn, c, Accept(junk)).0;
            c in room'.sessions && room'.log == room.log
            && room'.sessions[c].joinedAt == |room.log| && room'.sessions[c].left == None
            && room'.sessions[c].reader.phase == Header && room'.sessions[c].writer.broken == []
  {
    StartedSession(room, c, junk);
  }

  lemma OwnHistory(room: Room<ConnId>, conn: Conn, c: ConnId, a: ServerAction)
    requires c in room.sessions && (c in room.members <==> room.sessions[c].left == None)
    ensures var (room', conn') := ServerStep(room, conn, c, a);
            && conn'.room == conn.room
            && room.log <= room'.log
            && c in room'.sessions
            && room'.sessions[c].joinedAt == room.sessions[c].joinedAt
            && room'.sessions[c].left in {room.sessions[c].left, Some(|room.log|)}
            && (room.sessions[c].left.Some? ==> room'.sessions[c].left == room.sessions[c].left)
  {
    hide Decode, Push, Written, WriteError, Receive, Transmit;
  }

  // ---------------------------------------------------------------- write discipline

  /** Server and client alike: at most one `async_write` is outstanding, it
      carries the unchanged front of the queue, the queue is non-empty exactly
      when a write is outstanding or one has failed, and after a failure none is
      outstanding. */
  ghost predicate WriteDiscipline(wr: Writer) {
    && |wr.ops| + |wr.broken| <= 1
    && (wr.ops != [] ==> wr.queue != [] && wr.ops[0].buffer == wr.queue[0])
    && (wr.queue != [] <==> wr.ops != [] || wr.broken != [])
  }

  lemma InvGivesDiscipline(wr: Writer, stream: seq<Byte>)
    requires WriterInv(wr, stream)
    ensures WriteDiscipline(wr)
  {
    assert wr.ops != [] ==> Current(wr)[0] == wr.ops[0];
    assert wr.broken != [] ==> Current(wr) != [];
  }

  lemma {:induction false} WritesAreDisciplined(rooms: set<RoomId>, steps: seq<Step>, c: ConnId)
    ensures var w := Run(rooms, steps);
            && (HasSession(w, c) ==> WriteDiscipline(SessionOf(w, c).writer))
            && (IsClient(w, c) ==> WriteDiscipline(ClientOf(w, c).writer))
  {
    hide RoomInv, ReaderInv, WriterInv, By, Frames, Decode, Run;
    RunInv(rooms, steps);
    var w := Run(rooms, steps);
    if HasSession(w, c) { InvGivesDiscipline(SessionOf(w, c).writer, w.conns[c].down); }
    if IsClient(w, c) { InvGivesDiscipline(ClientOf(w, c).writer, w.conns[c].up); }
  }

  /** Once a write has failed, at either end, no write is ever started again and
      not one more byte is sent, whatever else happens. */
  lemma {:induction false} SilentAfterFailure(rooms: set<RoomId>, steps: seq<Step>, more: seq<Step>, c: ConnId)
    ensures var w, w' := Run(rooms, steps), Run(rooms, steps + more);
            && (HasSession(w, c) && SessionOf(w, c).writer.broken != [] ==>
                  && HasSession(w', c)
                  && SessionOf(w', c).writer.broken != [] && SessionOf(w', c).writer.ops == []
                  && w'.conns[c].down == w.conns[c].down)
            && (IsClient(w, c) && ClientOf(w, c).writer.broken != [] ==>
                  && IsClient(w', c)
                  && ClientOf(w', c).writer.broken != [] && ClientOf(w', c).writer.ops == []
                  && w'.conns[c].up == w.conns[c].up)
  {
    hide RoomInv, WriterInv, ReaderInv, By, Decode, Next;
    WritesAreDisciplined(rooms, steps + more, c);
    if more == [] {
      assert steps + more == steps;
    } else {
      var before, last := more[..|more| - 1], more[|more| - 1];
      SilentAfterFailure(rooms, steps, before, c);
      assert (steps + more)[..|steps + more| - 1] == steps + before;
      var w := Run(rooms, steps + before);
      if HasSession(w, c) && SessionOf(w, c).writer.ops == [] { BrokenNext(w, c, last); }
      if IsClient(w, c) && ClientOf(w, c).writer.ops == [] { BrokenClientNext(w, c, last); }
    }
  }

  lemma BrokenClientNext(w: World, c: ConnId, step: Step)
    requires IsClient(w, c) && ClientOf(w, c).writer.ops == []
    ensures var w' := Next(w, step);
            && IsClient(w', c)
            && ClientOf(w', c).writer.broken == ClientOf(w, c).writer.broken
            && w'.conns[c].up == w.conns[c].up
  {
    hide ServerStep, ClientStep;
    match step
    case AtServer(j, a) =>
      if j in w.conns && w.conns[j].room in w.rooms {
        ServerStepPeer(w.rooms[w.conns[j].room], w.conns[j], j, a);
      }
    case AtClient(j, a) =>
      if j == c { BrokenClientStep(w.conns[c], a); }
    case _ =>
  }

  lemma ServerStepPeer(room: Room<ConnId>, conn: Conn, c: ConnId, a: ServerAction)
    ensures ServerStep(room, conn, c, a).1.peer == conn.peer && ServerStep(room, conn, c, a).1.up == conn.up
  {
  }

  lemma BrokenClientStep(conn: Conn, a: ClientAction)
    requires conn.peer.Honest? && conn.peer.client.writer.ops == []
    ensures var after := ClientStep(conn, a);
            && after.peer.Honest? && after.up == conn.up
            && after.peer.client.writer.broken == conn.peer.client.writer.broken
  {
    hide Decode, Receive;
  }

  lemma BrokenNext(w: World, c: ConnId, step: Step)
    requires HasSession(w, c) && SessionOf(w, c).writer.ops == []
    ensures var w' := Next(w, step);
            && HasSession(w', c)
            && SessionOf(w', c).writer.broken == SessionOf(w, c).writer.broken
            && w'.conns[c].down == w.conns[c].down
  {
    hide ServerStep, ClientStep;
    var room, conn := w.rooms[w.conns[c].room], w.conns[c];
    match step
    case AtServer(j, a) =>
      if j in w.conns && w.conns[j].room in w.rooms {
        ServerStepConn'(w.rooms[w.conns[j].room], w.conns[j], j, a);
        if j == c {
          BrokenStep(room, conn, c, a);
        } else if w.conns[j].room == conn.room {
          OthersStayBroken(room, w.conns[j], j, a, c);
        }
      }
    case AtClient(j, a) =>
      if IsClient(w, j) { ClientStepRoom(w.conns[j], a); }
    case _ =>
  }

  lemma OthersStayBroken(room: Room<ConnId>, conn: Conn, j: ConnId, a: ServerAction, c: ConnId)
    requires c in room.sessions && c != j
    ensures var room' := ServerStep(room, conn, j, a).0;
            && c in room'.sessions
            && room'.sessions[c].writer.broken == room.sessions[c].writer.broken
  {
    hide ServerStep, Decode;
    ServerStepOthers(room, conn, j, a);
  }

  lemma BrokenStep(room: Room<ConnId>, conn: Conn, c: ConnId, a: ServerAction)
    requires c in room.sessions && room.sessions[c].writer.ops == []
    ensures var (room', conn') := ServerStep(room, conn, c, a);
            && c in room'.sessions
            && room'.sessions[c].writer.broken == room.sessions[c].writer.broken
            && conn'.down == conn.down
  {
    hide Decode, Receive, Transmit, Written, WriteError;
  }

  // ---------------------------------------------------------------- publishing from outside

  /** A session outside the room cannot be relied on to be silent: in every run a
      session that is about to publish does publish, to everyone in the room, and
      it is outside the room exactly when one of its writes has failed. */
  lemma {:induction false} LeftSessionStillPublishes(rooms: set<RoomId>, steps: seq<Step>, c: ConnId)
    requires HasSession(Run(rooms, steps), c)
    requires var r := SessionOf(Run(rooms, steps), c).reader; r.phase == Body && CanComplete(r)
    ensures var w, w' := Run(rooms, steps), Run(rooms, steps + [AtServer(c, ServerRead(true))]);
            && (c !in w.rooms[w.conns[c].room].members <==> SessionOf(w, c).writer.broken != [])
            && HasSession(w', c) && w'.conns[c].room == w.conns[c].room
            && LogOf(w', c) == LogOf(w, c) + [Entry(c, FrameOf(SessionOf(w, c).reader.msg))]
            && w'.rooms[w'.conns[c].room].members == w.rooms[w.conns[c].room].members
            && SessionOf(w', c).reader.phase == Header
  {
    hide Decode, Push;
    SessionLifetime(rooms, steps, c);
    var w := Run(rooms, steps);
    assert (steps + [AtServer(c, ServerRead(true))])[..|steps|] == steps;
    PublishStep(w.rooms[w.conns[c].room], w.conns[c], c);
  }

  lemma PublishStep(room: Room<ConnId>, conn: Conn, c: ConnId)
    requires c in room.sessions
    requires room.sessions[c].reader.phase == Body && CanComplete(room.sessions[c].reader)
    ensures var (room', conn') := ServerStep(room, conn, c, ServerRead(true));
            && conn' == conn && c in room'.sessions
            && room'.log == room.log + [Entry(c, FrameOf(room.sessions[c].reader.msg))]
            && room'.members == room.members
            && room'.sessions[c].reader.phase == Header
  {
    hide Decode, Push;
  }

  // ---------------------------------------------------------------- room isolation

  /** Whether the step, taken in state `w`, belongs to room `r`. */
  ghost predicate Concerns(w: World, r: RoomId, step: Step) {
    match step
    case Open(c, room, _, _) => room == r && c !in w.conns
    case ForeignSends(c, _) => c in w.conns && w.conns[c].room == r
    case AtClient(c, _) => c in w.conns && w.conns[c].room == r
    case AtServer(c, _) => c in w.conns && w.conns[c].room == r
  }

  /** The steps of a run that belong to room `r`. */
  ghost function Only(rooms: set<RoomId>, steps: seq<Step>, r: RoomId): seq<Step> {
    if steps == [] then [] else
    var before := steps[..|steps| - 1];
    Only(rooms, before, r)
      + if Concerns(Run(rooms, before), r, steps[|steps| - 1]) then [steps[|steps| - 1]] else []
  }

  /** `v` is what `w` looks like from room `r`. */
  ghost predicate SameRoomView(w: World, v: World, r: RoomId) {
    && r in w.rooms && r in v.rooms && v.rooms[r] == w.rooms[r]
    && (forall c :: c in v.conns <==> c in w.conns && w.conns[c].room == r)
    && (forall c :: c in v.conns ==> v.conns[c] == w.conns[c])
  }

  /** Room isolation: a room, its sessions and its clients are in the state that
      the steps of that room alone produce, whatever happens in other rooms. */
  lemma {:induction false} RoomsAreIsolated(rooms: set<RoomId>, steps: seq<Step>, r: RoomId)
    requires r in rooms
    ensures SameRoomView(Run(rooms, steps), Run(rooms, Only(rooms, steps, r)), r)
  {
    if steps != [] {
      var before, last := steps[..|steps| - 1], steps[|steps| - 1];
      RoomsAreIsolated(rooms, before, r);
      var w, v := Run(rooms, before), Run(rooms, Only(rooms, before, r));
      if Concerns(w, r, last) {
        var only := Only(rooms, before, r) + [last];
        assert only[..|only| - 1] == Only(rooms, before, r);
        SameEffect(w, v, r, last);
      } else {
        assert Only(rooms, steps, r) == Only(rooms, before, r);
        NoEffect(w, r, last);
      }
    }
  }

  lemma SameEffect(w: World, v: World, r: RoomId, step: Step)
    requires SameRoomView(w, v, r) && Concerns(w, r, step)
    ensures SameRoomView(Next(w, step), Next(v, step), r)
  {
    hide ServerStep, ClientStep;
    match step
    case AtServer(j, a) => ServerStepConn'(w.rooms[r], w.conns[j], j, a);
    case AtClient(j, a) => if IsClient(w, j) { ClientStepRoom(w.conns[j], a); }
    case _ =>
  }

  lemma NoEffect(w: World, r: RoomId, step: Step)
    requires r in w.rooms && !Concerns(w, r, step)
    ensures var w' := Next(w, step);
            && r in w'.rooms && w'.rooms[r] == w.rooms[r]
            && forall c :: (c in w'.conns && w'.conns[c].room == r <==> c in w.conns && w.conns[c].room == r)
                           && (c in w.conns && w.conns[c].room == r ==> w'.conns[c] == w.conns[c])
  {
    hide ServerStep, ClientStep;
    match step
    case AtServer(j, a) =>
      if j in w.conns && w.conns[j].room in w.rooms {
        ServerStepConn'(w.rooms[w.conns[j].room], w.conns[j], j, a);
      }
    case AtClient(j, a) => if IsClient(w, j) { ClientStepRoom(w.conns[j], a); }
    case _ =>
  }

  /** Every room keeps exactly the last hundred of the messages delivered to it. */
  lemma {:induction false} RecentIsLastHundred(rooms: set<RoomId>, steps: seq<Step>, r: RoomId)
    requires r in Run(rooms, steps).rooms
    ensures var room := Run(rooms, steps).rooms[r];
            && room.recent == Frames(room.log)[WindowStart(|room.log|)..]
            && |room.recent| == if |room.log| < MAX_RECENT then |room.log| else MAX_RECENT
  {
    RunInv(rooms, steps);
  }
}
