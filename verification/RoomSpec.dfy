/** A chat room and its sessions as values: what each handler of
    `chat_server.cpp` does to them. `K` identifies sessions. */
module RoomSpec {
  import opened Codec
  import opened Framing
  import opened Endpoint

  const MAX_RECENT := 100

  /** A message delivered to the room and the session it was read by. */
  datatype Entry<K> = Entry(author: K, frame: Frame)

  /** `refs` counts the shared pointers that own the session. `joinedAt` and
      `left` record the length of the room's log when it joined and left. */
  datatype Session = Session(reader: Reader, writer: Writer, refs: int, joinedAt: nat, left: Option<nat>)

  /** `recent` is `_recent_msgs`, `members` is `_participants`; `log` is the
      history of everything delivered, `sessions` every session ever started. */
  datatype Room<K> = Room(log: seq<Entry<K>>, recent: seq<Frame>, members: set<K>, sessions: map<K, Session>)

  function Frames<K>(log: seq<Entry<K>>): (r: seq<Frame>)
    ensures |r| == |log| && forall i :: 0 <= i < |log| ==> r[i] == log[i].frame
  {
    seq(|log|, i requires 0 <= i < |log| => log[i].frame)
  }

  /** The messages in the log that session `k` published, in order. */
  function By<K(==)>(log: seq<Entry<K>>, k: K): seq<Frame> {
    if log == [] then [] else
    var e := log[|log| - 1];
    By(log[..|log| - 1], k) + (if e.author == k then [e.frame] else [])
  }

  /** Where the replay of recent messages starts for a newcomer. */
  function WindowStart(logLength: nat): nat {
    if logLength > MAX_RECENT then logLength - MAX_RECENT else 0
  }

  /** The trimming loop of `chat_room::deliver`. */
  function Trim(recent: seq<Frame>): seq<Frame> {
    recent[WindowStart(|recent|)..]
  }

  // ---------------------------------------------------------------- chat_session

  /** `chat_session::deliver`; a write started here owns the session. */
  function Deliver(se: Session, f: Frame): Session {
    se.(writer := Push(se.writer, f), refs := se.refs + if se.writer.queue == [] then 1 else 0)
  }

  function DeliverAll(se: Session, fs: seq<Frame>): Session {
    if fs == [] then se else Deliver(DeliverAll(se, fs[..|fs| - 1]), fs[|fs| - 1])
  }

  // ---------------------------------------------------------------- chat_room

  /** `chat_room::leave`, for the session: the room's pointer to it goes, if the
      room had one. */
  function Left(se: Session, member: bool, logLength: nat): Session {
    if member then se.(refs := se.refs - 1, left := Some(logLength)) else se
  }

  /** `chat_room::deliver` of the message that session `k` has read. */
  function Publish<K>(room: Room<K>, k: K, f: Frame): Room<K> {
    room.(log := room.log + [Entry(k, f)],
          recent := Trim(room.recent + [f]),
          sessions := map s | s in room.sessions ::
              if s in room.members then Deliver(room.sessions[s], f) else room.sessions[s])
  }

  // ---------------------------------------------------------------- handlers

  /** A new session is made, joins the room and starts reading; `junk` is its
      uninitialised message buffer. The counts are those of the temporary
      returned by `make_shared`, the room's pointer and the read handler's. */
  function Start<K>(room: Room<K>, k: K, junk: Message): Room<K> {
    var made := Session(Reader(junk, Stopped, 0, []), NO_WRITES, 1, |room.log|, None);
    var joined := DeliverAll(made.(refs := made.refs + 1), room.recent);
    var reading := joined.(reader := ReadHeader(joined.reader), refs := joined.refs + 1 - 1);
    room.(members := room.members + {k}, sessions := room.sessions[k := reading])
  }

  /** Applies a change to session `k` alone. */
  function Update<K>(room: Room<K>, k: K, se: Session): Room<K> {
    room.(sessions := room.sessions[k := se])
  }

  /** A handler of session `k`, now `se`, makes it leave and is destroyed. */
  function LeaveWith<K>(room: Room<K>, k: K, se: Session): Room<K> {
    var gone := Left(se, k in room.members, |room.log|);
    room.(members := room.members - {k}, sessions := room.sessions[k := gone.(refs := gone.refs - 1)])
  }

  lemma UpdateLeave<K>(room: Room<K>, k: K, se: Session)
    ensures LeaveWith(Update(room, k, se), k, se) == LeaveWith(room, k, se)
  {
    assert Update(room, k, se).sessions[k := se] == room.sessions[k := se];
    var gone := Left(se, k in room.members, |room.log|);
    var last := gone.(refs := gone.refs - 1);
    assert room.sessions[k := se][k := last] == room.sessions[k := last];
  }

  /** A session goes on reading: the new handler owns it, the old one is destroyed. */
  function GoOnReading<K>(room: Room<K>, k: K, reader: Reader): Room<K>
    requires k in room.sessions
  {
    Update(room, k, room.sessions[k].(reader := reader, refs := room.sessions[k].refs + 1 - 1))
  }

  /** The handler of `do_read_header`. */
  function OnHeader<K>(room: Room<K>, k: K, ok: bool): Room<K>
    requires k in room.sessions && IsMessage(room.sessions[k].reader.msg)
  {
    var r := room.sessions[k].reader;
    if ok then
      if HeaderRead(r).phase == Body then GoOnReading(room, k, HeaderRead(r))
      else LeaveWith(room, k, room.sessions[k].(reader := HeaderRead(r)))
    else LeaveWith(room, k, room.sessions[k].(reader := ReadError(r)))
  }

  /** The handler of `do_read_body`. */
  function OnBody<K>(room: Room<K>, k: K, ok: bool): Room<K>
    requires k in room.sessions && IsMessage(room.sessions[k].reader.msg)
  {
    var r := room.sessions[k].reader;
    if ok then GoOnReading(Publish(room, k, FrameOf(r.msg)), k, BodyRead(r))
    else LeaveWith(room, k, room.sessions[k].(reader := ReadError(r)))
  }

  /** The handler of `do_write`; `i` selects the write that completed. */
  function OnWrite<K>(room: Room<K>, k: K, i: nat, ok: bool): Room<K>
    requires k in room.sessions && i < |room.sessions[k].writer.ops|
    requires ok ==> room.sessions[k].writer.queue != []
  {
    var se := room.sessions[k];
    if ok then
      var w := Written(se.writer, i);
      Update(room, k, se.(writer := w, refs := se.refs + (if w.queue != [] then 1 else 0) - 1))
    else
      LeaveWith(room, k, se.(writer := WriteError(se.writer, i)))
  }

  // ---------------------------------------------------------------- invariants

  function WindowEnd(se: Session, logLength: nat): nat {
    if se.left.Some? then se.left.value else logLength
  }

  /** What holds of one session between handlers, for the bytes `consumed` from
      its client and the bytes `sent` to it. */
  ghost predicate SessionInv<K>(se: Session, k: K, log: seq<Entry<K>>, member: bool,
                                consumed: seq<Byte>, sent: seq<Byte>) {
    && ReaderInv(se.reader, consumed)
    && WriterInv(se.writer, sent)
    && (member <==> se.left == None)
    && (member <==> se.reader.phase != Stopped && se.writer.broken == [])
    && WindowStart(se.joinedAt) <= se.joinedAt <= WindowEnd(se, |log|) <= |log|
    && se.writer.popped + se.writer.queue
       == Frames(log)[WindowStart(se.joinedAt)..WindowEnd(se, |log|)]
    && se.refs == Count(member) + Count(se.reader.phase != Stopped) + |se.writer.ops|
    && By(log, k) == se.reader.emitted
  }

  ghost predicate RoomInv<K>(room: Room<K>) {
    && room.members <= room.sessions.Keys
    && AllWellFormed(Frames(room.log))
    && room.recent == Frames(room.log)[WindowStart(|room.log|)..]
  }

  // ---------------------------------------------------------------- lemmas

  lemma FramesSnoc<K>(log: seq<Entry<K>>, e: Entry<K>)
    ensures Frames(log + [e]) == Frames(log) + [e.frame]
  {
  }

  lemma BySnoc<K>(log: seq<Entry<K>>, e: Entry<K>, k: K)
    ensures By(log + [e], k) == By(log, k) + if e.author == k then [e.frame] else []
  {
    assert (log + [e])[..|log|] == log;
  }

  lemma {:induction false} PushAllQueue(fs: seq<Frame>)
    ensures PushAll(NO_WRITES, fs).queue == fs
    ensures |PushAll(NO_WRITES, fs).ops| == Count(fs != [])
    ensures PushAll(NO_WRITES, fs).broken == [] && PushAll(NO_WRITES, fs).popped == []
  {
    if fs != [] {
      var init, last := fs[..|fs| - 1], fs[|fs| - 1];
      PushAllQueue(init);
      assert PushAll(NO_WRITES, fs) == Push(PushAll(NO_WRITES, init), last);
      assert init + [last] == fs;
    }
  }

  lemma {:induction false} DeliverAllIsPushAll(se: Session, fs: seq<Frame>)
    requires se.writer == NO_WRITES
    ensures DeliverAll(se, fs) == se.(writer := PushAll(NO_WRITES, fs), refs := se.refs + Count(fs != []))
  {
    hide Push;
    if fs != [] {
      var init := fs[..|fs| - 1];
      DeliverAllIsPushAll(se, init);
      PushAllQueue(init);
    }
  }

  /** The session that `Start` makes. */
  lemma StartedSession<K>(room: Room<K>, k: K, junk: Message)
    ensures Start(room, k, junk).sessions[k] == Session(Reader(junk, Header, 0, []),
              PushAll(NO_WRITES, room.recent), 2 + Count(room.recent != []), |room.log|, None)
    ensures |PushAll(NO_WRITES, room.recent).ops| == Count(room.recent != [])
    ensures PushAll(NO_WRITES, room.recent).broken == []
  {
    hide PushAll, DeliverAll;
    DeliverAllIsPushAll(Session(Reader(junk, Stopped, 0, []), NO_WRITES, 2, |room.log|, None), room.recent);
    PushAllQueue(room.recent);
  }

  lemma StartedPlace<K>(room: Room<K>, k: K, junk: Message)
    ensures var after := Start(room, k, junk);
            && after.log == room.log && after.recent == room.recent && after.members == room.members + {k}
            && after.sessions.Keys == room.sessions.Keys + {k}
            && after.sessions[k].joinedAt == |room.log| && after.sessions[k].left == None
            && after.sessions[k].writer.popped == [] && after.sessions[k].writer.queue == room.recent
  {
    hide PushAll, DeliverAll;
    StartedSession(room, k, junk);
    PushAllQueue(room.recent);
  }

  /** A newcomer's window starts with the last hundred messages: it is joined at
      the end of the log, and nothing has been sent yet. */
  lemma StartKeeps<K>(room: Room<K>, k: K, junk: Message)
    requires RoomInv(room) && k !in room.sessions && IsMessage(junk) && By(room.log, k) == []
    ensures RoomInv(Start(room, k, junk))
    ensures SessionInv(Start(room, k, junk).sessions[k], k, room.log, true, [], [])
    ensures var after := Start(room, k, junk);
            && after.sessions[k].joinedAt == |room.log| && after.log == room.log
            && after.members == room.members + {k} && after.sessions[k].left == None
            && after.sessions[k].writer.popped == []
            && after.sessions[k].writer.queue == Frames(room.log)[WindowStart(|room.log|)..]
  {
    hide PushAll, DeliverAll, SessionInv, WriterInv, WellFormed, Start;
    StartedPlace(room, k, junk);
    StartedSession(room, k, junk);
    assert AllWellFormed(room.recent);
    StartedWriter(room.recent);
    NewSessionInv(PushAll(NO_WRITES, room.recent), k, room.log, junk);
  }

  lemma NewSessionInv<K>(w: Writer, k: K, log: seq<Entry<K>>, junk: Message)
    requires IsMessage(junk) && By(log, k) == []
    requires WriterInv(w, []) && w.broken == [] && w.popped + w.queue == Frames(log)[WindowStart(|log|)..]
    ensures SessionInv(Session(Reader(junk, Header, 0, []), w, 2 + |w.ops|, |log|, None), k, log, true, [], [])
  {
    StartedReader(junk);
    var fs := Frames(log);
    assert |fs| == |log|;
    assert fs[WindowStart(|log|)..|log|] == fs[WindowStart(|log|)..];
  }

  lemma StartedWriter(recent: seq<Frame>)
    requires AllWellFormed(recent)
    ensures WriterInv(PushAll(NO_WRITES, recent), [])
    ensures PushAll(NO_WRITES, recent).popped + PushAll(NO_WRITES, recent).queue == recent
  {
    NoWritesInv();
    hide PushAll, WriterInv, WellFormed;
    PushAllKeeps(NO_WRITES, [], recent);
    assert NO_WRITES.popped + NO_WRITES.queue + recent == recent;
  }

  lemma NoWritesInv()
    ensures WriterInv(NO_WRITES, [])
  {
  }

  lemma StartedReader(junk: Message)
    requires IsMessage(junk)
    ensures ReaderInv(Reader(junk, Header, 0, []), [])
  {
    assert junk.data[..0] == [];
  }

  /** A message delivered to a member extends its window by that message. */
  lemma DeliverKeeps<K>(se: Session, k: K, log: seq<Entry<K>>, member: bool,
                        consumed: seq<Byte>, sent: seq<Byte>, e: Entry<K>)
    requires SessionInv(se, k, log, member, consumed, sent)
    requires WellFormed(e.frame) && e.author != k
    ensures SessionInv(if member then Deliver(se, e.frame) else se, k, log + [e], member, consumed, sent)
  {
    hide ReaderInv, WriterInv, Push, By, Frames;
    WindowGrows(se, log, e);
    BySnoc(log, e, k);
    PushKeeps(se.writer, sent, e.frame);
    PushOps(se.writer, sent, e.frame);
  }

  lemma WindowGrows<K>(se: Session, log: seq<Entry<K>>, e: Entry<K>)
    requires WindowStart(se.joinedAt) <= WindowEnd(se, |log|) <= |log|
    ensures Frames(log + [e])[WindowStart(se.joinedAt)..WindowEnd(se, |log| + 1)]
            == Frames(log)[WindowStart(se.joinedAt)..WindowEnd(se, |log|)]
               + if se.left == None then [e.frame] else []
  {
  }

  lemma PushOps(w: Writer, sent: seq<Byte>, f: Frame)
    requires WriterInv(w, sent)
    ensures |Push(w, f).ops| == |w.ops| + Count(w.queue == []) && Push(w, f).broken == w.broken
  {
  }

  /** The author's own session, which may or may not be in the room. */
  lemma PublishOwnKeeps<K>(se: Session, k: K, log: seq<Entry<K>>, member: bool,
                           consumed: seq<Byte>, sent: seq<Byte>)
    requires SessionInv(se, k, log, member, consumed, sent)
    requires CanComplete(se.reader) && se.reader.phase == Body
    ensures var f := FrameOf(se.reader.msg);
            var delivered := if member then Deliver(se, f) else se;
            && WellFormed(f)
            && SessionInv(delivered.(reader := BodyRead(se.reader)), k, log + [Entry(k, f)], member, consumed, sent)
  {
    var f := FrameOf(se.reader.msg);
    BodyReadKeeps(se.reader, consumed);
    hide WriterInv, Push, By, Frames;
    WindowGrows(se, log, Entry(k, f));
    BySnoc(log, Entry(k, f), k);
    PushKeeps(se.writer, sent, f);
    PushOps(se.writer, sent, f);
  }

  lemma PublishKeepsRoom<K>(room: Room<K>, k: K, f: Frame)
    requires RoomInv(room) && WellFormed(f)
    ensures RoomInv(Publish(room, k, f))
  {
    FramesSnoc(room.log, Entry(k, f));
    var all := Frames(room.log) + [f];
    var n := |room.log|;
    assert room.recent + [f] == all[WindowStart(n)..];
    assert Trim(room.recent + [f]) == all[WindowStart(n + 1)..];
  }

  /** The read chain of a session ends, with an error or a rejected header. */
  lemma EndReadKeeps<K>(room: Room<K>, k: K, stopped: Reader, consumed: seq<Byte>, sent: seq<Byte>)
    requires RoomInv(room) && k in room.sessions
    requires SessionInv(room.sessions[k], k, room.log, k in room.members, consumed, sent)
    requires room.sessions[k].reader.phase != Stopped
    requires stopped.phase == Stopped && ReaderInv(stopped, consumed)
    requires stopped.emitted == room.sessions[k].reader.emitted
    ensures var after := LeaveWith(room, k, room.sessions[k].(reader := stopped));
            && RoomInv(after)
            && k !in after.members
            && SessionInv(after.sessions[k], k, room.log, false, consumed, sent)
  {
  }

  lemma OnHeaderKeeps<K>(room: Room<K>, k: K, ok: bool, consumed: seq<Byte>, sent: seq<Byte>)
    requires RoomInv(room) && k in room.sessions
    requires SessionInv(room.sessions[k], k, room.log, k in room.members, consumed, sent)
    requires room.sessions[k].reader.phase == Header
    requires ok ==> CanComplete(room.sessions[k].reader)
    ensures var after := OnHeader(room, k, ok);
            && RoomInv(after)
            && SessionInv(after.sessions[k], k, after.log, k in after.members, consumed, sent)
            && after == room.(members := after.members, sessions := room.sessions[k := after.sessions[k]])
            && after.sessions[k].writer == room.sessions[k].writer
            && if ok && Decode(room.sessions[k].reader.msg.data[..4]).Some?
               then after.members == room.members && after.sessions[k].reader.phase == Body
               else after.members == room.members - {k} && after.sessions[k].reader.phase == Stopped
  {
    hide Decode;
    var r := room.sessions[k].reader;
    if ok {
      HeaderReadKeeps(r, consumed);
      if HeaderRead(r).phase == Stopped {
        EndReadKeeps(room, k, HeaderRead(r), consumed, sent);
      }
    } else {
      ReadErrorKeeps(r, consumed);
      EndReadKeeps(room, k, ReadError(r), consumed, sent);
    }
  }

  lemma OnBodyKeeps<K>(room: Room<K>, k: K, ok: bool, consumed: seq<Byte>, sent: seq<Byte>)
    requires RoomInv(room) && k in room.sessions
    requires SessionInv(room.sessions[k], k, room.log, k in room.members, consumed, sent)
    requires room.sessions[k].reader.phase == Body
    requires ok ==> CanComplete(room.sessions[k].reader)
    ensures var after := OnBody(room, k, ok);
            && RoomInv(after)
            && SessionInv(after.sessions[k], k, after.log, k in after.members, consumed, sent)
            && if ok
               then && after.members == room.members && after.sessions[k].reader.phase == Header
                    && after.log == room.log + [Entry(k, FrameOf(room.sessions[k].reader.msg))]
                    && after.recent == Trim(room.recent + [FrameOf(room.sessions[k].reader.msg)])
                    && (k !in room.members ==> after.sessions[k].writer == room.sessions[k].writer)
               else && after.members == room.members - {k} && after.sessions[k].reader.phase == Stopped
                    && after.sessions[k].writer == room.sessions[k].writer
                    && after == room.(members := after.members, sessions := room.sessions[k := after.sessions[k]])
  {
    hide Decode;
    var r := room.sessions[k].reader;
    if ok {
      PublishOwnKeeps(room.sessions[k], k, room.log, k in room.members, consumed, sent);
      PublishKeepsRoom(room, k, FrameOf(r.msg));
    } else {
      ReadErrorKeeps(r, consumed);
      EndReadKeeps(room, k, ReadError(r), consumed, sent);
    }
  }

  lemma OnWriteKeeps<K>(room: Room<K>, k: K, i: nat, ok: bool, consumed: seq<Byte>, sent: seq<Byte>)
    requires RoomInv(room) && k in room.sessions
    requires SessionInv(room.sessions[k], k, room.log, k in room.members, consumed, sent)
    requires i < |room.sessions[k].writer.ops|
    requires ok ==> CanFinish(room.sessions[k].writer, i)
    ensures ok ==> room.sessions[k].writer.queue != []
    ensures var after := OnWrite(room, k, i, ok);
            && RoomInv(after)
            && SessionInv(after.sessions[k], k, after.log, k in after.members, consumed, sent)
            && after == room.(members := after.members, sessions := room.sessions[k := after.sessions[k]])
            && after.sessions[k].reader == room.sessions[k].reader
            && var w, v := room.sessions[k].writer, after.sessions[k].writer;
               if ok then
                 && after.members == room.members && v.broken == []
                 && v.popped == w.popped + [w.queue[0]] && v.queue == w.queue[1..]
                 && v.ops == if v.queue == [] then [] else [WriteOp(v.queue[0], 0)]
               else
                 && after.members == room.members - {k} && v.ops == [] && v.broken == [w.ops[0]]
                 && v.popped == w.popped && v.queue == w.queue
  {
    hide ReaderInv, WriterInv, Written, WriteError, Frames, By;
    var w := room.sessions[k].writer;
    if ok {
      WrittenKeeps(w, sent, i);
    } else {
      WriteErrorKeeps(w, sent, i);
    }
  }

  /** What a handler of session `k` does to any other session of the room:
      nothing, or the delivery of a message published by `k`. */
  lemma OthersKeep<K>(room: Room<K>, k: K, j: K, f: Frame, consumed: seq<Byte>, sent: seq<Byte>)
    requires RoomInv(room) && k in room.sessions && j in room.sessions && j != k && WellFormed(f)
    requires SessionInv(room.sessions[j], j, room.log, j in room.members, consumed, sent)
    ensures var after := Publish(room, k, f);
            SessionInv(after.sessions[j], j, room.log + [Entry(k, f)], j in room.members, consumed, sent)
  {
    DeliverKeeps(room.sessions[j], j, room.log, j in room.members, consumed, sent, Entry(k, f));
  }
}
