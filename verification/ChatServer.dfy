/** The classes of `chat_server.cpp`, updated in place. Every handler takes the
    room to the state that `RoomSpec` computes for it. The fields for the
    outstanding reads and writes and for the owning pointers are the part that
    Boost.Asio and `shared_ptr` keep. */
module ChatServer {
  import opened Codec
  import opened Framing
  import opened Endpoint
  import opened ChatMessages
  import RoomSpec

  class ChatRoom {
    var participants: set<ChatSession>
    var recentMsgs: seq<Frame>
    ghost var log: seq<RoomSpec.Entry<ChatSession>>
    ghost var sessions: set<ChatSession>

    ghost function Messages(): set<ChatMessage>
      reads this
    {
      set s | s in sessions :: s.readMsg
    }

    ghost function Buffers(): set<array<Byte>>
      reads this
    {
      set s | s in sessions :: s.readMsg.data
    }

    /** The sessions' message buffers are separate objects. */
    ghost predicate Valid()
      reads this, Messages()
    {
      && participants <= sessions
      && (forall s :: s in sessions ==> s.room == this && s.readMsg.Valid())
      && (forall s, t :: s in sessions && t in sessions && s != t ==>
            s.readMsg != t.readMsg && s.readMsg.data != t.readMsg.data)
    }

    ghost function View(): RoomSpec.Room<ChatSession>
      requires Valid()
      reads this, sessions, Messages(), Buffers()
    {
      RoomSpec.Room(log, recentMsgs, participants, map s | s in sessions :: s.View())
    }

    constructor ()
      ensures Valid() && View() == RoomSpec.Room([], [], {}, map[])
    {
      participants, recentMsgs, log, sessions := {}, [], [], {};
    }

    /** `join`: insert the participant, unless it is there already, and replay the
        recent messages to it. */
    method Join(participant: ChatSession)
      requires Valid() && participant in sessions
      modifies this`participants, participant`writeMsgs, participant`ops, participant`refs
      ensures Valid() && participants == old(participants) + {participant}
      ensures participant.View() == RoomSpec.DeliverAll(
                old(participant.View()).(refs := old(participant.refs + Count(participant !in participants))),
                recentMsgs)
      ensures forall s :: s in sessions && s != participant ==> s.View() == old(s.View())
    {
      if participant !in participants {
        participants := participants + {participant};
        participant.refs := participant.refs + 1;
      }
      ghost var inserted := participant.View();
      var i := 0;
      while i < |recentMsgs|
        invariant 0 <= i <= |recentMsgs|
        invariant participant.View() == RoomSpec.DeliverAll(inserted, recentMsgs[..i])
        invariant unchanged(`recentMsgs) && participants == old(participants) + {participant}
      {
        participant.Deliver(recentMsgs[i]);
        assert recentMsgs[..i + 1][..i] == recentMsgs[..i];
        i := i + 1;
      }
      assert recentMsgs[..i] == recentMsgs;
    }

    /** `leave`: erasing an absent participant does nothing. */
    method Leave(participant: ChatSession)
      requires Valid() && participant in sessions
      modifies this`participants, participant`refs, participant`left
      ensures Valid() && participants == old(participants) - {participant}
      ensures participant.View() == RoomSpec.Left(old(participant.View()), participant in old(participants), |log|)
      ensures forall s :: s in sessions && s != participant ==> s.View() == old(s.View())
    {
      if participant in participants {
        participants := participants - {participant};
        participant.refs := participant.refs - 1;
        participant.left := Some(|log|);
      }
    }

    /** `deliver`: remember the message, forget all but the last hundred, and
        pass it to every participant. */
    method Deliver(msg: Frame, ghost author: ChatSession)
      requires Valid() && author in sessions
      modifies this`recentMsgs, this`log, participants`writeMsgs, participants`ops, participants`refs
      ensures Valid() && View() == RoomSpec.Publish(old(View()), author, msg)
    {
      hide RoomSpec.Deliver, RoomSpec.Trim, RoomSpec.Publish;
      ghost var before := View();
      Remember(msg, author);
      Broadcast(msg);
      Delivered(this, msg, author, before);
    }

    method Remember(msg: Frame, ghost author: ChatSession)
      requires Valid()
      modifies this`recentMsgs, this`log
      ensures Valid() && log == old(log) + [RoomSpec.Entry(author, msg)]
      ensures forall s :: s in sessions ==> s.View() == old(s.View())
      ensures recentMsgs == RoomSpec.Trim(old(recentMsgs) + [msg])
    {
      log := log + [RoomSpec.Entry(author, msg)];
      recentMsgs := recentMsgs + [msg];
      ghost var all, dropped := recentMsgs, 0;
      while |recentMsgs| > RoomSpec.MAX_RECENT
        invariant dropped <= |all| && recentMsgs == all[dropped..]
        invariant |recentMsgs| >= RoomSpec.MAX_RECENT || recentMsgs == all
        invariant log == old(log) + [RoomSpec.Entry(author, msg)]
      {
        TailOfRest(all, dropped);
        recentMsgs, dropped := recentMsgs[1..], dropped + 1;
      }
    }

    /** One turn of the loop over the participants: nobody else is affected. */
    method DeliverTo(participant: ChatSession, msg: Frame)
      requires Valid() && participant in sessions
      modifies participant`writeMsgs, participant`ops, participant`refs
      ensures Valid() && participant.View() == RoomSpec.Deliver(old(participant.View()), msg)
      ensures forall s :: s in sessions && s != participant ==> s.View() == old(s.View())
    {
      participant.Deliver(msg);
    }

    method Broadcast(msg: Frame)
      requires Valid()
      modifies participants`writeMsgs, participants`ops, participants`refs
      ensures Valid()
      ensures forall s :: s in sessions ==>
                s.View() == if s in participants then RoomSpec.Deliver(old(s.View()), msg) else old(s.View())
    {
      var rest := participants;
      while rest != {}
        invariant rest <= participants
        invariant forall s :: s in sessions ==>
                    s.View() == if s in participants && s !in rest then RoomSpec.Deliver(old(s.View()), msg)
                                else old(s.View())
        decreases rest
      {
        var participant :| participant in rest;
        DeliverTo(participant, msg);
        rest := rest - {participant};
      }
    }
  }

  lemma TailOfRest(all: seq<Frame>, n: nat)
    requires n < |all|
    ensures all[n..][1..] == all[n + 1..]
  {
  }

  /** When only session `s` of a room has changed, or is new, so has the room's value. */
  lemma OnlyChanged(room: ChatRoom, s: ChatSession, before: RoomSpec.Room<ChatSession>)
    requires room.Valid() && s in room.sessions
    requires before.sessions.Keys + {s} == room.sessions
    requires room.log == before.log && room.recentMsgs == before.recent
    requires forall t :: t in room.sessions && t != s ==> t.View() == before.sessions[t]
    ensures room.View() == before.(members := room.participants, sessions := before.sessions[s := s.View()])
  {
  }

  /** When every participant has got a message and the room has kept it, the
      room's value is the one after publishing. */
  lemma Delivered(room: ChatRoom, msg: Frame, author: ChatSession, before: RoomSpec.Room<ChatSession>)
    requires room.Valid() && before.sessions.Keys == room.sessions && before.members == room.participants
    requires room.log == before.log + [RoomSpec.Entry(author, msg)]
    requires room.recentMsgs == RoomSpec.Trim(before.recent + [msg])
    requires forall s :: s in room.sessions ==>
               s.View() == if s in room.participants then RoomSpec.Deliver(before.sessions[s], msg)
                           else before.sessions[s]
    ensures room.View() == RoomSpec.Publish(before, author, msg)
  {
    assert room.View().sessions == RoomSpec.Publish(before, author, msg).sessions;
  }

  class ChatSession {
    const room: ChatRoom
    const readMsg: ChatMessage
    var writeMsgs: seq<Frame>
    // the asynchronous operations outstanding and the number of owning pointers
    var phase: Phase
    var got: nat
    var ops: seq<WriteOp>
    var refs: int
    // history
    ghost var emitted: seq<Frame>
    ghost var popped: seq<Frame>
    ghost var broken: seq<WriteOp>
    ghost var joinedAt: nat
    ghost var left: Option<nat>

    ghost function View(): RoomSpec.Session
      requires readMsg.Valid()
      reads this, readMsg, readMsg.data
    {
      RoomSpec.Session(Reader(readMsg.View(), phase, got, emitted),
                       Writer(writeMsgs, ops, popped, broken), refs, joinedAt, left)
    }

    ghost predicate Running()
      reads room, room.Messages()
    {
      room.Valid() && this in room.sessions
    }

    /** A session made by `make_shared`: one temporary pointer owns it. */
    constructor (room: ChatRoom)
      ensures this.room == room && readMsg.Valid() && fresh(readMsg) && fresh(readMsg.data)
      ensures View() == RoomSpec.Session(Reader(readMsg.View(), Stopped, 0, []), NO_WRITES, 1, |room.log|, None)
    {
      this.room := room;
      readMsg := new ChatMessage();
      writeMsgs, phase, got, ops, refs := [], Stopped, 0, [], 1;
      emitted, popped, broken, joinedAt, left := [], [], [], |room.log|, None;
    }

    /** `start`; `make_shared`'s temporary pointer is gone when it returns. */
    method Start()
      requires room.Valid() && this !in room.sessions
      requires readMsg.Valid()
      requires readMsg !in room.Messages() && readMsg.data !in room.Buffers()
      requires View() == RoomSpec.Session(Reader(readMsg.View(), Stopped, 0, []), NO_WRITES, 1, |room.log|, None)
      modifies room`sessions, room`participants, this`writeMsgs, this`ops, this`refs, this`phase, this`got
      ensures Running()
      ensures room.View() == RoomSpec.Start(old(room.View()), this, readMsg.View())
    {
      hide RoomSpec.DeliverAll, RoomSpec.Deliver;
      ghost var before := room.View();
      room.sessions := room.sessions + {this};
      room.Join(this);
      ReadHeaderNext();
      OnlyChanged(room, this, before);
    }

    method Deliver(msg: Frame)
      requires readMsg.Valid()
      modifies this`writeMsgs, this`ops, this`refs
      ensures View() == RoomSpec.Deliver(old(View()), msg)
    {
      var writeInProgress := writeMsgs != [];
      writeMsgs := writeMsgs + [msg];
      if !writeInProgress {
        DoWrite();
      }
    }

    method DoReadHeader()
      requires readMsg.Valid()
      modifies this`phase, this`got, this`refs
      ensures View() == old(View()).(reader := ReadHeader(old(View()).reader), refs := old(refs) + 1)
    {
      refs := refs + 1;
      phase, got := Header, 0;
    }

    method DoReadBody()
      requires readMsg.Valid()
      modifies this`phase, this`got, this`refs
      ensures View() == old(View()).(reader := old(View()).reader.(phase := Body, got := 0), refs := old(refs) + 1)
    {
      refs := refs + 1;
      phase, got := Body, 0;
    }

    method DoWrite()
      requires readMsg.Valid() && writeMsgs != []
      modifies this`ops, this`refs
      ensures View() == old(View()).(writer := Endpoint.DoWrite(old(View()).writer), refs := old(refs) + 1)
    {
      refs := refs + 1;
      ops := ops + [WriteOp(writeMsgs[0], 0)];
    }

    /** The end of a handler that gives up: it leaves the room and is destroyed. */
    method LeaveRoom()
      requires Running()
      modifies room`participants, this`refs, this`left
      ensures Running() && room.View() == RoomSpec.LeaveWith(old(room.View()), this, old(View()))
    {
      hide RoomSpec.Left;
      ghost var before := room.View();
      room.Leave(this);
      refs := refs - 1;
      OnlyChanged(room, this, before);
    }

    /** The completion handler of `do_read_header`. */
    method OnHeader(ok: bool)
      requires Running()
      modifies room`participants, this`phase, this`got, this`refs, this`left, readMsg`bodyLength
      ensures Running() && room.View() == RoomSpec.OnHeader(old(room.View()), this, ok)
    {
      hide Decode, RoomSpec.Left;
      ghost var before, se := room.View(), View();
      var accepted := HeaderArrived(ok);
      ghost var mid := View();
      if accepted {
        ReadBodyNext();
        OnlyChanged(room, this, before);
      } else {
        OnlyChanged(room, this, before);
        LeaveRoom();
        RoomSpec.UpdateLeave(before, this, mid);
      }
    }

    /** The condition of the header handler; the read that called it is over. */
    method HeaderArrived(ok: bool) returns (accepted: bool)
      requires Running()
      modifies this`phase, readMsg`bodyLength
      ensures Running() && (accepted <==> ok && HeaderRead(old(View()).reader).phase == Body)
      ensures View() == old(View()).(reader := if ok then HeaderRead(old(View()).reader).(phase := Stopped, got := got)
                                               else ReadError(old(View()).reader))
      ensures forall s :: s in room.sessions && s != this ==> s.View() == old(s.View())
    {
      phase := Stopped;
      accepted := false;
      if ok {
        accepted := readMsg.DecodeHeader();
      }
    }

    /** Starts to read a header; the pointer of whoever does so is gone afterwards. */
    method ReadHeaderNext()
      requires Running()
      modifies this`phase, this`got, this`refs
      ensures Running()
      ensures View() == old(View()).(reader := ReadHeader(old(View()).reader))
      ensures forall s :: s in room.sessions && s != this ==> s.View() == old(s.View())
    {
      DoReadHeader();
      refs := refs - 1;
    }

    /** Starts to read the body; the handler that does so is destroyed. */
    method ReadBodyNext()
      requires Running()
      modifies this`phase, this`got, this`refs
      ensures Running()
      ensures View() == old(View()).(reader := old(View()).reader.(phase := Body, got := 0))
      ensures forall s :: s in room.sessions && s != this ==> s.View() == old(s.View())
    {
      DoReadBody();
      refs := refs - 1;
    }

    /** The tail of `OnBody` after a delivery. */
    method Continue(frame: Frame)
      requires Running() && frame == FrameOf(readMsg.View())
      modifies this`emitted, this`phase, this`got, this`refs
      ensures Running()
      ensures room.View() == RoomSpec.GoOnReading(old(room.View()), this, BodyRead(old(View()).reader))
    {
      ghost var before, se := room.View(), View();
      emitted := emitted + [frame];
      ReadHeaderNext();
      assert View() == se.(reader := BodyRead(se.reader));
      OnlyChanged(room, this, before);
    }

    /** The completion handler of `do_read_body`. */
    method OnBody(ok: bool)
      requires Running()
      modifies room`recentMsgs, room`log, room`participants
      modifies room.sessions
      ensures Running() && room.View() == RoomSpec.OnBody(old(room.View()), this, ok)
    {
      hide RoomSpec.Publish;
      ghost var before, se := room.View(), View();
      if ok {
        var frame := readMsg.data[..HEADER_LENGTH + readMsg.bodyLength];
        room.Deliver(frame, this);
        assert View().reader == se.reader && frame == FrameOf(se.reader.msg);
        Continue(frame);
      } else {
        phase := Stopped;
        OnlyChanged(room, this, before);
        LeaveRoom();
        RoomSpec.UpdateLeave(before, this, se.(reader := ReadError(se.reader)));
      }
    }

    /** The completion handler of `do_write`, for the write `i`. */
    method OnWrite(i: nat, ok: bool)
      requires Running() && i < |ops| && (ok ==> writeMsgs != [])
      modifies room`participants, this
      ensures Running() && room.View() == RoomSpec.OnWrite(old(room.View()), this, i, ok)
    {
      hide RoomSpec.LeaveWith, Written, WriteError;
      ghost var before, se := room.View(), View();
      if ok {
        PopFront(i);
      } else {
        FailFront(i);
      }
      OnlyChanged(room, this, before);
      if !ok {
        LeaveRoom();
        RoomSpec.UpdateLeave(before, this, se.(writer := WriteError(se.writer, i)));
      }
    }

    /** The part of the write handler that runs when there was no error. */
    method PopFront(i: nat)
      requires Running() && i < |ops| && writeMsgs != []
      modifies this`writeMsgs, this`ops, this`refs, this`popped
      ensures Running()
      ensures var w := Written(old(View()).writer, i);
              View() == old(View()).(writer := w, refs := old(refs) + (if w.queue != [] then 1 else 0) - 1)
      ensures forall s :: s in room.sessions && s != this ==> s.View() == old(s.View())
    {
      ops := ops[..i] + ops[i + 1..];
      popped := popped + [writeMsgs[0]];
      writeMsgs := writeMsgs[1..];
      if writeMsgs != [] {
        DoWrite();
      }
      refs := refs - 1;
    }

    /** The write `i` has failed; its message stays in the queue. */
    method FailFront(i: nat)
      requires Running() && i < |ops|
      modifies this`ops, this`broken
      ensures Running() && View() == old(View()).(writer := WriteError(old(View()).writer, i))
      ensures forall s :: s in room.sessions && s != this ==> s.View() == old(s.View())
    {
      broken := broken + [ops[i]];
      ops := ops[..i] + ops[i + 1..];
    }

    /** Bytes arrive for the outstanding read. */
    method ReceiveSome(bytes: seq<Byte>)
      requires Running() && CanReceive(View().reader, bytes)
      modifies this`got, readMsg.data
      ensures Running()
      ensures room.View() == RoomSpec.Update(old(room.View()), this,
                old(View()).(reader := Receive(old(View()).reader, bytes)))
    {
      hide Overwrite;
      ghost var before := room.View();
      ghost var after := Receive(View().reader, bytes);
      readMsg.Fill((if phase == Body then HEADER_LENGTH else 0) + got, bytes);
      got := got + |bytes|;
      assert View().reader == after;
      OnlyChanged(room, this, before);
    }

    /** Bytes of the write `i` go out. */
    method TransmitSome(i: nat, count: nat) returns (bytes: seq<Byte>)
      requires Running() && CanTransmit(View().writer, i, count)
      modifies this`ops
      ensures Running()
      ensures bytes == Outgoing(old(View()).writer, i, count)
      ensures room.View() == RoomSpec.Update(old(room.View()), this,
                old(View()).(writer := Transmit(old(View()).writer, i, count)))
    {
      ghost var before := room.View();
      bytes := ops[i].buffer[ops[i].done..ops[i].done + count];
      ops := ops[i := ops[i].(done := ops[i].done + count)];
      OnlyChanged(room, this, before);
    }
  }
}
