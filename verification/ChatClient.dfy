/** The class `chat_client` and the line loop of its `main`, updated in place.
    Every handler takes the client to the state that `ClientSpec` computes. */
module ChatClient {
  import opened Codec
  import opened Framing
  import opened Endpoint
  import opened ChatMessages
  import Spec = ClientSpec

  class ChatClient {
    const readMsg: ChatMessage
    var writeMsgs: seq<Frame>
    var closed: bool
    var posted: seq<Spec.Posted>
    // the asynchronous operations outstanding
    var link: Spec.Link
    var phase: Phase
    var got: nat
    var ops: seq<WriteOp>
    // history
    ghost var emitted: seq<Frame>
    ghost var popped: seq<Frame>
    ghost var broken: seq<WriteOp>
    ghost var typed: seq<Frame>
    ghost var printed: seq<seq<Byte>>
    ghost var ended: bool

    ghost function View(): Spec.Client
      requires readMsg.Valid()
      reads this, readMsg, readMsg.data
    {
      Spec.Client(link, closed, Reader(readMsg.View(), phase, got, emitted),
                  Writer(writeMsgs, ops, popped, broken), posted, ended, typed, printed)
    }

    /** The constructor starts to connect. */
    constructor ()
      ensures readMsg.Valid() && fresh(readMsg) && fresh(readMsg.data)
      ensures View() == Spec.NewClient(readMsg.View())
    {
      readMsg := new ChatMessage();
      writeMsgs, closed, posted, link, phase, got, ops := [], false, [], Spec.Connecting, Stopped, 0, [];
      emitted, popped, broken, typed, printed, ended := [], [], [], [], [], false;
    }

    /** `write`, called by the main thread: posts the push. */
    method Write(msg: Frame)
      requires readMsg.Valid()
      modifies this`posted, this`typed
      ensures View() == old(View()).(posted := old(posted) + [Spec.PostWrite(msg)], typed := old(typed) + [msg])
    {
      posted := posted + [Spec.PostWrite(msg)];
      typed := typed + [msg];
    }

    /** `close`, called by the main thread after its loop. */
    method Close()
      requires readMsg.Valid()
      modifies this`posted, this`ended
      ensures View() == Spec.EndInput(old(View()))
    {
      posted := posted + [Spec.PostClose];
      ended := true;
    }

    /** The line loop of `main` over all of its input. */
    method LineLoop(input: seq<Byte>)
      requires readMsg.Valid()
      modifies this`posted, this`typed, this`ended
      ensures View() == Spec.EndInput(Spec.TypeAll(old(View()), Spec.Lines(input)))
      ensures old(typed) <= typed && Bodies(typed) == Bodies(old(typed)) + Spec.Lines(input)
      ensures posted == old(posted) + Spec.Writes(typed[|old(typed)|..]) + [Spec.PostClose]
    {
      Spec.TypeAllMeans(View(), Spec.Lines(input));
      var rest := input;
      ghost var before := View();
      var line := Spec.GetLine(rest);
      while line.Line?
        invariant line == Spec.GetLine(rest)
        invariant Spec.TypeAll(View(), Spec.Lines(rest)) == Spec.TypeAll(before, Spec.Lines(input))
        decreases |rest|
      {
        ghost var now := View();
        var frame := MakeMessage(CString(line.text));
        assert Spec.Lines(rest) == [CString(line.text)] + Spec.Lines(line.rest);
        assert Spec.Lines(rest)[1..] == Spec.Lines(line.rest);
        Write(frame);
        assert View() == Spec.TypeLine(now, CString(line.text));
        rest := line.rest;
        line := Spec.GetLine(rest);
      }
      Close();
    }

    /** Builds the message of a line in a fresh buffer. */
    static method MakeMessage(text: seq<Byte>) returns (frame: Frame)
      requires |text| <= MAX_BODY_LENGTH
      ensures frame == Spec.MessageOfLine(text)
    {
      var msg := new ChatMessage();
      msg.SetBodyLength(|text|);
      msg.Fill(HEADER_LENGTH, text);
      assert msg.data[HEADER_LENGTH..HEADER_LENGTH + |text|] == text;
      ghost var filled := msg.View();
      msg.EncodeHeader();
      DecodeEncode(|text|);
      frame := msg.data[..HEADER_LENGTH + msg.bodyLength];
      assert msg.data[..] == Encode(|text|) + filled.data[HEADER_LENGTH..];
    }

    /** Runs the oldest posted handler. */
    method RunPosted()
      requires readMsg.Valid() && posted != []
      modifies this`posted, this`writeMsgs, this`ops, this`closed
      ensures View() == Spec.RunPosted(old(View()))
    {
      var handler := posted[0];
      posted := posted[1..];
      match handler
      case PostWrite(msg) =>
        var writeInProgress := writeMsgs != [];
        writeMsgs := writeMsgs + [msg];
        if !writeInProgress {
          DoWrite();
        }
      case PostClose =>
        closed := true;
    }

    method DoReadHeader()
      requires readMsg.Valid()
      modifies this`phase, this`got
      ensures View() == old(View()).(reader := ReadHeader(old(View()).reader))
    {
      phase, got := Header, 0;
    }

    method DoWrite()
      requires readMsg.Valid() && writeMsgs != []
      modifies this`ops
      ensures View() == old(View()).(writer := Endpoint.DoWrite(old(View()).writer))
    {
      ops := ops + [WriteOp(writeMsgs[0], 0)];
    }

    /** The completion handler of `do_connect`. */
    method OnConnect(ok: bool)
      requires readMsg.Valid()
      modifies this`link, this`phase, this`got
      ensures View() == Spec.OnConnect(old(View()), ok)
    {
      if ok {
        link := Spec.Connected;
        DoReadHeader();
      } else {
        link := Spec.NoConnection;
      }
    }

    /** The completion handler of `do_read_header`. */
    method OnHeader(ok: bool)
      requires readMsg.Valid() && phase == Header && (ok ==> CanComplete(View().reader))
      modifies this`phase, this`got, this`closed, readMsg`bodyLength
      ensures readMsg.Valid() && View() == Spec.OnRead(old(View()), ok)
    {
      phase := Stopped;
      var accepted := false;
      if ok {
        accepted := readMsg.DecodeHeader();
      }
      if accepted {
        phase, got := Body, 0;
      } else {
        closed := true;
      }
    }

    /** The completion handler of `do_read_body`. */
    method OnBody(ok: bool)
      requires readMsg.Valid() && phase == Body && (ok ==> CanComplete(View().reader))
      modifies this`phase, this`got, this`closed, this`emitted, this`printed
      ensures View() == Spec.OnRead(old(View()), ok)
    {
      if ok {
        var frame := readMsg.data[..HEADER_LENGTH + readMsg.bodyLength];
        printed := printed + [readMsg.data[HEADER_LENGTH..HEADER_LENGTH + readMsg.bodyLength]];
        assert readMsg.data[HEADER_LENGTH..HEADER_LENGTH + readMsg.bodyLength] == BodyOf(frame);
        emitted := emitted + [frame];
        DoReadHeader();
      } else {
        phase := Stopped;
        closed := true;
      }
    }

    /** The completion handler of `do_write`, for the write `i`. */
    method OnWrite(i: nat, ok: bool)
      requires readMsg.Valid() && i < |ops| && (ok ==> writeMsgs != [])
      modifies this`ops, this`writeMsgs, this`closed, this`popped, this`broken
      ensures View() == Spec.OnWrite(old(View()), i, ok)
    {
      ghost var op := ops[i];
      ops := ops[..i] + ops[i + 1..];
      if ok {
        popped := popped + [writeMsgs[0]];
        writeMsgs := writeMsgs[1..];
        if writeMsgs != [] {
          DoWrite();
        }
      } else {
        broken := broken + [op];
        closed := true;
      }
    }

    /** Bytes arrive for the outstanding read. */
    method ReceiveSome(bytes: seq<Byte>)
      requires readMsg.Valid() && CanReceive(View().reader, bytes)
      modifies this`got, readMsg.data
      ensures readMsg.Valid()
      ensures View() == old(View()).(reader := Receive(old(View()).reader, bytes))
    {
      hide Overwrite;
      readMsg.Fill((if phase == Body then HEADER_LENGTH else 0) + got, bytes);
      got := got + |bytes|;
    }

    /** Bytes of the write `i` go out. */
    method TransmitSome(i: nat, count: nat) returns (bytes: seq<Byte>)
      requires readMsg.Valid() && CanTransmit(View().writer, i, count)
      modifies this`ops
      ensures bytes == Outgoing(old(View()).writer, i, count)
      ensures View() == old(View()).(writer := Transmit(old(View()).writer, i, count))
    {
      bytes := ops[i].buffer[ops[i].done..ops[i].done + count];
      ops := ops[i := ops[i].(done := ops[i].done + count)];
    }
  }
}
