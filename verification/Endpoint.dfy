/** One end of a chat connection, as the values its handlers work on: the read
    loop that alternates header and body (`do_read_header`, `do_read_body`) and
    the outgoing queue (`deliver`/`write`, `do_write`). The server's
    `chat_session` and the client run the same two loops. */
module Endpoint {
  import opened Codec
  import opened Framing

  // ---------------------------------------------------------------- messages

  /** The value of a `chat_message`: its 516 bytes and `_body_length`. */
  datatype Message = Message(data: seq<Byte>, bodyLength: nat)

  predicate IsMessage(m: Message) {
    |m.data| == CAPACITY && m.bodyLength <= MAX_BODY_LENGTH
  }

  /** `data()[0..length())`: the part of a message that is ever sent or printed.
      The bytes after it are stale or uninitialised. */
  function FrameOf(m: Message): Frame
    requires IsMessage(m)
  {
    m.data[..HEADER_LENGTH + m.bodyLength]
  }

  function Overwrite(data: seq<Byte>, at: nat, bytes: seq<Byte>): (r: seq<Byte>)
    requires at + |bytes| <= |data|
    ensures |r| == |data|
    ensures r[..at + |bytes|] == data[..at] + bytes
    ensures r[at + |bytes|..] == data[at + |bytes|..]
  {
    data[..at] + bytes + data[at + |bytes|..]
  }

  /** `decode_header`. */
  function DecodeHeader(m: Message): Message
    requires IsMessage(m)
  {
    m.(bodyLength := match Decode(m.data[..HEADER_LENGTH]) case Some(n) => n case None => 0)
  }

  // ---------------------------------------------------------------- reading

  datatype Phase = Header | Body | Stopped  // what the outstanding async_read fills, if any

  /** `got` bytes of the outstanding `async_read` have arrived; `emitted` is the
      history of frames completed so far. */
  datatype Reader = Reader(msg: Message, phase: Phase, got: nat, emitted: seq<Frame>)

  /** An `async_read` on the header, over a buffer with arbitrary contents. */
  function ReadHeader(r: Reader): Reader {
    r.(phase := Header, got := 0)
  }

  function Want(r: Reader): nat {
    match r.phase
    case Header => HEADER_LENGTH
    case Body => r.msg.bodyLength
    case Stopped => 0
  }

  function Offset(r: Reader): nat {
    (if r.phase == Body then HEADER_LENGTH else 0) + r.got
  }

  /** `bytes` can arrive for the outstanding read. */
  predicate CanReceive(r: Reader, bytes: seq<Byte>) {
    r.phase != Stopped && IsMessage(r.msg) && r.got + |bytes| <= Want(r)
  }

  /** A partial transfer of the outstanding read into the message buffer. */
  function Receive(r: Reader, bytes: seq<Byte>): Reader
    requires CanReceive(r, bytes)
  {
    r.(msg := r.msg.(data := Overwrite(r.msg.data, Offset(r), bytes)), got := r.got + |bytes|)
  }

  /** The outstanding read can complete without error. */
  predicate CanComplete(r: Reader) {
    r.phase != Stopped && IsMessage(r.msg) && r.got == Want(r)
  }

  /** The handler of the header read: read the body, or give up on a bad header. */
  function HeaderRead(r: Reader): Reader
    requires IsMessage(r.msg)
  {
    if Decode(r.msg.data[..HEADER_LENGTH]).Some?
    then r.(msg := DecodeHeader(r.msg), phase := Body, got := 0)
    else r.(msg := DecodeHeader(r.msg), phase := Stopped)
  }

  /** The handler of the body read: the frame is complete, read the next header. */
  function BodyRead(r: Reader): Reader
    requires IsMessage(r.msg)
  {
    ReadHeader(r.(emitted := r.emitted + [FrameOf(r.msg)]))
  }

  /** Either handler with an error. */
  function ReadError(r: Reader): Reader {
    r.(phase := Stopped)
  }

  /** The reader has taken exactly the bytes `consumed` from its stream: its
      complete frames, then what lies in the buffer for the frame under way. */
  ghost predicate ReaderInv(r: Reader, consumed: seq<Byte>) {
    && IsMessage(r.msg)
    && AllWellFormed(r.emitted)
    && match r.phase
       case Header => r.got <= HEADER_LENGTH && consumed == Concat(r.emitted) + r.msg.data[..r.got]
       case Body =>
         && r.got <= r.msg.bodyLength
         && Decode(r.msg.data[..HEADER_LENGTH]) == Some(r.msg.bodyLength)
         && consumed == Concat(r.emitted) + r.msg.data[..HEADER_LENGTH + r.got]
       case Stopped => Concat(r.emitted) <= consumed
  }

  lemma ReceiveKeeps(r: Reader, consumed: seq<Byte>, bytes: seq<Byte>)
    requires ReaderInv(r, consumed) && CanReceive(r, bytes)
    ensures ReaderInv(Receive(r, bytes), consumed + bytes)
  {
    hide Overwrite, Decode, Concat, WellFormed;
    var at, before := Offset(r), r.msg.data;
    OverwritePrefix(before, at, bytes);
    Regroup(Concat(r.emitted), before[..at], bytes);
  }

  lemma Regroup(a: seq<Byte>, b: seq<Byte>, c: seq<Byte>)
    ensures a + b + c == a + (b + c)
  {
  }

  lemma OverwritePrefix(data: seq<Byte>, at: nat, bytes: seq<Byte>)
    requires at + |bytes| <= |data|
    ensures Overwrite(data, at, bytes)[..at + |bytes|] == data[..at] + bytes
    ensures at >= HEADER_LENGTH ==> Overwrite(data, at, bytes)[..HEADER_LENGTH] == data[..HEADER_LENGTH]
  {
    if at >= HEADER_LENGTH {
      var d := Overwrite(data, at, bytes);
      assert forall x :: 0 <= x < at ==> d[x] == data[x];
    }
  }

  lemma HeaderReadKeeps(r: Reader, consumed: seq<Byte>)
    requires ReaderInv(r, consumed) && CanComplete(r) && r.phase == Header
    ensures ReaderInv(HeaderRead(r), consumed)
    ensures HeaderRead(r).emitted == r.emitted && HeaderRead(r).msg.data == r.msg.data
    ensures match Decode(r.msg.data[..HEADER_LENGTH])
            case Some(n) => HeaderRead(r).phase == Body && HeaderRead(r).got == 0 && HeaderRead(r).msg.bodyLength == n
            case None => HeaderRead(r).phase == Stopped && HeaderRead(r).msg.bodyLength == 0
  {
    assert r.msg.data[..HEADER_LENGTH + 0] == r.msg.data[..HEADER_LENGTH];
  }

  lemma BodyReadKeeps(r: Reader, consumed: seq<Byte>)
    requires ReaderInv(r, consumed) && CanComplete(r) && r.phase == Body
    ensures ReaderInv(BodyRead(r), consumed)
    ensures WellFormed(FrameOf(r.msg))
    ensures BodyRead(r).emitted == r.emitted + [FrameOf(r.msg)]
    ensures BodyRead(r).phase == Header && BodyRead(r).got == 0 && BodyRead(r).msg == r.msg
  {
    var f := FrameOf(r.msg);
    assert f[..HEADER_LENGTH] == r.msg.data[..HEADER_LENGTH];
    ConcatSnoc(r.emitted, f);
    assert Concat(r.emitted) + f + r.msg.data[..0] == Concat(r.emitted) + f;
  }

  lemma ReadErrorKeeps(r: Reader, consumed: seq<Byte>)
    requires ReaderInv(r, consumed)
    ensures ReaderInv(ReadError(r), consumed)
    ensures ReadError(r).phase == Stopped && ReadError(r).emitted == r.emitted && ReadError(r).msg == r.msg
  {
  }

  /** Whatever happened on the way, the frames read are those the stream means,
      as far as they have been read. */
  lemma EmittedParses(r: Reader, consumed: seq<Byte>)
    requires ReaderInv(r, consumed)
    ensures r.emitted <= Parse(consumed)
    ensures r.phase != Stopped && !CanComplete(r) ==> r.emitted == Parse(consumed)
  {
    var tail := consumed[|Concat(r.emitted)|..];
    assert consumed == Concat(r.emitted) + tail;
    ParseConcat(r.emitted, tail);
    if r.phase == Header && !CanComplete(r) {
      assert tail == r.msg.data[..r.got];
    } else if r.phase == Body && !CanComplete(r) {
      assert tail == r.msg.data[..HEADER_LENGTH + r.got];
      assert tail[..HEADER_LENGTH] == r.msg.data[..HEADER_LENGTH];
    }
  }

  // ---------------------------------------------------------------- a whole run of the read loop

  datatype ReadEvent = Take(count: nat) | Complete | Fail

  /** One event of a read loop over `stream`, of which `taken` bytes have been taken. */
  function ReadStep(r: Reader, taken: nat, stream: seq<Byte>, e: ReadEvent): (Reader, nat) {
    match e
    case Take(n) =>
      if taken + n <= |stream| && CanReceive(r, stream[taken..taken + n])
      then (Receive(r, stream[taken..taken + n]), taken + n) else (r, taken)
    case Complete =>
      if CanComplete(r) then (Completed(r), taken) else (r, taken)
    case Fail => (ReadError(r), taken)
  }

  function ReadRun(junk: Message, stream: seq<Byte>, events: seq<ReadEvent>): (Reader, nat) {
    if events == [] then (Reader(junk, Header, 0, []), 0)
    else
      var (r, taken) := ReadRun(junk, stream, events[..|events| - 1]);
      ReadStep(r, taken, stream, events[|events| - 1])
  }

  lemma {:induction false} ReadRunInv(junk: Message, stream: seq<Byte>, events: seq<ReadEvent>)
    requires IsMessage(junk)
    ensures var (r, taken) := ReadRun(junk, stream, events);
            taken <= |stream| && ReaderInv(r, stream[..taken])
  {
    if events == [] {
      assert junk.data[..0] == [] && stream[..0] == [];
    } else {
      ReadRunInv(junk, stream, events[..|events| - 1]);
      var (r, taken) := ReadRun(junk, stream, events[..|events| - 1]);
      ReadStepKeeps(r, taken, stream, events[|events| - 1]);
    }
  }

  lemma ReadStepKeeps(r: Reader, taken: nat, stream: seq<Byte>, e: ReadEvent)
    requires taken <= |stream| && ReaderInv(r, stream[..taken])
    ensures var (r', taken') := ReadStep(r, taken, stream, e);
            taken' <= |stream| && ReaderInv(r', stream[..taken'])
  {
    hide ReaderInv, Receive, Completed, CanReceive, CanComplete;
    match e
    case Take(n) =>
      if taken + n <= |stream| && CanReceive(r, stream[taken..taken + n]) {
        TakeKeeps(r, taken, stream, n);
      }
    case Complete =>
      if CanComplete(r) {
        CompleteKeeps(r, stream[..taken]);
      }
    case Fail => ReadErrorKeeps(r, stream[..taken]);
  }

  lemma TakeKeeps(r: Reader, taken: nat, stream: seq<Byte>, n: nat)
    requires taken + n <= |stream| && ReaderInv(r, stream[..taken])
    requires CanReceive(r, stream[taken..taken + n])
    ensures ReaderInv(Receive(r, stream[taken..taken + n]), stream[..taken + n])
  {
    hide ReaderInv, Receive, CanReceive;
    ReceiveKeeps(r, stream[..taken], stream[taken..taken + n]);
    assert stream[..taken] + stream[taken..taken + n] == stream[..taken + n];
  }

  /** The handler of whichever read is outstanding. */
  function Completed(r: Reader): Reader
    requires CanComplete(r)
  {
    if r.phase == Header then HeaderRead(r) else BodyRead(r)
  }

  lemma CompleteKeeps(r: Reader, consumed: seq<Byte>)
    requires ReaderInv(r, consumed) && CanComplete(r)
    ensures ReaderInv(Completed(r), consumed)
  {
    if r.phase == Header {
      HeaderReadKeeps(r, consumed);
    } else {
      BodyReadKeeps(r, consumed);
    }
  }

  /** The read loop implements `Parse`: over any byte stream, for every way the
      bytes arrive in pieces, it reads what the consumed bytes mean, up to a
      frame whose completion has not been handled. */
  lemma {:induction false} ReadLoopParses(junk: Message, stream: seq<Byte>, events: seq<ReadEvent>)
    requires IsMessage(junk)
    ensures var (r, taken) := ReadRun(junk, stream, events);
            && taken <= |stream|
            && r.emitted <= Parse(stream[..taken])
            && (r.phase != Stopped && !CanComplete(r) ==> r.emitted == Parse(stream[..taken]))
  {
    ReadRunInv(junk, stream, events);
    var (r, taken) := ReadRun(junk, stream, events);
    EmittedParses(r, stream[..taken]);
  }

  /** Framing: over the bytes of any well-formed frames the loop reads a prefix
      of those frames, never rejects a header, and once it has taken every byte
      without an error and handled every completion it has read exactly them. */
  lemma {:induction false} FramingRecovers(junk: Message, frames: seq<Frame>, events: seq<ReadEvent>)
    requires IsMessage(junk) && AllWellFormed(frames)
    ensures var (r, taken) := ReadRun(junk, Concat(frames), events);
            && r.emitted <= frames
            && (Fail !in events ==> r.phase != Stopped)
            && (Fail !in events && taken == |Concat(frames)| && !CanComplete(r) ==> r.emitted == frames)
  {
    var stream := Concat(frames);
    ReadLoopParses(junk, stream, events);
    var (r, taken) := ReadRun(junk, stream, events);
    ParsePrefix(frames, stream[..taken]);
    if Fail !in events {
      NeverRejects(junk, frames, events);
      assert taken == |stream| ==> stream[..taken] == stream;
    }
  }

  lemma {:induction false} NeverRejects(junk: Message, frames: seq<Frame>, events: seq<ReadEvent>)
    requires IsMessage(junk) && AllWellFormed(frames) && Fail !in events
    ensures ReadRun(junk, Concat(frames), events).0.phase != Stopped
  {
    if events != [] {
      var before, stream := events[..|events| - 1], Concat(frames);
      NeverRejects(junk, frames, before);
      ReadRunInv(junk, stream, before);
      var (r, taken) := ReadRun(junk, stream, before);
      if events[|events| - 1] == Complete && CanComplete(r) && r.phase == Header {
        CompleteHeaderDecodes(r, stream[..taken], frames);
      }
    }
  }

  /** A complete header read from the bytes of well-formed frames is accepted. */
  lemma CompleteHeaderDecodes(r: Reader, consumed: seq<Byte>, frames: seq<Frame>)
    requires ReaderInv(r, consumed) && AllWellFormed(frames) && consumed <= Concat(frames)
    requires r.phase == Header && r.got == HEADER_LENGTH
    ensures Decode(r.msg.data[..HEADER_LENGTH]).Some?
  {
    PrefixUnique(r.emitted, frames);
    var rest := frames[|r.emitted|..];
    assert frames == r.emitted + rest;
    ConcatAppend(r.emitted, rest);
    var header := r.msg.data[..HEADER_LENGTH];
    assert consumed == Concat(r.emitted) + header;
    PrefixCancels(Concat(r.emitted), header, Concat(rest));
    var f := rest[0];
    assert f == frames[|r.emitted|] && WellFormed(f);
    assert Concat(rest) == f + Concat(rest[1..]);
    assert header == Concat(rest)[..HEADER_LENGTH] == f[..HEADER_LENGTH];
  }

  lemma PrefixCancels(p: seq<Byte>, a: seq<Byte>, b: seq<Byte>)
    requires p + a <= p + b
    ensures a <= b
  {
    assert a == (p + a)[|p|..] && b == (p + b)[|p|..];
    assert (p + b)[..|p + a|] == p + a;
    assert b[..|a|] == (p + b)[..|p + a|][|p|..];
  }

  // ---------------------------------------------------------------- writing

  /** An outstanding `async_write`: the buffer it was started on and how many
      bytes of it have been transmitted. */
  datatype WriteOp = WriteOp(buffer: Frame, done: nat)

  /** `queue` is `_write_msgs`; `ops` are the writes outstanding; `popped` is the
      history of messages popped, `broken` the writes that failed. */
  datatype Writer = Writer(queue: seq<Frame>, ops: seq<WriteOp>, popped: seq<Frame>, broken: seq<WriteOp>)

  const NO_WRITES := Writer([], [], [], [])

  /** `do_write`. */
  function DoWrite(w: Writer): Writer
    requires w.queue != []
  {
    w.(ops := w.ops + [WriteOp(w.queue[0], 0)])
  }

  /** `deliver` of a session, and the handler posted by `write` of a client. */
  function Push(w: Writer, f: Frame): Writer {
    var pushed := w.(queue := w.queue + [f]);
    if w.queue == [] then DoWrite(pushed) else pushed
  }

  function PushAll(w: Writer, fs: seq<Frame>): Writer {
    if fs == [] then w else Push(PushAll(w, fs[..|fs| - 1]), fs[|fs| - 1])
  }

  predicate CanTransmit(w: Writer, i: nat, count: nat) {
    i < |w.ops| && w.ops[i].done + count <= |w.ops[i].buffer|
  }

  /** The bytes that a partial transfer of `count` bytes puts on the wire. */
  function Outgoing(w: Writer, i: nat, count: nat): seq<Byte>
    requires CanTransmit(w, i, count)
  {
    w.ops[i].buffer[w.ops[i].done..w.ops[i].done + count]
  }

  function Transmit(w: Writer, i: nat, count: nat): Writer
    requires CanTransmit(w, i, count)
  {
    w.(ops := w.ops[i := w.ops[i].(done := w.ops[i].done + count)])
  }

  predicate CanFinish(w: Writer, i: nat) {
    i < |w.ops| && w.ops[i].done == |w.ops[i].buffer|
  }

  /** The write handler without error: pop the front, write the next if any. */
  function Written(w: Writer, i: nat): Writer
    requires i < |w.ops| && w.queue != []
  {
    var rest := w.(ops := w.ops[..i] + w.ops[i + 1..],
                   queue := w.queue[1..], popped := w.popped + [w.queue[0]]);
    if rest.queue != [] then DoWrite(rest) else rest
  }

  /** The write handler with an error: the front stays in the queue. */
  function WriteError(w: Writer, i: nat): Writer
    requires i < |w.ops|
  {
    w.(ops := w.ops[..i] + w.ops[i + 1..], broken := w.broken + [w.ops[i]])
  }

  /** The write in progress, or the one that failed. */
  function Current(w: Writer): seq<WriteOp> {
    w.ops + w.broken
  }

  /** Write discipline: at most one write was started and not finished well, the
      queue is non-empty exactly then, and it carries the front of the queue;
      `stream` is what went on the wire. */
  ghost predicate WriterInv(w: Writer, stream: seq<Byte>) {
    && AllWellFormed(w.popped) && AllWellFormed(w.queue)
    && |Current(w)| <= 1
    && (Current(w) == [] <==> w.queue == [])
    && (w.queue == [] ==> stream == Concat(w.popped))
    && (w.queue != [] ==>
         var op := Current(w)[0];
         && op.buffer == w.queue[0]
         && op.done <= |op.buffer|
         && stream == Concat(w.popped) + op.buffer[..op.done])
  }

  lemma PushKeeps(w: Writer, stream: seq<Byte>, f: Frame)
    requires WriterInv(w, stream) && WellFormed(f)
    ensures WriterInv(Push(w, f), stream)
    ensures Push(w, f).popped + Push(w, f).queue == w.popped + w.queue + [f]
  {
    assert f[..0] == [];
  }

  lemma {:induction false} PushAllKeeps(w: Writer, stream: seq<Byte>, fs: seq<Frame>)
    requires WriterInv(w, stream) && AllWellFormed(fs)
    ensures WriterInv(PushAll(w, fs), stream)
    ensures PushAll(w, fs).popped + PushAll(w, fs).queue == w.popped + w.queue + fs
  {
    hide Push, WriterInv, WellFormed;
    if fs != [] {
      var init, last := fs[..|fs| - 1], fs[|fs| - 1];
      PushAllKeeps(w, stream, init);
      PushKeeps(PushAll(w, init), stream, last);
      assert w.popped + w.queue + fs == w.popped + w.queue + init + [last];
    }
  }

  lemma SplitFront(before: seq<Byte>, f: Frame, a: nat, b: nat)
    requires a <= b <= |f|
    ensures before + f[..a] + f[a..b] == before + f[..b]
  {
    assert f[..a] + f[a..b] == f[..b];
  }

  lemma TransmitKeeps(w: Writer, stream: seq<Byte>, i: nat, count: nat)
    requires WriterInv(w, stream) && CanTransmit(w, i, count)
    ensures WriterInv(Transmit(w, i, count), stream + Outgoing(w, i, count))
    ensures Transmit(w, i, count).popped + Transmit(w, i, count).queue == w.popped + w.queue
  {
    hide WellFormed, Concat;
    var op := w.ops[0];
    assert Current(w) == [op] && i == 0;
    SplitFront(Concat(w.popped), op.buffer, op.done, op.done + count);
    assert Current(Transmit(w, i, count)) == [op.(done := op.done + count)];
  }

  lemma WrittenKeeps(w: Writer, stream: seq<Byte>, i: nat)
    requires WriterInv(w, stream) && CanFinish(w, i)
    ensures w.queue != [] && |w.ops| == 1 && w.broken == []
    ensures WriterInv(Written(w, i), stream)
    ensures Written(w, i).popped + Written(w, i).queue == w.popped + w.queue
    ensures var v := Written(w, i);
            && v.popped == w.popped + [w.queue[0]] && v.queue == w.queue[1..] && v.broken == []
            && v.ops == if v.queue == [] then [] else [WriteOp(v.queue[0], 0)]
  {
    WrittenValue(w, stream, i);
    FinishedStream(w, stream, i);
    var v := Written(w, i);
    assert v.queue != [] ==> v.queue[0][..0] == [];
    assert Concat(v.popped) == Concat(v.popped) + [];
  }

  lemma WrittenValue(w: Writer, stream: seq<Byte>, i: nat)
    requires WriterInv(w, stream) && CanFinish(w, i)
    ensures w.queue != [] && |w.ops| == 1 && w.broken == []
    ensures Written(w, i) == Writer(w.queue[1..], if |w.queue| == 1 then [] else [WriteOp(w.queue[1], 0)],
                                    w.popped + [w.queue[0]], [])
    ensures Written(w, i).popped + Written(w, i).queue == w.popped + w.queue
  {
    hide WellFormed, Concat;
    assert Current(w) == [w.ops[0]] && w.broken == [];
    assert w.ops[..i] + w.ops[i + 1..] == [];
    assert w.queue == [w.queue[0]] + w.queue[1..];
  }

  lemma FinishedStream(w: Writer, stream: seq<Byte>, i: nat)
    requires WriterInv(w, stream) && CanFinish(w, i)
    ensures w.queue != [] && stream == Concat(w.popped + [w.queue[0]])
  {
    var op := w.ops[0];
    assert Current(w) == [op];
    assert op.buffer[..op.done] == op.buffer;
    ConcatSnoc(w.popped, w.queue[0]);
  }

  lemma WriteErrorKeeps(w: Writer, stream: seq<Byte>, i: nat)
    requires WriterInv(w, stream) && i < |w.ops|
    ensures |w.ops| == 1 && w.broken == []
    ensures WriterInv(WriteError(w, i), stream)
    ensures var v := WriteError(w, i);
            v.ops == [] && v.broken == [w.ops[0]] && v.popped == w.popped && v.queue == w.queue
  {
    assert Current(w)[0] == w.ops[0];
    assert Current(WriteError(w, i)) == [w.ops[0]];
  }

  /** What is on the wire is a prefix of what was handed over to be sent. */
  lemma StreamIsPrefix(w: Writer, stream: seq<Byte>)
    requires WriterInv(w, stream)
    ensures AllWellFormed(w.popped + w.queue)
    ensures stream <= Concat(w.popped + w.queue)
  {
    ConcatAppend(w.popped, w.queue);
    if w.queue != [] {
      var op := Current(w)[0];
      assert Concat(w.queue) == w.queue[0] + Concat(w.queue[1..]);
      assert op.buffer[..op.done] <= w.queue[0] <= Concat(w.queue);
    }
  }
}
