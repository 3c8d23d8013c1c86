/** The echo chain that both echo servers run on one connection: read some bytes
    into a fixed buffer, write them back, read again. Any number of operations
    could be outstanding on the one buffer; that there is never more than one is
    proved. */
module Echo {
  import opened Codec

  const BUFFER_SIZE := 1024

  /** An outstanding `async_read_some`, or an `async_write` of the buffer's first
      `length` bytes, `done` of them transmitted. */
  datatype Op = ReadOp | WriteOp(length: nat, done: nat)

  /** `data` is the buffer and `ops` the outstanding operations; `received` and
      `sent` are all bytes so far, `failed` whether an operation has failed. */
  datatype Chain = Chain(data: seq<Byte>, ops: seq<Op>, received: seq<Byte>, sent: seq<Byte>, failed: bool)

  /** What happens to operation `i`. */
  datatype Event =
    | ReadDone(i: nat, bytes: seq<Byte>)
    | ReadFailed(i: nat)
    | WriteSome(i: nat, count: nat)  // some bytes go out and others remain
    | WriteDone(i: nat)              // the remaining bytes go out
    | WriteFailed(i: nat)

  predicate Enabled(c: Chain, e: Event) {
    e.i < |c.ops| &&
    match e
    case ReadDone(i, bytes) => c.ops[i].ReadOp? && |bytes| <= |c.data|
    case ReadFailed(i) => c.ops[i].ReadOp?
    case WriteSome(i, n) => c.ops[i].WriteOp? && c.ops[i].done + n < c.ops[i].length <= |c.data|
    case WriteDone(i) => c.ops[i].WriteOp? && c.ops[i].done <= c.ops[i].length <= |c.data|
    case WriteFailed(i) => c.ops[i].WriteOp?
  }

  predicate IsFailure(e: Event) {
    e.ReadFailed? || e.WriteFailed?
  }

  function Without<T>(s: seq<T>, i: nat): (r: seq<T>)
    requires i < |s|
    ensures |r| == |s| - 1
  {
    s[..i] + s[i + 1..]
  }

  /** A chain that has not been started. */
  function Idle(junk: seq<Byte>): Chain {
    Chain(junk, [], [], [], false)
  }

  /** `start`/`read`. */
  function Read(c: Chain): Chain {
    c.(ops := c.ops + [ReadOp])
  }

  function Write(c: Chain, length: nat): Chain {
    c.(ops := c.ops + [WriteOp(length, 0)])
  }

  /** The handler of operation `i`; after a partial transfer that of the composed
      write, which starts the next transfer. */
  function Handle(c: Chain, e: Event): Chain
    requires Enabled(c, e)
  {
    var rest := c.(ops := Without(c.ops, e.i));
    match e
    case ReadDone(_, bytes) =>
      Write(rest.(data := bytes + c.data[|bytes|..], received := c.received + bytes), |bytes|)
    case ReadFailed(_) => rest.(failed := true)
    case WriteSome(i, n) =>
      var WriteOp(length, done) := c.ops[i];
      rest.(sent := c.sent + c.data[done..done + n], ops := rest.ops + [WriteOp(length, done + n)])
    case WriteDone(i) =>
      Read(rest.(sent := c.sent + c.data[c.ops[i].done..c.ops[i].length]))
    case WriteFailed(_) => rest.(failed := true)
  }

  ghost predicate ChainInv(c: Chain) {
    && |c.data| == BUFFER_SIZE
    && |c.ops| <= 1
    && (c.failed ==> c.ops == [])
    && c.sent <= c.received && |c.received| - |c.sent| <= BUFFER_SIZE
    && (c.ops != [] ==>
          match c.ops[0]
          case ReadOp => c.sent == c.received
          case WriteOp(length, done) =>
            done <= length <= BUFFER_SIZE && c.received == c.sent + c.data[done..length])
  }

  lemma HandleKeeps(c: Chain, e: Event)
    requires ChainInv(c) && Enabled(c, e)
    ensures ChainInv(Handle(c, e))
    ensures Handle(c, e).ops == [] <==> Handle(c, e).failed
    ensures Handle(c, e).failed <==> IsFailure(e)
  {
    assert Without(c.ops, e.i) == [];
    match e
    case ReadDone(_, bytes) =>
      assert (bytes + c.data[|bytes|..])[0..|bytes|] == bytes;
    case WriteSome(_, n) =>
      var WriteOp(length, done) := c.ops[0];
      assert c.data[done..length] == c.data[done..done + n] + c.data[done + n..length];
    case _ =>
  }

  function Step(c: Chain, e: Event): Chain {
    if Enabled(c, e) then Handle(c, e) else c
  }

  /** The chain after any events; one that cannot happen changes nothing. */
  function Run(junk: seq<Byte>, events: seq<Event>): Chain {
    if events == [] then Read(Idle(junk)) else Step(Run(junk, events[..|events| - 1]), events[|events| - 1])
  }

  lemma RunSnoc(junk: seq<Byte>, events: seq<Event>, e: Event)
    ensures Run(junk, events + [e]) == Step(Run(junk, events), e)
  {
    assert (events + [e])[..|events|] == events;
  }

  lemma {:induction false} RunKeeps(junk: seq<Byte>, events: seq<Event>)
    requires |junk| == BUFFER_SIZE
    ensures ChainInv(Run(junk, events))
    ensures Run(junk, events).ops == [] <==> Run(junk, events).failed
  {
    if events != [] {
      RunKeeps(junk, events[..|events| - 1]);
      var c, e := Run(junk, events[..|events| - 1]), events[|events| - 1];
      if Enabled(c, e) { HandleKeeps(c, e); }
    }
  }

  /** At most one operation is outstanding on the buffer in every run, and there
      is one until an operation fails. */
  lemma {:induction false} OneOutstanding(junk: seq<Byte>, events: seq<Event>)
    requires |junk| == BUFFER_SIZE
    ensures |Run(junk, events).ops| == if Run(junk, events).failed then 0 else 1
    ensures (forall e :: e in events ==> !IsFailure(e)) ==> !Run(junk, events).failed
  {
    RunKeeps(junk, events);
    if events != [] {
      var init := events[..|events| - 1];
      RunKeeps(junk, init);
      OneOutstanding(junk, init);
      var c, e := Run(junk, init), events[|events| - 1];
      if Enabled(c, e) { HandleKeeps(c, e); }
    }
  }

  /** All bytes that the peer's data brought in: those of the reads that were
      outstanding when their data came. */
  function Input(junk: seq<Byte>, events: seq<Event>): seq<Byte> {
    if events == [] then [] else
    var before, e := events[..|events| - 1], events[|events| - 1];
    Input(junk, before) + if e.ReadDone? && Enabled(Run(junk, before), e) then e.bytes else []
  }

  lemma StepReceives(c: Chain, e: Event)
    ensures Step(c, e).received == c.received + if e.ReadDone? && Enabled(c, e) then e.bytes else []
  {
  }

  lemma {:induction false} ReceivedIsInput(junk: seq<Byte>, events: seq<Event>)
    ensures Run(junk, events).received == Input(junk, events)
  {
    if events != [] {
      var before, e := events[..|events| - 1], events[|events| - 1];
      ReceivedIsInput(junk, before);
      StepReceives(Run(junk, before), e);
    }
  }

  /** The chain echoes `input`: it has one operation outstanding until one fails; it
      has sent back a prefix of the input, all of it when a read is outstanding, and
      all but the untransmitted part of the buffer while a write is. */
  ghost predicate Echoes(c: Chain, input: seq<Byte>) {
    && |c.ops| == (if c.failed then 0 else 1)
    && c.received == input
    && c.sent <= input && |input| - |c.sent| <= 1024
    && forall i :: 0 <= i < |c.ops| ==>
         match c.ops[i]
         case ReadOp => c.sent == input
         case WriteOp(length, done) => done <= length <= |c.data| && input == c.sent + c.data[done..length]
  }

  lemma InvEchoes(c: Chain)
    requires ChainInv(c) && (c.ops == [] <==> c.failed)
    ensures Echoes(c, c.received)
  {
  }

  /** Echo: in every run what the peer's data brings in is what goes back. */
  lemma {:induction false} EchoesPrefix(junk: seq<Byte>, events: seq<Event>)
    requires |junk| == BUFFER_SIZE
    ensures Echoes(Run(junk, events), Input(junk, events))
  {
    hide ChainInv, Echoes;
    RunKeeps(junk, events);
    ReceivedIsInput(junk, events);
    InvEchoes(Run(junk, events));
  }

  /** What comes in goes out: whatever data of up to 1024 bytes comes while a read is
      outstanding is on its way back at once, for every split of it into two
      transfers; afterwards all input has been sent and the next read is outstanding. */
  lemma {:induction false} DataComesBack(junk: seq<Byte>, events: seq<Event>, bytes: seq<Byte>, n: nat)
    requires |junk| == BUFFER_SIZE && Run(junk, events).ops == [ReadOp]
    requires n < |bytes| <= 1024
    ensures var c := Run(junk, events);
            var half := Run(junk, events + [ReadDone(0, bytes)] + [WriteSome(0, n)]);
            var all := Run(junk, events + [ReadDone(0, bytes)] + [WriteSome(0, n)] + [WriteDone(0)]);
            && half.received == c.received + bytes && half.sent == c.sent + bytes[..n]
            && all.received == c.received + bytes && all.sent == c.sent + bytes && all.ops == [ReadOp]
  {
    RunKeeps(junk, events);
    var filled := events + [ReadDone(0, bytes)];
    var some := filled + [WriteSome(0, n)];
    RunSnoc(junk, events, ReadDone(0, bytes));
    RunSnoc(junk, filled, WriteSome(0, n));
    RunSnoc(junk, some, WriteDone(0));
    ThreeSteps(Run(junk, events), bytes, n);
  }

  lemma ThreeSteps(c: Chain, bytes: seq<Byte>, n: nat)
    requires ChainInv(c) && c.ops == [ReadOp] && n < |bytes| <= BUFFER_SIZE
    ensures var half := Step(Step(c, ReadDone(0, bytes)), WriteSome(0, n));
            var all := Step(half, WriteDone(0));
            && half.received == c.received + bytes && half.sent == c.sent + bytes[..n]
            && all.received == c.received + bytes && all.sent == c.sent + bytes && all.ops == [ReadOp]
  {
    var data := bytes + c.data[|bytes|..];
    var filled := Step(c, ReadDone(0, bytes));
    assert filled == Chain(data, [WriteOp(|bytes|, 0)], c.received + bytes, c.sent, false);
    assert data[0..n] == bytes[..n] && data[n..|bytes|] == bytes[n..];
    var half := Step(filled, WriteSome(0, n));
    assert half == Chain(data, [WriteOp(|bytes|, n)], c.received + bytes, c.sent + bytes[..n], false);
    assert c.sent + bytes[..n] + bytes[n..] == c.sent + bytes;
  }

  /** An operation that fails, read or write, ends the chain and sends nothing. */
  lemma {:induction false} FailureEnds(junk: seq<Byte>, events: seq<Event>, e: Event)
    requires |junk| == BUFFER_SIZE && Run(junk, events).ops != []
    requires e == if Run(junk, events).ops[0].ReadOp? then ReadFailed(0) else WriteFailed(0)
    ensures Run(junk, events + [e]) == Run(junk, events).(ops := [], failed := true)
  {
    RunKeeps(junk, events);
    RunSnoc(junk, events, e);
  }

  /** In state `d` the write that `w` was in state `c` is still outstanding, and has
      sent bytes of the buffer of `c` alone. */
  ghost predicate StillWriting(c: Chain, w: Op, d: Chain)
    requires w.WriteOp?
  {
    && d.data == c.data && d.received == c.received
    && |d.ops| == 1 && d.ops[0].WriteOp? && d.ops[0].length == w.length
    && w.done <= d.ops[0].done <= w.length <= |c.data|
    && d.sent == c.sent + c.data[w.done..d.ops[0].done]
  }

  lemma StillWritingKeeps(c: Chain, w: Op, d: Chain, e: Event)
    requires w.WriteOp? && StillWriting(c, w, d) && Enabled(d, e) && !e.WriteDone? && !e.WriteFailed?
    ensures StillWriting(c, w, Handle(d, e))
  {
    assert Without(d.ops, 0) == [];
    var from, mid := w.done, d.ops[0].done;
    assert c.data[from..mid + e.count] == c.data[from..mid] + c.data[mid..mid + e.count];
  }

  /** From the moment a write is outstanding until it completes or fails, whatever
      else is tried, the buffer keeps its bytes and the bytes that go out are
      those of the buffer, in order. */
  lemma {:induction false} BufferStableWhileWriting(junk: seq<Byte>, events: seq<Event>, more: seq<Event>, i: nat)
    requires |junk| == BUFFER_SIZE && i < |Run(junk, events).ops| && Run(junk, events).ops[i].WriteOp?
    requires forall e :: e in more ==> !e.WriteDone? && !e.WriteFailed?
    ensures StillWriting(Run(junk, events), Run(junk, events).ops[i], Run(junk, events + more))
  {
    if more == [] {
      RunKeeps(junk, events);
      assert events + more == events;
    } else {
      hide StillWriting, Handle, Enabled;
      var init, e := more[..|more| - 1], more[|more| - 1];
      assert (events + more)[..|events + more| - 1] == events + init;
      BufferStableWhileWriting(junk, events, init, i);
      if Enabled(Run(junk, events + init), e) {
        StillWritingKeeps(Run(junk, events), Run(junk, events).ops[i], Run(junk, events + init), e);
      }
    }
  }
}
