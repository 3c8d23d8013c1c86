/** The chat client as a value: what each of its handlers and its `main` loop
    do to it. */
module ClientSpec {
  import opened Codec
  import opened Framing
  import opened Endpoint

  /** What `main` posts to the I/O thread. */
  datatype Posted = PostWrite(frame: Frame) | PostClose

  datatype Link = Connecting | Connected | NoConnection

  /** `posted` are posted handlers not yet run, oldest first; `typed` is the
      history of messages passed to `write`, `printed` of bodies printed;
      `ended` says that the line loop of `main` is over. */
  datatype Client = Client(link: Link, closed: bool, reader: Reader, writer: Writer,
                           posted: seq<Posted>, ended: bool,
                           typed: seq<Frame>, printed: seq<seq<Byte>>)

  function NewClient(junk: Message): Client {
    Client(Connecting, false, Reader(junk, Stopped, 0, []), NO_WRITES, [], false, [], [])
  }

  /** The message that `main` makes of a line. */
  function MessageOfLine(line: seq<Byte>): Frame
    requires |line| <= MAX_BODY_LENGTH
  {
    Encode(|line|) + line
  }

  lemma LineWellFormed(line: seq<Byte>)
    requires |line| <= MAX_BODY_LENGTH
    ensures WellFormed(MessageOfLine(line)) && BodyOf(MessageOfLine(line)) == line
    ensures RightAligned(MessageOfLine(line)[..4], |line|)
  {
    DecodeEncode(|line|);
    EncodeMeaning(|line|, Encode(|line|));
    assert MessageOfLine(line)[..HEADER_LENGTH] == Encode(|line|);
  }

  function PostedFrame(p: Posted): seq<Frame> {
    match p case PostWrite(f) => [f] case PostClose => []
  }

  function PostedFrames(posted: seq<Posted>): seq<Frame> {
    if posted == [] then [] else PostedFrame(posted[0]) + PostedFrames(posted[1..])
  }

  lemma {:induction false} PostedFramesAppend(a: seq<Posted>, p: Posted)
    ensures PostedFrames(a + [p]) == PostedFrames(a) + PostedFrame(p)
  {
    hide PostedFrame;
    if a == [] {
      assert PostedFrames([p]) == PostedFrame(p) + PostedFrames([]);
      assert a + [p] == [p];
    } else {
      PostedFramesAppend(a[1..], p);
      assert (a + [p])[1..] == a[1..] + [p];
      assert (a + [p])[0] == a[0];
    }
  }

  // ---------------------------------------------------------------- main

  const NEWLINE: Byte := 10

  datatype Getline = Line(text: seq<Byte>, rest: seq<Byte>) | EndOfLines

  function NewlineIndex(input: seq<Byte>): (n: nat)
    ensures n <= |input| && NEWLINE !in input[..n] && (n < |input| ==> input[n] == NEWLINE)
  {
    if input == [] || input[0] == NEWLINE then 0 else 1 + NewlineIndex(input[1..])
  }

  /** `cin.getline(line, 513)`: stops at the end of input or at a newline, and
      fails on an empty input or a line of more than 512 characters. */
  function GetLine(input: seq<Byte>): Getline {
    var n := NewlineIndex(input);
    if input == [] || n > MAX_BODY_LENGTH then EndOfLines
    else Line(input[..n], if n < |input| then input[n + 1..] else [])
  }

  /** The lines that the loop of `main` sees; each is cut at its first NUL by `strlen`. */
  function Lines(input: seq<Byte>): (r: seq<seq<Byte>>)
    ensures forall i :: 0 <= i < |r| ==> |r[i]| <= MAX_BODY_LENGTH && 0 !in r[i] && NEWLINE !in r[i]
    decreases |input|
  {
    match GetLine(input)
    case EndOfLines => []
    case Line(text, rest) => [CString(text)] + Lines(rest)
  }

  function Unlines(lines: seq<seq<Byte>>): seq<Byte> {
    if lines == [] then [] else lines[0] + [NEWLINE] + Unlines(lines[1..])
  }

  /** A line that `getline` takes whole. */
  ghost predicate Fits(line: seq<Byte>) {
    |line| <= 512 && NEWLINE !in line
  }

  /** Each line cut at its first NUL. */
  function Cut(lines: seq<seq<Byte>>): (r: seq<seq<Byte>>)
    ensures |r| == |lines| && forall i :: 0 <= i < |lines| ==> r[i] == CString(lines[i])
    ensures (forall i :: 0 <= i < |lines| ==> 0 !in lines[i]) ==> r == lines
  {
    CutNothing(lines);
    seq(|lines|, i requires 0 <= i < |lines| => CString(lines[i]))
  }

  lemma CutNothing(lines: seq<seq<Byte>>)
    ensures forall i :: 0 <= i < |lines| && 0 !in lines[i] ==> CString(lines[i]) == lines[i]
  {
    forall i | 0 <= i < |lines| && 0 !in lines[i] ensures CString(lines[i]) == lines[i] { NoNul(lines[i]); }
  }

  lemma {:induction false} FirstNewline(line: seq<Byte>, rest: seq<Byte>)
    requires NEWLINE !in line
    ensures NewlineIndex(line + [NEWLINE] + rest) == |line|
  {
    if line != [] {
      assert (line + [NEWLINE] + rest)[1..] == line[1..] + [NEWLINE] + rest;
      FirstNewline(line[1..], rest);
    }
  }

  lemma {:induction false} NewlineNotBefore(s: seq<Byte>, m: nat)
    requires m <= |s| && NEWLINE !in s[..m]
    ensures NewlineIndex(s) >= m
  {
    if m > 0 {
      assert s[..m][0] == s[0] && s[..m][1..] == s[1..][..m - 1];
      NewlineNotBefore(s[1..], m - 1);
    }
  }

  lemma GetLineOf(line: seq<Byte>, rest: seq<Byte>)
    requires Fits(line)
    ensures GetLine(line + [NEWLINE] + rest) == Line(line, rest)
  {
    FirstNewline(line, rest);
    var all := line + [NEWLINE] + rest;
    assert all[..|line|] == line && all[|line| + 1..] == rest;
  }

  /** Whatever lines of at most 512 characters are typed, the loop sees exactly
      those lines, each up to its first NUL, and goes on with what follows them. */
  lemma {:induction false} LinesOfUnlines(lines: seq<seq<Byte>>, tail: seq<Byte>)
    requires forall i :: 0 <= i < |lines| ==> Fits(lines[i])
    ensures Lines(Unlines(lines) + tail) == Cut(lines) + Lines(tail)
  {
    hide *;
    if lines == [] {
      UnlinesNil(tail, Lines(tail));
    } else {
      var others := lines[1..];
      forall i | 0 <= i < |others| ensures Fits(others[i]) { assert others[i] == lines[i + 1]; }
      LinesOfUnlines(others, tail);
      UnlinesCons(lines, tail);
      assert Fits(lines[0]);
      LinesCons(lines[0], Unlines(others) + tail);
      CutCons(lines);
      Rejoin(Cut(lines), Lines(tail));
    }
  }

  lemma CutCons(lines: seq<seq<Byte>>)
    requires lines != []
    ensures Cut(lines)[0] == CString(lines[0]) && Cut(lines)[1..] == Cut(lines[1..])
  {
  }

  /** A last line is sent even when no newline ends it, and nothing comes of an
      input that has been read to its end. */
  lemma {:induction false} LastLine(lines: seq<seq<Byte>>, last: seq<Byte>)
    requires (forall i :: 0 <= i < |lines| ==> Fits(lines[i])) && Fits(last)
    ensures Lines(Unlines(lines) + last) == Cut(lines) + if last == [] then [] else [CString(last)]
  {
    LinesOfUnlines(lines, last);
    if last != [] {
      hide CString, Unlines, Cut;
      NewlineNotBefore(last, |last|);
      assert last[..|last|] == last;
      assert GetLine(last) == Line(last, []);
      assert Lines(last) == [CString(last)] + Lines([]);
    }
  }

  lemma {:induction false} Rejoin(lines: seq<seq<Byte>>, more: seq<seq<Byte>>)
    requires lines != []
    ensures [lines[0]] + (lines[1..] + more) == lines + more
  {
  }

  lemma LinesCons(line: seq<Byte>, rest: seq<Byte>)
    requires Fits(line)
    ensures Lines(line + [NEWLINE] + rest) == [CString(line)] + Lines(rest)
  {
    GetLineOf(line, rest);
    hide GetLine, CString;
  }

  lemma {:induction false} UnlinesNil(tail: seq<Byte>, more: seq<seq<Byte>>)
    ensures Unlines([]) + tail == tail && [] + more == more
  {
  }

  lemma UnlinesCons(lines: seq<seq<Byte>>, tail: seq<Byte>)
    requires lines != []
    ensures Unlines(lines) + tail == lines[0] + [NEWLINE] + (Unlines(lines[1..]) + tail)
  {
  }

  /** The first line that is too long ends the loop: it and all that follows is dropped. */
  lemma TooLongEndsInput(lines: seq<seq<Byte>>, tail: seq<Byte>)
    requires forall i :: 0 <= i < |lines| ==> Fits(lines[i])
    requires |tail| > 512 && NEWLINE !in tail[..513]
    ensures Lines(Unlines(lines) + tail) == Cut(lines)
  {
    LinesOfUnlines(lines, tail);
    NewlineNotBefore(tail, MAX_BODY_LENGTH + 1);
    assert Cut(lines) + Lines(tail) == Cut(lines);
  }

  /** One iteration of the line loop: `write` posts the push of the message. */
  function TypeLine(cl: Client, line: seq<Byte>): Client
    requires |line| <= MAX_BODY_LENGTH
  {
    var f := MessageOfLine(line);
    cl.(posted := cl.posted + [PostWrite(f)], typed := cl.typed + [f])
  }

  function TypeAll(cl: Client, lines: seq<seq<Byte>>): Client
    requires forall i :: 0 <= i < |lines| ==> |lines[i]| <= MAX_BODY_LENGTH
    decreases lines
  {
    if lines == [] then cl else TypeAll(TypeLine(cl, lines[0]), lines[1..])
  }

  /** The handlers that post some messages, in order. */
  function Writes(fs: seq<Frame>): (r: seq<Posted>)
    ensures |r| == |fs| && PostClose !in r
  {
    seq(|fs|, i requires 0 <= i < |fs| => PostWrite(fs[i]))
  }

  function Messages(lines: seq<seq<Byte>>): (r: seq<Frame>)
    requires forall i :: 0 <= i < |lines| ==> |lines[i]| <= MAX_BODY_LENGTH
    ensures |r| == |lines| && AllWellFormed(r) && Bodies(r) == lines
  {
    MessagesMean(lines);
    seq(|lines|, i requires 0 <= i < |lines| => MessageOfLine(lines[i]))
  }

  lemma MessagesMean(lines: seq<seq<Byte>>)
    requires forall i :: 0 <= i < |lines| ==> |lines[i]| <= MAX_BODY_LENGTH
    ensures forall i :: 0 <= i < |lines| ==>
              WellFormed(MessageOfLine(lines[i])) && BodyOf(MessageOfLine(lines[i])) == lines[i]
  {
    forall i | 0 <= i < |lines|
      ensures WellFormed(MessageOfLine(lines[i])) && BodyOf(MessageOfLine(lines[i])) == lines[i]
    {
      LineWellFormed(lines[i]);
    }
  }

  /** What the line loop types is what it was given: the new messages are well
      formed, have the lines as their bodies, and are posted in order. */
  lemma {:induction false} TypeAllMeans(cl: Client, lines: seq<seq<Byte>>)
    requires forall i :: 0 <= i < |lines| ==> |lines[i]| <= MAX_BODY_LENGTH
    ensures var after := TypeAll(cl, lines);
            && Bodies(after.typed) == Bodies(cl.typed) + lines
            && cl.typed <= after.typed && AllWellFormed(after.typed[|cl.typed|..])
            && after == cl.(posted := cl.posted + Writes(after.typed[|cl.typed|..]), typed := after.typed)
  {
    TypeAllIsMessages(cl, lines);
    var fs := Messages(lines);
    assert (cl.typed + fs)[|cl.typed|..] == fs;
    assert Bodies(cl.typed + fs) == Bodies(cl.typed) + Bodies(fs);
  }

  lemma {:induction false} TypeAllIsMessages(cl: Client, lines: seq<seq<Byte>>)
    requires forall i :: 0 <= i < |lines| ==> |lines[i]| <= MAX_BODY_LENGTH
    ensures var fs := Messages(lines);
            TypeAll(cl, lines) == cl.(posted := cl.posted + Writes(fs), typed := cl.typed + fs)
    decreases lines
  {
    hide MessageOfLine, WellFormed, Bodies, Messages, Writes;
    if lines == [] {
      Nothing(cl.typed);
      Nothing(cl.posted);
    } else {
      TypeAllIsMessages(TypeLine(cl, lines[0]), lines[1..]);
      var f, others := MessageOfLine(lines[0]), Messages(lines[1..]);
      MessagesCons(lines);
      WritesCons(f, others);
      Regrouped(cl.typed, f, others);
      Regrouped(cl.posted, PostWrite(f), Writes(others));
    }
  }

  lemma MessagesCons(lines: seq<seq<Byte>>)
    requires lines != [] && forall i :: 0 <= i < |lines| ==> |lines[i]| <= MAX_BODY_LENGTH
    ensures Messages(lines) == [MessageOfLine(lines[0])] + Messages(lines[1..])
  {
    hide MessageOfLine, WellFormed, Bodies;
  }

  lemma {:induction false} WritesCons(f: Frame, others: seq<Frame>)
    ensures Writes([f] + others) == [PostWrite(f)] + Writes(others)
  {
  }

  lemma Nothing<T>(s: seq<T>)
    ensures s + [] == s
  {
  }

  lemma Regrouped'<T>(a: seq<T>, b: seq<T>, x: T)
    ensures a + (b + [x]) == a + b + [x]
  {
  }

  lemma Regrouped<T>(a: seq<T>, x: T, b: seq<T>)
    ensures (a + [x]) + b == a + ([x] + b)
  {
  }

  /** After the loop, `close` posts the closing of the socket. */
  function EndInput(cl: Client): Client {
    cl.(posted := cl.posted + [PostClose], ended := true)
  }

  // ---------------------------------------------------------------- handlers

  function RunPosted(cl: Client): Client
    requires cl.posted != []
  {
    var rest := cl.(posted := cl.posted[1..]);
    match cl.posted[0]
    case PostWrite(f) => rest.(writer := Push(cl.writer, f))
    case PostClose => rest.(closed := true)
  }

  function OnConnect(cl: Client, ok: bool): Client {
    if ok then cl.(link := Connected, reader := ReadHeader(cl.reader)) else cl.(link := NoConnection)
  }

  /** The handlers of `do_read_header` and `do_read_body`. */
  function OnRead(cl: Client, ok: bool): Client
    requires ok ==> CanComplete(cl.reader)
  {
    if !ok then cl.(reader := ReadError(cl.reader), closed := true)
    else if cl.reader.phase == Header then
      var r := HeaderRead(cl.reader);
      cl.(reader := r, closed := cl.closed || r.phase == Stopped)
    else
      cl.(reader := BodyRead(cl.reader), printed := cl.printed + [BodyOf(FrameOf(cl.reader.msg))])
  }

  /** The handler of `do_write`. */
  function OnWrite(cl: Client, i: nat, ok: bool): Client
    requires i < |cl.writer.ops| && (ok ==> cl.writer.queue != [])
  {
    if ok then cl.(writer := Written(cl.writer, i))
    else cl.(writer := WriteError(cl.writer, i), closed := true)
  }

  // ---------------------------------------------------------------- invariant

  /** The closing that `main` has posted has run. */
  ghost predicate CloseHasRun(cl: Client) {
    cl.ended && PostClose !in cl.posted
  }

  /** The socket is closed exactly once the read chain has ended, a write has
      failed, or the handler that `main` posts last has run. */
  ghost predicate Closes(cl: Client) {
    && (cl.closed <==> (cl.link == Connected && cl.reader.phase == Stopped)
                       || cl.writer.broken != [] || CloseHasRun(cl))
    && (!cl.ended ==> PostClose !in cl.posted)
    && (forall i :: 0 <= i < |cl.posted| - 1 ==> cl.posted[i] != PostClose)
  }

  /** What holds of the client between handlers, for the bytes it has `sent` and
      the bytes it has `received`. */
  ghost predicate ClientInv(cl: Client, sent: seq<Byte>, received: seq<Byte>) {
    && ReaderInv(cl.reader, received)
    && WriterInv(cl.writer, sent)
    && AllWellFormed(cl.typed)
    && cl.writer.popped + cl.writer.queue + PostedFrames(cl.posted) == cl.typed
    && cl.printed == Bodies(cl.reader.emitted)
    && (cl.link == Connecting ==> received == [] && cl.reader.emitted == [])
    && (cl.link != Connected ==> cl.reader.phase == Stopped)
    && Closes(cl)
  }

  lemma NewClientInv(junk: Message)
    requires IsMessage(junk)
    ensures ClientInv(NewClient(junk), [], [])
  {
  }

  lemma TypeLineKeeps(cl: Client, sent: seq<Byte>, received: seq<Byte>, line: seq<Byte>)
    requires ClientInv(cl, sent, received) && |line| <= MAX_BODY_LENGTH && !cl.ended
    ensures ClientInv(TypeLine(cl, line), sent, received)
    ensures var after := TypeLine(cl, line);
            && Bodies(after.typed) == Bodies(cl.typed) + [line]
            && after.posted == cl.posted + [PostWrite(after.typed[|cl.typed|])]
            && after == cl.(posted := after.posted, typed := after.typed)
  {
    hide MessageOfLine, WellFormed, PostedFrames, ReaderInv, WriterInv, Bodies;
    LineWellFormed(line);
    var f := MessageOfLine(line);
    PostedFramesAppend(cl.posted, PostWrite(f));
    assert Bodies(cl.typed + [f]) == Bodies(cl.typed) + [line];
    Regrouped'(cl.writer.popped + cl.writer.queue, PostedFrames(cl.posted), f);
  }

  lemma EndInputKeeps(cl: Client, sent: seq<Byte>, received: seq<Byte>)
    requires ClientInv(cl, sent, received) && !cl.ended
    ensures ClientInv(EndInput(cl), sent, received)
    ensures EndInput(cl).posted == cl.posted + [PostClose] && EndInput(cl).ended
    ensures EndInput(cl) == cl.(posted := EndInput(cl).posted, ended := true)
  {
    PostedFramesAppend(cl.posted, PostClose);
  }

  lemma RunPostedCloses(cl: Client)
    requires Closes(cl) && cl.posted != [] && (cl.link != Connected ==> cl.reader.phase == Stopped)
    ensures Closes(RunPosted(cl))
  {
    var rest := cl.posted[1..];
    assert forall i :: 0 <= i < |rest| ==> rest[i] == cl.posted[i + 1];
  }

  lemma RunPostedKeeps(cl: Client, sent: seq<Byte>, received: seq<Byte>)
    requires ClientInv(cl, sent, received) && cl.posted != []
    ensures ClientInv(RunPosted(cl), sent, received)
    ensures var after := RunPosted(cl);
            && after.posted == cl.posted[1..] && after.reader == cl.reader && after.link == cl.link
            && after.typed == cl.typed && after.printed == cl.printed && after.ended == cl.ended
            && match cl.posted[0]
               case PostWrite(f) =>
                 && after.closed == cl.closed && after.writer.broken == cl.writer.broken
                 && after.writer.popped == cl.writer.popped && after.writer.queue == cl.writer.queue + [f]
               case PostClose => after.closed && after.writer == cl.writer
  {
    hide Closes, ReaderInv, WriterInv;
    RunPostedCloses(cl);
    var rest := PostedFrames(cl.posted[1..]);
    match cl.posted[0]
    case PostWrite(f) =>
      var before := cl.writer.popped + cl.writer.queue;
      assert PostedFrames(cl.posted) == [f] + rest;
      assert before + [f] + rest == cl.typed;
      assert cl.typed[|before|] == f;
      PushKeeps(cl.writer, sent, f);
    case PostClose =>
      assert PostedFrames(cl.posted) == [] + rest == rest;
  }

  lemma OnConnectKeeps(cl: Client, sent: seq<Byte>, received: seq<Byte>, ok: bool)
    requires ClientInv(cl, sent, received) && cl.link == Connecting
    ensures ClientInv(OnConnect(cl, ok), sent, received)
    ensures var after := OnConnect(cl, ok);
            && after == cl.(link := after.link, reader := after.reader)
            && after.reader.msg == cl.reader.msg && after.reader.emitted == cl.reader.emitted
            && if ok then after.link == Connected && after.reader.phase == Header && after.reader.got == 0
               else after.link == NoConnection && after.reader.phase == Stopped
  {
    assert cl.reader.msg.data[..0] == [];
  }

  lemma OnReadKeeps(cl: Client, sent: seq<Byte>, received: seq<Byte>, ok: bool)
    requires ClientInv(cl, sent, received) && cl.reader.phase != Stopped
    requires ok ==> CanComplete(cl.reader)
    ensures ClientInv(OnRead(cl, ok), sent, received)
    ensures var after, r := OnRead(cl, ok), cl.reader;
            && after == cl.(reader := after.reader, closed := after.closed, printed := after.printed)
            && if !ok then
                 && after.closed && after.reader.phase == Stopped
                 && after.reader.emitted == r.emitted && after.printed == cl.printed
               else if r.phase == Body then
                 && after.closed == cl.closed && after.reader.phase == Header && after.reader.got == 0
                 && after.reader.emitted == r.emitted + [FrameOf(r.msg)]
                 && after.printed == cl.printed + [r.msg.data[4..4 + r.msg.bodyLength]]
               else
                 && after.reader.emitted == r.emitted && after.printed == cl.printed
                 && match Decode(r.msg.data[..4])
                    case Some(n) =>
                      && after.closed == cl.closed && after.reader.phase == Body && after.reader.got == 0
                      && after.reader.msg.bodyLength == n
                    case None => after.closed && after.reader.phase == Stopped
  {
    if ok {
      CompleteKeeps(cl.reader, received);
      var f := FrameOf(cl.reader.msg);
      assert Bodies(cl.reader.emitted + [f]) == Bodies(cl.reader.emitted) + [BodyOf(f)];
    }
  }

  lemma OnWriteKeeps(cl: Client, sent: seq<Byte>, received: seq<Byte>, i: nat, ok: bool)
    requires ClientInv(cl, sent, received) && i < |cl.writer.ops|
    requires ok ==> CanFinish(cl.writer, i)
    ensures ok ==> cl.writer.queue != []
    ensures ClientInv(OnWrite(cl, i, ok), sent, received)
    ensures var after, w := OnWrite(cl, i, ok), cl.writer;
            && after == cl.(writer := after.writer, closed := after.closed)
            && if ok then
                 && after.closed == cl.closed && after.writer.broken == []
                 && after.writer.popped == w.popped + [w.queue[0]] && after.writer.queue == w.queue[1..]
                 && after.writer.ops == if |w.queue| == 1 then [] else [WriteOp(w.queue[1], 0)]
               else
                 && after.closed && after.writer.ops == [] && after.writer.broken == [w.ops[0]]
                 && after.writer.popped == w.popped && after.writer.queue == w.queue
  {
    if ok {
      WrittenKeeps(cl.writer, sent, i);
    } else {
      WriteErrorKeeps(cl.writer, sent, i);
    }
  }
}
