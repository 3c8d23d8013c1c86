/** The class `chat_message`: a fixed buffer with a text header in place. */
module ChatMessages {
  import opened Codec
  import opened Framing
  import opened Endpoint

  /** What `encode_header` does to a message. */
  function HeaderEncoded(m: Message): Message
    requires IsMessage(m)
  {
    m.(data := Encode(m.bodyLength) + m.data[HEADER_LENGTH..])
  }

  /** Encoding a header and decoding it again leaves the whole message alone: the
      length comes back and the body is untouched, whatever length was stored. */
  lemma DecodeAfterEncode(m: Message, forgotten: nat)
    requires IsMessage(m) && forgotten <= MAX_BODY_LENGTH
    ensures IsMessage(HeaderEncoded(m))
    ensures DecodeHeader(HeaderEncoded(m).(bodyLength := forgotten)) == HeaderEncoded(m)
    ensures BodyOf(FrameOf(HeaderEncoded(m))) == m.data[HEADER_LENGTH..HEADER_LENGTH + m.bodyLength]
    ensures WellFormed(FrameOf(HeaderEncoded(m)))
    ensures RightAligned(HeaderEncoded(m).data[..4], m.bodyLength)
  {
    EncodeMeaning(m.bodyLength, Encode(m.bodyLength));
    DecodeEncode(m.bodyLength);
    var e := HeaderEncoded(m);
    assert e.data[..HEADER_LENGTH] == Encode(m.bodyLength);
    assert FrameOf(e)[..HEADER_LENGTH] == Encode(m.bodyLength);
  }

  class ChatMessage {
    const data: array<Byte>
    var bodyLength: nat

    ghost predicate Valid()
      reads this
    {
      data.Length == CAPACITY && bodyLength <= MAX_BODY_LENGTH
    }

    ghost function View(): (m: Message)
      requires Valid()
      reads this, data
      ensures IsMessage(m)
    {
      Message(data[..], bodyLength)
    }

    constructor ()
      ensures Valid() && bodyLength == 0 && fresh(data)
    {
      data := new Byte[CAPACITY];
      bodyLength := 0;
    }

    /** The setter: lengths above 512 are cut to 512. */
    method SetBodyLength(newLength: nat)
      requires Valid()
      modifies this`bodyLength
      ensures Valid()
      ensures bodyLength <= newLength && (bodyLength == newLength || bodyLength == MAX_BODY_LENGTH < newLength)
    {
      bodyLength := newLength;
      if bodyLength > MAX_BODY_LENGTH {
        bodyLength := MAX_BODY_LENGTH;
      }
    }

    method DecodeHeader() returns (ok: bool)
      requires Valid()
      modifies this`bodyLength
      ensures Valid()
      ensures ok == Decode(data[..HEADER_LENGTH]).Some?
      ensures View() == Endpoint.DecodeHeader(old(View()))
    {
      var header := CString(data[..HEADER_LENGTH]);
      bodyLength := ToSizeT(Atoi(header));
      if bodyLength > MAX_BODY_LENGTH {
        bodyLength := 0;
        return false;
      }
      return true;
    }

    method EncodeHeader()
      requires Valid()
      modifies data
      ensures Valid()
      ensures View() == HeaderEncoded(old(View()))
      ensures RightAligned(data[..4], bodyLength) && data[4..] == old(data[4..])
    {
      var header := Encode(bodyLength);
      DecodeEncode(bodyLength);
      var i := 0;
      while i < HEADER_LENGTH
        invariant 0 <= i <= HEADER_LENGTH
        invariant data[..i] == header[..i]
        invariant data[HEADER_LENGTH..] == old(data[HEADER_LENGTH..])
      {
        data[i] := header[i];
        i := i + 1;
      }
      assert data[..] == data[..HEADER_LENGTH] + data[HEADER_LENGTH..];
      assert old(data[..])[HEADER_LENGTH..] == old(data[HEADER_LENGTH..]);
      EncodeMeaning(bodyLength, data[..HEADER_LENGTH]);
    }

    /** Copies `bytes` into the buffer at `at`: a partial transfer of a read, or
        the `memcpy` of a body. */
    method Fill(at: nat, bytes: seq<Byte>)
      requires Valid() && at + |bytes| <= CAPACITY
      modifies data
      ensures Valid()
      ensures View() == Message(Overwrite(old(data[..]), at, bytes), bodyLength)
    {
      forall i | 0 <= i < |bytes| {
        data[at + i] := bytes[i];
      }
      assert data[..] == old(data[..at]) + bytes + old(data[at + |bytes|..]);
    }
  }
}
