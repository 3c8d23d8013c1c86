/** Frames on a byte stream: a frame is the first `length()` bytes of a chat
    message, its header followed by its body. */
module Framing {
  import opened Codec

  type Frame = seq<Byte>

  /** The frame's own header decodes to the length of its body. */
  predicate WellFormed(f: Frame) {
    |f| >= HEADER_LENGTH && Decode(f[..HEADER_LENGTH]) == Some(|f| - HEADER_LENGTH)
  }

  ghost predicate AllWellFormed(fs: seq<Frame>) {
    forall i :: 0 <= i < |fs| ==> WellFormed(fs[i])
  }

  function BodyOf(f: Frame): seq<Byte> {
    if |f| < HEADER_LENGTH then [] else f[HEADER_LENGTH..]
  }

  function Bodies(fs: seq<Frame>): (r: seq<seq<Byte>>)
    ensures |r| == |fs| && forall i :: 0 <= i < |fs| ==> r[i] == BodyOf(fs[i])
  {
    seq(|fs|, i requires 0 <= i < |fs| => BodyOf(fs[i]))
  }

  /** The bytes of a sequence of frames, one after the other. */
  function Concat(fs: seq<Frame>): seq<Byte> {
    if fs == [] then [] else fs[0] + Concat(fs[1..])
  }

  /** What a stream means: the frames a reader of header-then-body can complete
      from it. A rejected header ends the stream. */
  function Parse(s: seq<Byte>): seq<Frame>
    decreases |s|
  {
    if |s| < HEADER_LENGTH then [] else
    match Decode(s[..HEADER_LENGTH])
    case None => []
    case Some(n) =>
      if |s| < HEADER_LENGTH + n then []
      else [s[..HEADER_LENGTH + n]] + Parse(s[HEADER_LENGTH + n..])
  }

  lemma {:induction false} ConcatAppend(a: seq<Frame>, b: seq<Frame>)
    ensures Concat(a + b) == Concat(a) + Concat(b)
  {
    if a == [] {
      assert a + b == b;
    } else {
      assert (a + b)[1..] == a[1..] + b;
      ConcatAppend(a[1..], b);
    }
  }

  lemma ConcatSnoc(a: seq<Frame>, f: Frame)
    ensures Concat(a + [f]) == Concat(a) + f
  {
    ConcatAppend(a, [f]);
    assert Concat([f]) == f + Concat([]) == f;
  }

  lemma ParseCons(f: Frame, rest: seq<Byte>)
    requires WellFormed(f)
    ensures Parse(f + rest) == [f] + Parse(rest)
  {
    var s := f + rest;
    assert s[..HEADER_LENGTH] == f[..HEADER_LENGTH];
    assert s[..|f|] == f && s[|f|..] == rest;
  }

  lemma {:induction false} ConcatCons(f: Frame, others: seq<Frame>, tail: seq<Byte>, more: seq<Frame>)
    ensures Concat([f] + others) + tail == f + (Concat(others) + tail)
    ensures ([f] + others) + more == [f] + (others + more)
  {
    assert ([f] + others)[1..] == others;
  }

  /** Reading back what was written, with anything behind it. */
  lemma {:induction false} ParseConcat(fs: seq<Frame>, tail: seq<Byte>)
    requires AllWellFormed(fs)
    ensures Parse(Concat(fs) + tail) == fs + Parse(tail)
  {
    if fs == [] {
      assert Concat(fs) + tail == tail;
    } else {
      var f, others := fs[0], fs[1..];
      ParseConcat(others, tail);
      ParseCons(f, Concat(others) + tail);
      ConcatCons(f, others, tail, Parse(tail));
      assert [f] + others == fs;
    }
  }

  lemma FrontOf(s: seq<Byte>, n: nat, p: seq<Byte>)
    requires n <= |s| && p <= s[n..]
    ensures s[..n] + p <= s
  {
    assert s[..n] + s[n..] == s;
  }

  lemma {:induction false} ParseSound(s: seq<Byte>)
    ensures AllWellFormed(Parse(s)) && Concat(Parse(s)) <= s
    decreases |s|
  {
    if |s| >= HEADER_LENGTH && Decode(s[..HEADER_LENGTH]).Some? {
      var n := HEADER_LENGTH + Decode(s[..HEADER_LENGTH]).value;
      if |s| >= n {
        ParseSound(s[n..]);
        assert s[..n][..HEADER_LENGTH] == s[..HEADER_LENGTH];
        hide Decode;
        var f, rest := s[..n], Parse(s[n..]);
        assert Parse(s) == [f] + rest;
        FrontOf(s, n, Concat(rest));
        assert Concat([f] + rest) == f + Concat(rest) by { assert ([f] + rest)[1..] == rest; }
      }
    }
  }

  /** Well-formed frames are a prefix code: the bytes determine the frames. */
  lemma PrefixUnique(a: seq<Frame>, b: seq<Frame>)
    requires AllWellFormed(a) && AllWellFormed(b) && Concat(a) <= Concat(b)
    ensures a <= b
  {
    var t := Concat(b)[|Concat(a)|..];
    assert Concat(b) == Concat(a) + t == Concat(b) + [];
    ParseConcat(a, t);
    ParseConcat(b, []);
    assert b + Parse([]) == b;
  }

  /** Any prefix of the bytes of some frames parses to a prefix of those frames. */
  lemma ParsePrefix(fs: seq<Frame>, p: seq<Byte>)
    requires AllWellFormed(fs) && p <= Concat(fs)
    ensures Parse(p) <= fs
    ensures p == Concat(fs) ==> Parse(p) == fs
  {
    ParseSound(p);
    PrefixUnique(Parse(p), fs);
    ParseConcat(fs, []);
    assert Concat(fs) + [] == Concat(fs) && fs + Parse([]) == fs;
  }
}
