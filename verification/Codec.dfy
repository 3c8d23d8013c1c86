/** The four-character text header of a chat message: what the C library calls
    of `chat_message.hpp` compute on bytes, and what they mean.

    `atoi` follows ISO C11 sections 7.22.1.2 and 7.22.1.4, `strncat` section
    7.24.3.2 and `sprintf` section 7.21.6.6, in the "C" locale. */
module Codec {
  type Byte = b: int | 0 <= b < 256

  datatype Option<+T> = None | Some(value: T)

  const HEADER_LENGTH := 4
  const MAX_BODY_LENGTH := 512
  const CAPACITY := 516
  const SIZE_MODULUS := 0x1_0000_0000_0000_0000  // size_t is 64 bits wide

  const BLANK: Byte := 32
  const PLUS: Byte := 43
  const MINUS: Byte := 45

  function Count(b: bool): nat {
    if b then 1 else 0
  }

  predicate IsBlank(b: Byte) {
    b == BLANK || 9 <= b <= 13
  }

  predicate IsDigit(b: Byte) {
    48 <= b <= 57
  }

  function Digit(b: Byte): nat
    requires IsDigit(b)
  {
    b - 48
  }

  predicate IsSign(b: Byte) {
    b == PLUS || b == MINUS
  }

  /** The bytes of `s` before its first NUL: what `strncat` copies. */
  function CString(s: seq<Byte>): (r: seq<Byte>)
    ensures r <= s && 0 !in r
    ensures |r| < |s| ==> s[|r|] == 0
  {
    if s == [] || s[0] == 0 then [] else [s[0]] + CString(s[1..])
  }

  function SkipBlanks(s: seq<Byte>): seq<Byte> {
    if s != [] && IsBlank(s[0]) then SkipBlanks(s[1..]) else s
  }

  /** The digit loop of `strtol`: consumes digits from the left. */
  function DigitLoop(s: seq<Byte>, acc: nat): nat {
    if s == [] || !IsDigit(s[0]) then acc else DigitLoop(s[1..], 10 * acc + Digit(s[0]))
  }

  function Atoi(s: seq<Byte>): int {
    var t := SkipBlanks(s);
    if t != [] && t[0] == MINUS then 0 - DigitLoop(t[1..], 0)
    else if t != [] && t[0] == PLUS then DigitLoop(t[1..], 0)
    else DigitLoop(t, 0)
  }

  /** The conversion from `int` to `size_t` in `_body_length = std::atoi(header)`. */
  function ToSizeT(v: int): nat {
    v % SIZE_MODULUS
  }

  /** `decode_header` on the four header bytes: the accepted length, or None. */
  function Decode(header: seq<Byte>): (r: Option<nat>)
    ensures r.Some? ==> r.value <= MAX_BODY_LENGTH
  {
    var n := ToSizeT(Atoi(CString(header)));
    if n > MAX_BODY_LENGTH then None else Some(n)
  }

  function Digits(n: nat): (r: seq<Byte>)
    ensures |r| >= 1 && forall i :: 0 <= i < |r| ==> IsDigit(r[i])
  {
    if n < 10 then [48 + n] else Digits(n / 10) + [48 + n % 10]
  }

  function Blanks(n: nat): (r: seq<Byte>)
    ensures |r| == n && forall i :: 0 <= i < n ==> r[i] == BLANK
  {
    seq(n, _ => BLANK)
  }

  /** What `sprintf(header, "%4d", n)` writes before its terminating NUL. */
  function Encode(n: nat): seq<Byte> {
    var d := Digits(n);
    if |d| < HEADER_LENGTH then Blanks(HEADER_LENGTH - |d|) + d else d
  }

  // ---------------------------------------------------------------- meaning

  /** The positional value of a string of decimal digits. */
  function Value(s: seq<Byte>): nat
    requires forall i :: 0 <= i < |s| ==> IsDigit(s[i])
  {
    if s == [] then 0 else 10 * Value(s[..|s| - 1]) + Digit(s[|s| - 1])
  }

  /** `s` is blanks up to `i`, an optional sign up to `j`, the longest run of
      digits up to `k`, then anything; its number is `v`. */
  ghost predicate DenotesAt(s: seq<Byte>, i: nat, j: nat, k: nat, v: int) {
    && i <= j <= k <= |s|
    && (forall x :: 0 <= x < i ==> IsBlank(s[x]))
    && (i < |s| ==> !IsBlank(s[i]))
    && (if i < |s| && IsSign(s[i]) then j == i + 1 else j == i)
    && (forall x :: j <= x < k ==> IsDigit(s[x]))
    && (k < |s| ==> !IsDigit(s[k]))
    && v == (if j == i + 1 && s[i] == MINUS then -1 else 1) * Value(s[j..k])
  }

  /** The signed decimal that `s` begins with, read as ISO C reads it; a string
      without digits denotes zero. */
  ghost predicate Denotes(s: seq<Byte>, v: int) {
    exists i, j, k :: DenotesAt(s, i, j, k, v)
  }

  lemma {:induction false} SkipBlanksFrom(s: seq<Byte>, i: nat)
    requires i <= |s| && forall x :: 0 <= x < i ==> IsBlank(s[x])
    requires i < |s| ==> !IsBlank(s[i])
    ensures SkipBlanks(s) == s[i..]
  {
    if i > 0 {
      SkipBlanksFrom(s[1..], i - 1);
      assert s[1..][i - 1..] == s[i..];
    }
  }

  lemma {:induction false} DigitLoopValue(s: seq<Byte>, a: nat, k: nat)
    requires a <= k <= |s| && forall x :: 0 <= x < k ==> IsDigit(s[x])
    requires k < |s| ==> !IsDigit(s[k])
    ensures DigitLoop(s[a..], Value(s[..a])) == Value(s[..k])
    decreases k - a
  {
    if a < k {
      assert s[..a + 1][..a] == s[..a];
      assert s[a..][1..] == s[a + 1..];
      DigitLoopValue(s, a + 1, k);
    }
  }

  lemma {:induction false} DenotesAtAtoi(s: seq<Byte>, i: nat, j: nat, k: nat, v: int)
    requires DenotesAt(s, i, j, k, v)
    ensures Atoi(s) == v
  {
    SkipBlanksFrom(s, i);
    var u := s[j..];
    assert s[i..] != [] ==> s[i..][0] == s[i];
    assert j == i + 1 ==> s[i..][1..] == u;
    DigitLoopValue(u, 0, k - j);
    assert u[0..] == u && u[..0] == [];
    assert u[..k - j] == s[j..k];
  }

  function BlankPrefix(s: seq<Byte>): (i: nat)
    ensures i <= |s| && (forall x :: 0 <= x < i ==> IsBlank(s[x])) && (i < |s| ==> !IsBlank(s[i]))
  {
    if s == [] || !IsBlank(s[0]) then 0 else 1 + BlankPrefix(s[1..])
  }

  function DigitPrefix(s: seq<Byte>): (i: nat)
    ensures i <= |s| && (forall x :: 0 <= x < i ==> IsDigit(s[x])) && (i < |s| ==> !IsDigit(s[i]))
  {
    if s == [] || !IsDigit(s[0]) then 0 else 1 + DigitPrefix(s[1..])
  }

  lemma {:induction false} AtoiDenotes(s: seq<Byte>)
    ensures Denotes(s, Atoi(s))
  {
    var i := BlankPrefix(s);
    var j := if i < |s| && IsSign(s[i]) then i + 1 else i;
    var k := j + DigitPrefix(s[j..]);
    assert forall x :: j <= x < k ==> s[x] == s[j..][x - j];
    assert k < |s| ==> s[k] == s[j..][k - j];
    var w := (if j == i + 1 && s[i] == MINUS then -1 else 1) * Value(s[j..k]);
    assert DenotesAt(s, i, j, k, w);
    DenotesAtAtoi(s, i, j, k, w);
  }

  /** `atoi` returns the number its argument denotes, and every string denotes exactly one. */
  lemma {:induction false} AtoiMeaning(s: seq<Byte>, v: int)
    ensures Denotes(s, v) <==> Atoi(s) == v
  {
    hide Atoi, DenotesAt;
    AtoiDenotes(s);
    if Denotes(s, v) {
      var i, j, k :| DenotesAt(s, i, j, k, v);
      DenotesAtAtoi(s, i, j, k, v);
    }
  }

  lemma {:induction false} DigitLoopBound(s: seq<Byte>, acc: nat)
    requires |s| <= 4
    ensures DigitLoop(s, acc) <= match |s|
                                 case 0 => acc
                                 case 1 => 10 * acc + 9
                                 case 2 => 100 * acc + 99
                                 case 3 => 1000 * acc + 999
                                 case _ => 10000 * acc + 9999
  {
    if s != [] && IsDigit(s[0]) {
      DigitLoopBound(s[1..], 10 * acc + Digit(s[0]));
    }
  }

  lemma AtoiBound(s: seq<Byte>)
    requires |s| <= 4
    ensures -10000 < Atoi(s) < 10000
  {
    var t := SkipBlanks(s);
    var i := BlankPrefix(s);
    SkipBlanksFrom(s, i);
    var u := if t != [] && IsSign(t[0]) then t[1..] else t;
    DigitLoopBound(u, 0);
  }

  lemma SizeTOfSmall(v: int)
    requires -10000 < v < 10000
    ensures ToSizeT(v) == if v >= 0 then v else v + SIZE_MODULUS
  {
    if v < 0 { assert v == -1 * SIZE_MODULUS + (v + SIZE_MODULUS); }
  }

  /** Every header denotes a number, and `decode_header` accepts it exactly when
      that number is in 0..512; a negative number is rejected because it becomes
      huge when converted to `size_t`. */
  lemma DecodeMeaning(header: seq<Byte>, v: int)
    requires |header| == HEADER_LENGTH
    ensures Denotes(CString(header), v) ==>
              Decode(header) == if 0 <= v <= 512 then Some(v) else None
    ensures exists u: int :: Denotes(CString(header), u)
  {
    var s := CString(header);
    AtoiBound(s);
    SizeTOfSmall(Atoi(s));
    AtoiMeaning(s, v);
    AtoiMeaning(s, Atoi(s));
  }

  lemma {:induction false} DigitsValue(n: nat)
    ensures Value(Digits(n)) == n
    ensures n < 10 ==> |Digits(n)| == 1
    ensures n < 100 ==> |Digits(n)| <= 2
    ensures n < 1000 ==> |Digits(n)| <= 3
  {
    var d := Digits(n);
    if n >= 10 {
      DigitsValue(n / 10);
    }
    assert d[..|d| - 1] == if n < 10 then [] else Digits(n / 10);
  }

  /** Round trip: `decode_header` after `encode_header` gives the length back. */
  lemma DecodeEncode(n: nat)
    requires n <= MAX_BODY_LENGTH
    ensures |Encode(n)| == HEADER_LENGTH
    ensures Decode(Encode(n)) == Some(n)
  {
    EncodeText(n);
    NoNul(Encode(n));
    EncodeDenotes(n);
    AtoiMeaning(Encode(n), n);
    SizeTOfSmall(n);
  }

  lemma EncodeText(n: nat)
    requires n <= MAX_BODY_LENGTH
    ensures |Encode(n)| == HEADER_LENGTH && 0 !in Encode(n)
  {
    DigitsValue(n);
    var h := Encode(n);
    forall x | 0 <= x < |h| ensures h[x] != 0 { }
  }

  lemma EncodeDenotes(n: nat)
    requires n <= MAX_BODY_LENGTH
    ensures Denotes(Encode(n), n)
  {
    DigitsValue(n);
    var h, d := Encode(n), Digits(n);
    var p := HEADER_LENGTH - |d|;
    assert h == Blanks(p) + d;
    assert h[p..HEADER_LENGTH] == d;
    assert !IsBlank(h[p]) && !IsSign(h[p]);
    assert DenotesAt(h, p, p, HEADER_LENGTH, n);
  }

  /** `h` is the decimal text of `n`, without leading zeros, right-aligned with
      blanks in four characters; its digits start at `p`. */
  ghost predicate RightAlignedAt(h: seq<Byte>, p: nat, n: nat) {
    && |h| == 4 && p < 4
    && (forall x :: 0 <= x < p ==> h[x] == BLANK)
    && (forall x :: p <= x < 4 ==> IsDigit(h[x]))
    && Value(h[p..]) == n
    && (h[p] == 48 ==> n == 0 && p == 3)
  }

  ghost predicate RightAligned(h: seq<Byte>, n: nat) {
    exists p: nat :: RightAlignedAt(h, p, n)
  }

  /** Digits without a leading zero are the digits of their value. */
  lemma {:induction false} DigitsOfValue(s: seq<Byte>)
    requires |s| >= 1 && forall i :: 0 <= i < |s| ==> IsDigit(s[i])
    requires s[0] == 48 ==> |s| == 1
    ensures Digits(Value(s)) == s
    ensures s[0] != 48 ==> Value(s) >= 1
  {
    var init, last := s[..|s| - 1], s[|s| - 1];
    if |s| > 1 {
      DigitsOfValue(init);
      assert Value(s) == 10 * Value(init) + Digit(last);
      assert Digits(Value(s)) == Digits(Value(init)) + [last];
      assert init + [last] == s;
    } else {
      assert Value(init) == 0;
    }
  }

  lemma {:induction false} NoLeadingZero(n: nat)
    ensures Digits(n)[0] == 48 <==> n == 0
  {
    if n >= 10 { NoLeadingZero(n / 10); }
  }

  /** The header of length `n` is the right-aligned decimal text of `n` and no
      other four bytes. */
  lemma EncodeMeaning(n: nat, h: seq<Byte>)
    requires n <= MAX_BODY_LENGTH
    ensures h == Encode(n) <==> RightAligned(h, n)
  {
    hide Encode, Value;
    EncodeAligned(n);
    if RightAligned(h, n) {
      var p: nat :| RightAlignedAt(h, p, n);
      AlignedIsEncode(h, p, n);
    }
  }

  lemma AlignedIsEncode(h: seq<Byte>, p: nat, n: nat)
    requires RightAlignedAt(h, p, n)
    ensures h == Encode(n)
  {
    hide Value;
    DigitsOfValue(h[p..]);
    assert h == Blanks(p) + h[p..];
  }

  lemma EncodeAligned(n: nat)
    requires n <= MAX_BODY_LENGTH
    ensures RightAligned(Encode(n), n)
  {
    DigitsValue(n);
    NoLeadingZero(n);
    var h, d := Encode(n), Digits(n);
    var p := HEADER_LENGTH - |d|;
    assert h == Blanks(p) + d;
    assert h[p..] == d;
    assert RightAlignedAt(h, p, n);
  }

  lemma {:induction false} NoNul(s: seq<Byte>)
    requires 0 !in s
    ensures CString(s) == s
  {
    if s != [] { NoNul(s[1..]); }
  }
}
