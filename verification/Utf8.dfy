/**
  UTF-8 (section 3 of RFC 3629). A Dafny `char` is a Unicode scalar value, so a Go
  string holding valid UTF-8 is modelled as a Dafny `string` and its bytes are `Utf8`.
 */
module Utf8Text {
  import opened Wrappers
  import opened Bytes

  function EncodeRune(c: char): (bs: seq<byte>)
    ensures 1 <= |bs| <= 4
  {
    var r := c as int;
    if r < 0x80 then [r as byte]
    else if r < 0x800 then [(0xC0 + r / 0x40) as byte, Continuation(r)]
    else if r < 0x10000 then [(0xE0 + r / 0x1000) as byte, Continuation(r / 0x40), Continuation(r)]
    else [(0xF0 + r / 0x40000) as byte, Continuation(r / 0x1000), Continuation(r / 0x40), Continuation(r)]
  }

  function Continuation(r: nat): byte {
    (0x80 + r % 0x40) as byte
  }

  /** The bytes of a Go string. */
  function Utf8(s: string): seq<byte> {
    if s == [] then [] else EncodeRune(s[0]) + Utf8(s[1..])
  }

  predicate IsScalar(r: int) {
    0 <= r < 0xD800 || 0xE000 <= r < 0x110000
  }

  /** The low six bits of a continuation byte, or -1. */
  function Payload(b: byte): int {
    if 0x80 <= b < 0xC0 then b as int - 0x80 else -1
  }

  function ScalarAt(r: int, least: int, rest: seq<byte>): Option<(char, seq<byte>)> {
    if IsScalar(r) && least <= r then Some((r as char, rest)) else None
  }

  /** Strict decoding of one rune: overlong forms, surrogates and stray bytes are refused. */
  function DecodeRune(bs: seq<byte>): (r: Option<(char, seq<byte>)>)
    ensures r.Some? ==> |r.value.1| < |bs|
  {
    if bs == [] then None
    else
      var b0 := bs[0] as int;
      if b0 < 0x80 then Some((b0 as char, bs[1..]))
      else if 0xC0 <= b0 < 0xE0 && |bs| >= 2 && Payload(bs[1]) >= 0 then
        ScalarAt((b0 - 0xC0) * 0x40 + Payload(bs[1]), 0x80, bs[2..])
      else if 0xE0 <= b0 < 0xF0 && |bs| >= 3 && Payload(bs[1]) >= 0 && Payload(bs[2]) >= 0 then
        ScalarAt((b0 - 0xE0) * 0x1000 + Payload(bs[1]) * 0x40 + Payload(bs[2]), 0x800, bs[3..])
      else if 0xF0 <= b0 < 0xF8 && |bs| >= 4 && Payload(bs[1]) >= 0 && Payload(bs[2]) >= 0 && Payload(bs[3]) >= 0 then
        ScalarAt((b0 - 0xF0) * 0x40000 + Payload(bs[1]) * 0x1000 + Payload(bs[2]) * 0x40 + Payload(bs[3]), 0x10000, bs[4..])
      else None
  }

  lemma {:induction false} DecodeEncodedRune(c: char, rest: seq<byte>)
    ensures DecodeRune(EncodeRune(c) + rest) == Some((c, rest))
  {
    var r, e := c as int, EncodeRune(c);
    var bs := e + rest;
    assert bs[|e|..] == rest;
    assert bs[0] == e[0];
    if r < 0x80 {
    } else if r < 0x800 {
      assert bs[1] == e[1];
    } else if r < 0x10000 {
      assert bs[1] == e[1] && bs[2] == e[2];
      SixBitDigits(r);
    } else {
      assert bs[1] == e[1] && bs[2] == e[2] && bs[3] == e[3];
      SixBitDigits(r);
    }
  }

  /** A byte of two to four that carry six bits each behind the first. */
  predicate IsContinuation(b: byte) {
    0x80 <= b < 0xC0
  }

  /** Which bytes a character is written as, read as the table in section 3 of RFC 3629. */
  lemma {:induction false} RuneByBytes(c: char)
    ensures var r, e := c as int, EncodeRune(c);
            if r < 0x80 then e == [r as byte]
            else if r < 0x800 then
              |e| == 2 && 0xC0 <= e[0] < 0xE0 && IsContinuation(e[1])
              && r == (e[0] as int - 0xC0) * 0x40 + (e[1] as int - 0x80)
            else if r < 0x10000 then
              |e| == 3 && 0xE0 <= e[0] < 0xF0 && IsContinuation(e[1]) && IsContinuation(e[2])
              && r == (e[0] as int - 0xE0) * 0x1000 + (e[1] as int - 0x80) * 0x40 + (e[2] as int - 0x80)
            else
              |e| == 4 && 0xF0 <= e[0] < 0xF8 && IsContinuation(e[1]) && IsContinuation(e[2]) && IsContinuation(e[3])
              && r == (e[0] as int - 0xF0) * 0x40000 + (e[1] as int - 0x80) * 0x1000
                      + (e[2] as int - 0x80) * 0x40 + (e[3] as int - 0x80)
  {
    SixBitDigits(c as int);
  }

  lemma {:induction false} SixBitDigits(r: nat)
    ensures r / 0x1000 == r / 0x40 / 0x40
    ensures r / 0x40000 == r / 0x1000 / 0x40
    ensures r == r / 0x1000 * 0x1000 + r / 0x40 % 0x40 * 0x40 + r % 0x40
    ensures r == r / 0x40000 * 0x40000 + r / 0x1000 % 0x40 * 0x1000 + r / 0x40 % 0x40 * 0x40 + r % 0x40
  {
  }

  lemma {:induction false} DecodedRuneBytes(bs: seq<byte>)
    requires DecodeRune(bs).Some?
    ensures var e, n := EncodeRune(DecodeRune(bs).value.0), |bs| - |DecodeRune(bs).value.1|;
            |e| == n && e[0] == bs[0] && (n > 1 ==> e[1] == bs[1]) && (n > 2 ==> e[2] == bs[2]) && (n > 3 ==> e[3] == bs[3])
  {
    SixBitDigits(DecodeRune(bs).value.0 as int);
  }

  lemma {:induction false} EncodeDecodedRune(bs: seq<byte>)
    requires DecodeRune(bs).Some?
    ensures bs == EncodeRune(DecodeRune(bs).value.0) + DecodeRune(bs).value.1
  {
    DecodedRuneBytes(bs);
  }

  /** Lexicographic order on code points. */
  predicate TextLess(a: string, b: string) {
    b != [] && (a == [] || a[0] < b[0] || (a[0] == b[0] && TextLess(a[1..], b[1..])))
  }

  /** The texts agree up to n, where the first ends or has the smaller character. */
  ghost predicate LessAt(a: string, b: string, n: nat) {
    n <= |a| && n < |b| && a[..n] == b[..n] && (n == |a| || a[n] < b[n])
  }

  lemma {:induction false} LessAtNext(a: string, b: string, n: nat)
    requires a != [] && b != [] && a[0] == b[0]
    ensures LessAt(a, b, n + 1) <==> LessAt(a[1..], b[1..], n)
  {
    if n < |a| && n < |b| {
      AfterFirst(a, n);
      AfterFirst(b, n);
      assert a[..n + 1][1..] == a[1..][..n] && b[..n + 1][1..] == b[1..][..n];
    }
  }

  /** Lexicographic: decided by the end or by the first difference. */
  lemma {:induction false} TextLessExactly(a: string, b: string)
    ensures TextLess(a, b) <==> exists n: nat :: LessAt(a, b, n)
  {
    if a == [] || b == [] {
      assert b != [] ==> LessAt(a, b, 0);
    } else if a[0] != b[0] {
      assert a[0] < b[0] ==> LessAt(a, b, 0);
      forall n: nat | LessAt(a, b, n)
        ensures a[0] < b[0]
      {
        assert n > 0 ==> a[..n][0] == b[..n][0];
      }
    } else {
      TextLessExactly(a[1..], b[1..]);
      if n: nat :| LessAt(a[1..], b[1..], n) {
        LessAtNext(a, b, n);
      }
      forall n: nat | LessAt(a, b, n)
        ensures TextLess(a, b)
      {
        assert n > 0;
        LessAtNext(a, b, n - 1);
      }
    }
  }

  lemma {:induction false} ShorterRuneIsLess(c: char, d: char)
    requires |EncodeRune(c)| < |EncodeRune(d)|
    ensures EncodeRune(c)[0] < EncodeRune(d)[0]
  {
  }

  lemma {:induction false} LongRuneDifference(c: char, d: char) returns (i: nat)
    requires 0x10000 <= c as int < d as int
    ensures i < 4 && EncodeRune(c)[i] < EncodeRune(d)[i] && EncodeRune(c)[..i] == EncodeRune(d)[..i]
  {
    var r, t := c as int, d as int;
    SixBitDigits(r);
    SixBitDigits(t);
    i := if r / 0x40000 < t / 0x40000 then 0 else if r / 0x1000 < t / 0x1000 then 1
    else if r / 0x40 < t / 0x40 then 2 else 3;
  }

  lemma {:induction false} MiddleRuneDifference(c: char, d: char) returns (i: nat)
    requires 0x800 <= c as int < d as int < 0x10000
    ensures i < 3 && EncodeRune(c)[i] < EncodeRune(d)[i] && EncodeRune(c)[..i] == EncodeRune(d)[..i]
  {
    var r, t := c as int, d as int;
    SixBitDigits(r);
    SixBitDigits(t);
    i := if r / 0x1000 < t / 0x1000 then 0 else if r / 0x40 < t / 0x40 then 1 else 2;
  }

  /** A smaller code point has a smaller encoding at the first byte where the two differ. */
  lemma {:induction false} RuneDifference(c: char, d: char) returns (i: nat)
    requires c < d
    ensures i < |EncodeRune(c)| && i < |EncodeRune(d)|
    ensures EncodeRune(c)[i] < EncodeRune(d)[i] && EncodeRune(c)[..i] == EncodeRune(d)[..i]
  {
    if |EncodeRune(c)| < |EncodeRune(d)| {
      ShorterRuneIsLess(c, d);
      i := 0;
    } else if c as int >= 0x10000 {
      i := LongRuneDifference(c, d);
    } else if c as int >= 0x800 {
      i := MiddleRuneDifference(c, d);
    } else {
      i := if d as int < 0x80 || c as int / 0x40 < d as int / 0x40 then 0 else 1;
    }
  }

  lemma {:induction false} RuneOrder(c: char, d: char, s: seq<byte>, t: seq<byte>)
    requires c < d
    ensures BytesLess(EncodeRune(c) + s, EncodeRune(d) + t)
    ensures !BytesLess(EncodeRune(d) + t, EncodeRune(c) + s)
  {
    var p, q := EncodeRune(c), EncodeRune(d);
    var i := RuneDifference(c, d);
    assert (p + s)[..i] == p[..i] == q[..i] == (q + t)[..i];
    FirstDifference(p + s, q + t, i);
  }

  lemma {:induction false} FirstDifference(a: seq<byte>, b: seq<byte>, i: nat)
    requires i < |a| && i < |b| && a[i] < b[i] && a[..i] == b[..i]
    ensures BytesLess(a, b) && !BytesLess(b, a)
  {
    if i > 0 {
      assert a[0] == a[..i][0] == b[..i][0] == b[0];
      assert a[1..][..i - 1] == a[..i][1..] == b[..i][1..] == b[1..][..i - 1];
      FirstDifference(a[1..], b[1..], i - 1);
    }
  }

  lemma {:induction false} CommonPrefixOrder(p: seq<byte>, a: seq<byte>, b: seq<byte>)
    ensures BytesLess(p + a, p + b) <==> BytesLess(a, b)
  {
    if p == [] {
      assert p + a == a && p + b == b;
    } else {
      assert (p + a)[1..] == p[1..] + a && (p + b)[1..] == p[1..] + b;
      CommonPrefixOrder(p[1..], a, b);
    }
  }

  /** Sorting by UTF-8 bytes is sorting by code point. */
  lemma {:induction false} ByteOrderIsCodePointOrder(a: string, b: string)
    ensures BytesLess(Utf8(a), Utf8(b)) <==> TextLess(a, b)
  {
    if a == [] || b == [] {
    } else if a[0] < b[0] {
      RuneOrder(a[0], b[0], Utf8(a[1..]), Utf8(b[1..]));
    } else if b[0] < a[0] {
      RuneOrder(b[0], a[0], Utf8(b[1..]), Utf8(a[1..]));
    } else {
      CommonPrefixOrder(EncodeRune(a[0]), Utf8(a[1..]), Utf8(b[1..]));
      ByteOrderIsCodePointOrder(a[1..], b[1..]);
    }
  }

  lemma {:induction false} TextLessIsStrictOrder(a: string, b: string, c: string)
    ensures !TextLess(a, a)
    ensures TextLess(a, b) ==> !TextLess(b, a)
    ensures TextLess(a, b) && TextLess(b, c) ==> TextLess(a, c)
    ensures a == b || TextLess(a, b) || TextLess(b, a)
  {
    if a != [] {
      var b1 := if b == [] then [] else b[1..];
      var c1 := if c == [] then [] else c[1..];
      TextLessIsStrictOrder(a[1..], b1, c1);
      if b != [] && a[0] == b[0] && a[1..] == b[1..] {
        assert a == [a[0]] + a[1..] == [b[0]] + b[1..] == b;
      }
    }
  }
}
