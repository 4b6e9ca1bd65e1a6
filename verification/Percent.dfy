/**
  Percent-encoding (sections 2.1 and 2.3 of RFC 3986) and decimal integers, over all
  bytes: encodeComponent, decodeComponent, isUnreserved, unhex, and the %d verb of fmt.
 */
module Percent {
  import opened Wrappers
  import opened Bytes
  import opened Decimal
  import opened Space

  const PERCENT: byte := 0x25

  predicate IsUnreserved(c: byte) {
    0x41 <= c <= 0x5A || 0x61 <= c <= 0x7A || 0x30 <= c <= 0x39 || c in {0x2D, 0x2E, 0x5F, 0x7E}
  }

  function UpperHex(d: byte): byte
    requires d < 16
  {
    if d < 10 then 0x30 + d else 0x41 + (d - 10)
  }

  function Unhex(c: byte): (d: Option<byte>)
    ensures d.Some? ==> d.value < 16
  {
    if 0x30 <= c <= 0x39 then Some(c - 0x30)
    else if 0x61 <= c <= 0x66 then Some(c - 0x61 + 10)
    else if 0x41 <= c <= 0x46 then Some(c - 0x41 + 10)
    else None
  }

  /** One byte of a component as it is written. */
  function Encoded(c: byte): seq<byte> {
    if IsUnreserved(c) then [c] else [PERCENT, UpperHex(c / 16), UpperHex(c % 16)]
  }

  function EncodedComponent(s: seq<byte>): seq<byte> {
    if s == [] then [] else Encoded(s[0]) + EncodedComponent(s[1..])
  }

  /** The bytes a component stands for, or None where decodeComponent reports an error. */
  function DecodedComponent(s: seq<byte>): Option<seq<byte>> {
    if s == [] then Some([])
    else if s[0] != PERCENT then
      After([s[0]], DecodedComponent(s[1..]))
    else if |s| < 3 then None
    else
      match (Unhex(s[1]), Unhex(s[2]))
      case (Some(hi), Some(lo)) => After([hi * 16 + lo], DecodedComponent(s[3..]))
      case _ => None
  }

  function After(b: seq<byte>, more: Option<seq<byte>>): Option<seq<byte>> {
    match more
    case None => None
    case Some(t) => Some(b + t)
  }

  method EncodeComponent(s: seq<byte>) returns (r: seq<byte>)
    ensures r == EncodedComponent(s)
  {
    r := [];
    for i := 0 to |s|
      invariant r + EncodedComponent(s[i..]) == EncodedComponent(s)
    {
      assert s[i..] == [s[i]] + s[i + 1..];
      Regroup3(r, Encoded(s[i]), EncodedComponent(s[i + 1..]));
      r := EncodeByte(r, s[i]);
    }
    assert s[|s|..] == [];
  }

  /** One round of the loop of encodeComponent. */
  method EncodeByte(b: seq<byte>, c: byte) returns (r: seq<byte>)
    ensures r == b + Encoded(c)
  {
    r := b;
    if IsUnreserved(c) {
      r := r + [c];
    } else {
      r := r + [PERCENT];
      r := r + [UpperHex(c / 16)];
      r := r + [UpperHex(c % 16)];
    }
  }

  method DecodeComponent(s: seq<byte>) returns (r: Option<seq<byte>>)
    ensures r == DecodedComponent(s)
  {
    var b: seq<byte> := [];
    var i := 0;
    AfterAfter([], [], DecodedComponent(s));
    assert s[0..] == s;
    while i < |s|
      invariant 0 <= i <= |s|
      invariant DecodedComponent(s) == After(b, DecodedComponent(s[i..]))
    {
      var c := s[i];
      ghost var before := b;
      if c == PERCENT {
        if i + 2 >= |s| {
          return None;
        }
        var hi, lo := Unhex(s[i + 1]), Unhex(s[i + 2]);
        if hi.None? || lo.None? {
          return None;
        }
        assert s[i..][3..] == s[i + 3..];
        b := b + [hi.value * 16 + lo.value];
        i := i + 3;
      } else {
        assert s[i..][1..] == s[i + 1..];
        b := b + [c];
        i := i + 1;
      }
      AfterAfter(before, [b[|b| - 1]], DecodedComponent(s[i..]));
    }
    assert s[|s|..] == [];
    assert b + [] == b;
    return Some(b);
  }

  lemma {:induction false} AfterAfter(a: seq<byte>, b: seq<byte>, more: Option<seq<byte>>)
    ensures After(a, After(b, more)) == After(a + b, more)
    ensures After([], more) == more
  {
    if more.Some? {
      assert a + (b + more.value) == a + b + more.value;
      assert [] + more.value == more.value;
    }
  }

  /** decodeComponent undoes encodeComponent on every byte string. */
  lemma {:induction false} DecodeEncodedComponent(s: seq<byte>)
    ensures DecodedComponent(EncodedComponent(s)) == Some(s)
  {
    if s != [] {
      var e, tail := Encoded(s[0]), EncodedComponent(s[1..]);
      DecodeEncodedComponent(s[1..]);
      assert (e + tail)[|e|..] == tail;
      assert [s[0]] + s[1..] == s;
    }
  }

  /** What is written is unreserved characters and '%': it holds no delimiter of the URI. */
  lemma {:induction false} EncodedComponentIsSafe(s: seq<byte>)
    ensures forall i :: 0 <= i < |EncodedComponent(s)| ==>
                          IsUnreserved(EncodedComponent(s)[i]) || EncodedComponent(s)[i] == PERCENT
  {
    if s != [] {
      EncodedComponentIsSafe(s[1..]);
    }
  }

  // ---------- by their characters ----------

  /** ALPHA, DIGIT, "-", ".", "_" and "~" of section 2.3 of RFC 3986. */
  predicate StaysPlain(c: byte) {
    || 'A' as int <= c as int <= 'Z' as int
    || 'a' as int <= c as int <= 'z' as int
    || '0' as int <= c as int <= '9' as int
    || c as int in {'-' as int, '.' as int, '_' as int, '~' as int}
  }

  /** The digit d in uppercase. */
  predicate IsUpperDigit(b: byte, d: int) {
    if d < 10 then b as int == '0' as int + d else d < 16 && b as int == 'A' as int + (d - 10)
  }

  /** The digit d in either case. */
  predicate IsHexDigit(b: byte, d: int) {
    0 <= d < 16 && (IsUpperDigit(b, d) || (d >= 10 && b as int == 'a' as int + (d - 10)))
  }

  /** Unreserved characters stay, every other byte becomes '%' and two uppercase digits. */
  lemma {:induction false} EncodedByCharacters(c: byte)
    ensures if StaysPlain(c) then Encoded(c) == [c]
            else |Encoded(c)| == 3 && Encoded(c)[0] as int == '%' as int
                 && IsUpperDigit(Encoded(c)[1], c as int / 16) && IsUpperDigit(Encoded(c)[2], c as int % 16)
  {
  }

  /** One byte after the other. */
  lemma {:induction false} EncodedInOrder(s: seq<byte>, t: seq<byte>)
    ensures EncodedComponent(s + t) == EncodedComponent(s) + EncodedComponent(t)
    ensures |s| == 1 ==> EncodedComponent(s) == Encoded(s[0])
  {
    if s == [] {
      assert s + t == t;
    } else {
      assert (s + t)[1..] == s[1..] + t;
      EncodedInOrder(s[1..], t);
      Regroup3(Encoded(s[0]), EncodedComponent(s[1..]), EncodedComponent(t));
    }
  }

  lemma {:induction false} UnhexExactly(b: byte)
    ensures forall d :: IsHexDigit(b, d) ==> Unhex(b) == Some(d as byte)
    ensures Unhex(b).Some? ==> IsHexDigit(b, Unhex(b).value as int)
  {
  }

  /** What decoding does at a byte: '%' and two digits of either case are one byte, '%' without them an error. */
  lemma {:induction false} DecodedByCharacters(c: byte, s: seq<byte>)
    ensures c as int != '%' as int ==> DecodedComponent([c] + s) == After([c], DecodedComponent(s))
    ensures c as int == '%' as int ==>
              forall h, l :: |s| >= 2 && IsHexDigit(s[0], h) && IsHexDigit(s[1], l) ==>
                               DecodedComponent([c] + s) == After([(h * 16 + l) as byte], DecodedComponent(s[2..]))
    ensures c as int == '%' as int && (|s| < 2 || forall h, l :: !(IsHexDigit(s[0], h) && IsHexDigit(s[1], l))) ==>
              DecodedComponent([c] + s) == None
  {
    var t := [c] + s;
    assert t[1..] == s;
    if |s| >= 2 {
      assert t[1] == s[0] && t[2] == s[1] && t[3..] == s[2..];
      UnhexExactly(s[0]);
      UnhexExactly(s[1]);
    }
  }

  // ---------- decimal integers ----------

  /** Go's int on a 64-bit platform. */
  type GoInt = i: int | -0x8000_0000_0000_0000 <= i < 0x8000_0000_0000_0000

  /** The %d verb of Printf. */
  function PrintInt(i: int): seq<byte> {
    if i < 0 then [MINUS] + Digits(-i) else Digits(i)
  }

  /** ScanState.SkipSpace under Sscanf: a newline, alone or after '\r', is an error. */
  function SkipSpace(s: seq<byte>): Option<seq<byte>> {
    if s != [] && (s[0] == LF || (s[0] == CR && |s| > 1 && s[1] == LF)) then None
    else if LeadingSpace(s) == 0 then Some(s)
    else SkipSpace(s[LeadingSpace(s)..])
  }

  /** The %d verb of Sscanf: sign and digits are read, whatever follows them is ignored. */
  function ScanInt(s: seq<byte>): Option<GoInt> {
    match SkipSpace(s)
    case None => None
    case Some(t) =>
      var sign := if t != [] && (t[0] == PLUS || t[0] == MINUS) then 1 else 0;
      var n := DigitRun(t[sign..]);
      if n == 0 then None
      else
        var v := Value(t[sign..][..n]);
        var i: int := if t[0] == MINUS then -(v as int) else v;
        if -0x8000_0000_0000_0000 <= i < 0x8000_0000_0000_0000 then Some(i) else None
  }

  lemma {:induction false} ScanDigits(s: seq<byte>, i: GoInt)
    requires s != [] && AllDigits(s)
    ensures Value(s) == i ==> ScanInt(s) == Some(i)
    ensures Value(s) == -(i as int) ==> ScanInt([MINUS] + s) == Some(i)
  {
    DigitRunBefore(s, []);
    assert s + [] == s;
    assert IsDigit(s[0]);
    assert s[0..] == s && s[..|s|] == s;
    var t := [MINUS] + s;
    assert t[1..] == s;
    assert SkipSpace(s) == Some(s) && SkipSpace(t) == Some(t);
  }

  lemma {:induction false} ScanPrintedInt(i: GoInt)
    ensures ScanInt(PrintInt(i)) == Some(i)
    ensures PrintInt(i) != []
    ensures forall j :: 0 <= j < |PrintInt(i)| ==> IsDigit(PrintInt(i)[j]) || PrintInt(i)[j] == MINUS
  {
    var n: nat := if i < 0 then -(i as int) else i;
    DigitsAreDigits(n);
    ScanDigits(Digits(n), i);
  }

  // ---------- which texts are scanned ----------

  /** White space without a newline. */
  predicate Blanks(s: seq<byte>) {
    s == [] || (LeadingSpace(s) > 0 && s[0] != 0x0A && Blanks(s[LeadingSpace(s)..]))
  }

  predicate IsSign(s: seq<byte>) {
    s == [] || s == [0x2B] || s == [0x2D]
  }

  /** Blanks, an optional sign, all the digits that follow, and anything after them. */
  ghost predicate Reads(s: seq<byte>, blanks: seq<byte>, sign: seq<byte>, digits: seq<byte>, rest: seq<byte>) {
    && s == blanks + (sign + (digits + rest))
    && Blanks(blanks) && IsSign(sign) && digits != [] && AllDigits(digits) && !StartsWithDigit(rest)
  }

  function Signed(sign: seq<byte>, digits: seq<byte>): int
    requires AllDigits(digits)
  {
    if sign == [0x2D] then -(Value(digits) as int) else Value(digits)
  }

  lemma {:induction false} SpacePrefix(a: seq<byte>, b: seq<byte>)
    requires LeadingSpace(a) > 0
    ensures LeadingSpace(a + b) == LeadingSpace(a)
    ensures (a + b)[0] == a[0] && (a + b)[LeadingSpace(a)..] == a[LeadingSpace(a)..] + b
  {
    assert forall i :: 0 <= i < |a| ==> (a + b)[i] == a[i];
  }

  lemma {:induction false} SkipBlanks(blanks: seq<byte>, t: seq<byte>)
    requires Blanks(blanks) && LeadingSpace(t) == 0
    ensures SkipSpace(blanks + t) == Some(t)
  {
    if blanks == [] {
      assert blanks + t == t;
    } else {
      var n := LeadingSpace(blanks);
      SpacePrefix(blanks, t);
      SkipBlanks(blanks[n..], t);
      NextIsNoNewline(blanks, t);
    }
  }

  lemma {:induction false} NextIsNoNewline(blanks: seq<byte>, t: seq<byte>)
    requires Blanks(blanks) && blanks != [] && LeadingSpace(t) == 0
    ensures blanks[0] == CR && |blanks + t| > 1 ==> (blanks + t)[1] != LF
  {
    if blanks[0] == CR {
      assert LeadingSpace(blanks) == 1;
      if |blanks| > 1 {
        assert blanks[1..][0] == (blanks + t)[1];
      } else if t != [] {
        assert (blanks + t)[1] == t[0];
      }
    }
  }

  lemma {:induction false} SkippedAreBlanks(s: seq<byte>) returns (blanks: seq<byte>)
    requires SkipSpace(s).Some?
    ensures Blanks(blanks) && s == blanks + SkipSpace(s).value && LeadingSpace(SkipSpace(s).value) == 0
  {
    var n := LeadingSpace(s);
    if n == 0 {
      blanks := [];
    } else {
      var more := SkippedAreBlanks(s[n..]);
      BlanksPrepend(s, n, more);
      TakeAndDrop(s, n);
      Regroup3(s[..n], more, SkipSpace(s).value);
      blanks := s[..n] + more;
    }
  }

  lemma {:induction false} TakeAndDrop(s: seq<byte>, n: nat)
    requires n <= |s|
    ensures s == s[..n] + s[n..]
  {
  }

  lemma {:induction false} BlanksPrepend(s: seq<byte>, n: nat, more: seq<byte>)
    requires n == LeadingSpace(s) > 0 && s[0] != LF && Blanks(more)
    ensures Blanks(s[..n] + more)
  {
    assert LeadingSpace(s[..n]) == n;
    SpacePrefix(s[..n], more);
    assert s[..n][n..] + more == more;
  }

  /** The text is scanned to the number it reads, if that is in range. */
  lemma {:induction false} ScansTo(s: seq<byte>, blanks: seq<byte>, sign: seq<byte>, digits: seq<byte>, rest: seq<byte>)
    requires Reads(s, blanks, sign, digits, rest)
    ensures var v := Signed(sign, digits);
            ScanInt(s) == if -0x8000_0000_0000_0000 <= v < 0x8000_0000_0000_0000 then Some(v) else None
  {
    var t := sign + (digits + rest);
    assert t[0] == if sign == [] then digits[0] else sign[0];
    assert IsDigit(digits[0]);
    SkipBlanks(blanks, t);
    assert t[|sign|..] == digits + rest;
    DigitRunBefore(digits, rest);
    assert (digits + rest)[..|digits|] == digits;
  }

  lemma {:induction false} ScannedParts(s: seq<byte>) returns (blanks: seq<byte>, sign: seq<byte>, digits: seq<byte>, rest: seq<byte>)
    requires ScanInt(s).Some?
    ensures Reads(s, blanks, sign, digits, rest)
  {
    var t := SkipSpace(s).value;
    blanks := SkippedAreBlanks(s);
    var k := if t != [] && (t[0] == PLUS || t[0] == MINUS) then 1 else 0;
    var n := DigitRun(t[k..]);
    sign, digits, rest := t[..k], t[k..][..n], t[k..][n..];
    ThreeParts(t, k, n);
  }

  lemma {:induction false} ThreeParts(t: seq<byte>, k: nat, n: nat)
    requires k <= |t| && n <= |t| - k
    ensures t == t[..k] + (t[k..][..n] + t[k..][n..])
  {
  }

  /** Exactly which texts ScanInt accepts, and as which number. */
  lemma {:induction false} ScanIntExactly(s: seq<byte>, i: GoInt)
    ensures ScanInt(s) == Some(i) <==>
            exists blanks, sign, digits, rest :: Reads(s, blanks, sign, digits, rest) && Signed(sign, digits) == i
  {
    if ScanInt(s) == Some(i) {
      var blanks, sign, digits, rest := ScannedParts(s);
      ScansTo(s, blanks, sign, digits, rest);
    }
    forall blanks, sign, digits, rest | Reads(s, blanks, sign, digits, rest) && Signed(sign, digits) == i
      ensures ScanInt(s) == Some(i)
    {
      ScansTo(s, blanks, sign, digits, rest);
    }
  }

  /** For instance "-1" and "1x". */
  lemma {:induction false} SignAndTrailingText()
    ensures ScanInt([MINUS, 0x31]) == Some(-1) && ScanInt([0x31, 0x78]) == Some(1)
  {
    assert AllDigits([0x31]) && Value([0x31]) == 1;
    assert [MINUS, 0x31] == [] + ([MINUS] + ([0x31] + []));
    assert [0x31, 0x78] == [] + ([] + ([0x31] + [0x78]));
    ScansTo([MINUS, 0x31], [], [MINUS], [0x31], []);
    ScansTo([0x31, 0x78], [], [], [0x31], [0x78]);
  }
}
