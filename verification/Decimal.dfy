/** Decimal digits and the numbers they stand for. */
module Decimal {
  import opened Bytes

  function Digits(n: nat): seq<byte> {
    if n < 10 then [(0x30 + n) as byte] else Digits(n / 10) + [(0x30 + n % 10) as byte]
  }

  /** The value of a run of digits. */
  function Value(s: seq<byte>): (n: nat)
    requires AllDigits(s)
  {
    if s == [] then 0
    else
      assert IsDigit(s[|s| - 1]);
      Value(s[..|s| - 1]) * 10 + (s[|s| - 1] as int - 0x30)
  }

  lemma {:induction false} DigitsAreDigits(n: nat)
    ensures Digits(n) != [] && AllDigits(Digits(n))
    ensures Value(Digits(n)) == n
  {
    if n >= 10 {
      DigitsAreDigits(n / 10);
      var d := Digits(n);
      assert d[..|d| - 1] == Digits(n / 10);
    }
  }

  lemma {:induction false} NoLeadingZero(n: nat)
    ensures Digits(n) != [] && (Digits(n)[0] == 0x30 ==> n == 0 && |Digits(n)| == 1)
  {
    if n >= 10 {
      NoLeadingZero(n / 10);
    }
  }

  lemma {:induction false} DigitsSnoc(n: nat, d: byte)
    requires n > 0 && IsDigit(d)
    ensures Digits(n * 10 + (d as int - 0x30)) == Digits(n) + [d]
  {
    var m := n * 10 + (d as int - 0x30);
    assert m >= 10 && m / 10 == n && m % 10 == d as int - 0x30;
  }

  /** Without leading zeros the digits are the only ones of their value. */
  lemma {:induction false} DigitsOfValue(s: seq<byte>)
    requires s != [] && AllDigits(s) && (s[0] == ZERO ==> |s| == 1)
    ensures Digits(Value(s)) == s
    ensures s[0] != ZERO ==> Value(s) > 0
  {
    var n := |s| - 1;
    BeforeLast(s, 0);
    if n > 0 {
      DigitsOfValue(s[..n]);
      DigitsSnoc(Value(s[..n]), s[n]);
    } else {
      assert s[..n] == [];
    }
  }
}
