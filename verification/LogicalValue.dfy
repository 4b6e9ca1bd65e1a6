/**
  "Byte-identical output for the same logical value" (PROTOCOL.md section 3.4): number literals
  are compared as integers here, not as texts. The one value with two literals is zero.
 */
module LogicalValue {
  import opened Bytes
  import opened Decimal
  import opened Ordering
  import opened CanonicalJson
  import CanonicalParser

  const NEGATIVE_ZERO: seq<byte> := [MINUS, ZERO]

  /** The integer a literal stands for. */
  function IntegerValue(lit: seq<byte>): int
    requires IsInteger(lit)
  {
    var n: int := Value(Unsigned(lit));
    if lit[0] == MINUS then -n else n
  }

  /** The same JSON value: equal but for how integers are written. */
  ghost predicate SameValue(v: Json, w: Json) {
    match (v, w)
    case (Num(a), Num(b)) => IsInteger(a) && IsInteger(b) && IntegerValue(a) == IntegerValue(b)
    case (Arr(a), Arr(b)) => |a| == |b| && forall i :: 0 <= i < |a| ==> SameValue(a[i], b[i])
    case (Obj(a), Obj(b)) => a.Keys == b.Keys && forall k :: k in a && k in b ==> SameValue(a[k], b[k])
    case _ => v == w
  }

  /** At every place both trees have a minus zero or neither has. */
  ghost predicate SameZeros(v: Json, w: Json) {
    match (v, w)
    case (Num(a), Num(b)) => a == NEGATIVE_ZERO <==> b == NEGATIVE_ZERO
    case (Arr(a), Arr(b)) => |a| == |b| && forall i :: 0 <= i < |a| ==> SameZeros(a[i], b[i])
    case (Obj(a), Obj(b)) => a.Keys == b.Keys && forall k :: k in a && k in b ==> SameZeros(a[k], b[k])
    case _ => true
  }

  predicate IsNotNegativeZero(lit: seq<byte>) {
    lit != NEGATIVE_ZERO
  }

  ghost predicate WithoutNegativeZero(v: Json) {
    AllNumbers(v, IsNotNegativeZero)
  }

  lemma {:induction false} LiteralParts(lit: seq<byte>)
    requires IsInteger(lit)
    ensures lit == (if lit[0] == MINUS then [MINUS] else []) + Unsigned(lit)
    ensures Digits(Value(Unsigned(lit))) == Unsigned(lit)
    ensures Value(Unsigned(lit)) == 0 <==> lit == [ZERO] || lit == NEGATIVE_ZERO
  {
    DigitsOfValue(Unsigned(lit));
    assert Value([ZERO]) == 0;
    if Unsigned(lit) == [ZERO] {
      assert [MINUS] + [ZERO] == NEGATIVE_ZERO && [] + [ZERO] == [ZERO];
    }
  }

  /** Two literals of one integer are the same text, or they are "0" and "-0". */
  lemma {:induction false} EqualIntegers(a: seq<byte>, b: seq<byte>)
    requires IsInteger(a) && IsInteger(b) && IntegerValue(a) == IntegerValue(b)
    ensures a == b || (a == [ZERO] && b == NEGATIVE_ZERO) || (a == NEGATIVE_ZERO && b == [ZERO])
  {
    LiteralParts(a);
    LiteralParts(b);
  }

  lemma {:induction false} EqualValues(v: Json, w: Json)
    requires SameValue(v, w)
    ensures v == w <==> SameZeros(v, w)
  {
    match (v, w)
    case (Num(a), Num(b)) =>
      EqualIntegers(a, b);
    case (Arr(a), Arr(b)) =>
      forall i | 0 <= i < |a|
        ensures a[i] == b[i] <==> SameZeros(a[i], b[i])
      {
        EqualValues(a[i], b[i]);
      }
    case (Obj(a), Obj(b)) =>
      forall k | k in a
        ensures a[k] == b[k] <==> SameZeros(a[k], b[k])
      {
        EqualValues(a[k], b[k]);
      }
    case _ =>
  }

  /** Exactly when one logical value has one text: where it is zero, both trees write zero alike. */
  lemma {:induction false} SameValueSameTextExactly(v: Json, w: Json)
    requires Canonical(v) && Canonical(w) && SameValue(v, w)
    ensures Text(v) == Text(w) <==> SameZeros(v, w)
  {
    EqualValues(v, w);
    if Text(v) == Text(w) {
      CanonicalParser.EqualTextEqualValue(v, w);
    }
  }

  lemma {:induction false} NoZerosToTell(v: Json, w: Json)
    requires SameValue(v, w) && WithoutNegativeZero(v) && WithoutNegativeZero(w)
    ensures SameZeros(v, w)
  {
    match (v, w)
    case (Arr(a), Arr(b)) =>
      forall i | 0 <= i < |a|
        ensures SameZeros(a[i], b[i])
      {
        NoZerosToTell(a[i], b[i]);
      }
    case (Obj(a), Obj(b)) =>
      forall k | k in a
        ensures SameZeros(a[k], b[k])
      {
        NoZerosToTell(a[k], b[k]);
      }
    case _ =>
  }

  lemma {:induction false} SameAsItself(v: Json)
    requires Canonical(v)
    ensures SameValue(v, v)
  {
    match v
    case Arr(items) =>
      forall i | 0 <= i < |items|
        ensures SameValue(items[i], items[i])
      {
        SameAsItself(items[i]);
      }
    case Obj(members) =>
      forall k | k in members
        ensures SameValue(members[k], members[k])
      {
        SameAsItself(members[k]);
      }
    case _ =>
  }

  /** Without a minus zero the bytes are the same iff the logical value is. */
  lemma {:induction false} TextIsTheLogicalValue(v: Json, w: Json)
    requires Canonical(v) && Canonical(w) && WithoutNegativeZero(v) && WithoutNegativeZero(w)
    ensures Text(v) == Text(w) <==> SameValue(v, w)
  {
    if SameValue(v, w) {
      NoZerosToTell(v, w);
      SameValueSameTextExactly(v, w);
    }
    if Text(v) == Text(w) {
      CanonicalParser.EqualTextEqualValue(v, w);
      SameAsItself(v);
    }
  }

  /** The encoder keeps "-0" as it stands: one value, two texts. */
  lemma {:induction false} NegativeZeroIsWrittenAsItIs()
    ensures var v, w := Num(NEGATIVE_ZERO), Num([ZERO]);
            Canonical(v) && Canonical(w) && SameValue(v, w) && Text(v) != Text(w)
  {
    assert Unsigned(NEGATIVE_ZERO) == [ZERO] && Unsigned([ZERO]) == [ZERO];
    assert Value([ZERO]) == 0;
  }
}
