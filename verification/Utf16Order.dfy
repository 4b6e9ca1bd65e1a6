/**
  Section 3.2.3 of RFC 8785 sorts object keys by their UTF-16 code units; the encoder sorts
  them by their UTF-8 bytes. When the two orders agree.
 */
module Utf16Order {
  import opened Bytes
  import opened Utf8Text
  import opened Ordering

  /** One code unit, or the surrogate pair of a character beyond the basic plane (section 2.1 of RFC 2781). */
  function Units(c: char): (us: seq<nat>)
    ensures 1 <= |us| <= 2
  {
    var r := c as int;
    if r < 0x10000 then [r] else [0xD800 + (r - 0x10000) / 0x400, 0xDC00 + (r - 0x10000) % 0x400]
  }

  /** A pair is a high and a low surrogate with ten bits each. */
  lemma {:induction false} PairByNumbers(c: char)
    ensures var r, us := c as int, Units(c);
            if r < 0x10000 then us == [r]
            else
              |us| == 2 && 0xD800 <= us[0] < 0xDC00 && 0xDC00 <= us[1] < 0xE000
              && r == 0x10000 + (us[0] - 0xD800) * 0x400 + (us[1] - 0xDC00)
  {
  }

  function Utf16(s: string): seq<nat> {
    if s == [] then [] else Units(s[0]) + Utf16(s[1..])
  }

  predicate UnitsLess(a: seq<nat>, b: seq<nat>) {
    b != [] && (a == [] || a[0] < b[0] || (a[0] == b[0] && UnitsLess(a[1..], b[1..])))
  }

  predicate Utf16Less(a: string, b: string) {
    UnitsLess(Utf16(a), Utf16(b))
  }

  /** One of the characters needs a surrogate pair, the other lies above the surrogates. */
  predicate CharsStraddle(c: char, d: char) {
    (0xE000 <= c as int < 0x10000 <= d as int) || (0xE000 <= d as int < 0x10000 <= c as int)
  }

  /** The first characters in which the keys differ do so. */
  predicate Straddle(a: string, b: string) {
    a != [] && b != [] && if a[0] == b[0] then Straddle(a[1..], b[1..]) else CharsStraddle(a[0], b[0])
  }

  // ---------- one pair of keys ----------

  lemma {:induction false} CommonUnits(p: seq<nat>, a: seq<nat>, b: seq<nat>)
    ensures UnitsLess(p + a, p + b) <==> UnitsLess(a, b)
  {
    if p == [] {
      assert p + a == a && p + b == b;
    } else {
      assert (p + a)[1..] == p[1..] + a && (p + b)[1..] == p[1..] + b;
      CommonUnits(p[1..], a, b);
    }
  }

  lemma {:induction false} FirstUnits(p: seq<nat>, q: seq<nat>, a: seq<nat>, b: seq<nat>)
    requires p != [] && q != []
    ensures p[0] != q[0] ==> (UnitsLess(p + a, q + b) <==> p[0] < q[0])
    ensures |p| == 2 && |q| == 2 && p[0] == q[0] && p[1] != q[1] ==> (UnitsLess(p + a, q + b) <==> p[1] < q[1])
  {
    if |p| == 2 && |q| == 2 {
      assert (p + a)[1..] == [p[1]] + a && (q + b)[1..] == [q[1]] + b;
    }
  }

  /** Different characters decide the order of code units, the other way round if they straddle. */
  lemma {:induction false} CharOrder(c: char, d: char, a: seq<nat>, b: seq<nat>)
    requires c != d
    ensures UnitsLess(Units(c) + a, Units(d) + b) <==> (c < d) != CharsStraddle(c, d)
  {
    FirstUnits(Units(c), Units(d), a, b);
  }

  lemma {:induction false} Utf16OrderOfTexts(a: string, b: string)
    ensures Utf16Less(a, b) <==> TextLess(a, b) != Straddle(a, b)
  {
    if a == [] || b == [] {
    } else if a[0] == b[0] {
      CommonUnits(Units(a[0]), Utf16(a[1..]), Utf16(b[1..]));
      Utf16OrderOfTexts(a[1..], b[1..]);
    } else {
      CharOrder(a[0], b[0], Utf16(a[1..]), Utf16(b[1..]));
    }
  }

  /** The encoder compares two keys as the RFC does exactly if they do not straddle. */
  lemma {:induction false} OrdersAgreeExactly(a: string, b: string)
    ensures (KeyLess(a, b) <==> Utf16Less(a, b)) <==> !Straddle(a, b)
  {
    ByteOrderIsCodePointOrder(a, b);
    Utf16OrderOfTexts(a, b);
  }

  // ---------- the keys of an object ----------

  ghost predicate Utf16Ascending(keys: seq<string>) {
    forall i, j :: 0 <= i < j < |keys| ==> Utf16Less(keys[i], keys[j])
  }

  ghost predicate SomeStraddle(s: set<string>) {
    exists a, b :: a in s && b in s && Straddle(a, b)
  }

  lemma {:induction false} StraddleIsSymmetric(a: string, b: string)
    ensures Straddle(a, b) <==> Straddle(b, a)
    ensures !Straddle(a, a)
  {
    if a != [] {
      StraddleIsSymmetric(a[1..], if b == [] then [] else b[1..]);
    }
  }

  lemma {:induction false} PositionInSorted(s: set<string>, k: string) returns (i: nat)
    requires k in s
    ensures i < |SortedKeys(s)| && SortedKeys(s)[i] == k
  {
    var keys := SortedKeys(s);
    assert k in Elements(keys);
    i :| i < |keys| && keys[i] == k;
  }

  lemma {:induction false} StraddlersOutOfOrder(keys: seq<string>, i: nat, j: nat)
    requires Ascending(keys) && i < j < |keys| && Straddle(keys[i], keys[j])
    ensures !Utf16Ascending(keys)
  {
    OrdersAgreeExactly(keys[i], keys[j]);
  }

  lemma {:induction false} StraddlersInSorted(s: set<string>, a: string, b: string)
    requires a in s && b in s && Straddle(a, b)
    ensures !Utf16Ascending(SortedKeys(s))
  {
    var i := PositionInSorted(s, a);
    var j := PositionInSorted(s, b);
    StraddleIsSymmetric(a, b);
    if i < j {
      StraddlersOutOfOrder(SortedKeys(s), i, j);
    } else {
      StraddlersOutOfOrder(SortedKeys(s), j, i);
    }
  }

  /** The encoder's arrangement of an object's keys is that of the RFC iff no two of them straddle. */
  lemma {:induction false} SortedAsTheRfcExactly(s: set<string>)
    ensures Utf16Ascending(SortedKeys(s)) <==> !SomeStraddle(s)
  {
    if SomeStraddle(s) {
      var a, b :| a in s && b in s && Straddle(a, b);
      StraddlersInSorted(s, a, b);
    } else {
      NoneOutOfOrder(SortedKeys(s), s);
    }
  }

  lemma {:induction false} NoneOutOfOrder(keys: seq<string>, s: set<string>)
    requires Ascending(keys) && Elements(keys) == s && !SomeStraddle(s)
    ensures Utf16Ascending(keys)
  {
    forall i, j | 0 <= i < j < |keys|
      ensures Utf16Less(keys[i], keys[j])
    {
      assert keys[i] in Elements(keys) && keys[j] in Elements(keys);
      OrdersAgreeExactly(keys[i], keys[j]);
    }
  }

  // ---------- the arrangement of the RFC ----------

  lemma {:induction false} UnitsLessIsTransitive(a: seq<nat>, b: seq<nat>, c: seq<nat>)
    requires UnitsLess(a, b) && UnitsLess(b, c)
    ensures UnitsLess(a, c)
  {
    if a != [] && a[0] == b[0] == c[0] {
      UnitsLessIsTransitive(a[1..], b[1..], c[1..]);
    }
  }

  lemma {:induction false} OneComesFirst(a: string, b: string)
    ensures a == b || Utf16Less(a, b) || Utf16Less(b, a)
  {
    TextLessIsStrictOrder(a, b, a);
    StraddleIsSymmetric(a, b);
    Utf16OrderOfTexts(a, b);
    Utf16OrderOfTexts(b, a);
  }

  function Insert(k: string, keys: seq<string>): seq<string> {
    if keys == [] || Utf16Less(k, keys[0]) then [k] + keys else [keys[0]] + Insert(k, keys[1..])
  }

  lemma {:induction false} PrependedElements(k: string, keys: seq<string>)
    ensures Elements([k] + keys) == Elements(keys) + {k}
  {
    assert forall x :: x in [k] + keys <==> x == k || x in keys;
  }

  lemma {:induction false} InsertedElements(k: string, keys: seq<string>)
    ensures Elements(Insert(k, keys)) == Elements(keys) + {k}
  {
    if keys == [] || Utf16Less(k, keys[0]) {
      PrependedElements(k, keys);
    } else {
      InsertedElements(k, keys[1..]);
      HeadAndTail(keys);
      PrependedElements(keys[0], keys[1..]);
      PrependedElements(keys[0], Insert(k, keys[1..]));
    }
  }

  lemma {:induction false} PrependKeepsOrder(k: string, keys: seq<string>)
    requires Utf16Ascending(keys) && forall x :: x in Elements(keys) ==> Utf16Less(k, x)
    ensures Utf16Ascending([k] + keys)
  {
    assert forall i :: 0 <= i < |keys| ==> keys[i] in Elements(keys);
  }

  lemma {:induction false} TailAscends(keys: seq<string>)
    requires Utf16Ascending(keys) && keys != []
    ensures Utf16Ascending(keys[1..])
    ensures forall x :: x in Elements(keys[1..]) ==> Utf16Less(keys[0], x)
  {
    forall x | x in Elements(keys[1..])
      ensures Utf16Less(keys[0], x)
    {
      var i :| 0 <= i < |keys| - 1 && keys[1..][i] == x;
      assert keys[i + 1] == x;
    }
  }

  lemma {:induction false} InsertKeepsUtf16Order(k: string, keys: seq<string>)
    requires Utf16Ascending(keys) && k !in Elements(keys)
    ensures Utf16Ascending(Insert(k, keys))
  {
    if keys == [] {
    } else if Utf16Less(k, keys[0]) {
      TailAscends(keys);
      forall x | x in Elements(keys)
        ensures Utf16Less(k, x)
      {
        assert x == keys[0] || x in Elements(keys[1..]);
        if x != keys[0] {
          UnitsLessIsTransitive(Utf16(k), Utf16(keys[0]), Utf16(x));
        }
      }
      PrependKeepsOrder(k, keys);
    } else {
      TailAscends(keys);
      assert keys[0] in Elements(keys);
      OneComesFirst(k, keys[0]);
      assert forall x :: x in Elements(keys[1..]) ==> x in Elements(keys);
      InsertKeepsUtf16Order(k, keys[1..]);
      InsertedElements(k, keys[1..]);
      PrependKeepsOrder(keys[0], Insert(k, keys[1..]));
    }
  }

  /** The keys as section 3.2.3 of RFC 8785 arranges them. */
  ghost function RfcKeys(s: set<string>): (keys: seq<string>)
    ensures Utf16Ascending(keys)
    ensures Elements(keys) == s
  {
    if k :| k in s then
                 var rest := RfcKeys(s - {k});
                 InsertKeepsUtf16Order(k, rest);
                 InsertedElements(k, rest);
                 Insert(k, rest)
    else []
  }

  /** If that is ascending for the encoder too, no two keys straddle and the arrangements are one. */
  lemma {:induction false} SameArrangementExactly(s: set<string>)
    ensures Ascending(RfcKeys(s)) <==> !SomeStraddle(s)
    ensures !SomeStraddle(s) <==> RfcKeys(s) == SortedKeys(s)
  {
    var keys := RfcKeys(s);
    SortedAsTheRfcExactly(s);
    if Ascending(keys) {
      SortedArrangementIsUnique(keys, s);
    }
    if !SomeStraddle(s) {
      forall i, j | 0 <= i < j < |keys|
        ensures KeyLess(keys[i], keys[j])
      {
        assert keys[i] in Elements(keys) && keys[j] in Elements(keys);
        OrdersAgreeExactly(keys[i], keys[j]);
      }
      SortedArrangementIsUnique(keys, s);
    }
  }

  /** Two keys the encoder arranges differently from the RFC: U+FF5E and U+10000. */
  lemma {:induction false} StraddlingKeys()
    ensures Straddle("\U{FF5E}", "\U{10000}")
    ensures KeyLess("\U{FF5E}", "\U{10000}") && Utf16Less("\U{10000}", "\U{FF5E}")
    ensures !Utf16Ascending(SortedKeys({"\U{FF5E}", "\U{10000}"}))
  {
    var a, b := "\U{FF5E}", "\U{10000}";
    assert a[0] as int == 0xFF5E && b[0] as int == 0x10000;
    assert Straddle(a, b) && TextLess(a, b);
    StraddleIsSymmetric(a, b);
    TextLessIsStrictOrder(a, b, a);
    ByteOrderIsCodePointOrder(a, b);
    Utf16OrderOfTexts(b, a);
    SortedAsTheRfcExactly({a, b});
  }
}
