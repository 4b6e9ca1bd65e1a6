/**
  Sorting Go strings. Go's `<` compares the UTF-8 bytes, and every sort in the modelled
  code runs over distinct strings gathered from a map in an arbitrary order.
 */
module Ordering {
  import opened Bytes
  import opened Utf8Text

  predicate KeyLess(a: string, b: string) {
    BytesLess(Utf8(a), Utf8(b))
  }

  ghost predicate Ascending(keys: seq<string>) {
    forall i, j :: 0 <= i < j < |keys| ==> KeyLess(keys[i], keys[j])
  }

  ghost predicate NoDuplicates(keys: seq<string>) {
    forall i, j :: 0 <= i < j < |keys| ==> keys[i] != keys[j]
  }

  ghost function Elements<T>(s: seq<T>): set<T> {
    set x | x in s
  }

  lemma {:induction false} KeyOrder(a: string, b: string, c: string)
    ensures !KeyLess(a, a)
    ensures KeyLess(a, b) ==> !KeyLess(b, a)
    ensures KeyLess(a, b) && KeyLess(b, c) ==> KeyLess(a, c)
    ensures a == b || KeyLess(a, b) || KeyLess(b, a)
  {
    TextLessIsStrictOrder(a, b, c);
    ByteOrderIsCodePointOrder(a, a);
    ByteOrderIsCodePointOrder(a, b);
    ByteOrderIsCodePointOrder(b, a);
    ByteOrderIsCodePointOrder(b, c);
    ByteOrderIsCodePointOrder(a, c);
  }

  ghost predicate IsLeast(k: string, s: set<string>) {
    k in s && forall j :: j in s && j != k ==> KeyLess(k, j)
  }

  lemma {:induction false} LeastExists(s: set<string>)
    requires s != {}
    ensures exists k :: IsLeast(k, s)
  {
    var k :| k in s;
    if s == {k} {
      assert IsLeast(k, s);
    } else {
      LeastExists(s - {k});
      var l :| IsLeast(l, s - {k});
      KeyOrder(k, l, l);
      var m := if KeyLess(k, l) then k else l;
      forall j | j in s && j != m
        ensures KeyLess(m, j)
      {
        KeyOrder(k, l, j);
      }
      assert IsLeast(m, s);
    }
  }

  lemma {:induction false} LeastIsUnique(k: string, l: string, s: set<string>)
    requires IsLeast(k, s) && IsLeast(l, s)
    ensures k == l
  {
    KeyOrder(k, l, k);
  }

  /** The one ascending arrangement of a set of keys. */
  ghost function SortedKeys(s: set<string>): (keys: seq<string>)
    ensures Ascending(keys)
    ensures Elements(keys) == s
  {
    if s == {} then []
    else
      LeastExists(s);
      var k :| IsLeast(k, s);
      var rest := SortedKeys(s - {k});
      assert forall x :: x in rest <==> x in Elements(rest);
      assert forall x :: x in [k] + rest <==> x == k || x in rest;
      [k] + rest
  }

  /** Any ascending arrangement of the same keys is that one. */
  lemma {:induction false} SortedArrangementIsUnique(keys: seq<string>, s: set<string>)
    requires Ascending(keys) && Elements(keys) == s
    ensures keys == SortedKeys(s)
  {
    if keys != [] {
      assert keys[0] in s;
      assert forall j :: j in keys && j != keys[0] ==> KeyLess(keys[0], j);
      assert IsLeast(keys[0], s);
      forall l | IsLeast(l, s)
        ensures l == keys[0]
      {
        LeastIsUnique(l, keys[0], s);
      }
      AscendingTail(keys);
      SortedArrangementIsUnique(keys[1..], s - {keys[0]});
    }
  }

  lemma {:induction false} AscendingTail(keys: seq<string>)
    requires Ascending(keys) && keys != []
    ensures Ascending(keys[1..])
    ensures Elements(keys[1..]) == Elements(keys) - {keys[0]}
  {
    KeyOrder(keys[0], keys[0], keys[0]);
    forall x
      ensures x in keys[1..] <==> x in keys && x != keys[0]
    {
      assert keys == [keys[0]] + keys[1..];
    }
  }

  /** sort.Slice and slices.Sort over distinct strings; the algorithm is immaterial. */
  method SortKeys(keys: seq<string>) returns (sorted: seq<string>)
    requires NoDuplicates(keys)
    ensures sorted == SortedKeys(Elements(keys))
  {
    sorted := [];
    for i := 0 to |keys|
      invariant Ascending(sorted)
      invariant Elements(sorted) == Elements(keys[..i])
    {
      var k := keys[i];
      var j := 0;
      while j < |sorted| && KeyLess(sorted[j], k)
        invariant 0 <= j <= |sorted|
        invariant forall h :: 0 <= h < j ==> KeyLess(sorted[h], k)
      {
        j := j + 1;
      }
      assert k !in Elements(sorted);
      InsertKeepsOrder(sorted, j, k);
      assert keys[..i + 1] == keys[..i] + [k];
      sorted := sorted[..j] + [k] + sorted[j..];
    }
    assert keys[..|keys|] == keys;
    SortedArrangementIsUnique(sorted, Elements(keys));
  }

  lemma {:induction false} InsertKeepsOrder(sorted: seq<string>, j: nat, k: string)
    requires Ascending(sorted) && j <= |sorted|
    requires k !in sorted
    requires forall h :: 0 <= h < j ==> KeyLess(sorted[h], k)
    requires j < |sorted| ==> !KeyLess(sorted[j], k)
    ensures Ascending(sorted[..j] + [k] + sorted[j..])
    ensures Elements(sorted[..j] + [k] + sorted[j..]) == Elements(sorted) + {k}
  {
    forall h | j <= h < |sorted|
      ensures KeyLess(k, sorted[h])
    {
      KeyOrder(sorted[j], k, k);
      KeyOrder(k, sorted[j], sorted[h]);
    }
    assert sorted == sorted[..j] + sorted[j..];
  }

  /** Sorted by bytes means ascending by Unicode code point, as the source's comment says. */
  lemma {:induction false} SortedKeysAscendByCodePoint(s: set<string>, i: nat, j: nat)
    requires i < j < |SortedKeys(s)|
    ensures TextLess(SortedKeys(s)[i], SortedKeys(s)[j])
  {
    ByteOrderIsCodePointOrder(SortedKeys(s)[i], SortedKeys(s)[j]);
  }
}
