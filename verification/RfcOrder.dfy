/**
  The canonical text with the keys of every object in the order of section 3.2.3 of RFC 8785,
  and exactly when it is the encoder's text.
 */
module RfcOrder {
  import opened Wrappers
  import opened Bytes
  import opened Ordering
  import opened Utf16Order
  import opened CanonicalJson
  import opened CanonicalParser

  /** As CanonicalJson.Text, but for the order of the keys. */
  ghost function RfcText(v: Json): seq<byte>
    decreases v, 1, 0
  {
    match v
    case Arr(items) => [LBRACKET] + RfcItems(items) + [RBRACKET]
    case Obj(members) => [LBRACE] + RfcMembers(v, RfcKeys(members.Keys)) + [RBRACE]
    case _ => Text(v)
  }

  ghost function RfcItems(items: seq<Json>): seq<byte>
    decreases items, 0, 0
  {
    if items == [] then [] else RfcText(items[0]) + RfcMoreItems(items[1..])
  }

  ghost function RfcMoreItems(items: seq<Json>): seq<byte>
    decreases items, 0, 0
  {
    if items == [] then [] else [COMMA] + RfcText(items[0]) + RfcMoreItems(items[1..])
  }

  ghost function RfcMember(k: string, v: Json): seq<byte>
    decreases v, 2, 0
  {
    Quoted(k) + [COLON] + RfcText(v)
  }

  ghost function RfcMembers(v: Json, keys: seq<string>): seq<byte>
    requires v.Obj? && Elements(keys) <= v.members.Keys
    decreases v, 0, |keys| + 1
  {
    if keys == [] then []
    else
      assert keys[0] in Elements(keys) && forall x :: x in keys[1..] ==> x in keys;
      RfcMember(keys[0], v.members[keys[0]]) + RfcMoreMembers(v, keys[1..])
  }

  ghost function RfcMoreMembers(v: Json, keys: seq<string>): seq<byte>
    requires v.Obj? && Elements(keys) <= v.members.Keys
    decreases v, 0, |keys| + 1
  {
    if keys == [] then []
    else
      assert keys[0] in Elements(keys) && forall x :: x in keys[1..] ==> x in keys;
      [COMMA] + RfcMember(keys[0], v.members[keys[0]]) + RfcMoreMembers(v, keys[1..])
  }

  /** No object in the tree, at any depth, has two keys that straddle. */
  ghost predicate NoneStraddle(v: Json) {
    match v
    case Arr(items) => forall i :: 0 <= i < |items| ==> NoneStraddle(items[i])
    case Obj(members) => !SomeStraddle(members.Keys) && forall k :: k in members ==> NoneStraddle(members[k])
    case _ => true
  }

  // ---------- without such keys ----------

  lemma {:induction false} SameText(v: Json)
    requires NoneStraddle(v)
    ensures RfcText(v) == Text(v)
    decreases v, 1, 0
  {
    match v
    case Arr(items) => SameItems(items);
    case Obj(members) =>
      SameArrangementExactly(members.Keys);
      SameMembers(v, SortedKeys(members.Keys));
    case _ =>
  }

  lemma {:induction false} SameItems(items: seq<Json>)
    requires forall i :: 0 <= i < |items| ==> NoneStraddle(items[i])
    ensures RfcItems(items) == ItemsText(items)
    decreases items, 0, 1
  {
    if items != [] {
      SameText(items[0]);
      SameMoreItems(items[1..]);
    }
  }

  lemma {:induction false} SameMoreItems(items: seq<Json>)
    requires forall i :: 0 <= i < |items| ==> NoneStraddle(items[i])
    ensures RfcMoreItems(items) == MoreItems(items)
    decreases items, 0, 0
  {
    if items != [] {
      SameText(items[0]);
      SameMoreItems(items[1..]);
    }
  }

  lemma {:induction false} FirstAndMore(v: Json, keys: seq<string>)
    requires v.Obj? && keys != [] && Elements(keys) <= v.members.Keys
    ensures keys[0] in v.members && Elements(keys[1..]) <= v.members.Keys
    ensures forall k :: k in Elements(keys) <==> k == keys[0] || k in Elements(keys[1..])
  {
    assert keys[0] in Elements(keys);
    assert forall k :: k in keys <==> k == keys[0] || k in keys[1..];
  }

  lemma {:induction false} SameMembers(v: Json, keys: seq<string>)
    requires v.Obj? && Elements(keys) <= v.members.Keys
    requires forall k :: k in v.members ==> NoneStraddle(v.members[k])
    ensures RfcMembers(v, keys) == MembersText(v, keys)
    decreases v, 0, |keys| + 1
  {
    if keys != [] {
      FirstAndMore(v, keys);
      SameText(v.members[keys[0]]);
      SameMoreMembers(v, keys[1..]);
    }
  }

  lemma {:induction false} SameMoreMembers(v: Json, keys: seq<string>)
    requires v.Obj? && Elements(keys) <= v.members.Keys
    requires forall k :: k in v.members ==> NoneStraddle(v.members[k])
    ensures RfcMoreMembers(v, keys) == MoreMembers(v, keys)
    decreases v, 0, |keys|
  {
    if keys != [] {
      FirstAndMore(v, keys);
      SameText(v.members[keys[0]]);
      SameMoreMembers(v, keys[1..]);
    }
  }

  // ---------- a text the canonical parser takes has none ----------

  lemma {:induction false} RfcStart(v: Json)
    requires Canonical(v)
    ensures RfcText(v) != [] && RfcText(v)[0] != RBRACKET && RfcText(v)[0] != RBRACE
  {
    TextStart(v);
  }

  lemma {:induction false} Unbracketed(bs: seq<byte>)
    requires ParseValue([LBRACKET] + bs).Some?
    ensures ParseItems(bs).Some?
  {
    assert ([LBRACKET] + bs)[0] == LBRACKET && ([LBRACKET] + bs)[1..] == bs;
  }

  lemma {:induction false} Unbraced(bs: seq<byte>)
    requires ParseValue([LBRACE] + bs).Some?
    ensures ParseMembers(bs).Some?
  {
    assert ([LBRACE] + bs)[0] == LBRACE && ([LBRACE] + bs)[1..] == bs;
  }

  lemma {:induction false} ParsedTextHasNone(v: Json, rest: seq<byte>)
    requires Canonical(v) && Delimited(v, rest)
    requires ParseValue(RfcText(v) + rest).Some?
    ensures NoneStraddle(v)
    decreases v, 2, 0
  {
    match v
    case Arr(items) =>
      Regroup4([LBRACKET], RfcItems(items), [RBRACKET], rest);
      Unbracketed(RfcItems(items) + [RBRACKET] + rest);
      ParsedItemsHaveNone(items, rest);
    case Obj(members) =>
      var keys := RfcKeys(members.Keys);
      Regroup4([LBRACE], RfcMembers(v, keys), [RBRACE], rest);
      Unbraced(RfcMembers(v, keys) + [RBRACE] + rest);
      ParsedMembersHaveNone(v, keys, rest);
      SameArrangementExactly(members.Keys);
    case _ =>
  }

  /** What comes after a value in such a text: the value is parsed to its end. */
  lemma {:induction false} ParsedToItsEnd(v: Json, more: seq<byte>)
    requires Canonical(v) && Delimited(v, more)
    requires ParseValue(RfcText(v) + more).Some?
    ensures NoneStraddle(v) && ParseValue(RfcText(v) + more) == Some((v, more))
    decreases v, 2, 1
  {
    ParsedTextHasNone(v, more);
    SameText(v);
    ParseText(v, more);
  }

  lemma {:induction false} ParsedItemsHaveNone(items: seq<Json>, rest: seq<byte>)
    requires forall i :: 0 <= i < |items| ==> Canonical(items[i])
    requires ParseItems(RfcItems(items) + [RBRACKET] + rest).Some?
    ensures forall i :: 0 <= i < |items| ==> NoneStraddle(items[i])
    decreases items, 0, 1
  {
    if items != [] {
      var more := RfcMoreItems(items[1..]) + [RBRACKET] + rest;
      Regroup4(RfcText(items[0]), RfcMoreItems(items[1..]), [RBRACKET], rest);
      RfcStart(items[0]);
      ParsedToItsEnd(items[0], more);
      ParsedMoreItemsHaveNone(items[1..], rest);
    }
  }

  lemma {:induction false} ParsedMoreItemsHaveNone(items: seq<Json>, rest: seq<byte>)
    requires forall i :: 0 <= i < |items| ==> Canonical(items[i])
    requires ParseMoreItems(RfcMoreItems(items) + [RBRACKET] + rest).Some?
    ensures forall i :: 0 <= i < |items| ==> NoneStraddle(items[i])
    decreases items, 0, 0
  {
    if items != [] {
      var more := RfcMoreItems(items[1..]) + [RBRACKET] + rest;
      Regroup5([COMMA], RfcText(items[0]), RfcMoreItems(items[1..]), [RBRACKET], rest);
      ParsedToItsEnd(items[0], more);
      ParsedMoreItemsHaveNone(items[1..], rest);
    }
  }

  lemma {:induction false} MemberStart(k: string, v: Json, rest: seq<byte>)
    ensures var more := [COLON] + (RfcText(v) + rest);
            && RfcMember(k, v) + rest == [QUOTE] + (Escaped(k) + [QUOTE] + more)
            && ParseChars(Escaped(k) + [QUOTE] + more) == Some((k, more))
  {
    var more := [COLON] + (RfcText(v) + rest);
    Regroup4(Quoted(k), [COLON], RfcText(v), rest);
    Regroup4([QUOTE], Escaped(k), [QUOTE], more);
    ParseCharsEscaped(k, more);
  }

  lemma {:induction false} ParsedMemberValue(k: string, v: Json, rest: seq<byte>)
    requires ParseMember(RfcMember(k, v) + rest).Some?
    ensures ParseValue(RfcText(v) + rest).Some?
  {
    MemberStart(k, v, rest);
    var more := [COLON] + (RfcText(v) + rest);
    var chars := Escaped(k) + [QUOTE] + more;
    assert ([QUOTE] + chars)[1..] == chars;
    assert more[0] == COLON && more[1..] == RfcText(v) + rest;
  }

  lemma {:induction false} ParsedMemberHasNone(k: string, v: Json, rest: seq<byte>)
    requires Canonical(v) && !StartsWithDigit(rest)
    requires ParseMember(RfcMember(k, v) + rest).Some?
    ensures NoneStraddle(v) && ParseMember(RfcMember(k, v) + rest) == Some((k, v, rest))
    decreases v, 3, 0
  {
    ParsedMemberValue(k, v, rest);
    ParsedTextHasNone(v, rest);
    SameText(v);
    ParseMemberText(k, v, rest);
  }

  lemma {:induction false} ParsedMembersHaveNone(v: Json, keys: seq<string>, rest: seq<byte>)
    requires v.Obj? && Canonical(v) && Elements(keys) <= v.members.Keys
    requires ParseMembers(RfcMembers(v, keys) + [RBRACE] + rest).Some?
    ensures Ascending(keys) && forall k :: k in Elements(keys) ==> NoneStraddle(v.members[k])
    decreases v, 1, 0
  {
    if keys != [] {
      FirstAndMore(v, keys);
      var k, x, tail := keys[0], v.members[keys[0]], RfcMoreMembers(v, keys[1..]);
      var more := tail + [RBRACE] + rest;
      Regroup4(RfcMember(k, x), tail, [RBRACE], rest);
      MemberStart(k, x, more);
      assert (RfcMember(k, x) + more)[0] == QUOTE;
      ParsedMemberHasNone(k, x, more);
      ParsedMoreMembersHaveNone(v, keys[1..], k, rest);
      HeadAndTail(keys);
    }
  }

  lemma {:induction false} ParsedMoreMembersHaveNone(v: Json, keys: seq<string>, prev: string, rest: seq<byte>)
    requires v.Obj? && Canonical(v) && Elements(keys) <= v.members.Keys
    requires ParseMoreMembers(RfcMoreMembers(v, keys) + [RBRACE] + rest, prev).Some?
    ensures Ascending([prev] + keys) && forall k :: k in Elements(keys) ==> NoneStraddle(v.members[k])
    decreases v, 0, |keys| + 1
  {
    if keys != [] {
      FirstAndMore(v, keys);
      var k, x, tail := keys[0], v.members[keys[0]], RfcMoreMembers(v, keys[1..]);
      var more := tail + [RBRACE] + rest;
      Regroup5([COMMA], RfcMember(k, x), tail, [RBRACE], rest);
      ParsedMemberHasNone(k, x, more);
      ParsedMoreMembersHaveNone(v, keys[1..], k, rest);
      HeadAndTail(keys);
      AscendingPrepend(prev, k, keys[1..]);
    }
  }

  // ---------- main result ----------

  /**
    The encoder's text of a whole tree has its keys in the order of RFC 8785 exactly if no
    object in it, at any depth, has two keys that straddle.
   */
  lemma {:induction false} TextIsInRfcOrderExactly(v: Json)
    requires Canonical(v)
    ensures Text(v) == RfcText(v) <==> NoneStraddle(v)
  {
    if NoneStraddle(v) {
      SameText(v);
    }
    if Text(v) == RfcText(v) {
      ParseText(v, []);
      ParsedTextHasNone(v, []);
    }
  }

  lemma {:induction false} TwoKeysOutOfOrder(v: Json, a: string, b: string)
    requires v == Obj(map[a := Null, b := Null]) && Straddle(a, b)
    ensures Canonical(v) && Text(v) != RfcText(v)
  {
    assert a in v.members.Keys && b in v.members.Keys && SomeStraddle(v.members.Keys);
    TextIsInRfcOrderExactly(v);
  }

  /** For instance an object with the keys U+FF5E and U+10000. */
  lemma {:induction false} TextOutOfRfcOrder()
    ensures var v := Obj(map["\U{FF5E}" := Null, "\U{10000}" := Null]); Canonical(v) && Text(v) != RfcText(v)
  {
    StraddlingKeys();
    TwoKeysOutOfOrder(Obj(map["\U{FF5E}" := Null, "\U{10000}" := Null]), "\U{FF5E}", "\U{10000}");
  }
}
