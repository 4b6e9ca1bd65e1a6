/**
  The canonical text byte by byte: the words, the punctuation and the escapes of PROTOCOL.md
  section 3.4, with none of the encoder's own names for them.
 */
module JsonWording {
  import opened Bytes
  import opened Utf8Text
  import opened Ordering
  import opened Splitting
  import opened CanonicalJson
  import CanonicalEncoder

  /** null, true and false; a number is its literal. */
  lemma {:induction false} Words(lit: seq<byte>)
    ensures Text(Null) == [0x6E, 0x75, 0x6C, 0x6C]
    ensures Text(Bool(true)) == [0x74, 0x72, 0x75, 0x65]
    ensures Text(Bool(false)) == [0x66, 0x61, 0x6C, 0x73, 0x65]
    ensures Text(Num(lit)) == lit
  {
  }

  /** A number is refused exactly for a '.', an 'e' or an 'E' in its literal. */
  lemma {:induction false} RefusedNumbers(lit: seq<byte>)
    ensures Integral(Num(lit)) <==> 0x2E !in lit && 0x65 !in lit && 0x45 !in lit
  {
  }

  // ---------- strings ----------

  /** The lowercase hexadecimal digit. */
  predicate IsLowerHex(b: byte, d: nat) {
    if d < 10 then b as int == 0x30 + d else d < 16 && b as int == 0x61 + (d - 10)
  }

  /** The five short escapes and the two quoted characters, \u00xx for other controls, UTF-8 for the rest. */
  ghost predicate IsEscape(e: seq<byte>, c: char) {
    match c as int
    case 0x22 => e == [0x5C, 0x22]
    case 0x5C => e == [0x5C, 0x5C]
    case 0x08 => e == [0x5C, 0x62]
    case 0x09 => e == [0x5C, 0x74]
    case 0x0A => e == [0x5C, 0x6E]
    case 0x0C => e == [0x5C, 0x66]
    case 0x0D => e == [0x5C, 0x72]
    case r =>
      if r < 0x20 then
        |e| == 6 && e[..4] == [0x5C, 0x75, 0x30, 0x30] && IsLowerHex(e[4], r / 16) && IsLowerHex(e[5], r % 16)
      else e == EncodeRune(c)
  }

  function EscapesOf(s: string): seq<seq<byte>> {
    seq(|s|, i requires 0 <= i < |s| => Escape(s[i]))
  }

  function Concat(parts: seq<seq<byte>>): seq<byte> {
    if parts == [] then [] else parts[0] + Concat(parts[1..])
  }

  lemma {:induction false} EscapedIsConcat(s: string)
    ensures Escaped(s) == Concat(EscapesOf(s))
  {
    if s != [] {
      EscapedIsConcat(s[1..]);
      assert EscapesOf(s)[1..] == EscapesOf(s[1..]);
    }
  }

  lemma {:induction false} EscapeByBytes(c: char)
    ensures IsEscape(Escape(c), c)
  {
  }

  /** A string is its characters' escapes, one after the other, between quotes. */
  lemma {:induction false} StringText(s: string) returns (escapes: seq<seq<byte>>)
    ensures |escapes| == |s| && forall i :: 0 <= i < |s| ==> IsEscape(escapes[i], s[i])
    ensures Text(Str(s)) == [0x22] + Concat(escapes) + [0x22]
  {
    escapes := EscapesOf(s);
    EscapedIsConcat(s);
    forall i | 0 <= i < |s|
      ensures IsEscape(escapes[i], s[i])
    {
      EscapeByBytes(s[i]);
    }
  }

  // ---------- arrays and objects ----------

  ghost function Texts(items: seq<Json>): seq<seq<byte>> {
    seq(|items|, i requires 0 <= i < |items| => Text(items[i]))
  }

  lemma {:induction false} MoreItemsIsJoin(first: seq<byte>, items: seq<Json>)
    ensures first + MoreItems(items) == Join([first] + Texts(items), 0x2C)
    decreases |items|
  {
    if items == [] {
      assert [first] + Texts(items) == [first] && first + [] == first;
    } else {
      var rest := items[1..];
      assert Texts(items) == [Text(items[0])] + Texts(rest);
      MoreItemsIsJoin(Text(items[0]), rest);
      JoinFirst(first, Texts(items), 0x2C);
      Regroup3([COMMA], Text(items[0]), MoreItems(rest));
      Regroup3(first, [COMMA], Text(items[0]) + MoreItems(rest));
    }
  }

  /** An array is its items in order, separated by commas, between brackets. */
  lemma {:induction false} ArrayText(items: seq<Json>)
    ensures Text(Arr(items)) == [0x5B] + Join(Texts(items), 0x2C) + [0x5D]
  {
    if items != [] {
      MoreItemsIsJoin(Text(items[0]), items[1..]);
      assert Texts(items) == [Text(items[0])] + Texts(items[1..]);
    }
  }

  /** One member: the quoted key, a colon, the value. */
  ghost function Member(members: map<string, Json>, k: string): seq<byte>
    requires k in members
  {
    Text(Str(k)) + [0x3A] + Text(members[k])
  }

  ghost function MembersOf(members: map<string, Json>, keys: seq<string>): seq<seq<byte>>
    requires Elements(keys) <= members.Keys
  {
    assert forall i :: 0 <= i < |keys| ==> keys[i] in Elements(keys);
    seq(|keys|, i requires 0 <= i < |keys| => Member(members, keys[i]))
  }

  lemma {:induction false} FirstKeyAndMore(members: map<string, Json>, keys: seq<string>)
    requires keys != [] && Elements(keys) <= members.Keys
    ensures keys[0] in members && Elements(keys[1..]) <= members.Keys
    ensures MembersOf(members, keys) == [Member(members, keys[0])] + MembersOf(members, keys[1..])
  {
    assert keys[0] in Elements(keys);
    assert forall x :: x in keys[1..] ==> x in Elements(keys);
  }

  lemma {:induction false} MemberIsText(v: Json, k: string)
    requires v.Obj? && k in v.members
    ensures MemberText(k, v.members[k]) == Member(v.members, k)
  {
  }

  lemma {:induction false} MoreMembersIsJoin(first: seq<byte>, v: Json, keys: seq<string>)
    requires v.Obj? && Elements(keys) <= v.members.Keys
    ensures first + MoreMembers(v, keys) == Join([first] + MembersOf(v.members, keys), 0x2C)
    decreases |keys|
  {
    if keys == [] {
      assert [first] + MembersOf(v.members, keys) == [first] && first + [] == first;
    } else {
      FirstKeyAndMore(v.members, keys);
      MemberIsText(v, keys[0]);
      var member, more := Member(v.members, keys[0]), MoreMembers(v, keys[1..]);
      MoreMembersIsJoin(member, v, keys[1..]);
      JoinFirst(first, MembersOf(v.members, keys), 0x2C);
      Regroup3([COMMA], member, more);
      Regroup3(first, [COMMA], member + more);
    }
  }

  /** An object is its members in the order of their keys, separated by commas, between braces. */
  lemma {:induction false} ObjectText(members: map<string, Json>)
    ensures Text(Obj(members)) == [0x7B] + Join(MembersOf(members, SortedKeys(members.Keys)), 0x2C) + [0x7D]
  {
    var keys := SortedKeys(members.Keys);
    if keys != [] {
      FirstKeyAndMore(members, keys);
      MemberIsText(Obj(members), keys[0]);
      MoreMembersIsJoin(Member(members, keys[0]), Obj(members), keys[1..]);
    }
  }

  // ---------- an answer ----------

  lemma {:induction false} OneKey(k: string)
    ensures SortedKeys({k}) == [k]
  {
    assert Ascending([k]) && Elements([k]) == {k};
    SortedArrangementIsUnique([k], {k});
  }

  lemma {:induction false} KeyOk()
    ensures Text(Str("ok")) == [0x22, 0x6F, 0x6B, 0x22]
  {
    assert "ok"[1..] == "k" && "k"[1..] == "";
    assert Escaped("ok") == [0x6F] + ([0x6B] + []);
  }

  /** {"ok":true} */
  lemma {:induction false} OkResponse()
    ensures Text(Obj(map["ok" := Bool(true)]))
         == [0x7B, 0x22, 0x6F, 0x6B, 0x22, 0x3A, 0x74, 0x72, 0x75, 0x65, 0x7D]
  {
    var members := map["ok" := Bool(true)];
    assert members.Keys == {"ok"};
    OneKey("ok");
    ObjectText(members);
    KeyOk();
    Words([]);
    assert MembersOf(members, ["ok"]) == [Member(members, "ok")];
  }
}
