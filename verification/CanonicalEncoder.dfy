/**
  The encoder itself: go/internal/canonjson/canonjson.go appends to a shared buffer in
  loops, gathers an object's keys in map iteration order and sorts them.
 */
module CanonicalEncoder {
  import opened Wrappers
  import opened Bytes
  import opened Utf8Text
  import opened Ordering
  import opened CanonicalJson

  /** bytes.Buffer */
  class Buffer {
    var data: seq<byte>

    constructor ()
      ensures data == []
    {
      data := [];
    }

    method Write(bs: seq<byte>)
      modifies this
      ensures data == old(data) + bs
    {
      data := data + bs;
    }
  }

  method EncodeString(buf: Buffer, s: string)
    modifies buf
    ensures buf.data == old(buf.data) + Quoted(s)
  {
    buf.Write([QUOTE]);
    ghost var start := buf.data;
    for i := 0 to |s|
      invariant buf.data + Escaped(s[i..]) == start + Escaped(s)
    {
      ghost var before := buf.data;
      EncodeChar(buf, s[i]);
      assert s[i..] == [s[i]] + s[i + 1..];
      Regroup3(before, Escape(s[i]), Escaped(s[i + 1..]));
    }
    assert s[|s|..] == [];
    assert buf.data == start + Escaped(s);
    buf.Write([QUOTE]);
    Regroup4(old(buf.data), [QUOTE], Escaped(s), [QUOTE]);
  }

  /** One round of the loop over the runes of a string. */
  method EncodeChar(buf: Buffer, r: char)
    modifies buf
    ensures buf.data == old(buf.data) + Escape(r)
  {
    if r == '\"' {
      buf.Write([BACKSLASH, QUOTE]);
    } else if r == '\\' {
      buf.Write([BACKSLASH, BACKSLASH]);
    } else if r as int == 8 {
      buf.Write([BACKSLASH, 0x62]);
    } else if r as int == 12 {
      buf.Write([BACKSLASH, 0x66]);
    } else if r as int == 10 {
      buf.Write([BACKSLASH, 0x6E]);
    } else if r as int == 13 {
      buf.Write([BACKSLASH, 0x72]);
    } else if r as int == 9 {
      buf.Write([BACKSLASH, 0x74]);
    } else if r as int < 0x20 {
      buf.Write([BACKSLASH, LETTER_U, ZERO, ZERO]);
      buf.Write([HexDigit(r as int / 16)]);
      buf.Write([HexDigit(r as int % 16)]);
    } else {
      buf.Write(EncodeRune(r));
    }
  }

  /** `for k := range m` visits the keys in any order. */
  method GatherKeys(members: map<string, Json>) returns (keys: seq<string>)
    ensures Elements(keys) == members.Keys
    ensures NoDuplicates(keys)
  {
    keys := [];
    var todo := members.Keys;
    while todo != {}
      invariant todo <= members.Keys
      invariant Elements(keys) == members.Keys - todo
      invariant NoDuplicates(keys)
      decreases todo
    {
      var k :| k in todo;
      assert k !in Elements(keys);
      assert forall x :: x in keys + [k] <==> x in Elements(keys) || x == k;
      keys := keys + [k];
      todo := todo - {k};
    }
  }

  /** On failure the buffer holds a prefix that Marshal discards. */
  method Encode(buf: Buffer, v: Json) returns (ok: bool)
    modifies buf
    ensures ok <==> Integral(v)
    ensures ok ==> buf.data == old(buf.data) + Text(v)
    decreases v, 3
  {
    match v {
      case Null => buf.Write(NULL);
      case Bool(b) => buf.Write(if b then TRUE else FALSE);
      case Str(s) => EncodeString(buf, s);
      case Num(lit) =>
        if !HasNoFraction(lit) {
          return false;
        }
        buf.Write(lit);
      case Arr(items) =>
        ok := EncodeItems(buf, items);
        return;
      case Obj(members) =>
        ok := EncodeMembers(buf, v);
        return;
    }
    ok := true;
  }

  /** The item text still to be written when `i` items are out. */
  ghost function RemainingItems(items: seq<Json>, i: nat): seq<byte>
    requires i <= |items|
  {
    if i == 0 then ItemsText(items) else MoreItems(items[i..])
  }

  lemma {:induction false} RemainingItemsStep(items: seq<Json>, i: nat)
    requires i < |items|
    ensures RemainingItems(items, i)
         == (if i > 0 then [COMMA] else []) + Text(items[i]) + RemainingItems(items, i + 1)
  {
    assert items[i..][1..] == items[i + 1..];
    if i == 0 {
      assert [] + Text(items[0]) == Text(items[0]);
    }
  }

  method EncodeItems(buf: Buffer, items: seq<Json>) returns (ok: bool)
    modifies buf
    ensures ok <==> Integral(Arr(items))
    ensures ok ==> buf.data == old(buf.data) + Text(Arr(items))
    decreases items, 2
  {
    buf.Write([LBRACKET]);
    ok := WriteItems(buf, items);
    if ok {
      buf.Write([RBRACKET]);
      Regroup4(old(buf.data), [LBRACKET], ItemsText(items), [RBRACKET]);
    }
  }

  method WriteItems(buf: Buffer, items: seq<Json>) returns (ok: bool)
    modifies buf
    ensures ok <==> Integral(Arr(items))
    ensures ok ==> buf.data == old(buf.data) + ItemsText(items)
    decreases items, 1
  {
    for i := 0 to |items|
      invariant forall j :: 0 <= j < i ==> Integral(items[j])
      invariant buf.data + RemainingItems(items, i) == old(buf.data) + RemainingItems(items, 0)
    {
      var done := WriteItem(buf, items, i);
      if !done {
        return false;
      }
    }
    assert RemainingItems(items, |items|) == [];
    assert buf.data == old(buf.data) + ItemsText(items);
    ok := true;
  }

  /** One round of the loop over the items. */
  method WriteItem(buf: Buffer, items: seq<Json>, i: nat) returns (ok: bool)
    requires i < |items|
    modifies buf
    ensures ok <==> Integral(items[i])
    ensures ok ==> buf.data + RemainingItems(items, i + 1) == old(buf.data) + RemainingItems(items, i)
    decreases items, 0
  {
    RemainingItemsStep(items, i);
    if i > 0 {
      buf.Write([COMMA]);
    }
    ok := Encode(buf, items[i]);
    Regroup4(old(buf.data), if i > 0 then [COMMA] else [], Text(items[i]), RemainingItems(items, i + 1));
  }

  /** The member text still to be written when `i` members are out. */
  ghost function Remaining(v: Json, keys: seq<string>, i: nat): seq<byte>
    requires v.Obj? && Elements(keys) <= v.members.Keys && i <= |keys|
  {
    assert forall x :: x in keys[i..] ==> x in Elements(keys);
    if i == 0 then MembersText(v, keys) else MoreMembers(v, keys[i..])
  }

  lemma {:induction false} RemainingStep(v: Json, keys: seq<string>, i: nat)
    requires v.Obj? && Elements(keys) <= v.members.Keys && i < |keys|
    ensures keys[i] in v.members
    ensures Remaining(v, keys, i)
         == (if i > 0 then [COMMA] else []) + MemberText(keys[i], v.members[keys[i]]) + Remaining(v, keys, i + 1)
  {
    assert keys[i] in Elements(keys);
    assert keys[i..][1..] == keys[i + 1..];
  }

  method EncodeMembers(buf: Buffer, v: Json) returns (ok: bool)
    requires v.Obj?
    modifies buf
    ensures ok <==> Integral(v)
    ensures ok ==> buf.data == old(buf.data) + Text(v)
    decreases v, 2
  {
    var keys := GatherKeys(v.members);
    keys := SortKeys(keys);
    buf.Write([LBRACE]);
    ok := WriteMembers(buf, v, keys);
    if ok {
      buf.Write([RBRACE]);
      Regroup4(old(buf.data), [LBRACE], MembersText(v, keys), [RBRACE]);
    }
  }

  method WriteMembers(buf: Buffer, v: Json, keys: seq<string>) returns (ok: bool)
    requires v.Obj? && Elements(keys) == v.members.Keys
    modifies buf
    ensures ok <==> Integral(v)
    ensures ok ==> buf.data == old(buf.data) + MembersText(v, keys)
    decreases v, 1
  {
    for i := 0 to |keys|
      invariant forall j :: 0 <= j < i ==> keys[j] in v.members && Integral(v.members[keys[j]])
      invariant buf.data + Remaining(v, keys, i) == old(buf.data) + Remaining(v, keys, 0)
    {
      var done := WriteMember(buf, v, keys, i);
      if !done {
        return false;
      }
    }
    assert Remaining(v, keys, |keys|) == [];
    assert buf.data == old(buf.data) + MembersText(v, keys);
    assert forall k :: k in v.members ==> k in Elements(keys);
    ok := true;
  }

  /** One round of the loop over the sorted keys. */
  method WriteMember(buf: Buffer, v: Json, keys: seq<string>, i: nat) returns (ok: bool)
    requires v.Obj? && Elements(keys) <= v.members.Keys && i < |keys|
    modifies buf
    ensures keys[i] in v.members
    ensures ok <==> Integral(v.members[keys[i]])
    ensures ok ==> buf.data + Remaining(v, keys, i + 1) == old(buf.data) + Remaining(v, keys, i)
    decreases v, 0
  {
    RemainingStep(v, keys, i);
    var k, x := keys[i], v.members[keys[i]];
    if i > 0 {
      buf.Write([COMMA]);
    }
    ghost var before, separator := buf.data, if i > 0 then [COMMA] else [];
    EncodeString(buf, k);
    buf.Write([COLON]);
    ok := Encode(buf, x);
    Regroup4(before, Quoted(k), [COLON], Text(x));
    Regroup4(old(buf.data), separator, MemberText(k, x), Remaining(v, keys, i + 1));
  }

  /** Marshal from the decoded tree on. */
  method Marshal(tree: Json) returns (r: Option<seq<byte>>)
    ensures r == if Integral(tree) then Some(Text(tree)) else None
  {
    var buf := new Buffer();
    var ok := Encode(buf, tree);
    assert [] + Text(tree) == Text(tree);
    return if ok then Some(buf.data) else None;
  }

  // ---------- what the wire format relies on ----------

  predicate NoControls(bs: seq<byte>) {
    forall i :: 0 <= i < |bs| ==> bs[i] >= 0x20
  }

  /** Canonical JSON contains no byte below 0x20, so never a raw newline. */
  lemma {:induction false} TextHasNoControls(v: Json)
    requires Canonical(v)
    ensures NoControls(Text(v))
    decreases v, 1, 0
  {
    match v
    case Str(s) => EscapedHasNoControls(s);
    case Num(lit) => IntegerHasNoControls(lit);
    case Arr(items) => MoreItemsHaveNoControls(items);
    case Obj(members) =>
      var keys := SortedKeys(members.Keys);
      MoreMembersHaveNoControls(v, keys);
    case _ =>
  }

  lemma {:induction false} IntegerHasNoControls(lit: seq<byte>)
    requires IsInteger(lit)
    ensures NoControls(lit)
  {
    var d := Unsigned(lit);
    forall i | 0 <= i < |lit|
      ensures lit[i] >= 0x20
    {
      assert lit[i] == MINUS || lit[i] == d[i - (|lit| - |d|)];
    }
  }

  lemma {:induction false} EscapedHasNoControls(s: string)
    ensures NoControls(Escaped(s))
  {
    if s != [] {
      EscapedHasNoControls(s[1..]);
    }
  }

  lemma {:induction false} MoreItemsHaveNoControls(items: seq<Json>)
    requires Canonical(Arr(items))
    ensures NoControls(MoreItems(items)) && NoControls(ItemsText(items))
    decreases items, 0, 0
  {
    if items != [] {
      TextHasNoControls(items[0]);
      MoreItemsHaveNoControls(items[1..]);
    }
  }

  lemma {:induction false} MoreMembersHaveNoControls(v: Json, keys: seq<string>)
    requires v.Obj? && Canonical(v) && Elements(keys) <= v.members.Keys
    ensures NoControls(MoreMembers(v, keys)) && NoControls(MembersText(v, keys))
    decreases v, 0, |keys|
  {
    if keys != [] {
      assert keys[0] in Elements(keys);
      assert forall x :: x in keys[1..] ==> x in keys;
      MemberHasNoControls(keys[0], v.members[keys[0]]);
      MoreMembersHaveNoControls(v, keys[1..]);
    }
  }

  lemma {:induction false} MemberHasNoControls(k: string, x: Json)
    requires Canonical(x)
    ensures NoControls(MemberText(k, x))
    decreases x, 2, 0
  {
    EscapedHasNoControls(k);
    TextHasNoControls(x);
  }
}
