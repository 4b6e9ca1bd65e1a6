/**
  A parser that accepts exactly the canonical texts, written independently of the
  encoder. It shows that canonical JSON is uniquely decodable: equal bytes are equal values.
 */
module CanonicalParser {
  import opened Wrappers
  import opened Bytes
  import opened Utf8Text
  import opened Ordering
  import opened CanonicalJson

  // ---------- strings ----------

  /** The value of a hex digit as the encoder writes it, or -1. */
  function HexValue(b: byte): int {
    if 0x30 <= b <= 0x39 then b as int - 0x30
    else if 0x61 <= b <= 0x66 then b as int - 0x61 + 10
    else -1
  }

  function Unescape(bs: seq<byte>): (r: Option<(char, seq<byte>)>)
    ensures r.Some? ==> |r.value.1| < |bs|
  {
    if bs == [] || bs[0] == QUOTE || bs[0] < 0x20 then None
    else if bs[0] != BACKSLASH then DecodeRune(bs)
    else if |bs| < 2 then None
    else if bs[1] == QUOTE || bs[1] == BACKSLASH then Some((bs[1] as char, bs[2..]))
    else if bs[1] == 0x62 then Some((8 as char, bs[2..]))
    else if bs[1] == 0x66 then Some((12 as char, bs[2..]))
    else if bs[1] == 0x6E then Some((10 as char, bs[2..]))
    else if bs[1] == 0x72 then Some((13 as char, bs[2..]))
    else if bs[1] == 0x74 then Some((9 as char, bs[2..]))
    else if bs[1] != LETTER_U || |bs| < 6 || bs[2] != ZERO || bs[3] != ZERO then None
    else
      var high, low := HexValue(bs[4]), HexValue(bs[5]);
      var r := high * 16 + low;
      if high < 0 || low < 0 || r >= 0x20 || r in {8, 9, 10, 12, 13} then None
      else Some((r as char, bs[6..]))
  }

  lemma {:induction false} UnescapeEscape(c: char, rest: seq<byte>)
    ensures Unescape(Escape(c) + rest) == Some((c, rest))
  {
    var e := Escape(c);
    var bs := e + rest;
    assert bs[|e|..] == rest;
    assert forall i :: 0 <= i < |e| ==> bs[i] == e[i];
    if c as int >= 0x20 && c != '\"' && c != '\\' {
      DecodeEncodedRune(c, rest);
    }
  }

  lemma {:induction false} EscapeUnescape(bs: seq<byte>)
    requires Unescape(bs).Some?
    ensures bs == Escape(Unescape(bs).value.0) + Unescape(bs).value.1
  {
    var (c, rest) := Unescape(bs).value;
    if bs[0] != BACKSLASH {
      EncodeDecodedRune(bs);
      assert EncodeRune(c)[0] == bs[0];
    } else {
      var e := Escape(c);
      var n := |bs| - |rest|;
      assert |e| == n && bs[..n] == e;
      assert bs == bs[..n] + bs[n..];
    }
  }

  /** The characters up to the closing quote. */
  function ParseChars(bs: seq<byte>): (r: Option<(string, seq<byte>)>)
    ensures r.Some? ==> |r.value.1| < |bs|
    decreases |bs|
  {
    if bs == [] then None
    else if bs[0] == QUOTE then Some(("", bs[1..]))
    else
      match Unescape(bs)
      case None => None
      case Some((c, more)) =>
        match ParseChars(more)
        case None => None
        case Some((s, rest)) => Some(([c] + s, rest))
  }

  lemma {:induction false} ParseCharsEscaped(s: string, rest: seq<byte>)
    ensures ParseChars(Escaped(s) + [QUOTE] + rest) == Some((s, rest))
  {
    var bs := Escaped(s) + [QUOTE] + rest;
    if s == [] {
      assert bs[1..] == rest;
    } else {
      var more := Escaped(s[1..]) + [QUOTE] + rest;
      Regroup4(Escape(s[0]), Escaped(s[1..]), [QUOTE], rest);
      UnescapeEscape(s[0], more);
      ParseCharsEscaped(s[1..], rest);
      assert [s[0]] + s[1..] == s;
    }
  }

  lemma {:induction false} EscapedParseChars(bs: seq<byte>)
    requires ParseChars(bs).Some?
    ensures bs == Escaped(ParseChars(bs).value.0) + [QUOTE] + ParseChars(bs).value.1
    decreases |bs|
  {
    if bs[0] != QUOTE {
      var (c, more) := Unescape(bs).value;
      EscapeUnescape(bs);
      EscapedParseChars(more);
      var (s, rest) := ParseChars(more).value;
      Regroup4(Escape(c), Escaped(s), [QUOTE], rest);
    }
  }

  // ---------- numbers ----------

  function ParseNumber(bs: seq<byte>): (r: Option<(seq<byte>, seq<byte>)>)
    ensures r.Some? ==> |r.value.1| < |bs|
  {
    var sign := if bs != [] && bs[0] == MINUS then 1 else 0;
    var n := sign + DigitRun(bs[sign..]);
    if IsInteger(bs[..n]) then Some((bs[..n], bs[n..])) else None
  }

  lemma {:induction false} ParsedNumberText(bs: seq<byte>)
    requires ParseNumber(bs).Some?
    ensures var (lit, rest) := ParseNumber(bs).value;
            IsInteger(lit) && bs == lit + rest && !StartsWithDigit(rest)
  {
    var sign := if bs != [] && bs[0] == MINUS then 1 else 0;
    var n := DigitRun(bs[sign..]);
    assert bs[sign + n..] == bs[sign..][n..];
  }

  lemma {:induction false} SignAndDigits(lit: seq<byte>, rest: seq<byte>)
    requires IsInteger(lit)
    ensures var sign := |lit| - |Unsigned(lit)|;
            && sign == (if lit[0] == MINUS then 1 else 0)
            && (lit + rest)[0] == lit[0]
            && (lit + rest)[sign..] == Unsigned(lit) + rest
            && (lit + rest)[..|lit|] == lit && (lit + rest)[|lit|..] == rest
  {
  }

  lemma {:induction false} ParseNumberText(lit: seq<byte>, rest: seq<byte>)
    requires IsInteger(lit) && !StartsWithDigit(rest)
    ensures ParseNumber(lit + rest) == Some((lit, rest))
  {
    SignAndDigits(lit, rest);
    DigitRunBefore(Unsigned(lit), rest);
  }

  // ---------- values ----------

  function ParseValue(bs: seq<byte>): (r: Option<(Json, seq<byte>)>)
    ensures r.Some? ==> |r.value.1| < |bs|
    decreases |bs|, 0
  {
    if NULL <= bs then Some((Null, bs[|NULL|..]))
    else if TRUE <= bs then Some((Bool(true), bs[|TRUE|..]))
    else if FALSE <= bs then Some((Bool(false), bs[|FALSE|..]))
    else if bs == [] then None
    else if bs[0] == QUOTE then
      match ParseChars(bs[1..])
      case None => None
      case Some((s, rest)) => Some((Str(s), rest))
    else if bs[0] == LBRACKET then
      match ParseItems(bs[1..])
      case None => None
      case Some((items, rest)) => Some((Arr(items), rest))
    else if bs[0] == LBRACE then
      match ParseMembers(bs[1..])
      case None => None
      case Some((members, rest)) => Some((Obj(members), rest))
    else
      match ParseNumber(bs)
      case None => None
      case Some((lit, rest)) => Some((Num(lit), rest))
  }

  function ParseItems(bs: seq<byte>): (r: Option<(seq<Json>, seq<byte>)>)
    ensures r.Some? ==> |r.value.1| < |bs|
    decreases |bs|, 1
  {
    if bs == [] then None
    else if bs[0] == RBRACKET then Some(([], bs[1..]))
    else
      match ParseValue(bs)
      case None => None
      case Some((v, more)) =>
        match ParseMoreItems(more)
        case None => None
        case Some((items, rest)) => Some(([v] + items, rest))
  }

  function ParseMoreItems(bs: seq<byte>): (r: Option<(seq<Json>, seq<byte>)>)
    ensures r.Some? ==> |r.value.1| < |bs|
    decreases |bs|, 1
  {
    if bs == [] then None
    else if bs[0] == RBRACKET then Some(([], bs[1..]))
    else if bs[0] != COMMA then None
    else
      match ParseValue(bs[1..])
      case None => None
      case Some((v, more)) =>
        match ParseMoreItems(more)
        case None => None
        case Some((items, rest)) => Some(([v] + items, rest))
  }

  function ParseMember(bs: seq<byte>): (r: Option<(string, Json, seq<byte>)>)
    ensures r.Some? ==> |r.value.2| < |bs|
    decreases |bs|, 1
  {
    if bs == [] || bs[0] != QUOTE then None
    else
      match ParseChars(bs[1..])
      case None => None
      case Some((k, more)) =>
        if more == [] || more[0] != COLON then None
        else
          match ParseValue(more[1..])
          case None => None
          case Some((v, rest)) => Some((k, v, rest))
  }

  function ParseMembers(bs: seq<byte>): (r: Option<(map<string, Json>, seq<byte>)>)
    ensures r.Some? ==> |r.value.1| < |bs|
    decreases |bs|, 2
  {
    if bs == [] then None
    else if bs[0] == RBRACE then Some((map[], bs[1..]))
    else
      match ParseMember(bs)
      case None => None
      case Some((k, v, more)) =>
        match ParseMoreMembers(more, k)
        case None => None
        case Some((members, rest)) => Some((members[k := v], rest))
  }

  /** Keys must keep ascending; `prev` is the last one seen. */
  function ParseMoreMembers(bs: seq<byte>, prev: string): (r: Option<(map<string, Json>, seq<byte>)>)
    ensures r.Some? ==> |r.value.1| < |bs|
    decreases |bs|, 2
  {
    if bs == [] then None
    else if bs[0] == RBRACE then Some((map[], bs[1..]))
    else if bs[0] != COMMA then None
    else
      match ParseMember(bs[1..])
      case None => None
      case Some((k, v, more)) =>
        if !KeyLess(prev, k) then None
        else
          match ParseMoreMembers(more, k)
          case None => None
          case Some((members, rest)) => Some((members[k := v], rest))
  }

  // ---------- decoding what was encoded ----------

  /** After a number, the next byte must end it; nothing else needs a delimiter. */
  predicate Delimited(v: Json, rest: seq<byte>) {
    v.Num? ==> !StartsWithDigit(rest)
  }

  lemma {:induction false} ParseWord(v: Json, rest: seq<byte>)
    requires v.Null? || v.Bool?
    ensures ParseValue(Text(v) + rest) == Some((v, rest))
  {
    var bs := Text(v) + rest;
    assert bs[0] == Text(v)[0];
    assert bs[|Text(v)|..] == rest;
  }

  /** The first byte tells a string, an array, an object and a number apart. */
  lemma {:induction false} ParseQuoted(bs: seq<byte>, s: string, rest: seq<byte>)
    requires ParseChars(bs) == Some((s, rest))
    ensures ParseValue([QUOTE] + bs) == Some((Str(s), rest))
  {
    assert ([QUOTE] + bs)[0] == QUOTE && ([QUOTE] + bs)[1..] == bs;
  }

  lemma {:induction false} ParseBracketed(bs: seq<byte>, items: seq<Json>, rest: seq<byte>)
    requires ParseItems(bs) == Some((items, rest))
    ensures ParseValue([LBRACKET] + bs) == Some((Arr(items), rest))
  {
    assert ([LBRACKET] + bs)[0] == LBRACKET && ([LBRACKET] + bs)[1..] == bs;
  }

  lemma {:induction false} ParseBraced(bs: seq<byte>, members: map<string, Json>, rest: seq<byte>)
    requires ParseMembers(bs) == Some((members, rest))
    ensures ParseValue([LBRACE] + bs) == Some((Obj(members), rest))
  {
    assert ([LBRACE] + bs)[0] == LBRACE && ([LBRACE] + bs)[1..] == bs;
  }

  lemma {:induction false} ParseLiteral(lit: seq<byte>, rest: seq<byte>)
    requires IsInteger(lit) && !StartsWithDigit(rest)
    ensures ParseValue(lit + rest) == Some((Num(lit), rest))
  {
    assert (lit + rest)[0] == lit[0];
    ParseNumberText(lit, rest);
  }

  lemma {:induction false} ParseText(v: Json, rest: seq<byte>)
    requires Canonical(v) && Delimited(v, rest)
    ensures ParseValue(Text(v) + rest) == Some((v, rest))
    decreases v, 2, 0
  {
    match v
    case Str(s) =>
      Regroup4([QUOTE], Escaped(s), [QUOTE], rest);
      ParseCharsEscaped(s, rest);
      ParseQuoted(Escaped(s) + [QUOTE] + rest, s, rest);
    case Num(lit) =>
      ParseLiteral(lit, rest);
    case Arr(items) =>
      Regroup4([LBRACKET], ItemsText(items), [RBRACKET], rest);
      ParseItemsText(items, rest);
      ParseBracketed(ItemsText(items) + [RBRACKET] + rest, items, rest);
    case Obj(members) =>
      var keys := SortedKeys(members.Keys);
      Regroup4([LBRACE], MembersText(v, keys), [RBRACE], rest);
      ParseMembersText(v, keys, rest);
      ParseBraced(MembersText(v, keys) + [RBRACE] + rest, members, rest);
    case _ =>
      ParseWord(v, rest);
  }

  lemma {:induction false} TextStart(v: Json)
    requires Canonical(v)
    ensures Text(v) != [] && Text(v)[0] != RBRACKET && Text(v)[0] != RBRACE
  {
  }

  lemma {:induction false} ParseItemsText(items: seq<Json>, rest: seq<byte>)
    requires forall i :: 0 <= i < |items| ==> Canonical(items[i])
    ensures ParseItems(ItemsText(items) + [RBRACKET] + rest) == Some((items, rest))
    decreases items, 0, 1
  {
    var bs := ItemsText(items) + [RBRACKET] + rest;
    if items == [] {
      assert bs[1..] == rest;
    } else {
      var more := MoreItems(items[1..]) + [RBRACKET] + rest;
      Regroup4(Text(items[0]), MoreItems(items[1..]), [RBRACKET], rest);
      TextStart(items[0]);
      ParseText(items[0], more);
      ParseMoreItemsText(items[1..], rest);
      assert [items[0]] + items[1..] == items;
    }
  }

  lemma {:induction false} ParseMoreItemsText(items: seq<Json>, rest: seq<byte>)
    requires forall i :: 0 <= i < |items| ==> Canonical(items[i])
    ensures ParseMoreItems(MoreItems(items) + [RBRACKET] + rest) == Some((items, rest))
    decreases items, 0, 0
  {
    var bs := MoreItems(items) + [RBRACKET] + rest;
    if items == [] {
      assert bs[1..] == rest;
    } else {
      var more := MoreItems(items[1..]) + [RBRACKET] + rest;
      Regroup5([COMMA], Text(items[0]), MoreItems(items[1..]), [RBRACKET], rest);
      ParseText(items[0], more);
      ParseMoreItemsText(items[1..], rest);
      assert [items[0]] + items[1..] == items;
    }
  }

  lemma {:induction false} ParseMemberText(k: string, v: Json, rest: seq<byte>)
    requires Canonical(v) && !StartsWithDigit(rest)
    ensures ParseMember(MemberText(k, v) + rest) == Some((k, v, rest))
    ensures (MemberText(k, v) + rest)[0] == QUOTE
    decreases v, 3, 0
  {
    var more := [COLON] + (Text(v) + rest);
    Regroup4(Quoted(k), [COLON], Text(v), rest);
    Regroup4([QUOTE], Escaped(k), [QUOTE], more);
    assert MemberText(k, v) + rest == [QUOTE] + (Escaped(k) + [QUOTE] + more);
    ParseCharsEscaped(k, more);
    ParseText(v, rest);
  }

  ghost function Restrict(v: Json, keys: seq<string>): map<string, Json>
    requires v.Obj? && Elements(keys) <= v.members.Keys
  {
    assert forall k :: k in keys ==> k in Elements(keys);
    map k | k in keys :: v.members[k]
  }

  lemma {:induction false} RestrictStep(v: Json, keys: seq<string>)
    requires v.Obj? && keys != [] && Elements(keys) <= v.members.Keys
    ensures Elements(keys[1..]) <= v.members.Keys && keys[0] in v.members
    ensures Restrict(v, keys) == Restrict(v, keys[1..])[keys[0] := v.members[keys[0]]]
    ensures Elements(keys) == v.members.Keys ==> Restrict(v, keys) == v.members
  {
    assert keys[0] in Elements(keys);
    assert forall k :: k in keys <==> k == keys[0] || k in keys[1..];
    assert forall k :: k in keys <==> k in Elements(keys);
  }

  lemma {:induction false} AscendingNext(prev: string, keys: seq<string>)
    requires Ascending([prev] + keys) && keys != []
    ensures KeyLess(prev, keys[0]) && Ascending([keys[0]] + keys[1..])
  {
    var all := [prev] + keys;
    assert all[0] == prev && all[1] == keys[0];
    AscendingTail(all);
    assert all[1..] == keys == [keys[0]] + keys[1..];
  }

  lemma {:induction false} AscendingAgain(keys: seq<string>)
    requires Ascending(keys) && keys != []
    ensures Ascending([keys[0]] + keys[1..])
  {
    assert [keys[0]] + keys[1..] == keys;
  }

  lemma {:induction false} ParseMembersStep(bs: seq<byte>, k: string, v: Json, more: seq<byte>,
                                            members: map<string, Json>, rest: seq<byte>)
    requires bs != [] && bs[0] == QUOTE
    requires ParseMember(bs) == Some((k, v, more)) && ParseMoreMembers(more, k) == Some((members, rest))
    ensures ParseMembers(bs) == Some((members[k := v], rest))
  {
  }

  lemma {:induction false} ParseMembersText(v: Json, keys: seq<string>, rest: seq<byte>)
    requires v.Obj? && Canonical(v) && Ascending(keys) && Elements(keys) == v.members.Keys
    ensures ParseMembers(MembersText(v, keys) + [RBRACE] + rest) == Some((v.members, rest))
    decreases v, 1, 0
  {
    if keys == [] {
      assert (MembersText(v, keys) + [RBRACE] + rest)[1..] == rest;
      assert v.members == map[];
    } else {
      RestrictStep(v, keys);
      AscendingAgain(keys);
      var k, x, tail := keys[0], v.members[keys[0]], MoreMembers(v, keys[1..]);
      Regroup4(MemberText(k, x), tail, [RBRACE], rest);
      var more := tail + [RBRACE] + rest;
      ParseMemberText(k, x, more);
      ParseMoreMembersText(v, keys[1..], k, rest);
      ParseMembersStep(MemberText(k, x) + more, k, x, more, Restrict(v, keys[1..]), rest);
    }
  }

  lemma {:induction false} ParseMoreMembersText(v: Json, keys: seq<string>, prev: string, rest: seq<byte>)
    requires v.Obj? && Canonical(v) && Elements(keys) <= v.members.Keys
    requires Ascending([prev] + keys)
    ensures ParseMoreMembers(MoreMembers(v, keys) + [RBRACE] + rest, prev) == Some((Restrict(v, keys), rest))
    decreases v, 0, |keys| + 1
  {
    var bs := MoreMembers(v, keys) + [RBRACE] + rest;
    if keys == [] {
      assert bs[1..] == rest;
    } else {
      RestrictStep(v, keys);
      AscendingNext(prev, keys);
      var k, x, tail := keys[0], v.members[keys[0]], MoreMembers(v, keys[1..]);
      var more := tail + [RBRACE] + rest;
      Regroup5([COMMA], MemberText(k, x), tail, [RBRACE], rest);
      ParseMemberText(k, x, more);
      ParseMoreMembersText(v, keys[1..], keys[0], rest);
    }
  }

  // ---------- encoding what was decoded ----------

  /** What ParseValue took apart. */
  lemma {:induction false} ParsedParts(bs: seq<byte>)
    requires ParseValue(bs).Some?
    ensures var (v, rest) := ParseValue(bs).value;
            match v
            case Str(s) => bs == [QUOTE] + bs[1..] && ParseChars(bs[1..]) == Some((s, rest))
            case Num(lit) => ParseNumber(bs) == Some((lit, rest))
            case Arr(items) => bs == [LBRACKET] + bs[1..] && ParseItems(bs[1..]) == Some((items, rest))
            case Obj(members) => bs == [LBRACE] + bs[1..] && ParseMembers(bs[1..]) == Some((members, rest))
            case _ => Text(v) <= bs && rest == bs[|Text(v)|..]
  {
  }

  lemma {:induction false} TextOfParsed(bs: seq<byte>)
    requires ParseValue(bs).Some?
    ensures var (v, rest) := ParseValue(bs).value;
            bs == Text(v) + rest && Canonical(v) && Delimited(v, rest)
    decreases |bs|, 0
  {
    ParsedParts(bs);
    var (v, rest) := ParseValue(bs).value;
    match v
    case Str(s) =>
      EscapedParseChars(bs[1..]);
      Regroup4([QUOTE], Escaped(s), [QUOTE], rest);
    case Num(_) =>
      ParsedNumberText(bs);
    case Arr(items) =>
      TextOfParsedItems(bs[1..]);
      Regroup4([LBRACKET], ItemsText(items), [RBRACKET], rest);
    case Obj(members) =>
      TextOfParsedMembers(bs[1..]);
      Regroup4([LBRACE], MembersText(v, SortedKeys(members.Keys)), [RBRACE], rest);
    case _ =>
      assert bs == bs[..|Text(v)|] + bs[|Text(v)|..];
  }

  lemma {:induction false} TextOfParsedItems(bs: seq<byte>)
    requires ParseItems(bs).Some?
    ensures var (items, rest) := ParseItems(bs).value;
            bs == ItemsText(items) + [RBRACKET] + rest && Canonical(Arr(items))
    decreases |bs|, 1
  {
    if bs[0] == RBRACKET {
      assert bs == [RBRACKET] + bs[1..];
    } else {
      var (v, more) := ParseValue(bs).value;
      TextOfParsed(bs);
      TextOfParsedMoreItems(more);
      var (items, rest) := ParseMoreItems(more).value;
      assert ([v] + items)[1..] == items;
      Regroup4(Text(v), MoreItems(items), [RBRACKET], rest);
    }
  }

  lemma {:induction false} TextOfParsedMoreItems(bs: seq<byte>)
    requires ParseMoreItems(bs).Some?
    ensures var (items, rest) := ParseMoreItems(bs).value;
            bs == MoreItems(items) + [RBRACKET] + rest && Canonical(Arr(items))
    decreases |bs|, 1
  {
    if bs[0] == RBRACKET {
      assert bs == [RBRACKET] + bs[1..];
    } else {
      var (v, more) := ParseValue(bs[1..]).value;
      TextOfParsed(bs[1..]);
      TextOfParsedMoreItems(more);
      var (items, rest) := ParseMoreItems(more).value;
      assert bs == [COMMA] + bs[1..];
      assert ([v] + items)[1..] == items;
      Regroup5([COMMA], Text(v), MoreItems(items), [RBRACKET], rest);
    }
  }

  lemma {:induction false} TextOfParsedMember(bs: seq<byte>)
    requires ParseMember(bs).Some?
    ensures var (k, v, rest) := ParseMember(bs).value;
            bs == MemberText(k, v) + rest && Canonical(v)
    decreases |bs|, 1
  {
    var (k, more) := ParseChars(bs[1..]).value;
    var (v, rest) := ParseValue(more[1..]).value;
    HeadAndTail(bs);
    HeadAndTail(more);
    EscapedParseChars(bs[1..]);
    TextOfParsed(more[1..]);
    Regroup4([QUOTE], Escaped(k), [QUOTE], more);
    Regroup4(Quoted(k), [COLON], Text(v), rest);
  }

  lemma {:induction false} TextOfParsedMembers(bs: seq<byte>)
    requires ParseMembers(bs).Some?
    ensures var (members, rest) := ParseMembers(bs).value;
            bs == MembersText(Obj(members), SortedKeys(members.Keys)) + [RBRACE] + rest && Canonical(Obj(members))
    decreases |bs|, 2
  {
    if bs[0] == RBRACE {
      assert bs == [RBRACE] + bs[1..];
    } else {
      var (k, v, more) := ParseMember(bs).value;
      TextOfParsedMember(bs);
      TextOfParsedMoreMembers(more, k);
      var (members, rest) := ParseMoreMembers(more, k).value;
      FirstMember(members, k, v);
      CanonicalInsert(members, k, v);
      Regroup4(MemberText(k, v), MoreMembers(Obj(members), SortedKeys(members.Keys)), [RBRACE], rest);
    }
  }

  lemma {:induction false} TextOfParsedMoreMembers(bs: seq<byte>, prev: string)
    requires ParseMoreMembers(bs, prev).Some?
    ensures var (members, rest) := ParseMoreMembers(bs, prev).value;
            && bs == MoreMembers(Obj(members), SortedKeys(members.Keys)) + [RBRACE] + rest
            && Canonical(Obj(members))
            && Ascending([prev] + SortedKeys(members.Keys))
    decreases |bs|, 2
  {
    if bs[0] == RBRACE {
      assert bs == [RBRACE] + bs[1..];
    } else {
      var k, v, more, members, rest := ParsedMemberStep(bs, prev);
      TextOfParsedMember(bs[1..]);
      TextOfParsedMoreMembers(more, k);
      NextMember(members, prev, k, v, rest);
      CanonicalInsert(members, k, v);
      HeadAndTail(bs);
    }
  }

  lemma {:induction false} ParsedMemberStep(bs: seq<byte>, prev: string)
    returns (k: string, v: Json, more: seq<byte>, members: map<string, Json>, rest: seq<byte>)
    requires ParseMoreMembers(bs, prev).Some? && bs[0] != RBRACE
    ensures bs[0] == COMMA && ParseMember(bs[1..]) == Some((k, v, more)) && KeyLess(prev, k)
    ensures ParseMoreMembers(more, k) == Some((members, rest))
    ensures ParseMoreMembers(bs, prev) == Some((members[k := v], rest))
  {
    var m := ParseMember(bs[1..]).value;
    k, v, more := m.0, m.1, m.2;
    members, rest := ParseMoreMembers(more, k).value.0, ParseMoreMembers(more, k).value.1;
  }

  lemma {:induction false} AscendingPrepend(prev: string, k: string, keys: seq<string>)
    requires KeyLess(prev, k) && Ascending([k] + keys)
    ensures Ascending([prev] + ([k] + keys))
  {
    forall j | 0 <= j < |keys|
      ensures KeyLess(prev, keys[j])
    {
      assert ([k] + keys)[0] == k && ([k] + keys)[j + 1] == keys[j];
      KeyOrder(prev, k, keys[j]);
    }
  }

  /** Adding a member below all the others puts it first in the order, and first in the text. */
  lemma {:induction false} FirstKey(keys: set<string>, k: string)
    requires Ascending([k] + SortedKeys(keys))
    ensures k !in keys && SortedKeys(keys + {k}) == [k] + SortedKeys(keys)
  {
    var rest := SortedKeys(keys);
    var all := [k] + rest;
    assert forall x :: x in all <==> x == k || x in Elements(rest);
    SortedArrangementIsUnique(all, keys + {k});
    AscendingTail(all);
    assert all[1..] == rest;
  }

  lemma {:induction false} CanonicalInsert(members: map<string, Json>, k: string, v: Json)
    requires Canonical(Obj(members)) && Canonical(v)
    ensures Canonical(Obj(members[k := v]))
  {
  }

  lemma {:induction false} FirstMember(members: map<string, Json>, k: string, v: Json)
    requires Ascending([k] + SortedKeys(members.Keys))
    ensures var w, keys := Obj(members[k := v]), SortedKeys(members.Keys);
            && SortedKeys(w.members.Keys) == [k] + keys
            && MembersText(w, [k] + keys) == MemberText(k, v) + MoreMembers(Obj(members), keys)
            && MoreMembers(w, [k] + keys) == [COMMA] + MemberText(k, v) + MoreMembers(Obj(members), keys)
  {
    var w, keys := Obj(members[k := v]), SortedKeys(members.Keys);
    FirstKey(members.Keys, k);
    assert w.members.Keys == members.Keys + {k};
    assert ([k] + keys)[1..] == keys;
    assert forall x :: x in keys ==> x in Elements(keys);
    SameMembersSameText(w, Obj(members), keys);
  }

  lemma {:induction false} NextMember(members: map<string, Json>, prev: string, k: string, v: Json, rest: seq<byte>)
    requires KeyLess(prev, k) && Ascending([k] + SortedKeys(members.Keys))
    ensures var w := Obj(members[k := v]);
            && Ascending([prev] + SortedKeys(w.members.Keys))
            && [COMMA] + (MemberText(k, v) + (MoreMembers(Obj(members), SortedKeys(members.Keys)) + [RBRACE] + rest))
               == MoreMembers(w, SortedKeys(w.members.Keys)) + [RBRACE] + rest
  {
    FirstMember(members, k, v);
    AscendingPrepend(prev, k, SortedKeys(members.Keys));
    Regroup5([COMMA], MemberText(k, v), MoreMembers(Obj(members), SortedKeys(members.Keys)), [RBRACE], rest);
  }

  lemma {:induction false} SameMembersSameText(v: Json, w: Json, keys: seq<string>)
    requires v.Obj? && w.Obj? && Elements(keys) <= v.members.Keys && Elements(keys) <= w.members.Keys
    requires forall k :: k in keys && k in v.members && k in w.members ==> v.members[k] == w.members[k]
    ensures MoreMembers(v, keys) == MoreMembers(w, keys)
  {
    if keys != [] {
      RestrictStep(v, keys);
      RestrictStep(w, keys);
      SameMembersSameText(v, w, keys[1..]);
    }
  }

  // ---------- main results ----------

  /** A text is parsed to a value and a remainder exactly when it is that value's encoding and the remainder. */
  lemma {:induction false} CanonicalTextIsUniquelyDecodable(bs: seq<byte>, v: Json, rest: seq<byte>)
    ensures ParseValue(bs) == Some((v, rest)) <==> Canonical(v) && Delimited(v, rest) && bs == Text(v) + rest
  {
    if ParseValue(bs) == Some((v, rest)) {
      TextOfParsed(bs);
    }
    if Canonical(v) && Delimited(v, rest) && bs == Text(v) + rest {
      ParseText(v, rest);
    }
  }

  /** Equal bytes imply equal values. */
  lemma {:induction false} EqualTextEqualValue(v: Json, w: Json)
    requires Canonical(v) && Canonical(w) && Text(v) == Text(w)
    ensures v == w
  {
    ParseText(v, []);
    ParseText(w, []);
    assert Text(v) + [] == Text(w) + [];
  }
}
