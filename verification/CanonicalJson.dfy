/**
  The canonical JSON text of a tree (PROTOCOL.md section 3.4): what the encoder of
  go/internal/canonjson is to write. A tree is what json.Decoder with UseNumber yields.
 */
module CanonicalJson {
  import opened Bytes
  import opened Utf8Text
  import opened Ordering

  datatype Json =
    | Null
    | Bool(b: bool)
    | Str(s: string)
    | Num(lit: seq<byte>)
    | Arr(items: seq<Json>)
    | Obj(members: map<string, Json>)

  const QUOTE: byte := 0x22
  const COMMA: byte := 0x2C
  const DOT: byte := 0x2E
  const UPPER_E: byte := 0x45
  const BACKSLASH: byte := 0x5C
  const LOWER_E: byte := 0x65
  const LETTER_U: byte := 0x75
  const LBRACE: byte := 0x7B
  const RBRACE: byte := 0x7D

  const NULL: seq<byte> := [0x6E, 0x75, 0x6C, 0x6C]
  const TRUE: seq<byte> := [0x74, 0x72, 0x75, 0x65]
  const FALSE: seq<byte> := [0x66, 0x61, 0x6C, 0x73, 0x65]

  // ---------- number literals ----------

  function Unsigned(lit: seq<byte>): seq<byte> {
    if lit != [] && lit[0] == MINUS then lit[1..] else lit
  }

  /** The int production of RFC 8259, section 6, with its sign. */
  predicate IsInteger(lit: seq<byte>) {
    var d := Unsigned(lit);
    d != [] && AllDigits(d) && (d[0] == ZERO ==> |d| == 1)
  }

  predicate IsExponent(t: seq<byte>) {
    t == [] ||
    ((t[0] == LOWER_E || t[0] == UPPER_E) &&
     var u := if |t| > 1 && (t[1] == PLUS || t[1] == MINUS) then t[2..] else t[1..];
     u != [] && AllDigits(u))
  }

  predicate IsFraction(t: seq<byte>) {
    IsExponent(t) ||
    (t != [] && t[0] == DOT && exists k :: 1 < k <= |t| && AllDigits(t[1..k]) && IsExponent(t[k..]))
  }

  /** The number grammar of RFC 8259, section 6: the literals a decoder accepts. */
  predicate IsNumber(lit: seq<byte>) {
    exists n :: 0 <= n <= |lit| && IsInteger(lit[..n]) && IsFraction(lit[n..])
  }

  /** The encoder's own test: no '.', 'e' or 'E' in the literal. */
  predicate HasNoFraction(lit: seq<byte>) {
    DOT !in lit && LOWER_E !in lit && UPPER_E !in lit
  }

  /** `p` holds of every number literal in the tree, at every depth. */
  ghost predicate AllNumbers(v: Json, p: seq<byte> -> bool) {
    match v
    case Num(lit) => p(lit)
    case Arr(items) => forall i :: 0 <= i < |items| ==> AllNumbers(items[i], p)
    case Obj(members) => forall k :: k in members ==> AllNumbers(members[k], p)
    case _ => true
  }

  ghost predicate FromDecoder(v: Json) { AllNumbers(v, IsNumber) }

  ghost predicate Integral(v: Json) { AllNumbers(v, HasNoFraction) }

  ghost predicate Canonical(v: Json) { AllNumbers(v, IsInteger) }

  lemma {:induction false} LiteralWithoutFractionIsInteger(lit: seq<byte>)
    requires IsNumber(lit) && HasNoFraction(lit)
    ensures IsInteger(lit)
  {
    var n :| 0 <= n <= |lit| && IsInteger(lit[..n]) && IsFraction(lit[n..]);
    assert lit[..|lit|] == lit;
  }

  lemma {:induction false} IntegerHasNoFraction(lit: seq<byte>)
    requires IsInteger(lit)
    ensures HasNoFraction(lit)
  {
    var d := Unsigned(lit);
    forall i | 0 <= i < |lit|
      ensures lit[i] == MINUS || IsDigit(lit[i])
    {
      assert lit[i] == MINUS || lit[i] == d[i - (|lit| - |d|)];
    }
  }

  /** Of the trees a decoder yields, those the encoder accepts are those whose numbers are all integers. */
  lemma {:induction false} AcceptedNumbersAreIntegers(v: Json)
    requires FromDecoder(v)
    ensures Integral(v) <==> Canonical(v)
  {
    match v
    case Num(lit) =>
      if HasNoFraction(lit) {
        LiteralWithoutFractionIsInteger(lit);
      }
      if IsInteger(lit) {
        IntegerHasNoFraction(lit);
      }
    case Arr(items) =>
      forall i | 0 <= i < |items|
        ensures AllNumbers(items[i], HasNoFraction) <==> AllNumbers(items[i], IsInteger)
      {
        AcceptedNumbersAreIntegers(items[i]);
      }
    case Obj(members) =>
      forall k | k in members
        ensures AllNumbers(members[k], HasNoFraction) <==> AllNumbers(members[k], IsInteger)
      {
        AcceptedNumbersAreIntegers(members[k]);
      }
    case _ =>
  }

  // ---------- strings ----------

  function HexDigit(d: nat): byte
    requires d < 16
  {
    if d < 10 then (0x30 + d) as byte else (0x61 + d - 10) as byte
  }

  /** Section 3.2.2.2 of RFC 8785: the least escaping of one character. */
  function Escape(c: char): (e: seq<byte>)
    ensures e != [] && e[0] != QUOTE
  {
    var r := c as int;
    if r == 0x22 || r == 0x5C then [BACKSLASH, r as byte]
    else if r == 8 then [BACKSLASH, 0x62]
    else if r == 12 then [BACKSLASH, 0x66]
    else if r == 10 then [BACKSLASH, 0x6E]
    else if r == 13 then [BACKSLASH, 0x72]
    else if r == 9 then [BACKSLASH, 0x74]
    else if r < 0x20 then [BACKSLASH, LETTER_U, ZERO, ZERO, HexDigit(r / 16), HexDigit(r % 16)]
    else EncodeRune(c)
  }

  function Escaped(s: string): seq<byte> {
    if s == [] then [] else Escape(s[0]) + Escaped(s[1..])
  }

  function Quoted(s: string): seq<byte> {
    [QUOTE] + Escaped(s) + [QUOTE]
  }

  // ---------- values ----------

  ghost function Text(v: Json): seq<byte>
    decreases v, 1, 0
  {
    match v
    case Null => NULL
    case Bool(b) => if b then TRUE else FALSE
    case Str(s) => Quoted(s)
    case Num(lit) => lit
    case Arr(items) => [LBRACKET] + ItemsText(items) + [RBRACKET]
    case Obj(members) => [LBRACE] + MembersText(v, SortedKeys(members.Keys)) + [RBRACE]
  }

  ghost function ItemsText(items: seq<Json>): seq<byte>
    decreases items, 0, 0
  {
    if items == [] then [] else Text(items[0]) + MoreItems(items[1..])
  }

  ghost function MoreItems(items: seq<Json>): seq<byte>
    decreases items, 0, 0
  {
    if items == [] then [] else [COMMA] + Text(items[0]) + MoreItems(items[1..])
  }

  ghost function MemberText(k: string, v: Json): seq<byte>
    decreases v, 2, 0
  {
    Quoted(k) + [COLON] + Text(v)
  }

  ghost function MembersText(v: Json, keys: seq<string>): seq<byte>
    requires v.Obj? && Elements(keys) <= v.members.Keys
    decreases v, 0, |keys| + 1
  {
    if keys == [] then []
    else
      assert keys[0] in Elements(keys) && forall x :: x in keys[1..] ==> x in keys;
      MemberText(keys[0], v.members[keys[0]]) + MoreMembers(v, keys[1..])
  }

  ghost function MoreMembers(v: Json, keys: seq<string>): seq<byte>
    requires v.Obj? && Elements(keys) <= v.members.Keys
    decreases v, 0, |keys| + 1
  {
    if keys == [] then []
    else
      assert keys[0] in Elements(keys) && forall x :: x in keys[1..] ==> x in keys;
      [COMMA] + MemberText(keys[0], v.members[keys[0]]) + MoreMembers(v, keys[1..])
  }
}
