/** White space as unicode.IsSpace has it, on the UTF-8 bytes of a Go string. */
module Space {
  import opened Bytes
  import opened Utf8Text

  /** How many bytes the white-space character at the start takes; 0 when there is none. */
  function LeadingSpace(s: seq<byte>): (n: nat)
    ensures n <= |s|
  {
    if s == [] then 0
    else if 9 <= s[0] <= 13 || s[0] == SPACE then 1
    else if |s| >= 2 && s[0] == 0xC2 && (s[1] == 0x85 || s[1] == 0xA0) then 2
    else if |s| >= 3 && ((s[0] == 0xE1 && s[1] == 0x9A && s[2] == 0x80) ||
                         (s[0] == 0xE2 && s[1] == 0x80 && (0x80 <= s[2] <= 0x8A || s[2] in {0xA8, 0xA9, 0xAF})) ||
                         (s[0] == 0xE2 && s[1] == 0x81 && s[2] == 0x9F) ||
                         (s[0] == 0xE3 && s[1] == 0x80 && s[2] == 0x80)) then 3
    else 0
  }

  function TrailingSpace(s: seq<byte>): (n: nat)
    ensures n <= |s|
  {
    if |s| >= 1 && LeadingSpace(s[|s| - 1..]) == 1 then 1
    else if |s| >= 2 && LeadingSpace(s[|s| - 2..]) == 2 then 2
    else if |s| >= 3 && LeadingSpace(s[|s| - 3..]) == 3 then 3
    else 0
  }

  function TrimLeft(s: seq<byte>): seq<byte> {
    var n := LeadingSpace(s);
    if n == 0 then s else TrimLeft(s[n..])
  }

  function TrimRight(s: seq<byte>): seq<byte> {
    var n := TrailingSpace(s);
    if n == 0 then s else TrimRight(s[..|s| - n])
  }

  /** strings.TrimSpace */
  function TrimSpace(s: seq<byte>): seq<byte> {
    TrimRight(TrimLeft(s))
  }

  // ---------- what is trimmed ----------

  /** The characters of unicode.IsSpace. */
  predicate IsSpaceChar(c: char) {
    var r := c as int;
    9 <= r <= 13 || r in {0x20, 0x85, 0xA0, 0x1680, 0x2028, 0x2029, 0x202F, 0x205F, 0x3000} || 0x2000 <= r <= 0x200A
  }

  /** White space at the start is one of those characters in UTF-8. */
  lemma {:induction false} SpaceByCodePoint(c: char, rest: seq<byte>)
    ensures LeadingSpace(EncodeRune(c) + rest) == if IsSpaceChar(c) then |EncodeRune(c)| else 0
  {
    var r, e := c as int, EncodeRune(c);
    var s := e + rest;
    assert s[0] == e[0] && (|e| > 1 ==> s[1] == e[1]) && (|e| > 2 ==> s[2] == e[2]);
    RuneByBytes(c);
  }

  /** Nothing but white space characters. */
  predicate Spaces(s: seq<byte>) {
    s == [] || (LeadingSpace(s) > 0 && Spaces(s[LeadingSpace(s)..]))
  }

  lemma {:induction false} LeadingSpaceAlone(s: seq<byte>, more: seq<byte>)
    ensures var n := LeadingSpace(s); n > 0 ==> LeadingSpace(s[..n] + more) == n && (s[..n] + more)[n..] == more
  {
    var n := LeadingSpace(s);
    if n > 0 {
      assert forall i :: 0 <= i < n ==> (s[..n] + more)[i] == s[i];
    }
  }

  lemma {:induction false} SpacesFirst(s: seq<byte>, more: seq<byte>)
    requires LeadingSpace(s) > 0 && Spaces(more)
    ensures Spaces(s[..LeadingSpace(s)] + more)
  {
    LeadingSpaceAlone(s, more);
  }

  lemma {:induction false} SpacesAppend(a: seq<byte>, b: seq<byte>)
    requires Spaces(a) && Spaces(b)
    ensures Spaces(a + b)
    decreases |a|
  {
    if a == [] {
      assert a + b == b;
    } else {
      var n := LeadingSpace(a);
      SpacesAppend(a[n..], b);
      SpacesFirst(a, a[n..] + b);
      Regroup3(a[..n], a[n..], b);
      assert a == a[..n] + a[n..];
    }
  }

  lemma {:induction false} FrontJoined(s: seq<byte>, n: nat, more: seq<byte>, t: seq<byte>)
    requires n <= |s| && s[n..] == more + t
    ensures s == s[..n] + more + t
  {
    assert s == s[..n] + s[n..];
    Regroup3(s[..n], more, t);
  }

  lemma {:induction false} BackJoined(s: seq<byte>, n: nat, t: seq<byte>, more: seq<byte>)
    requires n <= |s| && s[..n] == t + more
    ensures s == t + (more + s[n..])
  {
    assert s == s[..n] + s[n..];
    Regroup3(t, more, s[n..]);
  }

  lemma {:induction false} TrimLeftStrips(s: seq<byte>) returns (before: seq<byte>, t: seq<byte>)
    ensures t == TrimLeft(s) && s == before + t && Spaces(before) && LeadingSpace(t) == 0
    decreases |s|
  {
    var n := LeadingSpace(s);
    if n == 0 {
      before, t := [], s;
    } else {
      before, t := TrimLeftStrips(s[n..]);
      FrontJoined(s, n, before, t);
      SpacesFirst(s, before);
      before := s[..n] + before;
    }
  }

  lemma {:induction false} TrailingIsSpaces(s: seq<byte>)
    ensures Spaces(s[|s| - TrailingSpace(s)..])
  {
    var n := TrailingSpace(s);
    var last := s[|s| - n..];
    if n > 0 {
      assert LeadingSpace(last) == n && last[n..] == [];
    }
  }

  lemma {:induction false} TrimRightStrips(s: seq<byte>) returns (t: seq<byte>, after: seq<byte>)
    ensures t == TrimRight(s) && s == t + after && Spaces(after) && TrailingSpace(t) == 0
    decreases |s|
  {
    var n := |s| - TrailingSpace(s);
    if n == |s| {
      t, after := s, [];
    } else {
      t, after := TrimRightStrips(s[..n]);
      BackJoined(s, n, t, after);
      TrailingIsSpaces(s);
      SpacesAppend(after, s[n..]);
      after := after + s[n..];
    }
  }

  lemma {:induction false} NoLeadingAfterCut(s: seq<byte>, n: nat)
    requires LeadingSpace(s) == 0 && n <= |s|
    ensures LeadingSpace(s[..n]) == 0
  {
    if n > 0 {
      assert s[..n][0] == s[0] && (n > 1 ==> s[..n][1] == s[1]) && (n > 2 ==> s[..n][2] == s[2]);
    }
  }

  /** TrimSpace takes white space off both ends, all of it and nothing else. */
  lemma {:induction false} TrimSpaceStrips(s: seq<byte>) returns (before: seq<byte>, after: seq<byte>)
    ensures s == before + TrimSpace(s) + after && Spaces(before) && Spaces(after)
    ensures LeadingSpace(TrimSpace(s)) == 0 && TrailingSpace(TrimSpace(s)) == 0
  {
    var left, t: seq<byte>;
    before, left := TrimLeftStrips(s);
    t, after := TrimRightStrips(left);
    Regroup3(before, t, after);
    assert t == left[..|t|];
    NoLeadingAfterCut(left, |t|);
  }
}
