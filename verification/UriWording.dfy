/**
  The pairing URI by its characters (PROTOCOL.md section 6.1), and the error Decode reports for
  each kind of input that it refuses.
 */
module UriWording {
  import opened Wrappers
  import opened Bytes
  import opened Decimal
  import opened Splitting
  import opened Percent
  import opened PairingUri
  import PairingUriLaws

  /** The scheme by its letters. */
  lemma {:induction false} Prefix()
    ensures PREFIX == Ascii("clashctl-pair://")
  {
    var s := "clashctl-pair://";
    assert |s| == 16;
  }

  lemma {:induction false} Keys()
    ensures ID == Ascii("id") && NAME == Ascii("name") && APP == Ascii("app") && FP == Ascii("fp") && TOKEN == Ascii("token")
  {
    var a, b, c, d, e := "id", "name", "app", "fp", "token";
    assert |a| == 2 && |b| == 4 && |c| == 3 && |d| == 2 && |e| == 5;
  }

  /** An IPv6 host is bracketed, unless it is already. */
  lemma {:induction false} HostByCharacters(ip: seq<byte>)
    ensures Host(ip) == if 0x3A in ip && !(ip != [] && ip[0] == 0x5B) then [0x5B] + ip + [0x5D] else ip
  {
  }

  /** The port is a sign, if negative, and its decimal digits without leading zeros. */
  lemma {:induction false} PortByCharacters(i: GoInt) returns (digits: seq<byte>)
    ensures PrintInt(i) == (if i < 0 then [0x2D] else []) + digits
    ensures digits != [] && AllDigits(digits) && (digits[0] == 0x30 ==> |digits| == 1)
    ensures Value(digits) == if i < 0 then -(i as int) else i as int
  {
    digits := Digits(if i < 0 then -(i as int) else i);
    DigitsAreDigits(if i < 0 then -(i as int) else i);
    NoLeadingZero(if i < 0 then -(i as int) else i);
    assert [] + digits == digits;
  }

  // ---------- encoding ----------

  lemma {:induction false} FieldsByKey(p: Payload)
    ensures Field(p, ID) == p.id && Field(p, NAME) == p.name && Field(p, APP) == p.app
    ensures Field(p, FP) == p.fp && Field(p, TOKEN) == p.token
  {
    assert ID[0] == 0x69 && NAME[0] == 0x6E && APP[0] == 0x61 && FP[0] == 0x66 && TOKEN[0] == 0x74;
  }

  function Pair(key: string, value: seq<byte>): seq<byte> {
    Ascii(key) + [0x3D] + EncodedComponent(value)
  }

  lemma {:induction false} ParamsByKey(p: Payload)
    ensures Params(p, ORDER) ==
            [Pair("id", p.id), Pair("name", p.name), Pair("app", p.app), Pair("fp", p.fp), Pair("token", p.token)]
  {
    Keys();
    FieldsByKey(p);
    assert ORDER[1..] == [NAME, APP, FP, TOKEN];
    assert ORDER[1..][1..] == [APP, FP, TOKEN];
    assert ORDER[1..][1..][1..] == [FP, TOKEN];
    assert ORDER[1..][1..][1..][1..] == [TOKEN];
    assert ORDER[1..][1..][1..][1..][1..] == [];
    assert Params(p, [TOKEN]) == [Pair("token", p.token)];
    assert Params(p, [FP, TOKEN]) == [Pair("fp", p.fp), Pair("token", p.token)];
    assert Params(p, [APP, FP, TOKEN]) == [Pair("app", p.app), Pair("fp", p.fp), Pair("token", p.token)];
    assert Params(p, [NAME, APP, FP, TOKEN]) ==
           [Pair("name", p.name), Pair("app", p.app), Pair("fp", p.fp), Pair("token", p.token)];
  }

  /** Scheme, host, port and the five parameters in their order: id, name, app, fp, token. */
  lemma {:induction false} UriByCharacters(p: Payload)
    ensures Uri(Authority(p), Params(p, ORDER))
         == Ascii("clashctl-pair://")
            + (Host(p.ip) + [0x3A] + PrintInt(p.port) + [0x3F]
               + Join([Pair("id", p.id), Pair("name", p.name), Pair("app", p.app), Pair("fp", p.fp), Pair("token", p.token)], 0x26))
  {
    Prefix();
    ParamsByKey(p);
  }

  // ---------- errors ----------

  /** The authority has no end of the host, or no port. */
  predicate HostNeverEnds(authority: seq<byte>) {
    authority != [] && authority[0] == 0x5B && 0x5D !in authority
  }

  predicate HasNoPort(authority: seq<byte>) {
    if authority != [] && authority[0] == 0x5B then
      0x5D in authority
      && var after := authority[LastIndexOf(authority, 0x5D) + 1..]; after == [] || after[0] != 0x3A
    else 0x3A !in authority
  }

  /** The text behind the last colon, or behind the bracket and its colon. */
  function PortText(authority: seq<byte>): seq<byte>
    requires !HostNeverEnds(authority) && !HasNoPort(authority)
  {
    if authority != [] && authority[0] == 0x5B then authority[LastIndexOf(authority, 0x5D) + 2..]
    else authority[LastIndexOf(authority, 0x3A) + 1..]
  }

  predicate PortIsBad(authority: seq<byte>) {
    !HostNeverEnds(authority) && !HasNoPort(authority) && ScanInt(PortText(authority)) in {None, Some(0)}
  }

  lemma {:induction false} SplitBracketed(authority: seq<byte>)
    requires authority != [] && authority[0] == 0x5B
    ensures SplitHostPort(authority) ==
            if HostNeverEnds(authority) then Err(UnterminatedIPv6)
            else if HasNoPort(authority) then Err(MissingPort)
            else Ok((authority[1..LastIndexOf(authority, 0x5D)], PortText(authority)))
  {
    StartsWithByte(authority, LBRACKET);
    if 0x5D in authority {
      StartsWithByte(authority[LastIndexOf(authority, RBRACKET) + 1..], COLON);
    }
  }

  lemma {:induction false} SplitPlain(authority: seq<byte>)
    requires authority == [] || authority[0] != 0x5B
    ensures SplitHostPort(authority) ==
            if HasNoPort(authority) then Err(MissingPort)
            else Ok((authority[..LastIndexOf(authority, 0x3A)], PortText(authority)))
  {
    StartsWithByte(authority, LBRACKET);
  }

  lemma {:induction false} SplitErrors(authority: seq<byte>)
    ensures SplitHostPort(authority) == Err(UnterminatedIPv6) <==> HostNeverEnds(authority)
    ensures SplitHostPort(authority) == Err(MissingPort) <==> HasNoPort(authority)
    ensures SplitHostPort(authority).Ok? <==> !HostNeverEnds(authority) && !HasNoPort(authority)
    ensures SplitHostPort(authority).Ok? ==> SplitHostPort(authority).value.1 == PortText(authority)
  {
    if authority != [] && authority[0] == 0x5B {
      SplitBracketed(authority);
    } else {
      SplitPlain(authority);
    }
  }

  lemma {:induction false} StartsWithByte(s: seq<byte>, b: byte)
    ensures [b] <= s <==> s != [] && s[0] == b
  {
  }

  lemma {:induction false} ApplyErrors(p: Payload, params: seq<seq<byte>>)
    ensures Apply(p, params).Err? ==> Apply(p, params).error.BadValue?
    ensures forall i :: 0 <= i < |params| && DecodedComponent(RawValue(params[i])).None?
                        && (forall j :: 0 <= j < i ==> DecodedComponent(RawValue(params[j])).Some?)
                        ==> Apply(p, params) == Err(BadValue(Key(params[i])))
    decreases |params|
  {
    if params != [] && DecodedComponent(RawValue(params[0])).Some? {
      var next := SetField(p, Key(params[0]), DecodedComponent(RawValue(params[0])).value);
      ApplyErrors(next, params[1..]);
      forall i | 0 <= i < |params| && DecodedComponent(RawValue(params[i])).None?
                 && (forall j :: 0 <= j < i ==> DecodedComponent(RawValue(params[j])).Some?)
        ensures Apply(p, params) == Err(BadValue(Key(params[i])))
      {
        assert params[i] == params[1..][i - 1];
        assert forall j :: 0 <= j < i - 1 ==> params[1..][j] == params[j + 1];
      }
    }
  }

  /** What Decode reports about the authority comes before any parameter is looked at. */
  lemma {:induction false} AuthorityErrors(authority: seq<byte>, params: seq<seq<byte>>)
    ensures var r := DecodedParts(authority, params);
            && (r == Err(UnterminatedIPv6) <==> HostNeverEnds(authority))
            && (r == Err(MissingPort) <==> HasNoPort(authority))
            && (PortIsBad(authority) ==> r == Err(InvalidPort(PortText(authority))))
            && (r.Err? && r.error.InvalidPort? ==> PortIsBad(authority))
            && r != Err(NotThisScheme)
  {
    SplitErrors(authority);
    match SplitHostPort(authority)
    case Err(_) =>
    case Ok((host, text)) =>
      match ScanInt(text)
      case None =>
      case Some(port) => ApplyErrors(Payload(host, port, [], [], [], [], []), params);
  }

  /** With a good authority the first value that does not decode is reported, by its key. */
  lemma {:induction false} FirstBadValue(authority: seq<byte>, params: seq<seq<byte>>, i: nat)
    requires !HostNeverEnds(authority) && !HasNoPort(authority) && !PortIsBad(authority)
    requires i < |params| && DecodedComponent(RawValue(params[i])).None?
    requires forall j :: 0 <= j < i ==> DecodedComponent(RawValue(params[j])).Some?
    ensures DecodedParts(authority, params) == Err(BadValue(Key(params[i])))
  {
    SplitErrors(authority);
    var (host, text) := SplitHostPort(authority).value;
    ApplyErrors(Payload(host, ScanInt(text).value, [], [], [], [], []), params);
  }

  /** With good values too it is refused only if id, fp or token has no value or an empty last one. */
  lemma {:induction false} MissingFieldExactly(authority: seq<byte>, params: seq<seq<byte>>)
    requires !HostNeverEnds(authority) && !HasNoPort(authority) && !PortIsBad(authority)
    requires PairingUriLaws.WellEncoded(params)
    ensures var r := DecodedParts(authority, params);
            && (r == Err(MissingField) <==>
                || PairingUriLaws.LastValue(params, Ascii("id"), []) == []
                || PairingUriLaws.LastValue(params, Ascii("fp"), []) == []
                || PairingUriLaws.LastValue(params, Ascii("token"), []) == [])
            && (r.Err? ==> r == Err(MissingField))
  {
    Keys();
    SplitErrors(authority);
    var (host, text) := SplitHostPort(authority).value;
    PairingUriLaws.ApplyTakesLastValues(Payload(host, ScanInt(text).value, [], [], [], [], []), params);
  }
}
