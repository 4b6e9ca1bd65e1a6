/** What the pairing URI codec promises: round trip, order of parameters, what is accepted. */
module PairingUriLaws {
  import opened Wrappers
  import opened Bytes
  import opened Splitting
  import opened Percent
  import opened PairingUri

  /** A URI built from an authority and raw parameters is taken apart into just those. */
  lemma {:induction false} DecodeUri(authority: seq<byte>, params: seq<seq<byte>>)
    requires QUERY !in authority && params != [] && NoneContains(params, AMP)
    ensures Decoded(Uri(authority, params)) == DecodedParts(authority, params)
  {
    var query := Join(params, AMP);
    var uri := Uri(authority, params);
    assert uri[|PREFIX|..] == authority + [QUERY] + query;
    CutAt(authority, QUERY, query);
    if query == [] {
      assert params == [[]];
      assert Cut<byte>([], EQUALS) == ([], []);
      forall p: Payload
        ensures Apply(p, params) == Ok(p)
      {
        assert Apply(p, params) == Apply(p, params[1..]);
      }
    } else {
      SplitJoin(params, AMP);
    }
  }

  // ---------- round trip ----------

  lemma {:induction false} ParamParts(p: Payload, k: seq<byte>)
    requires k in ORDER
    ensures Cut(Param(p, k), EQUALS) == (k, EncodedComponent(Field(p, k)))
    ensures AMP !in Param(p, k)
  {
    KeyIsPlain(k);
    CutAt(k, EQUALS, EncodedComponent(Field(p, k)));
    ValueIsPlain(Field(p, k));
    PlainAround(k, EncodedComponent(Field(p, k)));
  }

  lemma {:induction false} ValueIsPlain(v: seq<byte>)
    ensures AMP !in EncodedComponent(v)
  {
    EncodedComponentIsSafe(v);
  }

  lemma {:induction false} PlainAround(k: seq<byte>, v: seq<byte>)
    requires AMP !in k && AMP !in v
    ensures AMP !in k + [EQUALS] + v
  {
  }

  lemma {:induction false} KeyIsPlain(k: seq<byte>)
    requires k in ORDER
    ensures EQUALS !in k && AMP !in k
  {
  }

  ghost function CopyFields(to: Payload, from: Payload, keys: seq<seq<byte>>): Payload
    decreases |keys|
  {
    if keys == [] then to else CopyFields(SetField(to, keys[0], Field(from, keys[0])), from, keys[1..])
  }

  lemma {:induction false} ApplyParams(p: Payload, acc: Payload, keys: seq<seq<byte>>)
    requires forall i :: 0 <= i < |keys| ==> keys[i] in ORDER
    ensures Apply(acc, Params(p, keys)) == Ok(CopyFields(acc, p, keys))
    ensures NoneContains(Params(p, keys), AMP)
    decreases |keys|
  {
    if keys != [] {
      var k, params := keys[0], Params(p, keys);
      assert params[0] == Param(p, k) && params[1..] == Params(p, keys[1..]);
      var v := Field(p, k);
      ParamParts(p, k);
      DecodeEncodedComponent(v);
      assert Apply(acc, params) == Apply(SetField(acc, k, v), params[1..]);
      ApplyParams(p, SetField(acc, k, v), keys[1..]);
    }
  }

  lemma {:induction false} CopyAllFields(p: Payload)
    ensures CopyFields(Payload(p.ip, p.port, [], [], [], [], []), p, ORDER) == p
  {
    var a := Payload(p.ip, p.port, [], [], [], [], []);
    var b, c := a.(id := p.id), a.(id := p.id, name := p.name);
    var d, e := c.(app := p.app), c.(app := p.app, fp := p.fp);
    assert CopyFields(a, p, ORDER) == CopyFields(b, p, ORDER[1..]);
    assert CopyFields(b, p, ORDER[1..]) == CopyFields(c, p, ORDER[2..]);
    assert CopyFields(c, p, ORDER[2..]) == CopyFields(d, p, ORDER[3..]);
    assert CopyFields(d, p, ORDER[3..]) == CopyFields(e, p, ORDER[4..]);
    assert CopyFields(e, p, ORDER[4..]) == CopyFields(p, p, ORDER[5..]) == p;
  }

  lemma {:induction false} SplitBareAuthority(ip: seq<byte>, text: seq<byte>)
    requires !([LBRACKET] <= ip) && COLON !in text
    ensures SplitHostPort(ip + [COLON] + text) == Ok((ip, text))
  {
    var authority := ip + [COLON] + text;
    assert authority[0] == if ip == [] then COLON else ip[0];
    LastIndexOfSplit(ip, COLON, text);
    assert authority[..|ip|] == ip && authority[|ip| + 1..] == text;
  }

  lemma {:induction false} SplitBracketedAuthority(ip: seq<byte>, text: seq<byte>)
    requires RBRACKET !in text
    ensures SplitHostPort([LBRACKET] + ip + [RBRACKET] + [COLON] + text) == Ok((ip, text))
  {
    var authority := [LBRACKET] + ip + [RBRACKET] + [COLON] + text;
    var open := [LBRACKET] + ip;
    assert authority == open + [RBRACKET] + ([COLON] + text);
    LastIndexOfSplit(open, RBRACKET, [COLON] + text);
    assert authority[1..|open|] == ip;
    assert authority[|open| + 1..] == [COLON] + text;
    assert authority[|open| + 2..] == text;
  }

  /** Text that cannot be taken for the end of the port. */
  predicate NoDelimiters(text: seq<byte>) {
    COLON !in text && RBRACKET !in text && QUERY !in text
  }

  /** Unless the host already starts with a bracket, its authority is split back into host and port. */
  lemma {:induction false} SplitAuthority(ip: seq<byte>, text: seq<byte>)
    requires !([LBRACKET] <= ip) && NoDelimiters(text)
    ensures SplitHostPort(Host(ip) + [COLON] + text) == Ok((ip, text))
  {
    if COLON in ip {
      SplitBracketedAuthority(ip, text);
    } else {
      SplitBareAuthority(ip, text);
    }
  }

  /** A host that starts with a bracket is not bracketed again and comes back shorter, if at all. */
  lemma {:induction false} BracketedHostIsLost(ip: seq<byte>, text: seq<byte>, host: seq<byte>, rest: seq<byte>)
    requires [LBRACKET] <= ip && RBRACKET !in text
    requires SplitHostPort(ip + [COLON] + text) == Ok((host, rest))
    ensures |host| < |ip|
  {
    var authority := ip + [COLON] + text;
    var end := LastIndexOf(authority, RBRACKET);
    assert [LBRACKET] <= authority;
    assert forall i :: |ip| <= i < |authority| ==> authority[i] != RBRACKET;
    assert host == authority[1..end];
  }

  /** Whatever host is split off, its bytes come from the authority. */
  lemma {:induction false} HostComesFromAuthority(authority: seq<byte>, host: seq<byte>, rest: seq<byte>, c: byte)
    requires SplitHostPort(authority) == Ok((host, rest)) && c !in authority
    ensures c !in host
  {
  }

  predicate PlainHost(ip: seq<byte>) {
    QUERY !in ip && !([LBRACKET] <= ip)
  }

  lemma {:induction false} DecodePlainParts(p: Payload, text: seq<byte>)
    requires p.port != 0 && p.id != [] && p.fp != [] && p.token != [] && PlainHost(p.ip)
    requires NoDelimiters(text) && ScanInt(text) == Some(p.port)
    ensures DecodedParts(Host(p.ip) + [COLON] + text, Params(p, ORDER)) == Ok(p)
    ensures NoneContains(Params(p, ORDER), AMP) && Params(p, ORDER) != []
  {
    ApplyParams(p, Payload(p.ip, p.port, [], [], [], [], []), ORDER);
    CopyAllFields(p);
    SplitAuthority(p.ip, text);
  }

  lemma {:induction false} AuthorityHasNoQuery(ip: seq<byte>, text: seq<byte>)
    requires QUERY !in ip && NoDelimiters(text)
    ensures QUERY !in Host(ip) + [COLON] + text
  {
  }

  lemma {:induction false} PrintedPort(port: GoInt)
    ensures NoDelimiters(PrintInt(port)) && ScanInt(PrintInt(port)) == Some(port)
  {
    ScanPrintedInt(port);
  }

  /** Any text without delimiters that scans to the port will do for it. */
  lemma {:induction false} AnyPortText(p: Payload, text: seq<byte>)
    requires p.port != 0 && p.id != [] && p.fp != [] && p.token != [] && PlainHost(p.ip)
    requires NoDelimiters(text) && ScanInt(text) == Some(p.port)
    ensures Decoded(Uri(Host(p.ip) + [COLON] + text, Params(p, ORDER))) == Ok(p)
  {
    DecodePlainParts(p, text);
    AuthorityHasNoQuery(p.ip, text);
    DecodeUri(Host(p.ip) + [COLON] + text, Params(p, ORDER));
  }

  lemma {:induction false} PlainHostRoundTrip(p: Payload)
    requires p.port != 0 && p.id != [] && p.fp != [] && p.token != [] && PlainHost(p.ip)
    ensures Decoded(Uri(Authority(p), Params(p, ORDER))) == Ok(p)
  {
    PrintedPort(p.port);
    AnyPortText(p, PrintInt(p.port));
  }

  /** Up to the first '?' of such a URI there is another host, or none. */
  lemma {:induction false} HostIsLost(p: Payload, query: seq<byte>, host: seq<byte>, text: seq<byte>)
    requires !PlainHost(p.ip)
    requires SplitHostPort(Cut(Authority(p) + [QUERY] + query, QUERY).0) == Ok((host, text))
    ensures host != p.ip
  {
    var authority := Cut(Authority(p) + [QUERY] + query, QUERY).0;
    if QUERY in p.ip {
      HostComesFromAuthority(authority, host, text, QUERY);
    } else {
      PrintedPort(p.port);
      AuthorityHasNoQuery(p.ip, PrintInt(p.port));
      CutAt(Authority(p), QUERY, query);
      BracketedHostIsLost(p.ip, PrintInt(p.port), host, text);
    }
  }

  lemma {:induction false} NoRoundTrip(p: Payload)
    requires !PlainHost(p.ip)
    ensures Decoded(Uri(Authority(p), Params(p, ORDER))) != Ok(p)
  {
    var all := Join(Params(p, ORDER), AMP);
    var rest := Authority(p) + [QUERY] + all;
    assert Uri(Authority(p), Params(p, ORDER))[|PREFIX|..] == rest;
    var (authority, query) := Cut(rest, QUERY);
    HostIsKept(authority, if query == [] then [] else Split(query, AMP));
    if SplitHostPort(authority).Ok? {
      HostIsLost(p, all, SplitHostPort(authority).value.0, SplitHostPort(authority).value.1);
    }
  }

  lemma {:induction false} ApplyKeepsHost(p: Payload, params: seq<seq<byte>>)
    ensures Apply(p, params).Ok? ==> Apply(p, params).value.ip == p.ip && Apply(p, params).value.port == p.port
    decreases |params|
  {
    if params != [] && DecodedComponent(RawValue(params[0])).Some? {
      ApplyKeepsHost(SetField(p, Key(params[0]), DecodedComponent(RawValue(params[0])).value), params[1..]);
    }
  }

  lemma {:induction false} HostIsKept(authority: seq<byte>, params: seq<seq<byte>>)
    ensures DecodedParts(authority, params).Ok? ==>
              && SplitHostPort(authority).Ok?
              && DecodedParts(authority, params).value.ip == SplitHostPort(authority).value.0
              && DecodedParts(authority, params).value.port != 0
              && ScanInt(SplitHostPort(authority).value.1) == Some(DecodedParts(authority, params).value.port)
  {
    match SplitHostPort(authority)
    case Err(_) =>
    case Ok((host, text)) =>
      match ScanInt(text)
      case None =>
      case Some(port) => ApplyKeepsHost(Payload(host, port, [], [], [], [], []), params);
  }

  /** A complete payload survives encoding and decoding exactly when its host is plain. */
  lemma {:induction false} RoundTripExactly(p: Payload)
    requires Complete(p)
    ensures Decoded(Uri(Authority(p), Params(p, ORDER))) == Ok(p) <==> PlainHost(p.ip)
  {
    if PlainHost(p.ip) {
      PlainHostRoundTrip(p);
    } else {
      NoRoundTrip(p);
    }
  }

  /** For instance "[a]": the brackets are not put on again, but they are taken off. */
  lemma {:induction false} BracketedHostFails()
    ensures var p := Payload([LBRACKET, 0x61, RBRACKET], 1, [0x61], [], [], [0x62], [0x63]);
            Complete(p) && Decoded(Uri(Authority(p), Params(p, ORDER))) != Ok(p)
  {
    NoRoundTrip(Payload([LBRACKET, 0x61, RBRACKET], 1, [0x61], [], [], [0x62], [0x63]));
  }

  // ---------- order of the parameters ----------

  predicate WellEncoded(params: seq<seq<byte>>) {
    forall i :: 0 <= i < |params| ==> DecodedComponent(RawValue(params[i])).Some?
  }

  /** The value of the last parameter named `k`; `before` when there is none. */
  function LastValue(params: seq<seq<byte>>, k: seq<byte>, before: seq<byte>): seq<byte>
    requires WellEncoded(params)
    decreases |params|
  {
    if params == [] then before
    else LastValue(params[1..], k, if Key(params[0]) == k then DecodedComponent(RawValue(params[0])).value else before)
  }

  /** All parameters decode or the URI is refused; a repeated key counts with its last value. */
  lemma {:induction false} ApplyTakesLastValues(p: Payload, params: seq<seq<byte>>)
    ensures Apply(p, params).Ok? <==> WellEncoded(params)
    ensures WellEncoded(params) ==>
              Apply(p, params) == Ok(Payload(p.ip, p.port,
                                             LastValue(params, ID, p.id), LastValue(params, NAME, p.name), LastValue(params, APP, p.app),
                                             LastValue(params, FP, p.fp), LastValue(params, TOKEN, p.token)))
    decreases |params|
  {
    if params != [] && DecodedComponent(RawValue(params[0])).Some? {
      var k, v := Key(params[0]), DecodedComponent(RawValue(params[0])).value;
      ApplyTakesLastValues(SetField(p, k, v), params[1..]);
      assert WellEncoded(params) <==> WellEncoded(params[1..]);
    }
  }

  ghost predicate Names(params: seq<seq<byte>>, k: seq<byte>, param: seq<byte>) {
    param in params && Key(param) == k
  }

  /** No two parameters share a key the payload knows; unknown keys may repeat. */
  ghost predicate DistinctKeys(params: seq<seq<byte>>) {
    forall i, j :: 0 <= i < j < |params| && Key(params[i]) in ORDER ==> Key(params[i]) != Key(params[j])
  }

  lemma {:induction false} KeyedOnce(params: seq<seq<byte>>, x: seq<byte>)
    requires DistinctKeys(params) && params != [] && Key(params[0]) in ORDER && x in params[1..]
    ensures Key(x) != Key(params[0])
  {
    var j :| 0 <= j < |params| - 1 && params[1..][j] == x;
    assert Key(params[0]) != Key(params[j + 1]);
  }

  lemma {:induction false} NamesOfTail(params: seq<seq<byte>>, k: seq<byte>, x: seq<byte>)
    requires DistinctKeys(params) && params != [] && k in ORDER
    ensures Names(params, k, x) <==> (x == params[0] && Key(x) == k) || Names(params[1..], k, x)
    ensures Key(params[0]) == k ==> !Names(params[1..], k, x)
  {
    assert params == [params[0]] + params[1..];
    if Key(params[0]) == k && x in params[1..] {
      KeyedOnce(params, x);
    }
  }

  lemma {:induction false} LastValueIsTheValue(params: seq<seq<byte>>, k: seq<byte>, before: seq<byte>)
    requires WellEncoded(params) && DistinctKeys(params) && k in ORDER
    ensures forall q :: Names(params, k, q) ==> LastValue(params, k, before) == DecodedComponent(RawValue(q)).value
    ensures (forall q :: !Names(params, k, q)) ==> LastValue(params, k, before) == before
    decreases |params|
  {
    if params != [] {
      var q, rest := params[0], params[1..];
      var next := if Key(q) == k then DecodedComponent(RawValue(q)).value else before;
      LastValueIsTheValue(rest, k, next);
      assert LastValue(params, k, before) == LastValue(rest, k, next);
      forall x
        ensures Names(params, k, x) <==> (x == q && Key(q) == k) || Names(rest, k, x)
        ensures Key(q) == k ==> !Names(rest, k, x)
      {
        NamesOfTail(params, k, x);
      }
      if Key(q) == k {
        assert LastValue(params, k, before) == next;
        assert Names(params, k, q);
      }
    }
  }

  /** The two lists have the same parameters, in any order, up to keys the payload does not know. */
  ghost predicate SameKnownParams(a: seq<seq<byte>>, b: seq<seq<byte>>) {
    forall q :: Key(q) in ORDER ==> (q in a <==> q in b)
  }

  lemma {:induction false} SameLastValue(a: seq<seq<byte>>, b: seq<seq<byte>>, k: seq<byte>, before: seq<byte>)
    requires WellEncoded(a) && WellEncoded(b) && DistinctKeys(a) && DistinctKeys(b)
    requires SameKnownParams(a, b) && k in ORDER
    ensures LastValue(a, k, before) == LastValue(b, k, before)
  {
    LastValueIsTheValue(a, k, before);
    LastValueIsTheValue(b, k, before);
    if q :| Names(a, k, q) {
      assert Names(b, k, q);
    } else {
      assert forall q :: Names(b, k, q) ==> Names(a, k, q);
    }
  }

  lemma {:induction false} SameApply(a: seq<seq<byte>>, b: seq<seq<byte>>, p: Payload)
    requires WellEncoded(a) && WellEncoded(b) && DistinctKeys(a) && DistinctKeys(b) && SameKnownParams(a, b)
    ensures Apply(p, a) == Apply(p, b)
  {
    ApplyTakesLastValues(p, a);
    ApplyTakesLastValues(p, b);
    SameLastValue(a, b, ID, p.id);
    SameLastValue(a, b, NAME, p.name);
    SameLastValue(a, b, APP, p.app);
    SameLastValue(a, b, FP, p.fp);
    SameLastValue(a, b, TOKEN, p.token);
  }

  lemma {:induction false} SameParts(authority: seq<byte>, a: seq<seq<byte>>, b: seq<seq<byte>>)
    requires WellEncoded(a) && WellEncoded(b) && DistinctKeys(a) && DistinctKeys(b) && SameKnownParams(a, b)
    ensures DecodedParts(authority, a) == DecodedParts(authority, b)
  {
    match SplitHostPort(authority)
    case Err(_) =>
    case Ok((host, text)) =>
      match ScanInt(text)
      case None =>
      case Some(port) => SameApply(a, b, Payload(host, port, [], [], [], [], []));
  }

  /** Decoding does not depend on the order of the parameters, nor on unknown ones among them. */
  lemma {:induction false} ParametersInAnyOrder(authority: seq<byte>, a: seq<seq<byte>>, b: seq<seq<byte>>)
    requires QUERY !in authority
    requires a != [] && NoneContains(a, AMP) && WellEncoded(a) && DistinctKeys(a)
    requires b != [] && NoneContains(b, AMP) && WellEncoded(b) && DistinctKeys(b)
    requires SameKnownParams(a, b)
    ensures Decoded(Uri(authority, a)) == Decoded(Uri(authority, b))
  {
    DecodeUri(authority, a);
    DecodeUri(authority, b);
    SameParts(authority, a, b);
  }

  /** One badly encoded value, known key or not, refuses the URI wherever it stands. */
  lemma {:induction false} BadValueIsRefused(authority: seq<byte>, params: seq<seq<byte>>)
    requires QUERY !in authority && params != [] && NoneContains(params, AMP)
    requires !WellEncoded(params)
    ensures Decoded(Uri(authority, params)).Err?
  {
    DecodeUri(authority, params);
    match SplitHostPort(authority)
    case Err(_) =>
    case Ok((host, text)) =>
      match ScanInt(text)
      case None =>
      case Some(port) => ApplyTakesLastValues(Payload(host, port, [], [], [], [], []), params);
  }

  // ---------- what is accepted ----------

  /** The text between the scheme and the first '?'. */
  function AuthorityOf(s: seq<byte>): seq<byte>
    requires PREFIX <= s
  {
    Cut(s[|PREFIX|..], QUERY).0
  }

  predicate HostIsMissing(authority: seq<byte>) {
    if [LBRACKET] <= authority then LastIndexOf(authority, RBRACKET) == 1
    else LastIndexOf(authority, COLON) == 0
  }

  /**
    Id, fp, token and a non-zero port are always there, the port as ScanInt reads it. PROTOCOL.md
    also wants an empty ip refused; the code never tests it, and accepts exactly the authorities
    with nothing before the port.
   */
  lemma {:induction false} AcceptedPayload(s: seq<byte>)
    ensures Decoded(s).Ok? ==>
              var p := Decoded(s).value;
              && p.port != 0 && p.id != [] && p.fp != [] && p.token != []
              && SplitHostPort(AuthorityOf(s)).Ok? && ScanInt(SplitHostPort(AuthorityOf(s)).value.1) == Some(p.port)
              && (p.ip == [] <==> HostIsMissing(AuthorityOf(s)))
  {
    if PREFIX <= s {
      var (authority, query) := Cut(s[|PREFIX|..], QUERY);
      HostIsKept(authority, if query == [] then [] else Split(query, AMP));
    }
  }

  /** Every payload that lacks only its host has a URI that is accepted. */
  lemma {:induction false} EmptyHostIsAccepted(p: Payload)
    requires p.ip == [] && p.port != 0 && p.id != [] && p.fp != [] && p.token != []
    ensures Decoded(Uri([COLON] + PrintInt(p.port), Params(p, ORDER))) == Ok(p)
  {
    assert Authority(p) == [COLON] + PrintInt(p.port);
    PlainHostRoundTrip(p);
  }

  /** For instance clashctl-pair://:1?id=a&name=&app=&fp=b&token=c. */
  lemma {:induction false} EmptyHostExample()
    ensures var p := Payload([], 1, [0x61], [], [], [0x62], [0x63]);
            Decoded(Uri([COLON, 0x31], Params(p, ORDER))) == Ok(p) && HostIsMissing([COLON, 0x31])
  {
    var p := Payload([], 1, [0x61], [], [], [0x62], [0x63]);
    EmptyHostIsAccepted(p);
    assert [COLON] + PrintInt(1) == [COLON, 0x31];
    LastIndexOfSplit([], COLON, [0x31]);
    assert [] + [COLON] + [0x31] == [COLON, 0x31];
  }

  lemma {:induction false} HostH()
    ensures PlainHost([0x68]) && Host([0x68]) + [COLON] == [0x68, COLON]
  {
    var host: seq<byte> := [0x68];
    assert host[0] != LBRACKET;
    assert COLON !in host && QUERY !in host;
  }

  lemma {:induction false} OddPortTexts()
    ensures NoDelimiters([MINUS, 0x31]) && NoDelimiters([0x31, 0x78])
  {
    TwoBytes(MINUS, 0x31);
    TwoBytes(0x31, 0x78);
  }

  lemma {:induction false} TwoBytes(b: byte, c: byte)
    requires b !in {COLON, RBRACKET, QUERY} && c !in {COLON, RBRACKET, QUERY}
    ensures NoDelimiters([b, c])
  {
  }

  /** For instance clashctl-pair://h:-1?... and clashctl-pair://h:1x?...: a negative port, and text after it. */
  lemma {:induction false} OddPortExamples()
    ensures var p := Payload([0x68], -1, [0x61], [], [], [0x62], [0x63]);
            Decoded(Uri([0x68, COLON] + [MINUS, 0x31], Params(p, ORDER))) == Ok(p)
    ensures var p := Payload([0x68], 1, [0x61], [], [], [0x62], [0x63]);
            Decoded(Uri([0x68, COLON] + [0x31, 0x78], Params(p, ORDER))) == Ok(p)
  {
    SignAndTrailingText();
    HostH();
    OddPortTexts();
    AnyPortText(Payload([0x68], -1, [0x61], [], [], [0x62], [0x63]), [MINUS, 0x31]);
    AnyPortText(Payload([0x68], 1, [0x61], [], [], [0x62], [0x63]), [0x31, 0x78]);
  }
}
