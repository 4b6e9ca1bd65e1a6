/**
  The clashctl-pair:// payload (PROTOCOL.md section 6.1): go/pairing/payload.go. Its
  strings are Go byte strings; nothing here needs them to be valid UTF-8.
 */
module PairingUri {
  import opened Wrappers
  import opened Bytes
  import opened Splitting
  import opened Percent

  datatype Payload = Payload(
    ip: seq<byte>, port: GoInt, id: seq<byte>, name: seq<byte>, app: seq<byte>, fp: seq<byte>, token: seq<byte>)

  datatype Error =
    | NotThisScheme
    | UnterminatedIPv6
    | MissingPort
    | InvalidPort(text: seq<byte>)
    | BadValue(key: seq<byte>)
    | MissingField

  const QUERY: byte := 0x3F
  const AMP: byte := 0x26
  const EQUALS: byte := 0x3D

  /** "clashctl-pair://" */
  const PREFIX: seq<byte> := [
    0x63, 0x6C, 0x61, 0x73, 0x68, 0x63, 0x74, 0x6C, 0x2D, 0x70, 0x61, 0x69, 0x72, 0x3A, 0x2F, 0x2F]

  const ID: seq<byte> := [0x69, 0x64]
  const NAME: seq<byte> := [0x6E, 0x61, 0x6D, 0x65]
  const APP: seq<byte> := [0x61, 0x70, 0x70]
  const FP: seq<byte> := [0x66, 0x70]
  const TOKEN: seq<byte> := [0x74, 0x6F, 0x6B, 0x65, 0x6E]

  /** canonicalParamOrder */
  const ORDER: seq<seq<byte>> := [ID, NAME, APP, FP, TOKEN]

  // ---------- encoding ----------

  predicate Complete(p: Payload) {
    p.ip != [] && p.port != 0 && p.id != [] && p.fp != [] && p.token != []
  }

  function Host(ip: seq<byte>): seq<byte> {
    if COLON in ip && !([LBRACKET] <= ip) then [LBRACKET] + ip + [RBRACKET] else ip
  }

  function Field(p: Payload, k: seq<byte>): seq<byte> {
    if k == ID then p.id
    else if k == NAME then p.name
    else if k == APP then p.app
    else if k == FP then p.fp
    else if k == TOKEN then p.token
    else []
  }

  function Param(p: Payload, k: seq<byte>): seq<byte> {
    RawParam(k, Field(p, k))
  }

  function RawParam(k: seq<byte>, v: seq<byte>): seq<byte> {
    k + [EQUALS] + EncodedComponent(v)
  }

  function Params(p: Payload, keys: seq<seq<byte>>): seq<seq<byte>> {
    if keys == [] then [] else [Param(p, keys[0])] + Params(p, keys[1..])
  }

  /** A URI with the given authority and raw parameters. */
  function Uri(authority: seq<byte>, params: seq<seq<byte>>): seq<byte> {
    PREFIX + (authority + [QUERY] + Join(params, AMP))
  }

  function Authority(p: Payload): seq<byte> {
    Host(p.ip) + [COLON] + PrintInt(p.port)
  }

  method Encode(p: Payload) returns (r: Result<seq<byte>, Error>)
    ensures r == if Complete(p) then Ok(Uri(Authority(p), Params(p, ORDER))) else Err(MissingField)
    ensures r.Err? <==> p.ip == [] || p.port == 0 || p.id == [] || p.fp == [] || p.token == []
  {
    if p.ip == [] || p.port == 0 || p.id == [] || p.fp == [] || p.token == [] {
      return Err(MissingField);
    }
    var host := p.ip;
    if COLON in host && !([LBRACKET] <= host) {
      host := [LBRACKET] + host + [RBRACKET];
    }
    var query := EncodeQuery(p);
    return Ok(PREFIX + (host + [COLON] + PrintInt(p.port) + [QUERY] + query));
  }

  method EncodeQuery(p: Payload) returns (b: seq<byte>)
    ensures b == Join(Params(p, ORDER), AMP)
  {
    var vals := map[ID := p.id, NAME := p.name, APP := p.app, FP := p.fp, TOKEN := p.token];
    b := WriteParams(p, vals, ORDER);
  }

  /** The loop over canonicalParamOrder. */
  method WriteParams(ghost p: Payload, vals: map<seq<byte>, seq<byte>>, order: seq<seq<byte>>) returns (b: seq<byte>)
    requires forall i :: 0 <= i < |order| ==> order[i] in vals && vals[order[i]] == Field(p, order[i])
    ensures b == Join(Params(p, order), AMP)
  {
    b := [];
    for i := 0 to |order|
      invariant b + Unwritten(p, order, i) == Join(Params(p, order), AMP)
    {
      UnwrittenStep(p, order, i);
      ghost var before, rest := b, Unwritten(p, order, i + 1);
      if i > 0 {
        b := b + [AMP];
      }
      b := WriteParam(b, order[i], vals[order[i]]);
      Regroup4(before, if i > 0 then [AMP] else [], Param(p, order[i]), rest);
    }
  }

  method WriteParam(b: seq<byte>, k: seq<byte>, v: seq<byte>) returns (r: seq<byte>)
    ensures r == b + RawParam(k, v)
  {
    r := b + k;
    r := r + [EQUALS];
    var value := EncodeComponent(v);
    r := r + value;
    Regroup4(b, k, [EQUALS], value);
  }

  function MoreParams(p: Payload, keys: seq<seq<byte>>): seq<byte> {
    if keys == [] then [] else [AMP] + Param(p, keys[0]) + MoreParams(p, keys[1..])
  }

  function Unwritten(p: Payload, keys: seq<seq<byte>>, i: nat): seq<byte>
    requires i <= |keys|
  {
    if i == 0 then Join(Params(p, keys), AMP) else MoreParams(p, keys[i..])
  }

  lemma {:induction false} JoinParams(p: Payload, keys: seq<seq<byte>>)
    requires keys != []
    ensures Join(Params(p, keys), AMP) == Param(p, keys[0]) + MoreParams(p, keys[1..])
  {
    if |keys| > 1 {
      JoinParams(p, keys[1..]);
      assert Params(p, keys)[1..] == Params(p, keys[1..]);
    }
  }

  lemma {:induction false} UnwrittenStep(p: Payload, keys: seq<seq<byte>>, i: nat)
    requires i < |keys|
    ensures Unwritten(p, keys, i) == (if i > 0 then [AMP] else []) + Param(p, keys[i]) + Unwritten(p, keys, i + 1)
  {
    if i == 0 {
      JoinParams(p, keys);
    } else {
      assert keys[i..][1..] == keys[i + 1..];
    }
  }

  // ---------- decoding ----------

  function SplitHostPort(authority: seq<byte>): Result<(seq<byte>, seq<byte>), Error> {
    if [LBRACKET] <= authority then
      var end := LastIndexOf(authority, RBRACKET);
      if end < 0 then Err(UnterminatedIPv6)
      else if !([COLON] <= authority[end + 1..]) then Err(MissingPort)
      else Ok((authority[1..end], authority[end + 2..]))
    else
      var i := LastIndexOf(authority, COLON);
      if i < 0 then Err(MissingPort) else Ok((authority[..i], authority[i + 1..]))
  }

  /** The switch on one decoded parameter; unknown keys are dropped. */
  function SetField(p: Payload, k: seq<byte>, v: seq<byte>): Payload {
    if k == ID then p.(id := v)
    else if k == NAME then p.(name := v)
    else if k == APP then p.(app := v)
    else if k == FP then p.(fp := v)
    else if k == TOKEN then p.(token := v)
    else p
  }

  function Key(param: seq<byte>): seq<byte> {
    Cut(param, EQUALS).0
  }

  function RawValue(param: seq<byte>): seq<byte> {
    Cut(param, EQUALS).1
  }

  function Apply(p: Payload, params: seq<seq<byte>>): Result<Payload, Error>
    decreases |params|
  {
    if params == [] then Ok(p)
    else
      match DecodedComponent(RawValue(params[0]))
      case None => Err(BadValue(Key(params[0])))
      case Some(v) => Apply(SetField(p, Key(params[0]), v), params[1..])
  }

  function RequireFields(r: Result<Payload, Error>): Result<Payload, Error> {
    match r
    case Err(_) => r
    case Ok(p) => if p.id == [] || p.fp == [] || p.token == [] then Err(MissingField) else r
  }

  /** What Decode makes of an authority and of the parameters behind it. */
  function DecodedParts(authority: seq<byte>, params: seq<seq<byte>>): Result<Payload, Error> {
    match SplitHostPort(authority)
    case Err(e) => Err(e)
    case Ok((host, portText)) =>
      match ScanInt(portText)
      case None => Err(InvalidPort(portText))
      case Some(port) =>
        if port == 0 then Err(InvalidPort(portText))
        else RequireFields(Apply(Payload(host, port, [], [], [], [], []), params))
  }

  function Decoded(s: seq<byte>): Result<Payload, Error> {
    if !(PREFIX <= s) then Err(NotThisScheme)
    else
      var (authority, query) := Cut(s[|PREFIX|..], QUERY);
      DecodedParts(authority, if query == [] then [] else Split(query, AMP))
  }

  method Decode(s: seq<byte>) returns (r: Result<Payload, Error>)
    ensures r == Decoded(s)
    ensures r == Err(NotThisScheme) <==> !(PREFIX <= s)
  {
    if !(PREFIX <= s) {
      return Err(NotThisScheme);
    }
    var (authority, query) := Cut(s[|PREFIX|..], QUERY);
    var hostPort := SplitHostPort(authority);
    if hostPort.Err? {
      return Err(hostPort.error);
    }
    var (host, portText) := hostPort.value;
    var port := ScanInt(portText);
    if port.None? || port.value == 0 {
      return Err(InvalidPort(portText));
    }
    var p := Payload(host, port.value, [], [], [], [], []);
    if query != [] {
      var params := Split(query, AMP);
      ghost var empty := p;
      for i := 0 to |params|
        invariant Apply(empty, params) == Apply(p, params[i..])
      {
        var (k, v) := Cut(params[i], EQUALS);
        assert params[i..][1..] == params[i + 1..];
        var dv := DecodeComponent(v);
        if dv.None? {
          return Err(BadValue(k));
        }
        if k == ID {
          p := p.(id := dv.value);
        } else if k == NAME {
          p := p.(name := dv.value);
        } else if k == APP {
          p := p.(app := dv.value);
        } else if k == FP {
          p := p.(fp := dv.value);
        } else if k == TOKEN {
          p := p.(token := dv.value);
        }
      }
      assert params[|params|..] == [];
    }
    if p.id == [] || p.fp == [] || p.token == [] {
      return Err(MissingField);
    }
    return Ok(p);
  }
}
