/**
  The whitelist of forwardable core calls (PROTOCOL.md section 9.1): go/forwarder/forwarder.go.
  Paths are Go strings of any bytes.
 */
module Whitelist {
  import opened Bytes
  import opened Splitting

  datatype Rule = Rule(method_: string, path: string)

  const WHITELIST: seq<Rule> := [
    Rule("GET", "/version"),
    Rule("GET", "/configs"),
    Rule("GET", "/memory"),
    Rule("GET", "/traffic"),
    Rule("GET", "/logs"),
    Rule("GET", "/rules"),
    Rule("GET", "/proxies"),
    Rule("GET", "/proxies/{}"),
    Rule("PUT", "/proxies/{}"),
    Rule("DELETE", "/proxies/{}"),
    Rule("GET", "/proxies/{}/delay"),
    Rule("GET", "/group"),
    Rule("GET", "/group/{}"),
    Rule("GET", "/group/{}/delay"),
    Rule("GET", "/providers/proxies"),
    Rule("GET", "/providers/proxies/{}"),
    Rule("PUT", "/providers/proxies/{}"),
    Rule("GET", "/providers/proxies/{}/healthcheck"),
    Rule("GET", "/providers/rules"),
    Rule("PUT", "/providers/rules/{}"),
    Rule("GET", "/connections"),
    Rule("DELETE", "/connections"),
    Rule("DELETE", "/connections/{}")
  ]

  const SLASH: byte := 0x2F

  /** "{}" */
  const WILDCARD: seq<byte> := [0x7B, 0x7D]

  /** strings.Trim(p, "/") */
  function TrimSlashes(p: seq<byte>): seq<byte> {
    if p != [] && p[0] == SLASH then TrimSlashes(p[1..])
    else if p != [] && p[|p| - 1] == SLASH then TrimSlashes(p[..|p| - 1])
    else p
  }

  function SplitPath(p: seq<byte>): seq<seq<byte>> {
    var t := TrimSlashes(p);
    if t == [] then [] else Split(t, SLASH)
  }

  /** The segments of a rule's path. */
  function Pattern(ru: Rule): seq<seq<byte>> {
    SplitPath(Ascii(ru.path))
  }

  predicate SegMatch(pat: seq<seq<byte>>, got: seq<seq<byte>>) {
    && |pat| == |got|
    && (pat != [] ==>
          && (if pat[0] == WILDCARD then got[0] != [] else pat[0] == got[0])
          && SegMatch(pat[1..], got[1..]))
  }

  predicate AllowedBy(rules: seq<Rule>, method_: string, got: seq<seq<byte>>) {
    if rules == [] then false
    else
      || (rules[0].method_ == method_ && SegMatch(Pattern(rules[0]), got))
      || AllowedBy(rules[1..], method_, got)
  }

  predicate Allowed(method_: string, corePath: seq<byte>) {
    AllowedBy(WHITELIST, method_, SplitPath(corePath))
  }

  predicate AllowedReadOnly(method_: string, corePath: seq<byte>) {
    method_ == "GET" && Allowed(method_, corePath)
  }

  // ---------- an independent reading of the table ----------

  /** `segs` is `pat` with every "{}" replaced by some non-empty segment without a slash. */
  ghost predicate Instance(pat: seq<seq<byte>>, segs: seq<seq<byte>>) {
    && |segs| == |pat|
    && forall i :: 0 <= i < |pat| ==>
                     if pat[i] == WILDCARD then segs[i] != [] && SLASH !in segs[i] else segs[i] == pat[i]
  }

  /** Between leading and trailing slashes, the path spells an instance of the rule. */
  ghost predicate Spells(ru: Rule, method_: string, corePath: seq<byte>) {
    ru.method_ == method_ && exists segs :: Instance(Pattern(ru), segs) && TrimSlashes(corePath) == Join(segs, SLASH)
  }

  lemma {:induction false} SegMatchIsInstance(pat: seq<seq<byte>>, got: seq<seq<byte>>)
    requires NoneContains(got, SLASH)
    ensures SegMatch(pat, got) <==> Instance(pat, got)
  {
    if |pat| == |got| && pat != [] {
      assert forall i :: 0 < i < |pat| ==> pat[i] == pat[1..][i - 1] && got[i] == got[1..][i - 1];
      SegMatchIsInstance(pat[1..], got[1..]);
      if Instance(pat[1..], got[1..]) && SegMatch([pat[0]], [got[0]]) {
        forall i | 0 <= i < |pat|
          ensures if pat[i] == WILDCARD then got[i] != [] && SLASH !in got[i] else got[i] == pat[i]
        {
          if i > 0 {
            assert pat[i] == pat[1..][i - 1] && got[i] == got[1..][i - 1];
          }
        }
      }
      if Instance(pat, got) {
        forall i | 0 <= i < |pat| - 1
          ensures if pat[1..][i] == WILDCARD then got[1..][i] != [] && SLASH !in got[1..][i] else got[1..][i] == pat[1..][i]
        {
          assert pat[i + 1] == pat[1..][i] && got[i + 1] == got[1..][i];
        }
      }
    }
  }

  ghost predicate Slashes(s: seq<byte>) {
    forall i :: 0 <= i < |s| ==> s[i] == SLASH
  }

  lemma {:induction false} SlashBefore(before: seq<byte>, t: seq<byte>, after: seq<byte>, p: seq<byte>)
    requires p != [] && p[0] == SLASH && p[1..] == before + t + after && Slashes(before)
    ensures p == [SLASH] + before + t + after && Slashes([SLASH] + before)
  {
    HeadAndTail(p);
    Regroup4([SLASH], before, t, after);
  }

  lemma {:induction false} SlashAfter(before: seq<byte>, t: seq<byte>, after: seq<byte>, p: seq<byte>)
    requires p != [] && p[|p| - 1] == SLASH && p[..|p| - 1] == before + t + after && Slashes(after)
    ensures p == before + t + (after + [SLASH]) && Slashes(after + [SLASH])
  {
    BeforeLast(p, 0);
    Regroup3(before + t, after, [SLASH]);
  }

  /** TrimSlashes takes the outer slashes off, all of them and nothing else. */
  lemma {:induction false} TrimStripsOuterSlashes(p: seq<byte>) returns (before: seq<byte>, after: seq<byte>)
    ensures p == before + TrimSlashes(p) + after && Slashes(before) && Slashes(after)
    ensures var t := TrimSlashes(p); t != [] ==> t[0] != SLASH && t[|t| - 1] != SLASH
    decreases |p|
  {
    if p != [] && p[0] == SLASH {
      before, after := TrimStripsOuterSlashes(p[1..]);
      SlashBefore(before, TrimSlashes(p), after, p);
      before := [SLASH] + before;
    } else if p != [] && p[|p| - 1] == SLASH {
      before, after := TrimStripsOuterSlashes(p[..|p| - 1]);
      SlashAfter(before, TrimSlashes(p), after, p);
      after := after + [SLASH];
    } else {
      before, after := [], [];
      assert [] + p + [] == p;
    }
  }

  lemma {:induction false} SplitPathParts(p: seq<byte>)
    ensures NoneContains(SplitPath(p), SLASH)
    ensures Join(SplitPath(p), SLASH) == TrimSlashes(p)
    ensures SplitPath(p) != [[]]
  {
    JoinSplit(TrimSlashes(p), SLASH);
  }

  lemma {:induction false} EmptyJoin(segs: seq<seq<byte>>)
    requires segs != [] && Join(segs, SLASH) == []
    ensures segs == [[]]
  {
  }

  /** An instance of a rule's pattern is spelt by the path exactly when it is the path's own segments. */
  lemma {:induction false} SegmentsAreDetermined(ru: Rule, segs: seq<seq<byte>>, corePath: seq<byte>)
    requires Instance(Pattern(ru), segs)
    ensures TrimSlashes(corePath) == Join(segs, SLASH) <==> SplitPath(corePath) == segs
  {
    SplitPathParts(Ascii(ru.path));
    SplitPathParts(corePath);
    assert NoneContains(segs, SLASH);
    if TrimSlashes(corePath) == Join(segs, SLASH) && segs != [] {
      SplitJoin(segs, SLASH);
      if Join(segs, SLASH) == [] {
        EmptyJoin(segs);
        assert false;
      }
    }
  }

  lemma {:induction false} RuleMatches(ru: Rule, method_: string, corePath: seq<byte>)
    ensures ru.method_ == method_ && SegMatch(Pattern(ru), SplitPath(corePath)) <==> Spells(ru, method_, corePath)
  {
    var pat, got := Pattern(ru), SplitPath(corePath);
    SplitPathParts(corePath);
    SegMatchIsInstance(pat, got);
    if ru.method_ == method_ && Instance(pat, got) {
      assert Instance(pat, got) && TrimSlashes(corePath) == Join(got, SLASH);
    }
    if Spells(ru, method_, corePath) {
      var segs :| Instance(pat, segs) && TrimSlashes(corePath) == Join(segs, SLASH);
      SegmentsAreDetermined(ru, segs, corePath);
    }
  }

  lemma {:induction false} AllowedBySomeRule(rules: seq<Rule>, method_: string, corePath: seq<byte>)
    ensures AllowedBy(rules, method_, SplitPath(corePath)) <==> exists ru :: ru in rules && Spells(ru, method_, corePath)
  {
    if rules != [] {
      RuleMatches(rules[0], method_, corePath);
      AllowedBySomeRule(rules[1..], method_, corePath);
      assert forall ru :: ru in rules <==> ru == rules[0] || ru in rules[1..];
    }
  }

  /** A call is forwarded iff its path spells some rule for its method; read-only mode keeps the GET part. */
  lemma {:induction false} WhitelistIsExact(method_: string, corePath: seq<byte>)
    ensures Allowed(method_, corePath) <==> exists ru :: ru in WHITELIST && Spells(ru, method_, corePath)
    ensures AllowedReadOnly(method_, corePath) <==>
            exists ru :: ru in WHITELIST && ru.method_ == "GET" && Spells(ru, method_, corePath)
  {
    AllowedBySomeRule(WHITELIST, method_, corePath);
  }

  // ---------- what a write can reach ----------

  /** A path of the form "/head" or "/head/..." without a trailing slash. */
  ghost predicate StartsWith(path: seq<byte>, head: seq<byte>) {
    && head != [] && SLASH !in head
    && 1 + |head| <= |path| && path[0] == SLASH && path[1..1 + |head|] == head
    && (1 + |head| < |path| ==> path[1 + |head|] == SLASH && path[|path| - 1] != SLASH)
  }

  lemma {:induction false} FirstSegment(path: seq<byte>, head: seq<byte>)
    requires StartsWith(path, head)
    ensures SplitPath(path) != [] && SplitPath(path)[0] == head
  {
    var t := path[1..];
    assert path[|path| - 1] == t[|t| - 1];
    assert t[..|head|] == head;
    assert t[0] == head[0] != SLASH;
    assert t[|t| - 1] != SLASH by {
      assert |path| == 1 + |head| ==> t[|t| - 1] == head[|head| - 1];
    }
    assert TrimSlashes(path) == t;
    var tail := t[|head|..];
    assert IndexOf(t, SLASH) == |head| by {
      if tail != [] {
        IndexOfSplit(head, SLASH, tail[1..]);
        assert t == head + [SLASH] + tail[1..];
      } else {
        assert t == head;
      }
    }
  }

  lemma {:induction false} WriteRules(i: nat)
    requires i < |WHITELIST| && WHITELIST[i].method_ != "GET"
    ensures i in {8, 9, 16, 19, 21, 22} && WHITELIST[i].method_ in ["PUT", "DELETE"]
  {
  }

  /** StartsWith, letter by letter, for ASCII literals. */
  lemma {:induction false} Spelled(path: string, head: string)
    requires forall j :: 0 <= j < |path| ==> path[j] as int < 0x80
    requires head != "" && 1 + |head| <= |path| && path[0] == '/'
    requires forall j :: 0 <= j < |head| ==> path[1 + j] == head[j] && head[j] != '/'
    requires 1 + |head| < |path| ==> path[1 + |head|] == '/' && path[|path| - 1] != '/'
    ensures StartsWith(Ascii(path), Ascii(head))
  {
    forall j | 0 <= j < |head|
      ensures Ascii(path)[1 + j] == Ascii(head)[j] != SLASH
    {
      assert path[1 + j] == head[j];
    }
  }

  /** The first segments of the rules that are not GETs. */
  const HEADS := ["proxies", "providers", "connections"]

  lemma {:induction false} ProxiesStart()
    ensures StartsWith(Ascii("/proxies/{}"), Ascii("proxies"))
  {
    Spelled("/proxies/{}", "proxies");
  }

  lemma {:induction false} ProvidersStart()
    ensures StartsWith(Ascii("/providers/proxies/{}"), Ascii("providers"))
    ensures StartsWith(Ascii("/providers/rules/{}"), Ascii("providers"))
  {
    Spelled("/providers/proxies/{}", "providers");
    Spelled("/providers/rules/{}", "providers");
  }

  lemma {:induction false} ConnectionsStart()
    ensures StartsWith(Ascii("/connections"), Ascii("connections"))
    ensures StartsWith(Ascii("/connections/{}"), Ascii("connections"))
  {
    Spelled("/connections", "connections");
    Spelled("/connections/{}", "connections");
  }

  lemma {:induction false} WriteRuleStart(i: nat) returns (head: string)
    requires i in {8, 9, 16, 19, 21, 22}
    ensures StartsWith(Ascii(WHITELIST[i].path), Ascii(head)) && head in HEADS
  {
    head := if i < 10 then "proxies" else if i < 20 then "providers" else "connections";
    ProxiesStart();
    ProvidersStart();
    ConnectionsStart();
  }

  lemma {:induction false} WriteRuleSegment(i: nat)
    requires i < |WHITELIST| && WHITELIST[i].method_ != "GET"
    ensures WHITELIST[i].method_ in ["PUT", "DELETE"]
    ensures Pattern(WHITELIST[i]) != [] && exists head :: head in HEADS && Pattern(WHITELIST[i])[0] == Ascii(head)
    ensures Pattern(WHITELIST[i])[0] != WILDCARD
  {
    WriteRules(i);
    var head := WriteRuleStart(i);
    FirstSegment(Ascii(WHITELIST[i].path), Ascii(head));
    assert |Ascii(head)| == |head| != |WILDCARD|;
  }

  lemma {:induction false} SomeRuleSpells(rules: seq<Rule>, method_: string, corePath: seq<byte>) returns (i: nat)
    requires AllowedBy(rules, method_, SplitPath(corePath))
    ensures i < |rules| && Spells(rules[i], method_, corePath)
  {
    AllowedBySomeRule(rules, method_, corePath);
    var ru :| ru in rules && Spells(ru, method_, corePath);
    i :| i < |rules| && rules[i] == ru;
  }

  lemma {:induction false} SpelledStart(ru: Rule, method_: string, corePath: seq<byte>)
    requires Spells(ru, method_, corePath)
    requires Pattern(ru) != [] && Pattern(ru)[0] != WILDCARD
    ensures SplitPath(corePath) != [] && SplitPath(corePath)[0] == Pattern(ru)[0]
  {
    RuleMatches(ru, method_, corePath);
  }

  /** No forwarded call but a GET reaches /configs, /upgrade, or anything outside proxies, providers and connections. */
  lemma {:induction false} ForwardedWrites(method_: string, corePath: seq<byte>)
    requires Allowed(method_, corePath) && method_ != "GET"
    ensures method_ == "PUT" || method_ == "DELETE"
    ensures SplitPath(corePath) != [] && exists head :: head in HEADS && SplitPath(corePath)[0] == Ascii(head)
  {
    var i := SomeRuleSpells(WHITELIST, method_, corePath);
    WriteRuleSegment(i);
    SpelledStart(WHITELIST[i], method_, corePath);
  }
}
