/** The table of PROTOCOL.md section 9.1, by methods and path segments, and that the whitelist is that table. */
module WhitelistTable {
  import opened Bytes
  import opened Splitting
  import opened Whitelist

  datatype Row = Row(method_: string, parts: seq<string>)

  /** A part in braces stands for any segment. */
  const TABLE: seq<Row> := [
    Row("GET", ["version"]),
    Row("GET", ["configs"]),
    Row("GET", ["memory"]),
    Row("GET", ["traffic"]),
    Row("GET", ["logs"]),
    Row("GET", ["rules"]),
    Row("GET", ["proxies"]),
    Row("GET", ["proxies", "{}"]),
    Row("PUT", ["proxies", "{}"]),
    Row("DELETE", ["proxies", "{}"]),
    Row("GET", ["proxies", "{}", "delay"]),
    Row("GET", ["group"]),
    Row("GET", ["group", "{}"]),
    Row("GET", ["group", "{}", "delay"]),
    Row("GET", ["providers", "proxies"]),
    Row("GET", ["providers", "proxies", "{}"]),
    Row("PUT", ["providers", "proxies", "{}"]),
    Row("GET", ["providers", "proxies", "{}", "healthcheck"]),
    Row("GET", ["providers", "rules"]),
    Row("PUT", ["providers", "rules", "{}"]),
    Row("GET", ["connections"]),
    Row("DELETE", ["connections"]),
    Row("DELETE", ["connections", "{}"])
  ]

  /** The segment is the part, or stands for "{}" and is not empty. */
  predicate StandsFor(seg: seq<byte>, part: string) {
    if part == "{}" then seg != [] else seg == Ascii(part)
  }

  ghost predicate Follows(segs: seq<seq<byte>>, parts: seq<string>) {
    |segs| == |parts| && forall i :: 0 <= i < |parts| ==> StandsFor(segs[i], parts[i])
  }

  /** A part of a rule's path: not empty, ASCII, no slash. */
  predicate IsPart(s: string) {
    s != "" && forall i :: 0 <= i < |s| ==> s[i] as int < 0x80 && s[i] != '/'
  }

  lemma {:induction false} AsciiAppend(a: string, b: string)
    ensures Ascii(a + b) == Ascii(a) + Ascii(b)
  {
  }

  lemma {:induction false} PartHasNoSlash(s: string)
    requires IsPart(s)
    ensures Ascii(s) != [] && SLASH !in Ascii(s)
  {
    forall i | 0 <= i < |s|
      ensures Ascii(s)[i] != SLASH
    {
      assert s[i] != '/';
    }
  }

  function PathOf(parts: seq<string>): string {
    if parts == [] then "" else "/" + parts[0] + PathOf(parts[1..])
  }

  function AsciiAll(parts: seq<string>): seq<seq<byte>> {
    seq(|parts|, i requires 0 <= i < |parts| => Ascii(parts[i]))
  }

  lemma {:induction false} PathIsJoined(parts: seq<string>)
    requires parts != [] && forall i :: 0 <= i < |parts| ==> IsPart(parts[i])
    ensures Ascii(PathOf(parts)) == [SLASH] + Join(AsciiAll(parts), SLASH)
    decreases |parts|
  {
    AsciiAppend("/", parts[0]);
    AsciiAppend("/" + parts[0], PathOf(parts[1..]));
    assert Ascii("/") == [SLASH];
    assert AsciiAll(parts) == [Ascii(parts[0])] + AsciiAll(parts[1..]);
    if |parts| == 1 {
      assert PathOf(parts[1..]) == "";
      assert [SLASH] + Ascii(parts[0]) + Ascii("") == [SLASH] + Ascii(parts[0]);
    } else {
      PathIsJoined(parts[1..]);
      JoinFirst(Ascii(parts[0]), AsciiAll(parts[1..]), SLASH);
      Regroup3([SLASH] + Ascii(parts[0]), [SLASH], Join(AsciiAll(parts[1..]), SLASH));
      Regroup3([SLASH], Ascii(parts[0]), [SLASH] + Join(AsciiAll(parts[1..]), SLASH));
      Regroup3(Ascii(parts[0]), [SLASH], Join(AsciiAll(parts[1..]), SLASH));
    }
  }

  lemma {:induction false} NothingToTrim(t: seq<byte>)
    requires t != [] && t[0] != SLASH && t[|t| - 1] != SLASH
    ensures TrimSlashes([SLASH] + t) == t
  {
    assert ([SLASH] + t)[1..] == t;
  }

  lemma {:induction false} JoinedEnds(parts: seq<string>)
    requires parts != [] && forall i :: 0 <= i < |parts| ==> IsPart(parts[i])
    ensures var t := Join(AsciiAll(parts), SLASH);
            t != [] && t[0] != SLASH && t[|t| - 1] != SLASH
    ensures NoneContains(AsciiAll(parts), SLASH)
    decreases |parts|
  {
    PartHasNoSlash(parts[0]);
    assert AsciiAll(parts) == [Ascii(parts[0])] + AsciiAll(parts[1..]);
    if |parts| > 1 {
      JoinedEnds(parts[1..]);
      JoinFirst(Ascii(parts[0]), AsciiAll(parts[1..]), SLASH);
    } else {
      assert AsciiAll(parts) == [Ascii(parts[0])];
    }
  }

  /** A rule's path is taken apart into the parts it is written with. */
  lemma {:induction false} PatternOfParts(ru: Rule, parts: seq<string>)
    requires parts != [] && forall i :: 0 <= i < |parts| ==> IsPart(parts[i])
    requires ru.path == PathOf(parts)
    ensures Pattern(ru) == AsciiAll(parts)
  {
    PathIsJoined(parts);
    JoinedEnds(parts);
    NothingToTrim(Join(AsciiAll(parts), SLASH));
    SplitJoin(AsciiAll(parts), SLASH);
  }

  lemma {:induction false} AsciiIsInjective(a: string, b: string)
    requires (forall i :: 0 <= i < |a| ==> a[i] as int < 0x80) && (forall i :: 0 <= i < |b| ==> b[i] as int < 0x80)
    ensures Ascii(a) == Ascii(b) <==> a == b
  {
    if Ascii(a) == Ascii(b) {
      forall i | 0 <= i < |a|
        ensures a[i] == b[i]
      {
        assert Ascii(a)[i] == Ascii(b)[i];
      }
    }
  }

  lemma {:induction false} WildcardByLetters(part: string)
    requires IsPart(part)
    ensures Ascii(part) == WILDCARD <==> part == "{}"
  {
    var braces := "{}";
    assert Ascii(braces) == WILDCARD;
    assert braces[0] as int == 0x7B && braces[1] as int == 0x7D;
    AsciiIsInjective(part, braces);
  }

  lemma {:induction false} SegMatchFollows(parts: seq<string>, segs: seq<seq<byte>>)
    requires forall i :: 0 <= i < |parts| ==> IsPart(parts[i])
    ensures SegMatch(AsciiAll(parts), segs) <==> Follows(segs, parts)
    decreases |parts|
  {
    if parts != [] && |segs| == |parts| {
      WildcardByLetters(parts[0]);
      SegMatchFollows(parts[1..], segs[1..]);
      assert AsciiAll(parts)[1..] == AsciiAll(parts[1..]);
      FollowsFirst(segs, parts);
    }
  }

  lemma {:induction false} FollowsFirst(segs: seq<seq<byte>>, parts: seq<string>)
    requires parts != [] && |segs| == |parts|
    ensures Follows(segs, parts) <==>
            StandsFor(segs[0], parts[0]) && Follows(segs[1..], parts[1..])
  {
    if Follows(segs[1..], parts[1..]) {
      forall i | 0 < i < |parts|
        ensures StandsFor(segs[i], parts[i])
      {
        assert parts[i] == parts[1..][i - 1] && segs[i] == segs[1..][i - 1];
      }
    }
  }

  lemma {:induction false} Path1(a: string)
    ensures PathOf([a]) == "/" + a
  {
    assert PathOf([a][1..]) == "";
  }

  lemma {:induction false} Path2(a: string, b: string)
    ensures PathOf([a, b]) == "/" + a + "/" + b
  {
    Path1(b);
    assert [a, b][1..] == [b];
  }

  lemma {:induction false} Path3(a: string, b: string, c: string)
    ensures PathOf([a, b, c]) == "/" + a + "/" + b + "/" + c
  {
    Path2(b, c);
    assert [a, b, c][1..] == [b, c];
  }

  lemma {:induction false} Path4(a: string, b: string, c: string, d: string)
    ensures PathOf([a, b, c, d]) == "/" + a + "/" + b + "/" + c + "/" + d
  {
    Path3(b, c, d);
    assert [a, b, c, d][1..] == [b, c, d];
  }

  /** Rule i is row i, written as one path. */
  predicate IsRow(i: nat)
    requires i < |WHITELIST| && i < |TABLE|
  {
    WHITELIST[i] == Rule(TABLE[i].method_, PathOf(TABLE[i].parts))
  }

  lemma {:induction false} SpellVersion()
    ensures PathOf(["version"]) == "/version"
  {
    Path1("version");
  }

  lemma {:induction false} SpellConfigs()
    ensures PathOf(["configs"]) == "/configs"
  {
    Path1("configs");
  }

  lemma {:induction false} SpellMemory()
    ensures PathOf(["memory"]) == "/memory"
  {
    Path1("memory");
  }

  lemma {:induction false} SpellTraffic()
    ensures PathOf(["traffic"]) == "/traffic"
  {
    Path1("traffic");
  }

  lemma {:induction false} SpellLogs()
    ensures PathOf(["logs"]) == "/logs"
  {
    Path1("logs");
  }

  lemma {:induction false} SpellRules()
    ensures PathOf(["rules"]) == "/rules"
  {
    Path1("rules");
  }

  lemma {:induction false} SpellProxies()
    ensures PathOf(["proxies"]) == "/proxies"
  {
    Path1("proxies");
  }

  lemma {:induction false} SpellProxiesAny()
    ensures PathOf(["proxies", "{}"]) == "/proxies/{}"
  {
    Path2("proxies", "{}");
  }

  lemma {:induction false} SpellProxiesAnyDelay()
    ensures PathOf(["proxies", "{}", "delay"]) == "/proxies/{}/delay"
  {
    Path3("proxies", "{}", "delay");
  }

  lemma {:induction false} SpellGroup()
    ensures PathOf(["group"]) == "/group"
  {
    Path1("group");
  }

  lemma {:induction false} SpellGroupAny()
    ensures PathOf(["group", "{}"]) == "/group/{}"
  {
    Path2("group", "{}");
  }

  lemma {:induction false} SpellGroupAnyDelay()
    ensures PathOf(["group", "{}", "delay"]) == "/group/{}/delay"
  {
    Path3("group", "{}", "delay");
  }

  lemma {:induction false} SpellProvidersProxies()
    ensures PathOf(["providers", "proxies"]) == "/providers/proxies"
  {
    Path2("providers", "proxies");
  }

  lemma {:induction false} SpellProvidersProxiesAny()
    ensures PathOf(["providers", "proxies", "{}"]) == "/providers/proxies/{}"
  {
    Path3("providers", "proxies", "{}");
  }

  lemma {:induction false} SpellProvidersProxiesAnyHealthcheck()
    ensures PathOf(["providers", "proxies", "{}", "healthcheck"]) == "/providers/proxies/{}/healthcheck"
  {
    Path4("providers", "proxies", "{}", "healthcheck");
  }

  lemma {:induction false} SpellProvidersRules()
    ensures PathOf(["providers", "rules"]) == "/providers/rules"
  {
    Path2("providers", "rules");
  }

  lemma {:induction false} SpellProvidersRulesAny()
    ensures PathOf(["providers", "rules", "{}"]) == "/providers/rules/{}"
  {
    Path3("providers", "rules", "{}");
  }

  lemma {:induction false} SpellConnections()
    ensures PathOf(["connections"]) == "/connections"
  {
    Path1("connections");
  }

  lemma {:induction false} SpellConnectionsAny()
    ensures PathOf(["connections", "{}"]) == "/connections/{}"
  {
    Path2("connections", "{}");
  }

  lemma {:induction false} FirstRows(i: nat)
    requires i in {0, 1, 2}
    ensures |WHITELIST| == |TABLE| == 23 && IsRow(i)
  {
    SpellVersion();
    SpellConfigs();
    SpellMemory();
  }

  lemma {:induction false} NextRows(i: nat)
    requires i in {3, 4, 5}
    ensures |WHITELIST| == |TABLE| == 23 && IsRow(i)
  {
    SpellTraffic();
    SpellLogs();
    SpellRules();
  }

  lemma {:induction false} ListRows(i: nat)
    requires i in {6, 11, 20, 21}
    ensures |WHITELIST| == |TABLE| == 23 && IsRow(i)
  {
    SpellProxies();
    SpellGroup();
    SpellConnections();
  }

  lemma {:induction false} ProxiesRows(i: nat)
    requires i in {7, 8, 9, 10}
    ensures |WHITELIST| == |TABLE| == 23 && IsRow(i)
  {
    SpellProxiesAny();
    SpellProxiesAnyDelay();
  }

  lemma {:induction false} GroupRows(i: nat)
    requires i in {12, 13}
    ensures |WHITELIST| == |TABLE| == 23 && IsRow(i)
  {
    SpellGroupAny();
    SpellGroupAnyDelay();
  }

  lemma {:induction false} ProvidersProxiesRows(i: nat)
    requires i in {14, 15, 16, 17}
    ensures |WHITELIST| == |TABLE| == 23 && IsRow(i)
  {
    SpellProvidersProxies();
    SpellProvidersProxiesAny();
    SpellProvidersProxiesAnyHealthcheck();
  }

  lemma {:induction false} ProvidersRulesRows(i: nat)
    requires i in {18, 19}
    ensures |WHITELIST| == |TABLE| == 23 && IsRow(i)
  {
    SpellProvidersRules();
    SpellProvidersRulesAny();
  }

  lemma {:induction false} ConnectionsRows(i: nat)
    requires i in {22}
    ensures |WHITELIST| == |TABLE| == 23 && IsRow(i)
  {
    SpellConnectionsAny();
  }

  lemma {:induction false} RowIsRule(i: nat)
    requires i < 23
    ensures |WHITELIST| == |TABLE| == 23 && IsRow(i)
  {
    if i in {0, 1, 2} {
      FirstRows(i);
    } else if i in {3, 4, 5} {
      NextRows(i);
    } else if i in {6, 11, 20, 21} {
      ListRows(i);
    } else if i in {7, 8, 9, 10} {
      ProxiesRows(i);
    } else if i in {12, 13} {
      GroupRows(i);
    } else if i in {14, 15, 16, 17} {
      ProvidersProxiesRows(i);
    } else if i in {18, 19} {
      ProvidersRulesRows(i);
    } else if i in {22} {
      ConnectionsRows(i);
    }
  }

  lemma {:induction false} PlainParts()
    ensures IsPart("configs")
    ensures IsPart("connections")
    ensures IsPart("delay")
    ensures IsPart("group")
    ensures IsPart("healthcheck")
    ensures IsPart("logs")
    ensures IsPart("memory")
    ensures IsPart("providers")
    ensures IsPart("proxies")
    ensures IsPart("rules")
    ensures IsPart("traffic")
    ensures IsPart("version")
    ensures IsPart("{}")
  {
  }

  lemma {:induction false} PartsArePlain(i: nat)
    requires i < 23
    ensures |TABLE| == 23 && TABLE[i].parts != [] && forall j :: 0 <= j < |TABLE[i].parts| ==> IsPart(TABLE[i].parts[j])
  {
    PlainParts();
  }

  lemma {:induction false} RowFollows(i: nat, segs: seq<seq<byte>>)
    requires i < 23
    ensures |WHITELIST| == |TABLE| == 23 && WHITELIST[i].method_ == TABLE[i].method_
    ensures SegMatch(Pattern(WHITELIST[i]), segs) <==> Follows(segs, TABLE[i].parts)
  {
    PartsArePlain(i);
    RowIsRule(i);
    PatternOfParts(WHITELIST[i], TABLE[i].parts);
    SegMatchFollows(TABLE[i].parts, segs);
  }

  lemma {:induction false} AllowedBySomeIndex(rules: seq<Rule>, method_: string, got: seq<seq<byte>>)
    ensures AllowedBy(rules, method_, got) <==>
            exists i: nat :: i < |rules| && rules[i].method_ == method_ && SegMatch(Pattern(rules[i]), got)
  {
    if rules != [] {
      AllowedBySomeIndex(rules[1..], method_, got);
      if AllowedBy(rules[1..], method_, got) {
        var i: nat :| i < |rules[1..]| && rules[1..][i].method_ == method_ && SegMatch(Pattern(rules[1..][i]), got);
        assert rules[i + 1] == rules[1..][i];
      }
      forall i: nat | i < |rules| && rules[i].method_ == method_ && SegMatch(Pattern(rules[i]), got)
        ensures AllowedBy(rules, method_, got)
      {
        if i > 0 {
          assert rules[1..][i - 1] == rules[i];
        }
      }
    }
  }

  /** A call is forwarded exactly if the table lists its method with its path's segments. */
  lemma {:induction false} ForwardedExactly(method_: string, corePath: seq<byte>)
    ensures Allowed(method_, corePath) <==>
            exists i :: 0 <= i < |TABLE| && TABLE[i].method_ == method_ && Follows(SplitPath(corePath), TABLE[i].parts)
  {
    var segs := SplitPath(corePath);
    AllowedBySomeIndex(WHITELIST, method_, segs);
    forall i: nat | i < 23
      ensures |WHITELIST| == |TABLE| == 23 && WHITELIST[i].method_ == TABLE[i].method_
      ensures SegMatch(Pattern(WHITELIST[i]), segs) <==> Follows(segs, TABLE[i].parts)
    {
      RowFollows(i, segs);
    }
  }
}
