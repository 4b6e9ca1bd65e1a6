/** The group listing of go/corehooks/corehooks.go: GLOBAL's order first, the rest sorted. */
module ProxyGroups {
  import opened Wrappers
  import opened Ordering

  /** One entry of the core's answer; `all` is None where the JSON has no member list. */
  datatype RawProxy = RawProxy(
    typ: string, now: string, all: Option<seq<string>>, fixed: string, hidden: bool, history: seq<int>)
  {
    predicate IsGroup() {
      all.Some?
    }

    function LastDelay(): int {
      if history == [] then 0 else history[|history| - 1]
    }
  }

  datatype Node = Node(name: string, typ: string, delay: int)

  datatype Group = Group(name: string, typ: string, now: string, fixed: string, selectable: bool, nodes: seq<Node>)

  type Proxies = map<string, RawProxy>

  const GLOBAL := "GLOBAL"

  const SELECTABLE: seq<string> := ["Selector", "URLTest", "Fallback"]

  /** Go's zero value for a name the answer does not have. */
  const ABSENT := RawProxy("", "", None, "", false, [])

  function Lookup(proxies: Proxies, name: string): RawProxy {
    if name in proxies then proxies[name] else ABSENT
  }

  predicate Visible(proxies: Proxies, name: string) {
    name in proxies && proxies[name].IsGroup() && !proxies[name].hidden
  }

  function Members(p: RawProxy): seq<string> {
    match p.all case None => [] case Some(names) => names
  }

  function NodeOf(proxies: Proxies, name: string): Node {
    var m := Lookup(proxies, name);
    Node(name, m.typ, m.LastDelay())
  }

  function NodesOf(proxies: Proxies, names: seq<string>): seq<Node> {
    seq(|names|, i requires 0 <= i < |names| => NodeOf(proxies, names[i]))
  }

  function GroupOf(proxies: Proxies, name: string): Group {
    var p := Lookup(proxies, name);
    Group(name, p.typ, p.now, p.fixed, p.typ in SELECTABLE, NodesOf(proxies, Members(p)))
  }

  /** GLOBAL's members, then GLOBAL itself; nothing when the core has no GLOBAL. */
  function GlobalOrder(proxies: Proxies): seq<string> {
    if GLOBAL in proxies then Members(proxies[GLOBAL]) + [GLOBAL] else []
  }

  ghost function Unlisted(proxies: Proxies): set<string> {
    set name | name in proxies && proxies[name].IsGroup() && name !in GlobalOrder(proxies)
  }

  ghost function DisplayOrder(proxies: Proxies): seq<string> {
    GlobalOrder(proxies) + SortedKeys(Unlisted(proxies))
  }

  function VisibleNames(proxies: Proxies, names: seq<string>): seq<string> {
    if names == [] then []
    else (if Visible(proxies, names[0]) then [names[0]] else []) + VisibleNames(proxies, names[1..])
  }

  function Groups(proxies: Proxies, names: seq<string>): seq<Group> {
    seq(|names|, i requires 0 <= i < |names| => GroupOf(proxies, names[i]))
  }

  lemma {:induction false} VisibleNamesAppend(proxies: Proxies, a: seq<string>, b: seq<string>)
    ensures VisibleNames(proxies, a + b) == VisibleNames(proxies, a) + VisibleNames(proxies, b)
  {
    if a == [] {
      assert a + b == b;
    } else {
      assert (a + b)[1..] == a[1..] + b;
      VisibleNamesAppend(proxies, a[1..], b);
    }
  }

  lemma {:induction false} VisibleNamesMeans(proxies: Proxies, names: seq<string>)
    ensures forall x :: x in VisibleNames(proxies, names) <==> x in names && Visible(proxies, x)
    ensures NoDuplicates(names) ==> NoDuplicates(VisibleNames(proxies, names))
  {
    if names != [] {
      VisibleNamesMeans(proxies, names[1..]);
      assert names == [names[0]] + names[1..];
      if NoDuplicates(names) {
        assert names[0] !in names[1..];
        assert NoDuplicates(names[1..]);
      }
    }
  }

  /** `for name, p := range resp.Proxies`, in any order. */
  method CollectUnlisted(proxies: Proxies, order: seq<string>) returns (rest: seq<string>)
    requires order == GlobalOrder(proxies)
    ensures NoDuplicates(rest) && Elements(rest) == Unlisted(proxies)
  {
    rest := [];
    var todo := proxies.Keys;
    while todo != {}
      invariant todo <= proxies.Keys
      invariant NoDuplicates(rest) && Elements(rest) == Unlisted(proxies) - todo
      decreases todo
    {
      var name :| name in todo;
      if proxies[name].IsGroup() && name !in order {
        assert name !in Elements(rest);
        assert forall x :: x in rest + [name] <==> x in Elements(rest) || x == name;
        rest := rest + [name];
      }
      todo := todo - {name};
    }
  }

  method List(proxies: Proxies) returns (groups: seq<Group>)
    ensures groups == Groups(proxies, VisibleNames(proxies, DisplayOrder(proxies)))
  {
    var order: seq<string> := [];
    if GLOBAL in proxies {
      order := Members(proxies[GLOBAL]) + [GLOBAL];
    }
    var rest := CollectUnlisted(proxies, order);
    rest := SortKeys(rest);
    order := order + rest;
    groups := ShowGroups(proxies, order);
  }

  method ShowGroups(proxies: Proxies, order: seq<string>) returns (groups: seq<Group>)
    ensures groups == Groups(proxies, VisibleNames(proxies, order))
  {
    groups := [];
    for i := 0 to |order|
      invariant groups == Groups(proxies, VisibleNames(proxies, order[..i]))
    {
      var name := order[i];
      assert order[..i + 1] == order[..i] + [name];
      VisibleNamesAppend(proxies, order[..i], [name]);
      if name !in proxies || !proxies[name].IsGroup() || proxies[name].hidden {
        assert VisibleNames(proxies, [name]) == [];
        continue;
      }
      assert VisibleNames(proxies, [name]) == [name];
      var p := proxies[name];
      var nodes := ShowNodes(proxies, p.all.value);
      groups := groups + [Group(name, p.typ, p.now, p.fixed, p.typ in SELECTABLE, nodes)];
    }
    assert order[..|order|] == order;
  }

  /** The inner loop over a group's members. */
  method ShowNodes(proxies: Proxies, members: seq<string>) returns (nodes: seq<Node>)
    ensures nodes == NodesOf(proxies, members)
  {
    nodes := [];
    for j := 0 to |members|
      invariant nodes == NodesOf(proxies, members)[..j]
    {
      var m := Lookup(proxies, members[j]);
      nodes := nodes + [Node(members[j], m.typ, m.LastDelay())];
    }
  }

  // ---------- what the listing shows ----------

  lemma {:induction false} SortedKeysHaveNoDuplicates(s: set<string>)
    ensures NoDuplicates(SortedKeys(s))
  {
    var keys := SortedKeys(s);
    forall i, j | 0 <= i < j < |keys|
      ensures keys[i] != keys[j]
    {
      KeyOrder(keys[i], keys[j], keys[j]);
    }
  }

  /** Every visible group is listed: first those of GLOBAL, in its order, then the others, sorted. */
  lemma {:induction false} EveryVisibleGroupIsListed(proxies: Proxies)
    ensures VisibleNames(proxies, DisplayOrder(proxies))
         == VisibleNames(proxies, GlobalOrder(proxies)) + VisibleNames(proxies, SortedKeys(Unlisted(proxies)))
    ensures forall x :: x in VisibleNames(proxies, DisplayOrder(proxies)) <==> Visible(proxies, x)
  {
    var sorted := SortedKeys(Unlisted(proxies));
    VisibleNamesAppend(proxies, GlobalOrder(proxies), sorted);
    VisibleNamesMeans(proxies, DisplayOrder(proxies));
    forall x | Visible(proxies, x)
      ensures x in DisplayOrder(proxies)
    {
      if x !in GlobalOrder(proxies) {
        assert x in Elements(sorted);
      }
    }
  }

  lemma {:induction false} DistinctLists(a: seq<string>, b: seq<string>)
    requires NoDuplicates(b) && forall x :: x in a ==> x !in b
    ensures NoDuplicates(a + b) <==> NoDuplicates(a)
  {
    if NoDuplicates(a + b) {
      forall i, j | 0 <= i < j < |a|
        ensures a[i] != a[j]
      {
        assert (a + b)[i] == a[i] && (a + b)[j] == a[j];
      }
    }
    if NoDuplicates(a) {
      forall i, j | 0 <= i < j < |a + b|
        ensures (a + b)[i] != (a + b)[j]
      {
        assert i < |a| ==> (a + b)[i] in a;
        assert j >= |a| ==> (a + b)[j] in b;
      }
    }
  }

  /** What is sorted behind GLOBAL's order is not in it, and distinct. */
  lemma {:induction false} RestIsApart(proxies: Proxies)
    ensures NoDuplicates(VisibleNames(proxies, SortedKeys(Unlisted(proxies))))
    ensures forall x :: x in VisibleNames(proxies, SortedKeys(Unlisted(proxies))) ==> x !in GlobalOrder(proxies)
  {
    var sorted := SortedKeys(Unlisted(proxies));
    SortedKeysHaveNoDuplicates(Unlisted(proxies));
    VisibleNamesMeans(proxies, sorted);
    forall x | x in sorted
      ensures x !in GlobalOrder(proxies)
    {
      assert x in Elements(sorted);
    }
  }

  /** No group is listed twice exactly when GLOBAL's own order repeats no visible group. */
  lemma {:induction false} ListedOnceExactly(proxies: Proxies)
    ensures NoDuplicates(VisibleNames(proxies, DisplayOrder(proxies)))
       <==> NoDuplicates(VisibleNames(proxies, GlobalOrder(proxies)))
  {
    EveryVisibleGroupIsListed(proxies);
    RestIsApart(proxies);
    VisibleNamesMeans(proxies, GlobalOrder(proxies));
    DistinctLists(VisibleNames(proxies, GlobalOrder(proxies)), VisibleNames(proxies, SortedKeys(Unlisted(proxies))));
  }

  /** In particular when GLOBAL names no group twice and not itself. */
  lemma {:induction false} PlainGlobalListsOnce(proxies: Proxies)
    requires GLOBAL in proxies ==>
               NoDuplicates(Members(proxies[GLOBAL])) && GLOBAL !in Members(proxies[GLOBAL])
    ensures NoDuplicates(VisibleNames(proxies, DisplayOrder(proxies)))
  {
    VisibleNamesMeans(proxies, GlobalOrder(proxies));
    ListedOnceExactly(proxies);
  }

  /** For instance: a group that GLOBAL names twice is listed twice. */
  lemma {:induction false} RepeatedMemberIsListedTwice()
    ensures var a := RawProxy("Selector", "", Some([]), "", false, []);
            var proxies := map[GLOBAL := a.(all := Some(["A", "A"])), "A" := a];
            !NoDuplicates(VisibleNames(proxies, DisplayOrder(proxies)))
  {
    var a := RawProxy("Selector", "", Some([]), "", false, []);
    var proxies := map[GLOBAL := a.(all := Some(["A", "A"])), "A" := a];
    assert "A" != GLOBAL by {
      assert |"A"| != |GLOBAL|;
    }
    var order := GlobalOrder(proxies);
    assert order == ["A"] + (["A"] + [GLOBAL]);
    VisibleNamesAppend(proxies, ["A"], ["A"] + [GLOBAL]);
    VisibleNamesAppend(proxies, ["A"], [GLOBAL]);
    assert VisibleNames(proxies, ["A"]) == ["A"];
    var shown := VisibleNames(proxies, order);
    assert shown[0] == shown[1] == "A";
    ListedOnceExactly(proxies);
  }

  // ---------- what is shown of a group ----------

  /** The core's answer about a name: its type and last measured delay, or nothing and 0. */
  ghost predicate ShowsNode(proxies: Proxies, n: Node) {
    if n.name in proxies then
      var m := proxies[n.name];
      n.typ == m.typ && n.delay == if m.history == [] then 0 else m.history[|m.history| - 1]
    else n.typ == "" && n.delay == 0
  }

  /** A shown group is one of the answer's, not hidden, with its own fields and its nodes in member order. */
  ghost predicate ShowsGroup(proxies: Proxies, g: Group) {
    && g.name in proxies
    && var p := proxies[g.name];
    && p.all.Some? && !p.hidden
    && g.typ == p.typ && g.now == p.now && g.fixed == p.fixed
    && (g.selectable <==> p.typ == "Selector" || p.typ == "URLTest" || p.typ == "Fallback")
    && |g.nodes| == |p.all.value|
    && forall j :: 0 <= j < |g.nodes| ==> g.nodes[j].name == p.all.value[j] && ShowsNode(proxies, g.nodes[j])
  }

  lemma {:induction false} VisibleGroupIsShown(proxies: Proxies, name: string)
    requires Visible(proxies, name)
    ensures GroupOf(proxies, name).name == name && ShowsGroup(proxies, GroupOf(proxies, name))
  {
    var types: seq<string> := ["Selector", "URLTest", "Fallback"];
    assert types[0] == "Selector" && types[1] == "URLTest" && types[2] == "Fallback";
  }

  /** Every group of the listing, in the order of its names, is shown as the core answered it. */
  lemma {:induction false} GroupsAreShown(proxies: Proxies, i: nat)
    requires i < |VisibleNames(proxies, DisplayOrder(proxies))|
    ensures var names := VisibleNames(proxies, DisplayOrder(proxies));
            var groups := Groups(proxies, names);
            |groups| == |names| && groups[i].name == names[i] && ShowsGroup(proxies, groups[i])
  {
    VisibleNamesMeans(proxies, DisplayOrder(proxies));
    VisibleGroupIsShown(proxies, VisibleNames(proxies, DisplayOrder(proxies))[i]);
  }

  /** The order is GLOBAL's members, GLOBAL, and the groups it does not list, sorted. */
  lemma {:induction false} OrderByNames(proxies: Proxies)
    ensures "GLOBAL" in proxies ==>
              GlobalOrder(proxies) ==
              (if proxies["GLOBAL"].all.Some? then proxies["GLOBAL"].all.value else []) + ["GLOBAL"]
    ensures "GLOBAL" !in proxies ==> GlobalOrder(proxies) == []
    ensures DisplayOrder(proxies) ==
            GlobalOrder(proxies)
            + SortedKeys(set name | name in proxies && proxies[name].all.Some? && name !in GlobalOrder(proxies))
  {
    assert Unlisted(proxies) == set name | name in proxies && proxies[name].all.Some? && name !in GlobalOrder(proxies);
  }
}
