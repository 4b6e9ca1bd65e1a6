/**
  The pairing store as a value: what go/pairing/store.go makes of its entries map. Two
  assumptions are explicit: SHA-256 is taken to be injective (`Sha256` is a constructor)
  and a new token differs from every token issued before (`FreshTokens`).
 */
module Pairings {
  import opened Wrappers

  datatype Hash = Sha256(preimage: string)

  function HashToken(token: string): Hash {
    Sha256(token)
  }

  datatype Entry = Entry(deviceID: string, name: string, tokenHash: Hash, pairedAt: int, confirmed: bool)

  type Entries = map<string, Entry>

  function Paired(entries: Entries, device: string, name: string, token: string, now: int): Entries {
    entries[device := Entry(device, name, HashToken(token), now, false)]
  }

  function Revoked(entries: Entries, device: string): Entries {
    entries - {device}
  }

  function Confirmed(entries: Entries, device: string): Entries {
    if device in entries then entries[device := entries[device].(confirmed := true)] else entries
  }

  ghost predicate Matches(entries: Entries, token: string, device: string) {
    device in entries && entries[device].tokenHash == HashToken(token)
  }

  /** The entry a presented token selects. */
  ghost function Authenticated(entries: Entries, token: string): (r: Option<Entry>)
    ensures r.None? <==> forall d :: !Matches(entries, token, d)
    ensures r.Some? ==> exists d :: Matches(entries, token, d) && r.value == entries[d]
  {
    if d :| Matches(entries, token, d) then Some(entries[d]) else None
  }

  ghost predicate Keyed(entries: Entries) {
    forall d :: d in entries ==> entries[d].deviceID == d
  }

  ghost predicate DistinctHashes(entries: Entries) {
    forall d, e :: d in entries && e in entries && entries[d].tokenHash == entries[e].tokenHash ==> d == e
  }

  /** The tokens behind the entries. */
  ghost function TokensOf(entries: Entries): set<string> {
    set d | d in entries :: entries[d].tokenHash.preimage
  }

  /** With distinct hashes it is immaterial in which order the entries are compared. */
  lemma {:induction false} TheMatch(entries: Entries, token: string, device: string)
    requires DistinctHashes(entries)
    ensures Matches(entries, token, device) <==>
            && device in entries && entries[device].tokenHash == HashToken(token)
            && Authenticated(entries, token) == Some(entries[device])
  {
  }

  // ---------- histories ----------

  datatype Change =
    | Pair(device: string, name: string, token: string, time: int)
    | Revoke(device: string)
    | Confirm(device: string)

  function After(entries: Entries, c: Change): Entries {
    match c
    case Pair(device, name, token, time) => Paired(entries, device, name, token, time)
    case Revoke(device) => Revoked(entries, device)
    case Confirm(device) => Confirmed(entries, device)
  }

  /** The entries after a history, from an empty store. */
  function Replay(h: seq<Change>): Entries {
    if h == [] then map[] else After(Replay(h[..|h| - 1]), h[|h| - 1])
  }

  /** NewToken never repeats itself. */
  ghost predicate FreshTokens(h: seq<Change>) {
    forall i, j :: 0 <= i < j < |h| && h[i].Pair? && h[j].Pair? ==> h[i].token != h[j].token
  }

  /** The tokens of a history are among those issued. */
  ghost predicate TokensIn(h: seq<Change>, issued: set<string>) {
    forall i :: 0 <= i < |h| && h[i].Pair? ==> h[i].token in issued
  }

  lemma {:induction false} ReplaySnoc(h: seq<Change>, c: Change)
    ensures Replay(h + [c]) == After(Replay(h), c)
  {
    assert (h + [c])[..|h|] == h;
  }

  lemma {:induction false} FreshTokensSnoc(h: seq<Change>, c: Change, issued: set<string>)
    requires FreshTokens(h) && TokensIn(h, issued) && (c.Pair? ==> c.token !in issued)
    ensures FreshTokens(h + [c])
    ensures TokensIn(h + [c], issued + if c.Pair? then {c.token} else {})
  {
    assert forall i :: 0 <= i < |h| ==> (h + [c])[i] == h[i];
  }

  /** The entries are the replay of the history, whose tokens are fresh and all issued. */
  ghost predicate Records(h: seq<Change>, entries: Entries, issued: set<string>) {
    entries == Replay(h) && FreshTokens(h) && TokensIn(h, issued)
  }

  lemma {:induction false} HistorySnoc(h: seq<Change>, c: Change, entries: Entries, issued: set<string>, more: set<string>)
    requires Records(h, entries, issued) && issued <= more
    requires c.Pair? ==> c.token !in issued && c.token in more
    ensures Records(h + [c], After(entries, c), more)
  {
    ReplaySnoc(h, c);
    FreshTokensSnoc(h, c, issued);
  }

  /** The position of the pairing in force for a device: its latest Pair, unless a Revoke came after. */
  function InForce(h: seq<Change>, device: string): (r: Option<nat>)
    ensures r.Some? ==> r.value < |h| && h[r.value].Pair? && h[r.value].device == device
  {
    if h == [] then None
    else
      var last := h[|h| - 1];
      if last.device != device || last.Confirm? then InForce(h[..|h| - 1], device)
      else if last.Revoke? then None
      else Some(|h| - 1)
  }

  /** A confirmation of the device after position i. */
  ghost predicate ConfirmedAfter(h: seq<Change>, device: string, i: nat) {
    exists j :: i < j < |h| && h[j] == Confirm(device)
  }

  /** Each device's entry tells its latest pairing and whether that was confirmed. */
  lemma {:induction false} EntriesTellTheHistory(h: seq<Change>, device: string)
    ensures device in Replay(h) <==> InForce(h, device).Some?
    ensures device in Replay(h) ==>
              var i := InForce(h, device).value;
              Replay(h)[device] ==
              Entry(device, h[i].name, HashToken(h[i].token), h[i].time, ConfirmedAfter(h, device, i))
  {
    if h != [] {
      var g := h[..|h| - 1];
      EntriesTellTheHistory(g, device);
      if InForce(h, device).Some? {
        var i := InForce(h, device).value;
        if i < |g| {
          assert ConfirmedAfter(h, device, i) <==> ConfirmedAfter(g, device, i) || h[|h| - 1] == Confirm(device) by {
            if ConfirmedAfter(g, device, i) {
              var j :| i < j < |g| && g[j] == Confirm(device);
              assert h[j] == Confirm(device);
            }
            if h[|h| - 1] == Confirm(device) {
              assert i < |h| - 1;
            }
            if ConfirmedAfter(h, device, i) {
              var j :| i < j < |h| && h[j] == Confirm(device);
              assert j < |g| ==> g[j] == Confirm(device);
            }
          }
        }
      }
    }
  }

  lemma {:induction false} HistoriesKeepHashesDistinct(h: seq<Change>)
    requires FreshTokens(h)
    ensures Keyed(Replay(h)) && DistinctHashes(Replay(h))
  {
    var entries := Replay(h);
    forall d | d in entries
      ensures entries[d].deviceID == d
    {
      EntriesTellTheHistory(h, d);
    }
    forall d, e | d in entries && e in entries && entries[d].tokenHash == entries[e].tokenHash
      ensures d == e
    {
      EntriesTellTheHistory(h, d);
      EntriesTellTheHistory(h, e);
      assert h[InForce(h, d).value].token == h[InForce(h, e).value].token;
    }
  }

  /** A token authenticates as a device iff the pairing in force for that device issued it. */
  lemma {:induction false} AuthenticationFollowsTheHistory(h: seq<Change>, token: string, device: string)
    requires FreshTokens(h)
    ensures Authenticated(Replay(h), token).Some? && Authenticated(Replay(h), token).value.deviceID == device <==>
            InForce(h, device).Some? && h[InForce(h, device).value].token == token
  {
    HistoriesKeepHashesDistinct(h);
    EntriesTellTheHistory(h, device);
    if InForce(h, device).Some? && h[InForce(h, device).value].token == token {
      assert Matches(Replay(h), token, device);
    }
  }

  /** A change to one device leaves alone what every other device's token is answered. */
  lemma {:induction false} ChangesAreLocal(h: seq<Change>, c: Change, token: string)
    requires FreshTokens(h + [c])
    requires c.Pair? ==> c.token != token
    requires Authenticated(Replay(h), token).Some? ==> Authenticated(Replay(h), token).value.deviceID != c.device
    ensures Authenticated(Replay(h + [c]), token) == Authenticated(Replay(h), token)
  {
    var before, after := Replay(h), Replay(h + [c]);
    assert (h + [c])[..|h|] == h;
    assert after == After(before, c);
    assert FreshTokens(h) by {
      assert forall i :: 0 <= i < |h| ==> (h + [c])[i] == h[i];
    }
    HistoriesKeepHashesDistinct(h);
    HistoriesKeepHashesDistinct(h + [c]);
    forall d
      ensures Matches(after, token, d) <==> Matches(before, token, d)
      ensures Matches(before, token, d) ==> d != c.device
    {
      TheMatch(before, token, d);
    }
    if d :| Matches(before, token, d) {
      TheMatch(before, token, d);
      TheMatch(after, token, d);
    }
  }

  // ---------- the file ----------

  /** OpenStore: a later entry for the same device replaces an earlier one. */
  function Load(list: seq<Entry>): Entries {
    if list == [] then map[] else Load(list[..|list| - 1])[list[|list| - 1].deviceID := list[|list| - 1]]
  }

  lemma {:induction false} LoadIsKeyed(list: seq<Entry>)
    ensures Keyed(Load(list))
  {
    if list != [] {
      LoadIsKeyed(list[..|list| - 1]);
    }
  }

  /** The list holds the values of the map, each once, in any order. */
  ghost predicate Lists(list: seq<Entry>, entries: Entries) {
    && |list| == |entries|
    && (forall i :: 0 <= i < |list| ==> list[i].deviceID in entries && entries[list[i].deviceID] == list[i])
    && (forall d :: d in entries ==> entries[d] in list)
  }

  lemma {:induction false} LoadKeepsEntries(list: seq<Entry>, entries: Entries)
    requires forall i :: 0 <= i < |list| ==> list[i].deviceID in entries && entries[list[i].deviceID] == list[i]
    ensures forall d :: d in Load(list) <==> d in entries && entries[d] in list && entries[d].deviceID == d
    ensures forall d :: d in Load(list) ==> Load(list)[d] == entries[d]
  {
    if list != [] {
      var init, last := list[..|list| - 1], list[|list| - 1];
      LoadKeepsEntries(init, entries);
      assert list == init + [last];
    }
  }

  /** Whatever order the entries were written in, loading them rebuilds the map. */
  lemma {:induction false} LoadRebuildsTheMap(list: seq<Entry>, entries: Entries)
    requires Keyed(entries) && Lists(list, entries)
    ensures Load(list) == entries
  {
    LoadKeepsEntries(list, entries);
  }
}
