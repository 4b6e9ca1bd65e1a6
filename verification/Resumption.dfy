/**
  Every run starts from an empty store. That leaves nothing out: a gateway that is opened on a
  saved file is in a state some run reaches.
 */
module Resumption {
  import opened Wrappers
  import opened Pairings
  import opened Gateway
  import Pins

  /** No request, pairing or stream, and no PIN: an agent that has just been started. */
  function Quiet(entries: Entries, issued: map<string, string>): System {
    System(entries, issued, Pins.NO_PIN, map[], map[], map[])
  }

  /** Add one entry to a quiet state: pair the device and, if need be, confirm it. */
  lemma {:induction false} PairStep(cfg: Config, r: Run, entry: Entry) returns (q: Run)
    requires IsRun(cfg, r) && Last(r) == Quiet(Last(r).entries, Last(r).issued)
    requires entry.tokenHash.preimage !in Last(r).issued
    ensures IsRun(cfg, q)
    ensures Last(q) == Quiet(Last(r).entries[entry.deviceID := entry],
                             Last(r).issued[entry.tokenHash.preimage := entry.deviceID])
  {
    var device := entry.deviceID;
    q := OneMoreStep(cfg, r, AdminPair(device, entry.name, entry.tokenHash.preimage, entry.pairedAt));
    assert Last(q).entries[device] == entry.(confirmed := false);
    if entry.confirmed {
      q := OneMoreStep(cfg, q, AdminConfirm(device));
      assert Last(r).entries[device := entry.(confirmed := false)][device := entry] == Last(r).entries[device := entry];
    }
  }

  /** Issue a token and revoke it. */
  lemma {:induction false} SpentTokenStep(cfg: Config, r: Run, token: string, device: string) returns (q: Run)
    requires IsRun(cfg, r) && Last(r) == Quiet(map[], Last(r).issued) && token !in Last(r).issued
    ensures IsRun(cfg, q) && Last(q) == Quiet(map[], Last(r).issued[token := device])
  {
    q := OneMoreStep(cfg, r, AdminPair(device, "", token, 0));
    q := OneMoreStep(cfg, q, AdminRevoke(device));
    assert Revoked(Paired(map[], device, "", token, 0), device) == map[];
  }

  lemma {:induction false} WithoutEntry(entries: Entries, issued: map<string, string>, device: string)
    requires EntriesBound(Quiet(entries, issued)) && device in entries
    ensures var token := entries[device].tokenHash.preimage;
            && token in issued && issued[token] == device
            && EntriesBound(Quiet(entries - {device}, issued - {token}))
            && (entries - {device})[device := entries[device]] == entries
            && (issued - {token})[token := device] == issued
            && |issued - {token}| < |issued|
  {
    var token := entries[device].tokenHash.preimage;
    forall d | d in entries - {device}
      ensures entries[d].tokenHash.preimage != token
    {
      assert issued[entries[d].tokenHash.preimage] == d;
    }
    FewerKeys(issued, token);
  }

  lemma {:induction false} FewerKeys(issued: map<string, string>, token: string)
    requires token in issued
    ensures |issued - {token}| < |issued|
  {
    var less := issued - {token};
    assert issued.Keys == less.Keys + {token};
    assert |issued.Keys| == |issued| && |less.Keys| == |less|;
  }

  lemma {:induction false} Reach(cfg: Config, entries: Entries, issued: map<string, string>) returns (r: Run)
    requires EntriesBound(Quiet(entries, issued))
    ensures IsRun(cfg, r) && Last(r) == Quiet(entries, issued)
    decreases |issued|
  {
    if device :| device in entries {
      var token := entries[device].tokenHash.preimage;
      WithoutEntry(entries, issued, device);
      r := Reach(cfg, entries - {device}, issued - {token});
      r := PairStep(cfg, r, entries[device]);
    } else if token :| token in issued {
      assert entries == map[];
      FewerKeys(issued, token);
      r := Reach(cfg, map[], issued - {token});
      r := SpentTokenStep(cfg, r, token, issued[token]);
      assert (issued - {token})[token := issued[token]] == issued;
    } else {
      assert entries == map[] && issued == map[];
      r := EmptyRun(cfg);
    }
  }

  ghost predicate Reachable(cfg: Config, s: System) {
    exists r :: IsRun(cfg, r) && Last(r) == s
  }

  /** A quiet state is reachable iff every entry holds a token issued to its own device. */
  lemma {:induction false} ReachableExactly(cfg: Config, entries: Entries, issued: map<string, string>)
    ensures Reachable(cfg, Quiet(entries, issued)) <==> EntriesBound(Quiet(entries, issued))
  {
    if EntriesBound(Quiet(entries, issued)) {
      var r := Reach(cfg, entries, issued);
    }
    if Reachable(cfg, Quiet(entries, issued)) {
      var r :| IsRun(cfg, r) && Last(r) == Quiet(entries, issued);
      RunKeepsTokensBound(cfg, r, |r.states| - 1);
    }
  }

  /** The tokens behind the entries, each with its device. */
  ghost function DevicesByToken(entries: Entries): map<string, string>
    requires DistinctHashes(entries)
  {
    map d | d in entries :: entries[d].tokenHash.preimage := d
  }

  /** A saved store with its keys in order and no hash twice can be gone on from. */
  lemma {:induction false} SavedStoreIsReachable(cfg: Config, entries: Entries)
    requires Keyed(entries) && DistinctHashes(entries)
    ensures Reachable(cfg, Quiet(entries, DevicesByToken(entries)))
  {
    ReachableExactly(cfg, entries, DevicesByToken(entries));
  }
}
