/**
  A store and its file over many calls, failed writes and restarts: what is in memory, what
  the file loads to, and which tokens a store opened on it accepts.
 */
module StoreRuns {
  import opened Wrappers
  import opened Pairings

  /** The entries in memory and those the file loads to. */
  datatype Stored = Stored(entries: Entries, saved: Entries)

  /** A change whose write would succeed or fail, or the store opened again on its file. */
  datatype Call = Do(change: Change, writable: bool) | Restart

  /** Pair always writes the file; Revoke and Confirm do when the device is known. */
  predicate Persists(entries: Entries, c: Change) {
    c.Pair? || c.device in entries
  }

  function AfterCall(s: Stored, call: Call): Stored {
    match call
    case Do(c, writable) =>
      var entries := After(s.entries, c);
      Stored(entries, if Persists(s.entries, c) && writable then entries else s.saved)
    case Restart => Stored(s.saved, s.saved)
  }

  /** From a store without a file. */
  function AfterCalls(calls: seq<Call>): Stored {
    if calls == [] then Stored(map[], map[]) else AfterCall(AfterCalls(calls[..|calls| - 1]), calls[|calls| - 1])
  }

  // ---------- read off the calls ----------

  /** The number of calls up to and including the last that wrote the file. */
  function LastWrite(calls: seq<Call>): (n: nat)
    ensures n <= |calls|
  {
    if calls == [] then 0
    else
      var init, last := calls[..|calls| - 1], calls[|calls| - 1];
      if last.Do? && last.writable && Persists(AfterCalls(init).entries, last.change) then |calls| else LastWrite(init)
  }

  /** The changes in memory: a restart forgets those since the last write. */
  function Remembered(calls: seq<Call>): seq<Change>
    decreases |calls|
  {
    if calls == [] then []
    else
      var init, last := calls[..|calls| - 1], calls[|calls| - 1];
      match last
      case Do(c, _) => Remembered(init) + [c]
      case Restart => Remembered(init[..LastWrite(init)])
  }

  /** The changes in the file. */
  function Written(calls: seq<Call>): seq<Change> {
    Remembered(calls[..LastWrite(calls)])
  }

  /** The tokens NewToken has returned. */
  function Tokens(calls: seq<Call>): set<string> {
    if calls == [] then {}
    else
      var last := calls[|calls| - 1];
      Tokens(calls[..|calls| - 1]) + if last.Do? && last.change.Pair? then {last.change.token} else {}
  }

  /** NewToken never repeats itself, in one process or another. */
  ghost predicate FreshCalls(calls: seq<Call>) {
    forall i :: 0 <= i < |calls| && calls[i].Do? && calls[i].change.Pair? ==> calls[i].change.token !in Tokens(calls[..i])
  }

  // ---------- memory and file are replays ----------

  lemma {:induction false} UpToLastWrite(calls: seq<Call>)
    requires calls != []
    ensures var init := calls[..|calls| - 1];
            calls[..LastWrite(calls)] == if LastWrite(calls) == |calls| then calls else init[..LastWrite(init)]
  {
  }

  /** The file holds what was in memory at the last write. */
  lemma {:induction false} FileIsAsLastWritten(calls: seq<Call>)
    ensures AfterCalls(calls).saved == AfterCalls(calls[..LastWrite(calls)]).entries
  {
    if calls != [] {
      FileIsAsLastWritten(calls[..|calls| - 1]);
      UpToLastWrite(calls);
    }
  }

  /** Memory is the replay of what is remembered, the file the replay of what was written. */
  lemma {:induction false} StoreReplaysItsCalls(calls: seq<Call>)
    ensures AfterCalls(calls) == Stored(Replay(Remembered(calls)), Replay(Written(calls)))
    decreases |calls|
  {
    MemoryReplays(calls);
    FileIsAsLastWritten(calls);
    MemoryReplays(calls[..LastWrite(calls)]);
  }

  lemma {:induction false} MemoryReplays(calls: seq<Call>)
    ensures AfterCalls(calls).entries == Replay(Remembered(calls))
    decreases |calls|
  {
    if calls != [] {
      var init, last := calls[..|calls| - 1], calls[|calls| - 1];
      if last.Do? {
        MemoryReplays(init);
        ReplaySnoc(Remembered(init), last.change);
      } else {
        FileIsAsLastWritten(init);
        MemoryReplays(init[..LastWrite(init)]);
      }
    }
  }

  lemma {:induction false} FreshPrefix(calls: seq<Call>, n: nat)
    requires FreshCalls(calls) && n <= |calls|
    ensures FreshCalls(calls[..n])
  {
    forall i | 0 <= i < n
      ensures calls[..n][..i] == calls[..i]
    {
    }
  }

  lemma {:induction false} TokensGrow(calls: seq<Call>, n: nat)
    requires n <= |calls|
    ensures Tokens(calls[..n]) <= Tokens(calls)
  {
    if n < |calls| {
      TokensGrow(calls[..|calls| - 1], n);
      assert calls[..|calls| - 1][..n] == calls[..n];
    } else {
      assert calls[..n] == calls;
    }
  }

  lemma {:induction false} RememberedIsFresh(calls: seq<Call>)
    requires FreshCalls(calls)
    ensures FreshTokens(Remembered(calls)) && TokensIn(Remembered(calls), Tokens(calls))
    decreases |calls|
  {
    if calls != [] {
      var init, last := calls[..|calls| - 1], calls[|calls| - 1];
      FreshPrefix(calls, |calls| - 1);
      if last.Do? {
        RememberedIsFresh(init);
        FreshTokensSnoc(Remembered(init), last.change, Tokens(init));
      } else {
        FreshPrefix(init, LastWrite(init));
        RememberedIsFresh(init[..LastWrite(init)]);
        TokensGrow(init, LastWrite(init));
      }
    }
  }

  /** The file always holds a store with its keys in order and no hash twice. */
  lemma {:induction false} FileIsSound(calls: seq<Call>)
    requires FreshCalls(calls)
    ensures Keyed(AfterCalls(calls).saved) && DistinctHashes(AfterCalls(calls).saved)
  {
    StoreReplaysItsCalls(calls);
    FreshPrefix(calls, LastWrite(calls));
    RememberedIsFresh(calls[..LastWrite(calls)]);
    HistoriesKeepHashesDistinct(Written(calls));
  }

  // ---------- what a store opened on the file accepts ----------

  /**
    After any calls, failed writes and restarts: a store opened on the file accepts a token for a
    device iff the pairing in force for the device at the last write issued it.
   */
  lemma {:induction false} ReopenedStoreAccepts(calls: seq<Call>, token: string, device: string)
    requires FreshCalls(calls)
    ensures var found := Authenticated(AfterCalls(calls + [Restart]).entries, token);
            found.Some? && found.value.deviceID == device <==>
            var h := Written(calls); InForce(h, device).Some? && h[InForce(h, device).value].token == token
  {
    assert (calls + [Restart])[..|calls|] == calls;
    StoreReplaysItsCalls(calls);
    FreshPrefix(calls, LastWrite(calls));
    RememberedIsFresh(calls[..LastWrite(calls)]);
    AuthenticationFollowsTheHistory(Written(calls), token, device);
  }

  /** So does the store in memory, for what it remembers. */
  lemma {:induction false} RunningStoreAccepts(calls: seq<Call>, token: string, device: string)
    requires FreshCalls(calls)
    ensures var found := Authenticated(AfterCalls(calls).entries, token);
            found.Some? && found.value.deviceID == device <==>
            var h := Remembered(calls); InForce(h, device).Some? && h[InForce(h, device).value].token == token
  {
    MemoryReplays(calls);
    RememberedIsFresh(calls);
    AuthenticationFollowsTheHistory(Remembered(calls), token, device);
  }

  // ---------- without failed writes ----------

  ghost predicate NoWriteFails(calls: seq<Call>) {
    forall i :: 0 <= i < |calls| && calls[i].Do? ==> calls[i].writable
  }

  /** A restart then changes nothing. */
  lemma {:induction false} FileIsInSync(calls: seq<Call>)
    requires NoWriteFails(calls)
    ensures AfterCalls(calls).saved == AfterCalls(calls).entries
  {
    if calls != [] {
      var init, last := calls[..|calls| - 1], calls[|calls| - 1];
      FileIsInSync(init);
      if last.Do? && !Persists(AfterCalls(init).entries, last.change) {
        assert After(AfterCalls(init).entries, last.change) == AfterCalls(init).entries;
      }
    }
  }

  ghost predicate Refused(s: Stored, token: string) {
    forall d :: !Matches(s.entries, token, d)
  }

  lemma {:induction false} RefusedAfterCall(s: Stored, call: Call, token: string)
    requires Refused(s, token) && (call.Restart? ==> s.saved == s.entries)
    requires call.Do? && call.change.Pair? ==> call.change.token != token
    ensures Refused(AfterCall(s, call), token)
  {
    forall d
      ensures !Matches(AfterCall(s, call).entries, token, d)
    {
      assert !Matches(s.entries, token, d);
    }
  }

  /** And a token that once stopped being accepted never is again, restarts included. */
  lemma {:induction false} DeadAcrossRestarts(calls: seq<Call>, n: nat, token: string)
    requires NoWriteFails(calls) && FreshCalls(calls) && n <= |calls|
    requires token in Tokens(calls[..n]) && Authenticated(AfterCalls(calls[..n]).entries, token).None?
    ensures Authenticated(AfterCalls(calls).entries, token).None?
    decreases |calls|
  {
    if n == |calls| {
      assert calls[..n] == calls;
    } else {
      var init, last := calls[..|calls| - 1], calls[|calls| - 1];
      assert init[..n] == calls[..n];
      FreshPrefix(calls, |calls| - 1);
      DeadAcrossRestarts(init, n, token);
      FileIsInSync(init);
      TokensGrow(init, n);
      RefusedAfterCall(AfterCalls(init), last, token);
    }
  }

  // ---------- with one ----------

  /** The unpairing that could not be written: the token is dead, and accepted again after a restart. */
  function FailedUnpair(): seq<Call> {
    [Do(Pair("d", "", "t", 0), true), Do(Revoke("d"), false)]
  }

  lemma {:induction false} DeadTokenComesBack()
    ensures FreshCalls(FailedUnpair())
    ensures Authenticated(AfterCalls(FailedUnpair()).entries, "t").None?
    ensures Authenticated(AfterCalls(FailedUnpair() + [Restart]).entries, "t") == Some(Entry("d", "", Sha256("t"), 0, false))
  {
    var calls := FailedUnpair();
    var paired: Entries := map["d" := Entry("d", "", Sha256("t"), 0, false)];
    assert calls[..1] == [calls[0]] && calls[..0] == [] && calls[..1][..0] == [];
    assert AfterCalls(calls[..1]) == Stored(paired, paired);
    assert paired - {"d"} == map[];
    assert AfterCalls(calls) == Stored(map[], paired);
    assert (calls + [Restart])[..2] == calls;
    assert Matches(paired, "t", "d");
  }
}
