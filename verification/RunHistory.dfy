/** The store of a running gateway refines its history: what was changed, in which order. */
module RunHistory {
  import opened Wrappers
  import opened Pairings
  import opened Gateway

  function ChangesOf(cfg: Config, s: System, e: Action): seq<Change> {
    match ChangeOf(cfg, s, e)
    case None => []
    case Some(c) => [c]
  }

  /** The changes made to the store in the first i steps of a run. */
  function History(cfg: Config, r: Run, i: nat): seq<Change>
    requires i <= |r.events| <= |r.states|
  {
    if i == 0 then [] else History(cfg, r, i - 1) + ChangesOf(cfg, r.states[i - 1], r.events[i - 1])
  }

  /** A pairing step brings a token that was never issued before. */
  lemma {:induction false} ChangeIsFresh(cfg: Config, s: System, e: Action)
    requires Enabled(cfg, s, e)
    ensures var c := ChangeOf(cfg, s, e);
            c.Some? && c.value.Pair? ==> c.value.token !in s.issued && c.value.token in Next(cfg, s, e).issued
  {
    StepOnStore(cfg, s, e);
  }

  /** One step extends the history by its change. */
  lemma {:induction false} StepExtendsHistory(cfg: Config, s: System, e: Action, h: seq<Change>)
    requires Enabled(cfg, s, e) && Records(h, s.entries, s.issued.Keys)
    ensures Records(h + ChangesOf(cfg, s, e), Next(cfg, s, e).entries, Next(cfg, s, e).issued.Keys)
  {
    StepOnEntries(cfg, s, e);
    StepKeepsIssued(cfg, s, e);
    if ChangeOf(cfg, s, e).None? {
      assert h + [] == h;
    } else {
      ChangeIsFresh(cfg, s, e);
      HistorySnoc(h, ChangeOf(cfg, s, e).value, s.entries, s.issued.Keys, Next(cfg, s, e).issued.Keys);
    }
  }

  lemma {:induction false} RunExtendsHistory(cfg: Config, r: Run, i: nat, h: seq<Change>) returns (g: seq<Change>)
    requires IsRun(cfg, r) && 0 < i < |r.states| && Records(h, r.states[i - 1].entries, r.states[i - 1].issued.Keys)
    ensures g == h + ChangesOf(cfg, r.states[i - 1], r.events[i - 1])
    ensures Records(g, r.states[i].entries, r.states[i].issued.Keys)
  {
    var s, e := RunStep(cfg, r, i);
    StepExtendsHistory(cfg, s, e, h);
    g := h + ChangesOf(cfg, s, e);
  }

  lemma {:induction false} RunRecords(cfg: Config, r: Run, i: nat) returns (h: seq<Change>)
    requires IsRun(cfg, r) && i < |r.states|
    ensures h == History(cfg, r, i)
    ensures Records(h, r.states[i].entries, r.states[i].issued.Keys)
  {
    if i == 0 {
      h := [];
    } else {
      h := RunRecords(cfg, r, i - 1);
      h := RunExtendsHistory(cfg, r, i, h);
    }
  }

  lemma {:induction false} RunReplaysItsHistory(cfg: Config, r: Run, i: nat)
    requires IsRun(cfg, r) && i < |r.states|
    ensures r.states[i].entries == Replay(History(cfg, r, i))
    ensures FreshTokens(History(cfg, r, i)) && TokensIn(History(cfg, r, i), r.states[i].issued.Keys)
  {
    var _ := RunRecords(cfg, r, i);
  }

  /**
    In every interleaving: a token authenticates as a device exactly when the latest pairing or
    revocation of that device is the pairing that issued the token.
   */
  lemma {:induction false} LatestPairingDecides(cfg: Config, r: Run, i: nat, token: string, device: string)
    requires IsRun(cfg, r) && i < |r.states|
    ensures var h, found := History(cfg, r, i), Authenticated(r.states[i].entries, token);
            found.Some? && found.value.deviceID == device <==>
            InForce(h, device).Some? && h[InForce(h, device).value].token == token
  {
    RunReplaysItsHistory(cfg, r, i);
    AuthenticationFollowsTheHistory(History(cfg, r, i), token, device);
  }
}
