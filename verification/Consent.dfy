/**
  PROTOCOL.md sections 6.4 and 6.5: the PIN flow always prompts, and so does a first connection
  where the agent asks for it. The code takes a missing Confirmer for a yes; when a yes was
  really given.
 */
module Consent {
  import opened Wrappers
  import opened Pairings
  import opened Gateway
  import opened Admission
  import opened PinRuns
  import opened Revocation
  import opened Scenarios
  import Pins

  // ---------- PIN pairing ----------

  ghost predicate PairingAnsweredYes(r: Run, i: nat, id: nat) {
    exists d :: 0 <= d < i && d < |r.events| && r.events[d] == DecidePairing(id, true)
  }

  /** In every run each token of POST /v1/pair follows a yes to its own request. */
  ghost predicate TokensNeedAYes(cfg: Config) {
    forall r: Run, i: nat :: IsRun(cfg, r) && i < |r.events| && r.events[i].IssueToken? ==>
                               PairingAnsweredYes(r, i, r.events[i].id)
  }

  lemma {:induction false} NoAttemptsNoPin(cfg: Config, r: Run, g: nat)
    requires IsRun(cfg, r) && g < |r.events| && RightPin(cfg, r.states[g], r.events[g])
    ensures cfg.pins.maxAttempts > 0
  {
    PinFollowsItsCalls(cfg, r, g);
    Pins.ComparisonsAreLimited(cfg.pins, PinCalls(r.events[..g]));
  }

  /** Without a Confirmer: the right PIN is enough, whatever the answer would have been. */
  lemma {:induction false} TokenWithoutAYes(cfg: Config) returns (r: Run)
    requires !cfg.hasConfirmer && cfg.pins.maxAttempts > 0
    ensures IsRun(cfg, r)
    ensures r.events == [MakePin(0, 0), GuessPin(1, "000000", "d", "", cfg.pins.ttl), DecidePairing(1, false),
                         IssueToken(1, "t", 0, true)]
  {
    FirstPin();
    r := EmptyRun(cfg);
    r := OneMoreStep(cfg, r, MakePin(0, 0));
    r := OneMoreStep(cfg, r, GuessPin(1, "000000", "d", "", cfg.pins.ttl));
    r := OneMoreStep(cfg, r, DecidePairing(1, false));
    r := OneMoreStep(cfg, r, IssueToken(1, "t", 0, true));
  }

  /** The PIN flow always prompts: exactly with a Confirmer, or where no PIN is ever accepted. */
  lemma {:induction false} TokensNeedAYesExactly(cfg: Config)
    ensures TokensNeedAYes(cfg) <==> cfg.hasConfirmer || cfg.pins.maxAttempts <= 0
  {
    if cfg.hasConfirmer || cfg.pins.maxAttempts <= 0 {
      forall r: Run, i: nat | IsRun(cfg, r) && i < |r.events| && r.events[i].IssueToken?
        ensures PairingAnsweredYes(r, i, r.events[i].id)
      {
        var g, d := TokensAreEarned(cfg, r, i);
        NoAttemptsNoPin(cfg, r, g);
        assert r.events[d] == DecidePairing(r.events[i].id, true);
      }
    } else {
      var r := TokenWithoutAYes(cfg);
      assert r.events[3].IssueToken? && !PairingAnsweredYes(r, 3, 1);
    }
  }

  // ---------- first connection ----------

  ghost predicate CallAnsweredYes(r: Run, i: nat, id: nat) {
    exists b :: 0 <= b < i && b < |r.events| && r.events[b] == Decide(id, true)
  }

  /** The request came with an unconfirmed entry to an endpoint that needs a confirmed one, and got past the wrapper. */
  predicate PassedUnconfirmed(cfg: Config, s: System, id: nat) {
    && id in s.calls && PastTheWrapper(s.calls[id].phase)
    && NeedsConfirmation(cfg, s.calls[id].endpoint) && !s.calls[id].entry.confirmed
  }

  /** In every run such a request was answered yes. */
  ghost predicate PassingNeedsAYes(cfg: Config) {
    forall r: Run, i: nat, id: nat :: IsRun(cfg, r) && i < |r.states| && PassedUnconfirmed(cfg, r.states[i], id) ==>
                                        CallAnsweredYes(r, i, id)
  }

  /** Without a Confirmer every device is let in unasked, and marked as confirmed. */
  lemma {:induction false} PassedWithoutAYes(cfg: Config) returns (r: Run)
    requires cfg.requireConfirm && !cfg.hasConfirmer
    ensures IsRun(cfg, r)
    ensures r.events == [AdminPair("d", "", "t", 0), Arrive(1, OtherEndpoint, "t"), Decide(1, false)]
    ensures PassedUnconfirmed(cfg, Last(r), 1)
    ensures Last(r).entries == map["d" := TV.(confirmed := true)]
  {
    r := EmptyRun(cfg);
    r := OneMoreStep(cfg, r, AdminPair("d", "", "t", 0));
    assert Matches(Last(r).entries, "t", "d");
    r := OneMoreStep(cfg, r, Arrive(1, OtherEndpoint, "t"));
    r := OneMoreStep(cfg, r, Decide(1, false));
  }

  /** Where confirmation is required an unconfirmed device gets past only by a yes: exactly with a Confirmer. */
  lemma {:induction false} PassingNeedsAYesExactly(cfg: Config)
    ensures PassingNeedsAYes(cfg) <==> cfg.hasConfirmer || !cfg.requireConfirm
  {
    if cfg.hasConfirmer || !cfg.requireConfirm {
      forall r: Run, i: nat, id: nat | IsRun(cfg, r) && i < |r.states| && PassedUnconfirmed(cfg, r.states[i], id)
        ensures CallAnsweredYes(r, i, id)
      {
        var b := WaiterWasConfirmed(cfg, r, i, id);
        assert r.events[b] == Decide(id, true);
      }
    } else {
      var r := PassedWithoutAYes(cfg);
      assert PassedUnconfirmed(cfg, r.states[3], 1) && !CallAnsweredYes(r, 3, 1);
    }
  }

  // ---------- which pairing was confirmed ----------

  /** The step p made the pairing the device still has after step j - 1. */
  ghost predicate PairedAt(r: Run, p: nat, j: nat, device: string)
    requires p < j <= |r.events| < |r.states|
  {
    PairsAgain(r.states[p], r.events[p], device)
    && forall k :: p < k < j ==> !EndsPairing(r.states[k], r.events[k], device)
  }

  lemma {:induction false} PairedAfterStep(cfg: Config, s: System, e: Action, device: string)
    requires Enabled(cfg, s, e) && device in Next(cfg, s, e).entries
    ensures PairsAgain(s, e, device) || (device in s.entries && !EndsPairing(s, e, device))
  {
    StepOnStore(cfg, s, e);
  }

  lemma {:induction false} PairingInForce(cfg: Config, r: Run, j: nat, device: string) returns (p: nat)
    requires IsRun(cfg, r) && j < |r.states| && device in r.states[j].entries
    ensures p < j && PairedAt(r, p, j, device)
  {
    var s, e := RunStep(cfg, r, j);
    PairedAfterStep(cfg, s, e, device);
    if PairsAgain(s, e, device) {
      p := j - 1;
    } else {
      p := PairingInForce(cfg, r, j - 1, device);
    }
  }

  lemma {:induction false} ConfirmedAfterStep(cfg: Config, s: System, e: Action, device: string)
    requires Enabled(cfg, s, e) && device in Next(cfg, s, e).entries && Next(cfg, s, e).entries[device].confirmed
    ensures device in s.entries && !EndsPairing(s, e, device)
    ensures s.entries[device].confirmed || Confirms(cfg, s, e, device)
  {
    StepOnStore(cfg, s, e);
  }

  /** A confirmed entry was confirmed after the pairing in force was made. */
  lemma {:induction false} ConfirmedSincePaired(cfg: Config, r: Run, j: nat, device: string) returns (p: nat, c: nat)
    requires IsRun(cfg, r) && j < |r.states| && device in r.states[j].entries && r.states[j].entries[device].confirmed
    ensures p < c < j && PairedAt(r, p, j, device) && Confirms(cfg, r.states[c], r.events[c], device)
  {
    var s, e := RunStep(cfg, r, j);
    ConfirmedAfterStep(cfg, s, e, device);
    if s.entries[device].confirmed {
      p, c := ConfirmedSincePaired(cfg, r, j - 1, device);
    } else {
      p := PairingInForce(cfg, r, j - 1, device);
      c := j - 1;
    }
  }

  /**
    Where confirmation is required, a request that got past the wrapper without waiting is of a
    device that was confirmed since the pairing in force when it arrived was made.
   */
  lemma {:induction false} LetInMeansConfirmedSince(cfg: Config, r: Run, i: nat, id: nat) returns (a: nat, p: nat, c: nat)
    requires IsRun(cfg, r) && i < |r.states| && id in r.states[i].calls && r.states[i].calls[id].entry.confirmed
    ensures var call := r.states[i].calls[id];
            && p < c < a < i && r.events[a] == Arrive(id, call.endpoint, call.token)
            && PairedAt(r, p, a, call.entry.deviceID)
            && Confirms(cfg, r.states[c], r.events[c], call.entry.deviceID)
  {
    a := CallArrived(cfg, r, i, id);
    RunKeepsTokensBound(cfg, r, a);
    TokenMeansDevice(r.states[a], r.states[i].calls[id].token);
    p, c := ConfirmedSincePaired(cfg, r, a, r.states[i].calls[id].entry.deviceID);
  }

  // ---------- the steps of a PIN pairing ----------

  /** Where a step stands in the handling of a PIN pairing. */
  function PlaceOf(e: Action): nat {
    if e.DecidePairing? then 0 else if e.IssueToken? then 1 else 2
  }

  predicate HandlesPairing(e: Action, id: nat) {
    (e.DecidePairing? || e.IssueToken? || e.ConfirmPairing?) && e.id == id
  }

  function Progress(p: PairPhase): nat {
    match p
    case Guessed => 0
    case Agreed => 1
    case Issued => 2
    case Closed => 3
  }

  lemma {:induction false} PairingStep(cfg: Config, r: Run, i: nat, id: nat)
    requires IsRun(cfg, r) && i < |r.events| && id in r.states[i].pairings
    ensures id in r.states[i + 1].pairings
    ensures Progress(r.states[i].pairings[id].phase) <= Progress(r.states[i + 1].pairings[id].phase)
    ensures HandlesPairing(r.events[i], id) ==>
              Progress(r.states[i].pairings[id].phase) == PlaceOf(r.events[i])
              && PlaceOf(r.events[i]) < Progress(r.states[i + 1].pairings[id].phase)
  {
    var _, _ := RunStep(cfg, r, i + 1);
  }

  lemma {:induction false} HandledPairingExists(cfg: Config, r: Run, i: nat, id: nat)
    requires IsRun(cfg, r) && i < |r.events| && HandlesPairing(r.events[i], id)
    ensures id in r.states[i].pairings
  {
    var _, _ := RunStep(cfg, r, i + 1);
  }

  lemma {:induction false} PairingProgresses(cfg: Config, r: Run, i: nat, j: nat, id: nat)
    requires IsRun(cfg, r) && i <= j < |r.states| && id in r.states[i].pairings
    ensures id in r.states[j].pairings
    ensures Progress(r.states[i].pairings[id].phase) <= Progress(r.states[j].pairings[id].phase)
  {
    if i < j {
      PairingProgresses(cfg, r, i, j - 1, id);
      PairingStep(cfg, r, j - 1, id);
    }
  }

  /** A PIN pairing is answered, gets its token and is confirmed in this order, each at most once. */
  lemma {:induction false} PairingStepsInOrder(cfg: Config, r: Run, i: nat, j: nat, id: nat)
    requires IsRun(cfg, r) && i < j < |r.events|
    requires HandlesPairing(r.events[i], id) && HandlesPairing(r.events[j], id)
    ensures PlaceOf(r.events[i]) < PlaceOf(r.events[j])
  {
    HandledPairingExists(cfg, r, i, id);
    PairingStep(cfg, r, i, id);
    PairingProgresses(cfg, r, i + 1, j, id);
    PairingStep(cfg, r, j, id);
  }

  lemma {:induction false} IssuedAfterStep(cfg: Config, s: System, e: Action, id: nat)
    requires Enabled(cfg, s, e) && PairingIn(Next(cfg, s, e), id, Issued)
    ensures PairingIn(s, id, Issued) || (e.IssueToken? && e.id == id && e.saved)
  {
  }

  lemma {:induction false} IssuedWasSaved(cfg: Config, r: Run, i: nat, id: nat) returns (j: nat)
    requires IsRun(cfg, r) && i < |r.states| && PairingIn(r.states[i], id, Issued)
    ensures j < i && r.events[j].IssueToken? && r.events[j].id == id && r.events[j].saved
  {
    var s, e := RunStep(cfg, r, i);
    IssuedAfterStep(cfg, s, e, id);
    if PairingIn(s, id, Issued) {
      j := IssuedWasSaved(cfg, r, i - 1, id);
    } else {
      j := i - 1;
    }
  }

  /** A PIN pairing is confirmed only after its token was issued and its entry written. */
  lemma {:induction false} ConfirmingFollowsToken(cfg: Config, r: Run, i: nat) returns (j: nat)
    requires IsRun(cfg, r) && i < |r.events| && r.events[i].ConfirmPairing?
    ensures j < i && r.events[j].IssueToken? && r.events[j].id == r.events[i].id && r.events[j].saved
  {
    var _, _ := RunStep(cfg, r, i + 1);
    j := IssuedWasSaved(cfg, r, i, r.events[i].id);
  }
}
