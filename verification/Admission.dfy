/**
  Who gets past the gateway, in every run: no hook is called and no token handed out
  without authorization and, where it is asked for, what counts as confirmation.
 */
module Admission {
  import opened Wrappers
  import opened Capabilities
  import opened Pairings
  import opened Gateway
  import Pins

  predicate PastTheWrapper(phase: Phase) {
    phase == Admitted || phase == Revoking
  }

  // ---------- requests ----------

  /** Every request that is known came in with a token that authenticated then. */
  lemma {:induction false} CallArrived(cfg: Config, r: Run, i: nat, id: nat) returns (a: nat)
    requires IsRun(cfg, r) && i < |r.states| && id in r.states[i].calls
    ensures var call := r.states[i].calls[id];
            && a < i && r.events[a] == Arrive(id, call.endpoint, call.token)
            && Authenticated(r.states[a].entries, call.token) == Some(call.entry)
  {
    var s, e := RunStep(cfg, r, i);
    StepOnCalls(cfg, s, e, id);
    if id in s.calls {
      a := CallArrived(cfg, r, i - 1, id);
    } else {
      a := i - 1;
    }
  }

  /**
    Exactly who is let in at once: whoever has a live token, unless its device still has to be
    confirmed. Unpairing never waits.
   */
  lemma {:induction false} LetInAtOnce(cfg: Config, s: System, id: nat, endpoint: Endpoint, token: string)
    requires EntriesBound(s) && id !in s.calls
    ensures var u := Next(cfg, s, Arrive(id, endpoint, token));
            && (id in u.calls <==> Live(s, token))
            && (InPhase(u, id, Admitted) <==>
                Live(s, token) && (endpoint.Unpair? || !cfg.requireConfirm || s.entries[s.issued[token]].confirmed))
            && (InPhase(u, id, Waiting) <==>
                Live(s, token) && !endpoint.Unpair? && cfg.requireConfirm && !s.entries[s.issued[token]].confirmed)
  {
    TokenMeansDevice(s, token);
  }

  lemma {:induction false} PhaseAfterStep(cfg: Config, s: System, e: Action, id: nat)
    requires Enabled(cfg, s, e) && id in s.calls && PastTheWrapper(Next(cfg, s, e).calls[id].phase)
    ensures PastTheWrapper(s.calls[id].phase)
            || (s.calls[id].phase == Waiting && e.Decide? && e.id == id && Agrees(cfg, e.answer))
  {
  }

  /** A request that had to wait got past the wrapper by an answer of its own that counts as a yes. */
  lemma {:induction false} WaiterWasConfirmed(cfg: Config, r: Run, i: nat, id: nat) returns (b: nat)
    requires IsRun(cfg, r) && i < |r.states| && id in r.states[i].calls
    requires var call := r.states[i].calls[id];
             PastTheWrapper(call.phase) && NeedsConfirmation(cfg, call.endpoint) && !call.entry.confirmed
    ensures b < i && id in r.states[b].calls && r.events[b].Decide? && r.events[b].id == id && Agrees(cfg, r.events[b].answer)
  {
    var s, e := RunStep(cfg, r, i);
    StepOnCalls(cfg, s, e, id);
    PhaseAfterStep(cfg, s, e, id);
    if PastTheWrapper(s.calls[id].phase) {
      b := WaiterWasConfirmed(cfg, r, i - 1, id);
    } else {
      b := i - 1;
    }
  }

  /** In the run up to step i, this request was let in: its token authenticated, and it was confirmed if it had to be. */
  ghost predicate LetIn(cfg: Config, r: Run, i: nat, call: Call, id: nat, a: nat)
    requires IsRun(cfg, r) && i < |r.states|
  {
    && a < i && r.events[a] == Arrive(id, call.endpoint, call.token)
    && Authenticated(r.states[a].entries, call.token) == Some(call.entry)
    && (NeedsConfirmation(cfg, call.endpoint) && !call.entry.confirmed ==>
          exists b :: a < b < i && r.events[b].Decide? && r.events[b].id == id && Agrees(cfg, r.events[b].answer))
  }

  /**
    Whatever the endpoint, nothing runs behind the auth wrapper unless the token authenticated
    and, where confirmation is required, the device was confirmed already or that same request
    got an answer that counts as a yes. Consent says when that is a yes.
   */
  lemma {:induction false} OnlyLetInGetPast(cfg: Config, r: Run, i: nat, id: nat) returns (a: nat)
    requires IsRun(cfg, r) && i < |r.states| && id in r.states[i].calls && PastTheWrapper(r.states[i].calls[id].phase)
    ensures LetIn(cfg, r, i, r.states[i].calls[id], id, a)
  {
    var call := r.states[i].calls[id];
    a := CallArrived(cfg, r, i, id);
    if NeedsConfirmation(cfg, call.endpoint) && !call.entry.confirmed {
      var b := WaiterWasConfirmed(cfg, r, i, id);
      var _, _ := RunStep(cfg, r, a + 1);
      if b <= a {
        CallsStay(cfg, r, b, a, id);
      }
      assert a < b < i;
    }
  }

  /** Every hook call behind a capability: let in, advertised, implemented, and of the documented shape. */
  lemma {:induction false} HookCallsAreGuarded(cfg: Config, r: Run, i: nat, c: HookCall) returns (a: nat)
    requires IsRun(cfg, r) && i < |r.events| && c in HookCalls(cfg, r.states[i], r.events[i])
    ensures var id, call := r.events[i].id, r.states[i].calls[r.events[i].id];
            && LetIn(cfg, r, i, call, id, a)
            && call.endpoint.Gated?
            && GateOf(call.endpoint.handler).Name() in Remote(cfg)
            && Needs(c) in cfg.hooks
            && WellShaped(c, r.events[i].env)
  {
    var _, _ := RunStep(cfg, r, i + 1);
    var call := r.states[i].calls[r.events[i].id];
    a := OnlyLetInGetPast(cfg, r, i, r.events[i].id);
    AssertionsSucceed(cfg.hooks, cfg.disabled, call.endpoint.handler);
    CallsAreWellShaped(call.endpoint.handler, r.events[i].env, c);
  }

  // ---------- the confirmer is asked once ----------

  ghost predicate IsConfirmed(s: System, device: string) {
    device in s.entries ==> s.entries[device].confirmed
  }

  /** The step confirms the device: an answer that counts as a yes, a finished PIN pairing, or the user at the agent. */
  ghost predicate Confirms(cfg: Config, s: System, e: Action, device: string) {
    || (e.Decide? && e.id in s.calls && Agrees(cfg, e.answer) && s.calls[e.id].entry.deviceID == device)
    || (e.ConfirmPairing? && e.id in s.pairings && s.pairings[e.id].device == device)
    || (e.AdminConfirm? && e.device == device)
  }

  ghost predicate PairsAgain(s: System, e: Action, device: string) {
    || (e.AdminPair? && e.device == device)
    || (e.IssueToken? && e.id in s.pairings && s.pairings[e.id].device == device)
  }

  lemma {:induction false} StepKeepsConfirmed(cfg: Config, s: System, e: Action, device: string)
    requires Enabled(cfg, s, e)
    requires Confirms(cfg, s, e, device) || (IsConfirmed(s, device) && !PairsAgain(s, e, device))
    ensures IsConfirmed(Next(cfg, s, e), device)
  {
    StepOnStore(cfg, s, e);
  }

  lemma {:induction false} StaysConfirmed(cfg: Config, r: Run, i: nat, j: nat, device: string)
    requires IsRun(cfg, r) && i < j < |r.states| && Confirms(cfg, r.states[i], r.events[i], device)
    requires forall k :: i < k < j ==> !PairsAgain(r.states[k], r.events[k], device)
    ensures IsConfirmed(r.states[j], device)
  {
    if j > i + 1 {
      StaysConfirmed(cfg, r, i, j - 1, device);
    }
    var s, e := RunStep(cfg, r, j);
    StepKeepsConfirmed(cfg, s, e, device);
  }

  /**
    Once a device is confirmed, no request of its that arrives later has to wait for the
    confirmer, in any interleaving, until the device is paired again.
   */
  lemma {:induction false} ConfirmedOncePerPairing(cfg: Config, r: Run, i: nat, j: nat, device: string)
    requires IsRun(cfg, r) && i < j < |r.events| && Confirms(cfg, r.states[i], r.events[i], device)
    requires forall k :: i < k < j ==> !PairsAgain(r.states[k], r.events[k], device)
    requires r.events[j].Arrive? && r.events[j].id in r.states[j + 1].calls
    requires r.states[j + 1].calls[r.events[j].id].entry.deviceID == device
    ensures r.states[j + 1].calls[r.events[j].id].phase == Admitted
  {
    StaysConfirmed(cfg, r, i, j, device);
    var s, e := RunStep(cfg, r, j + 1);
    StepOnCalls(cfg, s, e, e.id);
    RunKeepsTokensBound(cfg, r, j);
    TokenMeansDevice(s, e.token);
  }

  // ---------- PIN pairing ----------

  /** The guess was the right PIN. */
  predicate RightPin(cfg: Config, s: System, e: Action) {
    e.GuessPin? && e.device != "" && Pins.Verified(cfg.pins, s.pin, e.pin, e.now).0 == Pins.PINOK
  }

  lemma {:induction false} OldPairingAfterStep(cfg: Config, s: System, e: Action, id: nat)
    requires Enabled(cfg, s, e) && id in s.pairings && id in Next(cfg, s, e).pairings
    ensures var p := Next(cfg, s, e).pairings[id];
            && p == s.pairings[id].(phase := p.phase)
            && (p.phase in {Guessed, Agreed} ==>
                  s.pairings[id].phase == p.phase
                  || (s.pairings[id].phase == Guessed && e.DecidePairing? && e.id == id && Agrees(cfg, e.answer)))
  {
  }

  lemma {:induction false} NewPairingAfterStep(cfg: Config, s: System, e: Action, id: nat)
    requires Enabled(cfg, s, e) && id !in s.pairings && id in Next(cfg, s, e).pairings
    ensures RightPin(cfg, s, e) && e.id == id && Next(cfg, s, e).pairings[id] == Pairing(e.device, e.name, Guessed)
  {
  }

  lemma {:induction false} AgreedAfterStep(cfg: Config, s: System, e: Action, id: nat)
    requires Enabled(cfg, s, e) && PairingIn(Next(cfg, s, e), id, Agreed)
    ensures PairingIn(s, id, Agreed)
            || (PairingIn(s, id, Guessed) && e.DecidePairing? && e.id == id && Agrees(cfg, e.answer))
  {
  }

  lemma {:induction false} PairingWasGuessed(cfg: Config, r: Run, i: nat, id: nat) returns (g: nat)
    requires IsRun(cfg, r) && i < |r.states| && id in r.states[i].pairings
    ensures g < i && RightPin(cfg, r.states[g], r.events[g]) && r.events[g].id == id
    ensures r.events[g].device == r.states[i].pairings[id].device
    ensures id in r.states[g + 1].pairings && id !in r.states[g].pairings
  {
    var s, e := RunStep(cfg, r, i);
    if id in s.pairings {
      OldPairingAfterStep(cfg, s, e, id);
      g := PairingWasGuessed(cfg, r, i - 1, id);
    } else {
      NewPairingAfterStep(cfg, s, e, id);
      g := i - 1;
    }
  }

  lemma {:induction false} AgreedWasAsked(cfg: Config, r: Run, i: nat, id: nat) returns (d: nat)
    requires IsRun(cfg, r) && i < |r.states| && PairingIn(r.states[i], id, Agreed)
    ensures d < i && id in r.states[d].pairings
    ensures r.events[d].DecidePairing? && r.events[d].id == id && Agrees(cfg, r.events[d].answer)
  {
    var s, e := RunStep(cfg, r, i);
    AgreedAfterStep(cfg, s, e, id);
    if PairingIn(s, id, Agreed) {
      d := AgreedWasAsked(cfg, r, i - 1, id);
    } else {
      d := i - 1;
    }
  }

  /** No token leaves POST /v1/pair but for the right PIN and then an answer that counts as a yes. */
  lemma {:induction false} TokensAreEarned(cfg: Config, r: Run, i: nat) returns (g: nat, d: nat)
    requires IsRun(cfg, r) && i < |r.events| && r.events[i].IssueToken?
    ensures var id := r.events[i].id;
            && id in r.states[i].pairings && g < d < i
            && RightPin(cfg, r.states[g], r.events[g]) && r.events[g].id == id
            && r.events[g].device == r.states[i].pairings[id].device
            && r.events[d].DecidePairing? && r.events[d].id == id && Agrees(cfg, r.events[d].answer)
  {
    var _, _ := RunStep(cfg, r, i + 1);
    var id := r.events[i].id;
    g := PairingWasGuessed(cfg, r, i, id);
    d := AgreedWasAsked(cfg, r, i, id);
    if d <= g {
      PairingsStay(cfg, r, d, g, id);
      assert false;
    }
  }

  // ---------- questions to the user ----------

  /** The confirmer is asked about the device: by the auth wrapper or for a PIN pairing. */
  ghost predicate Asks(s: System, e: Action, device: string) {
    || (e.Decide? && e.id in s.calls && s.calls[e.id].entry.deviceID == device)
    || (e.DecidePairing? && e.id in s.pairings && s.pairings[e.id].device == device)
  }

  ghost predicate AnswersYes(cfg: Config, s: System, e: Action, device: string) {
    Asks(s, e, device) && Agrees(cfg, e.answer)
  }

  /** Requests are served one after the other: the steps of a handler follow each other. */
  ghost predicate Sequential(cfg: Config, r: Run) {
    && (forall j :: 0 <= j < |r.events| && r.events[j].Decide? ==>
                      j > 0 && r.events[j - 1].Arrive? && r.events[j - 1].id == r.events[j].id)
    && (forall j :: 0 <= j < |r.events| && r.events[j].DecidePairing? ==>
                      j > 0 && r.events[j - 1].GuessPin? && r.events[j - 1].id == r.events[j].id)
    && (forall j :: 0 <= j < |r.events| - 1 && r.events[j].DecidePairing? && Agrees(cfg, r.events[j].answer) ==>
                      r.events[j + 1].IssueToken? && r.events[j + 1].id == r.events[j].id)
  }

  /** The wrapper asks again: the device was paired again. */
  lemma {:induction false} WrapperAsksAgain(cfg: Config, r: Run, i: nat, j: nat, device: string) returns (k: nat)
    requires IsRun(cfg, r) && Sequential(cfg, r) && i < j < |r.events|
    requires Confirms(cfg, r.states[i], r.events[i], device)
    requires r.events[j].Decide? && Asks(r.states[j], r.events[j], device)
    ensures i < k < j && PairsAgain(r.states[k], r.events[k], device)
  {
    if forall k :: i < k < j - 1 ==> !PairsAgain(r.states[k], r.events[k], device) {
      ConfirmedOncePerPairing(cfg, r, i, j - 1, device);
      var _, _ := RunStep(cfg, r, j + 1);
      assert false;
    } else {
      k :| i < k < j - 1 && PairsAgain(r.states[k], r.events[k], device);
    }
  }

  /** A PIN pairing answered yes issues its token next. */
  lemma {:induction false} AgreedPairingPairs(cfg: Config, r: Run, i: nat, device: string)
    requires IsRun(cfg, r) && Sequential(cfg, r) && i + 1 < |r.events|
    requires r.events[i].DecidePairing? && AnswersYes(cfg, r.states[i], r.events[i], device)
    ensures PairsAgain(r.states[i + 1], r.events[i + 1], device)
  {
    var s, e := RunStep(cfg, r, i + 1);
    PairingStays(cfg, r, i + 1, e.id);
    OldPairingAfterStep(cfg, s, e, e.id);
  }

  /** A question for a PIN pairing comes straight after the right PIN of its own request. */
  lemma {:induction false} PinQuestionWasEarned(cfg: Config, r: Run, j: nat, device: string)
    requires IsRun(cfg, r) && Sequential(cfg, r) && j < |r.events|
    requires r.events[j].DecidePairing? && Asks(r.states[j], r.events[j], device)
    ensures j > 0 && RightPin(cfg, r.states[j - 1], r.events[j - 1]) && r.events[j - 1].id == r.events[j].id
  {
    var s, e := RunStep(cfg, r, j);
    NewPairingAfterStep(cfg, s, e, e.id);
  }

  /**
    After a device is confirmed, or a question about it answered yes, it is asked about again
    only once it was paired again, or for a PIN pairing whose own guess came in between.
   */
  lemma {:induction false} AskedAgainOnlyForAReason(cfg: Config, r: Run, i: nat, j: nat, device: string) returns (k: nat)
    requires IsRun(cfg, r) && Sequential(cfg, r) && i < j < |r.events|
    requires Confirms(cfg, r.states[i], r.events[i], device) || AnswersYes(cfg, r.states[i], r.events[i], device)
    requires Asks(r.states[j], r.events[j], device)
    ensures i < k < j
    ensures PairsAgain(r.states[k], r.events[k], device)
            || (r.events[j].DecidePairing? && RightPin(cfg, r.states[k], r.events[k]) && r.events[k].id == r.events[j].id)
  {
    if r.events[j].DecidePairing? {
      PinQuestionWasEarned(cfg, r, j, device);
      k := j - 1;
    } else if r.events[i].DecidePairing? {
      AgreedPairingPairs(cfg, r, i, device);
      k := i + 1;
    } else {
      k := WrapperAsksAgain(cfg, r, i, j, device);
    }
  }

  // ---------- how many tokens PINs can mint ----------

  function PinsMade(events: seq<Action>): nat {
    if events == [] then 0
    else PinsMade(events[..|events| - 1]) + if events[|events| - 1].MakePin? then 1 else 0
  }

  function TokensMinted(events: seq<Action>): nat {
    if events == [] then 0
    else TokensMinted(events[..|events| - 1]) + if events[|events| - 1].IssueToken? then 1 else 0
  }

  /** Pairings whose PIN was right and whose token is still to come. */
  ghost function Pending(s: System): set<nat> {
    set id | id in s.pairings && s.pairings[id].phase in {Guessed, Agreed}
  }

  /** What a step does to the pending pairings. */
  lemma {:induction false} PendingAfterStep(cfg: Config, s: System, e: Action)
    requires Enabled(cfg, s, e)
    ensures var u := Next(cfg, s, e);
            && (RightPin(cfg, s, e) ==> Pending(u) == Pending(s) + {e.id} && e.id !in Pending(s))
            && (RightPin(cfg, s, e) ==> s.pin.pin != "" && u.pin.pin == "")
            && (e.IssueToken? ==> Pending(u) == Pending(s) - {e.id} && e.id in Pending(s))
            && (!RightPin(cfg, s, e) && !e.IssueToken? ==> Pending(u) <= Pending(s))
            && (u.pin.pin != "" ==> s.pin.pin != "" || e.MakePin?)
  {
    PinAfterStep(cfg, s, e);
    forall id | id in Pending(Next(cfg, s, e))
      ensures id in Pending(s) || (RightPin(cfg, s, e) && id == e.id)
    {
      if id in s.pairings {
        OldPairingAfterStep(cfg, s, e, id);
      } else {
        NewPairingAfterStep(cfg, s, e, id);
      }
    }
  }

  lemma {:induction false} PinAfterStep(cfg: Config, s: System, e: Action)
    requires Enabled(cfg, s, e)
    ensures RightPin(cfg, s, e) ==> s.pin.pin != "" && Next(cfg, s, e).pin.pin == ""
    ensures Next(cfg, s, e).pin.pin != "" ==> s.pin.pin != "" || e.MakePin?
  {
  }

  lemma {:induction false} CountsGrow(events: seq<Action>, i: nat)
    requires 0 < i <= |events|
    ensures PinsMade(events[..i]) == PinsMade(events[..i - 1]) + if events[i - 1].MakePin? then 1 else 0
    ensures TokensMinted(events[..i]) == TokensMinted(events[..i - 1]) + if events[i - 1].IssueToken? then 1 else 0
  {
    assert events[..i][..i - 1] == events[..i - 1] && events[..i][i - 1] == events[i - 1];
  }

  /** Every PIN made is spent on at most one token: what is minted, pending or still on show was made. */
  lemma {:induction false} PinsAreConserved(cfg: Config, r: Run, i: nat)
    requires IsRun(cfg, r) && i < |r.states|
    ensures TokensMinted(r.events[..i]) + |Pending(r.states[i])| + (if r.states[i].pin.pin != "" then 1 else 0)
         <= PinsMade(r.events[..i])
  {
    if i > 0 {
      var s, e := RunStep(cfg, r, i);
      PinsAreConserved(cfg, r, i - 1);
      PendingAfterStep(cfg, s, e);
      CountsGrow(r.events, i);
      Cardinality(Pending(r.states[i]), Pending(s));
    }
  }

  lemma {:induction false} Cardinality(a: set<nat>, b: set<nat>)
    ensures a <= b ==> |a| <= |b|
  {
    if a <= b {
      assert b == a + (b - a);
    }
  }
}
