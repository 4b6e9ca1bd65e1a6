/**
  What ends a token, in every run of the gateway: a token that once stopped authenticating
  never does again, and a stream opened with it falls silent at its next heartbeat.
 */
module Revocation {
  import opened Wrappers
  import opened Pairings
  import opened EventHub
  import opened Gateway

  /** Issued once, and not accepted any more. */
  ghost predicate Dead(s: System, token: string) {
    token in s.issued && !Live(s, token)
  }

  /** The step hands out this token. */
  predicate Issues(e: Action, token: string) {
    (e.AdminPair? && e.token == token) || (e.IssueToken? && e.token == token)
  }

  /** The step revokes the device, lets it unpair itself, or pairs it again. */
  predicate EndsPairing(s: System, e: Action, device: string) {
    || (e.AdminRevoke? && e.device == device)
    || (e.RevokeOwn? && e.id in s.calls && s.calls[e.id].entry.deviceID == device)
    || (e.AdminPair? && e.device == device)
    || (e.IssueToken? && e.id in s.pairings && s.pairings[e.id].device == device)
  }

  lemma {:induction false} EntryAfterStep(cfg: Config, s: System, e: Action, device: string)
    requires Enabled(cfg, s, e) && EntriesBound(s) && !EndsPairing(s, e, device)
    ensures var u := Next(cfg, s, e);
            && (device in u.entries <==> device in s.entries)
            && (device in s.entries ==> u.entries[device] in {s.entries[device], s.entries[device].(confirmed := true)})
  {
    StepOnStore(cfg, s, e);
  }

  /** Of the ways to end a pairing only a new one leaves an entry, and that holds a new token. */
  lemma {:induction false} EntryAfterEnd(cfg: Config, s: System, e: Action, device: string)
    requires Enabled(cfg, s, e) && EntriesBound(s) && EndsPairing(s, e, device)
    ensures var u := Next(cfg, s, e);
            device in u.entries ==> exists t :: Issues(e, t) && u.entries[device].tokenHash == HashToken(t)
  {
    StepOnStore(cfg, s, e);
    if e.AdminPair? || e.IssueToken? {
      assert Issues(e, e.token);
    }
  }

  lemma {:induction false} IssuedEntry(cfg: Config, s: System, e: Action, token: string)
    requires Enabled(cfg, s, e) && Issues(e, token)
    ensures var u := Next(cfg, s, e);
            && token !in s.issued && token in u.issued
            && u.issued[token] in u.entries && u.entries[u.issued[token]].tokenHash == HashToken(token)
  {
    StepOnStore(cfg, s, e);
  }

  lemma {:induction false} OnlyIssuedTokensAreNew(cfg: Config, s: System, e: Action, token: string)
    requires Enabled(cfg, s, e)
    ensures var u := Next(cfg, s, e);
            && (token in s.issued ==> token in u.issued && u.issued[token] == s.issued[token] && !Issues(e, token))
            && (token in u.issued ==> token in s.issued || Issues(e, token))
  {
    StepOnStore(cfg, s, e);
  }

  /**
    Exactly when a token authenticates after a step: it was just issued, or it did before
    and the step did not end its own device's pairing.
   */
  lemma {:induction false} LiveAfterStep(cfg: Config, s: System, e: Action, token: string)
    requires Enabled(cfg, s, e) && EntriesBound(s)
    ensures Live(Next(cfg, s, e), token) <==>
            Issues(e, token) || (Live(s, token) && !EndsPairing(s, e, s.issued[token]))
    ensures Live(s, token) ==> token in s.issued
  {
    StepKeepsEntriesBound(cfg, s, e);
    TokenMeansDevice(s, token);
    TokenMeansDevice(Next(cfg, s, e), token);
    OnlyIssuedTokensAreNew(cfg, s, e, token);
    if Issues(e, token) {
      IssuedEntry(cfg, s, e, token);
    } else if token in s.issued {
      if EndsPairing(s, e, s.issued[token]) {
        EntryAfterEnd(cfg, s, e, s.issued[token]);
      } else {
        EntryAfterStep(cfg, s, e, s.issued[token]);
      }
    }
  }

  lemma {:induction false} DeadStaysDead(cfg: Config, r: Run, i: nat, j: nat, token: string)
    requires IsRun(cfg, r) && i <= j < |r.states| && Dead(r.states[i], token)
    ensures Dead(r.states[j], token)
  {
    if i < j {
      var s, e := RunStep(cfg, r, j);
      DeadStaysDead(cfg, r, i, j - 1, token);
      RunKeepsTokensBound(cfg, r, j - 1);
      LiveAfterStep(cfg, s, e, token);
      StepKeepsIssued(cfg, s, e);
    }
  }

  /** Revoked, unpaired or paired again: every token the device held until then is dead for the rest of the run. */
  lemma {:induction false} EndedForGood(cfg: Config, r: Run, i: nat, j: nat, token: string)
    requires IsRun(cfg, r) && i < j < |r.states|
    requires token in r.states[i].issued && EndsPairing(r.states[i], r.events[i], r.states[i].issued[token])
    ensures Dead(r.states[j], token)
  {
    RunKeepsTokensBound(cfg, r, i);
    var s, e := RunStep(cfg, r, i + 1);
    LiveAfterStep(cfg, s, e, token);
    StepKeepsIssued(cfg, s, e);
    DeadStaysDead(cfg, r, i + 1, j, token);
  }

  /** Unpairing ends the very token it was asked with, even if the device was paired again in the meantime. */
  lemma {:induction false} UnpairEndsItsToken(cfg: Config, r: Run, i: nat, j: nat)
    requires IsRun(cfg, r) && i < j < |r.states| && r.events[i].RevokeOwn?
    ensures r.events[i].id in r.states[i].calls && Dead(r.states[j], r.states[i].calls[r.events[i].id].token)
  {
    var _, _ := RunStep(cfg, r, i + 1);
    RunKeepsTokensBound(cfg, r, i);
    EndedForGood(cfg, r, i, j, r.states[i].calls[r.events[i].id].token);
  }

  // ---------- streams ----------

  lemma {:induction false} StoppedStreamStep(cfg: Config, r: Run, i: nat, id: nat)
    requires IsRun(cfg, r) && 0 < i < |r.states|
    requires id in r.states[i - 1].streams && r.states[i - 1].streams[id].phase == Stopped
    ensures id in r.states[i].streams && r.states[i].streams[id].phase == Stopped
    ensures Wire(r.states[i].streams[id]) == Wire(r.states[i - 1].streams[id])
  {
    var s, e := RunStream(cfg, r, i, id);
  }

  lemma {:induction false} StoppedStreamIsSilent(cfg: Config, r: Run, i: nat, j: nat, id: nat)
    requires IsRun(cfg, r) && i <= j < |r.states|
    requires id in r.states[i].streams && r.states[i].streams[id].phase == Stopped
    ensures id in r.states[j].streams
    ensures r.states[j].streams[id].phase == Stopped && Wire(r.states[j].streams[id]) == Wire(r.states[i].streams[id])
  {
    if i < j {
      StoppedStreamIsSilent(cfg, r, i, j - 1, id);
      StoppedStreamStep(cfg, r, j, id);
    }
  }

  /** The first heartbeat after its token died stops a stream: from that step on it writes nothing. */
  lemma {:induction false} HeartbeatSilencesDeadStream(cfg: Config, r: Run, i: nat, j: nat, k: nat, id: nat)
    requires IsRun(cfg, r) && i <= j < k < |r.states|
    requires r.events[j] == Heartbeat(id)
    requires id in r.states[j].streams && Dead(r.states[i], r.states[j].streams[id].token)
    ensures id in r.states[k].streams
    ensures r.states[k].streams[id].phase == Stopped && Wire(r.states[k].streams[id]) == Wire(r.states[j].streams[id])
  {
    DeadStaysDead(cfg, r, i, j, r.states[j].streams[id].token);
    var s, e := RunStream(cfg, r, j + 1, id);
    StoppedStreamIsSilent(cfg, r, j + 1, k, id);
  }

  /** dropDevice marks every registered stream of the device, and touches nothing else of any stream. */
  lemma {:induction false} DropMarksTheDevice(cfg: Config, s: System, id: nat, sid: nat)
    requires Enabled(cfg, s, DropOwn(id)) && sid in s.streams
    ensures var t, u := s.streams[sid], Next(cfg, s, DropOwn(id)).streams[sid];
            if t.registered && t.sub.device == s.calls[id].entry.deviceID then u == t.(sub := t.sub.(done := true))
            else u == t
  {
    StepOnStream(cfg, s, DropOwn(id), sid);
  }
}
