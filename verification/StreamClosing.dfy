/**
  PROTOCOL.md section 7.3 wants every open stream of an unpaired controller closed. When the
  code marks such a stream as done, when it does not, and what an unmarked one still writes.
 */
module StreamClosing {
  import opened Wrappers
  import opened EventStream
  import opened EventHub
  import opened Gateway
  import opened Delivery
  import opened Revocation

  // ---------- the step that ended a token ----------

  /** The token authenticated before step k and does not after it. */
  ghost predicate EndedAt(r: Run, k: nat, token: string) {
    k + 1 < |r.states| && Live(r.states[k], token) && !Live(r.states[k + 1], token)
  }

  lemma {:induction false} EndingStep(cfg: Config, r: Run, i: nat, token: string) returns (k: nat)
    requires IsRun(cfg, r) && i < |r.states| && Dead(r.states[i], token)
    ensures k < i && EndedAt(r, k, token)
  {
    var s, e := RunStep(cfg, r, i);
    RunKeepsTokensBound(cfg, r, i - 1);
    LiveAfterStep(cfg, s, e, token);
    OnlyIssuedTokensAreNew(cfg, s, e, token);
    if Live(s, token) {
      k := i - 1;
    } else {
      k := EndingStep(cfg, r, i - 1, token);
    }
  }

  /** It was a revocation at the agent, a new pairing, or an unpair request of the token's own device. */
  lemma {:induction false} WhatEndedIt(cfg: Config, r: Run, k: nat, token: string)
    requires IsRun(cfg, r) && EndedAt(r, k, token)
    ensures k < |r.events| && token in r.states[k].issued
    ensures EndsPairing(r.states[k], r.events[k], r.states[k].issued[token])
  {
    var s, e := RunStep(cfg, r, k + 1);
    RunKeepsTokensBound(cfg, r, k);
    LiveAfterStep(cfg, s, e, token);
  }

  // ---------- an unpair request ----------

  lemma {:induction false} RevokeOwnStep(cfg: Config, r: Run, k: nat)
    requires IsRun(cfg, r) && k < |r.events| && r.events[k].RevokeOwn?
    ensures var id := r.events[k].id;
            && InPhase(r.states[k], id, Admitted) && r.states[k].calls[id].endpoint.Unpair?
            && InPhase(r.states[k + 1], id, if r.events[k].saved then Revoking else Ended)
  {
    var _, _ := RunStep(cfg, r, k + 1);
  }

  lemma {:induction false} DropOwnStep(cfg: Config, r: Run, m: nat)
    requires IsRun(cfg, r) && m < |r.events| && r.events[m].DropOwn?
    ensures InPhase(r.states[m], r.events[m].id, Revoking) && InPhase(r.states[m + 1], r.events[m].id, Ended)
  {
    var _, _ := RunStep(cfg, r, m + 1);
  }

  /** A request drops its device's streams at most once, after revoking and only if the revocation was written. */
  lemma {:induction false} DropFollowsRevoke(cfg: Config, r: Run, k: nat, m: nat)
    requires IsRun(cfg, r) && k < |r.events| && m < |r.events|
    requires r.events[k].RevokeOwn? && r.events[m] == DropOwn(r.events[k].id)
    ensures k < m && r.events[k].saved
  {
    var id := r.events[k].id;
    RevokeOwnStep(cfg, r, k);
    DropOwnStep(cfg, r, m);
    if m < k {
      CallsStay(cfg, r, m + 1, k, id);
    } else if !r.events[k].saved {
      CallsStay(cfg, r, k + 1, m, id);
    }
  }

  lemma {:induction false} DropsOnce(cfg: Config, r: Run, m: nat, n: nat)
    requires IsRun(cfg, r) && m < n < |r.events| && r.events[m].DropOwn? && r.events[n].DropOwn?
    ensures r.events[m].id != r.events[n].id
  {
    DropOwnStep(cfg, r, m);
    DropOwnStep(cfg, r, n);
    if r.events[m].id == r.events[n].id {
      CallsStay(cfg, r, m + 1, n, r.events[m].id);
    }
  }

  // ---------- which dead streams are still open ----------

  /** A wanted frame met the stream's full queue. */
  ghost predicate FilledUp(r: Run, i: nat, id: nat)
    requires i <= |r.events| < |r.states|
  {
    exists k :: 0 <= k < i && r.events[k].Publish? && Disconnects(r.states[k], r.events[k], id)
  }

  /**
    The step that ended the token does not mark the stream: it was not an unpair request; or its
    write failed; or the request has not come to dropDevice yet; or the stream subscribed after that.
   */
  ghost predicate Overlooks(r: Run, k: nat, i: nat, id: nat)
    requires k < i <= |r.events| < |r.states|
  {
    || !r.events[k].RevokeOwn?
    || !r.events[k].saved
    || (forall m :: k < m < i ==> r.events[m] != DropOwn(r.events[k].id))
    || (exists m :: k < m < i && r.events[m] == DropOwn(r.events[k].id) && id !in r.states[m].streams)
  }

  /** Some other unpair request of the device has come to dropDevice since the stream subscribed. */
  ghost predicate DroppedByAnother(r: Run, k: nat, i: nat, id: nat)
    requires k < i <= |r.events| < |r.states|
  {
    exists m :: 0 <= m < i && r.events[m].DropOwn? && Disconnects(r.states[m], r.events[m], id)
                && !(r.events[k].RevokeOwn? && r.events[m].id == r.events[k].id)
  }

  /** At its dropDevice the request that ended a stream's token does mark the stream, if it has subscribed. */
  lemma {:induction false} OwnDropMarks(cfg: Config, r: Run, k: nat, m: nat, i: nat, id: nat)
    requires IsRun(cfg, r) && k < m < i < |r.states|
    requires id in r.states[i].streams && r.states[i].streams[id].registered
    requires EndedAt(r, k, r.states[i].streams[id].token)
    requires r.events[k].RevokeOwn? && r.events[m] == DropOwn(r.events[k].id) && id in r.states[m].streams
    ensures Disconnects(r.states[m], r.events[m], id)
  {
    var own, token := r.events[k].id, r.states[i].streams[id].token;
    StreamsStay(cfg, r, m, i, id);
    RunKeepsTokensBound(cfg, r, m);
    WhatEndedIt(cfg, r, k, token);
    IssuedStays(cfg, r, k, m, token);
    RevokeOwnStep(cfg, r, k);
    CallsStay(cfg, r, k, m, own);
  }

  lemma {:induction false} IssuedStays(cfg: Config, r: Run, i: nat, j: nat, token: string)
    requires IsRun(cfg, r) && i <= j < |r.states| && token in r.states[i].issued
    ensures token in r.states[j].issued && r.states[j].issued[token] == r.states[i].issued[token]
  {
    if i < j {
      IssuedStays(cfg, r, i, j - 1, token);
      var s, e := RunStep(cfg, r, j);
      StepKeepsIssued(cfg, s, e);
    }
  }

  lemma {:induction false} OpenMeansOverlooked(cfg: Config, r: Run, k: nat, i: nat, id: nat)
    requires IsRun(cfg, r) && k < i < |r.states|
    requires id in r.states[i].streams && r.states[i].streams[id].registered
    requires EndedAt(r, k, r.states[i].streams[id].token)
    requires !r.states[i].streams[id].sub.done
    ensures !FilledUp(r, i, id) && Overlooks(r, k, i, id) && !DroppedByAnother(r, k, i, id)
  {
    DisconnectedExactly(cfg, r, i, id);
    if !Overlooks(r, k, i, id) {
      var m :| k < m < i && r.events[m] == DropOwn(r.events[k].id);
      OwnDropMarks(cfg, r, k, m, i, id);
      assert false;
    }
  }

  lemma {:induction false} OverlookedMeansOpen(cfg: Config, r: Run, k: nat, i: nat, id: nat)
    requires IsRun(cfg, r) && k < i < |r.states| && id in r.states[i].streams
    requires !FilledUp(r, i, id) && Overlooks(r, k, i, id) && !DroppedByAnother(r, k, i, id)
    ensures !r.states[i].streams[id].sub.done
  {
    DisconnectedExactly(cfg, r, i, id);
    if r.states[i].streams[id].sub.done {
      var m :| 0 <= m < i && Disconnects(r.states[m], r.events[m], id);
      assert r.events[m] == DropOwn(r.events[k].id);
      DropFollowsRevoke(cfg, r, k, m);
      var n :| k < n < i && r.events[n] == DropOwn(r.events[k].id) && id !in r.states[n].streams;
      if m < n {
        DropsOnce(cfg, r, m, n);
      } else if n < m {
        DropsOnce(cfg, r, n, m);
      }
      assert false;
    }
  }

  /**
    Exactly which registered streams with a dead token are not marked done: those that did not
    fall behind, that the step that ended the token overlooks, and that no other unpair request
    of the device has dropped.
   */
  lemma {:induction false} DeadStreamIsOpenExactly(cfg: Config, r: Run, k: nat, i: nat, id: nat)
    requires IsRun(cfg, r) && k < i < |r.states|
    requires id in r.states[i].streams && r.states[i].streams[id].registered
    requires EndedAt(r, k, r.states[i].streams[id].token)
    ensures !r.states[i].streams[id].sub.done <==>
            !FilledUp(r, i, id) && Overlooks(r, k, i, id) && !DroppedByAnother(r, k, i, id)
  {
    if !r.states[i].streams[id].sub.done {
      OpenMeansOverlooked(cfg, r, k, i, id);
    } else if !FilledUp(r, i, id) && Overlooks(r, k, i, id) && !DroppedByAnother(r, k, i, id) {
      OverlookedMeansOpen(cfg, r, k, i, id);
    }
  }

  // ---------- what a stream with a dead token writes ----------

  /** The step writes to this stream, successfully or not. */
  predicate Writes(e: Action, id: nat) {
    (e.WriteFirst? || e.TakeFrame? || e.WritePing? || e.Tick?) && e.id == id
  }

  /**
    With its token dead a stream puts one item on the wire at a step exactly if that is a write
    of the initial status, a queued frame, a traffic tick, or a ping whose token check came before.
   */
  lemma {:induction false} DeadStreamWritesExactly(cfg: Config, r: Run, i: nat, id: nat)
    requires IsRun(cfg, r) && 0 < i < |r.states| && id in r.states[i - 1].streams
    requires !Live(r.states[i - 1], r.states[i - 1].streams[id].token)
    ensures id in r.states[i].streams
    ensures var before, after := Wire(r.states[i - 1].streams[id]), Wire(r.states[i].streams[id]);
            && (after != before <==> Writes(r.events[i - 1], id))
            && (after != before ==>
                  |after| == |before| + 1 && after[..|before|] == before
                  && (after[|before|] == Ping <==> r.events[i - 1].WritePing?))
  {
    var s, e := RunStream(cfg, r, i, id);
    var t := s.streams[id];
    if Writes(e, id) {
      RunKeepsFaithful(cfg, r, i - 1, id);
      WriteExtendsWire(cfg, s, t, e);
    }
  }

  lemma {:induction false} WriteExtendsWire(cfg: Config, s: System, t: Stream, e: Action)
    requires IsStreamStep(e) && Writes(e, e.id) && t.attempt == []
    requires (e.WriteFirst? ==> t.phase.Starting?) && (e.TakeFrame? ==> t.sub.queue != [])
    ensures var before, after := Wire(t), Wire(StreamStep(cfg, s, t, e));
            && |after| == |before| + 1 && after[..|before|] == before
            && (after[|before|] == Ping <==> e.WritePing?)
  {
  }

  /** Only a heartbeat with a live token leads to a ping, and nothing else happens to the stream before it. */
  lemma {:induction false} PingingAfterStep(cfg: Config, r: Run, i: nat, id: nat)
    requires IsRun(cfg, r) && 0 < i < |r.states|
    requires id in r.states[i].streams && r.states[i].streams[id].phase == Pinging
    ensures id in r.states[i - 1].streams && r.states[i - 1].streams[id].token == r.states[i].streams[id].token
    ensures if r.states[i - 1].streams[id].phase == Pinging
            then !Writes(r.events[i - 1], id) && r.events[i - 1] != Heartbeat(id)
            else r.events[i - 1] == Heartbeat(id) && Live(r.states[i - 1], r.states[i].streams[id].token)
  {
    var s, e := RunStream(cfg, r, i, id);
    if id in s.streams {
      StreamKeepsIdentity(cfg, s, e, id);
    }
  }

  lemma {:induction false} PingFollowsHeartbeat(cfg: Config, r: Run, i: nat, id: nat) returns (h: nat)
    requires IsRun(cfg, r) && i < |r.states|
    requires id in r.states[i].streams && r.states[i].streams[id].phase == Pinging
    ensures h < i && r.events[h] == Heartbeat(id)
    ensures Live(r.states[h], r.states[i].streams[id].token)
    ensures forall k :: h < k < i ==> !Writes(r.events[k], id) && r.events[k] != Heartbeat(id)
  {
    if i == 0 {
      assert false;
    }
    PingingAfterStep(cfg, r, i, id);
    if r.states[i - 1].streams[id].phase == Pinging {
      h := PingFollowsHeartbeat(cfg, r, i - 1, id);
    } else {
      h := i - 1;
    }
  }

  /**
    A ping that goes out with a dead token was checked before the token died, and nothing was
    written in between; so after a token's death at most one ping goes out, and before any frame.
   */
  lemma {:induction false} DeadStreamPingsAtMostOnce(cfg: Config, r: Run, i: nat, k: nat, id: nat) returns (h: nat)
    requires IsRun(cfg, r) && i <= k < |r.events| && r.events[k].WritePing? && r.events[k].id == id
    requires id in r.states[k].streams && Dead(r.states[i], r.states[k].streams[id].token)
    ensures h < i && r.events[h] == Heartbeat(id) && Live(r.states[h], r.states[k].streams[id].token)
    ensures forall m :: h < m < k ==> !Writes(r.events[m], id)
  {
    var _, _ := RunStep(cfg, r, k + 1);
    h := PingFollowsHeartbeat(cfg, r, k, id);
    if i <= h {
      DeadStaysDead(cfg, r, i, h, r.states[k].streams[id].token);
    }
  }

  /** No step after its first heartbeat with a dead token, done or not, is such a write. */
  lemma {:induction false} DeadStreamWritesUntilHeartbeat(cfg: Config, r: Run, i: nat, j: nat, k: nat, id: nat)
    requires IsRun(cfg, r) && i <= j < k < |r.events|
    requires r.events[j] == Heartbeat(id)
    requires id in r.states[j].streams && Dead(r.states[i], r.states[j].streams[id].token)
    ensures !Writes(r.events[k], id)
  {
    HeartbeatSilencesDeadStream(cfg, r, i, j, k, id);
    var _, _ := RunStep(cfg, r, k + 1);
  }
}
