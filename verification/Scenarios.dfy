/** Runs that show where a promise of the documentation is not kept, step by step. */
module Scenarios {
  import opened Wrappers
  import opened CanonicalJson
  import opened EventStream
  import opened EventHub
  import opened Pairings
  import opened Gateway
  import opened Revocation
  import Pins

  const STATUS := Message(EventStream.Status, "", Null)
  const CHANGED := Message(EventStream.Changed, "", Null)
  const STATUS_ONLY := Topics(false, "", false)
  const TV := Entry("d", "", Sha256("t"), 0, false)

  /** An agent that asks for no confirmation. */
  function Open(): Config {
    Config(false, false, {}, [], Pins.Settings(60, 3))
  }

  // ---------- a controller unpairs while its stream is being opened ----------

  /** Device "d" has a token and two requests past the auth wrapper: for events and for unpairing. */
  lemma {:induction false} TwoRequests() returns (r: Run)
    ensures IsRun(Open(), r)
    ensures r.events == [AdminPair("d", "", "t", 0), Arrive(1, EventsEndpoint, "t"), Arrive(2, Unpair, "t")]
    ensures Last(r) == System(map["d" := TV], map["t" := "d"], Pins.NO_PIN,
                              map[1 := Call(EventsEndpoint, "t", TV, Admitted), 2 := Call(Unpair, "t", TV, Admitted)], map[], map[])
  {
    r := EmptyRun(Open());
    r := OneMoreStep(Open(), r, AdminPair("d", "", "t", 0));
    assert Matches(Last(r).entries, "t", "d");
    r := OneMoreStep(Open(), r, Arrive(1, EventsEndpoint, "t"));
    r := OneMoreStep(Open(), r, Arrive(2, Unpair, "t"));
  }

  /** The stream of request 1. */
  function TheStream(queue: seq<Message>, done: bool, phase: StreamPhase, taken: seq<Message>, written: seq<Item>): Stream {
    Stream("t", Sub("d", -1, queue, done), false, true, phase, taken, written, [])
  }

  /** The pairing is gone, and its token was issued once. */
  ghost predicate Unpaired(s: System) {
    s.entries == map[] && s.issued == map["t" := "d"]
  }

  lemma {:induction false} UnpairedIsDead(s: System)
    requires Unpaired(s)
    ensures Dead(s, "t")
  {
  }

  // The single steps, with request 1's stream the only one.

  lemma {:induction false} AfterSubscribe(s: System)
    requires InPhase(s, 1, Admitted) && s.calls[1] == Call(EventsEndpoint, "t", TV, Admitted) && s.streams == map[]
    ensures Enabled(Open(), s, Subscribe(1, STATUS_ONLY, STATUS))
    ensures Next(Open(), s, Subscribe(1, STATUS_ONLY, STATUS)) ==
            SetPhase(s, 1, Ended).(streams := map[1 := TheStream([], false, Starting(STATUS), [], [])])
  {
  }

  lemma {:induction false} AfterWriteFirst(s: System)
    requires s.streams == map[1 := TheStream([], false, Starting(STATUS), [], [])]
    ensures Enabled(Open(), s, WriteFirst(1, true))
    ensures Next(Open(), s, WriteFirst(1, true)) ==
            s.(streams := map[1 := TheStream([], false, Looping, [], [STATUS.ToItem()])])
  {
    assert [] + [STATUS.ToItem()] == [STATUS.ToItem()];
  }

  lemma {:induction false} AfterPublish(s: System, done: bool)
    requires s.streams == map[1 := TheStream([], done, Looping, [], [STATUS.ToItem()])]
    ensures Enabled(Open(), s, Publish(CHANGED))
    ensures Next(Open(), s, Publish(CHANGED)) ==
            s.(streams := map[1 := TheStream([CHANGED], done, Looping, [], [STATUS.ToItem()])])
  {
    var t := TheStream([], done, Looping, [], [STATUS.ToItem()]);
    assert [] + [CHANGED] == [CHANGED];
    assert Offer(t.sub, CHANGED) == t.sub.(queue := [CHANGED]);
    assert OfferAll(s.streams, CHANGED) == map[1 := t.(sub := t.sub.(queue := [CHANGED]))];
  }

  lemma {:induction false} AfterTake(s: System, done: bool)
    requires s.streams == map[1 := TheStream([CHANGED], done, Looping, [], [STATUS.ToItem()])]
    ensures Enabled(Open(), s, TakeFrame(1, true))
    ensures Next(Open(), s, TakeFrame(1, true)) ==
            s.(streams := map[1 := TheStream([], done, Looping, [CHANGED], [STATUS.ToItem(), CHANGED.ToItem()])])
  {
    var t := TheStream([CHANGED], done, Looping, [], [STATUS.ToItem()]);
    assert [] + [CHANGED] == [CHANGED] && [CHANGED][1..] == [];
    assert [STATUS.ToItem()] + [CHANGED.ToItem()] == [STATUS.ToItem(), CHANGED.ToItem()];
    assert StreamStep(Open(), s, t, TakeFrame(1, true)) ==
           TheStream([], done, Looping, [CHANGED], [STATUS.ToItem(), CHANGED.ToItem()]);
  }

  lemma {:induction false} AfterRevoke(s: System)
    requires InPhase(s, 2, Admitted) && s.calls[2] == Call(Unpair, "t", TV, Admitted)
    requires s.entries == map["d" := TV] && s.issued == map["t" := "d"]
    ensures Enabled(Open(), s, RevokeOwn(2, true))
    ensures Next(Open(), s, RevokeOwn(2, true)) == SetPhase(s, 2, Revoking).(entries := map[])
    ensures Unpaired(Next(Open(), s, RevokeOwn(2, true)))
  {
    assert map["d" := TV] - {"d"} == map[];
  }

  lemma {:induction false} AfterDrop(s: System)
    requires InPhase(s, 2, Revoking) && s.calls[2].entry == TV
    requires s.streams == map[] || s.streams == map[1 := TheStream([], false, Looping, [], [STATUS.ToItem()])]
    ensures Enabled(Open(), s, DropOwn(2))
    ensures Next(Open(), s, DropOwn(2)) ==
            SetPhase(s, 2, Ended).(streams :=
            if s.streams == map[] then map[] else map[1 := TheStream([], true, Looping, [], [STATUS.ToItem()])])
  {
  }

  /** The unpair request runs to its end before the events request subscribes. */
  lemma {:induction false} UnpairThenSubscribe() returns (r: Run)
    ensures IsRun(Open(), r)
    ensures r.events == [AdminPair("d", "", "t", 0), Arrive(1, EventsEndpoint, "t"), Arrive(2, Unpair, "t"),
                         RevokeOwn(2, true), DropOwn(2), Subscribe(1, STATUS_ONLY, STATUS)]
    ensures Unpaired(Last(r)) && Last(r).streams == map[1 := TheStream([], false, Starting(STATUS), [], [])]
  {
    r := TwoRequests();
    AfterRevoke(Last(r));
    r := OneMoreStep(Open(), r, RevokeOwn(2, true));
    AfterDrop(Last(r));
    r := OneMoreStep(Open(), r, DropOwn(2));
    AfterSubscribe(Last(r));
    r := OneMoreStep(Open(), r, Subscribe(1, STATUS_ONLY, STATUS));
  }

  /** The stream goes on: its token is dead, it is not marked done, and it writes two frames. */
  lemma {:induction false} LateSubscriberIsNotClosed() returns (r: Run)
    ensures IsRun(Open(), r)
    ensures r.events == [AdminPair("d", "", "t", 0), Arrive(1, EventsEndpoint, "t"), Arrive(2, Unpair, "t"),
                         RevokeOwn(2, true), DropOwn(2), Subscribe(1, STATUS_ONLY, STATUS),
                         WriteFirst(1, true), Publish(CHANGED), TakeFrame(1, true)]
    ensures Dead(Last(r), "t")
    ensures Last(r).streams == map[1 := TheStream([], false, Looping, [CHANGED], [STATUS.ToItem(), CHANGED.ToItem()])]
  {
    r := UnpairThenSubscribe();
    AfterWriteFirst(Last(r));
    r := OneMoreStep(Open(), r, WriteFirst(1, true));
    AfterPublish(Last(r), false);
    r := OneMoreStep(Open(), r, Publish(CHANGED));
    AfterTake(Last(r), false);
    r := OneMoreStep(Open(), r, TakeFrame(1, true));
    UnpairedIsDead(Last(r));
  }

  // ---------- a stream that is open ----------

  lemma {:induction false} StreamOpened() returns (r: Run)
    ensures IsRun(Open(), r)
    ensures r.events == [AdminPair("d", "", "t", 0), Arrive(1, EventsEndpoint, "t"), Arrive(2, Unpair, "t"),
                         Subscribe(1, STATUS_ONLY, STATUS), WriteFirst(1, true)]
    ensures Last(r).entries == map["d" := TV] && Last(r).issued == map["t" := "d"]
    ensures InPhase(Last(r), 2, Admitted) && Last(r).calls[2] == Call(Unpair, "t", TV, Admitted)
    ensures Last(r).streams == map[1 := TheStream([], false, Looping, [], [STATUS.ToItem()])]
  {
    r := TwoRequests();
    AfterSubscribe(Last(r));
    r := OneMoreStep(Open(), r, Subscribe(1, STATUS_ONLY, STATUS));
    AfterWriteFirst(Last(r));
    r := OneMoreStep(Open(), r, WriteFirst(1, true));
  }

  // ---------- a frame published after dropDevice ----------

  lemma {:induction false} SubscribeThenUnpair() returns (r: Run)
    ensures IsRun(Open(), r)
    ensures r.events == [AdminPair("d", "", "t", 0), Arrive(1, EventsEndpoint, "t"), Arrive(2, Unpair, "t"),
                         Subscribe(1, STATUS_ONLY, STATUS), WriteFirst(1, true), RevokeOwn(2, true), DropOwn(2)]
    ensures Unpaired(Last(r))
    ensures Last(r).streams == map[1 := TheStream([], true, Looping, [], [STATUS.ToItem()])]
  {
    r := StreamOpened();
    AfterRevoke(Last(r));
    r := OneMoreStep(Open(), r, RevokeOwn(2, true));
    AfterDrop(Last(r));
    r := OneMoreStep(Open(), r, DropOwn(2));
  }

  /** The hub still queues for a stream that is marked done, and the stream may still write it. */
  lemma {:induction false} DroppedStreamWritesNewFrame() returns (r: Run)
    ensures IsRun(Open(), r)
    ensures r.events == [AdminPair("d", "", "t", 0), Arrive(1, EventsEndpoint, "t"), Arrive(2, Unpair, "t"),
                         Subscribe(1, STATUS_ONLY, STATUS), WriteFirst(1, true), RevokeOwn(2, true), DropOwn(2),
                         Publish(CHANGED), TakeFrame(1, true)]
    ensures Dead(Last(r), "t")
    ensures Last(r).streams == map[1 := TheStream([], true, Looping, [CHANGED], [STATUS.ToItem(), CHANGED.ToItem()])]
  {
    r := SubscribeThenUnpair();
    AfterPublish(Last(r), true);
    r := OneMoreStep(Open(), r, Publish(CHANGED));
    AfterTake(Last(r), true);
    r := OneMoreStep(Open(), r, TakeFrame(1, true));
    UnpairedIsDead(Last(r));
  }

  // ---------- revoked at the agent, dropped by a request that was already there ----------

  lemma {:induction false} AfterLateRevoke(s: System)
    requires InPhase(s, 2, Admitted) && s.calls[2] == Call(Unpair, "t", TV, Admitted) && Unpaired(s)
    ensures Enabled(Open(), s, RevokeOwn(2, true))
    ensures Next(Open(), s, RevokeOwn(2, true)) == SetPhase(s, 2, Revoking)
  {
    assert Revoked(s.entries, "d") == s.entries;
  }

  lemma {:induction false} SubscribeThenAdminRevoke() returns (r: Run)
    ensures IsRun(Open(), r)
    ensures r.events == [AdminPair("d", "", "t", 0), Arrive(1, EventsEndpoint, "t"), Arrive(2, Unpair, "t"),
                         Subscribe(1, STATUS_ONLY, STATUS), WriteFirst(1, true), AdminRevoke("d")]
    ensures |r.states| == 7 && Live(r.states[5], "t") && Unpaired(Last(r))
    ensures Last(r).streams == map[1 := TheStream([], false, Looping, [], [STATUS.ToItem()])]
    ensures InPhase(Last(r), 2, Admitted) && Last(r).calls[2] == Call(Unpair, "t", TV, Admitted)
  {
    r := StreamOpened();
    assert Matches(Last(r).entries, "t", "d");
    assert map["d" := TV] - {"d"} == map[];
    r := OneMoreStep(Open(), r, AdminRevoke("d"));
  }

  /** The revocation ended the token (step 5), and yet the stream is marked done. */
  lemma {:induction false} RevokedStreamIsDroppedByAnother() returns (r: Run)
    ensures IsRun(Open(), r) && |r.states| == 9
    ensures r.events == [AdminPair("d", "", "t", 0), Arrive(1, EventsEndpoint, "t"), Arrive(2, Unpair, "t"),
                         Subscribe(1, STATUS_ONLY, STATUS), WriteFirst(1, true), AdminRevoke("d"), RevokeOwn(2, true), DropOwn(2)]
    ensures Live(r.states[5], "t") && !Live(r.states[6], "t")
    ensures Last(r).streams == map[1 := TheStream([], true, Looping, [], [STATUS.ToItem()])]
  {
    r := SubscribeThenAdminRevoke();
    UnpairedIsDead(Last(r));
    AfterLateRevoke(Last(r));
    r := OneMoreStep(Open(), r, RevokeOwn(2, true));
    AfterDrop(Last(r));
    r := OneMoreStep(Open(), r, DropOwn(2));
  }

  // ---------- a second question without a second pairing ----------

  /** An agent that asks its user. */
  function Asking(): Config {
    Config(true, true, {}, [], Pins.Settings(60, 3))
  }

  lemma {:induction false} FirstPin()
    ensures Pins.SixDigits(0) == "000000"
  {
    Pins.ShiftOneMore(0, 0);
    Pins.ShiftOneMore(0, 1);
    Pins.ShiftOneMore(0, 2);
    Pins.ShiftOneMore(0, 3);
    Pins.ShiftOneMore(0, 4);
  }

  /** The user says yes to a request of device "d". */
  lemma {:induction false} ConfirmedRequest() returns (r: Run)
    ensures IsRun(Asking(), r)
    ensures r.events == [AdminPair("d", "", "t", 0), Arrive(1, OtherEndpoint, "t"), Decide(1, true)]
    ensures Last(r) == System(map["d" := TV.(confirmed := true)], map["t" := "d"], Pins.NO_PIN,
                              map[1 := Call(OtherEndpoint, "t", TV, Admitted)], map[], map[])
  {
    r := EmptyRun(Asking());
    r := OneMoreStep(Asking(), r, AdminPair("d", "", "t", 0));
    assert Matches(Last(r).entries, "t", "d");
    r := OneMoreStep(Asking(), r, Arrive(1, OtherEndpoint, "t"));
    r := OneMoreStep(Asking(), r, Decide(1, true));
  }

  /** The device then guesses a PIN, and the user is asked about it again though it was not paired again. */
  lemma {:induction false} PinFlowAsksAgain() returns (r: Run)
    ensures IsRun(Asking(), r)
    ensures r.events == [AdminPair("d", "", "t", 0), Arrive(1, OtherEndpoint, "t"), Decide(1, true),
                         MakePin(0, 0), GuessPin(2, "000000", "d", "", 0), DecidePairing(2, true)]
    ensures |r.states| == 7 && PairingIn(r.states[5], 2, Guessed) && r.states[5].pairings[2].device == "d"
  {
    FirstPin();
    r := ConfirmedRequest();
    r := OneMoreStep(Asking(), r, MakePin(0, 0));
    r := OneMoreStep(Asking(), r, GuessPin(2, "000000", "d", "", 0));
    r := OneMoreStep(Asking(), r, DecidePairing(2, true));
  }

  // ---------- a yes to the old pairing ----------

  /** The device is paired again while a request of its old pairing waits for the user. */
  lemma {:induction false} PairedWhileAsking() returns (r: Run)
    ensures IsRun(Asking(), r)
    ensures r.events == [AdminPair("d", "", "t", 0), Arrive(1, OtherEndpoint, "t"), AdminPair("d", "", "u", 0)]
    ensures Last(r) == System(map["d" := TV.(tokenHash := Sha256("u"))], map["t" := "d", "u" := "d"], Pins.NO_PIN,
                              map[1 := Call(OtherEndpoint, "t", TV, Waiting)], map[], map[])
  {
    r := EmptyRun(Asking());
    r := OneMoreStep(Asking(), r, AdminPair("d", "", "t", 0));
    assert Matches(Last(r).entries, "t", "d");
    r := OneMoreStep(Asking(), r, Arrive(1, OtherEndpoint, "t"));
    r := OneMoreStep(Asking(), r, AdminPair("d", "", "u", 0));
  }

  /** The yes to that request confirms the new pairing: its token is let in at once. */
  lemma {:induction false} OldYesConfirmsNewPairing() returns (r: Run)
    ensures IsRun(Asking(), r)
    ensures r.events == [AdminPair("d", "", "t", 0), Arrive(1, OtherEndpoint, "t"), AdminPair("d", "", "u", 0),
                         Decide(1, true), Arrive(2, OtherEndpoint, "u")]
    ensures InPhase(Last(r), 2, Admitted)
  {
    r := PairedWhileAsking();
    r := OneMoreStep(Asking(), r, Decide(1, true));
    assert Matches(Last(r).entries, "u", "d");
    r := OneMoreStep(Asking(), r, Arrive(2, OtherEndpoint, "u"));
  }

  // ---------- a ping after the revocation ----------

  lemma {:induction false} AfterHeartbeat(s: System)
    requires s.entries == map["d" := TV] && s.streams == map[1 := TheStream([], false, Looping, [], [STATUS.ToItem()])]
    ensures Enabled(Open(), s, Heartbeat(1))
    ensures Next(Open(), s, Heartbeat(1)) ==
            s.(streams := map[1 := TheStream([], false, Pinging, [], [STATUS.ToItem()])])
  {
    assert Matches(s.entries, "t", "d");
  }

  lemma {:induction false} AfterAdminRevoke(s: System)
    requires s.entries == map["d" := TV]
    ensures Next(Open(), s, AdminRevoke("d")) == s.(entries := map[])
  {
    assert map["d" := TV] - {"d"} == map[];
  }

  lemma {:induction false} AfterPing(s: System)
    requires s.streams == map[1 := TheStream([], false, Pinging, [], [STATUS.ToItem()])]
    ensures Enabled(Open(), s, WritePing(1, true))
    ensures Next(Open(), s, WritePing(1, true)) ==
            s.(streams := map[1 := TheStream([], false, Looping, [], [STATUS.ToItem(), Ping])])
  {
    assert [STATUS.ToItem()] + [Ping] == [STATUS.ToItem(), Ping];
  }

  /** The token is revoked between a heartbeat's check and its ping. */
  lemma {:induction false} PingAfterRevocation() returns (r: Run)
    ensures IsRun(Open(), r)
    ensures r.events == [AdminPair("d", "", "t", 0), Arrive(1, EventsEndpoint, "t"), Arrive(2, Unpair, "t"),
                         Subscribe(1, STATUS_ONLY, STATUS), WriteFirst(1, true), Heartbeat(1), AdminRevoke("d"), WritePing(1, true)]
    ensures Dead(Last(r), "t")
    ensures Last(r).streams == map[1 := TheStream([], false, Looping, [], [STATUS.ToItem(), Ping])]
  {
    r := StreamOpened();
    AfterHeartbeat(Last(r));
    r := OneMoreStep(Open(), r, Heartbeat(1));
    AfterAdminRevoke(Last(r));
    r := OneMoreStep(Open(), r, AdminRevoke("d"));
    AfterPing(Last(r));
    r := OneMoreStep(Open(), r, WritePing(1, true));
    UnpairedIsDead(Last(r));
  }
}
