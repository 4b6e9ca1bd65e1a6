/**
  What each step of a handler's loop does to its stream, in every run: what ends it, and that
  nothing goes out after that; and that a request is handled once.
 */
module StreamEnding {
  import opened Wrappers
  import opened EventStream
  import opened EventHub
  import opened Capabilities
  import opened Gateway
  import opened Delivery
  import opened Revocation
  import opened StreamClosing

  // ---------- what ends a stream ----------

  /** The loop returns: its hub or the client is gone, a heartbeat finds the token dead, or a write fails. */
  ghost predicate Ends(s: System, e: Action, id: nat) {
    || e == SeeDone(id)
    || e == Cancel(id)
    || (e == Heartbeat(id) && id in s.streams && !Live(s, s.streams[id].token))
    || (Writes(e, id) && !e.ok)
  }

  lemma {:induction false} StoppedAfterStep(cfg: Config, r: Run, i: nat, id: nat)
    requires IsRun(cfg, r) && 0 < i < |r.states| && id in r.states[i].streams
    ensures r.states[i].streams[id].phase == Stopped <==>
            id in r.states[i - 1].streams
            && (r.states[i - 1].streams[id].phase == Stopped || Ends(r.states[i - 1], r.events[i - 1], id))
  {
    var s, e := RunStream(cfg, r, i, id);
  }

  lemma {:induction false} EndingHasStream(cfg: Config, r: Run, j: nat, id: nat)
    requires IsRun(cfg, r) && j < |r.events| && Ends(r.states[j], r.events[j], id)
    ensures id in r.states[j].streams && r.states[j].streams[id].phase != Stopped
  {
    var _, _ := RunStep(cfg, r, j + 1);
  }

  /** Exactly when a stream has returned: one of those steps happened to it. */
  lemma {:induction false} StoppedExactly(cfg: Config, r: Run, i: nat, id: nat)
    requires IsRun(cfg, r) && i < |r.states| && id in r.states[i].streams
    ensures r.states[i].streams[id].phase == Stopped <==>
            exists j :: 0 <= j < i && Ends(r.states[j], r.events[j], id)
  {
    if i > 0 {
      StoppedAfterStep(cfg, r, i, id);
      if id in r.states[i - 1].streams {
        StoppedExactly(cfg, r, i - 1, id);
      } else {
        forall j | 0 <= j < i
          ensures !Ends(r.states[j], r.events[j], id)
        {
          if Ends(r.states[j], r.events[j], id) {
            EndingHasStream(cfg, r, j, id);
            StreamsStay(cfg, r, j, i - 1, id);
          }
        }
      }
    }
  }

  lemma {:induction false} EndingStepOnWire(cfg: Config, r: Run, j: nat, id: nat)
    requires IsRun(cfg, r) && j < |r.events| && Ends(r.states[j], r.events[j], id)
    ensures id in r.states[j].streams && id in r.states[j + 1].streams
    ensures r.states[j + 1].streams[id].phase == Stopped
    ensures !Writes(r.events[j], id) ==> Wire(r.states[j + 1].streams[id]) == Wire(r.states[j].streams[id])
  {
    EndingHasStream(cfg, r, j, id);
    var s, e := RunStream(cfg, r, j + 1, id);
  }

  /** Nothing is written after a stream has ended; by `done`, a gone client or a dead token not even at the end. */
  lemma {:induction false} EndedStreamIsSilent(cfg: Config, r: Run, j: nat, k: nat, id: nat)
    requires IsRun(cfg, r) && j < k < |r.states| && Ends(r.states[j], r.events[j], id)
    ensures id in r.states[j].streams && id in r.states[j + 1].streams && id in r.states[k].streams
    ensures r.states[k].streams[id].phase == Stopped
    ensures Wire(r.states[k].streams[id]) == Wire(r.states[j + 1].streams[id])
    ensures r.events[j] in [SeeDone(id), Cancel(id), Heartbeat(id)] ==>
              Wire(r.states[k].streams[id]) == Wire(r.states[j].streams[id])
    ensures k < |r.events| ==> !Writes(r.events[k], id)
  {
    EndingStepOnWire(cfg, r, j, id);
    StoppedStreamIsSilent(cfg, r, j + 1, k, id);
    if k < |r.events| {
      var _, _ := RunStep(cfg, r, k + 1);
    }
  }

  /** The loop sees `done` only after the hub disconnected the stream. */
  lemma {:induction false} SeenDoneMeansDisconnected(cfg: Config, r: Run, j: nat, id: nat)
    requires IsRun(cfg, r) && j < |r.events| && r.events[j] == SeeDone(id)
    ensures id in r.states[j].streams && exists k :: 0 <= k < j && Disconnects(r.states[k], r.events[k], id)
  {
    var _, _ := RunStep(cfg, r, j + 1);
    DisconnectedExactly(cfg, r, j, id);
  }

  /** And with `done` set the loop can always see it. */
  lemma {:induction false} DoneCanBeSeen(cfg: Config, s: System, id: nat)
    requires id in s.streams && s.streams[id].sub.done && s.streams[id].phase == Looping
    ensures Enabled(cfg, s, SeeDone(id))
  {
  }

  // ---------- subscription and ticks ----------

  lemma {:induction false} RegisteredAfterStep(cfg: Config, r: Run, i: nat, id: nat)
    requires IsRun(cfg, r) && 0 < i < |r.states| && id in r.states[i].streams
    requires id in r.states[i - 1].streams && r.states[i - 1].streams[id].phase != Stopped ==>
               r.states[i - 1].streams[id].registered
    ensures r.states[i].streams[id].phase != Stopped ==> r.states[i].streams[id].registered
  {
    var s, e := RunStream(cfg, r, i, id);
  }

  /** A stream stays in the hub until it has returned. */
  lemma {:induction false} RegisteredUntilStopped(cfg: Config, r: Run, i: nat, id: nat)
    requires IsRun(cfg, r) && i < |r.states| && id in r.states[i].streams && r.states[i].streams[id].phase != Stopped
    ensures r.states[i].streams[id].registered
  {
    if id in r.states[i - 1].streams && r.states[i - 1].streams[id].phase != Stopped {
      RegisteredUntilStopped(cfg, r, i - 1, id);
    }
    RegisteredAfterStep(cfg, r, i, id);
  }

  /** What a stream samples is what its subscription asked for. */
  lemma {:induction false} StreamWasSubscribed(cfg: Config, r: Run, i: nat, id: nat) returns (j: nat)
    requires IsRun(cfg, r) && i < |r.states| && id in r.states[i].streams
    ensures j < i && r.events[j].Subscribe? && r.events[j].id == id
    ensures r.states[i].streams[id].traffic == r.events[j].topics.traffic
  {
    var s, e := RunStream(cfg, r, i, id);
    if id in s.streams {
      StreamStays(cfg, r, i, id);
      j := StreamWasSubscribed(cfg, r, i - 1, id);
    } else {
      j := i - 1;
    }
  }

  lemma {:induction false} TickStep(cfg: Config, r: Run, i: nat)
    requires IsRun(cfg, r) && i < |r.events| && r.events[i].Tick?
    ensures r.events[i].id in r.states[i].streams && r.states[i].streams[r.events[i].id].traffic
    ensures Cap.Traffic.Name() in Advertised(cfg.hooks, cfg.disabled) && r.events[i].m.kind == EventStream.Traffic
  {
    var _, _ := RunStep(cfg, r, i + 1);
  }

  /** Traffic is sampled only for a stream that asked for it, by an agent that reports it and has not disabled it. */
  lemma {:induction false} TicksNeedTraffic(cfg: Config, r: Run, i: nat) returns (j: nat)
    requires IsRun(cfg, r) && i < |r.events| && r.events[i].Tick?
    ensures j < i && r.events[j].Subscribe? && r.events[j].id == r.events[i].id && r.events[j].topics.traffic
    ensures TrafficReporter in cfg.hooks && "traffic" !in cfg.disabled
  {
    TickStep(cfg, r, i);
    AdvertisedIsImplemented(cfg.hooks, cfg.disabled, Cap.Traffic);
    j := StreamWasSubscribed(cfg, r, i, r.events[i].id);
  }

  // ---------- what was published, without the hub's filter ----------

  function Published(events: seq<Action>): seq<Message> {
    if events == [] then []
    else
      var last := events[|events| - 1];
      Published(events[..|events| - 1]) + if last.Publish? then [last.m] else []
  }

  /** Where a level stands in "error", "warning", "info", "debug". */
  function Rank(level: string): nat {
    if level == "error" then 0 else if level == "warning" then 1 else if level == "info" then 2 else 3
  }

  /** A log line is asked for with its topic, at or above the level if one was given, or of an unknown level; all else always. */
  predicate AskedFor(topics: Topics, m: Message) {
    m.kind == EventStream.Log ==>
      topics.logs
      && (topics.level == "" || m.level !in {"error", "warning", "info", "debug"} || Rank(m.level) <= Rank(topics.level))
  }

  lemma {:induction false} WantedExactly(topics: Topics, m: Message)
    requires topics.level in {"", "error", "warning", "info", "debug"}
    ensures Wants(LevelOf(topics), m) <==> AskedFor(topics, m)
  {
    Severities(topics.level);
    Severities(m.level);
  }

  lemma {:induction false} KnownLevels(level: string)
    ensures level in LOG_LEVELS <==> level in {"error", "warning", "info", "debug"}
  {
    assert LOG_LEVELS[0] == "error" && LOG_LEVELS[1] == "warning" && LOG_LEVELS[2] == "info" && LOG_LEVELS[3] == "debug";
  }

  /** What was asked for, in order. */
  function Selected(topics: Topics, ms: seq<Message>): seq<Message> {
    if ms == [] then []
    else Selected(topics, ms[..|ms| - 1]) + if AskedFor(topics, ms[|ms| - 1]) then [ms[|ms| - 1]] else []
  }

  lemma {:induction false} SelectedSnoc(topics: Topics, ms: seq<Message>, m: Message)
    ensures Selected(topics, ms + [m]) == Selected(topics, ms) + if AskedFor(topics, m) then [m] else []
  {
    assert (ms + [m])[..|ms|] == ms;
  }

  /** No subscription of the stream begins or ends in steps j + 1 to i - 1. */
  ghost predicate StaysSubscribed(events: seq<Action>, j: nat, i: nat, id: nat)
    requires i <= |events|
  {
    forall k :: j < k < i ==> events[k] != Unsubscribe(id) && !(events[k].Subscribe? && events[k].id == id)
  }

  function Given(topics: Topics, e: Action): seq<Message> {
    if e.Publish? && AskedFor(topics, e.m) then [e.m] else []
  }

  lemma {:induction false} PublishedSnoc(topics: Topics, events: seq<Action>, j: nat, i: nat)
    requires j < i < |events|
    ensures Selected(topics, Published(events[j + 1..i + 1]))
         == Selected(topics, Published(events[j + 1..i])) + Given(topics, events[i])
  {
    var before, e := events[j + 1..i], events[i];
    var all := events[j + 1..i + 1];
    assert all[..|all| - 1] == before && all[|all| - 1] == e;
    if e.Publish? {
      SelectedSnoc(topics, Published(before), e.m);
    } else {
      assert Published(before) + [] == Published(before);
    }
  }

  lemma {:induction false} FeedSnoc(events: seq<Action>, i: nat, id: nat)
    requires i < |events|
    ensures FeedOf(events[..i + 1], id) == FeedStep(FeedOf(events[..i], id), events[i], id)
  {
    assert events[..i + 1][..i] == events[..i] && events[..i + 1][i] == events[i];
  }

  predicate GoodLevel(topics: Topics) {
    topics.level in {"", "error", "warning", "info", "debug"}
  }

  lemma {:induction false} FeedStepGives(topics: Topics, f: Feed, e: Action, id: nat)
    requires f.On? && f.logLevel == LevelOf(topics) && GoodLevel(topics)
    requires e != Unsubscribe(id) && !(e.Subscribe? && e.id == id)
    ensures FeedStep(f, e, id) == On(f.logLevel, f.first, f.frames + Given(topics, e))
  {
    if e.Publish? {
      WantedExactly(topics, e.m);
    }
    assert f.frames + [] == f.frames;
  }

  lemma {:induction false} FeedExtends(topics: Topics, events: seq<Action>, j: nat, i: nat, id: nat, f: Feed) returns (g: Feed)
    requires j < i < |events| && f == FeedOf(events[..i], id) && GoodLevel(topics)
    requires f.On? && f.logLevel == LevelOf(topics) && f.frames == Selected(topics, Published(events[j + 1..i]))
    requires events[i] != Unsubscribe(id) && !(events[i].Subscribe? && events[i].id == id)
    ensures g == FeedOf(events[..i + 1], id)
    ensures g.On? && g.logLevel == f.logLevel && g.frames == Selected(topics, Published(events[j + 1..i + 1]))
  {
    FeedSnoc(events, i, id);
    PublishedSnoc(topics, events, j, i);
    FeedStepGives(topics, f, events[i], id);
    g := On(f.logLevel, f.first, f.frames + Given(topics, events[i]));
  }

  lemma {:induction false} FeedBegins(events: seq<Action>, j: nat, id: nat) returns (f: Feed)
    requires j < |events| && events[j].Subscribe? && events[j].id == id
    ensures f == FeedOf(events[..j + 1], id)
    ensures f.On? && f.logLevel == LevelOf(events[j].topics)
    ensures f.frames == Selected(events[j].topics, Published(events[j + 1..j + 1]))
  {
    FeedSnoc(events, j, id);
    assert events[j + 1..j + 1] == [];
    f := On(LevelOf(events[j].topics), events[j].first, []);
  }

  /** The frames fed to a stream: those published since step j, its subscription, that it asked for. */
  lemma {:induction false} FeedIsPublished(events: seq<Action>, j: nat, i: nat, id: nat) returns (f: Feed)
    requires j < i <= |events| && events[j].Subscribe? && events[j].id == id && StaysSubscribed(events, j, i, id)
    requires GoodLevel(events[j].topics)
    ensures f == FeedOf(events[..i], id)
    ensures f.On? && f.logLevel == LevelOf(events[j].topics)
    ensures f.frames == Selected(events[j].topics, Published(events[j + 1..i]))
    decreases i
  {
    if i == j + 1 {
      f := FeedBegins(events, j, id);
    } else {
      f := FeedIsPublished(events, j, i - 1, id);
      f := FeedExtends(events[j].topics, events, j, i - 1, id, f);
    }
  }

  lemma {:induction false} SubscribesWithGoodLevel(cfg: Config, r: Run, j: nat)
    requires IsRun(cfg, r) && j < |r.events| && r.events[j].Subscribe?
    ensures GoodLevel(r.events[j].topics)
  {
    var _, _ := RunStep(cfg, r, j + 1);
    KnownLevels(r.events[j].topics.level);
  }

  /**
    In every run a stream that is still subscribed has taken or queued what it asked for of the
    frames published since its subscription, in order and once: all of it unless it was disconnected.
   */
  lemma {:induction false} PublishedFramesArrive(cfg: Config, r: Run, j: nat, i: nat, id: nat)
    requires IsRun(cfg, r) && j < i < |r.states| && r.events[j].Subscribe? && r.events[j].id == id
    requires StaysSubscribed(r.events, j, i, id)
    ensures id in r.states[i].streams
    ensures var t, asked := r.states[i].streams[id], Selected(r.events[j].topics, Published(r.events[j + 1..i]));
            && Subsequence(t.taken + t.sub.queue, asked)
            && (!t.sub.done ==> t.taken + t.sub.queue == asked)
  {
    SubscribesWithGoodLevel(cfg, r, j);
    var _ := FeedIsPublished(r.events, j, i, id);
    RunKeepsFaithful(cfg, r, i, id);
  }

  // ---------- a request is handled once ----------

  /** The request leaves the auth wrapper's next handler with this step. */
  predicate Handles(e: Action, id: nat) {
    (e.Serve? || e.RevokeOwn? || e.Subscribe?) && e.id == id
  }

  lemma {:induction false} HandlingStep(cfg: Config, r: Run, i: nat, id: nat)
    requires IsRun(cfg, r) && i < |r.events| && Handles(r.events[i], id)
    ensures InPhase(r.states[i], id, Admitted)
    ensures id in r.states[i + 1].calls && r.states[i + 1].calls[id].phase in {Revoking, Ended}
  {
    var _, _ := RunStep(cfg, r, i + 1);
  }

  lemma {:induction false} HandledAfterStep(cfg: Config, r: Run, i: nat, id: nat)
    requires IsRun(cfg, r) && 0 < i < |r.states|
    requires id in r.states[i - 1].calls && r.states[i - 1].calls[id].phase in {Revoking, Ended}
    ensures id in r.states[i].calls && r.states[i].calls[id].phase in {Revoking, Ended}
  {
    var s, e := RunStep(cfg, r, i);
  }

  lemma {:induction false} StaysHandled(cfg: Config, r: Run, i: nat, j: nat, id: nat)
    requires IsRun(cfg, r) && i <= j < |r.states|
    requires id in r.states[i].calls && r.states[i].calls[id].phase in {Revoking, Ended}
    ensures id in r.states[j].calls && r.states[j].calls[id].phase in {Revoking, Ended}
  {
    if i < j {
      StaysHandled(cfg, r, i, j - 1, id);
      HandledAfterStep(cfg, r, j, id);
    }
  }

  /** No request is served, revoked or subscribed for a second time. */
  lemma {:induction false} HandledOnce(cfg: Config, r: Run, i: nat, j: nat, id: nat)
    requires IsRun(cfg, r) && i < j < |r.events| && Handles(r.events[i], id)
    ensures !Handles(r.events[j], id)
  {
    HandlingStep(cfg, r, i, id);
    StaysHandled(cfg, r, i + 1, j, id);
    if Handles(r.events[j], id) {
      HandlingStep(cfg, r, j, id);
    }
  }
}
