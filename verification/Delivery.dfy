/**
  What a subscriber receives, in every run: which published frames reach its queue and
  the wire, and what the controller makes of the bytes when the connection is cut.
 */
module Delivery {
  import opened Bytes
  import opened EventStream
  import opened EventHub
  import opened Gateway

  // ---------- what was published for a stream ----------

  /** Read off the steps alone: nothing yet; what was published and wanted since the subscription; the same, after its end. */
  datatype Feed =
    | Unborn
    | On(logLevel: int, first: Message, frames: seq<Message>)
    | Off(logLevel: int, first: Message, frames: seq<Message>)

  function FeedStep(f: Feed, e: Action, id: nat): Feed {
    if e.Subscribe? && e.id == id then On(LevelOf(e.topics), e.first, [])
    else if e.Unsubscribe? && e.id == id && f.On? then Off(f.logLevel, f.first, f.frames)
    else if e.Publish? && f.On? && Wants(f.logLevel, e.m) then On(f.logLevel, f.first, f.frames + [e.m])
    else f
  }

  function FeedOf(events: seq<Action>, id: nat): Feed {
    if events == [] then Unborn else FeedStep(FeedOf(events[..|events| - 1], id), events[|events| - 1], id)
  }

  /** `a` is found in `b` at the ascending positions `at`. */
  ghost predicate FoundAt<T>(a: seq<T>, b: seq<T>, at: seq<nat>) {
    && |at| == |a|
    && (forall i, j :: 0 <= i < j < |at| ==> at[i] < at[j])
    && forall i :: 0 <= i < |at| ==> at[i] < |b| && b[at[i]] == a[i]
  }

  /** In order, with gaps allowed. */
  ghost predicate Subsequence<T>(a: seq<T>, b: seq<T>) {
    exists at: seq<nat> :: FoundAt(a, b, at)
  }

  lemma {:induction false} EmptySubsequence<T>(b: seq<T>)
    ensures Subsequence([], b)
  {
    assert FoundAt([], b, []);
  }

  lemma {:induction false} SubsequenceGrows<T>(a: seq<T>, b: seq<T>, x: T)
    requires Subsequence(a, b)
    ensures Subsequence(a + [x], b + [x]) && Subsequence(a, b + [x])
  {
    var at: seq<nat> :| FoundAt(a, b, at);
    var more: seq<nat> := at + [|b|];
    assert FoundAt(a, b + [x], at);
    assert FoundAt(a + [x], b + [x], more);
  }

  // ---------- the queue ----------

  ghost predicate QueueFaithful(t: Stream, frames: seq<Message>) {
    && |t.sub.queue| <= CAPACITY
    && Subsequence(t.taken + t.sub.queue, frames)
    && (!t.sub.done ==> t.taken + t.sub.queue == frames)
  }

  /** How a stream stands to its feed. */
  ghost predicate Faithful(t: Stream, f: Feed) {
    && !f.Unborn?
    && t.registered == f.On?
    && t.sub.logLevel == f.logLevel
    && QueueFaithful(t, f.frames)
    && WireFaithful(t, f.first)
  }

  // ---------- the wire ----------

  function Items(ms: seq<Message>): seq<Item> {
    seq(|ms|, i requires 0 <= i < |ms| => ms[i].ToItem())
  }

  /** Frames are pushed by the hub or, traffic only, sampled at a tick. */
  predicate InPart(item: Item, sampled: bool) {
    item.Frame? && (item.kind == EventStream.Traffic) == sampled
  }

  /** The sampled or the pushed frames of the wire. */
  function Part(items: seq<Item>, sampled: bool): seq<Item> {
    if items == [] then []
    else Part(items[..|items| - 1], sampled) + if InPart(items[|items| - 1], sampled) then [items[|items| - 1]] else []
  }

  /**
    The wire carries the initial status, then the frames taken so far; the last of them may be
    the item whose write failed.
   */
  ghost predicate WireFaithful(t: Stream, first: Message) {
    && AllSendable(Wire(t))
    && (t.phase != Stopped ==> t.attempt == [])
    && first.kind == EventStream.Status && Encodable(first)
    && (forall i :: 0 <= i < |t.sub.queue| ==> Pushable(t.sub.queue[i]))
    && match t.phase
       case Starting(m) => m == first && t.written == [] && t.taken == []
       case _ => Part(Wire(t), false) == Items([first] + t.taken)
  }

  ghost predicate Pushable(m: Message) {
    Encodable(m) && m.kind != EventStream.Traffic
  }

  lemma {:induction false} PartSnoc(items: seq<Item>, x: Item, sampled: bool)
    ensures Part(items + [x], sampled) == Part(items, sampled) + if InPart(x, sampled) then [x] else []
  {
    assert (items + [x])[..|items|] == items;
  }

  lemma {:induction false} ItemsSnoc(ms: seq<Message>, m: Message)
    ensures Items(ms + [m]) == Items(ms) + [m.ToItem()]
  {
  }

  // ---------- every step ----------

  lemma {:induction false} OfferKeepsQueue(t: Stream, m: Message, frames: seq<Message>)
    requires QueueFaithful(t, frames)
    ensures QueueFaithful(t.(sub := Offer(t.sub, m)), if Wants(t.sub.logLevel, m) then frames + [m] else frames)
  {
    if Wants(t.sub.logLevel, m) {
      SubsequenceGrows(t.taken + t.sub.queue, frames, m);
      assert t.taken + (t.sub.queue + [m]) == t.taken + t.sub.queue + [m];
    }
  }

  lemma {:induction false} TakeKeepsQueue(t: Stream)
    requires t.sub.queue != []
    ensures t.taken + [t.sub.queue[0]] + t.sub.queue[1..] == t.taken + t.sub.queue
  {
  }

  /** What a write puts on the wire does not depend on its success. */
  lemma {:induction false} SendOnWire(t: Stream, x: Item, ok: bool, sampled: bool)
    requires t.attempt == []
    ensures Wire(Send(t, x, ok)) == Wire(t) + [x]
    ensures Part(Wire(Send(t, x, ok)), sampled) == Part(Wire(t), sampled) + if InPart(x, sampled) then [x] else []
  {
    PartSnoc(Wire(t), x, sampled);
  }

  lemma {:induction false} WriteFirstKeepsWire(t: Stream, first: Message, ok: bool)
    requires WireFaithful(t, first) && t.phase.Starting?
    ensures WireFaithful(Send(t, first.ToItem(), ok), first)
  {
    SendOnWire(t, first.ToItem(), ok, false);
    ItemsSnoc([], first);
    assert [] + [first.ToItem()] == [first.ToItem()] && [] + [first] == [first] == [first] + t.taken;
  }

  lemma {:induction false} TakenItems(first: Message, taken: seq<Message>, m: Message)
    ensures Items([first] + (taken + [m])) == Items([first] + taken) + [m.ToItem()]
  {
    ItemsSnoc([first] + taken, m);
    Regroup3([first], taken, [m]);
  }

  lemma {:induction false} SendableSnoc(items: seq<Item>, x: Item)
    requires AllSendable(items) && Sendable(x)
    ensures AllSendable(items + [x])
  {
  }

  lemma {:induction false} TakeKeepsWire(t: Stream, first: Message, ok: bool)
    requires WireFaithful(t, first) && t.phase == Looping && t.sub.queue != []
    ensures WireFaithful(Send(Take(t), t.sub.queue[0].ToItem(), ok), first)
  {
    var m := t.sub.queue[0];
    assert Pushable(m);
    SendOnWire(Take(t), m.ToItem(), ok, false);
    SendableSnoc(Wire(t), m.ToItem());
    TakenItems(first, t.taken, m);
  }

  /** Heartbeats and traffic ticks leave no trace in what counts as pushed. */
  lemma {:induction false} AsideKeepsWire(t: Stream, first: Message, x: Item, ok: bool)
    requires WireFaithful(t, first) && (t.phase == Looping || t.phase == Pinging) && Sendable(x)
    requires x.Frame? ==> x.kind == EventStream.Traffic
    ensures WireFaithful(Send(t, x, ok), first)
  {
    SendOnWire(t, x, ok, false);
    SendableSnoc(Wire(t), x);
  }

  /** From inside the loop only the phase may change without a write. */
  lemma {:induction false} PhaseKeepsWire(t: Stream, first: Message, phase: StreamPhase)
    requires WireFaithful(t, first) && !t.phase.Starting? && t.phase != Stopped && !phase.Starting?
    ensures WireFaithful(t.(phase := phase), first)
  {
  }

  lemma {:induction false} OwnStepKeepsWire(cfg: Config, r: Run, i: nat, id: nat, first: Message)
    requires IsRun(cfg, r) && 0 < i < |r.states|
    requires id in r.states[i - 1].streams && WireFaithful(r.states[i - 1].streams[id], first)
    requires IsStreamStep(r.events[i - 1]) && r.events[i - 1].id == id
    ensures id in r.states[i].streams && WireFaithful(r.states[i].streams[id], first)
  {
    var s, e := RunStream(cfg, r, i, id);
    var t := s.streams[id];
    if e.WriteFirst? {
      WriteFirstKeepsWire(t, first, e.ok);
    } else if e.TakeFrame? {
      TakeKeepsWire(t, first, e.ok);
    } else if e.WritePing? {
      AsideKeepsWire(t, first, Ping, e.ok);
    } else if e.Tick? {
      AsideKeepsWire(t, first, e.m.ToItem(), e.ok);
    } else if !e.Unsubscribe? {
      PhaseKeepsWire(t, first, r.states[i].streams[id].phase);
    }
  }

  predicate TicksStream(e: Action, id: nat) {
    e.Tick? && e.id == id
  }

  /** The traffic messages of a stream's ticks. */
  function TicksOf(events: seq<Action>, id: nat): seq<Message> {
    if events == [] then []
    else
      var e := events[|events| - 1];
      TicksOf(events[..|events| - 1], id) + if TicksStream(e, id) then [e.m] else []
  }

  lemma {:induction false} OwnStepSamples(cfg: Config, r: Run, i: nat, id: nat, first: Message)
    requires IsRun(cfg, r) && 0 < i < |r.states|
    requires id in r.states[i - 1].streams && WireFaithful(r.states[i - 1].streams[id], first)
    requires IsStreamStep(r.events[i - 1]) && r.events[i - 1].id == id
    ensures id in r.states[i].streams
    ensures Part(Wire(r.states[i].streams[id]), true)
         == Part(Wire(r.states[i - 1].streams[id]), true)
            + if r.events[i - 1].Tick? then [r.events[i - 1].m.ToItem()] else []
  {
    var s, e := RunStream(cfg, r, i, id);
    var t := s.streams[id];
    if e.WriteFirst? {
      SendOnWire(t, first.ToItem(), e.ok, true);
    } else if e.TakeFrame? {
      assert Pushable(t.sub.queue[0]);
      SendOnWire(Take(t), t.sub.queue[0].ToItem(), e.ok, true);
    } else if e.WritePing? {
      SendOnWire(t, Ping, e.ok, true);
    } else if e.Tick? {
      SendOnWire(t, e.m.ToItem(), e.ok, true);
    }
  }

  lemma {:induction false} OtherStepKeepsWire(cfg: Config, s: System, e: Action, id: nat)
    requires id in s.streams && !(IsStreamStep(e) && e.id == id)
    ensures Wire(StreamAfter(cfg, s, e, id)) == Wire(s.streams[id])
  {
  }

  lemma {:induction false} TicksSnoc(events: seq<Action>, i: nat, id: nat)
    requires 0 < i <= |events|
    ensures var e := events[i - 1];
            TicksOf(events[..i], id) == TicksOf(events[..i - 1], id) + if TicksStream(e, id) then [e.m] else []
  {
    assert events[..i][..i - 1] == events[..i - 1] && events[..i][i - 1] == events[i - 1];
  }

  lemma {:induction false} TickHasStream(cfg: Config, s: System, e: Action)
    requires Enabled(cfg, s, e) && e.Tick?
    ensures e.id in s.streams && IsStreamStep(e)
  {
  }

  lemma {:induction false} StepSamples(cfg: Config, r: Run, i: nat, id: nat)
    requires IsRun(cfg, r) && 0 < i < |r.states| && id in r.states[i - 1].streams
    ensures id in r.states[i].streams
    ensures Part(Wire(r.states[i].streams[id]), true)
         == Part(Wire(r.states[i - 1].streams[id]), true)
            + if TicksStream(r.events[i - 1], id) then [r.events[i - 1].m.ToItem()] else []
  {
    var s, e := RunStream(cfg, r, i, id);
    if IsStreamStep(e) && e.id == id {
      RunKeepsFaithful(cfg, r, i - 1, id);
      OwnStepSamples(cfg, r, i, id, FeedOf(r.events[..i - 1], id).first);
    } else {
      OtherStepKeepsWire(cfg, s, e, id);
    }
  }

  lemma {:induction false} BirthSamplesNothing(cfg: Config, r: Run, i: nat, id: nat)
    requires IsRun(cfg, r) && 0 < i < |r.states| && id !in r.states[i - 1].streams
    ensures !TicksStream(r.events[i - 1], id)
    ensures id in r.states[i].streams ==> Wire(r.states[i].streams[id]) == []
  {
    var s, e := RunStream(cfg, r, i, id);
    if e.Tick? {
      TickHasStream(cfg, s, e);
    }
  }

  /** The sampled frames on the wire are the ticks of the stream, in order. */
  lemma {:induction false} RunSamplesTicks(cfg: Config, r: Run, i: nat, id: nat)
    requires IsRun(cfg, r) && i < |r.states|
    ensures id in r.states[i].streams ==> Part(Wire(r.states[i].streams[id]), true) == Items(TicksOf(r.events[..i], id))
    ensures id !in r.states[i].streams ==> TicksOf(r.events[..i], id) == []
  {
    if i > 0 {
      RunSamplesTicks(cfg, r, i - 1, id);
      TicksSnoc(r.events, i, id);
      if id in r.states[i - 1].streams {
        StepSamples(cfg, r, i, id);
        if TicksStream(r.events[i - 1], id) {
          ItemsSnoc(TicksOf(r.events[..i - 1], id), r.events[i - 1].m);
        }
      } else {
        BirthSamplesNothing(cfg, r, i, id);
      }
    }
  }

  lemma {:induction false} PublishKeepsFaithful(t: Stream, f: Feed, m: Message)
    requires Faithful(t, f) && t.registered && Pushable(m)
    ensures Faithful(t.(sub := Offer(t.sub, m)),
                     if Wants(f.logLevel, m) then On(f.logLevel, f.first, f.frames + [m]) else f)
  {
    OfferKeepsQueue(t, m, f.frames);
  }

  lemma {:induction false} StreamStepKeepsQueue(cfg: Config, s: System, t: Stream, e: Action, frames: seq<Message>)
    requires QueueFaithful(t, frames) && IsStreamStep(e)
    ensures var u := StreamStep(cfg, s, t, e);
            QueueFaithful(u, frames) && u.sub.logLevel == t.sub.logLevel && u.registered == (t.registered && !e.Unsubscribe?)
  {
    if e.TakeFrame? && t.sub.queue != [] {
      TakeKeepsQueue(t);
    }
  }

  lemma {:induction false} OtherStepKeepsFaithful(cfg: Config, s: System, e: Action, id: nat, f: Feed)
    requires id in s.streams && Faithful(s.streams[id], f)
    requires e.Publish? ==> !s.streams[id].registered
    requires (IsStreamStep(e) || e.Subscribe?) ==> e.id != id
    ensures FeedStep(f, e, id) == f && Faithful(StreamAfter(cfg, s, e, id), f)
  {
  }

  lemma {:induction false} NewStreamIsFaithful(call: Call, topics: Topics, first: Message)
    requires Encodable(first) && first.kind == EventStream.Status
    ensures Faithful(NewStream(call, topics, first), On(LevelOf(topics), first, []))
  {
    EmptySubsequence<Message>([]);
    var none: seq<Message> := [];
    assert none + none == none;
  }

  lemma {:induction false} RunKeepsFaithful(cfg: Config, r: Run, i: nat, id: nat)
    requires IsRun(cfg, r) && i < |r.states|
    ensures id in r.states[i].streams <==> !FeedOf(r.events[..i], id).Unborn?
    ensures id in r.states[i].streams ==> Faithful(r.states[i].streams[id], FeedOf(r.events[..i], id))
  {
    if i > 0 {
      var s, e := RunStream(cfg, r, i, id);
      RunKeepsFaithful(cfg, r, i - 1, id);
      assert r.events[..i][..i - 1] == r.events[..i - 1] && r.events[..i][i - 1] == e;
      var f := FeedOf(r.events[..i - 1], id);
      if id in s.streams && e.Publish? && s.streams[id].registered {
        PublishKeepsFaithful(s.streams[id], f, e.m);
      } else if id in s.streams && IsStreamStep(e) && e.id == id {
        OwnStepKeepsWire(cfg, r, i, id, f.first);
        StreamStepKeepsQueue(cfg, s, s.streams[id], e, f.frames);
      } else if id in s.streams {
        OtherStepKeepsFaithful(cfg, s, e, id, f);
      } else if e.Subscribe? && e.id == id {
        NewStreamIsFaithful(s.calls[id], e.topics, e.first);
      }
    }
  }

  // ---------- main results ----------

  /**
    Hub delivery: in every interleaving, what a stream has taken and what is still queued
    are the published frames it wants, in order; all of them unless it was disconnected.
   */
  lemma {:induction false} HubDelivery(cfg: Config, r: Run, i: nat, id: nat)
    requires IsRun(cfg, r) && i < |r.states| && id in r.states[i].streams
    ensures var t, f := r.states[i].streams[id], FeedOf(r.events[..i], id);
            && !f.Unborn?
            && |t.sub.queue| <= CAPACITY
            && Subsequence(t.taken + t.sub.queue, f.frames)
            && (!t.sub.done ==> t.taken + t.sub.queue == f.frames)
  {
    RunKeepsFaithful(cfg, r, i, id);
  }

  /** The step that disconnects a subscriber: a wanted frame meets a full queue, or its device is unpaired. */
  ghost predicate Disconnects(s: System, e: Action, id: nat) {
    && id in s.streams && s.streams[id].registered
    && var t := s.streams[id];
    || (e.Publish? && Wants(t.sub.logLevel, e.m) && |t.sub.queue| >= CAPACITY)
    || (e.DropOwn? && e.id in s.calls && s.calls[e.id].endpoint.Unpair? && s.calls[e.id].entry.deviceID == t.sub.device)
  }

  ghost predicate RevokingMeansUnpair(s: System) {
    forall id :: id in s.calls && s.calls[id].phase == Revoking ==> s.calls[id].endpoint.Unpair?
  }

  lemma {:induction false} StepKeepsRevoking(cfg: Config, s: System, e: Action)
    requires RevokingMeansUnpair(s) && Enabled(cfg, s, e)
    ensures RevokingMeansUnpair(Next(cfg, s, e))
  {
  }

  lemma {:induction false} RunKeepsRevoking(cfg: Config, r: Run, i: nat)
    requires IsRun(cfg, r) && i < |r.states|
    ensures RevokingMeansUnpair(r.states[i])
  {
    if i > 0 {
      RunKeepsRevoking(cfg, r, i - 1);
      var s, e := RunStep(cfg, r, i);
      StepKeepsRevoking(cfg, s, e);
    }
  }

  lemma {:induction false} StepDisconnects(cfg: Config, r: Run, i: nat, id: nat)
    requires IsRun(cfg, r) && 0 < i < |r.states| && id in r.states[i].streams
    ensures r.states[i].streams[id].sub.done <==>
            id in r.states[i - 1].streams
            && (r.states[i - 1].streams[id].sub.done || Disconnects(r.states[i - 1], r.events[i - 1], id))
  {
    RunKeepsRevoking(cfg, r, i - 1);
    var s, e := RunStream(cfg, r, i, id);
  }

  /** Exactly when a subscriber is disconnected: one of those two happened to it. */
  lemma {:induction false} DisconnectedExactly(cfg: Config, r: Run, i: nat, id: nat)
    requires IsRun(cfg, r) && i < |r.states| && id in r.states[i].streams
    ensures r.states[i].streams[id].sub.done <==>
            exists k :: 0 <= k < i && Disconnects(r.states[k], r.events[k], id)
  {
    if i > 0 {
      StepDisconnects(cfg, r, i, id);
      if id in r.states[i - 1].streams {
        DisconnectedExactly(cfg, r, i - 1, id);
      } else {
        forall k | 0 <= k < i
          ensures !Disconnects(r.states[k], r.events[k], id)
        {
          if id in r.states[k].streams {
            StreamsStay(cfg, r, k, i - 1, id);
          }
        }
      }
    }
  }

  // ---------- end to end ----------

  function Kept(e: Event, sampled: bool): seq<Event> {
    if (e.typ == KindBytes(EventStream.Traffic)) == sampled then [e] else []
  }

  /** The traffic events among those delivered, or the others. */
  function EventPart(events: seq<Event>, sampled: bool): seq<Event> {
    if events == [] then [] else Kept(events[0], sampled) + EventPart(events[1..], sampled)
  }

  lemma {:induction false} EventPartAppend(a: seq<Event>, b: seq<Event>, sampled: bool)
    ensures EventPart(a + b, sampled) == EventPart(a, sampled) + EventPart(b, sampled)
  {
    if a == [] {
      assert a + b == b;
    } else {
      assert (a + b)[1..] == a[1..] + b;
      EventPartAppend(a[1..], b, sampled);
      Regroup3(Kept(a[0], sampled), EventPart(a[1..], sampled), EventPart(b, sampled));
    }
  }

  lemma {:induction false} EventsOfAppend(a: seq<Item>, b: seq<Item>)
    ensures EventsOf(a + b) == EventsOf(a) + EventsOf(b)
  {
    if a == [] {
      assert a + b == b;
    } else {
      assert (a + b)[1..] == a[1..] + b;
      EventsOfAppend(a[1..], b);
      Regroup3(EventOf(a[0]), EventsOf(a[1..]), EventsOf(b));
    }
  }

  lemma {:induction false} EventOfPart(x: Item, sampled: bool)
    ensures EventPart(EventsOf([x]), sampled) == EventsOf(if InPart(x, sampled) then [x] else [])
  {
    if x.Frame? && KindBytes(x.kind) == KindBytes(EventStream.Traffic) {
      KindsDiffer(x.kind, EventStream.Traffic);
    }
  }

  lemma {:induction false} EventsOfPart(items: seq<Item>, sampled: bool)
    ensures EventPart(EventsOf(items), sampled) == EventsOf(Part(items, sampled))
  {
    if items != [] {
      var init, last := items[..|items| - 1], items[|items| - 1];
      assert items == init + [last];
      EventsOfPart(init, sampled);
      EventsOfAppend(init, [last]);
      EventsOfAppend(Part(init, sampled), if InPart(last, sampled) then [last] else []);
      EventPartAppend(EventsOf(init), EventsOf([last]), sampled);
      EventOfPart(last, sampled);
    }
  }

  lemma {:induction false} PartPrefix(items: seq<Item>, k: nat, sampled: bool)
    requires k <= |items|
    ensures Part(items[..k], sampled) <= Part(items, sampled)
  {
    if k < |items| {
      assert items[..|items| - 1][..k] == items[..k];
      PartPrefix(items[..|items| - 1], k, sampled);
    } else {
      assert items[..k] == items;
    }
  }

  lemma {:induction false} ItemsPrefix(ms: seq<Message>, items: seq<Item>)
    requires items <= Items(ms)
    ensures |items| <= |ms| && items == Items(ms[..|items|])
  {
    assert forall i :: 0 <= i < |items| ==> items[i] == Items(ms)[i];
  }

  /** How many pushed, or sampled, frames the first n bytes of the wire hold to their end. */
  ghost function Arrived(t: Stream, n: nat, sampled: bool): nat {
    |Part(Wire(t)[..Whole(Wire(t), n)], sampled)|
  }

  lemma {:induction false} CutDelivers(t: Stream, n: nat, sampled: bool, source: seq<Message>)
    requires AllSendable(Wire(t)) && n <= |StreamBytes(Wire(t))|
    requires Part(Wire(t), sampled) <= Items(source)
    ensures Arrived(t, n, sampled) <= |source|
    ensures EventPart(Receive(IDLE, StreamBytes(Wire(t))[..n]).events, sampled)
         == EventsOf(Items(source[..Arrived(t, n, sampled)]))
  {
    var whole := Wire(t)[..Whole(Wire(t), n)];
    CutStreamDeliversWholeEvents(Wire(t), n);
    EventsOfPart(whole, sampled);
    PartPrefix(Wire(t), |whole|, sampled);
    ItemsPrefix(source, Part(whole, sampled));
  }

  lemma {:induction false} UncutIsWhole(items: seq<Item>)
    requires AllFit(items)
    ensures items[..Whole(items, |StreamBytes(items)|)] == items
  {
    assert items[..|items|] == items;
    WholeCountsCompleteItems(items, |StreamBytes(items)|, |items|);
  }

  /**
    From the hub to the controller: wherever the connection of a stream is cut, even inside a
    write that failed, the traffic events the controller has delivered are an unbroken prefix of
    the stream's ticks, and the others the initial status and then the frames published for the
    stream since it subscribed: an unbroken prefix while the stream was not disconnected, and
    never out of order. Nothing is missing when nothing was cut.
   */
  lemma {:induction false} EndToEnd(cfg: Config, r: Run, i: nat, id: nat, n: nat)
    requires IsRun(cfg, r) && i < |r.states| && id in r.states[i].streams
    requires n <= |StreamBytes(Wire(r.states[i].streams[id]))|
    ensures var t, f, ticks := r.states[i].streams[id], FeedOf(r.events[..i], id), TicksOf(r.events[..i], id);
            var events := Receive(IDLE, StreamBytes(Wire(t))[..n]).events;
            && !f.Unborn?
            && Arrived(t, n, false) <= 1 + |t.taken| && Arrived(t, n, true) <= |ticks|
            && EventPart(events, false) == EventsOf(Items(([f.first] + t.taken)[..Arrived(t, n, false)]))
            && EventPart(events, true) == EventsOf(Items(ticks[..Arrived(t, n, true)]))
            && (AllFit(Wire(t)) && !t.phase.Starting? && n == |StreamBytes(Wire(t))| ==>
                  Arrived(t, n, false) == 1 + |t.taken| && Arrived(t, n, true) == |ticks|)
            && Subsequence(t.taken + t.sub.queue, f.frames)
            && (!t.sub.done ==> t.taken <= f.frames)
  {
    RunKeepsFaithful(cfg, r, i, id);
    RunSamplesTicks(cfg, r, i, id);
    var t, f := r.states[i].streams[id], FeedOf(r.events[..i], id);
    CutDelivers(t, n, false, [f.first] + t.taken);
    CutDelivers(t, n, true, TicksOf(r.events[..i], id));
    if AllFit(Wire(t)) && !t.phase.Starting? && n == |StreamBytes(Wire(t))| {
      UncutIsWhole(Wire(t));
    }
  }
}
