/**
  The gateway as a state machine: the pairing store, the PIN manager, the requests in
  flight and the event streams (go/agent/agent.go, control.go, events.go, pin.go and
  go/pairing/store.go). Each step is one section under a lock or one branch of a select;
  requests, streams and the user at the agent interleave freely.
 */
module Gateway {
  import opened Wrappers
  import opened CanonicalJson
  import opened EventStream
  import opened EventHub
  import opened Capabilities
  import opened Pairings
  import Pins

  datatype Config = Config(
    requireConfirm: bool, hasConfirmer: bool, hooks: set<Iface>, disabled: seq<string>, pins: Pins.Settings)

  function Remote(cfg: Config): seq<string> {
    Advertised(cfg.hooks, cfg.disabled)
  }

  // ---------- state ----------

  datatype Endpoint = Gated(handler: Handler) | Unpair | EventsEndpoint | OtherEndpoint

  /** Only POST /v1/unpair is wrapped without confirmation. */
  predicate NeedsConfirmation(cfg: Config, e: Endpoint) {
    cfg.requireConfirm && !e.Unpair?
  }

  /** Waiting for the confirmer; past the auth wrapper; between Revoke and dropDevice; answered. */
  datatype Phase = Waiting | Admitted | Revoking | Ended

  datatype Call = Call(endpoint: Endpoint, token: string, entry: Entry, phase: Phase)

  /** A POST /v1/pair whose PIN was right, up to its answer. */
  datatype PairPhase = Guessed | Agreed | Issued | Closed

  datatype Pairing = Pairing(device: string, name: string, phase: PairPhase)

  /** Before the initial status; in the select; between the token check of a heartbeat and its ping; returned. */
  datatype StreamPhase = Starting(first: Message) | Looping | Pinging | Stopped

  /**
    `taken` records what was received from the queue, `written` what was written, and `attempt`
    the item whose write failed, some of whose bytes may have gone out.
   */
  datatype Stream = Stream(
    token: string, sub: Sub, traffic: bool, registered: bool, phase: StreamPhase,
    taken: seq<Message>, written: seq<Item>, attempt: seq<Item>)

  /** All that can have gone out. */
  function Wire(t: Stream): seq<Item> {
    t.written + t.attempt
  }

  /** `issued` remembers every token NewToken returned and the device it was for. */
  datatype System = System(
    entries: Entries, issued: map<string, string>, pin: Pins.PinState,
    calls: map<nat, Call>, pairings: map<nat, Pairing>, streams: map<nat, Stream>)

  const INIT := System(map[], map[], Pins.NO_PIN, map[], map[], map[])

  // ---------- steps ----------

  datatype Action =
      // the user or the consumer app at the agent
    | AdminPair(device: string, name: string, token: string, time: int)
    | AdminRevoke(device: string)
    | AdminConfirm(device: string)
    | MakePin(n: nat, now: int)
    | Publish(m: Message)
      // authenticated requests
    | Arrive(id: nat, endpoint: Endpoint, token: string)
    | Decide(id: nat, answer: bool)
    | Serve(id: nat, env: Env)
    | RevokeOwn(id: nat, saved: bool)
    | DropOwn(id: nat)
      // PIN pairing
    | GuessPin(id: nat, pin: string, device: string, name: string, now: int)
    | DecidePairing(id: nat, answer: bool)
    | IssueToken(id: nat, token: string, now: int, saved: bool)
    | ConfirmPairing(id: nat)
      // event streams, numbered by their request
    | Subscribe(id: nat, topics: Topics, first: Message)
    | WriteFirst(id: nat, ok: bool)
    | TakeFrame(id: nat, ok: bool)
    | SeeDone(id: nat)
    | Heartbeat(id: nat)
    | WritePing(id: nat, ok: bool)
    | Tick(id: nat, m: Message, ok: bool)
    | Cancel(id: nat)
    | Unsubscribe(id: nat)

  predicate InPhase(s: System, id: nat, phase: Phase) {
    id in s.calls && s.calls[id].phase == phase
  }

  predicate PairingIn(s: System, id: nat, phase: PairPhase) {
    id in s.pairings && s.pairings[id].phase == phase
  }

  predicate StreamLoops(s: System, id: nat) {
    id in s.streams && s.streams[id].phase == Looping
  }

  /** frame() fails on a body that does not marshal; no event is sent then. */
  ghost predicate Encodable(m: Message) {
    Canonical(m.body)
  }

  ghost predicate Enabled(cfg: Config, s: System, e: Action) {
    match e
    case AdminPair(_, _, token, _) => token !in s.issued
    case AdminRevoke(_) => true
    case AdminConfirm(_) => true
    case MakePin(n, _) => n < 1_000_000
    case Publish(m) => Encodable(m) && m.kind != EventStream.Traffic
    case Arrive(id, _, _) => id !in s.calls
    case Decide(id, _) => InPhase(s, id, Waiting)
    case Serve(id, _) => InPhase(s, id, Admitted) && s.calls[id].endpoint.Gated?
    case RevokeOwn(id, _) => InPhase(s, id, Admitted) && s.calls[id].endpoint.Unpair?
    case DropOwn(id) => InPhase(s, id, Revoking)
    case GuessPin(id, _, _, _, _) => id !in s.pairings
    case DecidePairing(id, _) => PairingIn(s, id, Guessed)
    case IssueToken(id, token, _, _) => PairingIn(s, id, Agreed) && token !in s.issued
    case ConfirmPairing(id) => PairingIn(s, id, Issued)
    case Subscribe(id, topics, first) =>
      && (topics.level == "" || topics.level in LOG_LEVELS)
      && InPhase(s, id, Admitted) && s.calls[id].endpoint.EventsEndpoint? && id !in s.streams
      && Encodable(first) && first.kind == EventStream.Status
    case WriteFirst(id, _) => id in s.streams && s.streams[id].phase.Starting?
    case TakeFrame(id, _) => StreamLoops(s, id) && s.streams[id].sub.queue != []
    case SeeDone(id) => StreamLoops(s, id) && s.streams[id].sub.done
    case Heartbeat(id) => StreamLoops(s, id)
    case WritePing(id, _) => id in s.streams && s.streams[id].phase == Pinging
    case Tick(id, m, _) =>
      && StreamLoops(s, id) && s.streams[id].traffic && Cap.Traffic.Name() in Remote(cfg)
      && Encodable(m) && m.kind == EventStream.Traffic
    case Cancel(id) => StreamLoops(s, id)
    case Unsubscribe(id) => id in s.streams && s.streams[id].phase == Stopped && s.streams[id].registered
  }

  ghost predicate Live(s: System, token: string) {
    Authenticated(s.entries, token).Some?
  }

  function SetPhase(s: System, id: nat, phase: Phase): System
    requires id in s.calls
  {
    s.(calls := s.calls[id := s.calls[id].(phase := phase)])
  }

  function SetPairing(s: System, id: nat, phase: PairPhase): System
    requires id in s.pairings
  {
    s.(pairings := s.pairings[id := s.pairings[id].(phase := phase)])
  }

  function Issue(s: System, device: string, name: string, token: string, now: int): System {
    s.(entries := Paired(s.entries, device, name, token, now), issued := s.issued[token := device])
  }

  ghost function ArriveStep(cfg: Config, s: System, id: nat, endpoint: Endpoint, token: string): System {
    match Authenticated(s.entries, token)
    case None => s
    case Some(entry) =>
      var phase := if NeedsConfirmation(cfg, endpoint) && !entry.confirmed then Waiting else Admitted;
      s.(calls := s.calls[id := Call(endpoint, token, entry, phase)])
  }

  /** Whether the answer counts as a yes: with a confirmer its own answer does, without one any does. */
  predicate Agrees(cfg: Config, answer: bool) {
    cfg.hasConfirmer ==> answer
  }

  function DecideStep(cfg: Config, s: System, id: nat, answer: bool): System
    requires id in s.calls
  {
    if Agrees(cfg, answer) then
      SetPhase(s, id, Admitted).(entries := Confirmed(s.entries, s.calls[id].entry.deviceID))
    else SetPhase(s, id, Ended)
  }

  function GuessStep(cfg: Config, s: System, id: nat, pin: string, device: string, name: string, now: int): System {
    var (r, next) := Pins.Verified(cfg.pins, s.pin, pin, now);
    // device.id is checked before the PIN is
    if device == "" then s
    else if r == Pins.PINOK then s.(pin := next, pairings := s.pairings[id := Pairing(device, name, Guessed)])
    else s.(pin := next)
  }

  /** One write: the loop goes on if it succeeds and ends if it fails. */
  function Send(t: Stream, item: Item, ok: bool): Stream {
    if ok then t.(phase := Looping, written := t.written + [item]) else t.(phase := Stopped, attempt := [item])
  }

  function Take(t: Stream): Stream
    requires t.sub.queue != []
  {
    t.(sub := t.sub.(queue := t.sub.queue[1..]), taken := t.taken + [t.sub.queue[0]])
  }

  ghost function StreamStep(cfg: Config, s: System, t: Stream, e: Action): Stream {
    match e
    case WriteFirst(_, ok) => if t.phase.Starting? then Send(t, t.phase.first.ToItem(), ok) else t
    case TakeFrame(_, ok) => if t.sub.queue != [] then Send(Take(t), t.sub.queue[0].ToItem(), ok) else t
    case SeeDone(_) => t.(phase := Stopped)
    case Heartbeat(_) => t.(phase := if Live(s, t.token) then Pinging else Stopped)
    case WritePing(_, ok) => Send(t, Ping, ok)
    case Tick(_, m, ok) => Send(t, m.ToItem(), ok)
    case Cancel(_) => t.(phase := Stopped)
    case Unsubscribe(_) => t.(registered := false)
    case _ => t
  }

  function OfferAll(streams: map<nat, Stream>, m: Message): map<nat, Stream> {
    map id | id in streams ::
      if streams[id].registered then streams[id].(sub := Offer(streams[id].sub, m)) else streams[id]
  }

  function DropAll(streams: map<nat, Stream>, device: string): map<nat, Stream> {
    map id | id in streams ::
      if streams[id].registered then streams[id].(sub := DropIf(streams[id].sub, device)) else streams[id]
  }

  ghost function Next(cfg: Config, s: System, e: Action): System
    requires Enabled(cfg, s, e)
  {
    match e
    case AdminPair(device, name, token, time) => Issue(s, device, name, token, time)
    case AdminRevoke(device) => s.(entries := Revoked(s.entries, device))
    case AdminConfirm(device) => s.(entries := Confirmed(s.entries, device))
    case MakePin(n, now) => s.(pin := Pins.Generated(cfg.pins, n, now))
    case Publish(m) => s.(streams := OfferAll(s.streams, m))
    case Arrive(id, endpoint, token) => ArriveStep(cfg, s, id, endpoint, token)
    case Decide(id, answer) => DecideStep(cfg, s, id, answer)
    case Serve(id, _) => SetPhase(s, id, Ended)
    case RevokeOwn(id, saved) =>
      SetPhase(s, id, if saved then Revoking else Ended).(entries := Revoked(s.entries, s.calls[id].entry.deviceID))
    case DropOwn(id) => SetPhase(s, id, Ended).(streams := DropAll(s.streams, s.calls[id].entry.deviceID))
    case GuessPin(id, pin, device, name, now) => GuessStep(cfg, s, id, pin, device, name, now)
    case DecidePairing(id, answer) => SetPairing(s, id, if Agrees(cfg, answer) then Agreed else PairPhase.Closed)
    case IssueToken(id, token, now, saved) =>
      var p := s.pairings[id];
      Issue(SetPairing(s, id, if saved then Issued else PairPhase.Closed), p.device, p.name, token, now)
    case ConfirmPairing(id) =>
      SetPairing(s, id, PairPhase.Closed).(entries := Confirmed(s.entries, s.pairings[id].device))
    case Subscribe(id, topics, first) =>
      var call := s.calls[id];
      SetPhase(s, id, Ended).(streams := s.streams[id := NewStream(call, topics, first)])
    case _ => s.(streams := s.streams[e.id := StreamStep(cfg, s, s.streams[e.id], e)])
  }

  /** The hook calls a step makes to serve a capability-gated request. */
  function HookCalls(cfg: Config, s: System, e: Action): seq<HookCall> {
    match e
    case Serve(id, env) =>
      if id in s.calls && s.calls[id].endpoint.Gated? && GateOf(s.calls[id].endpoint.handler).Name() in Remote(cfg)
      then Calls(s.calls[id].endpoint.handler, env) else []
    case _ => []
  }

  // ---------- runs ----------

  datatype Run = Run(states: seq<System>, events: seq<Action>)

  ghost predicate StepAt(cfg: Config, r: Run, i: nat)
    requires i < |r.events| && |r.states| == |r.events| + 1
  {
    Enabled(cfg, r.states[i], r.events[i]) && r.states[i + 1] == Next(cfg, r.states[i], r.events[i])
  }

  /** Any finite interleaving of steps from the initial state. */
  ghost predicate IsRun(cfg: Config, r: Run) {
    && |r.states| == |r.events| + 1
    && r.states[0] == INIT
    && forall i :: 0 <= i < |r.events| ==> StepAt(cfg, r, i)
  }

  /** The step that leads to state i of a run. */
  lemma {:induction false} RunStep(cfg: Config, r: Run, i: nat) returns (s: System, e: Action)
    requires IsRun(cfg, r) && 0 < i < |r.states|
    ensures s == r.states[i - 1] && e == r.events[i - 1] && Enabled(cfg, s, e) && r.states[i] == Next(cfg, s, e)
  {
    s, e := r.states[i - 1], r.events[i - 1];
    assert StepAt(cfg, r, i - 1);
  }

  function Last(r: Run): System
    requires r.states != []
  {
    r.states[|r.states| - 1]
  }

  lemma {:induction false} EmptyRun(cfg: Config) returns (r: Run)
    ensures IsRun(cfg, r) && r.events == [] && Last(r) == INIT
  {
    r := Run([INIT], []);
  }

  /** A run goes on with any step enabled at its end. */
  lemma {:induction false} OneMoreStep(cfg: Config, r: Run, e: Action) returns (q: Run)
    requires IsRun(cfg, r) && Enabled(cfg, Last(r), e)
    ensures IsRun(cfg, q) && q.events == r.events + [e] && q.states == r.states + [Next(cfg, Last(r), e)]
    ensures Last(q) == Next(cfg, Last(r), e)
  {
    q := Run(r.states + [Next(cfg, Last(r), e)], r.events + [e]);
    forall i | 0 <= i < |q.events|
      ensures StepAt(cfg, q, i)
    {
      if i < |r.events| {
        assert StepAt(cfg, r, i);
      }
    }
  }

  // ---------- what a step does to one component ----------

  /** The change a step makes to the store. */
  function ChangeOf(cfg: Config, s: System, e: Action): Option<Change> {
    match e
    case AdminPair(device, name, token, time) => Some(Pair(device, name, token, time))
    case AdminRevoke(device) => Some(Revoke(device))
    case AdminConfirm(device) => Some(Confirm(device))
    case Decide(id, answer) =>
      if id in s.calls && Agrees(cfg, answer) then Some(Confirm(s.calls[id].entry.deviceID)) else None
    case RevokeOwn(id, _) => if id in s.calls then Some(Revoke(s.calls[id].entry.deviceID)) else None
    case IssueToken(id, token, now, _) =>
      if id in s.pairings then Some(Pair(s.pairings[id].device, s.pairings[id].name, token, now)) else None
    case ConfirmPairing(id) => if id in s.pairings then Some(Confirm(s.pairings[id].device)) else None
    case _ => None
  }

  /** The store after a step. */
  function EntriesAfter(cfg: Config, s: System, e: Action): Entries {
    match ChangeOf(cfg, s, e)
    case None => s.entries
    case Some(c) => After(s.entries, c)
  }

  predicate IsStreamStep(e: Action) {
    || e.WriteFirst? || e.TakeFrame? || e.SeeDone? || e.Heartbeat? || e.WritePing? || e.Tick? || e.Cancel?
    || e.Unsubscribe?
  }

  /** A stream after a step. */
  ghost function StreamAfter(cfg: Config, s: System, e: Action, id: nat): Stream
    requires id in s.streams
  {
    var t := s.streams[id];
    if e.Publish? && t.registered then t.(sub := Offer(t.sub, e.m))
    else if e.DropOwn? && e.id in s.calls && t.registered then t.(sub := DropIf(t.sub, s.calls[e.id].entry.deviceID))
    else if IsStreamStep(e) && e.id == id then StreamStep(cfg, s, t, e)
    else t
  }

  lemma {:induction false} StepOnEntries(cfg: Config, s: System, e: Action)
    requires Enabled(cfg, s, e)
    ensures Next(cfg, s, e).entries == EntriesAfter(cfg, s, e)
  {
  }

  lemma {:induction false} StepOnIssued(cfg: Config, s: System, e: Action)
    requires Enabled(cfg, s, e)
    ensures Next(cfg, s, e).issued ==
            if e.AdminPair? then s.issued[e.token := e.device]
            else if e.IssueToken? then s.issued[e.token := s.pairings[e.id].device] else s.issued
  {
  }

  lemma {:induction false} StepOnStore(cfg: Config, s: System, e: Action)
    requires Enabled(cfg, s, e)
    ensures Next(cfg, s, e).entries == EntriesAfter(cfg, s, e)
    ensures Next(cfg, s, e).issued ==
            if e.AdminPair? then s.issued[e.token := e.device]
            else if e.IssueToken? then s.issued[e.token := s.pairings[e.id].device] else s.issued
  {
    StepOnEntries(cfg, s, e);
    StepOnIssued(cfg, s, e);
  }

  /** The stream of a new subscription. */
  function NewStream(call: Call, topics: Topics, first: Message): Stream {
    Stream(call.token, Sub(call.entry.deviceID, LevelOf(topics), [], false), topics.traffic, true, Starting(first), [], [], [])
  }

  lemma {:induction false} StepOnStream(cfg: Config, s: System, e: Action, id: nat)
    requires Enabled(cfg, s, e)
    ensures id in Next(cfg, s, e).streams <==> id in s.streams || (e.Subscribe? && e.id == id)
    ensures id in s.streams ==> Next(cfg, s, e).streams[id] == StreamAfter(cfg, s, e, id)
    ensures e.Subscribe? && e.id == id ==>
              id in s.calls && Next(cfg, s, e).streams[id] == NewStream(s.calls[id], e.topics, e.first)
  {
  }

  /** The same for a step of a run. */
  lemma {:induction false} RunStream(cfg: Config, r: Run, i: nat, id: nat) returns (s: System, e: Action)
    requires IsRun(cfg, r) && 0 < i < |r.states|
    ensures s == r.states[i - 1] && e == r.events[i - 1] && Enabled(cfg, s, e)
    ensures id in r.states[i].streams <==> id in s.streams || (e.Subscribe? && e.id == id)
    ensures id in s.streams ==> r.states[i].streams[id] == StreamAfter(cfg, s, e, id)
    ensures e.Subscribe? && e.id == id ==>
              id in s.calls && r.states[i].streams[id] == NewStream(s.calls[id], e.topics, e.first)
  {
    s, e := RunStep(cfg, r, i);
    StepOnStream(cfg, s, e, id);
  }

  lemma {:induction false} StreamKeepsIdentity(cfg: Config, s: System, e: Action, id: nat)
    requires id in s.streams
    ensures var t, u := s.streams[id], StreamAfter(cfg, s, e, id);
            && u.token == t.token && u.sub.device == t.sub.device && u.sub.logLevel == t.sub.logLevel && u.traffic == t.traffic
            && (u.registered ==> t.registered)
  {
  }

  // ---------- what every step keeps ----------

  /** Every entry holds an issued token, for the device it was issued to. */
  ghost predicate EntriesBound(s: System) {
    && Keyed(s.entries)
    && forall d :: d in s.entries ==>
                     s.entries[d].tokenHash.preimage in s.issued && s.issued[s.entries[d].tokenHash.preimage] == d
  }

  /** So does every request and every stream. */
  ghost predicate CallsBound(s: System) {
    forall id :: id in s.calls ==>
                   s.calls[id].token in s.issued && s.issued[s.calls[id].token] == s.calls[id].entry.deviceID
  }

  ghost predicate StreamsBound(s: System) {
    forall id :: id in s.streams ==>
                   s.streams[id].token in s.issued && s.issued[s.streams[id].token] == s.streams[id].sub.device
  }

  ghost predicate TokensBound(s: System) {
    EntriesBound(s) && CallsBound(s) && StreamsBound(s)
  }

  /** A token can only ever authenticate as the device it was issued to. */
  lemma {:induction false} TokenMeansDevice(s: System, token: string)
    requires EntriesBound(s)
    ensures DistinctHashes(s.entries)
    ensures Live(s, token) ==>
              token in s.issued && s.issued[token] in s.entries
              && Authenticated(s.entries, token).value == s.entries[s.issued[token]]
    ensures Live(s, token) <==>
            token in s.issued && s.issued[token] in s.entries && s.entries[s.issued[token]].tokenHash == HashToken(token)
  {
    forall d, e | d in s.entries && e in s.entries && s.entries[d].tokenHash == s.entries[e].tokenHash
      ensures d == e
    {
      assert s.issued[s.entries[d].tokenHash.preimage] == d;
    }
    if token in s.issued && s.issued[token] in s.entries && s.entries[s.issued[token]].tokenHash == HashToken(token) {
      assert Matches(s.entries, token, s.issued[token]);
    }
  }

  lemma {:induction false} StepKeepsIssued(cfg: Config, s: System, e: Action)
    requires Enabled(cfg, s, e)
    ensures forall t :: t in s.issued ==> t in Next(cfg, s, e).issued && Next(cfg, s, e).issued[t] == s.issued[t]
  {
    StepOnStore(cfg, s, e);
  }

  lemma {:induction false} StepKeepsEntriesBound(cfg: Config, s: System, e: Action)
    requires EntriesBound(s) && Enabled(cfg, s, e)
    ensures EntriesBound(Next(cfg, s, e))
  {
    StepOnStore(cfg, s, e);
  }

  lemma {:induction false} StepOnCalls(cfg: Config, s: System, e: Action, id: nat)
    requires Enabled(cfg, s, e) && id in Next(cfg, s, e).calls
    ensures var c := Next(cfg, s, e).calls[id];
            if id in s.calls then c == s.calls[id].(phase := c.phase)
            else e.Arrive? && e.id == id && Authenticated(s.entries, e.token) == Some(c.entry)
                 && c.endpoint == e.endpoint && c.token == e.token
                 && c.phase == if NeedsConfirmation(cfg, c.endpoint) && !c.entry.confirmed then Waiting else Admitted
  {
  }

  lemma {:induction false} CallAfterStep(cfg: Config, s: System, e: Action, id: nat)
    requires Enabled(cfg, s, e) && id in s.calls
    ensures id in Next(cfg, s, e).calls
    ensures var c, d := s.calls[id], Next(cfg, s, e).calls[id];
            d == c.(phase := d.phase) && (c.phase == Ended ==> d.phase == Ended)
  {
  }

  /** Requests and pairings are never forgotten; an answered request stays answered. */
  lemma {:induction false} CallStays(cfg: Config, r: Run, i: nat, id: nat)
    requires IsRun(cfg, r) && 0 < i < |r.states| && id in r.states[i - 1].calls
    ensures id in r.states[i].calls
    ensures var c, d := r.states[i - 1].calls[id], r.states[i].calls[id];
            d == c.(phase := d.phase) && (c.phase == Ended ==> d.phase == Ended)
  {
    var s, e := RunStep(cfg, r, i);
    CallAfterStep(cfg, s, e, id);
  }

  lemma {:induction false} CallsStay(cfg: Config, r: Run, i: nat, j: nat, id: nat)
    requires IsRun(cfg, r) && i <= j < |r.states| && id in r.states[i].calls
    ensures id in r.states[j].calls
    ensures var c, d := r.states[i].calls[id], r.states[j].calls[id];
            d == c.(phase := d.phase) && (c.phase == Ended ==> d.phase == Ended)
  {
    if i < j {
      CallsStay(cfg, r, i, j - 1, id);
      CallStays(cfg, r, j, id);
    }
  }

  lemma {:induction false} PairingStays(cfg: Config, r: Run, i: nat, id: nat)
    requires IsRun(cfg, r) && 0 < i < |r.states| && id in r.states[i - 1].pairings
    ensures id in r.states[i].pairings
  {
    assert StepAt(cfg, r, i - 1);
  }

  lemma {:induction false} PairingsStay(cfg: Config, r: Run, i: nat, j: nat, id: nat)
    requires IsRun(cfg, r) && i <= j < |r.states| && id in r.states[i].pairings
    ensures id in r.states[j].pairings
  {
    if i < j {
      PairingsStay(cfg, r, i, j - 1, id);
      PairingStays(cfg, r, j, id);
    }
  }

  /** What stays of a stream: its token and its subscriber's identity; once unregistered it is so for good. */
  lemma {:induction false} StreamStays(cfg: Config, r: Run, i: nat, id: nat)
    requires IsRun(cfg, r) && 0 < i < |r.states| && id in r.states[i - 1].streams
    ensures id in r.states[i].streams
    ensures var t, u := r.states[i - 1].streams[id], r.states[i].streams[id];
            && u.token == t.token && u.sub.device == t.sub.device && u.sub.logLevel == t.sub.logLevel && u.traffic == t.traffic
            && (u.registered ==> t.registered)
  {
    var s, e := RunStream(cfg, r, i, id);
    StreamKeepsIdentity(cfg, s, e, id);
  }

  lemma {:induction false} StreamsStay(cfg: Config, r: Run, i: nat, j: nat, id: nat)
    requires IsRun(cfg, r) && i <= j < |r.states| && id in r.states[i].streams
    ensures id in r.states[j].streams
    ensures var t, u := r.states[i].streams[id], r.states[j].streams[id];
            && u.token == t.token && u.sub.device == t.sub.device && u.sub.logLevel == t.sub.logLevel && u.traffic == t.traffic
            && (u.registered ==> t.registered)
  {
    if i < j {
      StreamsStay(cfg, r, i, j - 1, id);
      StreamStays(cfg, r, j, id);
    }
  }

  lemma {:induction false} StepKeepsTokensBound(cfg: Config, s: System, e: Action)
    requires TokensBound(s) && Enabled(cfg, s, e)
    ensures TokensBound(Next(cfg, s, e))
  {
    var u := Next(cfg, s, e);
    StepKeepsEntriesBound(cfg, s, e);
    StepKeepsIssued(cfg, s, e);
    forall id | id in u.calls
      ensures u.calls[id].token in u.issued && u.issued[u.calls[id].token] == u.calls[id].entry.deviceID
    {
      StepOnCalls(cfg, s, e, id);
      TokenMeansDevice(s, u.calls[id].token);
    }
    forall id | id in u.streams
      ensures u.streams[id].token in u.issued && u.issued[u.streams[id].token] == u.streams[id].sub.device
    {
      StepOnStream(cfg, s, e, id);
      if id in s.streams {
        StreamKeepsIdentity(cfg, s, e, id);
      }
    }
  }

  lemma {:induction false} RunKeepsTokensBound(cfg: Config, r: Run, i: nat)
    requires IsRun(cfg, r) && i < |r.states|
    ensures TokensBound(r.states[i])
  {
    if i > 0 {
      RunKeepsTokensBound(cfg, r, i - 1);
      var s, e := RunStep(cfg, r, i);
      StepKeepsTokensBound(cfg, s, e);
    }
  }
}
