/**
  The handlers of go/agent/agent.go that change the store, the PIN manager and the hub,
  run one at a time, and how each is a sequence of the gateway's steps.
 */
module Agent {
  import opened Wrappers
  import opened EventHub
  import opened Pairings
  import opened Gateway
  import Pins
  import Store

  // ---------- what a request comes to ----------

  /** The entry handed to the handler, or the error the auth wrapper writes. */
  datatype Passage = Passed(entry: Entry) | Unauthorized | Forbidden

  /** The passage and the entries after it; `answer` is what the confirmer would say. */
  ghost function Authorized(cfg: Config, entries: Entries, endpoint: Endpoint, token: string, answer: bool): (Passage, Entries)
  {
    match Authenticated(entries, token)
    case None => (Unauthorized, entries)
    case Some(entry) =>
      if !NeedsConfirmation(cfg, endpoint) || entry.confirmed then (Passed(entry), entries)
      else if Agrees(cfg, answer) then (Passed(entry), Confirmed(entries, entry.deviceID))
      else (Forbidden, entries)
  }

  /** The answer to POST /v1/pair. */
  datatype PairReply = BadRequest | RateLimited | WrongPin | NotConfirmed | Internal | Granted(token: string)

  datatype PairRequest = PairRequest(device: string, name: string, pin: string)

  /** The reply, and the PIN state and entries after it. */
  function PairOutcome(cfg: Config, st: Pins.PinState, entries: Entries,
                       req: PairRequest, now: int, answer: bool, token: string, pairedAt: int, saved: bool): (PairReply, Pins.PinState, Entries)
  {
    if req.device == "" then (BadRequest, st, entries)
    else
      match Pins.Verified(cfg.pins, st, req.pin, now)
      case (PINRateLimited, next) => (RateLimited, next, entries)
      case (PINWrong, next) => (WrongPin, next, entries)
      case (PINOK, next) =>
        if !Agrees(cfg, answer) then (NotConfirmed, next, entries)
        else
          var paired := Paired(entries, req.device, req.name, token, pairedAt);
          if saved then (Granted(token), next, Confirmed(paired, req.device)) else (Internal, next, paired)
  }

  // ---------- the same, by its conditions ----------

  /** The PIN shown is the active one, in time, and attempts are left. */
  predicate ShowsThePin(cfg: Config, st: Pins.PinState, req: PairRequest, now: int) {
    st.pin != "" && now <= st.expires && st.attempts < cfg.pins.maxAttempts && st.pin == req.pin
  }

  /** Exactly when POST /v1/pair gets which answer. */
  ghost predicate Answers(cfg: Config, st: Pins.PinState, req: PairRequest, now: int, answer: bool, token: string, saved: bool,
                          reply: PairReply)
  {
    && (reply.BadRequest? <==> req.device == "")
    && (reply.RateLimited? <==>
        req.device != "" && st.pin != "" && now <= st.expires && st.attempts >= cfg.pins.maxAttempts)
    && (reply.WrongPin? <==>
        req.device != "" &&
        (st.pin == "" || now > st.expires || (st.attempts < cfg.pins.maxAttempts && st.pin != req.pin)))
    && (reply.NotConfirmed? <==> req.device != "" && ShowsThePin(cfg, st, req, now) && cfg.hasConfirmer && !answer)
    && (reply.Internal? <==>
        req.device != "" && ShowsThePin(cfg, st, req, now) && (cfg.hasConfirmer ==> answer) && !saved)
    && (reply.Granted? <==>
        req.device != "" && ShowsThePin(cfg, st, req, now) && (cfg.hasConfirmer ==> answer) && saved)
    && (reply.Granted? ==> reply.token == token)
  }

  /** What the answer leaves of the PIN: a guess is counted, a PIN that is shown or overdue is gone. */
  ghost predicate PinAfterwards(cfg: Config, st: Pins.PinState, req: PairRequest, now: int, next: Pins.PinState) {
    if req.device == "" || (st.pin != "" && now <= st.expires && st.attempts >= cfg.pins.maxAttempts) then next == st
    else if st.pin == "" || now > st.expires then next == Pins.PinState("", st.expires, st.attempts)
    else next == Pins.PinState(if st.pin == req.pin then "" else st.pin, st.expires, st.attempts + 1)
  }

  /** What it leaves of the store: the device's new entry, confirmed iff its token is handed out, or no change. */
  ghost predicate EntriesAfterwards(entries: Entries, req: PairRequest, token: string, pairedAt: int, reply: PairReply, after: Entries) {
    if reply.Internal? || reply.Granted? then
      after == entries[req.device := Entry(req.device, req.name, HashToken(token), pairedAt, reply.Granted?)]
    else after == entries
  }

  lemma {:induction false} PairRepliesExactly(cfg: Config, st: Pins.PinState, entries: Entries, req: PairRequest,
                                              now: int, answer: bool, token: string, pairedAt: int, saved: bool)
    ensures var (reply, next, after) := PairOutcome(cfg, st, entries, req, now, answer, token, pairedAt, saved);
            && Answers(cfg, st, req, now, answer, token, saved, reply)
            && PinAfterwards(cfg, st, req, now, next)
            && EntriesAfterwards(entries, req, token, pairedAt, reply, after)
  {
  }

  /** Exactly when the wrapper lets a request pass, and what that changes. */
  lemma {:induction false} PassageExactly(cfg: Config, entries: Entries, endpoint: Endpoint, token: string, answer: bool)
    requires DistinctHashes(entries) && Keyed(entries)
    ensures var (p, after) := Authorized(cfg, entries, endpoint, token, answer);
            && (p.Unauthorized? <==> forall d :: d in entries ==> entries[d].tokenHash != Sha256(token))
            && forall d :: d in entries && entries[d].tokenHash == Sha256(token) ==>
                             var waits := cfg.requireConfirm && endpoint != Unpair && !entries[d].confirmed;
                             && (p.Forbidden? <==> waits && cfg.hasConfirmer && !answer)
                             && (p.Passed? ==> p.entry == entries[d])
                             && after == if waits && p.Passed? then entries[d := entries[d].(confirmed := true)] else entries
    ensures var (p, after) := Authorized(cfg, entries, endpoint, token, answer); p.Unauthorized? ==> after == entries
  {
    forall d | d in entries
      ensures Matches(entries, token, d) <==> entries[d].tokenHash == Sha256(token)
    {
    }
    forall d | d in entries && entries[d].tokenHash == Sha256(token)
      ensures Authenticated(entries, token) == Some(entries[d]) && entries[d].deviceID == d
    {
      TheMatch(entries, token, d);
    }
  }

  class Agent {
    const cfg: Config
    const store: Store.Store
    const pins: Pins.PINManager?
    const hub: Hub

    constructor (cfg: Config, store: Store.Store, pins: Pins.PINManager?)
      requires store.Sound() && (pins != null ==> pins.Config() == cfg.pins)
      ensures this.cfg == cfg && this.store == store && this.pins == pins && Valid() && fresh(hub) && hub.subs == {}
    {
      this.cfg, this.store, this.pins := cfg, store, pins;
      hub := new Hub();
    }

    ghost predicate Valid()
      reads store
    {
      store.Sound() && (pins != null ==> pins.Config() == cfg.pins)
    }

    /** Whether the first connection is confirmed; failing to write the file does not matter. */
    method Confirm(e: Entry, answer: bool, writable: bool) returns (ok: bool)
      requires Valid()
      modifies store`entries, store`file
      ensures Valid()
      ensures ok == Agrees(cfg, answer)
      ensures store.entries == if ok then Confirmed(old(store.entries), e.deviceID) else old(store.entries)
    {
      if cfg.hasConfirmer && !answer {
        return false;
      }
      var _ := store.Confirm(e.deviceID, writable);
      return true;
    }

    /** The auth wrapper; the bearer token is None when the header has none. */
    method AuthWith(endpoint: Endpoint, bearer: Option<string>, answer: bool, writable: bool) returns (p: Passage)
      requires Valid()
      modifies store`entries, store`file
      ensures Valid()
      ensures bearer.None? ==> p == Unauthorized && store.entries == old(store.entries)
      ensures bearer.Some? ==>
                (p, store.entries) == Authorized(cfg, old(store.entries), endpoint, bearer.value, answer)
    {
      if bearer.None? {
        return Unauthorized;
      }
      var found := store.Authenticate(bearer.value);
      if found.None? {
        return Unauthorized;
      }
      if NeedsConfirmation(cfg, endpoint) && !found.value.confirmed {
        var ok := Confirm(found.value, answer, writable);
        if !ok {
          return Forbidden;
        }
      }
      return Passed(found.value);
    }

    /** `ok` is false when the file could not be written; the streams then stay as they are. */
    method HandleUnpair(e: Entry, writable: bool) returns (ok: bool)
      requires Valid()
      modifies store`entries, store`file, hub.subs
      ensures Valid()
      ensures store.entries == Revoked(old(store.entries), e.deviceID)
      ensures ok == (e.deviceID !in old(store.entries) || !store.persistent || writable)
      ensures hub.subs == old(hub.subs)
      ensures forall s :: s in hub.subs ==> s.View() == if ok then DropIf(old(s.View()), e.deviceID) else old(s.View())
    {
      var removed, r := store.Revoke(e.deviceID, writable);
      if r.Err? {
        return false;
      }
      hub.DropDevice(e.deviceID);
      return true;
    }

    /** `token` is what NewToken returns if it is called, a new one. None: PIN pairing is not supported. */
    method HandlePair(req: PairRequest, now: int, answer: bool, token: string, pairedAt: int, writable: bool)
      returns (reply: Option<PairReply>)
      requires Valid() && token !in store.issued
      modifies store`entries, store`file, store`issued, pins
      ensures Valid()
      ensures reply.None? <==> pins == null
      ensures pins == null ==> store.entries == old(store.entries)
      ensures pins != null ==>
                Answers(cfg, old(pins.State()), req, now, answer, token, !store.persistent || writable, reply.value)
      ensures pins != null ==>
                (reply.value, pins.State(), store.entries) ==
                  PairOutcome(cfg, old(pins.State()), old(store.entries), req, now, answer, token, pairedAt,
                              !store.persistent || writable)
    {
      if pins == null {
        return None;
      }
      PairRepliesExactly(cfg, pins.State(), store.entries, req, now, answer, token, pairedAt, !store.persistent || writable);
      if req.device == "" {
        return Some(BadRequest);
      }
      var verdict := pins.Verify(req.pin, now);
      match verdict {
        case PINRateLimited => return Some(RateLimited);
        case PINWrong => return Some(WrongPin);
        case PINOK =>
      }
      if cfg.hasConfirmer && !answer {
        return Some(NotConfirmed);
      }
      var r := store.Pair(req.device, req.name, token, pairedAt, writable);
      if r.Err? {
        return Some(Internal);
      }
      var _ := store.Confirm(req.device, writable);
      return Some(Granted(r.value));
    }
  }

  // ---------- the same, step by step ----------

  /** A request arrives and, if it has to wait, is answered by the confirmer. */
  ghost function AuthSteps(cfg: Config, s: System, id: nat, endpoint: Endpoint, token: string, answer: bool): System
    requires id !in s.calls
  {
    var t := Next(cfg, s, Arrive(id, endpoint, token));
    if InPhase(t, id, Waiting) then Next(cfg, t, Decide(id, answer)) else t
  }

  /** Run without interference, the wrapper lets in exactly the requests the gateway admits, with the same effect. */
  lemma {:induction false} AuthIsGatewaySteps(cfg: Config, s: System, id: nat, endpoint: Endpoint, token: string, answer: bool)
    requires id !in s.calls
    ensures var (p, entries) := Authorized(cfg, s.entries, endpoint, token, answer);
            var u := AuthSteps(cfg, s, id, endpoint, token, answer);
            && u.entries == entries
            && (p.Unauthorized? <==> id !in u.calls)
            && (p.Forbidden? <==> InPhase(u, id, Ended))
            && (p.Passed? <==> InPhase(u, id, Admitted))
            && (p.Passed? ==> u.calls[id].entry == p.entry)
  {
    var t := ArriveStep(cfg, s, id, endpoint, token);
    assert t == Next(cfg, s, Arrive(id, endpoint, token));
    if InPhase(t, id, Waiting) {
      assert Next(cfg, t, Decide(id, answer)) == DecideStep(cfg, t, id, answer);
    }
  }

  ghost function UnpairSteps(cfg: Config, s: System, id: nat, saved: bool): System
    requires InPhase(s, id, Admitted) && s.calls[id].endpoint.Unpair?
  {
    var t := Next(cfg, s, RevokeOwn(id, saved));
    if InPhase(t, id, Revoking) then Next(cfg, t, DropOwn(id)) else t
  }

  lemma {:induction false} UnpairIsGatewaySteps(cfg: Config, s: System, id: nat, saved: bool)
    requires InPhase(s, id, Admitted) && s.calls[id].endpoint.Unpair?
    ensures var u, device := UnpairSteps(cfg, s, id, saved), s.calls[id].entry.deviceID;
            && InPhase(u, id, Ended)
            && u.entries == Revoked(s.entries, device)
            && u.streams == if saved then DropAll(s.streams, device) else s.streams
  {
  }

  /** A guess, and for a right PIN the confirmer's answer, the token and the confirmation of the pairing. */
  ghost function PairSteps(cfg: Config, s: System, id: nat, req: PairRequest,
                           now: int, answer: bool, token: string, pairedAt: int, saved: bool): System
    requires id !in s.pairings && token !in s.issued
  {
    var guessed := Next(cfg, s, GuessPin(id, req.pin, req.device, req.name, now));
    if PairingIn(guessed, id, Guessed) then AnswerSteps(cfg, guessed, id, answer, token, pairedAt, saved) else guessed
  }

  ghost function AnswerSteps(cfg: Config, s: System, id: nat, answer: bool, token: string, pairedAt: int, saved: bool): System
    requires PairingIn(s, id, Guessed) && token !in s.issued
  {
    var decided := Next(cfg, s, DecidePairing(id, answer));
    if PairingIn(decided, id, Agreed) then TokenSteps(cfg, decided, id, token, pairedAt, saved) else decided
  }

  ghost function TokenSteps(cfg: Config, s: System, id: nat, token: string, pairedAt: int, saved: bool): System
    requires PairingIn(s, id, Agreed) && token !in s.issued
  {
    var issued := Next(cfg, s, IssueToken(id, token, pairedAt, saved));
    if PairingIn(issued, id, Issued) then Next(cfg, issued, ConfirmPairing(id)) else issued
  }

  lemma {:induction false} TokenStepsPair(cfg: Config, s: System, id: nat, token: string, pairedAt: int, saved: bool)
    requires PairingIn(s, id, Agreed) && token !in s.issued
    ensures var p, u := s.pairings[id], TokenSteps(cfg, s, id, token, pairedAt, saved);
            var paired := Paired(s.entries, p.device, p.name, token, pairedAt);
            && u.entries == (if saved then Confirmed(paired, p.device) else paired)
            && u.issued == s.issued[token := p.device] && u.pin == s.pin
  {
    var issued := Next(cfg, s, IssueToken(id, token, pairedAt, saved));
    StepOnStore(cfg, s, IssueToken(id, token, pairedAt, saved));
    assert issued.pairings[id] == s.pairings[id].(phase := if saved then Issued else PairPhase.Closed);
  }

  lemma {:induction false} AnswerStepsPair(cfg: Config, s: System, id: nat,
                                           answer: bool, token: string, pairedAt: int, saved: bool)
    requires PairingIn(s, id, Guessed) && token !in s.issued
    ensures var p, u := s.pairings[id], AnswerSteps(cfg, s, id, answer, token, pairedAt, saved);
            var paired := Paired(s.entries, p.device, p.name, token, pairedAt);
            && u.pin == s.pin
            && u.issued == (if Agrees(cfg, answer) then s.issued[token := p.device] else s.issued)
            && u.entries ==
               if !Agrees(cfg, answer) then s.entries
               else if saved then Confirmed(paired, p.device) else paired
  {
    var decided := SetPairing(s, id, if Agrees(cfg, answer) then Agreed else PairPhase.Closed);
    assert decided == Next(cfg, s, DecidePairing(id, answer));
    if Agrees(cfg, answer) {
      TokenStepsPair(cfg, decided, id, token, pairedAt, saved);
    }
  }

  lemma {:induction false} GuessOutcome(cfg: Config, s: System, id: nat, req: PairRequest, now: int)
    requires id !in s.pairings
    ensures var (r, st) := Pins.Verified(cfg.pins, s.pin, req.pin, now);
            var u := Next(cfg, s, GuessPin(id, req.pin, req.device, req.name, now));
            u == if req.device == "" then s
            else if r == Pins.PINOK then s.(pin := st, pairings := s.pairings[id := Pairing(req.device, req.name, Guessed)])
            else s.(pin := st)
  {
  }

  lemma {:induction false} RefusedGuess(cfg: Config, s: System, id: nat, req: PairRequest,
                                        now: int, answer: bool, token: string, pairedAt: int, saved: bool)
    requires id !in s.pairings && token !in s.issued
    requires req.device == "" || Pins.Verified(cfg.pins, s.pin, req.pin, now).0 != Pins.PINOK
    ensures PairSteps(cfg, s, id, req, now, answer, token, pairedAt, saved) ==
            if req.device == "" then s else s.(pin := Pins.Verified(cfg.pins, s.pin, req.pin, now).1)
  {
    GuessOutcome(cfg, s, id, req, now);
  }

  lemma {:induction false} RightGuess(cfg: Config, s: System, id: nat, req: PairRequest,
                                      now: int, answer: bool, token: string, pairedAt: int, saved: bool)
    requires id !in s.pairings && token !in s.issued
    requires req.device != "" && Pins.Verified(cfg.pins, s.pin, req.pin, now).0 == Pins.PINOK
    ensures var u := PairSteps(cfg, s, id, req, now, answer, token, pairedAt, saved);
            var paired := Paired(s.entries, req.device, req.name, token, pairedAt);
            && u.pin == Pins.Verified(cfg.pins, s.pin, req.pin, now).1
            && u.issued == (if Agrees(cfg, answer) then s.issued[token := req.device] else s.issued)
            && u.entries ==
               if !Agrees(cfg, answer) then s.entries
               else if saved then Confirmed(paired, req.device) else paired
  {
    GuessOutcome(cfg, s, id, req, now);
    AnswerStepsPair(cfg, Next(cfg, s, GuessPin(id, req.pin, req.device, req.name, now)), id, answer, token, pairedAt, saved);
  }

  /** So does POST /v1/pair: one request alone is answered as the gateway's steps would. */
  lemma {:induction false} PairIsGatewaySteps(cfg: Config, s: System, id: nat, req: PairRequest,
                                              now: int, answer: bool, token: string, pairedAt: int, saved: bool)
    requires id !in s.pairings && token !in s.issued
    ensures var (reply, st, entries) := PairOutcome(cfg, s.pin, s.entries, req, now, answer, token, pairedAt, saved);
            var u := PairSteps(cfg, s, id, req, now, answer, token, pairedAt, saved);
            && u.pin == st && u.entries == entries
            && u.issued == (if reply.Granted? || reply.Internal? then s.issued[token := req.device] else s.issued)
            && (reply.Granted? ==> reply.token == token)
  {
    if req.device != "" && Pins.Verified(cfg.pins, s.pin, req.pin, now).0 == Pins.PINOK {
      RightGuess(cfg, s, id, req, now, answer, token, pairedAt, saved);
    } else {
      RefusedGuess(cfg, s, id, req, now, answer, token, pairedAt, saved);
    }
  }
}
