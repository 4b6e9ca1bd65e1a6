/** The PIN manager inside a running gateway sees a run of its own; what tokens owe to their PINs. */
module PinRuns {
  import opened Wrappers
  import opened Gateway
  import opened Admission
  import Pins

  /** The call a step makes to the PIN manager; a request without device.id makes none. */
  function PinCall(e: Action): seq<Pins.Call> {
    match e
    case MakePin(n, now) => [Pins.Generate(n, now)]
    case GuessPin(_, pin, device, _, now) => if device == "" then [] else [Pins.Verify(pin, now)]
    case _ => []
  }

  function PinCalls(events: seq<Action>): seq<Pins.Call> {
    if events == [] then [] else PinCalls(events[..|events| - 1]) + PinCall(events[|events| - 1])
  }

  lemma {:induction false} PinAfterCall(cfg: Config, s: System, e: Action)
    requires Enabled(cfg, s, e)
    ensures Next(cfg, s, e).pin == if PinCall(e) == [] then s.pin else Pins.Step(cfg.pins, s.pin, PinCall(e)[0])
  {
  }

  lemma {:induction false} RunSnoc(cfg: Pins.Settings, calls: seq<Pins.Call>, more: seq<Pins.Call>)
    requires |more| <= 1
    ensures Pins.Run(cfg, calls + more) ==
            if more == [] then Pins.Run(cfg, calls) else Pins.Step(cfg, Pins.Run(cfg, calls), more[0])
  {
    if more == [] {
      assert calls + more == calls;
    } else {
      assert (calls + more)[..|calls|] == calls;
    }
  }

  /** The PIN of a gateway is that of a manager that saw only its MakePin and GuessPin steps. */
  lemma {:induction false} PinFollowsItsCalls(cfg: Config, r: Run, i: nat)
    requires IsRun(cfg, r) && i < |r.states|
    ensures r.states[i].pin == Pins.Run(cfg.pins, PinCalls(r.events[..i]))
  {
    if i > 0 {
      var s, e := RunStep(cfg, r, i);
      PinFollowsItsCalls(cfg, r, i - 1);
      assert r.events[..i][..i - 1] == r.events[..i - 1] && r.events[..i][i - 1] == e;
      PinAfterCall(cfg, s, e);
      RunSnoc(cfg.pins, PinCalls(r.events[..i - 1]), PinCall(e));
    }
  }

  lemma {:induction false} PinCallsPrefix(events: seq<Action>, k: nat)
    requires k <= |events|
    ensures PinCalls(events[..k]) <= PinCalls(events)
  {
    if k < |events| {
      PinCallsPrefix(events[..|events| - 1], k);
      assert events[..|events| - 1][..k] == events[..k];
    } else {
      assert events[..k] == events;
    }
  }

  lemma {:induction false} ClockUpTo(events: seq<Action>, g: nat)
    requires g < |events| && Pins.ClockNeverGoesBack(PinCalls(events))
    ensures Pins.ClockNeverGoesBack(PinCalls(events[..g]) + PinCall(events[g]))
  {
    PinCallsPrefix(events, g + 1);
    assert events[..g + 1][..g] == events[..g] && events[..g + 1][g] == events[g];
  }

  /**
    With a clock that never goes back, every token minted by POST /v1/pair answers the latest PIN
    made: its request was the first to show that PIN, not past its expiry and among the first
    maxAttempts guesses since.
   */
  lemma {:induction false} TokensAnswerTheLatestPin(cfg: Config, r: Run, i: nat) returns (g: nat)
    requires IsRun(cfg, r) && i < |r.events| && r.events[i].IssueToken?
    requires Pins.ClockNeverGoesBack(PinCalls(r.events))
    ensures g < i && r.events[g].GuessPin? && r.events[g].id == r.events[i].id
    ensures var calls, e := PinCalls(r.events[..g]), r.events[g];
            && Pins.Latest(calls).Some?
            && var p := Pins.Latest(calls).value;
            && e.pin == Pins.SixDigits(calls[p].n)
            && e.now <= calls[p].now + cfg.pins.ttl
            && |calls| - p <= cfg.pins.maxAttempts
            && forall j :: p < j < |calls| ==> calls[j].pin != e.pin
  {
    var d: nat;
    g, d := TokensAreEarned(cfg, r, i);
    var calls, e := PinCalls(r.events[..g]), r.events[g];
    PinFollowsItsCalls(cfg, r, g);
    ClockUpTo(r.events, g);
    Pins.AcceptedExactly(cfg.pins, calls, e.pin, e.now);
  }
}
