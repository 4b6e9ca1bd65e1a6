/**
  The PIN manager of go/agent/pin.go, as a value and as a class, and what it answers in
  every run. Times are integers; the random number is an argument of Generate.
 */
module Pins {
  import opened Wrappers

  datatype Result = PINOK | PINWrong | PINRateLimited

  datatype Settings = Settings(ttl: int, maxAttempts: int)

  /** No PIN is active when `pin` is empty. */
  datatype PinState = PinState(pin: string, expires: int, attempts: int)

  const NO_PIN := PinState("", 0, 0)

  // ---------- six digits ----------

  function Shifted(n: nat, k: nat): nat {
    if k == 0 then n else Shifted(n / 10, k - 1)
  }

  function DigitChar(d: nat): char
    requires d < 10
  {
    '0' + d as char
  }

  /** The decimal digits of n, padded with zeros to six places. */
  function SixDigits(n: nat): (s: string)
    ensures |s| == 6
  {
    seq(6, i requires 0 <= i < 6 => DigitChar(Shifted(n, 5 - i) % 10))
  }

  method Pad6(n: nat) returns (s: string)
    ensures s == SixDigits(n)
  {
    var b := new char[6](_ => '0');
    var rest, i := n, 5;
    while i >= 0
      invariant -1 <= i <= 5
      invariant rest == Shifted(n, 5 - i)
      invariant forall j :: i < j < 6 ==> b[j] == DigitChar(Shifted(n, 5 - j) % 10)
    {
      b[i] := DigitChar(rest % 10);
      ShiftOneMore(n, 5 - i);
      rest := rest / 10;
      i := i - 1;
    }
    return b[..];
  }

  lemma {:induction false} ShiftOneMore(n: nat, k: nat)
    ensures Shifted(n, k + 1) == Shifted(n, k) / 10
  {
    if k > 0 {
      ShiftOneMore(n / 10, k - 1);
    }
  }

  function DigitValue(c: char): int {
    c as int - '0' as int
  }

  lemma {:induction false} LastDigit(n: nat, k: nat)
    ensures Shifted(n, k) == Shifted(n, k + 1) * 10 + Shifted(n, k) % 10
  {
    ShiftOneMore(n, k);
  }

  lemma {:induction false} DigitAt(n: nat, i: nat)
    requires i < 6
    ensures DigitValue(SixDigits(n)[i]) == Shifted(n, 5 - i) % 10
  {
  }

  /** The text reads back as the number, so different numbers below a million show different PINs. */
  lemma {:induction false} SixDigitsReadBack(n: nat)
    requires n < 1_000_000
    ensures var s := SixDigits(n);
            n == 100000 * DigitValue(s[0]) + 10000 * DigitValue(s[1]) + 1000 * DigitValue(s[2])
            + 100 * DigitValue(s[3]) + 10 * DigitValue(s[4]) + DigitValue(s[5])
  {
    DigitAt(n, 0);
    DigitAt(n, 1);
    DigitAt(n, 2);
    DigitAt(n, 3);
    DigitAt(n, 4);
    DigitAt(n, 5);
    LastDigit(n, 0);
    LastDigit(n, 1);
    LastDigit(n, 2);
    LastDigit(n, 3);
    LastDigit(n, 4);
    LastDigit(n, 5);
    assert Shifted(n, 0) == n;
  }

  // ---------- the two operations ----------

  function Generated(cfg: Settings, n: nat, now: int): PinState {
    PinState(SixDigits(n), now + cfg.ttl, 0)
  }

  function Verified(cfg: Settings, st: PinState, pin: string, now: int): (Result, PinState) {
    if st.pin == "" || now > st.expires then (PINWrong, st.(pin := ""))
    else if st.attempts >= cfg.maxAttempts then (PINRateLimited, st)
    else if st.pin == pin then (PINOK, st.(attempts := st.attempts + 1, pin := ""))
    else (PINWrong, st.(attempts := st.attempts + 1))
  }

  class PINManager {
    const ttl: int
    const maxAttempts: int
    var pin: string
    var expires: int
    var attempts: int

    constructor (ttl: int, maxAttempts: int)
      ensures Config() == Settings(ttl, maxAttempts) && State() == NO_PIN
    {
      this.ttl, this.maxAttempts := ttl, maxAttempts;
      pin, expires, attempts := "", 0, 0;
    }

    function Config(): Settings {
      Settings(ttl, maxAttempts)
    }

    function State(): PinState
      reads this
    {
      PinState(pin, expires, attempts)
    }

    /** `n` is what rand.Int returned, below a million. */
    method Generate(n: nat, now: int) returns (shown: string)
      modifies this
      ensures shown == SixDigits(n) && State() == Generated(Config(), n, now)
    {
      shown := Pad6(n);
      pin := shown;
      expires := now + ttl;
      attempts := 0;
    }

    method Verify(presented: string, now: int) returns (r: Result)
      modifies this
      ensures (r, State()) == Verified(Config(), old(State()), presented, now)
    {
      if pin == "" || now > expires {
        pin := "";
        return PINWrong;
      }
      if attempts >= maxAttempts {
        return PINRateLimited;
      }
      attempts := attempts + 1;
      if pin == presented {
        pin := "";
        return PINOK;
      }
      return PINWrong;
    }
  }

  // ---------- runs ----------

  datatype Call = Generate(n: nat, now: int) | Verify(pin: string, now: int)

  function Step(cfg: Settings, st: PinState, c: Call): PinState {
    match c
    case Generate(n, now) => Generated(cfg, n, now)
    case Verify(pin, now) => Verified(cfg, st, pin, now).1
  }

  function Run(cfg: Settings, calls: seq<Call>): PinState {
    if calls == [] then NO_PIN else Step(cfg, Run(cfg, calls[..|calls| - 1]), calls[|calls| - 1])
  }

  /** The answer to a call that comes after `calls`. */
  function Answer(cfg: Settings, calls: seq<Call>, pin: string, now: int): Result {
    Verified(cfg, Run(cfg, calls), pin, now).0
  }

  predicate ClockNeverGoesBack(calls: seq<Call>) {
    forall i, j :: 0 <= i < j < |calls| ==> calls[i].now <= calls[j].now
  }

  /** The position of the latest Generate; everything after it is a Verify. */
  function Latest(calls: seq<Call>): (g: Option<nat>)
    ensures g.Some? ==> g.value < |calls| && calls[g.value].Generate?
    ensures g.Some? ==> forall j :: g.value < j < |calls| ==> calls[j].Verify?
    ensures g.None? ==> forall j :: 0 <= j < |calls| ==> calls[j].Verify?
  {
    if calls == [] then None
    else if calls[|calls| - 1].Generate? then Some(|calls| - 1)
    else Latest(calls[..|calls| - 1])
  }

  /** One of the first maxAttempts guesses since position g was the PIN shown there. */
  ghost predicate Used(cfg: Settings, calls: seq<Call>, g: nat)
    requires g < |calls| && calls[g].Generate?
  {
    exists j :: g < j < |calls| && j - g <= cfg.maxAttempts && calls[j].Verify? && calls[j].pin == SixDigits(calls[g].n)
  }

  /** A guess came after the PIN's time was over. */
  ghost predicate Overdue(cfg: Settings, calls: seq<Call>, g: nat)
    requires g < |calls| && calls[g].Generate?
  {
    g + 1 < |calls| && calls[|calls| - 1].now > calls[g].now + cfg.ttl
  }

  lemma {:induction false} UsedAfterGuess(cfg: Settings, calls: seq<Call>, g: nat)
    requires calls != [] && g < |calls| - 1 && calls[g].Generate? && calls[|calls| - 1].Verify?
    ensures var n := |calls| - 1;
            Used(cfg, calls, g) <==>
            Used(cfg, calls[..n], g) || (n - g <= cfg.maxAttempts && calls[n].pin == SixDigits(calls[g].n))
  {
    var n := |calls| - 1;
    var before := calls[..n];
    if Used(cfg, before, g) {
      var j :| g < j < n && j - g <= cfg.maxAttempts && before[j].Verify? && before[j].pin == SixDigits(before[g].n);
      assert calls[j] == before[j];
    }
    if Used(cfg, calls, g) {
      var j :| g < j < |calls| && j - g <= cfg.maxAttempts && calls[j].Verify? && calls[j].pin == SixDigits(calls[g].n);
      assert j < n ==> before[j] == calls[j];
    }
  }

  lemma {:induction false} StateTellsTheRun(cfg: Settings, calls: seq<Call>)
    requires ClockNeverGoesBack(calls)
    ensures var st := Run(cfg, calls);
            match Latest(calls)
            case None => st.pin == ""
            case Some(g) =>
              var guesses, cap := |calls| - g - 1, if cfg.maxAttempts > 0 then cfg.maxAttempts else 0;
              && st.expires == calls[g].now + cfg.ttl
              && (st.pin == "" <==> Used(cfg, calls, g) || Overdue(cfg, calls, g))
              && (st.pin != "" ==> st.pin == SixDigits(calls[g].n) && st.attempts == if guesses < cap then guesses else cap)
  {
    if calls != [] && calls[|calls| - 1].Verify? {
      var n := |calls| - 1;
      var before := calls[..n];
      StateTellsTheRun(cfg, before);
      if Latest(before).Some? {
        var g := Latest(before).value;
        UsedAfterGuess(cfg, calls, g);
        assert Overdue(cfg, before, g) ==> calls[n - 1].now <= calls[n].now;
      }
    }
  }

  /**
    A guess is accepted exactly when it is the first to show the latest PIN, comes among the
    first maxAttempts guesses since that PIN was made, and not after its expiry.
   */
  lemma {:induction false} AcceptedExactly(cfg: Settings, calls: seq<Call>, pin: string, now: int)
    requires ClockNeverGoesBack(calls + [Verify(pin, now)])
    ensures Answer(cfg, calls, pin, now) == PINOK <==>
            && Latest(calls).Some?
            && var g := Latest(calls).value;
            && pin == SixDigits(calls[g].n)
            && now <= calls[g].now + cfg.ttl
            && |calls| - g <= cfg.maxAttempts
            && forall j :: g < j < |calls| ==> calls[j].pin != pin
  {
    var all := calls + [Verify(pin, now)];
    assert forall i :: 0 <= i < |calls| ==> all[i] == calls[i];
    assert all[|calls|].now == now;
    StateTellsTheRun(cfg, calls);
    if Latest(calls).Some? {
      var g := Latest(calls).value;
      if |calls| - g <= cfg.maxAttempts && pin == SixDigits(calls[g].n) {
        assert Used(cfg, calls, g) <==> !(forall j :: g < j < |calls| ==> calls[j].pin != pin);
      }
      if now <= calls[g].now + cfg.ttl {
        assert |calls| > g + 1 ==> all[|calls| - 1].now <= all[|calls|].now;
      }
    }
  }

  /** A guess is turned away uncounted exactly when maxAttempts guesses have missed a PIN still in time. */
  lemma {:induction false} RateLimitedExactly(cfg: Settings, calls: seq<Call>, pin: string, now: int)
    requires ClockNeverGoesBack(calls + [Verify(pin, now)])
    ensures Answer(cfg, calls, pin, now) == PINRateLimited <==>
            && Latest(calls).Some?
            && var g := Latest(calls).value;
            && now <= calls[g].now + cfg.ttl
            && |calls| - g > cfg.maxAttempts
            && !Used(cfg, calls, g)
  {
    var all := calls + [Verify(pin, now)];
    assert forall i :: 0 <= i < |calls| ==> all[i] == calls[i];
    assert all[|calls|].now == now;
    StateTellsTheRun(cfg, calls);
    if Latest(calls).Some? {
      var g := Latest(calls).value;
      if now <= calls[g].now + cfg.ttl {
        assert |calls| > g + 1 ==> all[|calls| - 1].now <= all[|calls|].now;
      }
    }
  }

  function Generates(calls: seq<Call>): nat {
    if calls == [] then 0
    else Generates(calls[..|calls| - 1]) + if calls[|calls| - 1].Generate? then 1 else 0
  }

  function Accepted(cfg: Settings, calls: seq<Call>): nat {
    if calls == [] then 0
    else
      var before, last := calls[..|calls| - 1], calls[|calls| - 1];
      Accepted(cfg, before) + if last.Verify? && Answer(cfg, before, last.pin, last.now) == PINOK then 1 else 0
  }

  /** Whatever the clock does, no PIN is accepted twice: an active PIN is a Generate not yet spent. */
  lemma {:induction false} AcceptedPinsWereGenerated(cfg: Settings, calls: seq<Call>)
    ensures Accepted(cfg, calls) + (if Run(cfg, calls).pin != "" then 1 else 0) <= Generates(calls)
  {
    if calls != [] {
      AcceptedPinsWereGenerated(cfg, calls[..|calls| - 1]);
    }
  }

  /** The guess is compared with the PIN, right or wrong. */
  predicate Compares(cfg: Settings, st: PinState, now: int) {
    st.pin != "" && now <= st.expires && st.attempts < cfg.maxAttempts
  }

  /** How many guesses were compared with the latest PIN. */
  function Comparisons(cfg: Settings, calls: seq<Call>): nat {
    if calls == [] || calls[|calls| - 1].Generate? then 0
    else
      var before := calls[..|calls| - 1];
      Comparisons(cfg, before) + if Compares(cfg, Run(cfg, before), calls[|calls| - 1].now) then 1 else 0
  }

  /** Whatever the clock does, a PIN is compared at most maxAttempts times. */
  lemma {:induction false} ComparisonsAreLimited(cfg: Settings, calls: seq<Call>)
    ensures Comparisons(cfg, calls) == Run(cfg, calls).attempts
    ensures Comparisons(cfg, calls) <= if cfg.maxAttempts > 0 then cfg.maxAttempts else 0
  {
    if calls != [] {
      ComparisonsAreLimited(cfg, calls[..|calls| - 1]);
    }
  }
}
