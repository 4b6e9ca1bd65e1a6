/**
  The fan-out hub of go/agent/events.go: bounded per-subscriber queues, log filters and
  disconnection of subscribers that fall behind.
 */
module EventHub {
  import opened CanonicalJson
  import opened EventStream

  /** A frame in the hub; `level` matters for log frames only. */
  datatype Message = Message(kind: Kind, level: string, body: Json)
  {
    function ToItem(): Item {
      Frame(kind, body)
    }
  }

  /** subscriberBuffer */
  const CAPACITY := 64

  /** protocol.LogLevels, most severe first. */
  const LOG_LEVELS: seq<string> := ["error", "warning", "info", "debug"]

  /** slices.Index */
  function Index(levels: seq<string>, level: string): (i: int)
    ensures i == -1 <==> level !in levels
    ensures i >= 0 ==> i < |levels| && levels[i] == level && level !in levels[..i]
  {
    if levels == [] then -1
    else if levels[0] == level then 0
    else
      var i := Index(levels[1..], level);
      assert levels == [levels[0]] + levels[1..];
      assert i >= 0 ==> levels[..i + 1] == [levels[0]] + levels[1..][..i];
      if i < 0 then -1 else i + 1
  }

  function Severity(level: string): int {
    var i := Index(LOG_LEVELS, level);
    if i < 0 then |LOG_LEVELS| - 1 else |LOG_LEVELS| - 1 - i
  }

  /** What GET /v1/events is asked for: the topics of its query, and the level for log lines. */
  datatype Topics = Topics(logs: bool, level: string, traffic: bool)

  /** The minimum severity of log lines; -1 without the topic, 0 without a level. */
  function LevelOf(t: Topics): int {
    if !t.logs then -1 else if t.level == "" then 0 else Severity(t.level)
  }

  /** What the hub knows of one subscriber; logLevel is -1 when logs were not asked for. */
  datatype Sub = Sub(device: string, logLevel: int, queue: seq<Message>, done: bool)

  predicate Wants(logLevel: int, m: Message) {
    m.kind != Log || (logLevel >= 0 && Severity(m.level) >= logLevel)
  }

  /** The non-blocking send of broadcast: a full queue ends the subscription. */
  function Offer(s: Sub, m: Message): Sub {
    if !Wants(s.logLevel, m) then s
    else if |s.queue| < CAPACITY then s.(queue := s.queue + [m])
    else s.(done := true)
  }

  function DropIf(s: Sub, device: string): Sub {
    if s.device == device then s.(done := true) else s
  }

  /** A line is passed on iff its level is one of those at or above the level asked for; an unknown level always is. */
  lemma {:induction false} LogFilter(asked: string, m: Message)
    requires asked in LOG_LEVELS && m.kind == Log
    ensures Wants(Severity(asked), m) <==> m.level !in LOG_LEVELS || m.level in LOG_LEVELS[..Index(LOG_LEVELS, asked) + 1]
    ensures Wants(0, m) && !Wants(-1, m)
  {
    var i, j := Index(LOG_LEVELS, asked), Index(LOG_LEVELS, m.level);
    if 0 <= j <= i {
      assert LOG_LEVELS[..i + 1][j] == m.level;
    } else if j > i {
      assert LOG_LEVELS[..j] == LOG_LEVELS[..i + 1] + LOG_LEVELS[i + 1..j];
    }
  }

  /** Every frame that is no log line is wanted, at any level. */
  lemma {:induction false} OtherFramesAreWanted(logLevel: int, m: Message)
    requires m.kind != Log
    ensures Wants(logLevel, m)
  {
  }

  /** The levels by name: error is 3, warning 2, info 1, debug 0; any other counts as an error. */
  lemma {:induction false} Severities(level: string)
    ensures Severity("error") == 3 && Severity("warning") == 2 && Severity("info") == 1 && Severity("debug") == 0
    ensures level !in {"error", "warning", "info", "debug"} ==> Severity(level) == 3
  {
    LevelsDiffer();
    assert LOG_LEVELS[0] == "error" && LOG_LEVELS[1] == "warning" && LOG_LEVELS[2] == "info" && LOG_LEVELS[3] == "debug";
  }

  lemma {:induction false} LevelsDiffer()
    ensures NoTwoAlike(["error", "warning", "info", "debug"])
  {
    assert |"error"| == |"debug"| == 5 && "error"[0] != "debug"[0];
    assert |"warning"| == 7 && |"info"| == 4;
  }

  ghost predicate NoTwoAlike(levels: seq<string>) {
    forall i, j :: 0 <= i < j < |levels| ==> levels[i] != levels[j]
  }

  /** What a broadcast does to one subscriber: nothing, one more frame of at most 64, or its end. */
  lemma {:induction false} OfferExactly(s: Sub, m: Message)
    ensures var u := Offer(s, m);
            if m.kind == Log && (s.logLevel < 0 || Severity(m.level) < s.logLevel) then u == s
            else if |s.queue| < 64 then u == Sub(s.device, s.logLevel, s.queue + [m], s.done)
            else u == Sub(s.device, s.logLevel, s.queue, true)
  {
  }

  /** What dropDevice does to one. */
  lemma {:induction false} DropExactly(s: Sub, device: string)
    ensures DropIf(s, device) == Sub(s.device, s.logLevel, s.queue, s.done || s.device == device)
  {
  }

  class Subscriber {
    const deviceID: string
    const logLevel: int
    var ch: seq<Message>
    var done: bool

    constructor (deviceID: string, logLevel: int)
      ensures View() == Sub(deviceID, logLevel, [], false)
    {
      this.deviceID, this.logLevel := deviceID, logLevel;
      ch, done := [], false;
    }

    function View(): Sub
      reads this
    {
      Sub(deviceID, logLevel, ch, done)
    }

    method Drop()
      modifies this`done
      ensures View() == old(View()).(done := true)
    {
      done := true;
    }
  }

  class Hub {
    var subs: set<Subscriber>

    constructor ()
      ensures subs == {}
    {
      subs := {};
    }

    method Add(s: Subscriber)
      modifies this
      ensures subs == old(subs) + {s}
    {
      subs := subs + {s};
    }

    method Remove(s: Subscriber)
      modifies this
      ensures subs == old(subs) - {s}
    {
      subs := subs - {s};
    }

    method Broadcast(m: Message)
      modifies subs
      ensures forall s :: s in subs ==> s.View() == Offer(old(s.View()), m)
    {
      var todo := subs;
      while todo != {}
        invariant todo <= subs
        invariant forall s :: s in todo ==> s.View() == old(s.View())
        invariant forall s :: s in subs - todo ==> s.View() == Offer(old(s.View()), m)
        decreases todo
      {
        var s :| s in todo;
        if Wants(s.logLevel, m) {
          if |s.ch| < CAPACITY {
            s.ch := s.ch + [m];
          } else {
            s.Drop();
          }
        }
        todo := todo - {s};
      }
    }

    method DropDevice(deviceID: string)
      modifies subs
      ensures forall s :: s in subs ==> s.View() == DropIf(old(s.View()), deviceID)
    {
      var todo := subs;
      while todo != {}
        invariant todo <= subs
        invariant forall s :: s in todo ==> s.View() == old(s.View())
        invariant forall s :: s in subs - todo ==> s.View() == DropIf(old(s.View()), deviceID)
        decreases todo
      {
        var s :| s in todo;
        if s.deviceID == deviceID {
          s.Drop();
        }
        todo := todo - {s};
      }
    }
  }
}
