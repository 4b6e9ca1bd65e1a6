/**
  Server-sent events: framing on the agent (go/agent/events.go) and the line parser of
  the controller (go/controller/events.go).
 */
module EventStream {
  import opened Bytes
  import opened Space
  import opened Splitting
  import opened CanonicalJson
  import opened CanonicalEncoder
  import CanonicalParser

  datatype Kind = Status | Changed | Traffic | Log

  /** The protocol.Event* constants. */
  function KindBytes(k: Kind): seq<byte> {
    match k
    case Status => [0x73, 0x74, 0x61, 0x74, 0x75, 0x73]
    case Changed => [0x63, 0x68, 0x61, 0x6E, 0x67, 0x65, 0x64]
    case Traffic => [0x74, 0x72, 0x61, 0x66, 0x66, 0x69, 0x63]
    case Log => [0x6C, 0x6F, 0x67]
  }

  /** "event:" */
  const EVENT: seq<byte> := [0x65, 0x76, 0x65, 0x6E, 0x74, 0x3A]
  /** "data:" */
  const DATA: seq<byte> := [0x64, 0x61, 0x74, 0x61, 0x3A]
  /** ": ping" */
  const PING: seq<byte> := [0x3A, 0x20, 0x70, 0x69, 0x6E, 0x67]
  /** "message" */
  const MESSAGE: seq<byte> := [0x6D, 0x65, 0x73, 0x73, 0x61, 0x67, 0x65]

  /** The scanner refuses a line of this many bytes or more. */
  const MAX_LINE := 0x100000

  // ---------- the agent's side ----------

  function EventLine(k: Kind): seq<byte> {
    EVENT + [SPACE] + KindBytes(k)
  }

  function DataLine(payload: seq<byte>): seq<byte> {
    DATA + [SPACE] + payload
  }

  /** What frame() renders. */
  function FrameBytes(k: Kind, payload: seq<byte>): seq<byte> {
    EventLine(k) + [LF] + (DataLine(payload) + [LF] + [LF])
  }

  /** One write of handleEvents. */
  datatype Item = Frame(kind: Kind, body: Json) | Ping

  ghost predicate Sendable(item: Item) {
    item.Frame? ==> Canonical(item.body)
  }

  ghost function ItemBytes(item: Item): seq<byte> {
    match item
    case Frame(k, body) => FrameBytes(k, Text(body))
    case Ping => PING + [LF] + [LF]
  }

  ghost function StreamBytes(items: seq<Item>): seq<byte> {
    if items == [] then [] else ItemBytes(items[0]) + StreamBytes(items[1..])
  }

  // ---------- the controller's side ----------

  datatype Event = Event(typ: seq<byte>, data: seq<byte>)

  datatype State = State(typ: seq<byte>, data: seq<seq<byte>>)

  const IDLE := State([], [])

  datatype Outcome = Outcome(events: seq<Event>, tooLong: bool)

  function DropCR(line: seq<byte>): seq<byte> {
    if line != [] && line[|line| - 1] == CR then line[..|line| - 1] else line
  }

  /** The switch on one line: the next accumulator and the event dispatched, if any. */
  function Feed(st: State, line: seq<byte>): (State, seq<Event>) {
    if line == [] then
      (IDLE, if st.typ != [] || st.data != []
       then [Event(if st.typ == [] then MESSAGE else st.typ, Join(st.data, LF))] else [])
    else if [COLON] <= line then (st, [])
    else if EVENT <= line then (st.(typ := TrimSpace(TrimPrefix(line, EVENT))), [])
    else if DATA <= line then (st.(data := st.data + [TrimPrefix(TrimPrefix(line, DATA), [SPACE])]), [])
    else (st, [])
  }

  function Prepend(events: seq<Event>, o: Outcome): Outcome {
    o.(events := events + o.events)
  }

  /** All the scanner and the switch make of a response body. */
  function Receive(st: State, body: seq<byte>): Outcome
    decreases |body|
  {
    if body == [] then Outcome([], false)
    else
      var i := IndexOf(body, LF);
      if i >= MAX_LINE then Outcome([], true)
      else
        var (next, out) := Feed(st, DropCR(body[..i]));
        Prepend(out, Receive(next, if i < |body| then body[i + 1..] else []))
  }

  lemma {:induction false} PrependAssociates(a: seq<Event>, b: seq<Event>, o: Outcome)
    ensures Prepend(a, Prepend(b, o)) == Prepend(a + b, o)
    ensures Prepend([], o) == o
    ensures Prepend(a, Outcome([], o.tooLong)) == Outcome(a, o.tooLong)
  {
    assert a + (b + o.events) == a + b + o.events;
  }

  /** The scan loop of Client.Events; `tooLong` is the scanner's error, otherwise it ends in io.EOF. */
  method Events(body: seq<byte>) returns (events: seq<Event>, tooLong: bool)
    ensures Outcome(events, tooLong) == Receive(IDLE, body)
  {
    events := [];
    var typ: seq<byte>, data: seq<seq<byte>> := [], [];
    var rest := body;
    PrependAssociates([], [], Receive(IDLE, body));
    while rest != []
      invariant Receive(IDLE, body) == Prepend(events, Receive(State(typ, data), rest))
      decreases |rest|
    {
      var i := IndexOf(rest, LF);
      if i >= MAX_LINE {
        PrependAssociates(events, [], Outcome([], true));
        return events, true;
      }
      var line := DropCR(rest[..i]);
      ghost var before := events;
      var dispatched: seq<Event>;
      typ, data, dispatched := Line(typ, data, line);
      events := events + dispatched;
      rest := if i < |rest| then rest[i + 1..] else [];
      PrependAssociates(before, dispatched, Receive(State(typ, data), rest));
    }
    PrependAssociates(events, [], Outcome([], false));
    tooLong := false;
  }

  /** The body of the loop: what one line does to the two accumulators. */
  method Line(typ: seq<byte>, data: seq<seq<byte>>, line: seq<byte>)
    returns (newTyp: seq<byte>, newData: seq<seq<byte>>, dispatched: seq<Event>)
    ensures (State(newTyp, newData), dispatched) == Feed(State(typ, data), line)
  {
    newTyp, newData, dispatched := typ, data, [];
    if line == [] {
      if typ != [] || |data| > 0 {
        if typ == [] {
          newTyp := MESSAGE;
        }
        dispatched := [Event(newTyp, Join(data, LF))];
      }
      newTyp, newData := [], [];
    } else if [COLON] <= line {
      // comment or heartbeat
    } else if EVENT <= line {
      newTyp := TrimSpace(TrimPrefix(line, EVENT));
    } else if DATA <= line {
      newData := data + [TrimPrefix(TrimPrefix(line, DATA), [SPACE])];
    }
  }

  // ---------- one line, one item ----------

  predicate CleanLine(line: seq<byte>) {
    LF !in line && CR !in line
  }

  lemma {:induction false} ReceiveRawLine(st: State, raw: seq<byte>, rest: seq<byte>)
    requires LF !in raw
    ensures Receive(st, raw + [LF] + rest)
         == if |raw| >= MAX_LINE then Outcome([], true)
            else Prepend(Feed(st, DropCR(raw)).1, Receive(Feed(st, DropCR(raw)).0, rest))
  {
    var body := raw + [LF] + rest;
    IndexOfSplit(raw, LF, rest);
    assert body[..|raw|] == raw && body[|raw| + 1..] == rest;
  }

  lemma {:induction false} ReceiveLine(st: State, line: seq<byte>, rest: seq<byte>)
    requires CleanLine(line)
    ensures Receive(st, line + [LF] + rest)
         == if |line| >= MAX_LINE then Outcome([], true)
            else Prepend(Feed(st, line).1, Receive(Feed(st, line).0, rest))
  {
    ReceiveRawLine(st, line, rest);
  }

  /** An unterminated or unfinished line dispatches nothing. */
  lemma {:induction false} ReceiveUnterminated(st: State, part: seq<byte>)
    requires CleanLine(part)
    ensures Receive(st, part).events == []
  {
    assert part[..|part|] == part;
    assert IndexOf(part, LF) == |part|;
  }

  predicate Letters(b: seq<byte>) {
    forall i :: 0 <= i < |b| ==> 0x61 <= b[i] <= 0x7A
  }

  lemma {:induction false} TrimLetters(b: seq<byte>)
    requires Letters(b)
    ensures TrimSpace([SPACE] + b) == b
  {
    assert ([SPACE] + b)[1..] == b;
    NoLeadingSpace(b);
    assert TrimLeft([SPACE] + b) == TrimLeft(b) == b;
    if |b| >= 1 {
      NoLeadingSpace(b[|b| - 1..]);
    }
    if |b| >= 2 {
      NoLeadingSpace(b[|b| - 2..]);
    }
    if |b| >= 3 {
      NoLeadingSpace(b[|b| - 3..]);
    }
    assert TrailingSpace(b) == 0;
  }

  lemma {:induction false} NoLeadingSpace(b: seq<byte>)
    requires Letters(b)
    ensures LeadingSpace(b) == 0 && TrimLeft(b) == b
  {
    assert b != [] ==> 0x61 <= b[0] <= 0x7A;
  }

  lemma {:induction false} KindIsLetters(k: Kind)
    ensures Letters(KindBytes(k)) && 0 < |KindBytes(k)| < 8
  {
  }

  lemma {:induction false} FieldLine(name: seq<byte>, value: seq<byte>)
    requires NoControls(name) && NoControls(value)
    ensures CleanLine(name + [SPACE] + value)
    ensures TrimPrefix(name + [SPACE] + value, name) == [SPACE] + value
    ensures TrimPrefix([SPACE] + value, [SPACE]) == value
  {
    var line := name + [SPACE] + value;
    assert NoControls(line);
    assert line[|name|..] == [SPACE] + value;
    assert ([SPACE] + value)[1..] == value;
  }

  lemma {:induction false} EventLineSetsType(k: Kind)
    ensures CleanLine(EventLine(k)) && |EventLine(k)| < MAX_LINE
    ensures Feed(IDLE, EventLine(k)) == (State(KindBytes(k), []), [])
  {
    KindIsLetters(k);
    FieldLine(EVENT, KindBytes(k));
    TrimLetters(KindBytes(k));
    assert EventLine(k)[0] == EVENT[0];
  }

  lemma {:induction false} DataLineAppends(st: State, payload: seq<byte>)
    requires NoControls(payload)
    ensures CleanLine(DataLine(payload))
    ensures Feed(st, DataLine(payload)) == (st.(data := st.data + [payload]), [])
  {
    FieldLine(DATA, payload);
    assert DataLine(payload)[0] == DATA[0];
  }

  predicate Fits(payload: seq<byte>) {
    |DataLine(payload)| < MAX_LINE
  }

  /** A frame yields exactly its event, or stops the scanner when its data line is too long. */
  lemma {:induction false} ReceiveFrame(k: Kind, payload: seq<byte>, rest: seq<byte>)
    requires NoControls(payload)
    ensures Receive(IDLE, FrameBytes(k, payload) + rest)
         == if Fits(payload) then Prepend([Event(KindBytes(k), payload)], Receive(IDLE, rest)) else Outcome([], true)
  {
    var data := DataLine(payload);
    var typed := State(KindBytes(k), []);
    EventLineSetsType(k);
    assert FrameBytes(k, payload) + rest == EventLine(k) + [LF] + (data + [LF] + ([] + [LF] + rest));
    ReceiveLine(IDLE, EventLine(k), data + [LF] + ([] + [LF] + rest));
    DataLineAppends(typed, payload);
    assert [] + [payload] == [payload];
    ReceiveLine(typed, data, [] + [LF] + rest);
    ReceiveLine(typed.(data := [payload]), [], rest);
  }

  lemma {:induction false} ReceivePing(rest: seq<byte>)
    ensures Receive(IDLE, PING + [LF] + [LF] + rest) == Receive(IDLE, rest)
  {
    assert PING + [LF] + [LF] + rest == PING + [LF] + ([] + [LF] + rest);
    ReceiveLine(IDLE, PING, [] + [LF] + rest);
    ReceiveLine(IDLE, [], rest);
  }

  // ---------- whole streams ----------

  ghost predicate ItemFits(item: Item) {
    item.Frame? ==> Fits(Text(item.body))
  }

  ghost function EventOf(item: Item): seq<Event> {
    if item.Frame? then [Event(KindBytes(item.kind), Text(item.body))] else []
  }

  ghost function EventsOf(items: seq<Item>): seq<Event> {
    if items == [] then [] else EventOf(items[0]) + EventsOf(items[1..])
  }

  ghost predicate AllSendable(items: seq<Item>) {
    forall i :: 0 <= i < |items| ==> Sendable(items[i])
  }

  ghost predicate AllFit(items: seq<Item>) {
    forall i :: 0 <= i < |items| ==> ItemFits(items[i])
  }

  /** How many leading items the scanner accepts and the first `n` bytes hold to their blank line. */
  ghost function Whole(items: seq<Item>, n: int): (k: nat)
    ensures k <= |items|
  {
    if items == [] || !ItemFits(items[0]) || n < |ItemBytes(items[0])| then 0
    else 1 + Whole(items[1..], n - |ItemBytes(items[0])|)
  }

  lemma {:induction false} ReceiveItem(item: Item, rest: seq<byte>)
    requires Sendable(item)
    ensures Receive(IDLE, ItemBytes(item) + rest)
         == if ItemFits(item) then Prepend(EventOf(item), Receive(IDLE, rest)) else Outcome([], true)
  {
    match item
    case Frame(k, body) =>
      TextHasNoControls(body);
      ReceiveFrame(k, Text(body), rest);
    case Ping =>
      ReceivePing(rest);
      PrependAssociates([], [], Receive(IDLE, rest));
  }

  /** The tail of a frame after its first line, cut short: no blank line, no event. */
  lemma {:induction false} ReceiveCutTail(st: State, line: seq<byte>, n: nat)
    requires CleanLine(line) && n <= |line| + 1
    requires Feed(st, line).1 == []
    ensures Receive(st, (line + [LF] + [LF])[..n]).events == []
  {
    var cut := (line + [LF] + [LF])[..n];
    if n <= |line| {
      assert cut == line[..n];
      ReceiveUnterminated(st, cut);
    } else {
      assert cut == line + [LF] + [];
      ReceiveLine(st, line, []);
    }
  }

  lemma {:induction false} CleanPrefix(line: seq<byte>, n: nat)
    requires CleanLine(line) && n <= |line|
    ensures CleanLine(line[..n])
  {
  }

  lemma {:induction false} CutTwoLines(line: seq<byte>, tail: seq<byte>, n: nat)
    requires n <= |line + [LF] + tail|
    ensures n <= |line| ==> (line + [LF] + tail)[..n] == line[..n]
    ensures n > |line| ==> (line + [LF] + tail)[..n] == line + [LF] + tail[..n - |line| - 1]
  {
  }

  /** Two lines that dispatch nothing, cut before the blank line behind them. */
  lemma {:induction false} ReceiveCutLines(line: seq<byte>, typed: State, data: seq<byte>, n: nat)
    requires CleanLine(line) && |line| < MAX_LINE && Feed(IDLE, line) == (typed, [])
    requires CleanLine(data) && Feed(typed, data).1 == []
    requires n < |line + [LF] + (data + [LF] + [LF])|
    ensures Receive(IDLE, (line + [LF] + (data + [LF] + [LF]))[..n]).events == []
  {
    var tail := data + [LF] + [LF];
    CutTwoLines(line, tail, n);
    if n <= |line| {
      CleanPrefix(line, n);
      ReceiveUnterminated(IDLE, line[..n]);
    } else {
      var m := n - |line| - 1;
      ReceiveLine(IDLE, line, tail[..m]);
      ReceiveCutTail(typed, data, m);
    }
  }

  lemma {:induction false} ReceiveCutFrame(k: Kind, payload: seq<byte>, n: nat)
    requires NoControls(payload) && n < |FrameBytes(k, payload)|
    ensures Receive(IDLE, FrameBytes(k, payload)[..n]).events == []
  {
    var typed := State(KindBytes(k), []);
    EventLineSetsType(k);
    DataLineAppends(typed, payload);
    ReceiveCutLines(EventLine(k), typed, DataLine(payload), n);
  }

  lemma {:induction false} ReceiveCutItem(item: Item, n: nat)
    requires Sendable(item) && n < |ItemBytes(item)|
    ensures Receive(IDLE, ItemBytes(item)[..n]).events == []
  {
    match item
    case Frame(k, body) =>
      TextHasNoControls(body);
      ReceiveCutFrame(k, Text(body), n);
    case Ping =>
      ReceiveCutTail(IDLE, PING, n);
  }

  lemma {:induction false} EventsOfFirst(items: seq<Item>, k: nat)
    requires k < |items|
    ensures EventsOf(items[..k + 1]) == EventOf(items[0]) + EventsOf(items[1..][..k])
  {
    assert items[..k + 1][1..] == items[1..][..k];
  }

  lemma {:induction false} CutStreamParts(items: seq<Item>, n: nat)
    requires items != [] && n <= |StreamBytes(items)|
    ensures var first, tail := ItemBytes(items[0]), StreamBytes(items[1..]);
            StreamBytes(items)[..n] == if n < |first| then first[..n] else first + tail[..n - |first|]
  {
    TakeOfConcatenation(ItemBytes(items[0]), StreamBytes(items[1..]), n);
  }

  /**
    Wherever the connection is cut, the controller has delivered exactly the events whose
    closing blank line arrived, each intact, up to the first line beyond the scanner's limit.
   */
  lemma {:induction false} CutStreamDeliversWholeEvents(items: seq<Item>, n: nat)
    requires AllSendable(items) && n <= |StreamBytes(items)|
    ensures Receive(IDLE, StreamBytes(items)[..n]).events == EventsOf(items[..Whole(items, n)])
  {
    if items != [] {
      var item, tail, m := items[0], StreamBytes(items[1..]), n - |ItemBytes(items[0])|;
      CutStreamParts(items, n);
      if m < 0 {
        ReceiveCutItem(item, n);
        assert items[..0] == [];
      } else {
        ReceiveItem(item, tail[..m]);
        if ItemFits(item) {
          CutStreamDeliversWholeEvents(items[1..], m);
          EventsOfFirst(items, Whole(items[1..], m));
        }
      }
    }
  }

  /** What `Whole` counts, said without recursion. */
  lemma {:induction false} WholeCountsCompleteItems(items: seq<Item>, n: int, j: nat)
    requires AllFit(items) && j <= |items| && n >= 0
    ensures j <= Whole(items, n) <==> |StreamBytes(items[..j])| <= n
  {
    if j > 0 {
      assert items[..j][1..] == items[1..][..j - 1];
      var m := n - |ItemBytes(items[0])|;
      if m >= 0 {
        WholeCountsCompleteItems(items[1..], m, j - 1);
      }
    }
  }

  /** Every frame and nothing else, in order, whatever heartbeats lie between them. */
  lemma {:induction false} StreamRoundTrip(items: seq<Item>)
    requires AllSendable(items) && AllFit(items)
    ensures Receive(IDLE, StreamBytes(items)) == Outcome(EventsOf(items), false)
  {
    if items != [] {
      ReceiveItem(items[0], StreamBytes(items[1..]));
      StreamRoundTrip(items[1..]);
    }
  }

  ghost function Frames(items: seq<Item>): seq<Item> {
    if items == [] then []
    else (if items[0].Frame? then [items[0]] else []) + Frames(items[1..])
  }

  /** The delivered events determine the frames sent: kinds and JSON values alike. */
  lemma {:induction false} EventsDetermineFrames(items: seq<Item>, others: seq<Item>)
    requires AllSendable(items) && AllSendable(others) && EventsOf(items) == EventsOf(others)
    ensures Frames(items) == Frames(others)
    decreases |items| + |others|
  {
    if items != [] && !items[0].Frame? {
      EventsDetermineFrames(items[1..], others);
    } else if others != [] && !others[0].Frame? {
      EventsDetermineFrames(items, others[1..]);
    } else if items != [] && others != [] {
      assert EventsOf(items)[0] == EventsOf(others)[0];
      assert EventsOf(items)[1..] == EventsOf(items[1..]) && EventsOf(others)[1..] == EventsOf(others[1..]);
      CanonicalParser.EqualTextEqualValue(items[0].body, others[0].body);
      KindsDiffer(items[0].kind, others[0].kind);
      EventsDetermineFrames(items[1..], others[1..]);
    }
  }

  lemma {:induction false} KindsDiffer(k: Kind, l: Kind)
    requires KindBytes(k) == KindBytes(l)
    ensures k == l
  {
    var a, b := KindBytes(k), KindBytes(l);
    assert a[0] == b[0] && |a| == |b|;
  }

  // ---------- any event a server may send ----------

  /** Lines of a response body, each with its newline. */
  function Lines(lines: seq<seq<byte>>): seq<byte> {
    if lines == [] then [] else lines[0] + [LF] + Lines(lines[1..])
  }

  /** One line within the scanner's limit, not blank; it may end in a carriage return. */
  predicate FieldOrComment(raw: seq<byte>) {
    LF !in raw && |raw| < MAX_LINE && DropCR(raw) != []
  }

  /** The value of the last event line; `before` when there is none. */
  function TypeOf(lines: seq<seq<byte>>, before: seq<byte>): seq<byte>
    decreases |lines|
  {
    if lines == [] then before
    else
      var line := DropCR(lines[0]);
      TypeOf(lines[1..], if EVENT <= line then TrimSpace(TrimPrefix(line, EVENT)) else before)
  }

  /** The value of a data line, without one leading space. */
  function DataValue(line: seq<byte>): seq<byte> {
    TrimPrefix(TrimPrefix(line, DATA), [SPACE])
  }

  /** The values of the data lines. */
  function DataOf(lines: seq<seq<byte>>): seq<seq<byte>> {
    if lines == [] then []
    else
      var line := DropCR(lines[0]);
      (if DATA <= line then [DataValue(line)] else []) + DataOf(lines[1..])
  }

  lemma {:induction false} FeedOneLine(st: State, line: seq<byte>)
    requires line != []
    ensures Feed(st, line) == (State(if EVENT <= line then TrimSpace(TrimPrefix(line, EVENT)) else st.typ,
                               st.data + if DATA <= line then [DataValue(line)] else []), [])
  {
    assert EVENT <= line ==> line[0] == EVENT[0];
    assert DATA <= line ==> line[0] == DATA[0];
    assert st.data + [] == st.data;
  }

  lemma {:induction false} FirstLine(lines: seq<seq<byte>>, rest: seq<byte>)
    requires lines != []
    ensures Lines(lines) + rest == lines[0] + [LF] + (Lines(lines[1..]) + rest)
  {
    Regroup3(lines[0] + [LF], Lines(lines[1..]), rest);
  }

  lemma {:induction false} ReceiveLines(st: State, lines: seq<seq<byte>>, rest: seq<byte>)
    requires forall i :: 0 <= i < |lines| ==> FieldOrComment(lines[i])
    ensures Receive(st, Lines(lines) + rest) == Receive(State(TypeOf(lines, st.typ), st.data + DataOf(lines)), rest)
    decreases |lines|
  {
    if lines == [] {
      assert Lines(lines) + rest == rest && st.data + [] == st.data;
    } else {
      var line := DropCR(lines[0]);
      var next := Feed(st, line).0;
      FirstLine(lines, rest);
      ReceiveRawLine(st, lines[0], Lines(lines[1..]) + rest);
      FeedOneLine(st, line);
      PrependAssociates([], [], Receive(next, Lines(lines[1..]) + rest));
      ReceiveLines(next, lines[1..], rest);
      Regroup3(st.data, if DATA <= line then [DataValue(line)] else [], DataOf(lines[1..]));
    }
  }

  /** What lines up to a blank one come to: nothing without an event type or data, "message" without a type. */
  function BlockEvent(lines: seq<seq<byte>>): seq<Event> {
    var typ, data := TypeOf(lines, []), DataOf(lines);
    if typ == [] && data == [] then [] else [Event(if typ == [] then MESSAGE else typ, Join(data, LF))]
  }

  lemma {:induction false} ReceiveBlankLine(st: State, end: seq<byte>, rest: seq<byte>, tail: seq<byte>)
    requires (end == [] || end == [CR]) && tail == end + [LF] + rest
    ensures Receive(st, tail) == Prepend(Feed(st, []).1, Receive(IDLE, rest))
  {
    ReceiveRawLine(st, end, rest);
  }

  lemma {:induction false} BlankLineDispatches(lines: seq<seq<byte>>)
    ensures Feed(State(TypeOf(lines, []), DataOf(lines)), []).1 == BlockEvent(lines)
  {
  }

  /** Whatever fields and comments a server sends up to a blank line, they make that one event. */
  lemma {:induction false} ReceiveBlock(lines: seq<seq<byte>>, end: seq<byte>, rest: seq<byte>, body: seq<byte>)
    requires forall i :: 0 <= i < |lines| ==> FieldOrComment(lines[i])
    requires end == [] || end == [CR]
    requires body == Lines(lines) + (end + [LF] + rest)
    ensures Receive(IDLE, body) == Prepend(BlockEvent(lines), Receive(IDLE, rest))
  {
    var tail := end + [LF] + rest;
    ReceiveBlankLine(State(TypeOf(lines, []), DataOf(lines)), end, rest, tail);
    BlankLineDispatches(lines);
    ReceiveLines(IDLE, lines, tail);
    assert IDLE.data + DataOf(lines) == DataOf(lines);
  }

  lemma {:induction false} DataIsNoEvent(line: seq<byte>)
    requires DATA <= line
    ensures !(EVENT <= line)
  {
    assert line[0] == DATA[0];
  }

  lemma {:induction false} UntypedBlock(lines: seq<seq<byte>>, before: seq<byte>)
    requires forall i :: 0 <= i < |lines| ==> DATA <= DropCR(lines[i])
    ensures TypeOf(lines, before) == before && |DataOf(lines)| == |lines|
    ensures forall i :: 0 <= i < |lines| ==> DataOf(lines)[i] == DataValue(DropCR(lines[i]))
  {
    if lines != [] {
      DataIsNoEvent(DropCR(lines[0]));
      UntypedBlock(lines[1..], before);
      forall i | 0 <= i < |lines|
        ensures DataOf(lines)[i] == DataValue(DropCR(lines[i]))
      {
        assert i > 0 ==> DataOf(lines)[i] == DataOf(lines[1..])[i - 1] && lines[i] == lines[1..][i - 1];
      }
    }
  }

  /** Data lines alone are one event of type "message", their values joined by newlines. */
  lemma {:induction false} ReceiveUntypedEvent(lines: seq<seq<byte>>, end: seq<byte>, rest: seq<byte>, body: seq<byte>)
    requires lines != [] && forall i :: 0 <= i < |lines| ==> FieldOrComment(lines[i]) && DATA <= DropCR(lines[i])
    requires end == [] || end == [CR]
    requires body == Lines(lines) + (end + [LF] + rest)
    ensures |DataOf(lines)| == |lines|
    ensures forall i :: 0 <= i < |lines| ==> DataOf(lines)[i] == DataValue(DropCR(lines[i]))
    ensures Receive(IDLE, body) == Prepend([Event(MESSAGE, Join(DataOf(lines), LF))], Receive(IDLE, rest))
  {
    UntypedBlock(lines, []);
    ReceiveBlock(lines, end, rest, body);
  }
}
