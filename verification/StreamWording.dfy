/**
  The event stream byte by byte: the lines the agent writes (PROTOCOL.md section 9.2) and what
  the controller makes of each kind of line, with none of the model's own names for them.
 */
module StreamWording {
  import opened Bytes
  import opened Space
  import opened Splitting
  import opened CanonicalJson
  import opened EventStream

  // ---------- what is written ----------

  function NameOf(k: Kind): string {
    match k
    case Status => "status"
    case Changed => "changed"
    case Traffic => "traffic"
    case Log => "log"
  }

  lemma {:induction false} KindByLetters(k: Kind)
    ensures KindBytes(k) == Ascii(NameOf(k))
  {
    var name := NameOf(k);
    assert |KindBytes(k)| == |name|;
  }

  lemma {:induction false} FieldNames()
    ensures EVENT == Ascii("event:") && DATA == Ascii("data:") && PING == Ascii(": ping") && MESSAGE == Ascii("message")
  {
    var a, b, c, d := "event:", "data:", ": ping", "message";
    assert |a| == 6 && |b| == 5 && |c| == 6 && |d| == 7;
  }

  /** A frame is an event line, a data line and a blank line; a heartbeat is a comment and a blank line. */
  lemma {:induction false} ItemByLetters(item: Item)
    ensures item.Frame? ==>
              ItemBytes(item) == Ascii("event:") + [0x20] + Ascii(NameOf(item.kind)) + [0x0A]
              + (Ascii("data:") + [0x20] + Text(item.body) + [0x0A] + [0x0A])
    ensures item.Ping? ==> ItemBytes(item) == Ascii(": ping") + [0x0A] + [0x0A]
  {
    FieldNames();
    if item.Frame? {
      KindByLetters(item.kind);
    }
  }

  // ---------- what is read ----------

  /** A line ends at a newline; one carriage return before it goes too, any other stays. */
  lemma {:induction false} LineEnds(st: State, line: seq<byte>, cr: bool, rest: seq<byte>, body: seq<byte>)
    requires 0x0A !in line && |line| + (if cr then 1 else 0) < 1048576
    requires !cr ==> line == [] || line[|line| - 1] != 0x0D
    requires body == line + (if cr then [0x0D] else []) + [0x0A] + rest
    ensures Receive(st, body) == Prepend(Feed(st, line).1, Receive(Feed(st, line).0, rest))
  {
    var raw := line + if cr then [0x0D] else [];
    ReturnIsDropped(line, cr, raw);
    ReceiveRawLine(st, raw, rest);
  }

  lemma {:induction false} ReturnIsDropped(line: seq<byte>, cr: bool, raw: seq<byte>)
    requires 0x0A !in line && raw == line + (if cr then [0x0D] else [])
    requires !cr ==> line == [] || line[|line| - 1] != 0x0D
    ensures DropCR(raw) == line && LF !in raw
  {
    if cr {
      assert raw[..|line|] == line;
    } else {
      assert raw == line;
    }
  }

  /** A line of a mebibyte or more stops the scanner. */
  lemma {:induction false} LineTooLong(st: State, raw: seq<byte>, rest: seq<byte>, body: seq<byte>)
    requires 0x0A !in raw && |raw| >= 1048576 && body == raw + [0x0A] + rest
    ensures Receive(st, body) == Outcome([], true)
  {
    ReceiveRawLine(st, raw, rest);
  }

  /** What ends without a newline is a line too. */
  lemma {:induction false} LastLine(st: State, raw: seq<byte>)
    requires 0x0A !in raw && raw != [] && |raw| < 1048576
    ensures Receive(st, raw) == Receive(st, raw + [0x0A])
  {
    ReceiveRawLine(st, raw, []);
    assert raw + [LF] + [] == raw + [0x0A];
    assert IndexOf(raw, LF) == |raw| && raw[..|raw|] == raw;
  }

  /** A blank line dispatches what was gathered, as "message" without a type, the data joined by newlines. */
  lemma {:induction false} BlankLine(st: State)
    ensures Feed(st, []) ==
            (State([], []),
             if st.typ == [] && st.data == [] then []
             else [Event(if st.typ == [] then Ascii("message") else st.typ, Join(st.data, 0x0A))])
  {
    FieldNames();
  }

  /** An event line sets the type, a data line adds its value without one leading space; all others count for nothing. */
  lemma {:induction false} FieldLines(st: State, line: seq<byte>, value: seq<byte>)
    ensures line == Ascii("event:") + value ==> Feed(st, line) == (State(TrimSpace(value), st.data), [])
    ensures line == Ascii("data:") + ([0x20] + value) ==> Feed(st, line) == (State(st.typ, st.data + [value]), [])
    ensures line == Ascii("data:") + value && (value == [] || value[0] != 0x20) ==>
              Feed(st, line) == (State(st.typ, st.data + [value]), [])
    ensures line != [] && !(Ascii("event:") <= line) && !(Ascii("data:") <= line) ==> Feed(st, line) == (st, [])
  {
    FieldNames();
    if line == EVENT + value {
      assert line[0] == EVENT[0] && line[6..] == value;
    }
    if line == DATA + ([0x20] + value) {
      assert line[0] == DATA[0] && line[5..] == [0x20] + value;
      assert ([0x20] + value)[1..] == value;
    }
    if line == DATA + value {
      assert line[0] == DATA[0] && line[5..] == value;
    }
  }
}
