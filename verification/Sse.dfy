/** Server-Sent Events: the frame the server writes (backend/app/services/ai_service.py)
    and the parser the client runs over network chunks (frontend/src/api/sse.ts),
    at character level. */
module Sse {
  import opened Unicode
  import opened Wrappers

  datatype SseEvent = SseEvent(event: Text, data: Text)

  const BLANK_LINE: Text := [NEWLINE, NEWLINE]
  /** `event:` */
  const EVENT_FIELD: Text := [0x65, 0x76, 0x65, 0x6E, 0x74, COLON]
  /** `data:` */
  const DATA_FIELD: Text := [0x64, 0x61, 0x74, 0x61, COLON]
  /** `message` */
  const MESSAGE: Text := [0x6D, 0x65, 0x73, 0x73, 0x61, 0x67, 0x65]

  function Encode(e: SseEvent): Text {
    EVENT_FIELD + [SPACE] + e.event + [NEWLINE] + DATA_FIELD + [SPACE] + e.data + BLANK_LINE
  }

  function EncodeAll(events: seq<SseEvent>): Text {
    if events == [] then [] else Encode(events[0]) + EncodeAll(events[1..])
  }

  // -- JavaScript's string functions -----------------------------------------------

  /** `text.split('\n')`. */
  function SplitLines(s: Text): (lines: seq<Text>)
    ensures lines != []
    decreases |s|
  {
    var k := Find(s, [NEWLINE], 0);
    if k == -1 then [s] else [s[..k]] + SplitLines(s[k + 1..])
  }

  function TrimStart(s: Text): (r: Text)
    ensures |r| <= |s|
  {
    if s == [] || !IsJsSpace(s[0]) then s else TrimStart(s[1..])
  }

  function TrimEnd(s: Text): (r: Text)
    ensures |r| <= |s|
  {
    if s == [] || !IsJsSpace(s[|s| - 1]) then s else TrimEnd(s[..|s| - 1])
  }

  function Trim(s: Text): Text { TrimEnd(TrimStart(s)) }

  /** `lines.join('\n')`. */
  function JoinLines(lines: seq<Text>): Text {
    if lines == [] then []
    else if |lines| == 1 then lines[0]
    else lines[0] + [NEWLINE] + JoinLines(lines[1..])
  }

  // -- One block -------------------------------------------------------------------

  function WithoutReturn(line: Text): Text {
    if line != [] && line[|line| - 1] == CARRIAGE_RETURN then line[..|line| - 1] else line
  }

  predicate Ignored(line: Text) { line == [] || line[0] == COLON }

  /** The last `event:` line names the event; without one it is `message`. */
  function EventName(lines: seq<Text>): Text {
    if lines == [] then MESSAGE
    else
      var line := WithoutReturn(lines[|lines| - 1]);
      if !Ignored(line) && EVENT_FIELD <= line then Trim(line[6..]) else EventName(lines[..|lines| - 1])
  }

  function DataOf(line: Text): Text
    requires DATA_FIELD <= line
  {
    if |line| > 5 && line[5] == SPACE then line[6..] else line[5..]
  }

  /** Every `data:` line contributes its text, in order. */
  function DataLines(lines: seq<Text>): seq<Text> {
    if lines == [] then []
    else
      var line := WithoutReturn(lines[|lines| - 1]);
      DataLines(lines[..|lines| - 1]) +
      if !Ignored(line) && !(EVENT_FIELD <= line) && DATA_FIELD <= line then [DataOf(line)] else []
  }

  function BlockEvent(block: Text): Option<SseEvent> {
    var lines := SplitLines(block);
    if DataLines(lines) == [] then None else Some(SseEvent(EventName(lines), JoinLines(DataLines(lines))))
  }

  method ParseBlock(block: Text) returns (r: Option<SseEvent>)
    ensures r == BlockEvent(block)
  {
    var event, dataLines := MESSAGE, [];
    var lines := SplitLines(block);
    for i := 0 to |lines|
      invariant event == EventName(lines[..i]) && dataLines == DataLines(lines[..i])
    {
      LineStep(lines, i);
      var line := WithoutReturn(lines[i]);
      if Ignored(line) {
        continue;
      }
      if EVENT_FIELD <= line {
        event := Trim(line[6..]);
      } else if DATA_FIELD <= line {
        dataLines := dataLines + [DataOf(line)];
      }
    }
    assert lines[..|lines|] == lines;
    if |dataLines| == 0 {
      return None;
    }
    return Some(SseEvent(event, JoinLines(dataLines)));
  }

  lemma LineStep(lines: seq<Text>, i: nat)
    requires i < |lines|
    ensures
      var line := WithoutReturn(lines[i]);
      EventName(lines[..i + 1]) ==
        (if !Ignored(line) && EVENT_FIELD <= line then Trim(line[6..]) else EventName(lines[..i]))
      && DataLines(lines[..i + 1]) == DataLines(lines[..i]) +
        (if !Ignored(line) && !(EVENT_FIELD <= line) && DATA_FIELD <= line then [DataOf(line)] else [])
  {
    assert lines[..i + 1][..i] == lines[..i];
  }

  // -- The stream ------------------------------------------------------------------

  function AsEvents(e: Option<SseEvent>): seq<SseEvent> {
    match e case None => [] case Some(x) => [x]
  }

  /** The events of all complete blocks in `s`, and the text behind the last of them. */
  function Drain(s: Text): (seq<SseEvent>, Text)
    decreases |s|
  {
    var k := Find(s, BLANK_LINE, 0);
    if k == -1 then ([], s)
    else
      var (events, rest) := Drain(s[k + 2..]);
      (AsEvents(BlockEvent(s[..k])) + events, rest)
  }

  function LastBlock(rest: Text): seq<SseEvent> {
    if Trim(rest) == [] then [] else AsEvents(BlockEvent(Trim(rest)))
  }

  /** All events of a stream whose whole text is `s`. */
  function StreamEvents(s: Text): seq<SseEvent> {
    var (events, rest) := Drain(s);
    events + LastBlock(rest)
  }

  /** The network may cut the text anywhere, inside a separator too: the events depend on
      the whole text alone. */
  method ParseSseStream(chunks: seq<Text>) returns (events: seq<SseEvent>)
    ensures events == StreamEvents(Concat(chunks))
  {
    events := [];
    var buffer: Text := [];
    for i := 0 to |chunks|
      invariant (events, buffer) == Drain(Concat(chunks[..i]))
    {
      ReceiveChunk(chunks, i);
      DrainAppend(Concat(chunks[..i]), chunks[i]);
      buffer := buffer + chunks[i];
      var complete;
      complete, buffer := TakeBlocks(buffer);
      events := events + complete;
    }
    assert chunks[..|chunks|] == chunks;
    var rest := Trim(buffer);
    if rest != [] {
      var event := ParseBlock(rest);
      events := events + AsEvents(event);
    }
  }

  /** The inner loop: every complete block leaves the buffer, as an event if it is one. */
  method TakeBlocks(received: Text) returns (events: seq<SseEvent>, buffer: Text)
    ensures (events, buffer) == Drain(received)
  {
    events, buffer := [], received;
    var separatorIndex := Find(buffer, BLANK_LINE, 0);
    assert events + Drain(buffer).0 == Drain(buffer).0;
    while separatorIndex != -1
      invariant separatorIndex == Find(buffer, BLANK_LINE, 0)
      invariant Drain(received) == (events + Drain(buffer).0, Drain(buffer).1)
      decreases |buffer|
    {
      var event := ParseBlock(buffer[..separatorIndex]);
      ghost var before := events;
      events := events + AsEvents(event);
      TakeOne(before, event, buffer, separatorIndex);
      buffer := buffer[separatorIndex + 2..];
      separatorIndex := Find(buffer, BLANK_LINE, 0);
    }
    assert events + [] == events;
  }

  lemma TakeOne(before: seq<SseEvent>, event: Option<SseEvent>, buffer: Text, k: nat)
    requires k == Find(buffer, BLANK_LINE, 0) && event == BlockEvent(buffer[..k])
    ensures before + Drain(buffer).0 == before + AsEvents(event) + Drain(buffer[k + 2..]).0
    ensures Drain(buffer).1 == Drain(buffer[k + 2..]).1
  {
    Regroup(before, AsEvents(event), Drain(buffer[k + 2..]).0);
  }

  lemma Regroup(a: seq<SseEvent>, b: seq<SseEvent>, c: seq<SseEvent>)
    ensures a + (b + c) == (a + b) + c
  {
  }

  lemma ReceiveChunk(chunks: seq<Text>, i: nat)
    requires i < |chunks|
    ensures Concat(chunks[..i + 1]) == Concat(chunks[..i]) + chunks[i]
  {
    assert chunks[..i + 1] == chunks[..i] + [chunks[i]];
    ConcatAppend(chunks[..i], [chunks[i]]);
    assert Concat([chunks[i]]) == chunks[i] + Concat([]);
  }

  lemma FindStable(s: Text, more: Text, pattern: Text)
    requires Find(s, pattern, 0) != -1
    ensures Find(s + more, pattern, 0) == Find(s, pattern, 0)
  {
    var k := Find(s, pattern, 0);
    forall j: nat | j <= k ensures StandsAt(s + more, pattern, j) <==> StandsAt(s, pattern, j) {
      assert (s + more)[j..j + |pattern|] == s[j..j + |pattern|];
    }
  }

  /** Draining what is already there first changes nothing. */
  lemma {:induction false} DrainAppend(s: Text, more: Text)
    ensures Drain(s + more).0 == Drain(s).0 + Drain(Drain(s).1 + more).0
    ensures Drain(s + more).1 == Drain(Drain(s).1 + more).1
    decreases |s|
  {
    hide Find, BlockEvent;
    var k := Find(s, BLANK_LINE, 0);
    if k == -1 {
      assert [] + Drain(s + more).0 == Drain(s + more).0;
    } else {
      FindStable(s, more, BLANK_LINE);
      assert (s + more)[..k] == s[..k] && (s + more)[k + 2..] == s[k + 2..] + more;
      DrainAppend(s[k + 2..], more);
      var first, later := Drain(s[k + 2..]).0, Drain(Drain(s[k + 2..]).1 + more).0;
      Regroup(AsEvents(BlockEvent(s[..k])), first, later);
    }
  }

  // -- Round trip ------------------------------------------------------------------

  predicate OneLine(s: Text) { NEWLINE !in s }

  /** What the encoder is given: a name without surrounding white space, and a payload on
      one line that does not end in a carriage return. */
  predicate Encodable(e: SseEvent) {
    OneLine(e.event) && Trim([SPACE] + e.event) == e.event
    && (e.event == [] || e.event[|e.event| - 1] != CARRIAGE_RETURN)
    && OneLine(e.data) && (e.data == [] || e.data[|e.data| - 1] != CARRIAGE_RETURN)
  }

  function EventLine(e: SseEvent): Text { EVENT_FIELD + [SPACE] + e.event }
  function DataLine(e: SseEvent): Text { DATA_FIELD + [SPACE] + e.data }

  lemma FindFirst(a: Text, pattern: Text, b: Text)
    requires pattern != []
    requires forall j: nat :: j < |a| ==> !StandsAt(a + pattern + b, pattern, j)
    ensures Find(a + pattern + b, pattern, 0) == |a|
  {
    var s := a + pattern + b;
    assert s[|a|..|a| + |pattern|] == pattern;
    assert StandsAt(s, pattern, |a|);
  }

  lemma SplitTwoLines(a: Text, b: Text)
    requires OneLine(a) && OneLine(b)
    ensures SplitLines(a + [NEWLINE] + b) == [a, b]
  {
    var s := a + [NEWLINE] + b;
    forall j: nat | j < |a| ensures !StandsAt(s, [NEWLINE], j) {
      assert s[j..j + 1] == [a[j]];
    }
    FindFirst(a, [NEWLINE], b);
    assert s[..|a|] == a && s[|a| + 1..] == b;
    NoLineBreak(b);
  }

  lemma NoLineBreak(b: Text)
    requires OneLine(b)
    ensures SplitLines(b) == [b]
  {
    forall j: nat | j < |b| ensures !StandsAt(b, [NEWLINE], j) {
      assert b[j..j + 1] == [b[j]];
    }
  }

  lemma FrameEnd(e: SseEvent, more: Text)
    requires Encodable(e)
    ensures var block := EventLine(e) + [NEWLINE] + DataLine(e);
      Encode(e) + more == block + BLANK_LINE + more && Find(Encode(e) + more, BLANK_LINE, 0) == |block|
  {
    var a, b := EventLine(e), DataLine(e);
    var block := a + [NEWLINE] + b;
    var s := block + BLANK_LINE + more;
    assert Encode(e) == block + BLANK_LINE;
    assert OneLine(a) && OneLine(b) && b != [];
    hide Encode, EventLine, DataLine, Encodable, Find;
    NoBlankInBlock(a, b, more);
    FindFirst(block, BLANK_LINE, more);
  }

  lemma NoBlankInBlock(a: Text, b: Text, more: Text)
    requires OneLine(a) && OneLine(b) && b != []
    ensures var block := a + [NEWLINE] + b; forall j: nat :: j < |block| ==> !StandsAt(block + BLANK_LINE + more, BLANK_LINE, j)
  {
    var block := a + [NEWLINE] + b;
    var s := block + BLANK_LINE + more;
    forall j: nat | j < |block| ensures !StandsAt(s, BLANK_LINE, j) {
      assert s[j..j + 2] == [s[j], s[j + 1]];
    }
  }

  lemma EventLineReads(e: SseEvent)
    requires Encodable(e)
    ensures var a := EventLine(e);
      WithoutReturn(a) == a && !Ignored(a) && EVENT_FIELD <= a && Trim(a[6..]) == e.event
  {
    var a := EventLine(e);
    assert a[6..] == [SPACE] + e.event && a[..6] == EVENT_FIELD && a[0] == EVENT_FIELD[0];
  }

  lemma DataLineReads(e: SseEvent)
    requires Encodable(e)
    ensures var b := DataLine(e);
      WithoutReturn(b) == b && !Ignored(b) && !(EVENT_FIELD <= b) && DATA_FIELD <= b && DataOf(b) == e.data
  {
    var b := DataLine(e);
    assert b[6..] == e.data && b[5] == SPACE && b[..5] == DATA_FIELD;
    assert b[0] == DATA_FIELD[0] != EVENT_FIELD[0];
  }

  lemma FrameParses(e: SseEvent)
    requires Encodable(e)
    ensures BlockEvent(EventLine(e) + [NEWLINE] + DataLine(e)) == Some(e)
  {
    var a, b := EventLine(e), DataLine(e);
    assert OneLine(a) && OneLine(b);
    SplitTwoLines(a, b);
    EventLineReads(e);
    DataLineReads(e);
    TwoLines(a, b);
  }

  lemma TwoLines(a: Text, b: Text)
    ensures EventName([a, b]) ==
      var l, m := WithoutReturn(b), WithoutReturn(a);
      if !Ignored(l) && EVENT_FIELD <= l then Trim(l[6..])
      else if !Ignored(m) && EVENT_FIELD <= m then Trim(m[6..]) else MESSAGE
    ensures DataLines([a, b]) ==
      var l, m := WithoutReturn(b), WithoutReturn(a);
      (if !Ignored(m) && !(EVENT_FIELD <= m) && DATA_FIELD <= m then [DataOf(m)] else [])
      + (if !Ignored(l) && !(EVENT_FIELD <= l) && DATA_FIELD <= l then [DataOf(l)] else [])
  {
    var lines: seq<Text> := [a, b];
    assert lines[..0] == [] && lines[..2] == lines;
    LineStep(lines, 0);
    LineStep(lines, 1);
  }

  /** Over the encoded frames, cut into chunks in any way, the parser yields exactly the
      encoded events in order. */
  lemma {:induction false} RoundTrip(events: seq<SseEvent>)
    requires forall i :: 0 <= i < |events| ==> Encodable(events[i])
    ensures Drain(EncodeAll(events)) == (events, [])
    ensures StreamEvents(EncodeAll(events)) == events
  {
    if events != [] {
      DrainFrame(events[0], EncodeAll(events[1..]));
      RoundTrip(events[1..]);
      assert events == [events[0]] + events[1..];
    }
  }

  lemma DrainFrame(e: SseEvent, more: Text)
    requires Encodable(e)
    ensures Drain(Encode(e) + more) == ([e] + Drain(more).0, Drain(more).1)
  {
    var block := EventLine(e) + [NEWLINE] + DataLine(e);
    FrameEnd(e, more);
    FrameParses(e);
    BlockThenRest(block, more);
    DrainBlock(Encode(e) + more, |block|);
  }

  lemma BlockThenRest(block: Text, more: Text)
    ensures (block + BLANK_LINE + more)[..|block|] == block && (block + BLANK_LINE + more)[|block| + 2..] == more
  {
  }

  lemma DrainBlock(s: Text, k: nat)
    requires Find(s, BLANK_LINE, 0) == k
    ensures Drain(s) == (AsEvents(BlockEvent(s[..k])) + Drain(s[k + 2..]).0, Drain(s[k + 2..]).1)
  {
  }

  // -- A stream that is cut short --------------------------------------------------

  /** The data of an event, or a beginning of it. */
  predicate Beginning(part: SseEvent, e: SseEvent) {
    part.event == e.event && part.data <= e.data
  }

  lemma {:induction false} TrimEndKeepsFront(s: Text)
    ensures TrimEnd(s) <= s && (TrimEnd(s) != [] ==> !IsJsSpace(TrimEnd(s)[|TrimEnd(s)| - 1]))
  {
    if s != [] && IsJsSpace(s[|s| - 1]) {
      TrimEndKeepsFront(s[..|s| - 1]);
    }
  }

  /** A block cut in its data line: the event with a beginning of its data, at most. */
  lemma PartialBlock(e: SseEvent, q: Text)
    requires Encodable(e) && q <= EventLine(e) + [NEWLINE] + DataLine(e)
    requires q != [] && !IsJsSpace(q[|q| - 1])
    ensures BlockEvent(q).Some? ==> Beginning(BlockEvent(q).value, e)
  {
    var a, b := EventLine(e), DataLine(e);
    assert OneLine(a) && OneLine(b);
    if |q| <= |a| {
      assert q == a[..|q|];
      NoLineBreak(q);
      EventOnly(q);
    } else {
      var d := q[|a| + 1..];
      assert q == a + [NEWLINE] + d;
      assert d <= b && OneLine(d) by {
        assert forall i :: 0 <= i < |d| ==> d[i] == q[|a| + 1 + i] && q[|a| + 1 + i] == b[i];
      }
      SplitTwoLines(a, d);
      EventLineReads(e);
      TwoLines(a, d);
      PartialData(e, d);
    }
  }

  lemma EventOnly(q: Text)
    requires q != [] && q[0] == EVENT_FIELD[0]
    ensures DataLines([q]) == []
  {
    var lines: seq<Text> := [q];
    assert lines[..0] == [] && lines[..1] == lines;
    LineStep(lines, 0);
    assert DATA_FIELD[0] != EVENT_FIELD[0];
  }

  lemma PartialData(e: SseEvent, d: Text)
    requires d <= DataLine(e) && (d != [] ==> d[|d| - 1] != CARRIAGE_RETURN)
    ensures WithoutReturn(d) == d && !(EVENT_FIELD <= d) && (DATA_FIELD <= d ==> DataOf(d) <= e.data)
  {
    var b := DataLine(e);
    assert b[6..] == e.data && b[5] == SPACE;
    assert DATA_FIELD[0] != EVENT_FIELD[0];
    if DATA_FIELD <= d {
      if |d| > 5 {
        assert d[5] == b[5];
        assert d[6..] <= b[6..] by { assert forall i :: 0 <= i < |d| - 6 ==> d[6..][i] == d[i + 6] == b[i + 6] == b[6..][i]; }
      } else {
        assert d[5..] == [];
      }
    }
  }

  /** Less than one frame: no complete block, and what the end of the stream makes of it. */
  lemma PartialFrame(e: SseEvent, p: Text)
    requires Encodable(e) && p < Encode(e)
    ensures Drain(p) == ([], p)
    ensures LastBlock(p) == [] || (exists part :: LastBlock(p) == [part] && Beginning(part, e))
  {
    var block := EventLine(e) + [NEWLINE] + DataLine(e);
    assert Encode(e) == block + BLANK_LINE;
    NoBlankLine(e, p);
    if p != [] {
      assert p[0] == EVENT_FIELD[0] && TrimStart(p) == p;
      TrimEndKeepsFront(p);
      var q := Trim(p);
      if q != [] {
        InBlock(block, p, q);
        hide Encode, EventLine, DataLine, TrimEnd, TrimStart;
        PartialBlock(e, q);
      }
    }
  }

  lemma InBlock(block: Text, p: Text, q: Text)
    requires p < block + BLANK_LINE && q <= p && q != [] && !IsJsSpace(q[|q| - 1])
    ensures q <= block
  {
    var all := block + BLANK_LINE;
    assert all[|block|] == NEWLINE && q[|q| - 1] == all[|q| - 1];
    assert q == block[..|q|];
  }

  lemma NoBlankLine(e: SseEvent, p: Text)
    requires Encodable(e) && p < Encode(e)
    ensures Find(p, BLANK_LINE, 0) == -1
  {
    if Find(p, BLANK_LINE, 0) != -1 {
      FindStable(p, Encode(e)[|p|..], BLANK_LINE);
      assert p + Encode(e)[|p|..] == Encode(e) == Encode(e) + [];
      FrameEnd(e, []);
    }
  }

  /** The network delivers the beginning `p` of the frames: the parser has yielded whole
      frames from the front, and when the stream ends there at most a beginning of the next. */
  lemma {:induction false} CutShort(events: seq<SseEvent>, p: Text) returns (k: nat)
    requires (forall i :: 0 <= i < |events| ==> Encodable(events[i])) && p <= EncodeAll(events)
    ensures k <= |events| && Drain(p).0 == events[..k]
    ensures StreamEvents(p) == events[..k]
      || (k < |events| && exists part :: StreamEvents(p) == events[..k] + [part] && Beginning(part, events[k]))
  {
    if events == [] {
      assert p == [];
      assert EncodeAll([]) == [];
      RoundTrip([]);
      k := 0;
    } else {
      var first := Encode(events[0]);
      if first <= p {
        var rest := p[|first|..];
        FirstFrame(events, p);
        hide Drain, LastBlock, Encode, Beginning, Encodable, EncodeAll;
        DrainFrame(events[0], rest);
        var n := CutShort(events[1..], rest);
        k := n + 1;
        FirstThenRest(events, n, rest, p);
      } else {
        FirstFrame(events, p);
        PartialFrame(events[0], p);
        hide Drain, LastBlock, Encode, Beginning, Encodable, EncodeAll;
        k := 0;
        assert [] + LastBlock(p) == LastBlock(p) && events[..0] == [];
        assert forall part: SseEvent :: [] + [part] == [part];
      }
    }
  }

  lemma FirstFrame(events: seq<SseEvent>, p: Text)
    requires events != [] && p <= EncodeAll(events)
    ensures var first := Encode(events[0]);
      if first <= p then p == first + p[|first|..] && p[|first|..] <= EncodeAll(events[1..]) else p < first
  {
    hide Encode;
    var first, all := Encode(events[0]), EncodeAll(events);
    assert all == first + EncodeAll(events[1..]);
    assert all[..|first|] == first && all[|first|..] == EncodeAll(events[1..]);
    if |first| <= |p| {
      assert p[..|first|] == first;
      assert p[|first|..] == all[|first|..][..|p| - |first|];
    } else {
      assert p == first[..|p|];
    }
  }

  lemma FirstThenRest(events: seq<SseEvent>, n: nat, rest: Text, p: Text)
    requires events != [] && n <= |events| - 1 && Drain(p) == ([events[0]] + Drain(rest).0, Drain(rest).1)
    requires Drain(rest).0 == events[1..][..n]
    requires StreamEvents(rest) == events[1..][..n]
      || (n < |events| - 1 && exists part :: StreamEvents(rest) == events[1..][..n] + [part] && Beginning(part, events[1..][n]))
    ensures Drain(p).0 == events[..n + 1]
    ensures StreamEvents(p) == events[..n + 1]
      || (n + 1 < |events| && exists part :: StreamEvents(p) == events[..n + 1] + [part] && Beginning(part, events[n + 1]))
  {
    hide Drain, LastBlock, Beginning;
    assert [events[0]] + events[1..][..n] == events[..n + 1];
    Regroup([events[0]], Drain(rest).0, LastBlock(Drain(rest).1));
    assert StreamEvents(p) == [events[0]] + StreamEvents(rest);
    if StreamEvents(rest) != events[1..][..n] {
      var part :| StreamEvents(rest) == events[1..][..n] + [part] && Beginning(part, events[1..][n]);
      Regroup([events[0]], events[1..][..n], [part]);
      assert events[1..][n] == events[n + 1];
      assert StreamEvents(p) == events[..n + 1] + [part] && Beginning(part, events[n + 1]);
    }
  }
}
