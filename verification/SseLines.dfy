/** What a block of an event stream means, line by line: comments, names, data with and without
    the space, fields the parser does not know, and carriage returns before the line feeds
    (`parseBlock` in frontend/src/api/sse.ts). */
module SseLines {
  import opened Unicode
  import opened Wrappers
  import opened Sse

  /** A line of a block. */
  datatype Field =
    | Comment(text: Text)
    | Name(text: Text)
    | Data(spaced: bool, text: Text)
    | Unknown(text: Text)
    | Nothing

  datatype Line = Line(field: Field, returned: bool)

  /** `:` and what follows it is a comment; a field that is neither name nor data is unknown. */
  function FieldText(f: Field): Text {
    match f
    case Comment(text) => [COLON] + text
    case Name(text) => [0x65, 0x76, 0x65, 0x6E, 0x74, 0x3A] + text
    case Data(spaced, text) => [0x64, 0x61, 0x74, 0x61, 0x3A] + (if spaced then [0x20] else []) + text
    case Unknown(text) => text
    case Nothing => []
  }

  predicate EndsInReturn(s: Text) { s != [] && s[|s| - 1] == CARRIAGE_RETURN }

  predicate ProperField(f: Field) {
    && NEWLINE !in FieldText(f) && !EndsInReturn(FieldText(f))
    && (f.Data? && !f.spaced ==> f.text == [] || f.text[0] != SPACE)
    && (f.Unknown? ==>
          f.text != [] && f.text[0] != COLON
          && !([0x65, 0x76, 0x65, 0x6E, 0x74, 0x3A] <= f.text) && !([0x64, 0x61, 0x74, 0x61, 0x3A] <= f.text))
  }

  predicate ProperLines(lines: seq<Line>) { forall i :: 0 <= i < |lines| ==> ProperField(lines[i].field) }

  function LineText(l: Line): Text { FieldText(l.field) + if l.returned then [CARRIAGE_RETURN] else [] }

  /** The lines with line feeds between them. */
  function BlockText(lines: seq<Line>): Text
    requires lines != []
  {
    LineText(lines[0]) + if |lines| == 1 then [] else [NEWLINE] + BlockText(lines[1..])
  }

  /** The data of all data lines, each behind a line feed. */
  function Behind(lines: seq<Line>): Text {
    if lines == [] then []
    else
      var n := |lines| - 1;
      Behind(lines[..n]) + if lines[n].field.Data? then [NEWLINE] + lines[n].field.text else []
  }

  /** The last name, `message` if there is none. */
  function LastName(lines: seq<Line>): Text {
    if lines == [] then [0x6D, 0x65, 0x73, 0x73, 0x61, 0x67, 0x65]
    else
      var n := |lines| - 1;
      if lines[n].field.Name? then Trim(lines[n].field.text) else LastName(lines[..n])
  }

  // -- Lines -----------------------------------------------------------------------

  function Texts(lines: seq<Line>): (texts: seq<Text>)
    ensures |texts| == |lines|
  {
    seq(|lines|, i requires 0 <= i < |lines| => LineText(lines[i]))
  }

  lemma SplitFirst(a: Text, b: Text)
    requires NEWLINE !in a
    ensures SplitLines(a + [NEWLINE] + b) == [a] + SplitLines(b)
  {
    var s := a + [NEWLINE] + b;
    forall j: nat | j < |a| ensures !StandsAt(s, [NEWLINE], j) {
      assert s[j..j + 1] == [a[j]];
    }
    FindFirst(a, [NEWLINE], b);
    assert s[..|a|] == a && s[|a| + 1..] == b;
  }

  lemma OneLineText(l: Line)
    requires ProperField(l.field)
    ensures NEWLINE !in LineText(l) && WithoutReturn(LineText(l)) == FieldText(l.field)
  {
    hide FieldText;
    if l.returned {
      assert LineText(l)[..|LineText(l)| - 1] == FieldText(l.field);
    } else {
      assert LineText(l) == FieldText(l.field);
    }
  }

  lemma {:induction false} BlockSplits(lines: seq<Line>)
    requires lines != [] && ProperLines(lines)
    ensures SplitLines(BlockText(lines)) == Texts(lines)
  {
    hide LineText, SplitLines, ProperField;
    var first := LineText(lines[0]);
    OneLineText(lines[0]);
    if |lines| == 1 {
      assert first + [] == first && Texts(lines) == [first];
      NoLineBreak(first);
    } else {
      SplitFirst(first, BlockText(lines[1..]));
      assert BlockText(lines) == first + [NEWLINE] + BlockText(lines[1..]);
      BlockSplits(lines[1..]);
      assert Texts(lines) == [first] + Texts(lines[1..]);
    }
  }

  /** How the parser takes one line. */
  lemma LineIsTaken(l: Line)
    requires ProperField(l.field)
    ensures
      var line := WithoutReturn(LineText(l));
      match l.field
      case Name(text) => !Ignored(line) && EVENT_FIELD <= line && Trim(line[6..]) == Trim(text)
      case Data(_, text) => !Ignored(line) && !(EVENT_FIELD <= line) && DATA_FIELD <= line && DataOf(line) == text
      case _ => Ignored(line) || (!(EVENT_FIELD <= line) && !(DATA_FIELD <= line))
  {
    OneLineText(l);
    hide LineText, WithoutReturn, Trim;
    var line := FieldText(l.field);
    match l.field
    case Name(text) => assert line[6..] == text && line[..6] == EVENT_FIELD;
    case Data(spaced, text) => DataIsTaken(spaced, text);
    case _ =>
  }

  lemma DataIsTaken(spaced: bool, text: Text)
    requires !spaced ==> text == [] || text[0] != SPACE
    ensures var line := FieldText(Data(spaced, text));
      !Ignored(line) && !(EVENT_FIELD <= line) && DATA_FIELD <= line && DataOf(line) == text
  {
    var line := FieldText(Data(spaced, text));
    assert line[..5] == DATA_FIELD && line[0] == DATA_FIELD[0] != EVENT_FIELD[0];
    if spaced {
      assert line[5] == SPACE && line[6..] == text;
    } else {
      assert line[5..] == text;
    }
  }

  // -- Blocks ----------------------------------------------------------------------

  lemma {:induction false} JoinMore(texts: seq<Text>, text: Text)
    ensures JoinLines(texts + [text]) == if texts == [] then text else JoinLines(texts) + [NEWLINE] + text
  {
    if texts == [] {
      assert texts + [text] == [text];
    } else {
      JoinMore(texts[1..], text);
      assert (texts + [text])[1..] == texts[1..] + [text];
      if |texts| > 1 {
        Associate(texts[0] + [NEWLINE], JoinLines(texts[1..]), [NEWLINE] + text);
        assert JoinLines(texts[1..]) + ([NEWLINE] + text) == JoinLines(texts[1..]) + [NEWLINE] + text;
      }
    }
  }

  /** What the data lines come to when another one follows. */
  lemma BehindMore(before: seq<Text>, behind: Text, text: Text)
    requires behind == if before == [] then [] else [NEWLINE] + JoinLines(before)
    ensures behind + ([NEWLINE] + text) == [NEWLINE] + JoinLines(before + [text])
  {
    hide JoinLines;
    JoinMore(before, text);
    if before != [] {
      assert behind + ([NEWLINE] + text) == [NEWLINE] + (JoinLines(before) + [NEWLINE] + text);
    }
  }

  lemma TakenNext(lines: seq<Line>)
    requires ProperLines(lines) && lines != []
    ensures
      var n, texts, before := |lines| - 1, Texts(lines), Texts(lines[..|lines| - 1]);
      && EventName(texts) == (if lines[n].field.Name? then Trim(lines[n].field.text) else EventName(before))
      && DataLines(texts) == if lines[n].field.Data? then DataLines(before) + [lines[n].field.text] else DataLines(before)
  {
    hide LineText, WithoutReturn, Trim, Ignored, ProperField;
    var n := |lines| - 1;
    LineIsTaken(lines[n]);
    assert Texts(lines)[..n] == Texts(lines[..n]) && Texts(lines)[n] == LineText(lines[n]);
  }

  lemma {:induction false} NameIsTaken(lines: seq<Line>)
    requires ProperLines(lines)
    ensures EventName(Texts(lines)) == LastName(lines)
  {
    hide Texts, Trim, ProperField, EventName, DataLines;
    if lines == [] {
      NothingTaken(lines);
    } else {
      NameIsTaken(lines[..|lines| - 1]);
      TakenNext(lines);
    }
  }

  lemma {:induction false} DataIsFound(lines: seq<Line>)
    requires ProperLines(lines)
    ensures DataLines(Texts(lines)) == [] <==> forall i :: 0 <= i < |lines| ==> !lines[i].field.Data?
  {
    hide Texts, Trim, ProperField, EventName, DataLines;
    if lines == [] {
      NothingTaken(lines);
    } else {
      DataIsFound(lines[..|lines| - 1]);
      TakenNext(lines);
    }
  }

  lemma {:induction false} DataIsJoined(lines: seq<Line>)
    requires ProperLines(lines)
    ensures Behind(lines) == if DataLines(Texts(lines)) == [] then [] else [NEWLINE] + JoinLines(DataLines(Texts(lines)))
  {
    hide Texts, Trim, ProperField, JoinLines, EventName, DataLines;
    if lines == [] {
      NothingTaken(lines);
    } else {
      var n := |lines| - 1;
      DataIsJoined(lines[..n]);
      TakenNext(lines);
      if lines[n].field.Data? {
        BehindMore(DataLines(Texts(lines[..n])), Behind(lines[..n]), lines[n].field.text);
      } else {
        assert Behind(lines[..n]) + [] == Behind(lines[..n]);
      }
    }
  }

  lemma NothingTaken(lines: seq<Line>)
    requires lines == []
    ensures EventName(Texts(lines)) == LastName(lines) && DataLines(Texts(lines)) == []
  {
  }

  /** A block of any lines is an event if and only if it has a data line; its name is the last
      one given, and its data the texts of the data lines with line feeds between them. What is
      not a name or data is passed over, and a carriage return at the end of a line too. */
  lemma BlockMeans(lines: seq<Line>)
    requires lines != [] && ProperLines(lines)
    ensures match BlockEvent(BlockText(lines))
      case None => forall i :: 0 <= i < |lines| ==> !lines[i].field.Data?
      case Some(e) => e.event == LastName(lines) && [NEWLINE] + e.data == Behind(lines)
  {
    hide EventName, DataLines, SplitLines, JoinLines, BlockText, Behind, LastName;
    BlockSplits(lines);
    NameIsTaken(lines);
    DataIsFound(lines);
    DataIsJoined(lines);
  }

  // -- White space -----------------------------------------------------------------

  predicate AllSpace(s: Text) { forall i :: 0 <= i < |s| ==> IsJsSpace(s[i]) }

  predicate Bare(t: Text) { t != [] ==> !IsJsSpace(t[0]) && !IsJsSpace(t[|t| - 1]) }

  lemma {:induction false} StartIsSpace(s: Text) returns (a: Text)
    ensures AllSpace(a) && s == a + TrimStart(s) && (TrimStart(s) != [] ==> !IsJsSpace(TrimStart(s)[0]))
  {
    if s == [] || !IsJsSpace(s[0]) {
      a := [];
    } else {
      var more := StartIsSpace(s[1..]);
      a := [s[0]] + more;
      hide IsJsSpace;
      Associate([s[0]], more, TrimStart(s[1..]));
      assert s == [s[0]] + s[1..];
    }
  }

  lemma {:induction false} EndIsSpace(s: Text) returns (b: Text)
    ensures AllSpace(b) && s == TrimEnd(s) + b && (TrimEnd(s) != [] ==> !IsJsSpace(TrimEnd(s)[|TrimEnd(s)| - 1]))
  {
    if s == [] || !IsJsSpace(s[|s| - 1]) {
      b := [];
    } else {
      var n := |s| - 1;
      var more := EndIsSpace(s[..n]);
      b := more + [s[n]];
      hide IsJsSpace;
      Associate(TrimEnd(s[..n]), more, [s[n]]);
      assert s == s[..n] + [s[n]];
    }
  }

  lemma {:induction false} StartIsTrimmed(a: Text, s: Text)
    requires AllSpace(a)
    ensures TrimStart(a + s) == TrimStart(s)
  {
    if a == [] {
      assert a + s == s;
    } else {
      assert (a + s)[1..] == a[1..] + s;
      StartIsTrimmed(a[1..], s);
    }
  }

  lemma {:induction false} EndIsTrimmed(s: Text, b: Text)
    requires AllSpace(b)
    ensures TrimEnd(s + b) == TrimEnd(s)
  {
    if b == [] {
      assert s + b == s;
    } else {
      var n := |b| - 1;
      assert (s + b)[..|s| + n] == s + b[..n] && (s + b)[|s| + n] == b[n];
      EndIsTrimmed(s, b[..n]);
    }
  }

  /** `trim` takes away the white space at both ends and nothing else. */
  lemma TrimmedExactly(s: Text, t: Text)
    ensures t == Trim(s) <==> exists a, b :: AllSpace(a) && AllSpace(b) && s == a + t + b && Bare(t)
  {
    var a := StartIsSpace(s);
    var b := EndIsSpace(TrimStart(s));
    hide TrimStart, TrimEnd, AllSpace;
    assert s == a + Trim(s) + b;
    assert Bare(Trim(s));
    forall a, b | AllSpace(a) && AllSpace(b) && s == a + t + b && Bare(t) ensures t == Trim(s) {
      BareIsTrimmed(a, t, b);
    }
  }

  lemma BareIsTrimmed(a: Text, t: Text, b: Text)
    requires AllSpace(a) && AllSpace(b) && Bare(t)
    ensures Trim(a + t + b) == t
  {
    assert a + t + b == a + (t + b);
    StartIsTrimmed(a, t + b);
    if t == [] {
      assert t + b == b + [];
      StartIsTrimmed(b, []);
    } else {
      EndIsTrimmed(t, b);
    }
  }

  // -- A last frame without its blank line -----------------------------------------

  lemma {:induction false} TrimEndInside(p: Text, s: Text)
    requires TrimEnd(s) != []
    ensures TrimEnd(p + s) == p + TrimEnd(s)
  {
    var n := |s| - 1;
    assert (p + s)[|p| + n] == s[n] && (p + s)[..|p| + n] == p + s[..n];
    if IsJsSpace(s[n]) {
      TrimEndInside(p, s[..n]);
    }
  }

  lemma BlockIsOne(a: Text, b: Text)
    requires OneLine(a) && OneLine(b) && b != []
    ensures Find(a + [NEWLINE] + b, BLANK_LINE, 0) == -1
  {
    var block := a + [NEWLINE] + b;
    forall j: nat | j < |block| ensures !StandsAt(block, BLANK_LINE, j) {
      if j + 2 <= |block| {
        assert block[j..j + 2] == [block[j], block[j + 1]];
      }
    }
  }

  lemma FrameIsTrimmed(e: SseEvent)
    requires Encodable(e) && TrimEnd(e.data) != []
    ensures Trim(EventLine(e) + [NEWLINE] + DataLine(e)) == EventLine(e) + [NEWLINE] + DataLine(e.(data := TrimEnd(e.data)))
  {
    var a := EventLine(e);
    var front := a + [NEWLINE] + (DATA_FIELD + [SPACE]);
    assert a + [NEWLINE] + DataLine(e) == front + e.data && (front + e.data)[0] == EVENT_FIELD[0];
    TrimEndInside(front, e.data);
    assert a + [NEWLINE] + DataLine(e.(data := TrimEnd(e.data))) == front + TrimEnd(e.data);
  }

  /** When the stream ends behind a frame whose blank line never came, its event is read all
      the same, without the white space at the end of its data. */
  lemma LastFrameIsRead(events: seq<SseEvent>, e: SseEvent)
    requires (forall i :: 0 <= i < |events| ==> Encodable(events[i])) && Encodable(e) && TrimEnd(e.data) != []
    ensures StreamEvents(EncodeAll(events) + (EventLine(e) + [NEWLINE] + DataLine(e))) == events + [e.(data := TrimEnd(e.data))]
  {
    hide *;
    var frames, block := EncodeAll(events), EventLine(e) + [NEWLINE] + DataLine(e);
    LastFrame(e);
    RoundTrip(events);
    DrainAppend(frames, block);
    assert Drain(frames).1 + block == block;
    DrainedEvents(frames + block, events, block);
  }

  lemma DrainedEvents(s: Text, events: seq<SseEvent>, rest: Text)
    requires Drain(s).0 == events + [] && Drain(s).1 == rest
    ensures StreamEvents(s) == events + LastBlock(rest)
  {
    hide Drain, LastBlock;
  }

  lemma LastFrame(e: SseEvent)
    requires Encodable(e) && TrimEnd(e.data) != []
    ensures var block := EventLine(e) + [NEWLINE] + DataLine(e);
      Drain(block) == ([], block) && LastBlock(block) == [e.(data := TrimEnd(e.data))]
  {
    var last := e.(data := TrimEnd(e.data));
    assert OneLine(EventLine(e)) && OneLine(DataLine(e));
    BlockIsOne(EventLine(e), DataLine(e));
    FrameIsTrimmed(e);
    TrimEndKeepsFront(e.data);
    assert OneLine(last.data) && last.data[|last.data| - 1] != CARRIAGE_RETURN;
    assert EventLine(last) == EventLine(e);
    FrameParses(last);
    hide BlockEvent, Find, TrimEnd, EventLine, DataLine, Encodable;
  }
}
