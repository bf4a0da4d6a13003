/** The incremental extractor of backend/app/ai/context.py: the reply text inside a
    partially streamed JSON envelope, and its agreement with the JSON string decoder. */
module Extractor {
  import opened Unicode
  import opened Wrappers
  import opened Surrogates
  import opened Json

  /** Python's `int(text, 16)`, `None` for the `ValueError` it raises. It reads more
      than four hexadecimal digits (signs, underscores, other scripts' digits), so it is
      a parameter: every result holds for any reader that reads real digits correctly. */
  type HexReader = Text -> Option<int>

  ghost predicate ReadsHex(int16: HexReader) {
    forall s: Text :: IsHex4(s) ==> int16(s) == Some(Hex4(s))
  }

  /** The nine characters `"content"`, quotes included. */
  const CONTENT_KEY: Text := [QUOTE, 0x63, 0x6F, 0x6E, 0x74, 0x65, 0x6E, 0x74, QUOTE]

  // -- Finding the value -----------------------------------------------------------

  function AfterKey(s: Text): (r: Option<Text>)
    ensures r.Some? ==> |r.value| < |s|
  {
    if CONTENT_KEY <= s then Some(s[9..])
    else if s == [] then None
    else AfterKey(s[1..])
  }

  function AfterColon(s: Text): (r: Option<Text>)
    ensures r.Some? ==> |r.value| < |s|
  {
    if s == [] then None
    else if s[0] == COLON then Some(s[1..])
    else AfterColon(s[1..])
  }

  /** The text behind the opening quote of the value that follows the first key. */
  function Locate(buffer: Text): Option<Text> {
    var text := LStrip(buffer);
    if !Opens(text, LEFT_BRACE) then None
    else LocateFrom(text)
  }

  function LocateFrom(s: Text): Option<Text> {
    match AfterKey(s)
    case None => None
    case Some(afterKey) => LocateValue(afterKey)
  }

  function LocateValue(afterKey: Text): Option<Text> {
    match AfterColon(afterKey)
    case None => None
    case Some(afterColon) =>
      var value := LStrip(afterColon);
      if Opens(value, QUOTE) then Some(value[1..]) else None
  }

  // -- Reading the value -----------------------------------------------------------

  /** What one turn of the scanning loop decides about the rest of the body. */
  datatype Scanned = Passed(len: nat) | Held | Closed

  predicate LowSurrogateFollows(s: Text, int16: HexReader) {
    |s| >= 12 && s[6] == BACKSLASH && s[7] == LOWER_U
    && var low := int16(s[8..12]); low.Some? && IsLow(low.value)
  }

  function Scan(s: Text, int16: HexReader): (r: Scanned)
    requires s != []
    ensures r.Passed? ==> 1 <= r.len <= |s|
    ensures r.Closed? <==> s[0] == QUOTE
  {
    if s[0] == BACKSLASH then
      if |s| < 2 || (s[1] == LOWER_U && |s| < 6) then Held
      else if s[1] == LOWER_U then
        match int16(s[2..6])
        case None => Held
        case Some(v) =>
          if !IsHigh(v) then Passed(6)
          else if LowSurrogateFollows(s, int16) then Passed(12)
          else Held
      else Passed(2)
    else if s[0] == QUOTE then Closed
    else Passed(1)
  }

  /** How far the scanning loop gets. */
  function ScanLength(s: Text, int16: HexReader): (n: nat)
    ensures n <= |s|
  {
    if s == [] then 0
    else match Scan(s, int16)
      case Passed(n) => n + ScanLength(s[n..], int16)
      case _ => 0
  }

  /** The decoded text of everything the scan passes, `None` once it has passed
      something that is not a unit of a JSON string. */
  function Preview(s: Text, int16: HexReader): Option<Text> {
    if s == [] then Some([])
    else match Scan(s, int16)
      case Passed(n) => (
        match FirstUnit(s[..n])
        case Unit(c, len) =>
          if len != n then None
          else (match Preview(s[n..], int16) case None => None case Some(t) => Some([c] + t))
        case BadUnit => None)
      case _ => Some([])
  }

  /** The text `extract_streamed_content` answers for a buffer. */
  function Extract(buffer: Text, int16: HexReader): Option<Text> {
    match Locate(buffer)
    case None => None
    case Some(body) =>
      match Preview(body, int16)
      case None => None
      case Some(t) => Some(Repair(t))
  }

  // -- The loop --------------------------------------------------------------------

  /** `json.loads` of a string literal, then the surrogate repair. */
  function LoadsRepaired(literal: Text): Option<Text> {
    match Loads(literal)
    case Some(Str(t)) => Some(Repair(t))
    case _ => None
  }

  method ExtractStreamedContent(buffer: Text, int16: HexReader) returns (r: Option<Text>)
    requires ReadsHex(int16)
    ensures r == Extract(buffer, int16)
  {
    var text := LStrip(buffer);
    if text == [] || text[0] != LEFT_BRACE {
      return None;
    }
    var start := FindValue(text);
    if start == -1 {
      return None;
    }
    var stop, closed := ScanBody(text, start, int16);
    var literal := if closed then text[start..stop + 1] else text[start..stop] + [QUOTE];
    ScannedLiteral(buffer, start, stop, literal, int16);
    r := LoadsRepaired(literal);
  }

  lemma LiteralShape(text: Text, start: nat, stop: nat)
    requires start < stop <= |text| && text[start] == QUOTE
    ensures text[start..stop] == [QUOTE] + text[start + 1..][..stop - start - 1]
    ensures stop < |text| && text[stop] == QUOTE ==> text[start..stop + 1] == text[start..stop] + [QUOTE]
  {
  }

  lemma ScannedLiteral(buffer: Text, start: nat, stop: nat, literal: Text, int16: HexReader)
    requires ReadsHex(int16)
    requires var text := LStrip(buffer);
      && start < stop <= |text| && text[start] == QUOTE && Locate(buffer) == Some(text[start + 1..])
      && stop - (start + 1) == ScanLength(text[start + 1..], int16)
      && (literal == text[start..stop] + [QUOTE] || (stop < |text| && text[stop] == QUOTE && literal == text[start..stop + 1]))
    ensures LoadsRepaired(literal) == Extract(buffer, int16)
  {
    hide Preview, LoadsRepaired, ScanLength, ReadsHex, LStrip, Locate;
    var text := LStrip(buffer);
    var body := text[start + 1..];
    LiteralShape(text, start, stop);
    LoadsPreview(body, int16);
  }

  /** The index of the value's opening quote, `-1` while there is none. */
  method FindValue(text: Text) returns (start: int)
    ensures start == -1 || (0 <= start < |text| && text[start] == QUOTE)
    ensures LocateFrom(text) == if start == -1 then None else Some(text[start + 1..])
  {
    var key := Find(text, CONTENT_KEY, 0);
    assert text[0..] == text;
    FindIsAfterKey(text, 0);
    if key == -1 {
      return -1;
    }
    start := FindOpening(text, key + |CONTENT_KEY|);
  }

  /** The opening quote of the value behind a key that ends at `from`. */
  method FindOpening(text: Text, from: nat) returns (start: int)
    requires from <= |text|
    ensures start == -1 || (0 <= start < |text| && text[start] == QUOTE)
    ensures LocateValue(text[from..]) == if start == -1 then None else Some(text[start + 1..])
  {
    var colon := Find(text, [COLON], from);
    FindIsAfterColon(text, from);
    if colon == -1 {
      return -1;
    }
    start := SkipSpaces(text, colon + 1);
    if start >= |text| || text[start] != QUOTE {
      return -1;
    }
    assert text[start..][1..] == text[start + 1..];
  }

  method SkipSpaces(text: Text, from: nat) returns (start: nat)
    requires from <= |text|
    ensures from <= start <= |text| && LStrip(text[from..]) == text[start..]
  {
    start := from;
    while start < |text| && IsSpace(text[start])
      invariant from <= start <= |text|
      invariant LStrip(text[start..]) == LStrip(text[from..])
    {
      assert text[start..][1..] == text[start + 1..];
      start := start + 1;
    }
  }

  /** The scanning loop: where it stops, and whether it stopped on the closing quote. */
  method ScanBody(text: Text, start: nat, int16: HexReader) returns (stop: nat, closed: bool)
    requires start < |text|
    ensures start < stop <= |text| && stop - (start + 1) == ScanLength(text[start + 1..], int16)
    ensures closed ==> stop < |text| && text[stop] == QUOTE
  {
    ghost var total := ScanLength(text[start + 1..], int16);
    ghost var rest := text[start + 1..];
    var i := start + 1;
    while i < |text|
      invariant start + 1 <= i <= |text| && rest == text[i..]
      invariant i - (start + 1) + ScanLength(rest, int16) == total
    {
      var turn := ScanTurn(text, i, int16);
      match turn
      case Held =>
        return i, false;
      case Closed =>
        return i, true;
      case Passed(n) =>
        rest := rest[n..];
        i := i + n;
    }
    return i, false;
  }

  /** One turn of the scanning loop, at index `i`. */
  method ScanTurn(text: Text, i: nat, int16: HexReader) returns (turn: Scanned)
    requires i < |text|
    ensures turn == Scan(text[i..], int16)
  {
    var end := |text|;
    if text[i] == BACKSLASH {
      if i + 1 >= end || (text[i + 1] == LOWER_U && i + 6 > end) {
        return Held;
      }
      if text[i + 1] == LOWER_U {
        assert text[i + 2..i + 6] == text[i..][2..6];
        var codepoint := int16(text[i + 2..i + 6]);
        if codepoint.None? {
          return Held;
        }
        var high := 0xD800 <= codepoint.value <= 0xDBFF;
        var follows := CheckLowFollows(text, i, end, int16);
        if high && !follows {
          return Held;
        }
        return Passed(if high then 12 else 6);
      }
      return Passed(2);
    } else if text[i] == QUOTE {
      return Closed;
    } else {
      return Passed(1);
    }
  }

  method CheckLowFollows(text: Text, index: nat, end: nat, int16: HexReader) returns (r: bool)
    requires index < end == |text|
    ensures r == LowSurrogateFollows(text[index..], int16)
  {
    if index + 12 > end || text[index + 6..index + 8] != [BACKSLASH, LOWER_U] {
      assert index + 12 <= end ==> text[index + 6..index + 8] == [text[index..][6], text[index..][7]];
      return false;
    }
    assert text[index + 6..index + 8] == [text[index..][6], text[index..][7]];
    assert text[index + 8..index + 12] == text[index..][8..12];
    var low := int16(text[index + 8..index + 12]);
    return low.Some? && 0xDC00 <= low.value <= 0xDFFF;
  }

  lemma {:induction false} FindIsAfterKey(s: Text, from: nat)
    requires from <= |s|
    ensures AfterKey(s[from..]) == var k := Find(s, CONTENT_KEY, from); if k == -1 then None else Some(s[k + 9..])
    decreases |s| - from
  {
    var left := s[from..];
    if from + 9 <= |s| {
      assert left[..9] == s[from..from + 9];
      if CONTENT_KEY <= left {
        assert left[9..] == s[from + 9..];
      } else {
        assert left[1..] == s[from + 1..];
        FindIsAfterKey(s, from + 1);
      }
    } else {
      NoKeyInShort(left);
    }
  }

  lemma NoKeyInShort(s: Text)
    requires |s| < 9
    ensures AfterKey(s) == None
  {
  }

  lemma {:induction false} FindIsAfterColon(s: Text, from: nat)
    requires from <= |s|
    ensures AfterColon(s[from..]) == var k := Find(s, [COLON], from); if k == -1 then None else Some(s[k + 1..])
    decreases |s| - from
  {
    if from < |s| {
      assert s[from..from + 1] == [s[from]];
      assert s[from..][1..] == s[from + 1..];
      if s[from] != COLON {
        FindIsAfterColon(s, from + 1);
      }
    }
  }

  // -- Agreement with the decoder --------------------------------------------------

  /** What the scan passes is one unit of a JSON string whatever comes next, or makes
      the string malformed whatever comes next. */
  lemma PassedUnit(s: Text, int16: HexReader, more: Text)
    requires ReadsHex(int16) && s != [] && Scan(s, int16).Passed?
    ensures
      var n := Scan(s, int16).len;
      var u := FirstUnit(s[..n]);
      if u.Unit? && u.len == n
      then FirstUnit(s[..n] + more) == u && (IsHigh(u.c) ==> n == 1)
      else ParseString(s[..n] + more) == Fail
  {
    var n := Scan(s, int16).len;
    var p := s[..n];
    var t := p + more;
    assert t[0] == s[0] != QUOTE;
    if s[0] == BACKSLASH && s[1] == LOWER_U {
      assert t[2..6] == s[2..6] == p[2..6];
      if n == 12 {
        PassedPair(s, int16, more);
      }
    }
  }

  lemma PassedPair(s: Text, int16: HexReader, more: Text)
    requires ReadsHex(int16) && s != [] && Scan(s, int16) == Passed(12)
    ensures
      var u := FirstUnit(s[..12]);
      if u.Unit? && u.len == 12
      then FirstUnit(s[..12] + more) == u && !IsHigh(u.c)
      else ParseString(s[..12] + more) == Fail
  {
    var p := s[..12];
    var t := p + more;
    assert t[2..6] == s[2..6] == p[2..6];
    assert t[6..][2..6] == s[8..12] == p[6..][2..6];
    assert t[6..][0] == BACKSLASH && t[6..][1] == LOWER_U;
    if UnicodeEscape(p) && !UnicodeEscape(p[6..]) {
      assert !UnicodeEscape(t[6..]);
      assert FirstUnit(t) == Unit(Hex4(s[2..6]), 6);
      assert FirstUnit(t[6..]) == BadUnit;
      assert ParseString(t[6..]) == Fail;
    }
  }

  /** The scanned part of a body is a complete string body, and `Preview` its value. */
  lemma {:induction false} PreviewParses(s: Text, int16: HexReader)
    requires ReadsHex(int16)
    ensures ParseString(s[..ScanLength(s, int16)] + [QUOTE])
         == match Preview(s, int16) { case Some(t) => Ok(t, []) case None => Fail }
    decreases |s|
  {
    if s != [] && Scan(s, int16).Passed? {
      var n := Scan(s, int16).len;
      var tail := s[n..][..ScanLength(s[n..], int16)] + [QUOTE];
      assert s[..ScanLength(s, int16)] + [QUOTE] == s[..n] + tail;
      PassedUnit(s, int16, tail);
      PreviewParses(s[n..], int16);
      assert (s[..n] + tail)[n..] == tail;
    } else {
      assert s[..ScanLength(s, int16)] + [QUOTE] == [QUOTE];
    }
  }

  lemma LoadsPreview(body: Text, int16: HexReader)
    requires ReadsHex(int16)
    ensures LoadsRepaired([QUOTE] + body[..ScanLength(body, int16)] + [QUOTE])
         == match Preview(body, int16) { case Some(t) => Some(Repair(t)) case None => None }
  {
    var inner := body[..ScanLength(body, int16)] + [QUOTE];
    PreviewParses(body, int16);
    assert [QUOTE] + body[..ScanLength(body, int16)] + [QUOTE] == [QUOTE] + inner;
    assert ([QUOTE] + inner)[1..] == inner;
  }

  /** A longer buffer never changes what the scan has already decided. */
  lemma ScanStable(s: Text, more: Text, int16: HexReader)
    requires s != [] && Scan(s, int16).Passed?
    ensures Scan(s + more, int16) == Scan(s, int16)
    ensures (s + more)[..Scan(s, int16).len] == s[..Scan(s, int16).len]
    ensures (s + more)[Scan(s, int16).len..] == s[Scan(s, int16).len..] + more
  {
    var t := s + more;
    if s[0] == BACKSLASH && s[1] == LOWER_U {
      assert t[2..6] == s[2..6];
      if |s| >= 12 {
        assert t[8..12] == s[8..12];
      }
    }
  }

  /** Two previews of one growing body: the first is a prefix of the second. */
  lemma {:induction false} PreviewGrows(s: Text, more: Text, int16: HexReader)
    requires Preview(s, int16).Some? && Preview(s + more, int16).Some?
    ensures Preview(s, int16).value <= Preview(s + more, int16).value
    decreases |s|
  {
    if s != [] && Scan(s, int16).Passed? {
      ScanStable(s, more, int16);
      PreviewGrows(s[Scan(s, int16).len..], more, int16);
    }
  }

  lemma ParseStep(unit: Text, more: Text)
    requires unit != [] && ParseString(unit + more).Ok? && unit[0] != QUOTE
    requires FirstUnit(unit + more).Unit? && FirstUnit(unit + more).len == |unit|
    ensures ParseString(more).Ok?
    ensures ParseString(unit + more).value == [FirstUnit(unit + more).c] + ParseString(more).value
  {
    assert (unit + more)[|unit|..] == more;
  }

  /** A preview of a body that turns out to be a JSON string is a prefix of its value. */
  lemma {:induction false} PreviewPrecedesValue(s: Text, more: Text, int16: HexReader)
    requires ReadsHex(int16)
    requires Preview(s, int16).Some? && ParseString(s + more).Ok?
    ensures Preview(s, int16).value <= ParseString(s + more).value
    decreases |s|
  {
    hide Scan, FirstUnit, ParseString;
    if s != [] && Scan(s, int16).Passed? {
      var n := Scan(s, int16).len;
      PassedUnit(s, int16, s[n..] + more);
      assert s + more == s[..n] + (s[n..] + more);
      ParseStep(s[..n], s[n..] + more);
      PreviewPrecedesValue(s[n..], more, int16);
    }
  }

  /** No preview contains a high surrogate unless the buffer does. */
  lemma {:induction false} PreviewNoHigh(s: Text, int16: HexReader)
    requires ReadsHex(int16) && NoHigh(s) && Preview(s, int16).Some?
    ensures NoHigh(Preview(s, int16).value)
    decreases |s|
  {
    if s != [] && Scan(s, int16).Passed? {
      var n := Scan(s, int16).len;
      PassedUnit(s, int16, []);
      assert s[..n] + [] == s[..n];
      assert s[..n][0] == s[0];
      PreviewNoHigh(s[n..], int16);
    }
  }

  /** On a complete body the preview is the whole value exactly when every escaped high
      surrogate has its low half. */
  lemma {:induction false} PreviewOfWhole(s: Text, int16: HexReader)
    requires ReadsHex(int16) && NoHigh(s) && ParseString(s).Ok?
    ensures Preview(s, int16) == Some(ParseString(s).value) <==> NoHigh(ParseString(s).value)
    decreases |s|
  {
    if s[0] != QUOTE {
      var u := FirstUnit(s);
      var v := ParseString(s).value;
      assert v[0] == u.c && v[1..] == ParseString(s[u.len..]).value;
      if s[0] == BACKSLASH && s[1] == LOWER_U {
        EscapeScans(s, int16);
      }
      if IsHigh(u.c) {
        assert Preview(s, int16) == Some([]);
      } else {
        assert Scan(s, int16) == Passed(u.len);
        PassedUnit(s, int16, s[u.len..]);
        assert s[..u.len] + s[u.len..] == s;
        PreviewOfWhole(s[u.len..], int16);
        assert NoHigh(v) <==> NoHigh(v[1..]) by {
          assert v == [v[0]] + v[1..];
        }
      }
    }
  }

  lemma EscapeScans(s: Text, int16: HexReader)
    requires ReadsHex(int16) && UnicodeEscape(s) && ParseString(s).Ok?
    ensures Scan(s, int16) == if IsHigh(FirstUnit(s).c) then Held else Passed(FirstUnit(s).len)
  {
    assert int16(s[2..6]) == Some(Hex4(s[2..6]));
    var next := s[6..];
    if |s| >= 12 && s[6] == BACKSLASH && s[7] == LOWER_U {
      assert s[8..12] == next[2..6];
    }
  }

}
