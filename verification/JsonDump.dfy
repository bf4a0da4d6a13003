/** `json.dumps` and pydantic's `model_dump_json`, and the proof that parsing undoes
    them: nothing a string holds can forge a field. */
module JsonDump {
  import opened Unicode
  import opened Wrappers
  import opened Surrogates
  import opened Json

  /** `ascii`: escape everything outside printable ASCII (`json.dumps`' default).
      `spaced`: separators `", "` and `": "` rather than `","` and `":"`. */
  datatype Style = Style(ascii: bool, spaced: bool)

  const PYTHON := Style(true, true)
  const PYDANTIC := Style(false, false)

  function HexChar(d: int): (c: CodePoint)
    requires 0 <= d < 16
    ensures HexDigit(c) == Some(d)
  {
    if d < 10 then 0x30 + d else 0x61 + (d - 10)
  }

  /** The four hexadecimal digits of a code unit, in lower case. */
  function HexOf(v: int): (s: Text)
    requires 0 <= v < 0x10000
    ensures |s| == 4
    ensures forall i :: 0 <= i < 4 ==> 0x20 <= s[i] < 0x7F
  {
    [HexChar(v / 0x1000), HexChar(v % 0x1000 / 0x100), HexChar(v % 0x100 / 0x10), HexChar(v % 0x10)]
  }

  function UnicodeEscapeOf(v: int): (s: Text)
    requires 0 <= v < 0x10000
    ensures |s| == 6
    ensures forall i :: 0 <= i < 6 ==> 0x20 <= s[i] < 0x7F
  {
    [BACKSLASH, LOWER_U] + HexOf(v)
  }

  function EscapeChar(c: CodePoint, ascii: bool): (s: Text)
    requires ascii ==> !IsSurrogate(c)
    ensures s != []
    ensures forall i :: 0 <= i < |s| ==> 0x20 <= s[i] && (IsHigh(s[i]) ==> s[i] == c)
  {
    if c == QUOTE || c == BACKSLASH then [BACKSLASH, c]
    else if c == 0x08 then [BACKSLASH, 0x62]
    else if c == 0x0C then [BACKSLASH, 0x66]
    else if c == 0x0A then [BACKSLASH, 0x6E]
    else if c == 0x0D then [BACKSLASH, 0x72]
    else if c == 0x09 then [BACKSLASH, 0x74]
    else if c < 0x20 || (ascii && 0x7E < c < 0x10000) then UnicodeEscapeOf(c)
    else if ascii && c >= 0x10000 then
      UnicodeEscapeOf(0xD800 + (c - 0x10000) / 0x400) + UnicodeEscapeOf(0xDC00 + (c - 0x10000) % 0x400)
    else [c]
  }

  function Escape(t: Text, ascii: bool): (s: Text)
    requires ascii ==> Scalar(t)
    ensures forall i :: 0 <= i < |s| ==> 0x20 <= s[i]
    ensures NoHigh(t) ==> NoHigh(s)
  {
    if t == [] then [] else EscapeChar(t[0], ascii) + Escape(t[1..], ascii)
  }

  function Digits(n: nat): (s: Text)
    ensures s != [] && (n > 0 ==> s[0] != 0x30)
    ensures forall i :: 0 <= i < |s| ==> IsDigit(s[i])
  {
    if n < 10 then [0x30 + n] else Digits(n / 10) + [0x30 + n % 10]
  }

  /** Values the serializers accept here: no floats, integers Python will read back,
      text that can be encoded as UTF-8. */
  predicate Plain(j: Json) {
    match j
    case Null => true
    case Bool(_) => true
    case Int(n) => |Digits(if n < 0 then -n else n)| <= MAX_INT_DIGITS
    case Float(_) => false
    case Str(t) => Scalar(t)
    case Arr(items) => forall i :: 0 <= i < |items| ==> Plain(items[i])
    case Obj(members) => forall i :: 0 <= i < |members| ==> Scalar(members[i].key) && Plain(members[i].value)
  }

  function Quoted(t: Text, style: Style): Text
    requires Scalar(t)
  {
    [QUOTE] + Escape(t, style.ascii) + [QUOTE]
  }

  function Gap(style: Style): Text { if style.spaced then [SPACE] else [] }

  function Dump(j: Json, style: Style): Text
    requires Plain(j)
    decreases j, 0
  {
    match j
    case Null => NULL
    case Bool(b) => if b then TRUE else FALSE
    case Int(n) => if n < 0 then [0x2D] + Digits(-n) else Digits(n)
    case Str(t) => Quoted(t, style)
    case Arr(items) => if items == [] then [LEFT_BRACKET, RIGHT_BRACKET] else [LEFT_BRACKET] + DumpItems(items, style)
    case Obj(members) => if members == [] then [LEFT_BRACE, RIGHT_BRACE] else [LEFT_BRACE] + DumpMembers(members, style)
  }

  function DumpMember(m: Member, style: Style): Text
    requires Scalar(m.key) && Plain(m.value)
    decreases m, 1
  {
    Quoted(m.key, style) + [COLON] + Gap(style) + Dump(m.value, style)
  }

  function DumpMembers(members: seq<Member>, style: Style): Text
    requires members != []
    requires forall i :: 0 <= i < |members| ==> Scalar(members[i].key) && Plain(members[i].value)
    decreases members, 2
  {
    var tail: Text := if |members| == 1 then [RIGHT_BRACE] else [COMMA] + Gap(style) + DumpMembers(members[1..], style);
    DumpMember(members[0], style) + tail
  }

  function DumpItems(items: seq<Json>, style: Style): Text
    requires items != []
    requires forall i :: 0 <= i < |items| ==> Plain(items[i])
    decreases items, 2
  {
    var tail: Text := if |items| == 1 then [RIGHT_BRACKET] else [COMMA] + Gap(style) + DumpItems(items[1..], style);
    Dump(items[0], style) + tail
  }

  // -- Strings ---------------------------------------------------------------------

  lemma HexCharReads(d: int)
    requires 0 <= d < 16
    ensures HexDigit(HexChar(d)) == Some(d)
  {
  }

  lemma HexPlaces(v: int, high: int, low: int)
    requires 0 <= v < 0x10000 && high == v / 0x100 && low == v % 0x100
    ensures v / 0x1000 == high / 0x10 && v % 0x1000 / 0x100 == high % 0x10
    ensures v % 0x100 / 0x10 == low / 0x10 && v % 0x10 == low % 0x10
    ensures v == high / 0x10 * 0x1000 + high % 0x10 * 0x100 + low / 0x10 * 0x10 + low % 0x10
  {
  }

  lemma HexRoundTrip(v: int)
    requires 0 <= v < 0x10000
    ensures IsHex4(HexOf(v)) && Hex4(HexOf(v)) == v
  {
    var a, b, c, d := v / 0x1000, v % 0x1000 / 0x100, v % 0x100 / 0x10, v % 0x10;
    HexPlaces(v, v / 0x100, v % 0x100);
    assert v == a * 0x1000 + b * 0x100 + c * 0x10 + d;
    HexCharReads(a);
    HexCharReads(b);
    HexCharReads(c);
    HexCharReads(d);
  }

  lemma UnicodeEscapeOpens(v: int, more: Text)
    requires 0 <= v < 0x10000
    ensures UnicodeEscape(UnicodeEscapeOf(v) + more) && Hex4((UnicodeEscapeOf(v) + more)[2..6]) == v
  {
    HexRoundTrip(v);
    assert (UnicodeEscapeOf(v) + more)[2..6] == HexOf(v);
  }

  lemma PairArithmetic(c: CodePoint)
    requires c >= 0x10000
    ensures IsHigh(0xD800 + (c - 0x10000) / 0x400) && IsLow(0xDC00 + (c - 0x10000) % 0x400)
    ensures Combine(0xD800 + (c - 0x10000) / 0x400, 0xDC00 + (c - 0x10000) % 0x400) == c
  {
  }

  lemma PairParses(c: CodePoint, more: Text)
    requires c >= 0x10000
    ensures FirstUnit(EscapeChar(c, true) + more) == Unit(c, 12)
  {
    PairArithmetic(c);
    var high, low := 0xD800 + (c - 0x10000) / 0x400, 0xDC00 + (c - 0x10000) % 0x400;
    var first, second := UnicodeEscapeOf(high), UnicodeEscapeOf(low);
    UnicodeEscapeOpens(high, second + more);
    UnicodeEscapeOpens(low, more);
    PairOpens(first, high, second + more, low);
    assert EscapeChar(c, true) == first + second;
    assert first + second + more == first + (second + more);
  }

  lemma PairOpens(first: Text, high: CodePoint, tail: Text, low: CodePoint)
    requires |first| == 6 && IsHigh(high) && IsLow(low)
    requires UnicodeEscape(first + tail) && Hex4((first + tail)[2..6]) == high
    requires UnicodeEscape(tail) && Hex4(tail[2..6]) == low
    ensures FirstUnit(first + tail) == Unit(Combine(high, low), 12)
  {
    assert (first + tail)[6..] == tail;
  }

  lemma UnicodeEscapeParses(c: CodePoint, more: Text)
    requires c < 0x10000 && !IsHigh(c)
    ensures FirstUnit(UnicodeEscapeOf(c) + more) == Unit(c, 6)
  {
    UnicodeEscapeOpens(c, more);
  }

  lemma EscapeCharParses(c: CodePoint, ascii: bool, more: Text)
    requires !IsSurrogate(c)
    ensures EscapeChar(c, ascii)[0] != QUOTE
    ensures FirstUnit(EscapeChar(c, ascii) + more) == Unit(c, |EscapeChar(c, ascii)|)
  {
    if ascii && c >= 0x10000 {
      PairParses(c, more);
    } else if c < 0x10000 && EscapeChar(c, ascii) == UnicodeEscapeOf(c) {
      UnicodeEscapeParses(c, more);
    }
  }

  /** Decoding an escaped string gives the string back, in either escaping style. */
  lemma {:induction false} StringRoundTrip(t: Text, ascii: bool, more: Text)
    requires Scalar(t)
    ensures ParseString(Escape(t, ascii) + [QUOTE] + more) == Ok(t, more)
  {
    if t == [] {
      ParseEnd(more);
      assert Escape(t, ascii) + [QUOTE] + more == [QUOTE] + more;
    } else {
      StringRoundTrip(t[1..], ascii, more);
      var head, tail := EscapeSplits(t, ascii, more);
      EscapeCharParses(t[0], ascii, tail);
      ParseUnit(head, t[0], tail, t[1..], more);
      assert [t[0]] + t[1..] == t;
    }
  }

  lemma EscapeSplits(t: Text, ascii: bool, more: Text) returns (head: Text, tail: Text)
    requires Scalar(t) && t != []
    ensures head == EscapeChar(t[0], ascii) && tail == Escape(t[1..], ascii) + [QUOTE] + more
    ensures Escape(t, ascii) + [QUOTE] + more == head + tail
  {
    head, tail := EscapeChar(t[0], ascii), Escape(t[1..], ascii) + [QUOTE] + more;
    EndsWith(head, Escape(t[1..], ascii), more);
  }

  lemma EndsWith(head: Text, rest: Text, more: Text)
    ensures head + rest + [QUOTE] + more == head + (rest + [QUOTE] + more)
  {
  }

  lemma ParseEnd(more: Text)
    ensures ParseString([QUOTE] + more) == Ok([], more)
  {
    assert ([QUOTE] + more)[1..] == more;
  }

  lemma ParseUnit(unit: Text, c: CodePoint, tail: Text, value: Text, more: Text)
    requires unit != [] && unit[0] != QUOTE && FirstUnit(unit + tail) == Unit(c, |unit|)
    requires ParseString(tail) == Ok(value, more)
    ensures ParseString(unit + tail) == Ok([c] + value, more)
  {
    assert (unit + tail)[|unit|..] == tail;
  }

  lemma QuotedRoundTrip(t: Text, style: Style, more: Text) returns (body: Text)
    requires Scalar(t)
    ensures Quoted(t, style) + more == [QUOTE] + body && ParseString(body) == Ok(t, more)
  {
    body := Escape(t, style.ascii) + [QUOTE] + more;
    StringRoundTrip(t, style.ascii, more);
  }

  // -- Numbers ---------------------------------------------------------------------

  lemma {:induction false} DigitsRoundTrip(n: nat)
    ensures DecimalValue(Digits(n)) == n
  {
    if n < 10 {
      assert Digits(n)[..0] == [];
    } else {
      DigitsRoundTrip(n / 10);
      assert Digits(n)[..|Digits(n)| - 1] == Digits(n / 10);
    }
  }

  /** What may follow a number without being read as part of it. */
  predicate EndsNumber(more: Text) {
    more == [] || more[0] == COMMA || more[0] == RIGHT_BRACE || more[0] == RIGHT_BRACKET
  }

  lemma {:induction false} DigitCountOf(digits: Text, more: Text)
    requires forall i :: 0 <= i < |digits| ==> IsDigit(digits[i])
    requires EndsNumber(more)
    ensures DigitCount(digits + more) == |digits|
  {
    if digits != [] {
      assert (digits + more)[1..] == digits[1..] + more;
      DigitCountOf(digits[1..], more);
    } else {
      assert digits + more == more;
    }
  }

  lemma DigitsOfZero(n: nat)
    ensures Digits(n)[0] == 0x30 ==> Digits(n) == [0x30]
  {
  }

  lemma ParseDigits(n: nat, negative: bool, more: Text)
    requires |Digits(n)| <= MAX_INT_DIGITS && EndsNumber(more)
    ensures Opens(Digits(n) + more, Digits(n)[0]) && IsDigit(Digits(n)[0])
    ensures ParseUnsigned(Digits(n) + more, negative) == Ok(Int(if negative then 0 - n else n), more)
  {
    hide Digits;
    var digits := Digits(n);
    var d := digits + more;
    assert IsDigit(digits[0]) && d[0] == digits[0];
    DigitCountOf(digits, more);
    DigitsOfZero(n);
    assert WholeLength(d) == |digits|;
    assert d[..|digits|] == digits && d[|digits|..] == more;
    DigitsRoundTrip(n);
    hide DigitCount, WholeLength, DecimalValue;
    assert FractionLength(more) == 0 && more[0..] == more && ExponentLength(more) == 0;
  }

  lemma NotAPrefix(p: Text, s: Text, i: nat)
    requires i < |p| && i < |s| && p[i] != s[i]
    ensures !(p <= s)
  {
  }

  lemma NotALiteral(s: Text)
    requires s != [] && (IsDigit(s[0]) || (s[0] == 0x2D && |s| > 1 && IsDigit(s[1])))
    ensures ParseScalar(s) == ParseNumber(s)
  {
    NotAPrefix(NULL, s, 0);
    NotAPrefix(TRUE, s, 0);
    NotAPrefix(FALSE, s, 0);
    NotAPrefix(NAN, s, 0);
    NotAPrefix(INFINITY, s, 0);
    assert MINUS_INFINITY[0] == 0x2D && MINUS_INFINITY[1] == 0x49;
    NotAPrefix(MINUS_INFINITY, s, if IsDigit(s[0]) then 0 else 1);
  }

  lemma NegativeNumber(digits: Text, more: Text, n: int)
    requires digits != [] && IsDigit(digits[0])
    requires ParseUnsigned(digits + more, true) == Ok(Int(n), more)
    ensures ParseScalar([0x2D] + digits + more) == Ok(Int(n), more)
  {
    var s := [0x2D] + digits + more;
    assert s[1..] == digits + more;
    NotALiteral(s);
  }

  lemma PositiveNumber(digits: Text, more: Text, n: int)
    requires digits != [] && IsDigit(digits[0])
    requires ParseUnsigned(digits + more, false) == Ok(Int(n), more)
    ensures ParseScalar(digits + more) == Ok(Int(n), more)
  {
    NotALiteral(digits + more);
  }

  lemma NumberRoundTrip(n: int, style: Style, more: Text)
    requires Plain(Int(n)) && EndsNumber(more)
    ensures ParseScalar(Dump(Int(n), style) + more) == Ok(Int(n), more)
  {
    if n < 0 {
      ParseDigits(-n, true, more);
      NegativeNumber(Digits(-n), more, n);
    } else {
      ParseDigits(n, false, more);
      PositiveNumber(Digits(n), more, n);
    }
  }

  // -- One step of the parser ------------------------------------------------------

  lemma ParseStringValue(body: Text, t: Text, more: Text)
    requires ParseString(body) == Ok(t, more)
    ensures ParseValue([QUOTE] + body) == Ok(Str(t), more)
  {
    assert ([QUOTE] + body)[1..] == body;
  }

  lemma ParseObject(body: Text, members: seq<Member>, more: Text)
    requires Opens(body, QUOTE) && ParseMembers(body) == Ok(members, more)
    ensures ParseValue([LEFT_BRACE] + body) == Ok(Obj(members), more)
  {
    assert ([LEFT_BRACE] + body)[1..] == body;
  }

  lemma ParseArray(body: Text, items: seq<Json>, more: Text)
    requires body != [] && !IsJsonSpace(body[0]) && body[0] != RIGHT_BRACKET
    requires ParseItems(body) == Ok(items, more)
    ensures ParseValue([LEFT_BRACKET] + body) == Ok(Arr(items), more)
  {
    assert ([LEFT_BRACKET] + body)[1..] == body;
  }

  lemma ParseEmpty(more: Text)
    ensures ParseValue([LEFT_BRACE, RIGHT_BRACE] + more) == Ok(Obj([]), more)
    ensures ParseValue([LEFT_BRACKET, RIGHT_BRACKET] + more) == Ok(Arr([]), more)
  {
    assert ([LEFT_BRACE, RIGHT_BRACE] + more)[1..] == [RIGHT_BRACE] + more;
    assert ([LEFT_BRACKET, RIGHT_BRACKET] + more)[1..] == [RIGHT_BRACKET] + more;
    assert ([RIGHT_BRACE] + more)[1..] == more && ([RIGHT_BRACKET] + more)[1..] == more;
  }

  lemma ParseOneMember(body: Text, key: Text, afterColon: Text, valueText: Text, value: Json, more: Text)
    requires ParseString(body) == Ok(key, [COLON] + afterColon)
    requires SkipSpace(afterColon) == valueText && ParseValue(valueText) == Ok(value, more)
    requires more != [] && !IsJsonSpace(more[0])
    ensures ParseMember([QUOTE] + body) == Ok(Member(key, value), more)
  {
    assert ([QUOTE] + body)[1..] == body;
    assert ([COLON] + afterColon)[1..] == afterColon;
  }

  lemma ParseNextMember(s: Text, member: Member, rest: Text, others: seq<Member>, more: Text)
    requires ParseMember(s) == Ok(member, [COMMA] + rest)
    requires ParseMembers(SkipSpace(rest)) == Ok(others, more)
    ensures ParseMembers(s) == Ok([member] + others, more)
  {
    assert ([COMMA] + rest)[1..] == rest;
  }

  lemma ParseNextItem(s: Text, item: Json, rest: Text, others: seq<Json>, more: Text)
    requires ParseValue(s) == Ok(item, [COMMA] + rest)
    requires ParseItems(SkipSpace(rest)) == Ok(others, more)
    ensures ParseItems(s) == Ok([item] + others, more)
  {
    assert ([COMMA] + rest)[1..] == rest;
  }

  // -- Values ----------------------------------------------------------------------

  lemma SkipGap(style: Style, s: Text)
    requires s != [] && !IsJsonSpace(s[0])
    ensures SkipSpace(Gap(style) + s) == s
  {
    if style.spaced {
      assert (Gap(style) + s)[1..] == s;
    } else {
      assert Gap(style) + s == s;
    }
  }

  lemma DumpOpens(j: Json, style: Style)
    requires Plain(j)
    ensures Dump(j, style) != [] && !IsJsonSpace(Dump(j, style)[0])
    ensures Dump(j, style)[0] != RIGHT_BRACE && Dump(j, style)[0] != RIGHT_BRACKET
  {
    if j.Int? {
      assert IsDigit(Digits(if j.n < 0 then -j.n else j.n)[0]);
    }
  }

  lemma ScalarValue(j: Json, style: Style, more: Text)
    requires Plain(j) && !j.Str? && !j.Arr? && !j.Obj?
    ensures ParseValue(Dump(j, style) + more) == ParseScalar(Dump(j, style) + more)
  {
    if j.Int? {
      assert IsDigit(Digits(if j.n < 0 then -j.n else j.n)[0]);
    }
  }

  lemma LiteralRoundTrip(j: Json, style: Style, more: Text)
    requires j.Null? || j.Bool?
    ensures ParseScalar(Dump(j, style) + more) == Ok(j, more)
  {
    var d := Dump(j, style);
    assert (d + more)[|d|..] == more;
    assert (d + more)[0] == d[0];
  }

  lemma ScalarRoundTrip(j: Json, style: Style, more: Text)
    requires Plain(j) && EndsNumber(more) && !j.Str? && !j.Arr? && !j.Obj?
    ensures ParseValue(Dump(j, style) + more) == Ok(j, more)
  {
    ScalarValue(j, style, more);
    match j
    case Int(n) => NumberRoundTrip(n, style, more);
    case _ => LiteralRoundTrip(j, style, more);
  }

  lemma StrRoundTrip(t: Text, style: Style, more: Text)
    requires Scalar(t)
    ensures ParseValue(Dump(Str(t), style) + more) == Ok(Str(t), more)
  {
    var body := QuotedRoundTrip(t, style, more);
    ParseStringValue(body, t, more);
  }

  lemma {:induction false} ValueRoundTrip(j: Json, style: Style, more: Text)
    requires Plain(j) && EndsNumber(more)
    ensures ParseValue(Dump(j, style) + more) == Ok(j, more)
    decreases j, 0
  {
    match j
    case Str(t) => StrRoundTrip(t, style, more);
    case Arr(items) =>
      if items == [] { ParseEmpty(more); } else { ArrRoundTrip(items, style, more); }
    case Obj(members) =>
      if members == [] { ParseEmpty(more); } else { ObjRoundTrip(members, style, more); }
    case _ => ScalarRoundTrip(j, style, more);
  }

  lemma {:induction false} ArrRoundTrip(items: seq<Json>, style: Style, more: Text)
    requires Plain(Arr(items)) && items != []
    ensures ParseValue(Dump(Arr(items), style) + more) == Ok(Arr(items), more)
    decreases items, 3
  {
    var body := DumpItems(items, style) + more;
    DumpOpens(items[0], style);
    ItemsRoundTrip(items, style, more);
    ParseArray(body, items, more);
    assert Dump(Arr(items), style) + more == [LEFT_BRACKET] + body;
  }

  lemma {:induction false} ObjRoundTrip(members: seq<Member>, style: Style, more: Text)
    requires Plain(Obj(members)) && members != []
    ensures ParseValue(Dump(Obj(members), style) + more) == Ok(Obj(members), more)
    decreases members, 3
  {
    var body := DumpMembers(members, style) + more;
    MembersRoundTrip(members, style, more);
    ParseObject(body, members, more);
    assert Dump(Obj(members), style) + more == [LEFT_BRACE] + body;
  }

  lemma Regroup(key: Text, gap: Text, value: Text, more: Text)
    ensures key + [COLON] + gap + value + more == key + ([COLON] + (gap + (value + more)))
  {
  }

  lemma {:induction false} MemberRoundTrip(m: Member, style: Style, more: Text)
    requires Scalar(m.key) && Plain(m.value)
    requires Opens(more, COMMA) || Opens(more, RIGHT_BRACE)
    ensures ParseMember(DumpMember(m, style) + more) == Ok(m, more)
    decreases m, 1
  {
    var valueText := Dump(m.value, style) + more;
    var afterKey := [COLON] + (Gap(style) + valueText);
    var body := QuotedRoundTrip(m.key, style, afterKey);
    DumpOpens(m.value, style);
    assert valueText[0] == Dump(m.value, style)[0];
    SkipGap(style, valueText);
    ValueRoundTrip(m.value, style, more);
    ParseOneMember(body, m.key, Gap(style) + valueText, valueText, m.value, more);
    Regroup(Quoted(m.key, style), Gap(style), Dump(m.value, style), more);
  }

  lemma ParseLastMember(s: Text, member: Member, more: Text)
    requires ParseMember(s) == Ok(member, [RIGHT_BRACE] + more)
    ensures ParseMembers(s) == Ok([member], more)
  {
    assert ([RIGHT_BRACE] + more)[1..] == more;
  }

  lemma RegroupTail(head: Text, gap: Text, others: Text, more: Text)
    ensures head + ([COMMA] + gap + others) + more == head + ([COMMA] + (gap + (others + more)))
  {
  }

  lemma OpensWithQuote(members: seq<Member>, style: Style, more: Text)
    requires members != []
    requires forall i :: 0 <= i < |members| ==> Scalar(members[i].key) && Plain(members[i].value)
    ensures Opens(DumpMembers(members, style) + more, QUOTE)
  {
  }

  lemma LastMember(members: seq<Member>, style: Style, more: Text)
    requires |members| == 1 && Scalar(members[0].key) && Plain(members[0].value)
    requires ParseMember(DumpMember(members[0], style) + ([RIGHT_BRACE] + more)) == Ok(members[0], [RIGHT_BRACE] + more)
    ensures ParseMembers(DumpMembers(members, style) + more) == Ok(members, more)
  {
    var head := DumpMember(members[0], style);
    assert head + [RIGHT_BRACE] + more == head + ([RIGHT_BRACE] + more);
    ParseLastMember(head + ([RIGHT_BRACE] + more), members[0], more);
    assert members == [members[0]];
  }

  lemma MoreMembers(members: seq<Member>, style: Style, more: Text, others: Text)
    requires |members| > 1
    requires forall i :: 0 <= i < |members| ==> Scalar(members[i].key) && Plain(members[i].value)
    requires others == DumpMembers(members[1..], style) + more && Opens(others, QUOTE)
    requires ParseMembers(others) == Ok(members[1..], more)
    requires var rest := [COMMA] + (Gap(style) + others);
      ParseMember(DumpMember(members[0], style) + rest) == Ok(members[0], rest)
    ensures ParseMembers(DumpMembers(members, style) + more) == Ok(members, more)
  {
    var head := DumpMember(members[0], style);
    RegroupTail(head, Gap(style), DumpMembers(members[1..], style), more);
    SkipGap(style, others);
    ParseNextMember(head + ([COMMA] + (Gap(style) + others)), members[0], Gap(style) + others, members[1..], more);
    assert members == [members[0]] + members[1..];
  }

  lemma {:induction false} MembersRoundTrip(members: seq<Member>, style: Style, more: Text)
    requires members != []
    requires forall i :: 0 <= i < |members| ==> Scalar(members[i].key) && Plain(members[i].value)
    ensures ParseMembers(DumpMembers(members, style) + more) == Ok(members, more)
    ensures Opens(DumpMembers(members, style) + more, QUOTE)
    decreases members, 2
  {
    OpensWithQuote(members, style, more);
    if |members| == 1 {
      MemberRoundTrip(members[0], style, [RIGHT_BRACE] + more);
      LastMember(members, style, more);
    } else {
      var others := DumpMembers(members[1..], style) + more;
      MemberRoundTrip(members[0], style, [COMMA] + (Gap(style) + others));
      MembersRoundTrip(members[1..], style, more);
      MoreMembers(members, style, more, others);
    }
  }

  lemma LastItem(items: seq<Json>, style: Style, more: Text)
    requires |items| == 1 && Plain(items[0])
    requires ParseValue(Dump(items[0], style) + ([RIGHT_BRACKET] + more)) == Ok(items[0], [RIGHT_BRACKET] + more)
    ensures ParseItems(DumpItems(items, style) + more) == Ok(items, more)
  {
    var head := Dump(items[0], style);
    assert head + [RIGHT_BRACKET] + more == head + ([RIGHT_BRACKET] + more);
    assert ([RIGHT_BRACKET] + more)[1..] == more;
    assert items == [items[0]];
  }

  lemma MoreItems(items: seq<Json>, style: Style, more: Text, others: Text)
    requires |items| > 1 && forall i :: 0 <= i < |items| ==> Plain(items[i])
    requires others == DumpItems(items[1..], style) + more && others != [] && !IsJsonSpace(others[0])
    requires ParseItems(others) == Ok(items[1..], more)
    requires var rest := [COMMA] + (Gap(style) + others);
      ParseValue(Dump(items[0], style) + rest) == Ok(items[0], rest)
    ensures ParseItems(DumpItems(items, style) + more) == Ok(items, more)
  {
    var head := Dump(items[0], style);
    RegroupTail(head, Gap(style), DumpItems(items[1..], style), more);
    SkipGap(style, others);
    ParseNextItem(head + ([COMMA] + (Gap(style) + others)), items[0], Gap(style) + others, items[1..], more);
    assert items == [items[0]] + items[1..];
  }

  lemma ItemsOpen(items: seq<Json>, style: Style, more: Text)
    requires items != [] && forall i :: 0 <= i < |items| ==> Plain(items[i])
    ensures (DumpItems(items, style) + more)[0] == Dump(items[0], style)[0]
  {
    DumpOpens(items[0], style);
  }

  lemma {:induction false} ItemsRoundTrip(items: seq<Json>, style: Style, more: Text)
    requires items != []
    requires forall i :: 0 <= i < |items| ==> Plain(items[i])
    ensures ParseItems(DumpItems(items, style) + more) == Ok(items, more)
    ensures (DumpItems(items, style) + more)[0] == Dump(items[0], style)[0]
    decreases items, 2
  {
    ItemsOpen(items, style, more);
    if |items| == 1 {
      ValueRoundTrip(items[0], style, [RIGHT_BRACKET] + more);
      LastItem(items, style, more);
    } else {
      var others := DumpItems(items[1..], style) + more;
      ValueRoundTrip(items[0], style, [COMMA] + (Gap(style) + others));
      ItemsRoundTrip(items[1..], style, more);
      DumpOpens(items[1], style);
      MoreItems(items, style, more, others);
    }
  }

  /** Whatever the strings inside a value hold, loading its dump gives that value and
      no other: no message text can close its string or forge a field. */
  lemma LoadsDump(j: Json, style: Style)
    requires Plain(j)
    ensures Loads(Dump(j, style)) == Some(j)
  {
    ValueRoundTrip(j, style, []);
    DumpOpens(j, style);
    assert Dump(j, style) + [] == Dump(j, style);
  }

  /** No control character, so it fits on one `data:` line, and no high surrogate. */
  predicate Printable(s: Text) { forall i :: 0 <= i < |s| ==> 0x20 <= s[i] && !IsHigh(s[i]) }

  lemma PrintableJoin(a: Text, b: Text)
    requires Printable(a) && Printable(b)
    ensures Printable(a + b)
  {
  }

  lemma MemberIsPrintable(m: Member, style: Style)
    requires Scalar(m.key) && Plain(m.value) && Printable(Dump(m.value, style))
    ensures Printable(DumpMember(m, style))
  {
    var key := Quoted(m.key, style);
    assert Printable(Escape(m.key, style.ascii));
    assert Printable(key + [COLON] + Gap(style));
    PrintableJoin(key + [COLON] + Gap(style), Dump(m.value, style));
  }

  /** A dump never contains a line break or a raw high surrogate. */
  lemma {:induction false} DumpIsPrintable(j: Json, style: Style)
    requires Plain(j)
    ensures Printable(Dump(j, style))
    decreases j, 0
  {
    match j
    case Arr(items) => if items != [] { ItemsArePrintable(items, style); }
    case Obj(members) => if members != [] { MembersArePrintable(members, style); }
    case Int(n) => assert Printable(Digits(if n < 0 then -n else n)) by { DigitsArePrintable(if n < 0 then -n else n); }
    case _ =>
  }

  lemma DigitsArePrintable(n: nat)
    ensures Printable(Digits(n))
  {
    forall i | 0 <= i < |Digits(n)| ensures 0x20 <= Digits(n)[i] && !IsHigh(Digits(n)[i]) { assert IsDigit(Digits(n)[i]); }
  }

  lemma {:induction false} MembersArePrintable(members: seq<Member>, style: Style)
    requires members != []
    requires forall i :: 0 <= i < |members| ==> Scalar(members[i].key) && Plain(members[i].value)
    ensures Printable(DumpMembers(members, style))
    decreases members, 1
  {
    DumpIsPrintable(members[0].value, style);
    MemberIsPrintable(members[0], style);
    if |members| > 1 {
      MembersArePrintable(members[1..], style);
      PrintableJoin([COMMA] + Gap(style), DumpMembers(members[1..], style));
      PrintableJoin(DumpMember(members[0], style), [COMMA] + Gap(style) + DumpMembers(members[1..], style));
    } else {
      PrintableJoin(DumpMember(members[0], style), [RIGHT_BRACE]);
    }
  }

  lemma {:induction false} ItemsArePrintable(items: seq<Json>, style: Style)
    requires items != []
    requires forall i :: 0 <= i < |items| ==> Plain(items[i])
    ensures Printable(DumpItems(items, style))
    decreases items, 1
  {
    DumpIsPrintable(items[0], style);
    if |items| > 1 {
      ItemsArePrintable(items[1..], style);
      PrintableJoin([COMMA] + Gap(style), DumpItems(items[1..], style));
      PrintableJoin(Dump(items[0], style), [COMMA] + Gap(style) + DumpItems(items[1..], style));
    } else {
      PrintableJoin(Dump(items[0], style), [RIGHT_BRACKET]);
    }
  }

}
