/** Every way a JSON string may be written, section 7 of RFC 8259: the decoder reads each of
    them as the text it stands for, and reads nothing else. */
module JsonStrings {
  import opened Unicode
  import opened Wrappers
  import opened Surrogates
  import opened Json
  import opened Extractor

  // -- The grammar -----------------------------------------------------------------

  const LOWER_HEX: Text := [0x30, 0x31, 0x32, 0x33, 0x34, 0x35, 0x36, 0x37, 0x38, 0x39, 0x61, 0x62, 0x63, 0x64, 0x65, 0x66]
  const UPPER_HEX: Text := [0x30, 0x31, 0x32, 0x33, 0x34, 0x35, 0x36, 0x37, 0x38, 0x39, 0x41, 0x42, 0x43, 0x44, 0x45, 0x46]

  /** The characters that have an escape of two characters, and its letter. */
  const SHORT_ESCAPES: map<CodePoint, CodePoint> := map[
    0x22 := 0x22, 0x5C := 0x5C, 0x2F := 0x2F, 0x08 := 0x62, 0x0C := 0x66, 0x0A := 0x6E, 0x0D := 0x72, 0x09 := 0x74]

  /** A hexadecimal digit, in either case. */
  datatype HexDigitText = Hex(value: int, upper: bool)

  /** The four digits of a code unit. */
  datatype FourDigits = Four(a: HexDigitText, b: HexDigitText, c: HexDigitText, d: HexDigitText)

  /** One character as it may be written: as itself, by its short escape, by the digits of its
      code unit, or by those of its two surrogates. */
  datatype Spelling =
    | Literal(c: CodePoint)
    | Short(c: CodePoint)
    | Escaped(digits: FourDigits)
    | Pair(high: FourDigits, low: FourDigits)

  predicate ProperDigits(f: FourDigits) {
    0 <= f.a.value < 16 && 0 <= f.b.value < 16 && 0 <= f.c.value < 16 && 0 <= f.d.value < 16
  }

  function UnitOf(f: FourDigits): (unit: int)
    requires ProperDigits(f)
    ensures 0 <= unit < 0x10000
  {
    f.a.value * 0x1000 + f.b.value * 0x100 + f.c.value * 0x10 + f.d.value
  }

  predicate Proper(u: Spelling) {
    match u
    case Literal(c) => c >= 0x20 && c != QUOTE && c != BACKSLASH
    case Short(c) => c in SHORT_ESCAPES
    case Escaped(digits) => ProperDigits(digits)
    case Pair(high, low) => ProperDigits(high) && ProperDigits(low) && IsHigh(UnitOf(high)) && IsLow(UnitOf(low))
  }

  function DigitText(d: HexDigitText): CodePoint
    requires 0 <= d.value < 16
  {
    if d.upper then UPPER_HEX[d.value] else LOWER_HEX[d.value]
  }

  function EscapeText(f: FourDigits): (s: Text)
    requires ProperDigits(f)
    ensures |s| == 6
  {
    [BACKSLASH, LOWER_U, DigitText(f.a), DigitText(f.b), DigitText(f.c), DigitText(f.d)]
  }

  function Written(u: Spelling): (s: Text)
    requires Proper(u)
    ensures s != []
  {
    match u
    case Literal(c) => [c]
    case Short(c) => [BACKSLASH, SHORT_ESCAPES[c]]
    case Escaped(digits) => EscapeText(digits)
    case Pair(high, low) => EscapeText(high) + EscapeText(low)
  }

  function CharOf(u: Spelling): CodePoint
    requires Proper(u)
  {
    match u
    case Literal(c) => c
    case Short(c) => c
    case Escaped(digits) => UnitOf(digits)
    case Pair(high, low) => 0x10000 + (UnitOf(high) - 0xD800) * 0x400 + (UnitOf(low) - 0xDC00)
  }

  predicate IsHighEscape(u: Spelling)
    requires Proper(u)
  {
    u.Escaped? && IsHigh(UnitOf(u.digits))
  }

  predicate IsLowEscape(u: Spelling)
    requires Proper(u)
  {
    u.Escaped? && IsLow(UnitOf(u.digits))
  }

  /** Two escapes that make up a pair are one character. */
  predicate ProperAll(units: seq<Spelling>) {
    && (forall i :: 0 <= i < |units| ==> Proper(units[i]))
    && forall i :: 0 <= i < |units| - 1 ==> !(IsHighEscape(units[i]) && IsLowEscape(units[i + 1]))
  }

  function WrittenAll(units: seq<Spelling>): Text
    requires ProperAll(units)
  {
    if units == [] then [] else Written(units[0]) + WrittenAll(units[1..])
  }

  function TextOf(units: seq<Spelling>): (t: Text)
    requires ProperAll(units)
    ensures |t| == |units|
  {
    if units == [] then [] else [CharOf(units[0])] + TextOf(units[1..])
  }

  // -- Every spelling is read ------------------------------------------------------

  lemma DigitReads(d: HexDigitText)
    requires 0 <= d.value < 16
    ensures HexDigit(DigitText(d)) == Some(d.value)
  {
  }

  lemma EscapeReads(f: FourDigits, more: Text)
    requires ProperDigits(f)
    ensures var s := EscapeText(f) + more; UnicodeEscape(s) && Hex4(s[2..6]) == UnitOf(f) && s[6..] == more
  {
    hide HexDigit, DigitText;
    DigitReads(f.a);
    DigitReads(f.b);
    DigitReads(f.c);
    DigitReads(f.d);
    var s := EscapeText(f) + more;
    assert s[2..6] == [DigitText(f.a), DigitText(f.b), DigitText(f.c), DigitText(f.d)] && s[6..] == more;
  }

  /** No escape of a low surrogate opens the text. */
  predicate NoLowOpens(s: Text) { UnicodeEscape(s) ==> !IsLow(Hex4(s[2..6])) }

  lemma UnitReads(u: Spelling, more: Text)
    requires Proper(u) && (IsHighEscape(u) ==> NoLowOpens(more))
    ensures Written(u)[0] != QUOTE && FirstUnit(Written(u) + more) == Unit(CharOf(u), |Written(u)|)
  {
    hide HexDigit, IsHex4, Hex4;
    match u
    case Literal(_) =>
    case Short(c) => ShortReads(c, more);
    case Escaped(digits) => EscapeReads(digits, more);
    case Pair(high, low) => PairReads(high, low, more);
  }

  lemma ShortReads(c: CodePoint, more: Text)
    requires c in SHORT_ESCAPES
    ensures FirstUnit([BACKSLASH, SHORT_ESCAPES[c]] + more) == Unit(c, 2)
    ensures !UnicodeEscape([BACKSLASH, SHORT_ESCAPES[c]] + more)
  {
  }

  lemma PairReads(high: FourDigits, low: FourDigits, more: Text)
    requires Proper(Pair(high, low))
    ensures FirstUnit(EscapeText(high) + EscapeText(low) + more) == Unit(CharOf(Pair(high, low)), 12)
    ensures NoLowOpens(EscapeText(high) + EscapeText(low) + more)
  {
    hide HexDigit, IsHex4, Hex4, EscapeText;
    EscapeReads(high, EscapeText(low) + more);
    EscapeReads(low, more);
    assert EscapeText(high) + EscapeText(low) + more == EscapeText(high) + (EscapeText(low) + more);
  }

  /** What follows a unit opens with the escape of a low surrogate only if the next unit is
      one, or there is no next unit and the text behind does. */
  lemma OpensWithLow(units: seq<Spelling>, more: Text)
    requires ProperAll(units) && (if units == [] then NoLowOpens(more) else !IsLowEscape(units[0]))
    ensures NoLowOpens(WrittenAll(units) + more)
  {
    hide NoLowOpens, Written;
    if units == [] {
      assert WrittenAll(units) + more == more;
    } else {
      var rest := WrittenAll(units[1..]) + more;
      assert WrittenAll(units) + more == Written(units[0]) + rest;
      FirstOpens(units[0], rest);
    }
  }

  lemma FirstOpens(u: Spelling, more: Text)
    requires Proper(u) && !IsLowEscape(u)
    ensures NoLowOpens(Written(u) + more)
  {
    hide HexDigit, IsHex4, Hex4;
    match u
    case Literal(_) =>
    case Short(c) => ShortReads(c, more);
    case Escaped(digits) => EscapeReads(digits, more);
    case Pair(high, low) => PairReads(high, low, more);
  }

  lemma ProperRest(units: seq<Spelling>)
    requires ProperAll(units) && units != []
    ensures Proper(units[0]) && ProperAll(units[1..])
    ensures |units| > 1 ==> !(IsHighEscape(units[0]) && IsLowEscape(units[1]))
  {
  }

  lemma ParseOne(u: Text, c: CodePoint, tail: Text)
    requires u != [] && u[0] != QUOTE && FirstUnit(u + tail) == Unit(c, |u|)
    ensures ParseString(u + tail) == match ParseString(tail) { case Fail => Fail case Ok(v, rest) => Ok([c] + v, rest) }
  {
    assert (u + tail)[|u|..] == tail;
  }

  /** Whatever spellings a text is written in, the decoder reads the text: literal characters,
      short escapes, digits in either case, surrogate pairs. */
  lemma {:induction false} SpellingIsRead(units: seq<Spelling>, more: Text)
    requires ProperAll(units)
    ensures ParseString(WrittenAll(units) + [QUOTE] + more) == Ok(TextOf(units), more)
  {
    hide Written, FirstUnit, NoLowOpens, ProperAll, CharOf;
    if units == [] {
      assert WrittenAll(units) + [QUOTE] + more == [QUOTE] + more;
      assert ([QUOTE] + more)[1..] == more;
    } else {
      ProperRest(units);
      var tail := WrittenAll(units[1..]) + [QUOTE] + more;
      SpellingIsRead(units[1..], more);
      TailOpens(units, more);
      WrittenOne(units, more);
      hide WrittenAll, ParseString;
      UnitReads(units[0], tail);
      ParseOne(Written(units[0]), CharOf(units[0]), tail);
    }
  }

  lemma WrittenOne(units: seq<Spelling>, more: Text)
    requires ProperAll(units) && units != []
    ensures WrittenAll(units) + [QUOTE] + more == Written(units[0]) + (WrittenAll(units[1..]) + [QUOTE] + more)
  {
    hide Written;
  }

  /** A high surrogate's escape is followed by no low one's. */
  lemma TailOpens(units: seq<Spelling>, more: Text)
    requires ProperAll(units) && units != []
    ensures IsHighEscape(units[0]) ==> NoLowOpens(WrittenAll(units[1..]) + [QUOTE] + more)
  {
    hide Written, NoLowOpens, WrittenAll;
    QuoteIsNoLow(more);
    if IsHighEscape(units[0]) {
      OpensWithLow(units[1..], [QUOTE] + more);
      assert WrittenAll(units[1..]) + ([QUOTE] + more) == WrittenAll(units[1..]) + [QUOTE] + more;
    }
  }

  lemma QuoteIsNoLow(more: Text)
    ensures NoLowOpens([QUOTE] + more)
  {
  }

  // -- And nothing else ------------------------------------------------------------

  lemma DigitWritten(c: CodePoint) returns (d: HexDigitText)
    requires HexDigit(c).Some?
    ensures 0 <= d.value < 16 && d.value == HexDigit(c).value && c == DigitText(d)
  {
    d := Hex(HexDigit(c).value, 0x41 <= c <= 0x46);
  }

  lemma EscapeWritten(s: Text) returns (f: FourDigits)
    requires UnicodeEscape(s)
    ensures ProperDigits(f) && UnitOf(f) == Hex4(s[2..6]) && s[..6] == EscapeText(f)
  {
    hide HexDigit, DigitText;
    var a := DigitWritten(s[2]);
    var b := DigitWritten(s[3]);
    var c := DigitWritten(s[4]);
    var d := DigitWritten(s[5]);
    f := Four(a, b, c, d);
    assert s[2..6] == [s[2], s[3], s[4], s[5]];
  }

  lemma UnitWritten(s: Text) returns (u: Spelling)
    requires s != [] && s[0] != QUOTE && FirstUnit(s).Unit?
    ensures Proper(u) && CharOf(u) == FirstUnit(s).c && |Written(u)| == FirstUnit(s).len && Written(u) <= s
    ensures IsHighEscape(u) ==> NoLowOpens(s[|Written(u)|..])
  {
    hide HexDigit, Hex4, IsHex4;
    if UnicodeEscape(s) {
      var f := EscapeWritten(s);
      if FirstUnit(s).len == 12 {
        var next := s[6..];
        var low := EscapeWritten(next);
        assert s[..12] == s[..6] + next[..6];
        u := Pair(f, low);
      } else {
        u := Escaped(f);
      }
    } else if s[0] == BACKSLASH {
      u := Short(SimpleEscape(s[1]).value);
    } else {
      u := Literal(s[0]);
    }
  }

  /** Whatever the decoder reads as a text is one of the text's spellings. */
  lemma {:induction false} ReadIsSpelling(s: Text) returns (units: seq<Spelling>)
    requires ParseString(s).Ok?
    ensures ProperAll(units) && TextOf(units) == ParseString(s).value
    ensures s == WrittenAll(units) + [QUOTE] + ParseString(s).rest
    decreases |s|
  {
    hide Written, FirstUnit, NoLowOpens;
    if s[0] == QUOTE {
      units := [];
      assert s == [QUOTE] + s[1..];
    } else {
      var u := UnitWritten(s);
      var rest := s[|Written(u)|..];
      var others := ReadIsSpelling(rest);
      Prepend(s, u, others, ParseString(rest).rest);
      units := [u] + others;
    }
  }

  lemma Prepend(s: Text, u: Spelling, others: seq<Spelling>, rest: Text)
    requires Proper(u) && ProperAll(others) && Written(u) <= s && s[|Written(u)|..] == WrittenAll(others) + [QUOTE] + rest
    requires IsHighEscape(u) ==> NoLowOpens(s[|Written(u)|..])
    ensures ProperAll([u] + others) && TextOf([u] + others) == [CharOf(u)] + TextOf(others)
    ensures s == WrittenAll([u] + others) + [QUOTE] + rest
  {
    hide Written, NoLowOpens;
    var units := [u] + others;
    assert units[1..] == others;
    if others != [] && IsHighEscape(u) {
      LowOpens(others, [QUOTE] + rest);
      assert WrittenAll(others) + ([QUOTE] + rest) == WrittenAll(others) + [QUOTE] + rest;
    }
    assert s == Written(u) + s[|Written(u)|..];
  }

  lemma LowOpens(units: seq<Spelling>, more: Text)
    requires ProperAll(units) && units != []
    ensures IsLowEscape(units[0]) ==> !NoLowOpens(WrittenAll(units) + more)
  {
    hide Hex4, UnicodeEscape, EscapeText;
    if IsLowEscape(units[0]) {
      ProperRest(units);
      EscapeReads(units[0].digits, WrittenAll(units[1..]) + more);
      assert WrittenAll(units) + more == Written(units[0]) + (WrittenAll(units[1..]) + more);
    }
  }

  /** The decoder and the grammar agree: a text up to its closing quote is read if and only if
      it is a spelling, and it is read as the text it spells. */
  lemma ReadsExactlySpellings(s: Text, t: Text, rest: Text)
    ensures ParseString(s) == Ok(t, rest)
      <==> exists units :: ProperAll(units) && TextOf(units) == t && s == WrittenAll(units) + [QUOTE] + rest
  {
    hide ParseString, WrittenAll, TextOf, ProperAll;
    if ParseString(s) == Ok(t, rest) {
      var units := ReadIsSpelling(s);
    }
    forall units | ProperAll(units) && TextOf(units) == t && s == WrittenAll(units) + [QUOTE] + rest ensures ParseString(s) == Ok(t, rest) {
      SpellingIsRead(units, rest);
    }
  }

  // -- The extractor ---------------------------------------------------------------

  /** No surrogate is escaped on its own before the place for its low half is known. */
  predicate NoHighEscape(units: seq<Spelling>)
    requires ProperAll(units)
  {
    forall i :: 0 <= i < |units| ==> !IsHighEscape(units[i])
  }

  lemma UnitIsScanned(u: Spelling, more: Text, int16: HexReader)
    requires ReadsHex(int16) && Proper(u) && !IsHighEscape(u)
    ensures Scan(Written(u) + more, int16) == Passed(|Written(u)|)
    ensures FirstUnit(Written(u)) == Unit(CharOf(u), |Written(u)|)
  {
    hide HexDigit, Hex4, IsHex4, EscapeText;
    assert Written(u) + [] == Written(u);
    UnitReads(u, []);
    match u
    case Literal(_) =>
    case Short(c) => assert (Written(u) + more)[1] == SHORT_ESCAPES[c];
    case Escaped(digits) => EscapeIsScanned(digits, more, int16);
    case Pair(high, low) => PairIsScanned(high, low, more, int16);
  }

  lemma EscapeIsScanned(f: FourDigits, more: Text, int16: HexReader)
    requires ReadsHex(int16) && ProperDigits(f)
    ensures var s := EscapeText(f) + more;
      |s| >= 6 && s[0] == BACKSLASH && s[1] == LOWER_U && int16(s[2..6]) == Some(UnitOf(f)) && s[6..] == more
  {
    hide HexDigit, Hex4, EscapeText;
    EscapeReads(f, more);
  }

  lemma PairIsScanned(high: FourDigits, low: FourDigits, more: Text, int16: HexReader)
    requires ReadsHex(int16) && Proper(Pair(high, low))
    ensures Scan(EscapeText(high) + EscapeText(low) + more, int16) == Passed(12)
  {
    hide HexDigit, Hex4, IsHex4, EscapeText;
    EscapeIsScanned(high, EscapeText(low) + more, int16);
    EscapeIsScanned(low, more, int16);
    var s, next := EscapeText(high) + (EscapeText(low) + more), EscapeText(low) + more;
    assert EscapeText(high) + EscapeText(low) + more == s;
    assert s[6] == next[0] && s[7] == next[1] && s[8..12] == next[2..6];
  }

  /** The extractor reads every spelling as the text too, whatever comes behind it. */
  lemma {:induction false} SpellingIsPreviewed(units: seq<Spelling>, more: Text, int16: HexReader)
    requires ReadsHex(int16) && ProperAll(units) && NoHighEscape(units)
    ensures Preview(WrittenAll(units) + more, int16)
      == match Preview(more, int16) { case Some(t) => Some(TextOf(units) + t) case None => None }
  {
    hide Written, FirstUnit, ReadsHex, Scan, ProperAll, NoHighEscape, Preview;
    if units == [] {
      assert WrittenAll(units) + more == more;
      assert Preview(more, int16).Some? ==> TextOf(units) + Preview(more, int16).value == Preview(more, int16).value;
    } else {
      ProperRest(units);
      RestHasNoHighEscape(units);
      SpellingIsPreviewed(units[1..], more, int16);
      var tail := WrittenAll(units[1..]) + more;
      UnitIsScanned(units[0], tail, int16);
      PreviewOne(Written(units[0]), CharOf(units[0]), tail, int16);
      assert WrittenAll(units) + more == Written(units[0]) + tail;
      if Preview(more, int16).Some? {
        Associate([CharOf(units[0])], TextOf(units[1..]), Preview(more, int16).value);
      }
    }
  }

  lemma RestHasNoHighEscape(units: seq<Spelling>)
    requires ProperAll(units) && NoHighEscape(units) && units != []
    ensures ProperAll(units[1..]) && NoHighEscape(units[1..]) && Proper(units[0]) && !IsHighEscape(units[0])
  {
  }

  lemma PreviewOne(u: Text, c: CodePoint, tail: Text, int16: HexReader)
    requires u != [] && Scan(u + tail, int16) == Passed(|u|) && FirstUnit(u) == Unit(c, |u|)
    ensures Preview(u + tail, int16) == match Preview(tail, int16) { case Some(t) => Some([c] + t) case None => None }
  {
    hide Scan, FirstUnit;
    assert (u + tail)[..|u|] == u && (u + tail)[|u|..] == tail;
  }

  // -- Upper and lower case --------------------------------------------------------

  predicate SameDigits(f: FourDigits, g: FourDigits) {
    f.a.value == g.a.value && f.b.value == g.b.value && f.c.value == g.c.value && f.d.value == g.d.value
  }

  /** The same spelling, but for the case of its digits. */
  predicate SameButCase(u: Spelling, v: Spelling) {
    match u
    case Escaped(digits) => v.Escaped? && SameDigits(digits, v.digits)
    case Pair(high, low) => v.Pair? && SameDigits(high, v.high) && SameDigits(low, v.low)
    case _ => u == v
  }

  /** Folding the case of the digits changes neither what the decoder reads nor what the
      extractor answers, at any place of a body. */
  lemma CaseIsIgnored(units: seq<Spelling>, folded: seq<Spelling>, more: Text, int16: HexReader)
    requires ProperAll(units) && |folded| == |units| && forall i :: 0 <= i < |units| ==> SameButCase(units[i], folded[i])
    ensures ProperAll(folded) && TextOf(folded) == TextOf(units)
    ensures ParseString(WrittenAll(folded) + [QUOTE] + more) == ParseString(WrittenAll(units) + [QUOTE] + more)
    ensures ReadsHex(int16) ==> Preview(WrittenAll(folded) + more, int16) == Preview(WrittenAll(units) + more, int16)
  {
    hide ParseString, Preview, ReadsHex, Written, WrittenAll;
    SameText(units, folded);
    SpellingIsRead(units, more);
    SpellingIsRead(folded, more);
    if ReadsHex(int16) {
      PreviewFolds(units, folded, more, int16);
    }
  }

  /** A surrogate that is escaped on its own holds the extractor up at any further unit. */
  lemma HighIsHeld(high: FourDigits, next: Spelling, more: Text, int16: HexReader)
    requires ReadsHex(int16) && ProperDigits(high) && IsHigh(UnitOf(high)) && Proper(next) && !IsLowEscape(next)
    ensures Preview(EscapeText(high) + (Written(next) + more), int16) == Some([])
  {
    hide HexDigit, Hex4, IsHex4, EscapeText;
    var tail := Written(next) + more;
    var s := EscapeText(high) + tail;
    EscapeIsScanned(high, tail, int16);
    assert |s| >= 12 ==> s[6] == tail[0] && s[7] == tail[1] && s[8..12] == tail[2..6];
    match next
    case Literal(c) => assert tail[0] == c;
    case Short(c) => assert tail[1] == SHORT_ESCAPES[c];
    case Escaped(digits) => EscapeIsScanned(digits, more, int16);
    case Pair(first, second) =>
      assert tail == EscapeText(first) + (EscapeText(second) + more);
      EscapeIsScanned(first, EscapeText(second) + more, int16);
  }

  /** At the end of what is folded, the answer depends on the value of its digits. */
  lemma EscapeFolds(f: FourDigits, g: FourDigits, more: Text, int16: HexReader)
    requires ReadsHex(int16) && ProperDigits(f) && SameDigits(f, g) && IsHigh(UnitOf(f))
    ensures Preview(EscapeText(g) + more, int16) == Preview(EscapeText(f) + more, int16)
  {
    hide HexDigit, Hex4, IsHex4, EscapeText;
    var s, t := EscapeText(f) + more, EscapeText(g) + more;
    EscapeIsScanned(f, more, int16);
    EscapeIsScanned(g, more, int16);
    if |more| >= 6 {
      assert s[8..12] == more[2..6] && t[8..12] == more[2..6] && s[6] == t[6] == more[0] && s[7] == t[7] == more[1];
      assert s[..12] == EscapeText(f) + more[..6] && t[..12] == EscapeText(g) + more[..6];
      EscapeReads(f, more[..6]);
      EscapeReads(g, more[..6]);
      assert s[12..] == more[6..] && t[12..] == more[6..];
    }
  }

  lemma {:induction false} PreviewFolds(units: seq<Spelling>, folded: seq<Spelling>, more: Text, int16: HexReader)
    requires ReadsHex(int16) && ProperAll(units) && ProperAll(folded)
    requires |folded| == |units| && forall i :: 0 <= i < |units| ==> SameButCase(units[i], folded[i])
    ensures Preview(WrittenAll(folded) + more, int16) == Preview(WrittenAll(units) + more, int16)
  {
    hide Written, EscapeText, ReadsHex, ProperAll, Preview, SameDigits;
    if units != [] {
      ProperRest(units);
      ProperRest(folded);
      PreviewFolds(units[1..], folded[1..], more, int16);
      WrittenBefore(units, more);
      WrittenBefore(folded, more);
      FirstFolds(units, folded, more, int16);
    }
  }

  lemma WrittenBefore(units: seq<Spelling>, more: Text)
    requires ProperAll(units) && units != []
    ensures WrittenAll(units) + more == Written(units[0]) + (WrittenAll(units[1..]) + more)
  {
    hide Written;
  }

  lemma FirstFolds(units: seq<Spelling>, folded: seq<Spelling>, more: Text, int16: HexReader)
    requires ReadsHex(int16) && ProperAll(units) && ProperAll(folded) && units != []
    requires |folded| == |units| && forall i :: 0 <= i < |units| ==> SameButCase(units[i], folded[i])
    requires Preview(WrittenAll(folded[1..]) + more, int16) == Preview(WrittenAll(units[1..]) + more, int16)
    ensures Preview(Written(folded[0]) + (WrittenAll(folded[1..]) + more), int16)
      == Preview(Written(units[0]) + (WrittenAll(units[1..]) + more), int16)
  {
    ProperRest(units);
    ProperRest(folded);
    SameUnit(units[0], folded[0]);
    hide WrittenAll, EscapeText, ReadsHex, ProperAll, Preview, FirstUnit, Scan;
    var tail, foldedTail := WrittenAll(units[1..]) + more, WrittenAll(folded[1..]) + more;
    if !IsHighEscape(units[0]) {
      UnitIsScanned(units[0], tail, int16);
      UnitIsScanned(folded[0], foldedTail, int16);
      PreviewOne(Written(units[0]), CharOf(units[0]), tail, int16);
      PreviewOne(Written(folded[0]), CharOf(folded[0]), foldedTail, int16);
    } else if |units| == 1 {
      NothingWritten(units[1..]);
      NothingWritten(folded[1..]);
      assert [] + more == more;
      EscapeFolds(units[0].digits, folded[0].digits, more, int16);
    } else {
      SecondProper(units);
      SecondProper(folded);
      SameUnit(units[1], folded[1]);
      WrittenBefore(units[1..], more);
      WrittenBefore(folded[1..], more);
      HighIsHeld(units[0].digits, units[1], WrittenAll(units[2..]) + more, int16);
      HighIsHeld(folded[0].digits, folded[1], WrittenAll(folded[2..]) + more, int16);
    }
  }

  lemma NothingWritten(units: seq<Spelling>)
    requires units == []
    ensures ProperAll(units) && WrittenAll(units) == []
  {
  }

  lemma SecondProper(units: seq<Spelling>)
    requires ProperAll(units) && |units| > 1
    ensures ProperAll(units[1..]) && Proper(units[1]) && units[1..][0] == units[1] && units[1..][1..] == units[2..] && ProperAll(units[2..])
  {
  }

  lemma SameUnit(u: Spelling, v: Spelling)
    requires Proper(u) && SameButCase(u, v)
    ensures Proper(v) && CharOf(v) == CharOf(u) && IsHighEscape(v) == IsHighEscape(u) && IsLowEscape(v) == IsLowEscape(u)
  {
  }

  lemma {:induction false} SameText(units: seq<Spelling>, folded: seq<Spelling>)
    requires ProperAll(units) && |folded| == |units| && forall i :: 0 <= i < |units| ==> SameButCase(units[i], folded[i])
    ensures ProperAll(folded) && TextOf(folded) == TextOf(units)
  {
    forall i | 0 <= i < |units|
      ensures Proper(folded[i]) && IsHighEscape(folded[i]) == IsHighEscape(units[i]) && IsLowEscape(folded[i]) == IsLowEscape(units[i])
      ensures CharOf(folded[i]) == CharOf(units[i])
    {
      SameUnit(units[i], folded[i]);
    }
    hide Proper, CharOf, IsHighEscape, IsLowEscape, SameButCase;
    if units != [] {
      ProperRest(units);
      SameText(units[1..], folded[1..]);
    }
  }
}
