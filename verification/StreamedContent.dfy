/** What the extractor guarantees while a reply grows, and on the reply as a whole
    (backend/app/ai/context.py). */
module StreamedContent {
  import opened Unicode
  import opened Wrappers
  import opened Surrogates
  import opened Json
  import opened JsonDump
  import opened Extractor
  import opened Completion
  import JsonStrings
  import JsonSyntax

  // -- The extractor on growing buffers --------------------------------------------

  lemma {:induction false} AfterKeyStable(s: Text, more: Text)
    requires AfterKey(s).Some?
    ensures AfterKey(s + more) == Some(AfterKey(s).value + more)
  {
    if CONTENT_KEY <= s {
      assert (s + more)[9..] == s[9..] + more;
    } else {
      assert (s + more)[1..] == s[1..] + more;
      AfterKeyStable(s[1..], more);
      if CONTENT_KEY <= s + more { KeyNeedsRoom(s, more); }
    }
  }

  lemma KeyNeedsRoom(s: Text, more: Text)
    requires AfterKey(s).Some? && CONTENT_KEY <= s + more
    ensures CONTENT_KEY <= s
  {
    if |s| < 9 {
      NoKeyInShort(s);
    } else {
      assert (s + more)[..9] == s[..9];
    }
  }

  lemma {:induction false} AfterColonStable(s: Text, more: Text)
    requires AfterColon(s).Some?
    ensures AfterColon(s + more) == Some(AfterColon(s).value + more)
  {
    assert (s + more)[1..] == s[1..] + more;
    if s[0] != COLON {
      AfterColonStable(s[1..], more);
    }
  }

  /** Once the value has been located, more input does not move it. */
  lemma LocateStable(b: Text, more: Text)
    requires Locate(b).Some?
    ensures Locate(b + more) == Some(Locate(b).value + more)
  {
    var text := LStrip(b);
    LStripStable(b, more);
    AfterKeyStable(text, more);
    var afterKey := AfterKey(text).value;
    AfterColonStable(afterKey, more);
    var value := LStrip(AfterColon(afterKey).value);
    LStripStable(AfterColon(afterKey).value, more);
    assert (value + more)[1..] == value[1..] + more;
  }

  lemma {:induction false} LStripNoHigh(s: Text)
    requires NoHigh(s)
    ensures NoHigh(LStrip(s))
  {
    if s != [] && IsSpace(s[0]) { LStripNoHigh(s[1..]); }
  }

  lemma {:induction false} AfterKeyNoHigh(s: Text)
    requires NoHigh(s)
    ensures AfterKey(s).Some? ==> NoHigh(AfterKey(s).value)
  {
    if s != [] && !(CONTENT_KEY <= s) { AfterKeyNoHigh(s[1..]); }
  }

  lemma {:induction false} AfterColonNoHigh(s: Text)
    requires NoHigh(s)
    ensures AfterColon(s).Some? ==> NoHigh(AfterColon(s).value)
  {
    if s != [] && s[0] != COLON { AfterColonNoHigh(s[1..]); }
  }

  lemma LocateNoHigh(b: Text)
    requires NoHigh(b) && Locate(b).Some?
    ensures NoHigh(Locate(b).value)
  {
    var text := LStrip(b);
    LStripNoHigh(b);
    AfterKeyNoHigh(text);
    AfterColonNoHigh(AfterKey(text).value);
    LStripNoHigh(AfterColon(AfterKey(text).value).value);
  }

  /** The text decoded so far, before its surrogates are repaired. */
  function Decoded(buffer: Text, int16: HexReader): (r: Option<Text>)
    ensures Extract(buffer, int16) == match r { case Some(t) => Some(Repair(t)) case None => None }
  {
    match Locate(buffer) case None => None case Some(body) => Preview(body, int16)
  }

  /** `t` goes on with the low half of a pair whose high half `p` ends in. */
  predicate Tears(p: Text, t: Text) { p <= t && SplitsPair(p, t[|p|..]) }

  lemma RepairOfPrefix(p: Text, t: Text)
    requires p <= t
    ensures |Repair(p)| <= |Repair(t)| && forall i :: 0 <= i < |Repair(p)| - 1 ==> Repair(p)[i] == Repair(t)[i]
    ensures Repair(p) <= Repair(t) <==> !Tears(p, t)
    ensures Tears(p, t) ==> Repair(p) != [] && Repair(p)[|Repair(p)| - 1] == REPLACEMENT != Repair(t)[|Repair(p)| - 1]
  {
    hide Repair;
    var w := t[|p|..];
    assert t == p + w;
    RepairContinues(p, w);
  }

  /** A longer text repairs to no more only when all it adds is the missing half of a pair. */
  lemma CompletedPair(p: Text, t: Text)
    requires p < t && |Repair(p)| == |Repair(t)|
    ensures Tears(p, t) && !IsHigh(t[|t| - 1])
  {
    var w := t[|p|..];
    assert t == p + w;
    RepairPiecewise(p, w);
    RepairIsSome(w);
    if |w| > 1 && !IsHigh(w[0]) {
      RepairIsSome(w[1..]);
    }
  }

  /** So different stretches of one text are never repaired to the same. */
  lemma RepairTellsApart(p: Text, t: Text)
    requires p <= t && Repair(p) == Repair(t)
    ensures p == t
  {
    hide Repair;
    if p < t {
      CompletedPair(p, t);
      RepairOfPrefix(p, t);
      assert false;
    }
  }

  lemma RepairIsSome(w: Text)
    ensures w != [] ==> Repair(w) != []
  {
  }

  lemma NoHighTearsNothing(p: Text, t: Text)
    requires NoHigh(p)
    ensures !Tears(p, t)
  {
  }

  /** How the extractor's answers for a growing buffer are related: what it has decoded only
      grows, and the first answer is a prefix of the second if and only if no surrogate pair
      is torn between them. */
  lemma ExtractGrowsIff(b: Text, more: Text, int16: HexReader)
    requires Extract(b, int16).Some? && Extract(b + more, int16).Some?
    ensures Decoded(b, int16).Some? && Decoded(b + more, int16).Some?
    ensures
      var p, q := Decoded(b, int16).value, Decoded(b + more, int16).value;
      p <= q && (Extract(b, int16).value <= Extract(b + more, int16).value <==> !Tears(p, q))
  {
    LocateStable(b, more);
    PreviewGrows(Locate(b).value, more, int16);
    RepairOfPrefix(Decoded(b, int16).value, Decoded(b + more, int16).value);
  }

  lemma DecodedNoHigh(b: Text, int16: HexReader)
    requires ReadsHex(int16) && NoHigh(b) && Decoded(b, int16).Some?
    ensures NoHigh(Decoded(b, int16).value)
  {
    LocateNoHigh(b);
    PreviewNoHigh(Locate(b).value, int16);
  }

  /** The extractor is prefix-monotone on text without raw high surrogates: what it answers
      for a buffer is a prefix of what it answers for any longer buffer, whatever it answered
      in between. */
  lemma ExtractGrows(b: Text, more: Text, int16: HexReader)
    requires ReadsHex(int16) && NoHigh(b)
    requires Extract(b, int16).Some? && Extract(b + more, int16).Some?
    ensures Extract(b, int16).value <= Extract(b + more, int16).value
  {
    ExtractGrowsIff(b, more, int16);
    DecodedNoHigh(b, int16);
    NoHighTearsNothing(Decoded(b, int16).value, Decoded(b + more, int16).value);
  }

  /** For every prefix of a reply within the contract, what has been decoded is a prefix of
      the parsed text, and the extraction is a prefix of the content if and only if no
      surrogate pair is torn at the end of the prefix. */
  lemma ExtractPrecedesIff(b: Text, more: Text, int16: HexReader)
    requires ReadsHex(int16) && WithinContract(b + more)
    requires EnvelopeContent(b + more).Some? && Extract(b, int16).Some?
    ensures Decoded(b, int16).Some?
    ensures
      var p, t := Decoded(b, int16).value, EnvelopeContent(b + more).value.0;
      p <= t && (Extract(b, int16).value <= Repair(t) <==> !Tears(p, t))
  {
    LStripStable(b, more);
    LocateStable(b, more);
    LocateAgrees(b + more);
    PreviewPrecedesValue(Locate(b).value, more, int16);
    RepairOfPrefix(Decoded(b, int16).value, EnvelopeContent(b + more).value.0);
  }

  /** Every prefix of a reply within the contract extracts to nothing or to a prefix of
      the content the full parser returns. */
  lemma ExtractPrecedesContent(b: Text, more: Text, int16: HexReader)
    requires ReadsHex(int16) && NoHigh(b) && WithinContract(b + more)
    requires EnvelopeContent(b + more).Some? && Extract(b, int16).Some?
    ensures Extract(b, int16).value <= ParseCompletion(b + more).content
  {
    ExtractPrecedesIff(b, more, int16);
    DecodedNoHigh(b, int16);
    NoHighTearsNothing(Decoded(b, int16).value, EnvelopeContent(b + more).value.0);
  }

  /** The complete envelope extracts to exactly the parsed content if and only if every
      high-surrogate escape in it is paired. */
  lemma ExtractOfWhole(raw: Text, int16: HexReader)
    requires ReadsHex(int16) && NoHigh(raw) && WithinContract(raw)
    requires EnvelopeContent(raw).Some? && Locate(raw).Some?
    ensures Extract(raw, int16) == Some(ParseCompletion(raw).content) <==> NoHigh(EnvelopeContent(raw).value.0)
  {
    var t := EnvelopeContent(raw).value.0;
    var body := Locate(raw).value;
    LocateAgrees(raw);
    LocateNoHigh(raw);
    PreviewOfWhole(body, int16);
    if Preview(body, int16).Some? {
      assert body + [] == body;
      PreviewPrecedesValue(body, [], int16);
      if Repair(Preview(body, int16).value) == Repair(t) {
        RepairTellsApart(Preview(body, int16).value, t);
      }
    }
  }

  // -- The escaped envelope --------------------------------------------------------

  /** The reply a model that obeys the prompt writes for `t`. */
  function Envelope(t: Text, target: Json, style: Style): Text
    requires Scalar(t) && Plain(target)
  {
    Dump(EnvelopeOf(t, target), style)
  }

  function EnvelopeOf(t: Text, target: Json): (j: Json)
    requires Scalar(t) && Plain(target)
    ensures Plain(j)
  {
    Obj([Member(CONTENT, Str(t)), Member(REPLY_TO_ID, target)])
  }

  /** Escaping any text into an envelope and extracting it again is the identity, in
      ASCII-escaped and in literal spelling; the full parser agrees. */
  lemma EnvelopeExtracts(t: Text, target: Json, style: Style, int16: HexReader)
    requires ReadsHex(int16) && Scalar(t) && (target.Null? || target.Int?) && Plain(target)
    ensures Extract(Envelope(t, target, style), int16) == Some(t)
    ensures !Blank(t) ==>
      ParseCompletion(Envelope(t, target, style)) == Reply(t, if target.Int? && target.n > 0 then Some(target.n) else None)
  {
    LocateInEnvelope(t, target, style);
    DumpNoHigh(EnvelopeOf(t, target), style);
    hide Dump, Locate, ReadsHex, ParseCompletion;
    PreviewOfWhole(Locate(Envelope(t, target, style)).value, int16);
    RepairKeepsScalar(t);
    if !Blank(t) {
      EnvelopeReads(t, target, style);
    }
  }

  lemma EnvelopeReads(t: Text, target: Json, style: Style)
    requires Scalar(t) && (target.Null? || target.Int?) && Plain(target) && !Blank(t)
    ensures ParseCompletion(Envelope(t, target, style)) == Reply(t, if target.Int? && target.n > 0 then Some(target.n) else None)
  {
    var raw := Envelope(t, target, style);
    LoadsDump(EnvelopeOf(t, target), style);
    assert LStrip(raw) == raw && Opens(raw, LEFT_BRACE);
    hide Dump, Loads;
    RepairKeepsScalar(t);
    EnvelopeFields(t, target);
  }

  lemma EnvelopeFields(t: Text, target: Json)
    requires Scalar(t) && Plain(target)
    ensures Get(EnvelopeOf(t, target).members, CONTENT) == Some(Str(t))
    ensures Get(EnvelopeOf(t, target).members, REPLY_TO_ID) == Some(target)
  {
    var members := EnvelopeOf(t, target).members;
    assert members[..1] == [members[0]];
    assert CONTENT[0] != REPLY_TO_ID[0];
  }

  lemma LocateInEnvelope(t: Text, target: Json, style: Style)
    requires Scalar(t) && Plain(target)
    ensures var located := Locate(Envelope(t, target, style));
      located.Some? && ParseString(located.value).Ok? && ParseString(located.value).value == t
  {
    LocateInObject(t, Member(REPLY_TO_ID, target), style);
  }

  lemma LocateInObject(t: Text, second: Member, style: Style)
    requires Scalar(t) && Scalar(second.key) && Plain(second.value)
    ensures var located := Locate(Dump(Obj([Member(CONTENT, Str(t)), second]), style));
      located.Some? && ParseString(located.value).Ok? && ParseString(located.value).value == t
  {
    var body := ObjectShape(t, second, style);
    LocateBehindKey(Gap(style), body);
  }

  /** The located value, for a buffer that opens with the key. */
  lemma LocateBehindKey(gap: Text, body: Text)
    requires gap == [] || gap == [SPACE]
    ensures Locate([LEFT_BRACE] + (CONTENT_KEY + ([COLON] + (gap + ([QUOTE] + body))))) == Some(body)
  {
    hide Locate;
    LocateBehindOpening([], [], [], gap, body);
    assert Opening([], [], [], gap) + body == [LEFT_BRACE] + (CONTENT_KEY + ([COLON] + (gap + ([QUOTE] + body))));
  }

  lemma ObjectShape(t: Text, second: Member, style: Style) returns (body: Text)
    requires Scalar(t) && Scalar(second.key) && Plain(second.value)
    ensures Dump(Obj([Member(CONTENT, Str(t)), second]), style) ==
      [LEFT_BRACE] + (CONTENT_KEY + ([COLON] + (Gap(style) + ([QUOTE] + body))))
    ensures ParseString(body).Ok? && ParseString(body).value == t
  {
    var tail := [COMMA] + Gap(style) + (DumpMember(second, style) + [RIGHT_BRACE]);
    DumpOfTwo(Member(CONTENT, Str(t)), second, style);
    body := QuotedRoundTrip(t, style, tail);
    KeyIsQuoted(style);
    Regroup(CONTENT_KEY, Gap(style), Quoted(t, style), tail);
  }

  lemma DumpOfTwo(a: Member, b: Member, style: Style)
    requires Scalar(a.key) && Plain(a.value) && Scalar(b.key) && Plain(b.value)
    ensures Plain(Obj([a, b]))
    ensures Dump(Obj([a, b]), style) ==
      [LEFT_BRACE] + (DumpMember(a, style) + ([COMMA] + Gap(style) + (DumpMember(b, style) + [RIGHT_BRACE])))
  {
    assert [a, b][1..] == [b];
    assert DumpMembers([b], style) == DumpMember(b, style) + [RIGHT_BRACE];
    assert DumpMembers([a, b], style) == DumpMember(a, style) + ([COMMA] + Gap(style) + DumpMembers([b], style));
  }

  lemma SpaceBeforeQuote(gap: Text, s: Text)
    requires gap == [] || gap == [SPACE]
    requires Opens(s, QUOTE)
    ensures LStrip(gap + s) == s
  {
    if gap == [] { assert gap + s == s; } else { assert (gap + s)[1..] == s; }
  }

  lemma KeyIsQuoted(style: Style)
    ensures Quoted(CONTENT, style) == CONTENT_KEY
  {
    hide Escape;
    PlainEscape(CONTENT, style.ascii);
  }

  lemma {:induction false} PlainEscape(t: Text, ascii: bool)
    requires forall i :: 0 <= i < |t| ==> 0x20 <= t[i] < 0x7F && t[i] != QUOTE && t[i] != BACKSLASH
    ensures Escape(t, ascii) == t
  {
    if t != [] {
      PlainEscape(t[1..], ascii);
    }
  }

  lemma DumpNoHigh(j: Json, style: Style)
    requires Plain(j)
    ensures NoHigh(Dump(j, style))
    ensures Locate(Dump(j, style)).Some? ==> NoHigh(Locate(Dump(j, style)).value)
  {
    hide Locate, Dump;
    DumpIsPrintable(j, style);
    if Locate(Dump(j, style)).Some? {
      LocateNoHigh(Dump(j, style));
    }
  }

  // -- Any spelling ----------------------------------------------------------------

  lemma {:induction false} GapIsStripped(gap: Text, s: Text)
    requires JsonSyntax.Space(gap) && s != [] && !IsSpace(s[0])
    ensures LStrip(gap + s) == s
  {
    if gap == [] {
      assert gap + s == s;
    } else {
      assert (gap + s)[1..] == gap[1..] + s;
      GapIsStripped(gap[1..], s);
    }
  }

  lemma GapHidesNothing(gap: Text, s: Text)
    requires JsonSyntax.Space(gap)
    ensures AfterKey(gap + s) == AfterKey(s) && AfterColon(gap + s) == AfterColon(s)
  {
    NoQuoteNoKey(gap + s, |gap|);
    NoColonSkip(gap + s, |gap|);
    assert (gap + s)[|gap|..] == s;
  }

  /** The envelope up to the content, with white space wherever it may stand. */
  function Opening(lead: Text, beforeKey: Text, beforeColon: Text, afterColon: Text): Text {
    lead + ([LEFT_BRACE] + (beforeKey + (CONTENT_KEY + (beforeColon + ([COLON] + (afterColon + [QUOTE]))))))
  }

  /** The content is located however the envelope before it is laid out. */
  lemma LocateBehindOpening(lead: Text, beforeKey: Text, beforeColon: Text, afterColon: Text, body: Text)
    requires JsonSyntax.Space(lead) && JsonSyntax.Space(beforeKey) && JsonSyntax.Space(beforeColon) && JsonSyntax.Space(afterColon)
    ensures Locate(Opening(lead, beforeKey, beforeColon, afterColon) + body) == Some(body)
  {
    hide AfterKey, AfterColon, LStrip;
    var value := [QUOTE] + body;
    var colon := [COLON] + (afterColon + value);
    var key := CONTENT_KEY + (beforeColon + colon);
    var inner := [LEFT_BRACE] + (beforeKey + key);
    assert Opening(lead, beforeKey, beforeColon, afterColon) + body == lead + inner;
    GapIsStripped(lead, inner);
    NoQuoteNoKey(inner, 1);
    assert inner[1..] == beforeKey + key;
    GapHidesNothing(beforeKey, key);
    KeyIsFound(beforeColon + colon);
    GapHidesNothing(beforeColon, colon);
    ColonIsFound(afterColon + value);
    GapIsStripped(afterColon, value);
    assert value[1..] == body;
  }

  lemma KeyIsFound(rest: Text)
    ensures AfterKey(CONTENT_KEY + rest) == Some(rest)
  {
    assert (CONTENT_KEY + rest)[9..] == rest;
  }

  lemma ColonIsFound(rest: Text)
    ensures AfterColon([COLON] + rest) == Some(rest)
  {
    assert ([COLON] + rest)[1..] == rest;
  }

  /** Whatever the layout of the envelope, and in whatever spelling its content is written:
      literal, short escapes, digits in either case, pairs. What the extractor answers is the
      text, before the closing quote has arrived as well as after it. */
  lemma SpellingExtracts(lead: Text, beforeKey: Text, beforeColon: Text, afterColon: Text, units: seq<JsonStrings.Spelling>,
                         more: Text, int16: HexReader)
    requires ReadsHex(int16) && JsonSyntax.Space(lead) && JsonSyntax.Space(beforeKey) && JsonSyntax.Space(beforeColon) && JsonSyntax.Space(afterColon)
    requires JsonStrings.ProperAll(units) && JsonStrings.NoHighEscape(units)
    ensures
      var opening, body := Opening(lead, beforeKey, beforeColon, afterColon), JsonStrings.WrittenAll(units);
      && Extract(opening + body, int16) == Some(Repair(JsonStrings.TextOf(units)))
      && Extract(opening + (body + ([QUOTE] + more)), int16) == Some(Repair(JsonStrings.TextOf(units)))
  {
    hide Locate, Preview, Opening, JsonStrings.WrittenAll, JsonStrings.TextOf, ReadsHex, Repair, JsonSyntax.Space;
    var body := JsonStrings.WrittenAll(units);
    LocateBehindOpening(lead, beforeKey, beforeColon, afterColon, body);
    LocateBehindOpening(lead, beforeKey, beforeColon, afterColon, body + ([QUOTE] + more));
    NothingPreviewed(more, int16);
    JsonStrings.SpellingIsPreviewed(units, [], int16);
    JsonStrings.SpellingIsPreviewed(units, [QUOTE] + more, int16);
    assert body + [] == body && JsonStrings.TextOf(units) + [] == JsonStrings.TextOf(units);
  }

  lemma NothingPreviewed(more: Text, int16: HexReader)
    ensures Preview([], int16) == Some([]) && Preview([QUOTE] + more, int16) == Some([])
  {
  }

  /** And the case of an escape's digits changes no answer, wherever the buffer ends. */
  lemma CaseIsIgnored(lead: Text, beforeKey: Text, beforeColon: Text, afterColon: Text, units: seq<JsonStrings.Spelling>,
                      folded: seq<JsonStrings.Spelling>, more: Text, int16: HexReader)
    requires ReadsHex(int16) && JsonSyntax.Space(lead) && JsonSyntax.Space(beforeKey) && JsonSyntax.Space(beforeColon) && JsonSyntax.Space(afterColon)
    requires JsonStrings.ProperAll(units)
    requires |folded| == |units| && forall i :: 0 <= i < |units| ==> JsonStrings.SameButCase(units[i], folded[i])
    ensures JsonStrings.ProperAll(folded)
    ensures
      var opening := Opening(lead, beforeKey, beforeColon, afterColon);
      Extract(opening + (JsonStrings.WrittenAll(folded) + more), int16) == Extract(opening + (JsonStrings.WrittenAll(units) + more), int16)
  {
    hide Locate, Preview, Opening, JsonStrings.WrittenAll, JsonStrings.TextOf, ReadsHex, Repair, JsonSyntax.Space, ParseString;
    JsonStrings.CaseIsIgnored(units, folded, more, int16);
    LocateBehindOpening(lead, beforeKey, beforeColon, afterColon, JsonStrings.WrittenAll(units) + more);
    LocateBehindOpening(lead, beforeKey, beforeColon, afterColon, JsonStrings.WrittenAll(folded) + more);
  }

  // -- Where the conditions bite ---------------------------------------------------

  /** The smallest buffer that tears a pair, one raw (unescaped) high surrogate: the next code
      point keeps the first answer a prefix of the second exactly when it is not the low
      half that would complete the pair. */
  lemma RawHighSurrogate(high: CodePoint, next: CodePoint, int16: HexReader)
    requires IsHigh(high) && next >= 0x20 && next != QUOTE && next != BACKSLASH
    ensures
      var b := [LEFT_BRACE] + (CONTENT_KEY + ([COLON] + ([QUOTE, high])));
      Extract(b, int16) == Some([REPLACEMENT]) && Extract(b + [next], int16).Some?
      && (Extract(b, int16).value <= Extract(b + [next], int16).value <==> !IsLow(next))
  {
    var b := [LEFT_BRACE] + (CONTENT_KEY + ([COLON] + ([QUOTE, high])));
    assert [QUOTE, high] == [] + ([QUOTE] + [high]);
    LocateBehindKey([], [high]);
    LocateStable(b, [next]);
    var body: Text := [high];
    assert body + [next] == [high, next];
    PreviewOfRawPair(high, next, int16);
    RepairOne(high);
    RepairOne(next);
    if IsLow(next) {
      assert [high, next][2..] == [];
      assert Repair([high, next]) == [Combine(high, next)];
      assert Extract(b, int16).value[0] == REPLACEMENT && Extract(b + [next], int16).value[0] != REPLACEMENT;
    } else {
      RepairPiecewise([high], [next]);
      assert [high] + [next] == [high, next];
    }
  }

  lemma RepairOne(c: CodePoint)
    ensures Repair([c]) == [if IsSurrogate(c) then REPLACEMENT else c]
  {
    assert [c][1..] == [];
  }

  lemma PreviewOfOne(c: CodePoint, int16: HexReader)
    requires c >= 0x20 && c != QUOTE && c != BACKSLASH
    ensures Preview([c], int16) == Some([c])
  {
    var s: Text := [c];
    assert s[..1] == s && s[1..] == [];
    assert Preview(s[1..], int16) == Some([]);
    assert s + [] == s;
  }

  lemma PreviewOfRawPair(high: CodePoint, next: CodePoint, int16: HexReader)
    requires IsHigh(high) && next >= 0x20 && next != QUOTE && next != BACKSLASH
    ensures Preview([high], int16) == Some([high]) && Preview([high, next], int16) == Some([high, next])
  {
    PreviewOfOne(high, int16);
    PreviewOfOne(next, int16);
    var s: Text := [high, next];
    assert s[..1] == [high] && s[1..] == [next];
    assert [high] + [next] == s;
  }

}
