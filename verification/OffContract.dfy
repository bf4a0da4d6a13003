/** Replies outside the prompt's contract: when what the client is shown is still what is
    stored, and a family of replies where it is not always. */
module OffContract {
  import opened Unicode
  import opened Wrappers
  import opened Surrogates
  import opened Json
  import opened JsonDump
  import opened Extractor
  import opened Completion
  import opened StreamedContent
  import opened ReplyStream
  import opened RawReplies
  import opened Seams

  /** As long as no pair is torn between two pieces, for whatever reply: the deltas spell the
      stored content if and only if the reply has no usable content, or the content that the
      parser reads continues the text that was forwarded. */
  lemma SeamlessIsPersistedIff(arrivals: seq<Arrival>, known: set<int>, int16: HexReader)
    requires Respond(arrivals, known, int16).persisted.Some? && LastCompletion(arrivals).Some?
    requires Seamless(Chunks(arrivals), int16)
    ensures
      var Response(events, persisted) := Respond(arrivals, known, int16);
      var f := After(Chunks(arrivals), int16);
      var envelope := EnvelopeContent(RawOf(arrivals, int16));
      Shown(events) == persisted.value.content <==> (envelope.None? || f.emitted <= Repair(envelope.value.0))
  {
    hide Respond, Chunks, After, Shown, LastCompletion, EnvelopeContent, Seamless;
    ShownBegins(arrivals, known, int16);
    SeamlessShows(Chunks(arrivals), int16);
  }

  lemma Continues(shown: Text, content: Text)
    ensures shown + Remaining(content, shown) == content <==> shown <= content
  {
    if shown <= content {
      assert shown + content[|shown|..] == content;
    }
  }

  /** What has been forwarded of a reply is what the extractor answers for all of it. */
  lemma EmittedIsExtraction(chunks: seq<Text>, int16: HexReader)
    requires ReadsHex(int16) && chunks != []
    requires var f := After(chunks, int16); NoHigh(f.buffer) && Extract(f.buffer, int16).Some?
    ensures After(chunks, int16).emitted == Extract(After(chunks, int16).buffer, int16).value
  {
    hide Extract, ReadsHex;
    var n := |chunks| - 1;
    var before, f := After(chunks[..n], int16), After(chunks, int16);
    AlwaysForwards(chunks[..n], int16);
    if before.emitted != [] {
      var k :| 0 <= k <= |before.buffer| && Extract(before.buffer[..k], int16) == Some(before.emitted);
      assert f.buffer == before.buffer[..k] + f.buffer[k..];
      ExtractGrows(before.buffer[..k], f.buffer[k..], int16);
    }
  }

  // -- A decoy ---------------------------------------------------------------------

  /** A text member that says `content`, another text member, and the real one. */
  function Decoyed(note: Text, other: Text, y: Text, x: Text): seq<Member> {
    [Member(note, Str(CONTENT)), Member(other, Str(y)), Member(CONTENT, Str(x))]
  }

  /** Two keys that cannot be mistaken for anything. */
  predicate PlainKeys(note: Text, other: Text) {
    Scalar(note) && Scalar(other) && !LooksLikeKey(note) && !LooksLikeKey(other) && COLON !in other
  }

  /** The search takes the word for the key, and the next text for its value. */
  lemma DecoyIsLocated(note: Text, other: Text, y: Text, x: Text, style: Style)
    requires PlainKeys(note, other) && Scalar(y) && Scalar(x)
    ensures Plain(Obj(Decoyed(note, other, y, x)))
    ensures
      var located := Locate(Dump(Obj(Decoyed(note, other, y, x)), style));
      located.Some? && ParseString(located.value).Ok? && ParseString(located.value).value == y
  {
    var tail := DecoyShape(note, other, y, x, style);
    var gap := Gap(style);
    var value := QuotedRoundTrip(y, style, tail);
    var afterOther := [COLON] + (gap + (Quoted(y, style) + tail));
    var behind := [COMMA] + (gap + (Quoted(other, style) + afterOther));
    var afterNote := [COLON] + (gap + (CONTENT_KEY + behind));
    DecoyKeyIsFound(note, behind, style);
    DecoyValueIsFound(other, afterOther, style);
    hide Dump;
    assert afterOther[1..] == gap + (Quoted(y, style) + tail);
    SpaceBeforeQuote(gap, [QUOTE] + value);
    assert ([QUOTE] + value)[1..] == value;
  }

  /** The dump of the three members, as the search meets it. */
  lemma DecoyShape(note: Text, other: Text, y: Text, x: Text, style: Style) returns (tail: Text)
    requires Scalar(note) && Scalar(other) && Scalar(y) && Scalar(x)
    ensures Plain(Obj(Decoyed(note, other, y, x)))
    ensures
      var gap := Gap(style);
      var afterOther := [COLON] + (gap + (Quoted(y, style) + tail));
      var behind := [COMMA] + (gap + (Quoted(other, style) + afterOther));
      Dump(Obj(Decoyed(note, other, y, x)), style) == [LEFT_BRACE] + (Quoted(note, style) + ([COLON] + (gap + (CONTENT_KEY + behind))))
  {
    var members, gap := Decoyed(note, other, y, x), Gap(style);
    DecoyIsPlain(note, other, y, x, style);
    KeyIsQuoted(style);
    TextIsQuoted(CONTENT, style);
    TextIsQuoted(y, style);
    hide Quoted, Dump, DumpMembers, Escape;
    assert members[1..][1..] == members[2..];
    tail := [COMMA] + (gap + DumpMembers(members[2..], style));
    NextMember(members, style);
    NextMember(members[1..], style);
  }

  lemma DecoyIsPlain(note: Text, other: Text, y: Text, x: Text, style: Style)
    requires Scalar(note) && Scalar(other) && Scalar(y) && Scalar(x)
    ensures var members := Decoyed(note, other, y, x);
      Scalar(CONTENT) && Plain(Obj(members)) && Dump(Obj(members), style) == [LEFT_BRACE] + DumpMembers(members, style)
  {
    hide DumpMembers;
    assert Scalar(CONTENT);
  }

  lemma TextIsQuoted(t: Text, style: Style)
    requires Scalar(t)
    ensures Plain(Str(t)) && Dump(Str(t), style) == Quoted(t, style)
  {
  }

  /** The dump of a member and of all that follow it. */
  lemma NextMember(members: seq<Member>, style: Style)
    requires |members| > 1 && forall i :: 0 <= i < |members| ==> Scalar(members[i].key) && Plain(members[i].value)
    ensures
      var gap, m := Gap(style), members[0];
      DumpMembers(members, style)
        == Quoted(m.key, style) + ([COLON] + (gap + (Dump(m.value, style) + ([COMMA] + (gap + DumpMembers(members[1..], style))))))
  {
    var gap, m, others := Gap(style), members[0], DumpMembers(members[1..], style);
    assert DumpMembers(members, style) == DumpMember(m, style) + ([COMMA] + gap + others);
    assert DumpMember(m, style) == Quoted(m.key, style) + [COLON] + gap + Dump(m.value, style);
    hide Quoted, Dump, DumpMember, DumpMembers;
    Regroup(Quoted(m.key, style), gap, Dump(m.value, style), [COMMA] + gap + others);
    Associate([COMMA], gap, others);
  }

  lemma DecoyKeyIsFound(note: Text, behind: Text, style: Style)
    requires Scalar(note) && !LooksLikeKey(note)
    ensures AfterKey([LEFT_BRACE] + (Quoted(note, style) + ([COLON] + (Gap(style) + (CONTENT_KEY + behind))))) == Some(behind)
  {
    var gap, found := Gap(style), CONTENT_KEY + behind;
    var afterNote := [COLON] + (gap + found);
    var body := QuotedRoundTrip(note, style, afterNote);
    var s := [QUOTE] + body;
    hide Quoted;
    assert ([LEFT_BRACE] + s)[1..] == s && s[1..] == body;
    NoQuoteNoKey([LEFT_BRACE] + s, 1);
    hide AfterKey;
    StringHidesNothing(s);
    KeyBehindGap(gap, behind);
  }

  lemma KeyBehindGap(gap: Text, behind: Text)
    requires gap == [] || gap == [SPACE]
    ensures AfterKey([COLON] + (gap + (CONTENT_KEY + behind))) == Some(behind)
  {
    var found := CONTENT_KEY + behind;
    var s := [COLON] + (gap + found);
    assert s[1 + |gap|..] == found && found[9..] == behind;
    NoQuoteNoKey(s, 1 + |gap|);
  }

  lemma DecoyValueIsFound(other: Text, afterOther: Text, style: Style)
    requires Scalar(other) && COLON !in other && Opens(afterOther, COLON)
    ensures AfterColon([COMMA] + (Gap(style) + (Quoted(other, style) + afterOther))) == Some(afterOther[1..])
  {
    var gap := Gap(style);
    var body := QuotedRoundTrip(other, style, afterOther);
    var behind := [COMMA] + (gap + ([QUOTE] + body));
    hide Quoted;
    assert behind[2 + |gap|..] == body;
    assert forall i :: 0 <= i < 2 + |gap| ==> behind[i] != COLON;
    NoColonSkip(behind, 2 + |gap|);
    ColonThroughString(body);
  }

  lemma DecoyParses(note: Text, other: Text, y: Text, x: Text, style: Style)
    requires Plain(Obj(Decoyed(note, other, y, x))) && !Blank(x)
    ensures EnvelopeContent(Dump(Obj(Decoyed(note, other, y, x)), style)) == Some((x, Decoyed(note, other, y, x)))
  {
    var members := Decoyed(note, other, y, x);
    LoadsDump(Obj(members), style);
    var raw := Dump(Obj(members), style);
    assert LStrip(raw) == raw && Opens(raw, LEFT_BRACE);
    hide Dump, Loads;
  }

  /** A reply in which a text says `content` before the content comes is off the contract, and
      the promise holds for it exactly when the text of the next member is a prefix of the
      real content: that text was streamed, the content is kept. */
  lemma DecoyContent(note: Text, other: Text, y: Text, x: Text, style: Style, int16: HexReader)
    requires ReadsHex(int16) && PlainKeys(note, other) && Scalar(y) && Scalar(x) && !Blank(x)
    ensures Plain(Obj(Decoyed(note, other, y, x)))
    ensures
      var members := Decoyed(note, other, y, x);
      var f := Forwarded(START, Dump(Obj(members), style), int16);
      var kept := Resolve(f.buffer, f.emitted).content;
      !KeepsContract(members) && f.emitted == y && kept == x && (y + Remaining(kept, y) == kept <==> y <= x)
  {
    var members := Decoyed(note, other, y, x);
    DecoyIsLocated(note, other, y, x, style);
    DecoyParses(note, other, y, x, style);
    var raw := Dump(Obj(members), style);
    DumpNoHigh(Obj(members), style);
    PreviewOfWhole(Locate(raw).value, int16);
    RepairKeepsScalar(y);
    RepairKeepsScalar(x);
    ContentIsShorter(raw);
    Continues(y, x);
    hide Dump, EnvelopeContent, Locate, ReadsHex;
    assert [] + raw == raw;
    assert members[0].value == Str(CONTENT);
  }
}
