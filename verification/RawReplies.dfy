/** When the client is shown the raw text of a reply instead of its content: never for an
    envelope with usable content, and never once some of the content has been forwarded, but
    otherwise always (backend/app/services/ai_service.py). */
module RawReplies {
  import opened Unicode
  import opened Wrappers
  import opened Surrogates
  import opened Json
  import opened Extractor
  import opened Completion
  import opened ReplyStream

  // -- What is read out of a text is shorter than the text -------------------------

  lemma {:induction false} RepairNotLonger(t: Text)
    ensures |Repair(t)| <= |t|
  {
    if t != [] {
      RepairNotLonger(t[1..]);
      if |t| > 1 {
        RepairNotLonger(t[2..]);
      }
    }
  }

  lemma {:induction false} LStripNotLonger(s: Text)
    ensures |LStrip(s)| <= |s|
  {
    if s != [] {
      LStripNotLonger(s[1..]);
    }
  }

  lemma {:induction false} PreviewNotLonger(s: Text, int16: HexReader)
    ensures Preview(s, int16).Some? ==> |Preview(s, int16).value| <= |s|
    decreases |s|
  {
    hide FirstUnit;
    if s != [] && Scan(s, int16).Passed? {
      PreviewNotLonger(s[Scan(s, int16).len..], int16);
    }
  }

  lemma ExtractIsShorter(buffer: Text, int16: HexReader)
    ensures Extract(buffer, int16).Some? ==> |Extract(buffer, int16).value| < |buffer|
  {
    LStripNotLonger(buffer);
    match Locate(buffer)
    case None =>
    case Some(body) =>
      LStripNotLonger(AfterColon(AfterKey(LStrip(buffer)).value).value);
      PreviewNotLonger(body, int16);
      if Preview(body, int16).Some? {
        RepairNotLonger(Preview(body, int16).value);
      }
  }

  lemma {:induction false} StringIsShorter(s: Text)
    ensures ParseString(s).Ok? ==> |ParseString(s).value| + |ParseString(s).rest| < |s|
    decreases |s|
  {
    hide SimpleEscape, UnicodeEscape;
    if s != [] && s[0] != QUOTE && FirstUnit(s).Unit? {
      StringIsShorter(s[FirstUnit(s).len..]);
    }
  }

  lemma ValueIsShorter(s: Text)
    ensures ParseValue(s).Ok? && ParseValue(s).value.Str? ==> |ParseValue(s).value.text| < |s|
  {
    if Opens(s, QUOTE) {
      StringIsShorter(s[1..]);
    }
  }

  lemma {:induction false} MembersAreShorter(s: Text)
    ensures ParseMembers(s).Ok? ==>
      forall m :: m in ParseMembers(s).value && m.value.Str? ==> |m.value.text| < |s|
    decreases |s|
  {
    if ParseMember(s).Ok? {
      var separator := SkipSpace(ParseString(s[1..]).rest);
      ValueIsShorter(SkipSpace(separator[1..]));
      var rest := ParseMember(s).rest;
      if Opens(rest, COMMA) {
        MembersAreShorter(SkipSpace(rest[1..]));
      }
    }
  }

  lemma {:induction false} GetIsMember(members: seq<Member>, key: Text)
    ensures Get(members, key).Some? ==> exists m :: m in members && m.value == Get(members, key).value
  {
    if members != [] {
      GetIsMember(members[..|members| - 1], key);
      assert members[|members| - 1] in members;
    }
  }

  lemma ContentIsShorter(raw: Text)
    ensures EnvelopeContent(raw).Some? ==> |Repair(EnvelopeContent(raw).value.0)| < |raw|
  {
    hide ParseMembers, ParseItems, Blank;
    if EnvelopeContent(raw).Some? {
      var candidate := Candidate(raw).value;
      var (t, members) := EnvelopeContent(raw).value;
      var start := SkipSpace(candidate);
      MembersAreShorter(SkipSpace(start[1..]));
      GetIsMember(members, CONTENT);
      RepairNotLonger(t);
    }
  }

  // -- The kept reply --------------------------------------------------------------

  /** Raw text is kept exactly when there is no usable content and nothing was forwarded. */
  lemma RawIsKept(f: Feed, completion: Text, int16: HexReader)
    requires Forwards(f, int16)
    ensures var raw := RawReply(f.buffer, completion);
      Resolve(raw, f.emitted).content == raw <==> EnvelopeContent(raw).None? && f.emitted == []
  {
    hide EnvelopeContent, Extract;
    var raw := RawReply(f.buffer, completion);
    ContentIsShorter(raw);
    if f.emitted != [] {
      var k :| 0 <= k <= |f.buffer| && Extract(f.buffer[..k], int16) == Some(f.emitted);
      ExtractIsShorter(f.buffer[..k], int16);
    }
  }

  /** The raw text of a reply is stored, and sent as the content of the closing event, if and
      only if it holds no usable content (no object with a `content` member whose text is not
      blank) and no text had been forwarded from it. */
  lemma RawIsStored(arrivals: seq<Arrival>, known: set<int>, int16: HexReader)
    requires Respond(arrivals, known, int16).persisted.Some?
    ensures LastCompletion(arrivals).Some?
    ensures
      var f := After(Chunks(arrivals), int16);
      var raw := RawReply(f.buffer, LastCompletion(arrivals).value);
      var Response(events, persisted) := Respond(arrivals, known, int16);
      && (persisted.value.content == raw <==> EnvelopeContent(raw).None? && f.emitted == [])
      && events != [] && events[|events| - 1] == MessageCompleted(persisted.value)
  {
    hide Respond, After, Chunks, LastCompletion, Resolve, Forwards, EnvelopeContent;
    PersistedReply(arrivals, known, int16);
    var f := After(Chunks(arrivals), int16);
    AlwaysForwards(Chunks(arrivals), int16);
    RawIsKept(f, LastCompletion(arrivals).value, int16);
  }

  // -- An envelope without content -------------------------------------------------

  /** `{"content": ""}`. */
  const HOLLOW: Text := [LEFT_BRACE] + CONTENT_KEY + [COLON, SPACE, QUOTE, QUOTE, RIGHT_BRACE]

  lemma HollowExtracts(int16: HexReader)
    ensures Extract(HOLLOW, int16) == Some([])
  {
    var value: Text := [QUOTE, QUOTE, RIGHT_BRACE];
    assert LStrip(HOLLOW) == HOLLOW;
    assert HOLLOW[1..] == CONTENT_KEY + ([COLON, SPACE] + value);
    assert HOLLOW[1..][9..] == [COLON, SPACE] + value;
    assert AfterKey(HOLLOW) == AfterKey(HOLLOW[1..]) == Some([COLON, SPACE] + value);
    assert ([COLON, SPACE] + value)[1..] == [SPACE] + value;
    assert ([SPACE] + value)[1..] == value;
    assert LStrip([SPACE] + value) == LStrip(value) == value;
  }

  lemma HollowMember()
    ensures ParseMember(HOLLOW[1..]) == Ok(Member(CONTENT, Str([])), [RIGHT_BRACE])
  {
    hide FirstUnit;
    var value: Text := [QUOTE, QUOTE, RIGHT_BRACE];
    var key := HOLLOW[1..];
    assert key == CONTENT_KEY + ([COLON, SPACE] + value);
    KeyBody(key);
    assert key[9..] == [COLON, SPACE] + value;
    assert ([COLON, SPACE] + value)[1..] == [SPACE] + value;
    assert ([SPACE] + value)[1..] == value;
    assert SkipSpace([SPACE] + value) == SkipSpace(value) == value;
    assert value[1..] == [QUOTE, RIGHT_BRACE] && value[1..][1..] == [RIGHT_BRACE];
    assert ParseString(value[1..]) == Ok([], [RIGHT_BRACE]);
  }

  lemma HollowParses()
    ensures Loads(HOLLOW) == Some(Obj([Member(CONTENT, Str([]))]))
  {
    HollowMember();
    hide ParseMember, ParseItems, ParseScalar, ParseString;
    var key := HOLLOW[1..];
    assert [RIGHT_BRACE][1..] == [];
    assert key[0] == QUOTE && SkipSpace(HOLLOW) == HOLLOW && SkipSpace(key) == key;
    assert ParseMembers(key) == Ok([Member(CONTENT, Str([]))], []);
    assert ParseValue(HOLLOW) == Ok(Obj([Member(CONTENT, Str([]))]), []);
  }

  /** A reply that arrives in one piece. */
  lemma OnePiece(text: Text, known: set<int>, int16: HexReader)
    ensures
      var f := Forwarded(START, text, int16);
      var (closing, stored) := Closing(RawReply(f.buffer, text), f.emitted, known);
      Respond([Arrival(Delta(text), false), Arrival(Completed(text), false)], known, int16) == Response(f.events + closing, Some(stored))
  {
    hide Extract, EnvelopeContent, Forwarded, Closing;
    var arrivals := [Arrival(Delta(text), false), Arrival(Completed(text), false)];
    assert arrivals[1..] == [arrivals[1]] && arrivals[1..][1..] == [] && arrivals[..2] == arrivals;
    assert arrivals[..1] == [arrivals[0]] && arrivals[..1][..0] == [];
    assert Chunks(arrivals) == Chunks(arrivals[..1]) == [text];
    assert [text][..0] == [];
    assert After([text], int16) == Forwarded(START, text, int16);
  }

  /** The provider answers `{"content": ""}`: the client is sent that very text as the reply,
      and it is stored. */
  lemma HollowReplyIsShown(known: set<int>, int16: HexReader)
    ensures Respond([Arrival(Delta(HOLLOW), false), Arrival(Completed(HOLLOW), false)], known, int16)
      == Response([MessageCreated, MessageDelta(HOLLOW), MessageCompleted(Reply(HOLLOW, None))], Some(Reply(HOLLOW, None)))
  {
    hide Extract, EnvelopeContent, Respond, Closing, Forwarded;
    OnePiece(HOLLOW, known, int16);
    HollowFeed(int16);
    HollowCloses(known);
    assert [MessageCreated] + [MessageDelta(HOLLOW), MessageCompleted(Reply(HOLLOW, None))]
        == [MessageCreated, MessageDelta(HOLLOW), MessageCompleted(Reply(HOLLOW, None))];
  }

  lemma HollowFeed(int16: HexReader)
    ensures Forwarded(START, HOLLOW, int16) == Feed(HOLLOW, [], [MessageCreated])
  {
    hide Extract;
    HollowExtracts(int16);
    assert [] + HOLLOW == HOLLOW;
  }

  lemma HollowCloses(known: set<int>)
    ensures Closing(HOLLOW, [], known) == ([MessageDelta(HOLLOW), MessageCompleted(Reply(HOLLOW, None))], Reply(HOLLOW, None))
  {
    HollowParses();
    assert LStrip(HOLLOW) == HOLLOW;
    assert Get([Member(CONTENT, Str([]))], CONTENT) == Some(Str([]));
    assert EnvelopeContent(HOLLOW).None?;
    hide EnvelopeContent, Loads;
    assert Resolve(HOLLOW, []) == Reply(HOLLOW, None) && HOLLOW[0..] == HOLLOW;
    assert [MessageDelta(HOLLOW)] + [MessageCompleted(Reply(HOLLOW, None))] == [MessageDelta(HOLLOW), MessageCompleted(Reply(HOLLOW, None))];
  }
}
