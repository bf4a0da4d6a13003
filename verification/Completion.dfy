/** `parse_completion`, and the reply contract under which the extractor and the JSON
    parser read the same value out of one envelope (backend/app/ai/context.py). */
module Completion {
  import opened Unicode
  import opened Wrappers
  import opened Surrogates
  import opened Json
  import opened Extractor

  /** The word `content`. */
  const CONTENT: Text := [0x63, 0x6F, 0x6E, 0x74, 0x65, 0x6E, 0x74]
  /** The word `reply_to_id`. */
  const REPLY_TO_ID: Text := [0x72, 0x65, 0x70, 0x6C, 0x79, 0x5F, 0x74, 0x6F, 0x5F, 0x69, 0x64]

  datatype Reply = Reply(content: Text, replyTo: Option<int>)

  /** The JSON text inside a raw reply: everything from the first brace when the reply
      does not open with one. */
  function Candidate(raw: Text): Option<Text> {
    if Opens(LStrip(raw), LEFT_BRACE) then Some(raw)
    else
      var brace := Find(raw, [LEFT_BRACE], 0);
      if brace == -1 then None else Some(raw[brace..])
  }

  /** The usable content of a raw reply, before the surrogate repair. */
  function EnvelopeContent(raw: Text): Option<(Text, seq<Member>)> {
    match Candidate(raw)
    case None => None
    case Some(candidate) =>
      match Loads(candidate)
      case Some(Obj(members)) => (
        match Get(members, CONTENT)
        case Some(Str(t)) => if Blank(t) then None else Some((t, members))
        case _ => None)
      case _ => None
  }

  function ParseCompletion(raw: Text): Reply {
    match EnvelopeContent(raw)
    case None => Reply(raw, None)
    case Some((t, members)) =>
      Reply(Repair(t), match Get(members, REPLY_TO_ID)
        case Some(Int(n)) => if n > 0 then Some(n) else None
        case _ => None)
  }

  // -- The contract ----------------------------------------------------------------

  predicate EndsLikeKey(t: Text) {
    |t| >= 8 && t[|t| - 8..] == [QUOTE] + CONTENT
  }

  /** A string the extractor's search for `"content"` could stop at. */
  predicate LooksLikeKey(t: Text) { t == CONTENT || EndsLikeKey(t) }

  /** No string anywhere in the value, key or text, looks like the key. */
  predicate Clean(j: Json) {
    match j
    case Str(t) => !LooksLikeKey(t)
    case Arr(items) => forall i :: 0 <= i < |items| ==> Clean(items[i])
    case Obj(members) => forall i :: 0 <= i < |members| ==> !LooksLikeKey(members[i].key) && Clean(members[i].value)
    case _ => true
  }

  predicate CleanMembers(members: seq<Member>) {
    forall i :: 0 <= i < |members| ==> !LooksLikeKey(members[i].key) && Clean(members[i].value)
  }

  /** One `content` member, and no other string that could be mistaken for its key.
      When the content itself looks like the key, the member after it must be plain. */
  predicate KeepsContract(members: seq<Member>) {
    members != [] &&
    if members[0].key == CONTENT then
      CleanMembers(members[1..])
      && (members[0].value.Str? && LooksLikeKey(members[0].value.text) && |members| > 1
          ==> COLON !in members[1].key && !members[1].value.Str?)
    else
      !LooksLikeKey(members[0].key) && Clean(members[0].value) && KeepsContract(members[1..])
  }

  /** A raw reply the pipeline is promised for: either no usable envelope, or one that
      keeps the contract. */
  predicate WithinContract(raw: Text) {
    EnvelopeContent(raw).Some? ==> KeepsContract(EnvelopeContent(raw).value.1)
  }

  /** The shape the prompt demands, `{"content": ..., "reply_to_id": number|null}` in
      either order, keeps the contract whatever the content is. */
  lemma PromptShapeKeepsContract(text: Text, target: Json)
    requires target.Null? || target.Int? || target.Float?
    ensures
      var content, replyTo := Member(CONTENT, Str(text)), Member(REPLY_TO_ID, target);
      KeepsContract([content]) && KeepsContract([content, replyTo]) && KeepsContract([replyTo, content])
  {
    var content, replyTo := Member(CONTENT, Str(text)), Member(REPLY_TO_ID, target);
    assert CONTENT[0] != REPLY_TO_ID[0];
    assert !LooksLikeKey(REPLY_TO_ID) by { assert REPLY_TO_ID[3..][0] != QUOTE; }
    assert [content, replyTo][1..] == [replyTo] && [replyTo, content][1..] == [content] && [content][1..] == [];
    assert COLON !in REPLY_TO_ID;
  }

  // -- Where the search for the key can stop ---------------------------------------

  lemma {:induction false} NoQuoteNoKey(s: Text, n: nat)
    requires n <= |s| && forall i :: 0 <= i < n ==> s[i] != QUOTE
    ensures AfterKey(s) == AfterKey(s[n..])
    decreases n
  {
    if n == 0 {
      assert s[0..] == s;
    } else {
      assert !(CONTENT_KEY <= s) by { assert CONTENT_KEY[0] == QUOTE; }
      NoQuoteNoKey(s[1..], n - 1);
      assert s[1..][n - 1..] == s[n..];
    }
  }

  lemma {:induction false} SpaceHidesNothing(s: Text)
    ensures AfterKey(s) == AfterKey(SkipSpace(s))
    ensures AfterColon(s) == AfterColon(SkipSpace(s))
    ensures SkipSpace(s) != [] && !IsSpace(SkipSpace(s)[0]) ==> LStrip(s) == SkipSpace(s)
  {
    if s != [] && IsJsonSpace(s[0]) {
      assert s[0] != CONTENT_KEY[0];
      SpaceHidesNothing(s[1..]);
    }
  }

  lemma {:induction false} PlainRun(p: Text, s: Text)
    requires forall i :: 0 <= i < |p| ==> p[i] >= 0x20 && p[i] != QUOTE && p[i] != BACKSLASH
    requires ParseString(s).Ok?
    ensures ParseString(p + s) == Ok(p + ParseString(s).value, ParseString(s).rest)
  {
    if p == [] {
      assert p + s == s && p + ParseString(s).value == ParseString(s).value;
    } else {
      PlainRun(p[1..], s);
      PlainStep(p[0], p[1..] + s);
      assert p + s == [p[0]] + (p[1..] + s);
      Associate([p[0]], p[1..], ParseString(s).value);
      assert [p[0]] + p[1..] == p;
    }
  }

  lemma PlainStep(c: CodePoint, s: Text)
    requires c >= 0x20 && c != QUOTE && c != BACKSLASH && ParseString(s).Ok?
    ensures ParseString([c] + s) == Ok([c] + ParseString(s).value, ParseString(s).rest)
  {
    assert ([c] + s)[1..] == s;
  }

  /** The key itself, once its opening quote has been read. */
  lemma KeyBody(s: Text)
    requires CONTENT_KEY <= s
    ensures ParseString(s[1..]) == Ok(CONTENT, s[9..])
  {
    var tail := s[8..];
    assert tail[0] == CONTENT_KEY[8] && tail[1..] == s[9..];
    assert ParseString(tail) == Ok([], s[9..]);
    assert s[1..8] == CONTENT_KEY[1..8] == CONTENT;
    assert s[1..] == CONTENT + tail;
    PlainRun(CONTENT, tail);
    assert CONTENT + [] == CONTENT;
  }

  /** Inside a string the search passes over everything, unless the string ends like the
      key: then it may stop right behind the string. */
  lemma {:induction false} SearchThroughString(s: Text)
    requires ParseString(s).Ok? && !Opens(ParseString(s).rest, 0x63)
    ensures AfterKey(s) == AfterKey(ParseString(s).rest)
         || (EndsLikeKey(ParseString(s).value) && AfterKey(s) == Some(ParseString(s).rest))
    decreases |s|
  {
    if s[0] == QUOTE {
      assert CONTENT_KEY[1] == 0x63;
      assert !(CONTENT_KEY <= s);
    } else {
      var n := FirstUnit(s).len;
      SearchThroughString(s[n..]);
      EndsLikeTail(FirstUnit(s).c, ParseString(s[n..]).value);
      if n == 2 && s[1] == QUOTE {
        SearchThroughQuote(s);
      } else {
        UnitHasNoQuote(s);
        NoQuoteNoKey(s, n);
      }
    }
  }

  lemma EndsLikeTail(c: CodePoint, tail: Text)
    ensures EndsLikeKey(tail) ==> EndsLikeKey([c] + tail)
  {
    if EndsLikeKey(tail) {
      assert ([c] + tail)[|tail| - 7..] == tail[|tail| - 8..];
    }
  }

  /** An escaped quote may open the key, but then the string ends with it. */
  lemma SearchThroughQuote(s: Text)
    requires ParseString(s).Ok? && s[0] == BACKSLASH && FirstUnit(s) == Unit(QUOTE, 2) && s[1] == QUOTE
    ensures AfterKey(s) == AfterKey(s[2..])
      || (EndsLikeKey(ParseString(s).value) && AfterKey(s) == Some(ParseString(s).rest))
  {
    NoQuoteNoKey(s, 1);
    assert s[1..][1..] == s[2..];
    if CONTENT_KEY <= s[1..] {
      KeyBody(s[1..]);
      assert ParseString(s).value == [QUOTE] + CONTENT;
    }
  }

  lemma UnitHasNoQuote(s: Text)
    requires s != [] && FirstUnit(s).Unit? && !(FirstUnit(s).len == 2 && s[1] == QUOTE)
    ensures forall i :: 0 <= i < FirstUnit(s).len ==> s[i] != QUOTE && (FirstUnit(s).c != COLON || FirstUnit(s).len > 1 ==> s[i] != COLON)
  {
    if UnicodeEscape(s) {
      HexHasNoQuote(s);
      if FirstUnit(s).len == 12 {
        HexHasNoQuote(s[6..]);
        assert forall i :: 6 <= i < 12 ==> s[i] == s[6..][i - 6];
      }
    }
  }

  lemma HexHasNoQuote(s: Text)
    requires UnicodeEscape(s)
    ensures forall i :: 0 <= i < 6 ==> s[i] != QUOTE && s[i] != COLON
  {
    assert s[2] == s[2..6][0] && s[3] == s[2..6][1] && s[4] == s[2..6][2] && s[5] == s[2..6][3];
  }

  lemma {:induction false} NoColonSkip(s: Text, n: nat)
    requires n <= |s| && forall i :: 0 <= i < n ==> s[i] != COLON
    ensures AfterColon(s) == AfterColon(s[n..])
    decreases n
  {
    if n == 0 {
      assert s[0..] == s;
    } else {
      NoColonSkip(s[1..], n - 1);
      assert s[1..][n - 1..] == s[n..];
    }
  }

  lemma {:induction false} ColonThroughString(s: Text)
    requires ParseString(s).Ok? && COLON !in ParseString(s).value
    ensures AfterColon(s) == AfterColon(ParseString(s).rest)
    decreases |s|
  {
    if s[0] != QUOTE {
      var n := FirstUnit(s).len;
      assert ParseString(s).value == [FirstUnit(s).c] + ParseString(s[n..]).value;
      ColonThroughString(s[n..]);
      if !(n == 2 && s[1] == QUOTE) {
        UnitHasNoQuote(s);
      }
      NoColonSkip(s, n);
    }
  }

  // -- Values the search passes over -----------------------------------------------

  lemma NumberHidesNothing(s: Text)
    requires s != [] && ParseNumber(s).Ok?
    ensures AfterKey(s) == AfterKey(ParseNumber(s).rest)
  {
    if s[0] == 0x2D {
      NoQuoteNoKey(s, 1);
      UnsignedHidesNothing(s[1..], true);
    } else {
      UnsignedHidesNothing(s, false);
    }
  }

  lemma UnsignedHidesNothing(d: Text, negative: bool)
    requires d != [] && IsDigit(d[0]) && ParseUnsigned(d, negative).Ok?
    ensures AfterKey(d) == AfterKey(ParseUnsigned(d, negative).rest)
  {
    var tail := d[WholeLength(d)..];
    var f := FractionLength(tail);
    var e := ExponentLength(tail[f..]);
    UnsignedRest(d, negative);
    NoQuoteNoKey(d, WholeLength(d));
    FractionHasNoQuote(tail);
    ExponentHasNoQuote(tail[f..]);
    hide ParseUnsigned, FractionLength, ExponentLength, WholeLength, AfterKey;
    NoQuoteNoKey(tail, f);
    NoQuoteNoKey(tail[f..], e);
    assert tail[f..][e..] == tail[f + e..];
  }

  lemma UnsignedRest(d: Text, negative: bool)
    requires d != [] && IsDigit(d[0]) && ParseUnsigned(d, negative).Ok?
    ensures var tail := d[WholeLength(d)..]; var f := FractionLength(tail);
      ParseUnsigned(d, negative).rest == tail[f + ExponentLength(tail[f..])..]
  {
    hide WholeLength, FractionLength, ExponentLength, DecimalValue;
    assert d[WholeLength(d)..][0..] == d[WholeLength(d)..];
  }

  lemma FractionHasNoQuote(s: Text)
    ensures forall i :: 0 <= i < FractionLength(s) ==> s[i] != QUOTE
  {
    forall i | 0 <= i < FractionLength(s) ensures s[i] != QUOTE {
      if i > 0 { assert IsDigit(s[1..][i - 1]); }
    }
  }

  lemma ExponentHasNoQuote(s: Text)
    ensures forall i :: 0 <= i < ExponentLength(s) ==> s[i] != QUOTE
  {
    forall i | 0 <= i < ExponentLength(s) ensures s[i] != QUOTE {
      var sign := if |s| >= 2 && (s[1] == 0x2B || s[1] == 0x2D) then 2 else 1;
      if i >= sign { assert IsDigit(s[sign..][i - sign]); }
    }
  }

  lemma LiteralHidesNothing(s: Text, literal: Text)
    requires literal <= s && QUOTE !in literal
    ensures AfterKey(s) == AfterKey(s[|literal|..])
  {
    assert forall i :: 0 <= i < |literal| ==> s[i] == literal[i];
    NoQuoteNoKey(s, |literal|);
  }

  lemma ScalarHidesNothing(s: Text)
    requires s != [] && ParseScalar(s).Ok?
    ensures AfterKey(s) == AfterKey(ParseScalar(s).rest)
  {
    if NULL <= s { LiteralHidesNothing(s, NULL); }
    else if TRUE <= s { LiteralHidesNothing(s, TRUE); }
    else if FALSE <= s { LiteralHidesNothing(s, FALSE); }
    else if NAN <= s { LiteralHidesNothing(s, NAN); }
    else if INFINITY <= s { LiteralHidesNothing(s, INFINITY); }
    else if MINUS_INFINITY <= s { LiteralHidesNothing(s, MINUS_INFINITY); }
    else { NumberHidesNothing(s); }
  }

  lemma StringHidesNothing(s: Text)
    requires Opens(s, QUOTE) && ParseString(s[1..]).Ok? && !Opens(ParseString(s[1..]).rest, 0x63)
    requires !LooksLikeKey(ParseString(s[1..]).value)
    ensures AfterKey(s) == AfterKey(ParseString(s[1..]).rest)
  {
    if CONTENT_KEY <= s {
      KeyBody(s);
      assert false;
    }
    SearchThroughString(s[1..]);
  }

  lemma {:induction false} ValueHidesNothing(s: Text)
    requires ParseValue(s).Ok? && Clean(ParseValue(s).value) && !Opens(ParseValue(s).rest, 0x63)
    ensures AfterKey(s) == AfterKey(ParseValue(s).rest)
    decreases |s|, 1
  {
    if s[0] == QUOTE {
      StringHidesNothing(s);
    } else if s[0] == LEFT_BRACE || s[0] == LEFT_BRACKET {
      var t := SkipSpace(s[1..]);
      NoQuoteNoKey(s, 1);
      SpaceHidesNothing(s[1..]);
      if Opens(t, if s[0] == LEFT_BRACE then RIGHT_BRACE else RIGHT_BRACKET) {
        NoQuoteNoKey(t, 1);
      } else if s[0] == LEFT_BRACE {
        MembersHideNothing(t);
      } else {
        ItemsHideNothing(t);
      }
    } else {
      ScalarHidesNothing(s);
    }
  }

  lemma {:induction false} MemberHidesNothing(s: Text)
    requires ParseMember(s).Ok?
    requires Opens(ParseMember(s).rest, COMMA) || Opens(ParseMember(s).rest, RIGHT_BRACE)
    requires var m := ParseMember(s).value; !LooksLikeKey(m.key) && Clean(m.value)
    ensures AfterKey(s) == AfterKey(ParseMember(s).rest)
    decreases |s|, 2
  {
    var afterKey := ParseString(s[1..]).rest;
    StringHidesNothing(s);
    ValueOfMemberHidesNothing(s, afterKey);
  }

  lemma {:induction false} ValueOfMemberHidesNothing(s: Text, afterKey: Text)
    requires ParseMember(s).Ok? && ParseString(s[1..]).rest == afterKey && Clean(ParseMember(s).value.value)
    requires Opens(ParseMember(s).rest, COMMA) || Opens(ParseMember(s).rest, RIGHT_BRACE)
    ensures AfterKey(afterKey) == AfterKey(ParseMember(s).rest)
    decreases |s|, 1
  {
    var separator := SkipSpace(afterKey);
    var valueText := SkipSpace(separator[1..]);
    SpaceHidesNothing(afterKey);
    NoQuoteNoKey(separator, 1);
    SpaceHidesNothing(separator[1..]);
    ValueHidesNothing(valueText);
    SpaceHidesNothing(ParseValue(valueText).rest);
  }

  lemma {:induction false} MembersHideNothing(s: Text)
    requires ParseMembers(s).Ok? && CleanMembers(ParseMembers(s).value)
    ensures AfterKey(s) == AfterKey(ParseMembers(s).rest)
    decreases |s|, 3
  {
    var members := ParseMembers(s).value;
    var rest := ParseMember(s).rest;
    assert members[0] == ParseMember(s).value;
    MemberHidesNothing(s);
    NoQuoteNoKey(rest, 1);
    if !Opens(rest, RIGHT_BRACE) {
      var next := SkipSpace(rest[1..]);
      SpaceHidesNothing(rest[1..]);
      assert members == [members[0]] + ParseMembers(next).value;
      assert CleanMembers(members[1..]);
      MembersHideNothing(next);
    }
  }

  lemma {:induction false} ItemsHideNothing(s: Text)
    requires ParseItems(s).Ok? && forall i :: 0 <= i < |ParseItems(s).value| ==> Clean(ParseItems(s).value[i])
    ensures AfterKey(s) == AfterKey(ParseItems(s).rest)
    decreases |s|, 3
  {
    hide ParseValue, AfterKey;
    var items := ParseItems(s).value;
    var rest := ParseValue(s).rest;
    var after := SkipSpace(rest);
    assert items[0] == ParseValue(s).value;
    ValueHidesNothing(s);
    SpaceHidesNothing(rest);
    NoQuoteNoKey(after, 1);
    if !Opens(after, RIGHT_BRACKET) {
      var next := SkipSpace(after[1..]);
      SpaceHidesNothing(after[1..]);
      var others := ParseItems(next).value;
      assert items == [items[0]] + others;
      assert forall i :: 0 <= i < |others| ==> others[i] == items[i + 1];
      ItemsHideNothing(next);
    }
  }

  // -- The value the extractor locates ---------------------------------------------

  /** The extractor found nothing, or the string whose value is `t`. */
  predicate LocatesText(located: Option<Text>, t: Text) {
    located.Some? ==> ParseString(located.value).Ok? && ParseString(located.value).value == t
  }

  /** Nothing but white space. */
  lemma EndHidesNothing(s: Text)
    requires SkipSpace(s) == []
    ensures AfterKey(s) == None && AfterColon(s) == None
  {
    SpaceHidesNothing(s);
  }

  lemma ValueOpens(s: Text)
    requires ParseValue(s).Ok?
    ensures s != [] && !IsSpace(s[0])
    ensures s[0] == QUOTE <==> ParseValue(s).value.Str?
  {
    if s[0] != QUOTE && s[0] != LEFT_BRACE && s[0] != LEFT_BRACKET {
      ScalarOpens(s);
    }
  }

  lemma ScalarOpens(s: Text)
    requires s != [] && ParseScalar(s).Ok?
    ensures !IsSpace(s[0])
  {
    assert NULL <= s ==> s[0] == NULL[0];
    assert TRUE <= s ==> s[0] == TRUE[0];
    assert FALSE <= s ==> s[0] == FALSE[0];
    assert NAN <= s ==> s[0] == NAN[0];
    assert INFINITY <= s ==> s[0] == INFINITY[0];
    assert MINUS_INFINITY <= s ==> s[0] == MINUS_INFINITY[0];
  }

  /** From behind a member's key, the extractor reads that member's value. */
  lemma LocateMemberValue(s: Text)
    requires ParseMember(s).Ok?
    ensures var located := LocateValue(ParseString(s[1..]).rest);
            match ParseMember(s).value.value
            case Str(t) => located.Some? && LocatesText(located, t)
            case _ => located.None?
  {
    var afterKey := ParseString(s[1..]).rest;
    var separator := SkipSpace(afterKey);
    var valueText := SkipSpace(separator[1..]);
    SpaceHidesNothing(afterKey);
    SpaceHidesNothing(separator[1..]);
    ValueOpens(valueText);
  }

  /** The first member is `content`: the search finds its key or, when the key is
      spelled with escapes, nothing that leads to a string. */
  lemma LocateContent(s: Text, members: seq<Member>, t: Text)
    requires ParseMembers(s).Ok? && ParseMembers(s).value == members && KeepsContract(members)
    requires members[0] == Member(CONTENT, Str(t))
    requires SkipSpace(ParseMembers(s).rest) == []
    ensures LocatesText(LocateFrom(s), t)
  {
    var body := s[1..];
    var afterKey := ParseString(body).rest;
    assert ParseMember(s).value == members[0];
    if CONTENT_KEY <= s {
      KeyBody(s);
      LocateMemberValue(s);
    } else {
      assert !EndsLikeKey(CONTENT);
      SearchThroughString(body);
      KeyLeadsToValue(s);
      LocateBehindEscapedKey(s, members, t);
    }
  }

  /** Where the value of the member that opens `s` begins. */
  function ValueText(s: Text): (r: Text)
    requires ParseMember(s).Ok?
    ensures ParseValue(r).Ok? && ParseValue(r).value == ParseMember(s).value.value
    ensures SkipSpace(ParseValue(r).rest) == ParseMember(s).rest
  {
    SkipSpace(SkipSpace(ParseString(s[1..]).rest)[1..])
  }

  lemma KeyLeadsToValue(s: Text)
    requires ParseMember(s).Ok?
    ensures AfterKey(ParseString(s[1..]).rest) == AfterKey(ValueText(s))
  {
    SeparatorHidesNothing(ParseString(s[1..]).rest);
  }

  lemma SeparatorHidesNothing(afterKey: Text)
    requires Opens(SkipSpace(afterKey), COLON)
    ensures AfterKey(afterKey) == AfterKey(SkipSpace(SkipSpace(afterKey)[1..]))
  {
    var separator := SkipSpace(afterKey);
    SpaceHidesNothing(afterKey);
    NoQuoteNoKey(separator, 1);
    SpaceHidesNothing(separator[1..]);
  }

  lemma LocateBehindEscapedKey(s: Text, members: seq<Member>, t: Text)
    requires ParseMembers(s).Ok? && ParseMembers(s).value == members && KeepsContract(members)
    requires members[0] == Member(CONTENT, Str(t))
    requires SkipSpace(ParseMembers(s).rest) == []
    ensures LocateFrom(ValueText(s)) == None
  {
    var valueText := ValueText(s);
    var afterValue := ParseValue(valueText).rest;
    assert ParseMember(s).value == members[0];
    ValueOpens(valueText);
    TailHidesNothing(s, members, afterValue);
    if LooksLikeKey(t) {
      ValueMayEndSearch(valueText);
      LocateBehindValue(s, members, afterValue);
    } else {
      StringHidesNothing(valueText);
    }
  }

  lemma ValueMayEndSearch(s: Text)
    requires Opens(s, QUOTE) && ParseString(s[1..]).Ok? && !Opens(ParseString(s[1..]).rest, 0x63)
    ensures AfterKey(s) == AfterKey(ParseString(s[1..]).rest) || AfterKey(s) == Some(ParseString(s[1..]).rest)
  {
    if CONTENT_KEY <= s {
      KeyBody(s);
    } else {
      SearchThroughString(s[1..]);
    }
  }

  /** Behind the content value there is no key to find. */
  lemma TailHidesNothing(s: Text, members: seq<Member>, afterValue: Text)
    requires ParseMembers(s).Ok? && ParseMembers(s).value == members && CleanMembers(members[1..])
    requires ParseMember(s).rest == SkipSpace(afterValue) && SkipSpace(ParseMembers(s).rest) == []
    ensures AfterKey(afterValue) == None
  {
    var rest := ParseMember(s).rest;
    SpaceHidesNothing(afterValue);
    NoQuoteNoKey(rest, 1);
    if !Opens(rest, RIGHT_BRACE) {
      var next := SkipSpace(rest[1..]);
      SpaceHidesNothing(rest[1..]);
      assert members == [members[0]] + ParseMembers(next).value;
      MembersHideNothing(next);
    }
    EndHidesNothing(ParseMembers(s).rest);
  }

  /** A search that stopped right behind the content value leads to no string. */
  lemma LocateBehindValue(s: Text, members: seq<Member>, afterValue: Text)
    requires ParseMembers(s).Ok? && ParseMembers(s).value == members
    requires |members| > 1 ==> COLON !in members[1].key && !members[1].value.Str?
    requires ParseMember(s).rest == SkipSpace(afterValue) && SkipSpace(ParseMembers(s).rest) == []
    ensures LocateValue(afterValue) == None
  {
    var rest := ParseMember(s).rest;
    SpaceHidesNothing(afterValue);
    NoColonSkip(rest, 1);
    if Opens(rest, RIGHT_BRACE) {
      EndHidesNothing(rest[1..]);
    } else {
      var next := SkipSpace(rest[1..]);
      SpaceHidesNothing(rest[1..]);
      assert members == [members[0]] + ParseMembers(next).value;
      assert ParseMember(next).value == members[1];
      NoColonSkip(next, 1);
      ColonThroughString(next[1..]);
      LocateMemberValue(next);
      assert AfterColon(afterValue) == AfterColon(ParseString(next[1..]).rest);
    }
  }

  lemma {:induction false} LocateInMembers(s: Text, members: seq<Member>, t: Text)
    requires ParseMembers(s).Ok? && ParseMembers(s).value == members && KeepsContract(members)
    requires Get(members, CONTENT) == Some(Str(t))
    requires SkipSpace(ParseMembers(s).rest) == []
    ensures LocatesText(LocateFrom(s), t)
    decreases |members|
  {
    GetFirst(members, CONTENT);
    if members[0].key == CONTENT {
      CleanHasNoContent(members[1..]);
      LocateContent(s, members, t);
    } else {
      var rest := ParseMember(s).rest;
      assert members[0] == ParseMember(s).value;
      CleanHasNoContent([]);
      MemberHidesNothing(s);
      NoQuoteNoKey(rest, 1);
      if !Opens(rest, RIGHT_BRACE) {
        var next := SkipSpace(rest[1..]);
        SpaceHidesNothing(rest[1..]);
        assert members == [members[0]] + ParseMembers(next).value;
        LocateInMembers(next, members[1..], t);
      }
    }
  }

  lemma {:induction false} GetFirst(members: seq<Member>, key: Text)
    requires members != []
    ensures Get(members, key) ==
      if Get(members[1..], key).Some? then Get(members[1..], key)
      else if members[0].key == key then Some(members[0].value) else None
  {
    if |members| > 1 {
      var n := |members| - 1;
      GetFirst(members[..n], key);
      assert members[1..][..n - 1] == members[..n][1..];
    } else {
      assert members[..0] == [] && members[1..] == [];
    }
  }

  lemma {:induction false} CleanHasNoContent(members: seq<Member>)
    requires CleanMembers(members)
    ensures Get(members, CONTENT) == None
  {
    if members != [] {
      var n := |members| - 1;
      assert !LooksLikeKey(members[n].key);
      CleanHasNoContent(members[..n]);
    }
  }

  /** Within the contract, the extractor reads the value the parser reads. */
  lemma LocateAgrees(raw: Text)
    requires Opens(LStrip(raw), LEFT_BRACE) && WithinContract(raw) && EnvelopeContent(raw).Some?
    ensures LocatesText(Locate(raw), EnvelopeContent(raw).value.0)
  {
    var (t, members) := EnvelopeContent(raw).value;
    var document := SkipSpace(raw);
    ValueOpens(document);
    SpaceHidesNothing(raw);
    assert LStrip(raw) == document;
    var inner := SkipSpace(document[1..]);
    NoQuoteNoKey(document, 1);
    SpaceHidesNothing(document[1..]);
    LocateInMembers(inner, members, t);
  }

}
