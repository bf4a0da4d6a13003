/** Which raw replies are envelopes, said in terms of how they are written: an object with
    usable content, in any spelling, with white space around it or a preamble before it
    (`parse_completion` in backend/app/ai/context.py). */
module Envelopes {
  import opened Unicode
  import opened Wrappers
  import opened Surrogates
  import opened Json
  import opened Completion
  import JsonDump
  import JsonSyntax

  /** The text is an object with these members, and white space behind it. */
  ghost predicate WritesObject(text: Text, members: seq<Member>) {
    exists t, after :: JsonSyntax.Proper(t) && JsonSyntax.Value(t) == Obj(members) && JsonSyntax.Space(after) && text == JsonSyntax.Source(t) + after
  }

  /** A preamble holds no brace, and if it is blank it is white space of JSON. */
  predicate Preamble(p: Text) {
    LEFT_BRACE !in p && (Blank(p) ==> JsonSyntax.Space(p))
  }

  /** The reply is written as an envelope of this content. */
  ghost predicate IsEnvelope(raw: Text, content: Text, members: seq<Member>) {
    && (exists p, text :: Preamble(p) && WritesObject(text, members) && raw == p + text)
    && Get(members, CONTENT) == Some(Str(content)) && !Blank(content)
  }

  // -- Writing an object -----------------------------------------------------------

  lemma ObjectOpens(t: JsonSyntax.Syntax)
    requires JsonSyntax.Proper(t) && JsonSyntax.Value(t).Obj?
    ensures Opens(JsonSyntax.Source(t), LEFT_BRACE)
  {
  }

  lemma ObjectIsLoaded(p: Text, text: Text, members: seq<Member>)
    requires JsonSyntax.Space(p) && WritesObject(text, members)
    ensures Loads(p + text) == Some(Obj(members)) && Opens(text, LEFT_BRACE)
  {
    var t, after :| JsonSyntax.Proper(t) && JsonSyntax.Value(t) == Obj(members) && JsonSyntax.Space(after) && text == JsonSyntax.Source(t) + after;
    hide Loads, JsonSyntax.Source, JsonSyntax.Value;
    ObjectOpens(t);
    JsonSyntax.DocumentIsLoaded(p, t, after);
  }

  lemma LoadedIsWritten(document: Text, members: seq<Member>) returns (p: Text, text: Text)
    requires Loads(document) == Some(Obj(members))
    ensures JsonSyntax.Space(p) && WritesObject(text, members) && document == p + text && Opens(text, LEFT_BRACE)
  {
    hide Loads, JsonSyntax.Source, JsonSyntax.Value, JsonSyntax.Proper;
    JsonSyntax.LoadsExactlyDocuments(document, Obj(members));
    var before, t, after :| JsonSyntax.Space(before) && JsonSyntax.Proper(t) && JsonSyntax.Space(after)
      && JsonSyntax.Value(t) == Obj(members) && document == before + (JsonSyntax.Source(t) + after);
    p, text := before, JsonSyntax.Source(t) + after;
    ObjectOpens(t);
  }

  // -- Finding the object ----------------------------------------------------------

  lemma {:induction false} BlankIsStripped(p: Text, s: Text)
    requires s != [] && !IsSpace(s[0])
    ensures Blank(p) ==> LStrip(p + s) == s
    ensures !Blank(p) ==> LStrip(p + s) != [] && LStrip(p + s)[0] in p
  {
    if p == [] {
      assert p + s == s;
    } else {
      assert (p + s)[1..] == p[1..] + s;
      if IsSpace(p[0]) {
        BlankIsStripped(p[1..], s);
        assert Blank(p) <==> Blank(p[1..]) by { assert forall i :: 1 <= i < |p| ==> p[i] == p[1..][i - 1]; }
      }
    }
  }

  lemma FirstBrace(p: Text, text: Text)
    requires LEFT_BRACE !in p && Opens(text, LEFT_BRACE)
    ensures Find(p + text, [LEFT_BRACE], 0) == |p| && (p + text)[|p|..] == text
  {
    var raw := p + text;
    assert raw[|p|..|p| + 1] == [LEFT_BRACE];
    assert StandsAt(raw, [LEFT_BRACE], |p|);
    forall j: nat | j < |p| ensures !StandsAt(raw, [LEFT_BRACE], j) {
      assert raw[j..j + 1] == [p[j]];
    }
  }

  /** What the parser is given for an object behind something without a brace. */
  lemma CandidateOf(p: Text, text: Text)
    requires LEFT_BRACE !in p && Opens(text, LEFT_BRACE)
    ensures Candidate(p + text) == Some(if Blank(p) then p + text else text)
  {
    BlankIsStripped(p, text);
    FirstBrace(p, text);
    hide LStrip, Find;
  }

  /** White space that is not JSON's is not skipped. */
  lemma {:induction false} OddSpaceFails(p: Text, s: Text)
    requires Blank(p) && !JsonSyntax.Space(p)
    ensures Loads(p + s).None?
  {
    hide ParseValue;
    var i := FirstOdd(p, s);
    if ParseValue(SkipSpace(p + s)).Ok? {
      ValueOpens(SkipSpace(p + s));
    }
  }

  lemma {:induction false} FirstOdd(p: Text, s: Text) returns (i: nat)
    requires Blank(p) && !JsonSyntax.Space(p)
    ensures i < |p| && SkipSpace(p + s) == (p + s)[i..] && IsSpace(p[i]) && !IsJsonSpace(p[i])
  {
    if IsJsonSpace(p[0]) {
      assert (p + s)[1..] == p[1..] + s;
      assert !JsonSyntax.Space(p[1..]) by { assert forall k :: 1 <= k < |p| ==> p[k] == p[1..][k - 1]; }
      var k := FirstOdd(p[1..], s);
      i := k + 1;
      assert (p[1..] + s)[k..] == (p + s)[k + 1..];
    } else {
      i := 0;
      assert (p + s)[0..] == p + s;
    }
  }

  // -- The characterisation --------------------------------------------------------

  lemma EnvelopeIsRead(raw: Text, content: Text, members: seq<Member>)
    requires IsEnvelope(raw, content, members)
    ensures EnvelopeContent(raw) == Some((content, members))
  {
    hide Loads, Candidate, WritesObject, Blank;
    var p, text :| Preamble(p) && WritesObject(text, members) && raw == p + text;
    ObjectIsLoaded([], text, members);
    assert [] + text == text;
    CandidateOf(p, text);
    if Blank(p) {
      ObjectIsLoaded(p, text, members);
    }
  }

  lemma ReadIsEnvelope(raw: Text)
    requires EnvelopeContent(raw).Some?
    ensures IsEnvelope(raw, EnvelopeContent(raw).value.0, EnvelopeContent(raw).value.1)
  {
    hide Loads, WritesObject, Blank, LStrip, Find;
    var (content, members) := EnvelopeContent(raw).value;
    var candidate := Candidate(raw).value;
    var before, text := LoadedIsWritten(candidate, members);
    if Opens(LStrip(raw), LEFT_BRACE) {
      SpaceHoldsNoBrace(before);
    } else {
      var brace := Find(raw, [LEFT_BRACE], 0);
      FoundBrace(raw, brace);
      NoSpaceBefore(before, text);
      BlankIsStripped(raw[..brace], text);
      assert raw == raw[..brace] + text;
    }
  }

  lemma SpaceHoldsNoBrace(p: Text)
    requires JsonSyntax.Space(p)
    ensures Preamble(p)
  {
  }

  lemma FoundBrace(raw: Text, brace: nat)
    requires brace == Find(raw, [LEFT_BRACE], 0)
    ensures brace < |raw| && Opens(raw[brace..], LEFT_BRACE) && LEFT_BRACE !in raw[..brace]
  {
    assert raw[brace..brace + 1] == [LEFT_BRACE];
    forall j | 0 <= j < brace ensures raw[j] != LEFT_BRACE {
      assert !StandsAt(raw, [LEFT_BRACE], j);
      assert raw[j..j + 1] == [raw[j]];
    }
  }

  lemma NoSpaceBefore(before: Text, text: Text)
    requires JsonSyntax.Space(before) && Opens(before + text, LEFT_BRACE)
    ensures before == []
  {
    FirstOfTwo(before, text);
  }

  lemma FirstOfTwo(a: Text, b: Text)
    ensures a != [] ==> (a + b)[0] == a[0]
  {
  }

  /** `parse_completion` on every raw reply: it has usable content if and only if it is written
      as an envelope, with nothing before it but a preamble; then the content is the member's
      text repaired, and the target its positive integer. Anything else degrades to the raw
      text. */
  lemma ParsesExactlyEnvelopes(raw: Text)
    ensures (exists content, members :: IsEnvelope(raw, content, members)) || ParseCompletion(raw) == Reply(raw, None)
    ensures forall content, members :: IsEnvelope(raw, content, members) ==>
      && ParseCompletion(raw).content == Repair(content)
      && forall n :: ParseCompletion(raw).replyTo == Some(n) <==> Get(members, REPLY_TO_ID) == Some(Int(n)) && n > 0
  {
    hide EnvelopeContent, IsEnvelope;
    if EnvelopeContent(raw).Some? {
      ReadIsEnvelope(raw);
    }
    forall content, members | IsEnvelope(raw, content, members) ensures EnvelopeContent(raw) == Some((content, members)) {
      EnvelopeIsRead(raw, content, members);
    }
  }

  /** A preamble before the object is tolerated, whatever it says, if and only if it is not made
      of white space that JSON does not know; then the raw text is the reply. */
  lemma PreambleIsTolerated(p: Text, members: seq<Member>, style: JsonDump.Style)
    requires LEFT_BRACE !in p && JsonDump.Plain(Obj(members))
    requires match Get(members, CONTENT) case Some(Str(t)) => !Blank(t) case _ => false
    ensures
      var raw, content := p + JsonDump.Dump(Obj(members), style), Get(members, CONTENT).value.text;
      if Blank(p) && !JsonSyntax.Space(p) then ParseCompletion(raw) == Reply(raw, None)
      else
        && ParseCompletion(raw).content == Repair(content)
        && forall n :: ParseCompletion(raw).replyTo == Some(n) <==> Get(members, REPLY_TO_ID) == Some(Int(n)) && n > 0
  {
    hide Loads, Blank, JsonDump.Dump, ParseCompletion;
    var text := JsonDump.Dump(Obj(members), style);
    DumpIsWritten(members, style);
    if Blank(p) && !JsonSyntax.Space(p) {
      CandidateOf(p, text);
      OddSpaceFails(p, text);
      NothingRead(p + text);
    } else {
      assert IsEnvelope(p + text, Get(members, CONTENT).value.text, members);
      ParsesExactlyEnvelopes(p + text);
    }
  }

  lemma NothingRead(raw: Text)
    requires EnvelopeContent(raw).None?
    ensures ParseCompletion(raw) == Reply(raw, None)
  {
  }

  lemma DumpIsWritten(members: seq<Member>, style: JsonDump.Style)
    requires JsonDump.Plain(Obj(members))
    ensures var text := JsonDump.Dump(Obj(members), style); WritesObject(text, members) && Opens(text, LEFT_BRACE)
  {
    var text := JsonDump.Dump(Obj(members), style);
    assert Opens(text, LEFT_BRACE);
    hide Loads, JsonDump.Dump;
    JsonDump.LoadsDump(Obj(members), style);
    var before, written := LoadedIsWritten(text, members);
    NoSpaceBefore(before, written);
    assert before + written == written;
  }
}
