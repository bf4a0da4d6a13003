/** What the client is shown while a reply arrives in pieces, place by place, for every reply:
    surrogates of its own, pairs torn between two pieces and replies outside the contract
    included (backend/app/services/ai_service.py). */
module Seams {
  import opened Unicode
  import opened Wrappers
  import opened Surrogates
  import opened Json
  import opened Extractor
  import opened Completion
  import opened StreamedContent
  import opened ReplyStream
  import opened RawReplies

  /** The extraction once the first `i` pieces have arrived. */
  function Seen(chunks: seq<Text>, i: nat, int16: HexReader): Option<Text>
    requires i <= |chunks|
  {
    Extract(Concat(chunks[..i]), int16)
  }

  /** The first `i` pieces are enough to show the place `k`. */
  predicate Reaches(chunks: seq<Text>, i: int, k: nat, int16: HexReader) {
    0 <= i <= |chunks| && Seen(chunks, i, int16).Some? && k < |Seen(chunks, i, int16).value|
  }

  /** And fewer pieces are not. */
  predicate First(chunks: seq<Text>, i: nat, k: nat, int16: HexReader) {
    Reaches(chunks, i, k, int16) && forall j :: 0 <= j < i ==> !Reaches(chunks, j, k, int16)
  }

  // -- Place by place --------------------------------------------------------------

  /** The place shows what the first extraction long enough has there. */
  ghost predicate ShownAt(chunks: seq<Text>, k: nat, c: CodePoint, int16: HexReader) {
    exists i: nat :: First(chunks, i, k, int16) && Seen(chunks, i, int16).value[k] == c
  }

  /** The text forwarded last is the first extraction of its length. */
  ghost predicate Longest(chunks: seq<Text>, emitted: Text, int16: HexReader) {
    emitted != [] ==> exists i: nat :: First(chunks, i, |emitted| - 1, int16) && Seen(chunks, i, int16).value == emitted
  }

  /** What is known of the shown text: its length, its characters, and that no extraction so
      far was longer. */
  ghost predicate PlaceByPlace(chunks: seq<Text>, emitted: Text, shown: Text, int16: HexReader) {
    && |shown| == |emitted| && Longest(chunks, emitted, int16)
    && (forall k :: 0 <= k < |shown| ==> ShownAt(chunks, k, shown[k], int16))
    && (forall i :: 0 <= i <= |chunks| && Seen(chunks, i, int16).Some? ==> |Seen(chunks, i, int16).value| <= |shown|)
  }

  /** Whatever the pieces are, every place shows what the first extraction that was long
      enough had there, and goes on showing it. */
  lemma {:induction false} ShownPlaceByPlace(chunks: seq<Text>, int16: HexReader)
    ensures var f := After(chunks, int16); PlaceByPlace(chunks, f.emitted, Shown(f.events), int16)
  {
    hide Extract, Forwarded;
    if chunks == [] {
      ShownOne(MessageCreated);
      NothingExtracted(int16);
    } else {
      var n := |chunks| - 1;
      ShownPlaceByPlace(chunks[..n], int16);
      NextPiece(chunks, n, int16);
    }
  }

  lemma NextPiece(chunks: seq<Text>, n: nat, int16: HexReader)
    requires n == |chunks| - 1
    requires var before := After(chunks[..n], int16); PlaceByPlace(chunks[..n], before.emitted, Shown(before.events), int16)
    ensures var f := After(chunks, int16); PlaceByPlace(chunks, f.emitted, Shown(f.events), int16)
  {
    hide Extract, PlaceByPlace;
    var before, f := After(chunks[..n], int16), After(chunks, int16);
    ReceivedAll(chunks, int16);
    assert chunks[..n + 1] == chunks;
    assert Seen(chunks, n + 1, int16) == Extract(f.buffer, int16);
    match LongerExtraction(f.buffer, before.emitted, int16)
    case None => PieceHeld(chunks, n, before.emitted, Shown(before.events), int16);
    case Some(x) =>
      ShownMore(before.events, MessageDelta(x[|before.emitted|..]));
      PieceShown(chunks, n, before.emitted, Shown(before.events), x, int16);
  }

  /** Fewer pieces, seen from more. */
  lemma FewerPieces(chunks: seq<Text>, n: nat, int16: HexReader)
    requires n <= |chunks|
    ensures forall i :: 0 <= i <= n ==> Seen(chunks[..n], i, int16) == Seen(chunks, i, int16)
    ensures forall i: nat, k: nat :: First(chunks[..n], i, k, int16) ==> First(chunks, i, k, int16)
  {
    hide Extract;
    assert forall i :: 0 <= i <= n ==> chunks[..n][..i] == chunks[..i];
    forall i: nat, k: nat | First(chunks[..n], i, k, int16) ensures First(chunks, i, k, int16) {
      forall j | 0 <= j < i ensures !Reaches(chunks, j, k, int16) {
        assert !Reaches(chunks[..n], j, k, int16);
      }
    }
  }

  lemma PieceHeld(chunks: seq<Text>, n: nat, emitted: Text, shown: Text, int16: HexReader)
    requires n == |chunks| - 1 && PlaceByPlace(chunks[..n], emitted, shown, int16)
    requires Seen(chunks, n + 1, int16).Some? ==> |Seen(chunks, n + 1, int16).value| <= |emitted|
    ensures PlaceByPlace(chunks, emitted, shown, int16)
  {
    hide Seen, First;
    FewerPieces(chunks, n, int16);
    forall k | 0 <= k < |shown| ensures ShownAt(chunks, k, shown[k], int16) {
      FewerShow(chunks, n, k, shown[k], int16);
    }
    LongestKept(chunks, n, emitted, int16);
  }

  lemma LongestKept(chunks: seq<Text>, n: nat, emitted: Text, int16: HexReader)
    requires n <= |chunks| && Longest(chunks[..n], emitted, int16)
    ensures Longest(chunks, emitted, int16)
  {
    FewerPieces(chunks, n, int16);
    hide Seen;
    if emitted != [] {
      var i: nat :| First(chunks[..n], i, |emitted| - 1, int16) && Seen(chunks[..n], i, int16).value == emitted;
      assert First(chunks, i, |emitted| - 1, int16);
    }
  }

  lemma FewerShow(chunks: seq<Text>, n: nat, k: nat, c: CodePoint, int16: HexReader)
    requires n <= |chunks| && ShownAt(chunks[..n], k, c, int16)
    ensures ShownAt(chunks, k, c, int16)
  {
    FewerPieces(chunks, n, int16);
    hide Seen;
    var i: nat :| First(chunks[..n], i, k, int16) && Seen(chunks[..n], i, int16).value[k] == c;
    assert First(chunks, i, k, int16);
  }

  lemma PieceShown(chunks: seq<Text>, n: nat, emitted: Text, shown: Text, x: Text, int16: HexReader)
    requires n == |chunks| - 1 && PlaceByPlace(chunks[..n], emitted, shown, int16)
    requires Seen(chunks, n + 1, int16) == Some(x) && |x| > |emitted|
    ensures PlaceByPlace(chunks, x, shown + x[|emitted|..], int16)
  {
    hide Seen, First, Longest;
    FewerPieces(chunks, n, int16);
    var longer := shown + x[|emitted|..];
    forall k | 0 <= k < |longer| ensures ShownAt(chunks, k, longer[k], int16) {
      if k < |shown| {
        FewerShow(chunks, n, k, shown[k], int16);
      } else {
        IsFirst(chunks, n + 1, k, int16);
      }
    }
    IsFirst(chunks, n + 1, |x| - 1, int16);
    LongestNow(chunks, n + 1, x, int16);
  }

  lemma LongestNow(chunks: seq<Text>, i: nat, x: Text, int16: HexReader)
    requires x != [] && First(chunks, i, |x| - 1, int16) && Seen(chunks, i, int16).value == x
    ensures Longest(chunks, x, int16)
  {
  }

  lemma IsFirst(chunks: seq<Text>, i: nat, k: nat, int16: HexReader)
    requires Reaches(chunks, i, k, int16)
    requires forall j :: 0 <= j < i && Seen(chunks, j, int16).Some? ==> |Seen(chunks, j, int16).value| <= k
    ensures First(chunks, i, k, int16)
  {
    hide Seen;
  }

  // -- Torn pairs ------------------------------------------------------------------

  /** The text decoded from the first `i` pieces. */
  function DecodedAt(chunks: seq<Text>, i: nat, int16: HexReader): (t: Text)
    requires i <= |chunks| && Seen(chunks, i, int16).Some?
    ensures Seen(chunks, i, int16) == Some(Repair(t))
  {
    Decoded(Concat(chunks[..i]), int16).value
  }

  /** What has been decoded only grows, and an extraction is a prefix of a later one if and
      only if no pair is torn between them. */
  lemma Later(chunks: seq<Text>, i: nat, j: nat, int16: HexReader)
    requires i <= j <= |chunks| && Seen(chunks, i, int16).Some? && Seen(chunks, j, int16).Some?
    ensures DecodedAt(chunks, i, int16) <= DecodedAt(chunks, j, int16)
    ensures Seen(chunks, i, int16).value <= Seen(chunks, j, int16).value
      <==> !Tears(DecodedAt(chunks, i, int16), DecodedAt(chunks, j, int16))
  {
    hide Extract, Decoded, Tears;
    ConcatAppend(chunks[..i], chunks[i..j]);
    assert chunks[..j] == chunks[..i] + chunks[i..j];
    ExtractGrowsIff(Concat(chunks[..i]), Concat(chunks[i..j]), int16);
  }

  lemma LongerIsLater(chunks: seq<Text>, i: nat, j: nat, int16: HexReader)
    requires i <= |chunks| && j <= |chunks| && Seen(chunks, i, int16).Some? && Seen(chunks, j, int16).Some?
    requires |Seen(chunks, i, int16).value| < |Seen(chunks, j, int16).value|
    ensures i < j
  {
    hide Seen, Tears, Decoded;
    if j <= i {
      Later(chunks, j, i, int16);
      RepairOfPrefix(DecodedAt(chunks, j, int16), DecodedAt(chunks, i, int16));
    }
  }

  /** A pair torn after `i` pieces stays visible: its place shows U+FFFD for good, and the
      completed text does not have it there. */
  lemma SeamShows(chunks: seq<Text>, i: nat, t: Text, int16: HexReader)
    requires i <= |chunks| && Seen(chunks, i, int16).Some? && Tears(DecodedAt(chunks, i, int16), t)
    ensures var shown, k := Shown(After(chunks, int16).events), |Seen(chunks, i, int16).value| - 1;
      0 <= k < |shown| && k < |Repair(t)| && shown[k] != Repair(t)[k]
  {
    hide Seen, DecodedAt, Shown, After;
    var shown, p := Shown(After(chunks, int16).events), DecodedAt(chunks, i, int16);
    var k := |Repair(p)| - 1;
    ShownPlaceByPlace(chunks, int16);
    RepairOfPrefix(p, t);
    hide Tears, Repair;
    assert ShownAt(chunks, k, shown[k], int16);
    var m: nat :| First(chunks, m, k, int16) && Seen(chunks, m, int16).value[k] == shown[k];
    assert Reaches(chunks, i, k, int16);
    Later(chunks, m, i, int16);
    var q := DecodedAt(chunks, m, int16);
    RepairOfPrefix(q, p);
    if q != p {
      CompletedPair(q, p);
      EndsHigh(p, t);
    }
  }

  lemma EndsHigh(p: Text, t: Text)
    requires Tears(p, t)
    ensures p != [] && IsHigh(p[|p| - 1])
  {
  }

  // -- What is shown while the reply streams ---------------------------------------

  /** No piece ends inside a pair that a longer extraction then completes. */
  predicate Seamless(chunks: seq<Text>, int16: HexReader) {
    forall i, j :: 0 <= i <= |chunks| && 0 <= j <= |chunks| && Seen(chunks, i, int16).Some? && Seen(chunks, j, int16).Some?
      && |Seen(chunks, i, int16).value| < |Seen(chunks, j, int16).value|
      ==> Seen(chunks, i, int16).value <= Seen(chunks, j, int16).value
  }

  lemma SeamlessShows(chunks: seq<Text>, int16: HexReader)
    requires Seamless(chunks, int16)
    ensures Shown(After(chunks, int16).events) == After(chunks, int16).emitted
  {
    hide Seen, Shown, After, Seamless;
    var f := After(chunks, int16);
    var shown := Shown(f.events);
    ShownPlaceByPlace(chunks, int16);
    forall k | 0 <= k < |shown| ensures shown[k] == f.emitted[k] {
      assert ShownAt(chunks, k, shown[k], int16);
      var i: nat :| First(chunks, i, k, int16) && Seen(chunks, i, int16).value[k] == shown[k];
      var n: nat :| First(chunks, n, |shown| - 1, int16) && Seen(chunks, n, int16).value == f.emitted;
      SamePlace(chunks, i, n, k, |shown| - 1, int16);
    }
  }

  /** The extraction that first shows a place has there what the longest one has. */
  lemma SamePlace(chunks: seq<Text>, i: nat, n: nat, k: nat, last: nat, int16: HexReader)
    requires Seamless(chunks, int16) && k <= last && First(chunks, i, k, int16) && First(chunks, n, last, int16)
    requires |Seen(chunks, i, int16).value| <= |Seen(chunks, n, int16).value| == last + 1
    ensures Seen(chunks, i, int16).value[k] == Seen(chunks, n, int16).value[k]
  {
    hide Seen;
    if |Seen(chunks, i, int16).value| == |Seen(chunks, n, int16).value| {
      assert Reaches(chunks, i, last, int16);
      assert Reaches(chunks, n, k, int16);
    }
  }

  /** The deltas spell the text forwarded last if and only if no extraction was overtaken by
      a longer one that it is not a prefix of. */
  lemma ShownIsEmittedIff(chunks: seq<Text>, int16: HexReader)
    ensures Shown(After(chunks, int16).events) == After(chunks, int16).emitted <==> Seamless(chunks, int16)
  {
    hide Seen, Shown, After;
    var f := After(chunks, int16);
    if Seamless(chunks, int16) {
      SeamlessShows(chunks, int16);
    } else {
      var i, j :| 0 <= i <= |chunks| && 0 <= j <= |chunks| && Seen(chunks, i, int16).Some? && Seen(chunks, j, int16).Some?
        && |Seen(chunks, i, int16).value| < |Seen(chunks, j, int16).value|
        && !(Seen(chunks, i, int16).value <= Seen(chunks, j, int16).value);
      SeamInEmitted(chunks, i, j, int16);
    }
  }

  lemma SeamInEmitted(chunks: seq<Text>, i: nat, j: nat, int16: HexReader)
    requires i <= |chunks| && j <= |chunks| && Seen(chunks, i, int16).Some? && Seen(chunks, j, int16).Some?
    requires |Seen(chunks, i, int16).value| < |Seen(chunks, j, int16).value|
    requires !(Seen(chunks, i, int16).value <= Seen(chunks, j, int16).value)
    ensures Shown(After(chunks, int16).events) != After(chunks, int16).emitted
  {
    hide Seen, Shown, After, Decoded;
    var f := After(chunks, int16);
    ShownPlaceByPlace(chunks, int16);
    LongerIsLater(chunks, i, j, int16);
    Later(chunks, i, j, int16);
    var n: nat :| First(chunks, n, |f.emitted| - 1, int16) && Seen(chunks, n, int16).value == f.emitted;
    LongerIsLater(chunks, i, n, int16);
    Later(chunks, i, n, int16);
    var p, q, r := DecodedAt(chunks, i, int16), DecodedAt(chunks, j, int16), DecodedAt(chunks, n, int16);
    if n <= j { Later(chunks, n, j, int16); } else { Later(chunks, j, n, int16); }
    assert p != r;
    TearsOn(p, q, r);
    SeamShows(chunks, i, r, int16);
  }

  lemma TearsOn(p: Text, q: Text, r: Text)
    requires Tears(p, q) && p <= r && p != r && (q <= r || r <= q)
    ensures Tears(p, r)
  {
  }

  // -- What is shown and what is stored --------------------------------------------

  /** The raw text of a persisted reply. */
  function RawOf(arrivals: seq<Arrival>, int16: HexReader): (raw: Text)
    requires LastCompletion(arrivals).Some?
  {
    RawReply(After(Chunks(arrivals), int16).buffer, LastCompletion(arrivals).value)
  }

  /** The deltas spell the stored content exactly when what was shown while the reply streamed
      is its beginning. */
  lemma ShownBegins(arrivals: seq<Arrival>, known: set<int>, int16: HexReader)
    requires Respond(arrivals, known, int16).persisted.Some?
    ensures LastCompletion(arrivals).Some?
    ensures
      var Response(events, persisted) := Respond(arrivals, known, int16);
      var content, f := persisted.value.content, After(Chunks(arrivals), int16);
      && (Shown(events) == content <==> Shown(f.events) <= content)
      && match EnvelopeContent(RawOf(arrivals, int16))
         case Some((t, _)) => content == Repair(t)
         case None => content == if f.emitted != [] then f.emitted else RawOf(arrivals, int16)
  {
    hide Respond, Chunks, After, Shown, LastCompletion, EnvelopeContent, OnlyDeltas, PlaceByPlace;
    var f := After(Chunks(arrivals), int16);
    PersistedReply(arrivals, known, int16);
    ShownPlaceByPlace(Chunks(arrivals), int16);
    SameLength(Chunks(arrivals), f.emitted, Shown(f.events), int16);
    var raw := RawReply(f.buffer, LastCompletion(arrivals).value);
    ContentIsShorter(raw);
    var content := Resolve(raw, f.emitted).content;
    var (closing, stored) := Closing(raw, f.emitted, known);
    ShownClosing(Remaining(content, f.emitted), stored);
    ShownAppend(f.events, closing);
    Begins(Shown(f.events), f.emitted, content);
  }

  lemma SameLength(chunks: seq<Text>, emitted: Text, shown: Text, int16: HexReader)
    requires PlaceByPlace(chunks, emitted, shown, int16)
    ensures |shown| == |emitted|
  {
  }

  lemma Begins(shown: Text, emitted: Text, content: Text)
    requires |shown| == |emitted|
    ensures shown + Remaining(content, emitted) == content <==> shown <= content
  {
    if shown <= content {
      assert shown + content[|shown|..] == content;
    }
  }

  /** Every extraction that shows something for the first time shows it as it is stored. */
  ghost predicate ShowsOnly(chunks: seq<Text>, content: Text, int16: HexReader) {
    forall i: nat, k: nat :: First(chunks, i, k, int16) ==> k < |content| && Seen(chunks, i, int16).value[k] == content[k]
  }

  /** For every reply and every way the provider cuts it: the deltas spell the stored content
      if and only if at every place the first extraction that reaches it has there what is
      stored there. */
  lemma ShownIsPersistedIff(arrivals: seq<Arrival>, known: set<int>, int16: HexReader)
    requires Respond(arrivals, known, int16).persisted.Some?
    ensures
      var Response(events, persisted) := Respond(arrivals, known, int16);
      Shown(events) == persisted.value.content <==> ShowsOnly(Chunks(arrivals), persisted.value.content, int16)
  {
    hide Respond, Chunks, After, Shown, LastCompletion, EnvelopeContent, ShowsOnly, RawOf;
    var chunks, content := Chunks(arrivals), Respond(arrivals, known, int16).persisted.value.content;
    ShownBegins(arrivals, known, int16);
    ShownPlaceByPlace(chunks, int16);
    BeginsIff(chunks, After(chunks, int16).emitted, Shown(After(chunks, int16).events), content, int16);
  }

  lemma PlaceIsStored(chunks: seq<Text>, emitted: Text, shown: Text, content: Text, k: nat, int16: HexReader)
    requires PlaceByPlace(chunks, emitted, shown, int16) && ShowsOnly(chunks, content, int16) && k < |shown|
    ensures k < |content| && shown[k] == content[k]
  {
    hide Seen, Longest;
    assert ShownAt(chunks, k, shown[k], int16);
  }

  lemma BeginsIff(chunks: seq<Text>, emitted: Text, shown: Text, content: Text, int16: HexReader)
    requires PlaceByPlace(chunks, emitted, shown, int16)
    ensures shown <= content <==> ShowsOnly(chunks, content, int16)
  {
    hide Seen, Longest;
    if ShowsOnly(chunks, content, int16) {
      if |shown| > |content| {
        PlaceIsStored(chunks, emitted, shown, content, |content|, int16);
      }
      forall k | 0 <= k < |shown| ensures shown[k] == content[k] {
        PlaceIsStored(chunks, emitted, shown, content, k, int16);
      }
    }
    if shown <= content {
      forall i: nat, k: nat | First(chunks, i, k, int16) ensures k < |content| && Seen(chunks, i, int16).value[k] == content[k] {
        assert ShownAt(chunks, k, shown[k], int16);
        var j: nat :| First(chunks, j, k, int16) && Seen(chunks, j, int16).value[k] == shown[k];
        assert i == j;
      }
    }
  }

  /** The extractions agree with what is stored: with the content the parser reads, or with
      each other when there is none. */
  predicate Unbroken(chunks: seq<Text>, raw: Text, int16: HexReader) {
    match EnvelopeContent(raw)
    case Some((t, _)) =>
      forall i :: 0 <= i <= |chunks| && Seen(chunks, i, int16).Some? ==> Seen(chunks, i, int16).value <= Repair(t)
    case None => Seamless(chunks, int16)
  }

  /** Extractions that agree with what is stored are enough, for every reply. */
  lemma UnbrokenIsShown(arrivals: seq<Arrival>, known: set<int>, int16: HexReader)
    requires Respond(arrivals, known, int16).persisted.Some? && LastCompletion(arrivals).Some?
    requires Unbroken(Chunks(arrivals), RawOf(arrivals, int16), int16)
    ensures var Response(events, persisted) := Respond(arrivals, known, int16); Shown(events) == persisted.value.content
  {
    hide Respond, Chunks, After, Shown, LastCompletion, EnvelopeContent, RawOf, Seen;
    var chunks := Chunks(arrivals);
    ShownBegins(arrivals, known, int16);
    match EnvelopeContent(RawOf(arrivals, int16))
    case Some((t, _)) =>
      ShownPlaceByPlace(chunks, int16);
      BeginsIff(chunks, After(chunks, int16).emitted, Shown(After(chunks, int16).events), Repair(t), int16);
    case None => SeamlessShows(chunks, int16);
  }

  /** For every reply within the contract, surrogates of its own included, and every way the
      provider cuts it: the deltas spell the stored content if and only if no piece ends
      inside a pair that more text then completes, as every extraction is then a prefix of the
      content (or, when there is none to parse, of the longer extractions). */
  lemma ShownIsPersistedExactly(arrivals: seq<Arrival>, known: set<int>, int16: HexReader)
    requires ReadsHex(int16) && Respond(arrivals, known, int16).persisted.Some? && LastCompletion(arrivals).Some?
    requires WithinContract(RawOf(arrivals, int16))
    ensures
      var Response(events, persisted) := Respond(arrivals, known, int16);
      Shown(events) == persisted.value.content <==> Unbroken(Chunks(arrivals), RawOf(arrivals, int16), int16)
  {
    hide Respond, Chunks, After, Shown, LastCompletion, EnvelopeContent, ReadsHex, Seen, WithinContract;
    var chunks, raw := Chunks(arrivals), RawOf(arrivals, int16);
    ShownBegins(arrivals, known, int16);
    if Unbroken(chunks, raw, int16) {
      UnbrokenIsShown(arrivals, known, int16);
    } else {
      ReceivedAll(chunks, int16);
      match EnvelopeContent(raw)
      case Some((t, _)) =>
        var i :| 0 <= i <= |chunks| && Seen(chunks, i, int16).Some? && !(Seen(chunks, i, int16).value <= Repair(t));
        TornFromContent(chunks, raw, i, int16);
        SeamShows(chunks, i, t, int16);
      case None =>
        ShownIsEmittedIff(chunks, int16);
        ShownPlaceByPlace(chunks, int16);
        SameLength(chunks, After(chunks, int16).emitted, Shown(After(chunks, int16).events), int16);
    }
  }

  lemma TornFromContent(chunks: seq<Text>, raw: Text, i: nat, int16: HexReader)
    requires ReadsHex(int16) && WithinContract(raw) && EnvelopeContent(raw).Some? && (Concat(chunks) != [] ==> raw == Concat(chunks))
    requires i <= |chunks| && Seen(chunks, i, int16).Some? && !(Seen(chunks, i, int16).value <= Repair(EnvelopeContent(raw).value.0))
    ensures Tears(DecodedAt(chunks, i, int16), EnvelopeContent(raw).value.0)
  {
    hide Extract, ReadsHex, EnvelopeContent, WithinContract, Decoded, Tears, Concat, Repair;
    NothingExtracted(int16);
    PiecesJoin(chunks, i);
    ExtractPrecedesIff(Concat(chunks[..i]), Concat(chunks[i..]), int16);
  }

  lemma PiecesJoin(chunks: seq<Text>, i: nat)
    requires i <= |chunks|
    ensures Concat(chunks) == Concat(chunks[..i]) + Concat(chunks[i..])
    ensures Concat(chunks) == [] ==> Concat(chunks[..i]) == []
  {
    hide Concat;
    ConcatAppend(chunks[..i], chunks[i..]);
    assert chunks == chunks[..i] + chunks[i..];
    assert |Concat(chunks[..i])| <= |Concat(chunks)|;
  }

  // -- Every cut -------------------------------------------------------------------

  /** The provider sends a reply in these pieces and completes it. */
  function Pieces(chunks: seq<Text>, completion: Text): (arrivals: seq<Arrival>)
    ensures |arrivals| == |chunks| + 1
  {
    if chunks == [] then [Arrival(Completed(completion), false)]
    else [Arrival(Delta(chunks[0]), false)] + Pieces(chunks[1..], completion)
  }

  lemma {:induction false} PiecesAt(chunks: seq<Text>, completion: Text)
    ensures forall i :: 0 <= i < |chunks| ==> Pieces(chunks, completion)[i] == Arrival(Delta(chunks[i]), false)
    ensures Pieces(chunks, completion)[|chunks|] == Arrival(Completed(completion), false)
  {
    if chunks != [] {
      PiecesAt(chunks[1..], completion);
    }
  }

  lemma {:induction false} ChunksOfDeltas(arrivals: seq<Arrival>, chunks: seq<Text>)
    requires |arrivals| == |chunks| && forall i :: 0 <= i < |chunks| ==> arrivals[i] == Arrival(Delta(chunks[i]), false)
    ensures Chunks(arrivals) == chunks
  {
    if chunks != [] {
      var n := |chunks| - 1;
      ChunksOfDeltas(arrivals[..n], chunks[..n]);
      assert chunks == chunks[..n] + [chunks[n]];
    }
  }

  lemma PiecesArrive(chunks: seq<Text>, completion: Text, known: set<int>, int16: HexReader)
    ensures var arrivals := Pieces(chunks, completion);
      && Chunks(arrivals) == chunks && LastCompletion(arrivals) == Some(completion)
      && Respond(arrivals, known, int16).persisted.Some?
  {
    hide After, Closing;
    var arrivals := Pieces(chunks, completion);
    PiecesAt(chunks, completion);
    ConsumedIs(arrivals, |arrivals|);
    ChunksOfDeltas(arrivals[..|chunks|], chunks);
    assert chunks + [] == chunks;
  }

  /** Sent in these pieces, the reply is shown as it is stored. */
  predicate ShownWhole(chunks: seq<Text>, completion: Text, known: set<int>, int16: HexReader) {
    var Response(events, persisted) := Respond(Pieces(chunks, completion), known, int16);
    persisted.Some? && Shown(events) == persisted.value.content
  }

  /** The prefixes of a reply extract to prefixes of the content; without content to parse, of
      every longer extraction. */
  predicate PrefixesAgree(raw: Text, int16: HexReader) {
    match EnvelopeContent(raw)
    case Some((t, _)) =>
      forall k :: 0 <= k <= |raw| && Extract(raw[..k], int16).Some? ==> Extract(raw[..k], int16).value <= Repair(t)
    case None =>
      forall j, k :: 0 <= j <= |raw| && 0 <= k <= |raw| && Extract(raw[..j], int16).Some? && Extract(raw[..k], int16).Some?
        && |Extract(raw[..j], int16).value| < |Extract(raw[..k], int16).value|
        ==> Extract(raw[..j], int16).value <= Extract(raw[..k], int16).value
  }

  /** The promise as a property of the reply alone: however it is cut, the client is shown
      exactly what is stored, if and only if its prefixes agree. */
  lemma EveryCutIsShown(raw: Text, known: set<int>, int16: HexReader)
    requires raw != []
    ensures (forall chunks :: Concat(chunks) == raw ==> ShownWhole(chunks, raw, known, int16)) <==> PrefixesAgree(raw, int16)
  {
    hide Extract, EnvelopeContent, Respond, Shown, Concat, ShownWhole;
    if PrefixesAgree(raw, int16) {
      forall chunks | Concat(chunks) == raw ensures ShownWhole(chunks, raw, known, int16) {
        CutAgrees(chunks, raw, known, int16);
      }
    } else {
      var chunks := BadCut(raw, known, int16);
    }
  }

  lemma CutAgrees(chunks: seq<Text>, raw: Text, known: set<int>, int16: HexReader)
    requires Concat(chunks) == raw != [] && PrefixesAgree(raw, int16)
    ensures ShownWhole(chunks, raw, known, int16)
  {
    hide Extract, EnvelopeContent, Respond, Shown, Concat, LastCompletion, Chunks;
    PiecesArrive(chunks, raw, known, int16);
    ReceivedAll(chunks, int16);
    forall i | 0 <= i <= |chunks| ensures |Concat(chunks[..i])| <= |raw| && Concat(chunks[..i]) == raw[..|Concat(chunks[..i])|] {
      ConcatAppend(chunks[..i], chunks[i..]);
      assert chunks == chunks[..i] + chunks[i..];
    }
    UnbrokenIsShown(Pieces(chunks, raw), known, int16);
  }

  /** A cut that shows something else. */
  lemma BadCut(raw: Text, known: set<int>, int16: HexReader) returns (chunks: seq<Text>)
    requires raw != [] && !PrefixesAgree(raw, int16)
    ensures Concat(chunks) == raw && !ShownWhole(chunks, raw, known, int16)
  {
    hide Extract, EnvelopeContent, Respond, Shown, Concat, ShownWhole;
    match EnvelopeContent(raw)
    case Some((t, _)) =>
      var k :| 0 <= k <= |raw| && Extract(raw[..k], int16).Some? && !(Extract(raw[..k], int16).value <= Repair(t));
      chunks := CutOnce(raw, t, k, known, int16);
    case None =>
      var j, k :| 0 <= j <= |raw| && 0 <= k <= |raw| && Extract(raw[..j], int16).Some? && Extract(raw[..k], int16).Some?
        && |Extract(raw[..j], int16).value| < |Extract(raw[..k], int16).value|
        && !(Extract(raw[..j], int16).value <= Extract(raw[..k], int16).value);
      chunks := CutTwice(raw, j, k, known, int16);
  }

  lemma ConcatOfThree(a: Text, b: Text, c: Text)
    ensures var chunks := [a, b, c];
      Concat(chunks[..0]) == [] && Concat(chunks[..1]) == a && Concat(chunks[..2]) == a + b && Concat(chunks) == a + b + c
  {
    var chunks := [a, b, c];
    BufferGrows([], a);
    BufferGrows([a], b);
    BufferGrows([a, b], c);
    assert chunks[..0] == [] && chunks[..1] == [] + [a] && chunks[..2] == [a] + [b] && chunks == [a, b] + [c] && [] + a == a;
  }

  /** Cut where an extraction is not a prefix of the content: it is shown nevertheless. */
  lemma CutOnce(raw: Text, t: Text, k: nat, known: set<int>, int16: HexReader) returns (chunks: seq<Text>)
    requires raw != [] && k <= |raw| && EnvelopeContent(raw).Some? && EnvelopeContent(raw).value.0 == t
    requires Extract(raw[..k], int16).Some? && !(Extract(raw[..k], int16).value <= Repair(t))
    ensures Concat(chunks) == raw && !ShownWhole(chunks, raw, known, int16)
  {
    hide Extract, EnvelopeContent, Respond, Shown, Concat, After, LastCompletion, Chunks;
    chunks := [raw[..k], raw[k..], []];
    ConcatOfThree(raw[..k], raw[k..], []);
    assert raw[..k] + raw[k..] + [] == raw;
    PiecesArrive(chunks, raw, known, int16);
    ReceivedAll(chunks, int16);
    NothingExtracted(int16);
    var x := Extract(raw[..k], int16).value;
    assert Seen(chunks, 1, int16) == Some(x) && Seen(chunks, 0, int16).None?;
    ShownIsPersistedIff(Pieces(chunks, raw), known, int16);
    ShownBegins(Pieces(chunks, raw), known, int16);
    if ShownWhole(chunks, raw, known, int16) {
      FirstPieceIsKept(chunks, x, Repair(t), int16);
    }
  }

  lemma FirstPieceIsKept(chunks: seq<Text>, x: Text, content: Text, int16: HexReader)
    requires chunks != [] && Seen(chunks, 0, int16).None? && Seen(chunks, 1, int16) == Some(x) && ShowsOnly(chunks, content, int16)
    ensures x <= content
  {
    hide Seen;
    if x != [] {
      assert First(chunks, 1, |x| - 1, int16);
    }
    forall k | 0 <= k < |x| && k < |content| ensures x[k] == content[k] {
      assert First(chunks, 1, k, int16);
    }
  }

  /** Cut where a longer extraction does not continue a shorter one. */
  lemma CutTwice(raw: Text, j: nat, k: nat, known: set<int>, int16: HexReader) returns (chunks: seq<Text>)
    requires raw != [] && j <= |raw| && k <= |raw| && EnvelopeContent(raw).None?
    requires Extract(raw[..j], int16).Some? && Extract(raw[..k], int16).Some?
    requires |Extract(raw[..j], int16).value| < |Extract(raw[..k], int16).value|
    requires !(Extract(raw[..j], int16).value <= Extract(raw[..k], int16).value)
    ensures Concat(chunks) == raw && !ShownWhole(chunks, raw, known, int16)
  {
    hide Extract, EnvelopeContent, Respond, Shown, Concat, After, LastCompletion, Chunks, PlaceByPlace;
    ShorterIsEarlier(raw, j, k, int16);
    chunks := [raw[..j], raw[j..k], raw[k..]];
    ConcatOfThree(raw[..j], raw[j..k], raw[k..]);
    assert raw[..j] + raw[j..k] == raw[..k] && raw[..k] + raw[k..] == raw;
    PiecesArrive(chunks, raw, known, int16);
    ReceivedAll(chunks, int16);
    assert Seen(chunks, 1, int16) == Extract(raw[..j], int16) && Seen(chunks, 2, int16) == Extract(raw[..k], int16);
    assert !Seamless(chunks, int16);
    hide Seamless;
    ShownIsEmittedIff(chunks, int16);
    ShownPlaceByPlace(chunks, int16);
    SameLength(chunks, After(chunks, int16).emitted, Shown(After(chunks, int16).events), int16);
    ShownBegins(Pieces(chunks, raw), known, int16);
  }

  lemma ShorterIsEarlier(raw: Text, j: nat, k: nat, int16: HexReader)
    requires j <= |raw| && k <= |raw| && Extract(raw[..j], int16).Some? && Extract(raw[..k], int16).Some?
    requires |Extract(raw[..j], int16).value| < |Extract(raw[..k], int16).value|
    ensures j < k
  {
    hide Decoded, Tears;
    if k <= j {
      assert raw[..j] == raw[..k] + raw[k..j];
      ExtractGrowsIff(raw[..k], raw[k..j], int16);
      RepairOfPrefix(Decoded(raw[..k], int16).value, Decoded(raw[..j], int16).value);
    }
  }

  // -- A torn pair -----------------------------------------------------------------

  /** An envelope whose content is one surrogate pair, unescaped, cut in the middle. */
  function Torn(high: CodePoint, low: CodePoint): (chunks: seq<Text>)
    ensures |chunks| == 2
  {
    [[LEFT_BRACE] + (CONTENT_KEY + ([COLON] + ([QUOTE, high]))), [low, QUOTE, RIGHT_BRACE]]
  }

  lemma TornExtracts(high: CodePoint, low: CodePoint, int16: HexReader)
    requires IsHigh(high) && IsLow(low)
    ensures Extract(Torn(high, low)[0], int16) == Some([REPLACEMENT])
    ensures Extract(Torn(high, low)[0] + Torn(high, low)[1], int16) == Some([Combine(high, low)])
  {
    var first, last := Torn(high, low)[0], Torn(high, low)[1];
    RawHighSurrogate(high, low, int16);
    assert [QUOTE, high] == [] + ([QUOTE] + [high]);
    LocateBehindKey([], [high]);
    LocateStable(first, last);
    TornPreview(high, low, int16);
    assert [high] + last == [high, low, QUOTE, RIGHT_BRACE];
    assert [high, low][2..] == [];
    assert Repair([high, low]) == [Combine(high, low)];
  }

  lemma TornPreview(high: CodePoint, low: CodePoint, int16: HexReader)
    requires IsHigh(high) && IsLow(low)
    ensures Preview([high, low, QUOTE, RIGHT_BRACE], int16) == Some([high, low])
  {
    var s: Text := [high, low, QUOTE, RIGHT_BRACE];
    assert s[1..] == [low, QUOTE, RIGHT_BRACE] && s[1..][1..] == [QUOTE, RIGHT_BRACE];
    assert s[..1] == [high] && s[1..][..1] == [low];
    assert Preview(s[1..][1..], int16) == Some([]);
    assert [low] + [] == [low] && [high] + [low] == [high, low];
    assert Preview(s[1..], int16) == Some([low]);
  }

  lemma TornParses(high: CodePoint, low: CodePoint)
    requires IsHigh(high) && IsLow(low)
    ensures Loads(Torn(high, low)[0] + Torn(high, low)[1]) == Some(Obj([Member(CONTENT, Str([high, low]))]))
  {
    var raw := Torn(high, low)[0] + Torn(high, low)[1];
    var key := raw[1..];
    TornMember(high, low);
    hide ParseMember, ParseItems, ParseScalar, ParseString;
    assert raw[0] == LEFT_BRACE && key[0] == QUOTE && SkipSpace(raw) == raw && SkipSpace(key) == key;
    assert [RIGHT_BRACE][1..] == [];
    assert ParseMembers(key) == Ok([Member(CONTENT, Str([high, low]))], []);
    assert ParseValue(raw) == Ok(Obj([Member(CONTENT, Str([high, low]))]), []);
  }

  /** A content member is parsed from its key, the colon and its value. */
  lemma ContentMember(value: Text, content: Json, rest: Text)
    requires SkipSpace(value) == value && SkipSpace(rest) == rest && ParseValue(value) == Ok(content, rest)
    ensures ParseMember(CONTENT_KEY + ([COLON] + value)) == Ok(Member(CONTENT, content), rest)
  {
    hide ParseString, ParseValue;
    var s := CONTENT_KEY + ([COLON] + value);
    KeyBody(s);
    assert s[9..] == [COLON] + value && ([COLON] + value)[1..] == value;
    assert SkipSpace(s[9..]) == s[9..];
  }

  lemma TornMember(high: CodePoint, low: CodePoint)
    requires IsHigh(high) && IsLow(low)
    ensures ParseMember((Torn(high, low)[0] + Torn(high, low)[1])[1..]) == Ok(Member(CONTENT, Str([high, low])), [RIGHT_BRACE])
  {
    hide ParseValue, ParseMember, Torn;
    TornKey(high, low);
    TornValue(high, low);
    ContentMember([QUOTE, high, low, QUOTE, RIGHT_BRACE], Str([high, low]), [RIGHT_BRACE]);
  }

  lemma TornKey(high: CodePoint, low: CodePoint)
    requires IsHigh(high) && IsLow(low)
    ensures (Torn(high, low)[0] + Torn(high, low)[1])[1..] == CONTENT_KEY + ([COLON] + [QUOTE, high, low, QUOTE, RIGHT_BRACE])
  {
  }

  lemma TornValue(high: CodePoint, low: CodePoint)
    requires IsHigh(high) && IsLow(low)
    ensures ParseValue([QUOTE, high, low, QUOTE, RIGHT_BRACE]) == Ok(Str([high, low]), [RIGHT_BRACE])
  {
    var value: Text := [QUOTE, high, low, QUOTE, RIGHT_BRACE];
    var end: Text := [QUOTE, RIGHT_BRACE];
    assert end[1..] == [RIGHT_BRACE] && ParseString(end) == Ok([], [RIGHT_BRACE]);
    hide ParseString;
    PlainStep(low, end);
    PlainStep(high, [low] + end);
    assert [low] + [] == [low] && [high] + [low] == [high, low] && value[1..] == [high] + ([low] + end);
  }

  /** The run: the client is shown U+FFFD while the pair itself is stored, and the closing
      event is the first to carry it. */
  lemma TornPairIsShown(high: CodePoint, low: CodePoint, known: set<int>, int16: HexReader)
    requires IsHigh(high) && IsLow(low)
    ensures
      var Response(events, persisted) := Respond(Pieces(Torn(high, low), []), known, int16);
      persisted == Some(Reply([Combine(high, low)], None)) && Shown(events) == [REPLACEMENT]
      && events[|events| - 1] == MessageCompleted(Reply([Combine(high, low)], None))
  {
    hide Extract, Loads, Respond, Torn, Closing, After, LastCompletion, Chunks, Pieces, Shown;
    var chunks := Torn(high, low);
    TornExtracts(high, low, int16);
    TornFeed(chunks, [Combine(high, low)], int16);
    PiecesArrive(chunks, [], known, int16);
    PersistedReply(Pieces(chunks, []), known, int16);
    TornStored(high, low, chunks[0] + chunks[1], known);
    assert chunks[0] + chunks[1] != [] by { TornIsSome(high, low); }
    TornEvents(Reply([Combine(high, low)], None));
  }

  lemma TornIsSome(high: CodePoint, low: CodePoint)
    ensures Torn(high, low)[0] != []
  {
  }

  lemma TornEvents(reply: Reply)
    ensures
      var events := [MessageCreated] + [MessageDelta([REPLACEMENT])] + [MessageCompleted(reply)];
      Shown(events) == [REPLACEMENT] && events[|events| - 1] == MessageCompleted(reply)
  {
    ShownMore([MessageCreated] + [MessageDelta([REPLACEMENT])], MessageCompleted(reply));
    ShownMore([MessageCreated], MessageDelta([REPLACEMENT]));
    ShownOne(MessageCreated);
  }

  lemma TornFeed(chunks: seq<Text>, pair: Text, int16: HexReader)
    requires |chunks| == 2 && |pair| == 1
    requires Extract(chunks[0], int16) == Some([REPLACEMENT]) && Extract(chunks[0] + chunks[1], int16) == Some(pair)
    ensures After(chunks, int16) == Feed(chunks[0] + chunks[1], [REPLACEMENT], [MessageCreated] + [MessageDelta([REPLACEMENT])])
  {
    hide Extract;
    assert chunks[..1] == [chunks[0]] && chunks[..1][..0] == [] && [] + chunks[0] == chunks[0];
    assert [REPLACEMENT][0..] == [REPLACEMENT];
    assert After(chunks[..1], int16) == Forwarded(START, chunks[0], int16);
  }

  lemma TornStored(high: CodePoint, low: CodePoint, raw: Text, known: set<int>)
    requires IsHigh(high) && IsLow(low) && raw == Torn(high, low)[0] + Torn(high, low)[1]
    ensures Closing(raw, [REPLACEMENT], known) == ([MessageCompleted(Reply([Combine(high, low)], None))], Reply([Combine(high, low)], None))
  {
    TornParses(high, low);
    assert LStrip(raw) == raw;
    hide Loads;
    var members := [Member(CONTENT, Str([high, low]))];
    assert members[..0] == [] && CONTENT[0] != REPLY_TO_ID[0];
    assert Candidate(raw) == Some(raw) && Get(members, CONTENT) == Some(Str([high, low])) && Get(members, REPLY_TO_ID) == None;
    assert !Blank([high, low]) by { assert !IsSpace([high, low][0]); }
    assert [high, low][2..] == [] && Repair([high, low]) == [Combine(high, low)];
    assert ParseCompletion(raw) == Reply([Combine(high, low)], None);
    var reply := Reply([Combine(high, low)], None);
    assert |raw| > |reply.content| && Resolve(raw, [REPLACEMENT]) == reply;
    hide ParseCompletion, Repair, Resolve;
    assert Remaining(reply.content, [REPLACEMENT]) == [] && Retarget(reply, known) == reply;
    assert [] + [MessageCompleted(reply)] == [MessageCompleted(reply)];
  }
}
