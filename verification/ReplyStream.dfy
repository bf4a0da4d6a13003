/** One streamed reply on the server: provider deltas in arbitrary pieces, the text
    forwarded after each of them, and what is persisted at the end
    (backend/app/services/ai_service.py). */
module ReplyStream {
  import opened Unicode
  import opened Wrappers
  import opened Surrogates
  import opened Json
  import opened JsonDump
  import opened Extractor
  import opened Completion
  import opened StreamedContent

  /** What the provider stream yields; `Raised` and `Cancelled` are what it may do
      instead of yielding. */
  datatype ProviderEvent =
    | Delta(content: Text)
    | Completed(content: Text)
    | ProviderError
    | Raised
    | Cancelled

  /** One turn of the receiving loop: the event, and whether the client was found to be
      gone when it arrived. */
  datatype Arrival = Arrival(event: ProviderEvent, clientGone: bool)

  datatype FailureCode = ProviderFailed | StreamInterrupted

  /** What the client is sent. */
  datatype ServerEvent =
    | MessageCreated
    | MessageDelta(content: Text)
    | MessageCompleted(reply: Reply)
    | StreamError(code: FailureCode)

  // -- Specification ---------------------------------------------------------------

  /** What has happened while the reply streams: the raw text received, the content
      forwarded from it, and the events sent. */
  datatype Feed = Feed(buffer: Text, emitted: Text, events: seq<ServerEvent>)

  const START := Feed([], [], [MessageCreated])

  /** The extraction that is longer than what has been forwarded, if there is one. */
  function LongerExtraction(buffer: Text, emitted: Text, int16: HexReader): (r: Option<Text>)
    ensures r.Some? ==> |emitted| < |r.value| && Extract(buffer, int16) == r
  {
    var x := Extract(buffer, int16);
    if x.Some? && |x.value| > |emitted| then x else None
  }

  /** One more piece: a longer extraction is forwarded from where the last one ended. */
  function Forwarded(f: Feed, content: Text, int16: HexReader): Feed {
    var buffer := f.buffer + content;
    match LongerExtraction(buffer, f.emitted, int16)
    case None => Feed(buffer, f.emitted, f.events)
    case Some(x) => Feed(buffer, x, f.events + [MessageDelta(x[|f.emitted|..])])
  }

  function After(chunks: seq<Text>, int16: HexReader): Feed {
    if chunks == [] then START
    else Forwarded(After(chunks[..|chunks| - 1], int16), chunks[|chunks| - 1], int16)
  }

  /** The reply that is kept: the parsed envelope, or what was already streamed when the
      envelope turned out not to be one. */
  function Resolve(raw: Text, emitted: Text): Reply {
    var parsed := ParseCompletion(raw);
    if parsed.content == raw && emitted != [] then Reply(emitted, None) else parsed
  }

  /** `content[len(emitted):]`. */
  function Remaining(content: Text, emitted: Text): Text {
    if |emitted| <= |content| then content[|emitted|..] else []
  }

  predicate Stops(a: Arrival) {
    a.clientGone || a.event.ProviderError? || a.event.Raised? || a.event.Cancelled?
  }

  /** How many arrivals are consumed before one ends the stream early. */
  function Consumed(arrivals: seq<Arrival>): (n: nat)
    ensures n <= |arrivals|
    ensures n < |arrivals| ==> Stops(arrivals[n])
    ensures forall i :: 0 <= i < n ==> !Stops(arrivals[i])
  {
    if arrivals == [] || Stops(arrivals[0]) then 0 else 1 + Consumed(arrivals[1..])
  }

  function Chunks(arrivals: seq<Arrival>): seq<Text> {
    if arrivals == [] then []
    else
      var last := arrivals[|arrivals| - 1].event;
      Chunks(arrivals[..|arrivals| - 1]) + if last.Delta? then [last.content] else []
  }

  function LastCompletion(arrivals: seq<Arrival>): Option<Text> {
    if arrivals == [] then None
    else
      var last := arrivals[|arrivals| - 1].event;
      if last.Completed? then Some(last.content) else LastCompletion(arrivals[..|arrivals| - 1])
  }

  /** What an early end sends: nothing when the client is gone or the stream cancelled. */
  function EarlyEnd(a: Arrival): seq<ServerEvent>
    requires Stops(a)
  {
    if a.event.Raised? then [StreamError(ProviderFailed)]
    else if a.event.Cancelled? || a.clientGone then []
    else [StreamError(ProviderFailed)]
  }

  /** The raw reply: the buffer, or the completion's own text when nothing was streamed. */
  function RawReply(buffer: Text, completion: Text): Text {
    if buffer != [] then buffer else completion
  }

  /** A reply target outside the conversation degrades to a plain reply. */
  function Retarget(reply: Reply, known: set<int>): Reply {
    if reply.replyTo.Some? && reply.replyTo.value !in known then reply.(replyTo := None) else reply
  }

  datatype Response = Response(events: seq<ServerEvent>, persisted: Option<Reply>)

  function Respond(arrivals: seq<Arrival>, known: set<int>, int16: HexReader): Response {
    var n := Consumed(arrivals);
    var Feed(buffer, emitted, sent) := After(Chunks(arrivals[..n]), int16);
    if n < |arrivals| then Response(sent + EarlyEnd(arrivals[n]), None)
    else match LastCompletion(arrivals)
      case None => Response(sent + [StreamError(StreamInterrupted)], None)
      case Some(completion) =>
        var (closing, stored) := Closing(RawReply(buffer, completion), emitted, known);
        Response(sent + closing, Some(stored))
  }

  /** The closing events and the stored reply. */
  function Closing(raw: Text, emitted: Text, known: set<int>): (seq<ServerEvent>, Reply) {
    var reply := Resolve(raw, emitted);
    var rest := Remaining(reply.content, emitted);
    var stored := Retarget(reply, known);
    ((if rest != [] then [MessageDelta(rest)] else []) + [MessageCompleted(stored)], stored)
  }

  /** Whether the client leaves once the provider is done: not at all, while what was held back
      is sent or before the reply is stored, or between its storing and the last event. */
  datatype Leaving = Stays | BeforeStoring | AfterStoring

  /** What becomes of the response then; where nothing is stored there is nothing to leave. */
  function Leave(r: Response, leaving: Leaving): Response {
    if r.persisted.None? || leaving.Stays? || r.events == [] then r
    else Response(r.events[..|r.events| - 1], if leaving.BeforeStoring? then None else r.persisted)
  }

  // -- The receiving loop ----------------------------------------------------------

  method StreamResponse(arrivals: seq<Arrival>, known: set<int>, int16: HexReader, leaving: Leaving)
    returns (events: seq<ServerEvent>, persisted: Option<Reply>)
    requires ReadsHex(int16)
    ensures Response(events, persisted) == Leave(Respond(arrivals, known, int16), leaving)
  {
    var n, feed, completion := Receive(arrivals, int16);
    if n < |arrivals| {
      var ending := StopEarly(arrivals[n].event, arrivals[n].clientGone);
      return feed.events + ending, None;
    }
    assert arrivals[..n] == arrivals;
    if completion.None? {
      return feed.events + [StreamError(StreamInterrupted)], None;
    }
    var closing, stored := CloseStream(feed.buffer, feed.emitted, completion.value, known);
    LeaveSplits(feed.events, closing, stored, leaving);
    hide Leave, After, Chunks, Consumed;
    events := feed.events + closing[..|closing| - 1];
    if leaving.BeforeStoring? {
      return events, None;
    }
    persisted := Some(stored);
    if leaving.Stays? {
      events := events + closing[|closing| - 1..];
    }
  }

  lemma LeaveSplits(sent: seq<ServerEvent>, closing: seq<ServerEvent>, stored: Reply, leaving: Leaving)
    requires closing != []
    ensures
      var events := sent + closing[..|closing| - 1];
      Leave(Response(sent + closing, Some(stored)), leaving) == match leaving
        case Stays => Response(events + closing[|closing| - 1..], Some(stored))
        case BeforeStoring => Response(events, None)
        case AfterStoring => Response(events, Some(stored))
  {
    assert (sent + closing)[..|sent + closing| - 1] == sent + closing[..|closing| - 1];
    assert sent + closing == sent + closing[..|closing| - 1] + closing[|closing| - 1..];
  }

  /** The receiving loop: it leaves at the first arrival that ends the stream early. */
  method Receive(arrivals: seq<Arrival>, int16: HexReader) returns (i: nat, feed: Feed, completion: Option<Text>)
    requires ReadsHex(int16)
    ensures i == Consumed(arrivals) && completion == LastCompletion(arrivals[..i])
    ensures feed == After(Chunks(arrivals[..i]), int16)
  {
    hide Stops, Forwarded;
    i, feed, completion := 0, START, None;
    while i < |arrivals| && !Stops(arrivals[i])
      invariant i <= |arrivals| && forall j :: 0 <= j < i ==> !Stops(arrivals[j])
      invariant completion == LastCompletion(arrivals[..i]) && feed == After(Chunks(arrivals[..i]), int16)
    {
      ArrivalStep(arrivals, i, int16);
      feed, completion := Handle(feed, completion, arrivals[i].event, int16);
      i := i + 1;
    }
    ConsumedIs(arrivals, i);
  }

  /** One event of the provider. */
  method Handle(feed: Feed, completion: Option<Text>, event: ProviderEvent, int16: HexReader)
    returns (next: Feed, last: Option<Text>)
    requires ReadsHex(int16)
    ensures next == if event.Delta? then Forwarded(feed, event.content, int16) else feed
    ensures last == if event.Completed? then Some(event.content) else completion
  {
    next, last := feed, completion;
    match event {
      case Delta(content) =>
        next := Forward(feed, content, int16);
      case Completed(content) =>
        last := Some(content);
      case _ =>
    }
  }

  /** A delta joins the buffer; only a buffer that opens with a brace is looked at. */
  method Forward(feed: Feed, content: Text, int16: HexReader) returns (next: Feed)
    requires ReadsHex(int16)
    ensures next == Forwarded(feed, content, int16)
  {
    var Feed(buffer, emitted, events) := feed;
    buffer := buffer + content;
    var text := LStrip(buffer);
    if text != [] && text[0] == LEFT_BRACE {
      var extracted := ExtractStreamedContent(buffer, int16);
      if extracted.Some? && |extracted.value| > |emitted| {
        events := events + [MessageDelta(extracted.value[|emitted|..])];
        emitted := extracted.value;
      }
    }
    return Feed(buffer, emitted, events);
  }

  /** What is sent when the stream ends early, in the order the loop looks at it. */
  method StopEarly(event: ProviderEvent, clientGone: bool) returns (ending: seq<ServerEvent>)
    requires Stops(Arrival(event, clientGone))
    ensures ending == EarlyEnd(Arrival(event, clientGone))
  {
    if event.Raised? {
      return [StreamError(ProviderFailed)];
    }
    if event.Cancelled? {
      return [];
    }
    if clientGone {
      return [];
    }
    return [StreamError(ProviderFailed)];
  }

  /** Once the provider is done: settle the content, send what was held back, persist. */
  method CloseStream(buffer: Text, emitted: Text, completion: Text, known: set<int>)
    returns (closing: seq<ServerEvent>, stored: Reply)
    ensures Closing(RawReply(buffer, completion), emitted, known) == (closing, stored)
  {
    var raw := if buffer != [] then buffer else completion;
    var reply := ParseCompletion(raw);
    if reply.content == raw && emitted != [] {
      reply := Reply(emitted, None);
    }
    var remaining := Remaining(reply.content, emitted);
    closing := [];
    if remaining != [] {
      closing := [MessageDelta(remaining)];
    }
    stored := Retarget(reply, known);
    closing := closing + [MessageCompleted(stored)];
  }

  lemma ArrivalStep(arrivals: seq<Arrival>, i: nat, int16: HexReader)
    requires i < |arrivals|
    ensures LastCompletion(arrivals[..i + 1]) ==
      if arrivals[i].event.Completed? then Some(arrivals[i].event.content) else LastCompletion(arrivals[..i])
    ensures After(Chunks(arrivals[..i + 1]), int16) ==
      if arrivals[i].event.Delta? then Forwarded(After(Chunks(arrivals[..i]), int16), arrivals[i].event.content, int16)
      else After(Chunks(arrivals[..i]), int16)
  {
    var chunks := Chunks(arrivals[..i]);
    assert arrivals[..i + 1][..i] == arrivals[..i];
    if arrivals[i].event.Delta? {
      assert (chunks + [arrivals[i].event.content])[..|chunks|] == chunks;
    } else {
      assert chunks + [] == chunks;
    }
  }

  lemma {:induction false} ConsumedIs(arrivals: seq<Arrival>, n: nat)
    requires n <= |arrivals| && (n < |arrivals| ==> Stops(arrivals[n]))
    requires forall i :: 0 <= i < n ==> !Stops(arrivals[i])
    ensures Consumed(arrivals) == n
  {
  }

  lemma BufferGrows(chunks: seq<Text>, chunk: Text)
    ensures Concat(chunks + [chunk]) == Concat(chunks) + chunk
  {
    ConcatAppend(chunks, [chunk]);
    assert Concat([chunk]) == chunk + Concat([]);
  }

  // -- What the client sees is what is kept ----------------------------------------

  /** The concatenated texts of all `message.delta` events. */
  function Shown(events: seq<ServerEvent>): Text {
    if events == [] then []
    else
      var last := events[|events| - 1];
      Shown(events[..|events| - 1]) + if last.MessageDelta? then last.content else []
  }

  lemma {:induction false} ShownAppend(a: seq<ServerEvent>, b: seq<ServerEvent>)
    ensures Shown(a + b) == Shown(a) + Shown(b)
  {
    if b == [] {
      assert a + b == a;
    } else {
      var n := |b| - 1;
      assert (a + b)[..|a| + n] == a + b[..n];
      ShownAppend(a, b[..n]);
    }
  }

  lemma {:induction false} ReceivedAll(chunks: seq<Text>, int16: HexReader)
    ensures After(chunks, int16).buffer == Concat(chunks)
  {
    if chunks != [] {
      var n := |chunks| - 1;
      ReceivedAll(chunks[..n], int16);
      assert chunks == chunks[..n] + [chunks[n]];
      BufferGrows(chunks[..n], chunks[n]);
    }
  }

  /** The forwarded text is nothing, or what the extractor answers for some prefix of the
      text received. */
  predicate Forwards(f: Feed, int16: HexReader) {
    f.emitted == [] || exists k :: 0 <= k <= |f.buffer| && Extract(f.buffer[..k], int16) == Some(f.emitted)
  }

  lemma {:induction false} AlwaysForwards(chunks: seq<Text>, int16: HexReader)
    ensures Forwards(After(chunks, int16), int16)
  {
    if chunks != [] {
      var before := After(chunks[..|chunks| - 1], int16);
      var f := After(chunks, int16);
      AlwaysForwards(chunks[..|chunks| - 1], int16);
      if f.emitted == before.emitted {
        ForwardsLonger(before, f, int16);
      } else {
        assert f.buffer[..|f.buffer|] == f.buffer;
      }
    }
  }

  lemma ForwardsLonger(before: Feed, f: Feed, int16: HexReader)
    requires Forwards(before, int16) && before.buffer <= f.buffer && f.emitted == before.emitted
    ensures Forwards(f, int16)
  {
    if f.emitted != [] {
      var k :| 0 <= k <= |before.buffer| && Extract(before.buffer[..k], int16) == Some(f.emitted);
      assert f.buffer[..k] == before.buffer[..k];
    }
  }

  /** Every extraction of a longer buffer continues the text already forwarded. */
  lemma ForwardedPrecedes(f: Feed, buffer: Text, int16: HexReader)
    requires ReadsHex(int16) && Forwards(f, int16) && f.buffer <= buffer && NoHigh(buffer)
    requires Extract(buffer, int16).Some?
    ensures f.emitted <= Extract(buffer, int16).value || |Extract(buffer, int16).value| <= |f.emitted|
  {
    hide Extract, ReadsHex;
    if f.emitted != [] {
      var k :| 0 <= k <= |f.buffer| && Extract(f.buffer[..k], int16) == Some(f.emitted);
      var received := f.buffer[..k];
      assert buffer == received + buffer[k..];
      ExtractGrows(received, buffer[k..], int16);
    }
  }

  lemma ShownMore(events: seq<ServerEvent>, e: ServerEvent)
    ensures Shown(events + [e]) == Shown(events) + if e.MessageDelta? then e.content else []
  {
    assert (events + [e])[..|events|] == events;
  }

  /** While the reply streams, only deltas are sent after the opening event. */
  predicate OnlyDeltas(events: seq<ServerEvent>) {
    forall i :: 0 <= i < |events| ==> !events[i].MessageCompleted? && !events[i].StreamError?
  }

  lemma {:induction false} FeedSendsDeltas(chunks: seq<Text>, int16: HexReader)
    ensures OnlyDeltas(After(chunks, int16).events) && After(chunks, int16).events != []
  {
    if chunks != [] {
      FeedSendsDeltas(chunks[..|chunks| - 1], int16);
    }
  }

  /** While the reply streams, the deltas sent so far spell the forwarded text. */
  lemma {:induction false} DeltasSpellEmitted(chunks: seq<Text>, int16: HexReader)
    requires ReadsHex(int16) && NoHigh(After(chunks, int16).buffer)
    ensures Shown(After(chunks, int16).events) == After(chunks, int16).emitted
  {
    if chunks == [] {
      ShownOne(MessageCreated);
    } else {
      var before := After(chunks[..|chunks| - 1], int16);
      var f := After(chunks, int16);
      assert forall i :: 0 <= i < |before.buffer| ==> before.buffer[i] == f.buffer[i];
      DeltasSpellEmitted(chunks[..|chunks| - 1], int16);
      AlwaysForwards(chunks[..|chunks| - 1], int16);
      ForwardedShows(before, chunks[|chunks| - 1], int16);
    }
  }

  lemma ForwardedShows(before: Feed, content: Text, int16: HexReader)
    requires ReadsHex(int16) && Forwards(before, int16) && NoHigh(before.buffer + content)
    requires Shown(before.events) == before.emitted
    ensures var f := Forwarded(before, content, int16); Shown(f.events) == f.emitted
  {
    match LongerExtraction(before.buffer + content, before.emitted, int16)
    case None =>
    case Some(x) =>
      ForwardedPrecedes(before, before.buffer + content, int16);
      ShownMore(before.events, MessageDelta(x[|before.emitted|..]));
      assert before.emitted + x[|before.emitted|..] == x;
  }

  lemma NothingExtracted(int16: HexReader)
    ensures Extract([], int16).None?
  {
  }

  /** The forwarded text is a prefix of the reply that is kept. */
  lemma EmittedPrecedesReply(f: Feed, completion: Text, int16: HexReader)
    requires ReadsHex(int16) && Forwards(f, int16) && NoHigh(f.buffer) && WithinContract(RawReply(f.buffer, completion))
    ensures f.emitted <= Resolve(RawReply(f.buffer, completion), f.emitted).content
  {
    hide Extract, ReadsHex, EnvelopeContent, WithinContract;
    var raw := RawReply(f.buffer, completion);
    if f.emitted != [] && EnvelopeContent(raw).Some? {
      var k :| 0 <= k <= |f.buffer| && Extract(f.buffer[..k], int16) == Some(f.emitted);
      NothingExtracted(int16);
      assert f.buffer[..k] != [];
      assert raw == raw[..k] + raw[k..];
      ExtractPrecedesContent(raw[..k], raw[k..], int16);
    }
  }

  /** For every way the provider cuts its reply into pieces: the deltas the client
      receives spell exactly the content that is persisted, and the closing event
      carries that same content. Truncated envelopes, blank contents and raw-text
      replies included. */
  lemma ShownIsPersisted(arrivals: seq<Arrival>, known: set<int>, int16: HexReader)
    requires ReadsHex(int16) && Respond(arrivals, known, int16).persisted.Some?
    requires NoHigh(Concat(Chunks(arrivals)))
    requires WithinContract(RawReply(Concat(Chunks(arrivals)), LastCompletion(arrivals).value))
    ensures var Response(events, persisted) := Respond(arrivals, known, int16);
      Shown(events) == persisted.value.content
      && events != [] && events[|events| - 1] == MessageCompleted(persisted.value)
      && OnlyDeltas(events[..|events| - 1])
  {
    hide Respond, Chunks, After, Closing, Resolve, LastCompletion, Forwards, Shown, OnlyDeltas, ReadsHex, NoHigh, WithinContract, Concat;
    var chunks := Chunks(arrivals);
    var f := After(chunks, int16);
    PersistedReply(arrivals, known, int16);
    ReceivedAll(chunks, int16);
    AlwaysForwards(chunks, int16);
    DeltasSpellEmitted(chunks, int16);
    FeedSendsDeltas(chunks, int16);
    EmittedPrecedesReply(f, LastCompletion(arrivals).value, int16);
    ClosingShows(RawReply(f.buffer, LastCompletion(arrivals).value), f.emitted, known);
    JoinShows(f.events, Closing(RawReply(f.buffer, LastCompletion(arrivals).value), f.emitted, known).0);
  }

  /** How a persisted reply came about. */
  lemma PersistedReply(arrivals: seq<Arrival>, known: set<int>, int16: HexReader)
    requires Respond(arrivals, known, int16).persisted.Some?
    ensures LastCompletion(arrivals).Some?
    ensures
      var f := After(Chunks(arrivals), int16);
      var (closing, stored) := Closing(RawReply(f.buffer, LastCompletion(arrivals).value), f.emitted, known);
      Respond(arrivals, known, int16) == Response(f.events + closing, Some(stored))
  {
    assert arrivals[..|arrivals|] == arrivals;
  }

  lemma JoinShows(sent: seq<ServerEvent>, closing: seq<ServerEvent>)
    requires OnlyDeltas(sent) && closing != [] && OnlyDeltas(closing[..|closing| - 1])
    ensures Shown(sent + closing) == Shown(sent) + Shown(closing)
    ensures (sent + closing)[|sent + closing| - 1] == closing[|closing| - 1]
    ensures OnlyDeltas((sent + closing)[..|sent + closing| - 1])
  {
    hide Shown;
    ShownAppend(sent, closing);
    assert (sent + closing)[..|sent + closing| - 1] == sent + closing[..|closing| - 1];
  }

  /** The closing delta completes what was forwarded to the stored content. */
  lemma ClosingShows(raw: Text, emitted: Text, known: set<int>)
    requires emitted <= Resolve(raw, emitted).content
    ensures var (closing, stored) := Closing(raw, emitted, known);
      emitted + Shown(closing) == stored.content
      && closing != [] && closing[|closing| - 1] == MessageCompleted(stored)
      && OnlyDeltas(closing[..|closing| - 1])
  {
    var content := Resolve(raw, emitted).content;
    ShownClosing(Remaining(content, emitted), Closing(raw, emitted, known).1);
    assert emitted + content[|emitted|..] == content;
  }

  lemma ShownClosing(rest: Text, stored: Reply)
    ensures var closing := (if rest != [] then [MessageDelta(rest)] else []) + [MessageCompleted(stored)];
      Shown(closing) == rest && closing[|closing| - 1] == MessageCompleted(stored) && OnlyDeltas(closing[..|closing| - 1])
  {
    ShownOne(MessageDelta(rest));
    ShownMore([MessageDelta(rest)], MessageCompleted(stored));
    ShownMore([], MessageCompleted(stored));
  }

  lemma ShownOne(e: ServerEvent)
    ensures Shown([e]) == if e.MessageDelta? then e.content else []
  {
    assert [e][..0] == [];
  }

  /** A reply is persisted if and only if the provider completed it, nothing ended the stream
      early and the client did not leave before it was stored; an event says so if and only if
      it was stored and the client stayed for it. */
  lemma PersistedOnlyWhenCompleted(arrivals: seq<Arrival>, known: set<int>, int16: HexReader, leaving: Leaving)
    ensures var Response(events, persisted) := Leave(Respond(arrivals, known, int16), leaving);
      && (persisted.Some? <==>
            (forall a :: a in arrivals ==> !Stops(a)) && (exists a :: a in arrivals && a.event.Completed?) && !leaving.BeforeStoring?)
      && ((exists e :: e in events && e.MessageCompleted?) <==> persisted.Some? && leaving.Stays?)
      && events <= Respond(arrivals, known, int16).events
  {
    CompletionFound(arrivals);
    var n := Consumed(arrivals);
    FeedSendsDeltas(Chunks(arrivals[..n]), int16);
    OnlyTheLastCompletes(arrivals, known, int16);
    hide After, Closing;
    if n < |arrivals| {
      assert arrivals[n] in arrivals;
    } else {
      forall a | a in arrivals ensures !Stops(a) {
        var i :| 0 <= i < |arrivals| && arrivals[i] == a;
      }
    }
  }

  /** Only the last event says that a reply was stored, and it does where one was. */
  lemma OnlyTheLastCompletes(arrivals: seq<Arrival>, known: set<int>, int16: HexReader)
    ensures var Response(events, persisted) := Respond(arrivals, known, int16);
      && events != [] && (forall i :: 0 <= i < |events| - 1 ==> !events[i].MessageCompleted?)
      && (events[|events| - 1].MessageCompleted? <==> persisted.Some?)
  {
    FeedSendsDeltas(Chunks(arrivals[..Consumed(arrivals)]), int16);
    hide After;
  }

  /** The errors that are sent, in order. */
  function Errors(events: seq<ServerEvent>): seq<FailureCode> {
    if events == [] then []
    else
      var last := events[|events| - 1];
      Errors(events[..|events| - 1]) + if last.StreamError? then [last.code] else []
  }

  lemma {:induction false} ErrorsJoin(a: seq<ServerEvent>, b: seq<ServerEvent>)
    requires OnlyDeltas(a)
    ensures Errors(a + b) == Errors(b)
    decreases |a| + |b|
  {
    if b != [] {
      assert (a + b)[..|a + b| - 1] == a + b[..|b| - 1];
      ErrorsJoin(a, b[..|b| - 1]);
    } else if a != [] {
      assert a + b == a[..|a| - 1] + [a[|a| - 1]] && a[..|a| - 1] + [] == a[..|a| - 1];
      ErrorsJoin(a[..|a| - 1], []);
    }
  }

  lemma {:induction false} FeedOpensOnce(chunks: seq<Text>, int16: HexReader)
    ensures var events := After(chunks, int16).events;
      events != [] && events[0] == MessageCreated && forall i :: 1 <= i < |events| ==> events[i].MessageDelta?
  {
    if chunks != [] {
      FeedOpensOnce(chunks[..|chunks| - 1], int16);
    }
  }

  /** The first event says that the message was created, and no other does. */
  lemma HowItBegins(arrivals: seq<Arrival>, known: set<int>, int16: HexReader)
    ensures var events := Respond(arrivals, known, int16).events;
      events != [] && events[0] == MessageCreated && forall i :: 1 <= i < |events| ==> !events[i].MessageCreated?
  {
    hide After, Chunks, LastCompletion, Resolve, Retarget, Remaining, RawReply, Consumed;
    FeedOpensOnce(Chunks(arrivals[..Consumed(arrivals)]), int16);
  }

  /** How a stream fails. If the first `n` arrivals are deltas and completions for a client that
      is there, and the next one, if there is one, is not, then: an exception and an error of
      the provider are reported to the client, a cancellation and a client that has gone are
      not, and a stream that just ends is reported as interrupted unless the provider completed
      it. */
  lemma HowItFails(arrivals: seq<Arrival>, known: set<int>, int16: HexReader, n: nat)
    requires n <= |arrivals|
    requires forall i :: 0 <= i < n ==> !arrivals[i].clientGone && (arrivals[i].event.Delta? || arrivals[i].event.Completed?)
    requires n < |arrivals| ==> arrivals[n].clientGone || !(arrivals[n].event.Delta? || arrivals[n].event.Completed?)
    ensures
      Errors(Respond(arrivals, known, int16).events) ==
        if n == |arrivals| then
          if forall a :: a in arrivals ==> !a.event.Completed? then [StreamInterrupted] else []
        else if arrivals[n].event.Raised? then [ProviderFailed]
        else if arrivals[n].event.Cancelled? || arrivals[n].clientGone then []
        else [ProviderFailed]
  {
    hide After, Chunks, OnlyDeltas, LastCompletion, Closing, RawReply, EarlyEnd, Errors, Consumed;
    ConsumedIs(arrivals, n);
    CompletionFound(arrivals);
    FeedSendsDeltas(Chunks(arrivals[..n]), int16);
    var f := After(Chunks(arrivals[..n]), int16);
    if n < |arrivals| {
      ErrorsJoin(f.events, EarlyEnd(arrivals[n]));
      EarlyErrors(arrivals[n]);
    } else if LastCompletion(arrivals).None? {
      ErrorsJoin(f.events, [StreamError(StreamInterrupted)]);
      OneError(StreamInterrupted);
    } else {
      var raw := RawReply(f.buffer, LastCompletion(arrivals).value);
      ErrorsJoin(f.events, Closing(raw, f.emitted, known).0);
      ClosingErrors(raw, f.emitted, known);
    }
  }

  lemma OneError(code: FailureCode)
    ensures Errors([StreamError(code)]) == [code]
  {
    assert [StreamError(code)][..0] == [] && Errors([]) == [];
  }

  lemma EarlyErrors(a: Arrival)
    requires Stops(a)
    ensures Errors(EarlyEnd(a)) ==
      if a.event.Raised? then [ProviderFailed] else if a.event.Cancelled? || a.clientGone then [] else [ProviderFailed]
  {
    OneError(ProviderFailed);
  }

  lemma {:induction false} NoErrors(events: seq<ServerEvent>)
    requires forall e :: e in events ==> !e.StreamError?
    ensures Errors(events) == []
  {
    if events != [] {
      NoErrors(events[..|events| - 1]);
    }
  }

  lemma ClosingErrors(raw: Text, emitted: Text, known: set<int>)
    ensures Errors(Closing(raw, emitted, known).0) == []
  {
    hide Resolve, Retarget, Remaining;
    NoErrors(Closing(raw, emitted, known).0);
  }

  lemma {:induction false} CompletionFound(arrivals: seq<Arrival>)
    ensures LastCompletion(arrivals).Some? <==> exists a :: a in arrivals && a.event.Completed?
  {
    if arrivals != [] {
      var n := |arrivals| - 1;
      CompletionFound(arrivals[..n]);
      assert arrivals == arrivals[..n] + [arrivals[n]];
      if arrivals[n].event.Completed? { assert arrivals[n] in arrivals; }
      if exists a :: a in arrivals[..n] && a.event.Completed? {
        var a :| a in arrivals[..n] && a.event.Completed?;
        assert a in arrivals;
      }
    }
  }

  /** Off the contract the promise can fail. For a reply with two `content` members it
      holds exactly when the first text is a prefix of the second: the first was
      streamed, the second is kept. */
  lemma DuplicateContent(a: Text, b: Text, style: Style, int16: HexReader)
    requires ReadsHex(int16) && Scalar(a) && Scalar(b) && !Blank(b)
    ensures
      var members := [Member(CONTENT, Str(a)), Member(CONTENT, Str(b))];
      var f := Forwarded(START, Dump(Obj(members), style), int16);
      var kept := Resolve(f.buffer, f.emitted).content;
      !KeepsContract(members) && f.emitted == a && kept == b && (a + Remaining(kept, a) == kept <==> a <= b)
  {
    hide KeepsContract, Dump, ParseCompletion, Extract, ReadsHex;
    DuplicateIsOffContract(a, b);
    DuplicateExtracts(a, b, style, int16);
    DuplicateParses(a, b, style);
    var raw := Dump(Obj([Member(CONTENT, Str(a)), Member(CONTENT, Str(b))]), style);
    assert [] + raw == raw;
    if a <= b { assert a + b[|a|..] == b; }
  }

  lemma DuplicateIsOffContract(a: Text, b: Text)
    ensures !KeepsContract([Member(CONTENT, Str(a)), Member(CONTENT, Str(b))])
  {
    var members := [Member(CONTENT, Str(a)), Member(CONTENT, Str(b))];
    assert members[1..][0].key == CONTENT;
  }

  lemma DuplicateExtracts(a: Text, b: Text, style: Style, int16: HexReader)
    requires ReadsHex(int16) && Scalar(a) && Scalar(b)
    ensures Extract(Dump(Obj([Member(CONTENT, Str(a)), Member(CONTENT, Str(b))]), style), int16) == Some(a)
  {
    var raw := Dump(Obj([Member(CONTENT, Str(a)), Member(CONTENT, Str(b))]), style);
    LocateInObject(a, Member(CONTENT, Str(b)), style);
    DumpNoHigh(Obj([Member(CONTENT, Str(a)), Member(CONTENT, Str(b))]), style);
    PreviewOfWhole(Locate(raw).value, int16);
    RepairKeepsScalar(a);
  }

  lemma DuplicateParses(a: Text, b: Text, style: Style)
    requires Scalar(a) && Scalar(b) && !Blank(b)
    ensures var raw := Dump(Obj([Member(CONTENT, Str(a)), Member(CONTENT, Str(b))]), style);
      raw != b && ParseCompletion(raw).content == b
  {
    var members := [Member(CONTENT, Str(a)), Member(CONTENT, Str(b))];
    var raw := Dump(Obj(members), style);
    RepairKeepsScalar(b);
    LoadsDump(Obj(members), style);
    assert Get(members, CONTENT) == Some(Str(b));
    DuplicateIsLonger(a, b, style);
    assert LStrip(raw) == raw;
  }

  lemma DuplicateIsLonger(a: Text, b: Text, style: Style)
    requires Scalar(a) && Scalar(b)
    ensures var raw := Dump(Obj([Member(CONTENT, Str(a)), Member(CONTENT, Str(b))]), style);
      |raw| > |b| && Opens(raw, LEFT_BRACE)
  {
    var second := Member(CONTENT, Str(b));
    DumpOfTwo(Member(CONTENT, Str(a)), second, style);
    EscapeNotShorter(b, style.ascii);
    assert |DumpMember(second, style)| > |b|;
  }

  lemma {:induction false} EscapeNotShorter(t: Text, ascii: bool)
    requires Scalar(t)
    ensures |Escape(t, ascii)| >= |t|
  {
    if t != [] { EscapeNotShorter(t[1..], ascii); }
  }
}
