/** The client side of a streamed reply: the module-level store of in-flight bubbles
    (frontend/src/features/chat/streamingStore.ts), the dispatch loop
    (frontend/src/api/messages.ts), and the end-to-end promise. */
module Client {
  import opened Unicode
  import opened Wrappers
  import opened Surrogates
  import opened Json
  import opened JsonDump
  import opened Extractor
  import opened Completion
  import opened ReplyStream
  import Sse

  // -- The store -------------------------------------------------------------------

  datatype StreamStatus = Pending | Streaming

  datatype ConversationStream = ConversationStream(status: StreamStatus, text: Text)

  class StreamingStore {
    var streams: map<int, ConversationStream>

    constructor ()
      ensures streams == map[]
    {
      streams := map[];
    }

    function Bubble(conversation: int): Option<Text>
      reads this
    {
      if conversation in streams then Some(streams[conversation].text) else None
    }

    method BeginStream(conversation: int)
      modifies this
      ensures streams == old(streams)[conversation := ConversationStream(Pending, [])]
    {
      streams := streams[conversation := ConversationStream(Pending, [])];
    }

    method AppendStreamDelta(conversation: int, delta: Text)
      modifies this
      ensures streams == if conversation in old(streams)
        then old(streams)[conversation := ConversationStream(Streaming, old(streams)[conversation].text + delta)]
        else old(streams)
    {
      if conversation !in streams {
        return;
      }
      streams := streams[conversation := ConversationStream(Streaming, streams[conversation].text + delta)];
    }

    /** `finishStream` and `failStream`: the bubble goes, the others stay. */
    method RemoveStream(conversation: int)
      modifies this
      ensures streams == old(streams) - {conversation}
    {
      streams := streams - {conversation};
    }
  }

  // -- The dispatch loop -----------------------------------------------------------

  /** `message.created` */
  const CREATED: Text := Sse.MESSAGE + [0x2E, 0x63, 0x72, 0x65, 0x61, 0x74, 0x65, 0x64]
  /** `message.delta` */
  const DELTA: Text := Sse.MESSAGE + [0x2E, 0x64, 0x65, 0x6C, 0x74, 0x61]
  /** `message.completed` */
  const COMPLETED: Text := Sse.MESSAGE + [0x2E, 0x63, 0x6F, 0x6D, 0x70, 0x6C, 0x65, 0x74, 0x65, 0x64]
  /** `error` */
  const ERROR: Text := [0x65, 0x72, 0x72, 0x6F, 0x72]

  /** How the call ends. A reply carries what the bubble showed when it arrived. */
  datatype Outcome = Replied(content: Text, bubble: Option<Text>) | CallFailed

  function TextMember(members: seq<Member>, key: Text): Option<Text> {
    match Get(members, key) case Some(Str(t)) => Some(t) case _ => None
  }

  /** `JSON.parse(event.data).content` */
  function DeltaContent(data: Text): Option<Text> {
    match Loads(data) case Some(Obj(members)) => TextMember(members, CONTENT) case _ => None
  }

  /** `JSON.parse(event.data).message.content` */
  function CompletedContent(data: Text): Option<Text> {
    match Loads(data)
    case Some(Obj(members)) => (
      match Get(members, Sse.MESSAGE) case Some(Obj(inner)) => TextMember(inner, CONTENT) case _ => None)
    case _ => None
  }

  function AppendTo(bubble: Option<Text>, delta: Text): Option<Text> {
    match bubble case None => None case Some(t) => Some(t + delta)
  }

  /** What a sequence of events comes to, for a bubble that shows `bubble` before it. */
  function Play(events: seq<Sse.SseEvent>, bubble: Option<Text>): Outcome {
    if events == [] then CallFailed
    else
      var name, data := events[0].event, events[0].data;
      if name == CREATED then
        if Loads(data).None? then CallFailed else Play(events[1..], bubble)
      else if name == DELTA then
        match DeltaContent(data)
        case None => CallFailed
        case Some(delta) => Play(events[1..], AppendTo(bubble, delta))
      else if name == COMPLETED then
        match CompletedContent(data) case None => CallFailed case Some(content) => Replied(content, bubble)
      else if name == ERROR then CallFailed
      else Play(events[1..], bubble)
  }

  /** One message sent and its reply consumed: the bubble is opened, grows with every
      delta, and is gone at the end; no other conversation's bubble is touched. */
  method SendMessage(store: StreamingStore, conversation: int, events: seq<Sse.SseEvent>) returns (outcome: Outcome)
    modifies store
    ensures outcome == Play(events, Some([]))
    ensures store.streams == old(store.streams) - {conversation}
  {
    store.BeginStream(conversation);
    outcome := Consume(store, conversation, events);
    store.RemoveStream(conversation);
  }

  method Consume(store: StreamingStore, conversation: int, events: seq<Sse.SseEvent>) returns (outcome: Outcome)
    modifies store
    ensures outcome == Play(events, old(store.Bubble(conversation)))
    ensures store.streams - {conversation} == old(store.streams) - {conversation}
  {
    var i := 0;
    while i < |events|
      invariant 0 <= i <= |events|
      invariant Play(events[i..], store.Bubble(conversation)) == Play(events, old(store.Bubble(conversation)))
      invariant store.streams - {conversation} == old(store.streams) - {conversation}
    {
      var name, data := events[i].event, events[i].data;
      assert events[i..][1..] == events[i + 1..];
      if name == CREATED {
        if Loads(data).None? {
          return CallFailed;
        }
      } else if name == DELTA {
        var delta := DeltaContent(data);
        if delta.None? {
          return CallFailed;
        }
        store.AppendStreamDelta(conversation, delta.value);
      } else if name == COMPLETED {
        var content := CompletedContent(data);
        if content.None? {
          return CallFailed;
        }
        return Replied(content.value, store.Bubble(conversation));
      } else if name == ERROR {
        return CallFailed;
      }
      i := i + 1;
    }
    return CallFailed;
  }

  /** An event of any other name changes nothing, wherever it comes. */
  lemma {:induction false} UnknownIsIgnored(before: seq<Sse.SseEvent>, e: Sse.SseEvent, later: seq<Sse.SseEvent>, bubble: Option<Text>)
    requires e.event !in {CREATED, DELTA, COMPLETED, ERROR}
    ensures Play(before + [e] + later, bubble) == Play(before + later, bubble)
    decreases |before|
  {
    hide Loads, DeltaContent, CompletedContent;
    if before == [] {
      assert [] + [e] + later == [e] + later && ([e] + later)[1..] == later && [] + later == later;
    } else {
      var rest, delta := before[1..], DeltaContent(before[0].data);
      assert (before + [e] + later)[1..] == rest + [e] + later && (before + later)[1..] == rest + later;
      UnknownIsIgnored(rest, e, later, bubble);
      if delta.Some? {
        UnknownIsIgnored(rest, e, later, AppendTo(bubble, delta.value));
      }
    }
  }

  // -- What the server writes ------------------------------------------------------

  /** The parts of the payloads that are not reply text: they may be anything the
      serializer accepts. */
  datatype Meta = Meta(created: Json, before: seq<Member>, after: seq<Member>, rest: seq<Member>, detail: Text)

  /** The payload fields around the content bear other names. */
  predicate ProperMeta(meta: Meta) {
    && Plain(meta.created) && Plain(Obj(meta.before)) && Plain(Obj(meta.after)) && Plain(Obj(meta.rest)) && Scalar(meta.detail)
    && Get(meta.after, CONTENT).None? && Get(meta.rest, Sse.MESSAGE).None?
  }

  /** `detail` */
  const DETAIL: Text := [0x64, 0x65, 0x74, 0x61, 0x69, 0x6C]

  function TargetOf(reply: Reply): Json {
    match reply.replyTo case None => Null case Some(n) => Int(n)
  }

  /** The JSON payload of each event: the completed message holds its id, conversation and
      role before the content, its time and reply target behind it. */
  function Payload(e: ServerEvent, meta: Meta): Json {
    match e
    case MessageCreated => meta.created
    case MessageDelta(content) => Obj([Member(CONTENT, Str(content))])
    case MessageCompleted(reply) =>
      Obj([Member(Sse.MESSAGE, Obj(meta.before + [Member(CONTENT, Str(reply.content))] + meta.after
        + [Member(REPLY_TO_ID, TargetOf(reply))]))] + meta.rest)
    case StreamError(_) => Obj([Member(DETAIL, Str(meta.detail))])
  }

  function NameOf(e: ServerEvent): Text {
    match e
    case MessageCreated => CREATED
    case MessageDelta(_) => DELTA
    case MessageCompleted(_) => COMPLETED
    case StreamError(_) => ERROR
  }

  /** The reply text can be encoded as UTF-8 and the reply target printed. */
  predicate Sendable(e: ServerEvent) {
    match e
    case MessageDelta(content) => Scalar(content)
    case MessageCompleted(reply) => Scalar(reply.content) && Plain(TargetOf(reply))
    case _ => true
  }

  predicate AllSendable(events: seq<ServerEvent>) {
    forall i :: 0 <= i < |events| ==> Sendable(events[i])
  }

  lemma PayloadIsPlain(e: ServerEvent, meta: Meta)
    requires ProperMeta(meta) && Sendable(e)
    ensures Plain(Payload(e, meta))
  {
    assert Scalar(CONTENT) && Scalar(REPLY_TO_ID) && Scalar(Sse.MESSAGE) && Scalar(DETAIL);
    match e
    case MessageCompleted(reply) =>
      var content, target := Member(CONTENT, Str(reply.content)), Member(REPLY_TO_ID, TargetOf(reply));
      PlainObjects(meta.before, [content]);
      PlainObjects(meta.before + [content], meta.after);
      PlainObjects(meta.before + [content] + meta.after, [target]);
      PlainObjects([Member(Sse.MESSAGE, Obj(meta.before + [content] + meta.after + [target]))], meta.rest);
    case _ =>
  }

  lemma PlainObjects(a: seq<Member>, b: seq<Member>)
    requires Plain(Obj(a)) && Plain(Obj(b))
    ensures Plain(Obj(a + b))
  {
  }

  function FrameOf(e: ServerEvent, meta: Meta): Sse.SseEvent
    requires ProperMeta(meta) && Sendable(e)
  {
    PayloadIsPlain(e, meta);
    Sse.SseEvent(NameOf(e), Dump(Payload(e, meta), PYDANTIC))
  }

  function Frames(events: seq<ServerEvent>, meta: Meta): (r: seq<Sse.SseEvent>)
    requires ProperMeta(meta) && AllSendable(events)
    ensures |r| == |events|
  {
    if events == [] then [] else [FrameOf(events[0], meta)] + Frames(events[1..], meta)
  }

  // -- End to end ------------------------------------------------------------------

  lemma NameIsTrimmed(e: ServerEvent)
    ensures Sse.OneLine(NameOf(e)) && Sse.Trim([SPACE] + NameOf(e)) == NameOf(e)
    ensures NameOf(e)[|NameOf(e)| - 1] != CARRIAGE_RETURN
  {
    var name := NameOf(e);
    match e {
      case MessageCreated => assert name[0] == 0x6D && name[14] == 0x64;
      case MessageDelta(_) => assert name[0] == 0x6D && name[12] == 0x61;
      case MessageCompleted(_) => assert name[0] == 0x6D && name[16] == 0x64;
      case StreamError(_) => assert name[0] == 0x65 && name[4] == 0x72;
    }
    assert ([SPACE] + name)[1..] == name;
    assert Sse.TrimStart(name) == name && Sse.TrimEnd(name) == name;
  }

  lemma FrameIsEncodable(e: ServerEvent, meta: Meta)
    requires ProperMeta(meta) && Sendable(e)
    ensures Sse.Encodable(FrameOf(e, meta))
  {
    PayloadIsPlain(e, meta);
    NameIsTrimmed(e);
    DumpIsPrintable(Payload(e, meta), PYDANTIC);
  }

  lemma {:induction false} FramesAreEncodable(events: seq<ServerEvent>, meta: Meta)
    requires ProperMeta(meta) && AllSendable(events)
    ensures forall i :: 0 <= i < |events| ==> Sse.Encodable(Frames(events, meta)[i])
  {
    if events != [] {
      FrameIsEncodable(events[0], meta);
      FramesAreEncodable(events[1..], meta);
    }
  }

  lemma {:induction false} GetAppend(a: seq<Member>, b: seq<Member>, key: Text)
    ensures Get(a + b, key) == if Get(b, key).Some? then Get(b, key) else Get(a, key)
  {
    if b == [] {
      assert a + b == a;
    } else {
      var n := |b| - 1;
      assert (a + b)[..|a| + n] == a + b[..n];
      GetAppend(a, b[..n], key);
    }
  }

  lemma GetOne(m: Member, key: Text)
    ensures Get([m], key) == if m.key == key then Some(m.value) else None
  {
    var one: seq<Member> := [m];
    assert one[..0] == [];
  }

  /** The client reads back from each frame the text the server put in. */
  lemma FrameReads(e: ServerEvent, meta: Meta)
    requires ProperMeta(meta) && Sendable(e)
    ensures Loads(FrameOf(e, meta).data).Some?
    ensures e.MessageDelta? ==> DeltaContent(FrameOf(e, meta).data) == Some(e.content)
    ensures e.MessageCompleted? ==> CompletedContent(FrameOf(e, meta).data) == Some(e.reply.content)
  {
    PayloadIsPlain(e, meta);
    LoadsDump(Payload(e, meta), PYDANTIC);
    match e
    case MessageDelta(content) => GetOne(Member(CONTENT, Str(content)), CONTENT);
    case MessageCompleted(reply) =>
      CompletedReads(reply, meta);
      CompletedContentIs(Dump(Payload(e, meta), PYDANTIC), Payload(e, meta).members, reply.content);
    case _ =>
  }

  lemma CompletedContentIs(data: Text, members: seq<Member>, content: Text)
    requires Loads(data) == Some(Obj(members))
    requires Get(members, Sse.MESSAGE).Some? && Get(members, Sse.MESSAGE).value.Obj?
    requires Get(Get(members, Sse.MESSAGE).value.members, CONTENT) == Some(Str(content))
    ensures CompletedContent(data) == Some(content)
  {
  }

  lemma CompletedReads(reply: Reply, meta: Meta)
    requires ProperMeta(meta)
    ensures
      var inner := meta.before + [Member(CONTENT, Str(reply.content))] + meta.after + [Member(REPLY_TO_ID, TargetOf(reply))];
      Get([Member(Sse.MESSAGE, Obj(inner))] + meta.rest, Sse.MESSAGE) == Some(Obj(inner))
      && Get(inner, CONTENT) == Some(Str(reply.content))
  {
    var content, target := Member(CONTENT, Str(reply.content)), Member(REPLY_TO_ID, TargetOf(reply));
    var inner := meta.before + [content] + meta.after + [target];
    assert CONTENT[0] != REPLY_TO_ID[0];
    GetOne(content, CONTENT);
    GetOne(target, CONTENT);
    GetAppend(meta.before, [content], CONTENT);
    GetAppend(meta.before + [content], meta.after, CONTENT);
    GetAppend(meta.before + [content] + meta.after, [target], CONTENT);
    GetOne(Member(Sse.MESSAGE, Obj(inner)), Sse.MESSAGE);
    GetAppend([Member(Sse.MESSAGE, Obj(inner))], meta.rest, Sse.MESSAGE);
  }

  lemma NamesDiffer()
    ensures |CREATED| == 15 && |DELTA| == 13 && |COMPLETED| == 17 && |ERROR| == 5
  {
  }

  lemma ShownFirst(events: seq<ServerEvent>)
    requires events != []
    ensures Shown(events) == (if events[0].MessageDelta? then events[0].content else []) + Shown(events[1..])
  {
    ShownOne(events[0]);
    ShownAppend([events[0]], events[1..]);
    assert [events[0]] + events[1..] == events;
  }

  /** The first frame, and what is left to play. */
  lemma PlayFirst(events: seq<ServerEvent>, bubble: Option<Text>, meta: Meta)
    requires ProperMeta(meta) && AllSendable(events) && events != []
    ensures
      var e := events[0];
      Play(Frames(events, meta), bubble) ==
        if e.MessageCreated? then Play(Frames(events[1..], meta), bubble)
        else if e.MessageDelta? then Play(Frames(events[1..], meta), AppendTo(bubble, e.content))
        else if e.MessageCompleted? then Replied(e.reply.content, bubble)
        else CallFailed
  {
    NamesDiffer();
    FrameReads(events[0], meta);
    assert Frames(events, meta)[1..] == Frames(events[1..], meta);
  }

  /** A well-ordered reply, replayed on the client: the bubble shows all its deltas when
      the completed message arrives. */
  lemma {:induction false} PlayReply(events: seq<ServerEvent>, bubble: Text, meta: Meta)
    requires ProperMeta(meta) && AllSendable(events)
    requires events != [] && events[|events| - 1].MessageCompleted? && OnlyDeltas(events[..|events| - 1])
    ensures Play(Frames(events, meta), Some(bubble)) == Replied(events[|events| - 1].reply.content, Some(bubble + Shown(events)))
  {
    hide Play, Frames, Shown, Sendable, ProperMeta;
    PlayFirst(events, Some(bubble), meta);
    ShownFirst(events);
    if |events| == 1 {
      NothingShown(events[1..]);
      assert bubble + Shown(events) == bubble;
    } else {
      var e := events[0];
      var delta := if e.MessageDelta? then e.content else [];
      assert e == events[..|events| - 1][0];
      assert events[1..][..|events| - 2] == events[..|events| - 1][1..];
      PlayReply(events[1..], bubble + delta, meta);
      Associate(bubble, delta, Shown(events[1..]));
      assert !e.MessageDelta? ==> bubble + delta == bubble;
    }
  }

  lemma NothingShown(events: seq<ServerEvent>)
    requires events == []
    ensures Shown(events) == []
  {
  }

  /** Without a completed message the call fails. */
  lemma {:induction false} PlayWithoutReply(events: seq<ServerEvent>, bubble: Option<Text>, meta: Meta)
    requires ProperMeta(meta) && AllSendable(events)
    requires forall i :: 0 <= i < |events| ==> !events[i].MessageCompleted?
    ensures Play(Frames(events, meta), bubble) == CallFailed
  {
    if events != [] {
      PlayFirst(events, bubble, meta);
      PlayWithoutReply(events[1..], if events[0].MessageDelta? then AppendTo(bubble, events[0].content) else bubble, meta);
    }
  }

  lemma {:induction false} FeedIsSendable(chunks: seq<Text>, int16: HexReader)
    ensures Scalar(After(chunks, int16).emitted) && AllSendable(After(chunks, int16).events)
  {
    if chunks != [] {
      var before := After(chunks[..|chunks| - 1], int16);
      FeedIsSendable(chunks[..|chunks| - 1], int16);
      ExtractIsScalar(After(chunks, int16).buffer, int16);
    }
  }

  lemma ExtractIsScalar(buffer: Text, int16: HexReader)
    ensures Extract(buffer, int16).Some? ==> Scalar(Extract(buffer, int16).value)
  {
    match Locate(buffer)
    case None =>
    case Some(body) =>
      match Preview(body, int16)
      case None =>
      case Some(t) => RepairIsScalar(t);
  }

  lemma ResolveIsScalar(raw: Text, emitted: Text)
    requires Scalar(raw) && Scalar(emitted)
    ensures Scalar(Resolve(raw, emitted).content)
  {
    match EnvelopeContent(raw)
    case None =>
    case Some((t, _)) => RepairIsScalar(t);
  }

  /** Every event of a response can be written, when what is stored and the ids in the
      conversation can. */
  lemma ResponseIsSendable(arrivals: seq<Arrival>, known: set<int>, int16: HexReader)
    requires forall k :: k in known ==> Plain(Int(k))
    requires var persisted := Respond(arrivals, known, int16).persisted; persisted.Some? ==> Scalar(persisted.value.content)
    ensures AllSendable(Respond(arrivals, known, int16).events)
  {
    hide AllSendable, After, Chunks, Plain, Scalar;
    var n := Consumed(arrivals);
    if n < |arrivals| {
      EarlyEndIsSendable(arrivals[n]);
      SendableAfter(Chunks(arrivals[..n]), EarlyEnd(arrivals[n]), int16);
    } else if LastCompletion(arrivals).None? {
      EarlyEndIsSendable(Arrival(Raised, false));
      SendableAfter(Chunks(arrivals[..n]), [StreamError(StreamInterrupted)], int16);
    } else {
      PersistedReply(arrivals, known, int16);
      var f := After(Chunks(arrivals), int16);
      var raw := RawReply(f.buffer, LastCompletion(arrivals).value);
      FeedIsSendable(Chunks(arrivals), int16);
      ClosingIsSendable(raw, f.emitted, known);
      SendableJoin(f.events, Closing(raw, f.emitted, known).0);
    }
  }

  lemma EarlyEndIsSendable(a: Arrival)
    requires Stops(a)
    ensures AllSendable(EarlyEnd(a)) && AllSendable([StreamError(StreamInterrupted)])
  {
  }

  lemma SendableAfter(chunks: seq<Text>, ending: seq<ServerEvent>, int16: HexReader)
    requires AllSendable(ending)
    ensures AllSendable(After(chunks, int16).events + ending)
  {
    FeedIsSendable(chunks, int16);
    SendableJoin(After(chunks, int16).events, ending);
  }

  lemma SendableJoin(a: seq<ServerEvent>, b: seq<ServerEvent>)
    requires AllSendable(a) && AllSendable(b)
    ensures AllSendable(a + b)
  {
  }

  lemma ClosingIsSendable(raw: Text, emitted: Text, known: set<int>)
    requires Scalar(Resolve(raw, emitted).content) && forall k :: k in known ==> Plain(Int(k))
    ensures AllSendable(Closing(raw, emitted, known).0)
  {
  }

  /** Only deltas come between the opening event and the last one, and the last one completes
      the reply exactly when the reply is stored. */
  lemma ResponseShape(arrivals: seq<Arrival>, known: set<int>, int16: HexReader)
    ensures
      var Response(events, persisted) := Respond(arrivals, known, int16);
      && events != [] && OnlyDeltas(events[..|events| - 1])
      && match persisted
         case Some(reply) => events[|events| - 1] == MessageCompleted(reply)
         case None => !events[|events| - 1].MessageCompleted?
  {
    hide After, Chunks, OnlyDeltas, LastCompletion, Closing;
    var n := Consumed(arrivals);
    var f := After(Chunks(arrivals[..n]), int16);
    FeedSendsDeltas(Chunks(arrivals[..n]), int16);
    FeedOpens(Chunks(arrivals[..n]), int16);
    if n < |arrivals| {
      EarlyShape(f.events, arrivals[n]);
    } else if LastCompletion(arrivals).None? {
      LastIs(f.events, StreamError(StreamInterrupted));
    } else {
      PersistedReply(arrivals, known, int16);
      assert arrivals[..n] == arrivals;
      ClosingShape(f.events, RawReply(f.buffer, LastCompletion(arrivals).value), f.emitted, known);
    }
  }

  lemma EarlyShape(events: seq<ServerEvent>, a: Arrival)
    requires Stops(a) && OnlyDeltas(events) && events != []
    ensures var all := events + EarlyEnd(a); all != [] && OnlyDeltas(all[..|all| - 1]) && !all[|all| - 1].MessageCompleted?
  {
    hide OnlyDeltas;
    if EarlyEnd(a) == [] {
      assert events + [] == events;
      DeltasFront(events);
    } else {
      assert EarlyEnd(a) == [EarlyEnd(a)[0]];
      LastIs(events, EarlyEnd(a)[0]);
    }
  }

  lemma ClosingShape(events: seq<ServerEvent>, raw: Text, emitted: Text, known: set<int>)
    requires OnlyDeltas(events)
    ensures
      var (closing, stored) := Closing(raw, emitted, known);
      var all := events + closing;
      all != [] && OnlyDeltas(all[..|all| - 1]) && all[|all| - 1] == MessageCompleted(stored)
  {
    hide OnlyDeltas, Resolve, Retarget, Remaining;
    var (closing, stored) := Closing(raw, emitted, known);
    ShownClosing(Remaining(Resolve(raw, emitted).content, emitted), stored);
    JoinShows(events, closing);
  }

  lemma {:induction false} FeedOpens(chunks: seq<Text>, int16: HexReader)
    ensures After(chunks, int16).events != []
  {
    if chunks != [] {
      FeedOpens(chunks[..|chunks| - 1], int16);
    }
  }

  lemma DeltasFront(events: seq<ServerEvent>)
    requires OnlyDeltas(events) && events != []
    ensures OnlyDeltas(events[..|events| - 1]) && !events[|events| - 1].MessageCompleted?
  {
  }

  lemma LastIs(events: seq<ServerEvent>, e: ServerEvent)
    requires OnlyDeltas(events)
    ensures var all := events + [e]; OnlyDeltas(all[..|all| - 1]) && all[|all| - 1] == e
  {
    assert (events + [e])[..|events|] == events;
  }

  /** However the network cuts the stream, the client parses the frames that were sent. */
  lemma Delivered(events: seq<ServerEvent>, meta: Meta, network: seq<Text>)
    requires ProperMeta(meta) && AllSendable(events) && Concat(network) == Sse.EncodeAll(Frames(events, meta))
    ensures Sse.StreamEvents(Concat(network)) == Frames(events, meta)
  {
    FramesAreEncodable(events, meta);
    Sse.RoundTrip(Frames(events, meta));
  }

  lemma ReplyArrives(events: seq<ServerEvent>, meta: Meta, network: seq<Text>)
    requires ProperMeta(meta) && AllSendable(events) && Concat(network) == Sse.EncodeAll(Frames(events, meta))
    requires events != [] && events[|events| - 1].MessageCompleted? && OnlyDeltas(events[..|events| - 1])
    ensures Play(Sse.StreamEvents(Concat(network)), Some([])) == Replied(events[|events| - 1].reply.content, Some(Shown(events)))
  {
    Delivered(events, meta, network);
    PlayReply(events, [], meta);
    assert [] + Shown(events) == Shown(events);
  }

  lemma FailureArrives(events: seq<ServerEvent>, meta: Meta, network: seq<Text>)
    requires ProperMeta(meta) && AllSendable(events) && Concat(network) == Sse.EncodeAll(Frames(events, meta))
    requires forall e :: e in events ==> !e.MessageCompleted?
    ensures Play(Sse.StreamEvents(Concat(network)), Some([])) == CallFailed
  {
    Delivered(events, meta, network);
    PlayWithoutReply(events, Some([]), meta);
  }

  /** From the provider to the client, for every reply: the call succeeds exactly when the
      reply was persisted, the completed message carries exactly the persisted content, and the
      bubble then shows exactly the deltas. */
  lemma Arrives(arrivals: seq<Arrival>, known: set<int>, meta: Meta, network: seq<Text>, int16: HexReader)
    requires ProperMeta(meta) && forall k :: k in known ==> Plain(Int(k))
    requires var persisted := Respond(arrivals, known, int16).persisted; persisted.Some? ==> Scalar(persisted.value.content)
    requires AllSendable(Respond(arrivals, known, int16).events)
      ==> Concat(network) == Sse.EncodeAll(Frames(Respond(arrivals, known, int16).events, meta))
    ensures AllSendable(Respond(arrivals, known, int16).events)
    ensures Play(Sse.StreamEvents(Concat(network)), Some([])) ==
      match Respond(arrivals, known, int16).persisted
      case Some(reply) => Replied(reply.content, Some(Shown(Respond(arrivals, known, int16).events)))
      case None => CallFailed
  {
    hide Respond, Play, Frames, Shown, AllSendable, ProperMeta, OnlyDeltas, Concat;
    var Response(events, persisted) := Respond(arrivals, known, int16);
    ResponseIsSendable(arrivals, known, int16);
    ResponseShape(arrivals, known, int16);
    if persisted.Some? {
      ReplyArrives(events, meta, network);
    } else {
      PersistedOnlyWhenCompleted(arrivals, known, int16, Stays);
      FailureArrives(events, meta, network);
    }
  }

  /** From the provider to the bubble: for every way the provider cuts its reply, and
      every way the network cuts the event stream, the call succeeds exactly when the
      reply was persisted, and the bubble then shows, and the completed message carries,
      exactly the persisted content. */
  lemma EndToEnd(arrivals: seq<Arrival>, known: set<int>, meta: Meta, network: seq<Text>, int16: HexReader)
    requires ReadsHex(int16) && ProperMeta(meta) && forall k :: k in known ==> Plain(Int(k))
    requires Scalar(Concat(Chunks(arrivals)))
    requires LastCompletion(arrivals).Some? ==>
      Scalar(LastCompletion(arrivals).value) && WithinContract(RawReply(Concat(Chunks(arrivals)), LastCompletion(arrivals).value))
    requires AllSendable(Respond(arrivals, known, int16).events)
      ==> Concat(network) == Sse.EncodeAll(Frames(Respond(arrivals, known, int16).events, meta))
    ensures AllSendable(Respond(arrivals, known, int16).events)
    ensures Play(Sse.StreamEvents(Concat(network)), Some([])) ==
      match Respond(arrivals, known, int16).persisted
      case Some(reply) => Replied(reply.content, Some(reply.content))
      case None => CallFailed
  {
    hide Respond, Play, Frames, Shown, AllSendable, ProperMeta, Concat, Sse.StreamEvents, ReadsHex, WithinContract;
    if Respond(arrivals, known, int16).persisted.Some? {
      PersistedReply(arrivals, known, int16);
      StoredIsScalar(arrivals, known, int16);
      ShownIsPersisted(arrivals, known, int16);
    }
    Arrives(arrivals, known, meta, network, int16);
  }

  lemma StoredIsScalar(arrivals: seq<Arrival>, known: set<int>, int16: HexReader)
    requires Respond(arrivals, known, int16).persisted.Some? && LastCompletion(arrivals).Some?
    requires Scalar(Concat(Chunks(arrivals))) && Scalar(LastCompletion(arrivals).value)
    ensures Scalar(Respond(arrivals, known, int16).persisted.value.content)
  {
    hide After, Chunks, Concat, Scalar, LastCompletion, EnvelopeContent;
    PersistedReply(arrivals, known, int16);
    ReceivedAll(Chunks(arrivals), int16);
    FeedIsSendable(Chunks(arrivals), int16);
    var f := After(Chunks(arrivals), int16);
    ResolveIsScalar(RawReply(f.buffer, LastCompletion(arrivals).value), f.emitted);
  }
}
