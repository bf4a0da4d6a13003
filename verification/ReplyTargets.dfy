/** Which reply is stored and sent, said in terms of what the provider wrote: the content of
    its envelope, and its target if that is a message of the conversation
    (`_persist_assistant_message` in backend/app/services/ai_service.py). */
module ReplyTargets {
  import opened Unicode
  import opened Wrappers
  import opened Surrogates
  import opened Json
  import opened JsonDump
  import opened Extractor
  import opened Completion
  import opened ReplyStream
  import opened RawReplies
  import opened Envelopes
  import opened Client
  import Sse

  // -- What is stored --------------------------------------------------------------

  /** Everything the provider streamed, or the text of its completion if it streamed nothing. */
  function Received(arrivals: seq<Arrival>): Text
    requires LastCompletion(arrivals).Some?
  {
    if Concat(Chunks(arrivals)) != [] then Concat(Chunks(arrivals)) else LastCompletion(arrivals).value
  }

  /** The envelope asks for this message of the conversation. */
  ghost predicate Targets(raw: Text, known: set<int>, n: int) {
    exists content, members :: IsEnvelope(raw, content, members) && Get(members, REPLY_TO_ID) == Some(Int(n)) && n > 0 && n in known
  }

  lemma KeptReply(raw: Text, emitted: Text, known: set<int>)
    ensures var stored := Closing(raw, emitted, known).1;
      && (forall n :: stored.replyTo == Some(n) <==> Targets(raw, known, n))
      && (forall content, members :: IsEnvelope(raw, content, members) ==> stored.content == Repair(content))
      && ((forall content, members :: !IsEnvelope(raw, content, members)) ==>
            stored == Reply(if emitted != [] then emitted else raw, None))
  {
    hide EnvelopeContent, IsEnvelope;
    ParsesExactlyEnvelopes(raw);
    ContentIsShorter(raw);
    forall content, members | IsEnvelope(raw, content, members) ensures |Repair(content)| < |raw| {
      EnvelopeIsRead(raw, content, members);
    }
    if EnvelopeContent(raw).Some? {
      ReadIsEnvelope(raw);
    }
    hide ParseCompletion;
  }

  /** What is stored, for every reply and however it is cut. The target is the message that
      the envelope asks for, if and only if that is a positive integer and a message of the
      conversation; the content is the envelope's. Without an envelope there is no target, and
      the content is what was forwarded, or else the raw text. */
  lemma StoredReply(arrivals: seq<Arrival>, known: set<int>, int16: HexReader)
    requires Respond(arrivals, known, int16).persisted.Some?
    ensures LastCompletion(arrivals).Some?
    ensures
      var raw, stored := Received(arrivals), Respond(arrivals, known, int16).persisted.value;
      && (forall n :: stored.replyTo == Some(n) <==> Targets(raw, known, n))
      && (forall content, members :: IsEnvelope(raw, content, members) ==> stored.content == Repair(content))
      && ((forall content, members :: !IsEnvelope(raw, content, members)) ==>
            stored == Reply(if After(Chunks(arrivals), int16).emitted != [] then After(Chunks(arrivals), int16).emitted else raw, None))
  {
    hide Respond, After, Chunks, LastCompletion, Closing, IsEnvelope, Targets, Concat;
    PersistedReply(arrivals, known, int16);
    ReceivedAll(Chunks(arrivals), int16);
    KeptReply(Received(arrivals), After(Chunks(arrivals), int16).emitted, known);
  }

  // -- What is sent ----------------------------------------------------------------

  /** `JSON.parse(event.data).message.reply_to_id` */
  function CompletedTarget(data: Text): Option<Json> {
    match Loads(data)
    case Some(Obj(members)) => (
      match Get(members, Sse.MESSAGE) case Some(Obj(inner)) => Get(inner, REPLY_TO_ID) case _ => None)
    case _ => None
  }

  lemma TargetIsMember(reply: Reply, meta: Meta)
    requires ProperMeta(meta)
    ensures
      var inner := meta.before + [Member(CONTENT, Str(reply.content))] + meta.after + [Member(REPLY_TO_ID, TargetOf(reply))];
      Get([Member(Sse.MESSAGE, Obj(inner))] + meta.rest, Sse.MESSAGE) == Some(Obj(inner))
      && Get(inner, REPLY_TO_ID) == Some(TargetOf(reply))
  {
    var target := Member(REPLY_TO_ID, TargetOf(reply));
    CompletedReads(reply, meta);
    GetOne(target, REPLY_TO_ID);
    GetAppend(meta.before + [Member(CONTENT, Str(reply.content))] + meta.after, [target], REPLY_TO_ID);
  }

  lemma TargetReads(reply: Reply, meta: Meta)
    requires ProperMeta(meta) && Sendable(MessageCompleted(reply))
    ensures var frame := FrameOf(MessageCompleted(reply), meta);
      && frame.event == COMPLETED
      && CompletedTarget(frame.data) == Some(match reply.replyTo case None => Null case Some(n) => Int(n))
  {
    var e := MessageCompleted(reply);
    PayloadIsPlain(e, meta);
    LoadsDump(Payload(e, meta), PYDANTIC);
    TargetIsMember(reply, meta);
    hide Loads, Dump, Get;
  }

  lemma {:induction false} LastFrame(events: seq<ServerEvent>, meta: Meta)
    requires ProperMeta(meta) && AllSendable(events) && events != []
    ensures Frames(events, meta)[|events| - 1] == FrameOf(events[|events| - 1], meta)
  {
    hide FrameOf, Sendable, ProperMeta;
    if |events| > 1 {
      LastFrame(events[1..], meta);
    }
  }

  /** Carried to the client: however the network cuts the stream, the last event of a stored
      reply is the completed message, and its target is the stored one. */
  lemma TargetArrives(arrivals: seq<Arrival>, known: set<int>, meta: Meta, network: seq<Text>, int16: HexReader)
    requires ProperMeta(meta) && forall k :: k in known ==> Plain(Int(k))
    requires Respond(arrivals, known, int16).persisted.Some? && Scalar(Respond(arrivals, known, int16).persisted.value.content)
    requires AllSendable(Respond(arrivals, known, int16).events)
      ==> Concat(network) == Sse.EncodeAll(Frames(Respond(arrivals, known, int16).events, meta))
    ensures
      var received, stored := Sse.StreamEvents(Concat(network)), Respond(arrivals, known, int16).persisted.value;
      && received != [] && received[|received| - 1].event == COMPLETED
      && CompletedTarget(received[|received| - 1].data) == Some(match stored.replyTo case None => Null case Some(n) => Int(n))
  {
    hide Respond, Frames, FrameOf, AllSendable, ProperMeta, OnlyDeltas, Concat, Sse.StreamEvents, CompletedTarget, Plain;
    var Response(events, persisted) := Respond(arrivals, known, int16);
    ResponseIsSendable(arrivals, known, int16);
    ResponseShape(arrivals, known, int16);
    Delivered(events, meta, network);
    LastFrame(events, meta);
    LastIsSendable(events);
    TargetReads(persisted.value, meta);
  }

  lemma LastIsSendable(events: seq<ServerEvent>)
    requires AllSendable(events) && events != []
    ensures Sendable(events[|events| - 1])
  {
  }
}
