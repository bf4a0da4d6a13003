/** A connection that breaks: whatever beginning of the event stream reaches the client, the
    call fails or returns exactly what was stored, and the bubble never shows anything that the
    server had not sent (frontend/src/api/sse.ts, frontend/src/api/messages.ts). */
module Interrupted {
  import opened Unicode
  import opened Wrappers
  import opened Json
  import opened JsonDump
  import opened JsonPrefix
  import opened Extractor
  import opened Completion
  import opened ReplyStream
  import opened Client
  import Sse

  /** What the bubble shows once these events have been dispatched, or the call has ended. */
  function BubbleAfter(events: seq<Sse.SseEvent>, bubble: Option<Text>): Option<Text> {
    if events == [] then bubble
    else
      var name, data := events[0].event, events[0].data;
      if name == CREATED then
        if Loads(data).None? then bubble else BubbleAfter(events[1..], bubble)
      else if name == DELTA then
        match DeltaContent(data)
        case None => bubble
        case Some(delta) => BubbleAfter(events[1..], AppendTo(bubble, delta))
      else if name == COMPLETED || name == ERROR then bubble
      else BubbleAfter(events[1..], bubble)
  }

  /** Nothing but whole frames, or whole frames and a beginning of the next. */
  ghost predicate Broken(received: seq<Sse.SseEvent>, events: seq<ServerEvent>, k: nat, meta: Meta)
    requires ProperMeta(meta) && AllSendable(events) && k < |events|
  {
    var whole := Frames(events[..k], meta);
    received == whole
    || exists part :: received == whole + [part] && Sse.Beginning(part, FrameOf(events[k], meta))
  }

  lemma {:induction false} FramesFront(events: seq<ServerEvent>, k: nat, meta: Meta)
    requires ProperMeta(meta) && AllSendable(events) && k <= |events|
    ensures Frames(events, meta)[..k] == Frames(events[..k], meta)
    ensures k < |events| ==> Frames(events, meta)[k] == FrameOf(events[k], meta)
    ensures k < |events| ==> Frames(events[..k + 1], meta) == Frames(events[..k], meta) + [FrameOf(events[k], meta)]
  {
    hide FrameOf, Sendable;
    if k > 0 {
      FramesFront(events[1..], k - 1, meta);
      assert events[..k][1..] == events[1..][..k - 1];
      assert k < |events| ==> events[..k + 1][1..] == events[1..][..k];
      assert Frames(events, meta)[..k] == [Frames(events, meta)[0]] + Frames(events, meta)[1..][..k - 1];
    } else {
      assert events[..0] == [];
      assert |events| > 0 ==> events[..1][1..] == [] && Frames(events[..1], meta) == [FrameOf(events[0], meta)] + Frames([], meta);
    }
  }

  /** What the parser makes of the beginning of a stream. */
  lemma BrokenStream(events: seq<ServerEvent>, meta: Meta, network: seq<Text>) returns (k: nat)
    requires ProperMeta(meta) && AllSendable(events) && events != []
    requires Concat(network) <= Sse.EncodeAll(Frames(events, meta))
    ensures k < |events| && Broken(Sse.StreamEvents(Concat(network)), events, k, meta)
    ensures Broken(Sse.Drain(Concat(network)).0, events, k, meta)
  {
    hide Concat, Sse.Beginning, Sse.StreamEvents, Sse.Drain, Sse.Encodable, Frames, FrameOf, Broken, Sendable, ProperMeta;
    FramesAreEncodable(events, meta);
    var frames := Frames(events, meta);
    var n := Sse.CutShort(frames, Concat(network));
    k := if n == |events| then n - 1 else n;
    AsBroken(events, meta, Sse.StreamEvents(Concat(network)), n);
    AsBroken(events, meta, Sse.Drain(Concat(network)).0, n);
  }

  lemma AsBroken(events: seq<ServerEvent>, meta: Meta, received: seq<Sse.SseEvent>, n: nat)
    requires ProperMeta(meta) && AllSendable(events) && events != [] && n <= |events|
    requires var frames := Frames(events, meta);
      received == frames[..n] || (n < |frames| && exists part :: received == frames[..n] + [part] && Sse.Beginning(part, frames[n]))
    ensures Broken(received, events, if n == |events| then n - 1 else n, meta)
  {
    hide Sse.Beginning, FrameOf, Sendable, ProperMeta;
    FramesFront(events, n, meta);
    if n == |events| {
      FramesFront(events, n - 1, meta);
      hide Frames;
      assert events[..n] == events;
      WholeIsBeginning(FrameOf(events[n - 1], meta));
    }
  }

  lemma WholeIsBeginning(e: Sse.SseEvent)
    ensures Sse.Beginning(e, e)
  {
  }

  // -- The last, broken frame ------------------------------------------------------

  /** A frame that is cut short is refused by the parser, or says nothing. */
  lemma PartIsRefused(part: Sse.SseEvent, e: ServerEvent, bubble: Option<Text>, meta: Meta)
    requires ProperMeta(meta) && Sendable(e) && Sse.Beginning(part, FrameOf(e, meta)) && part != FrameOf(e, meta)
    ensures Play([part], bubble) == CallFailed && BubbleAfter([part], bubble) == bubble
  {
    NamesDiffer();
    PayloadIsPlain(e, meta);
    assert part.data < FrameOf(e, meta).data;
    if e.MessageDelta? || e.MessageCompleted? {
      var payload := Payload(e, meta);
      hide Payload;
      DumpIsParsed(payload);
      assert payload.Obj?;
      ObjectCutShort(Dump(payload, PYDANTIC), payload.members, part.data);
    }
    hide Loads, Payload, Dump;
    assert [part][1..] == [];
  }

  lemma DumpIsParsed(j: Json)
    requires Plain(j) && j.Obj?
    ensures ParseValue(Dump(j, PYDANTIC)) == Ok(j, []) && Opens(Dump(j, PYDANTIC), LEFT_BRACE)
  {
    ValueRoundTrip(j, PYDANTIC, []);
    assert Dump(j, PYDANTIC) + [] == Dump(j, PYDANTIC);
  }

  // -- Replaying -------------------------------------------------------------------

  /** A frame that arrived whole but is not the last of the reply. */
  lemma WholeFrame(e: ServerEvent, later: seq<Sse.SseEvent>, bubble: Text, meta: Meta)
    requires ProperMeta(meta) && Sendable(e)
    ensures
      var delta := if e.MessageDelta? then e.content else [];
      var received := [FrameOf(e, meta)] + later;
      && (e.MessageCreated? || e.MessageDelta? ==>
            Play(received, Some(bubble)) == Play(later, Some(bubble + delta))
            && BubbleAfter(received, Some(bubble)) == BubbleAfter(later, Some(bubble + delta)))
      && (e.MessageCompleted? ==>
            Play(received, Some(bubble)) == Replied(e.reply.content, Some(bubble)) && BubbleAfter(received, Some(bubble)) == Some(bubble))
      && (e.StreamError? ==> Play(received, Some(bubble)) == CallFailed && BubbleAfter(received, Some(bubble)) == Some(bubble))
  {
    NamesDiffer();
    FrameReads(e, meta);
    var received := [FrameOf(e, meta)] + later;
    assert received[0] == FrameOf(e, meta) && received[1..] == later;
    assert bubble + [] == bubble;
    hide Loads, Payload, DeltaContent, CompletedContent;
  }

  /** Whole frames first: what is left is dispatched on the bubble they leave. */
  lemma {:induction false} FramesFirst(events: seq<ServerEvent>, later: seq<Sse.SseEvent>, bubble: Text, meta: Meta)
    requires ProperMeta(meta) && AllSendable(events) && OnlyDeltas(events)
    ensures Play(Frames(events, meta) + later, Some(bubble)) == Play(later, Some(bubble + Shown(events)))
    ensures BubbleAfter(Frames(events, meta) + later, Some(bubble)) == BubbleAfter(later, Some(bubble + Shown(events)))
  {
    hide Play, BubbleAfter, FrameOf, Sendable, ProperMeta;
    if events == [] {
      NothingShown(events);
      assert Frames(events, meta) + later == later && bubble + [] == bubble;
    } else {
      var e := events[0];
      var delta := if e.MessageDelta? then e.content else [];
      FramesFirst(events[1..], later, bubble + delta, meta);
      WholeFrame(e, Frames(events[1..], meta) + later, bubble, meta);
      ShownFirst(events);
      hide Frames, Shown;
      assert Frames(events, meta) + later == [FrameOf(e, meta)] + (Frames(events[1..], meta) + later) by {
        FramesNext(events, meta);
      }
      Associate(bubble, delta, Shown(events[1..]));
    }
  }

  lemma FramesNext(events: seq<ServerEvent>, meta: Meta)
    requires ProperMeta(meta) && AllSendable(events) && events != []
    ensures Frames(events, meta) == [FrameOf(events[0], meta)] + Frames(events[1..], meta)
  {
  }

  /** How a broken stream ends, and what it leaves on the screen. */
  lemma BrokenEnds(received: seq<Sse.SseEvent>, events: seq<ServerEvent>, k: nat, meta: Meta)
    requires ProperMeta(meta) && AllSendable(events) && k < |events| && OnlyDeltas(events[..|events| - 1])
    requires Broken(received, events, k, meta)
    ensures
      var outcome, last := Play(received, Some([])), events[|events| - 1];
      outcome == CallFailed || (last.MessageCompleted? && outcome == Replied(last.reply.content, Some(Shown(events))))
    ensures var bubble := BubbleAfter(received, Some([])); bubble.Some? && bubble.value <= Shown(events)
  {
    hide Play, BubbleAfter, FrameOf, Sendable, ProperMeta, Shown, Sse.Beginning;
    var front, whole := events[..k], Frames(events[..k], meta);
    assert OnlyDeltas(front) by { assert front == events[..|events| - 1][..k]; }
    ShownAppend(front, events[k..]);
    assert events == front + events[k..];
    ShownFirst(events[k..]);
    assert [] + Shown(front) == Shown(front);
    if received == whole {
      FramesFirst(front, [], [], meta);
      assert whole + [] == whole;
      NothingDispatched(Some(Shown(front)));
    } else {
      var part :| received == whole + [part] && Sse.Beginning(part, FrameOf(events[k], meta));
      FramesFirst(front, [part], [], meta);
      if part == FrameOf(events[k], meta) {
        LastFrame(events, k, meta);
      } else {
        PartIsRefused(part, events[k], Some(Shown(front)), meta);
      }
    }
  }

  lemma NothingDispatched(bubble: Option<Text>)
    ensures Play([], bubble) == CallFailed && BubbleAfter([], bubble) == bubble
  {
  }

  lemma LastFrame(events: seq<ServerEvent>, k: nat, meta: Meta)
    requires ProperMeta(meta) && AllSendable(events) && k < |events| && OnlyDeltas(events[..|events| - 1])
    ensures
      var front, last := Shown(events[..k]), events[|events| - 1];
      var outcome, bubble := Play([FrameOf(events[k], meta)], Some(front)), BubbleAfter([FrameOf(events[k], meta)], Some(front));
      && (outcome == CallFailed || (last.MessageCompleted? && outcome == Replied(last.reply.content, Some(Shown(events)))))
      && bubble.Some? && bubble.value <= Shown(events)
  {
    hide Play, BubbleAfter, FrameOf, ProperMeta, Shown, Sendable;
    var front, e := Shown(events[..k]), events[k];
    var delta := if e.MessageDelta? then e.content else [];
    WholeFrame(e, [], front, meta);
    assert [FrameOf(e, meta)] + [] == [FrameOf(e, meta)];
    NothingDispatched(Some(front + delta));
    ShownSoFar(events, k);
    if k < |events| - 1 {
      assert e == events[..|events| - 1][k];
    }
  }

  /** What is shown with the first `k` events, and with the next. */
  lemma ShownSoFar(events: seq<ServerEvent>, k: nat)
    requires k < |events|
    ensures
      var front, delta := Shown(events[..k]), if events[k].MessageDelta? then events[k].content else [];
      && front <= Shown(events) && front + delta <= Shown(events)
      && (k == |events| - 1 && !events[k].MessageDelta? ==> front == Shown(events))
  {
    hide Shown;
    var front, delta := Shown(events[..k]), if events[k].MessageDelta? then events[k].content else [];
    var rest := Shown(events[k..][1..]);
    ShownAppend(events[..k], events[k..]);
    assert events == events[..k] + events[k..];
    ShownFirst(events[k..]);
    Associate(front, delta, rest);
    if k == |events| - 1 {
      NothingShown(events[k..][1..]);
    }
  }

  // -- The whole way ---------------------------------------------------------------

  /** From the provider to the client over a connection that may break anywhere, for every
      reply: the call fails, or the reply was stored and is returned as it was stored, beside a
      bubble that shows all its deltas. At every moment, and at the end, the bubble shows a
      beginning of the text that the deltas spell. */
  lemma BreaksAnywhere(arrivals: seq<Arrival>, known: set<int>, meta: Meta, network: seq<Text>, int16: HexReader)
    requires ProperMeta(meta) && forall k :: k in known ==> Plain(Int(k))
    requires var persisted := Respond(arrivals, known, int16).persisted; persisted.Some? ==> Scalar(persisted.value.content)
    requires AllSendable(Respond(arrivals, known, int16).events)
      ==> Concat(network) <= Sse.EncodeAll(Frames(Respond(arrivals, known, int16).events, meta))
    ensures
      var Response(events, persisted) := Respond(arrivals, known, int16);
      var outcome := Play(Sse.StreamEvents(Concat(network)), Some([]));
      outcome == CallFailed || (persisted.Some? && outcome == Replied(persisted.value.content, Some(Shown(events))))
    ensures
      var shown := Shown(Respond(arrivals, known, int16).events);
      var open, closed := BubbleAfter(Sse.Drain(Concat(network)).0, Some([])), BubbleAfter(Sse.StreamEvents(Concat(network)), Some([]));
      open.Some? && open.value <= shown && closed.Some? && closed.value <= shown
  {
    hide Respond, Play, BubbleAfter, Frames, Shown, AllSendable, ProperMeta, OnlyDeltas, Concat, Broken, Sse.StreamEvents, Sse.Drain;
    var Response(events, persisted) := Respond(arrivals, known, int16);
    ResponseIsSendable(arrivals, known, int16);
    ResponseShape(arrivals, known, int16);
    var k := BrokenStream(events, meta, network);
    BrokenEnds(Sse.StreamEvents(Concat(network)), events, k, meta);
    BrokenEnds(Sse.Drain(Concat(network)).0, events, k, meta);
  }

  /** And for a reply within the contract: what is returned is what is stored, and all that is
      ever shown is a beginning of it. */
  lemma StoredOrNothing(arrivals: seq<Arrival>, known: set<int>, meta: Meta, network: seq<Text>, int16: HexReader)
    requires ReadsHex(int16) && ProperMeta(meta) && forall k :: k in known ==> Plain(Int(k))
    requires Respond(arrivals, known, int16).persisted.Some? && LastCompletion(arrivals).Some?
    requires Scalar(Concat(Chunks(arrivals))) && Scalar(LastCompletion(arrivals).value)
    requires WithinContract(RawReply(Concat(Chunks(arrivals)), LastCompletion(arrivals).value))
    requires AllSendable(Respond(arrivals, known, int16).events)
      ==> Concat(network) <= Sse.EncodeAll(Frames(Respond(arrivals, known, int16).events, meta))
    ensures
      var content := Respond(arrivals, known, int16).persisted.value.content;
      var outcome := Play(Sse.StreamEvents(Concat(network)), Some([]));
      var open, closed := BubbleAfter(Sse.Drain(Concat(network)).0, Some([])), BubbleAfter(Sse.StreamEvents(Concat(network)), Some([]));
      && (outcome == CallFailed || outcome == Replied(content, Some(content)))
      && open.Some? && open.value <= content && closed.Some? && closed.value <= content
  {
    hide Respond, Play, BubbleAfter, Frames, Shown, AllSendable, ProperMeta, OnlyDeltas, Concat, Sse.StreamEvents, Sse.Drain;
    hide ReadsHex, WithinContract, LastCompletion, Chunks;
    StoredIsScalar(arrivals, known, int16);
    ShownIsPersisted(arrivals, known, int16);
    BreaksAnywhere(arrivals, known, meta, network, int16);
  }
}
