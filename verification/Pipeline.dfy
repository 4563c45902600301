/** From the bytes of an upstream response to what the client gets: the parser of `Sse` with the
callbacks of the two handlers. */
module Pipeline {
  import opened GoStrings
  import opened Events
  import opened Handlers
  import Sse
  import SseProperties

  /** How event payloads are decoded, and how an event error is put into words. */
  datatype Gateway = Gateway(codec: Codec, decode: string -> Option<Event>, say: EventError -> string)

  /** The decoded events of a body and its end, whoever listens. */
  function Parsed(g: Gateway, text: string, end: Sse.BodyEnd, glued: bool): Upstream {
    var p := Sse.ParseBody(Sse.Accepting(Sse.Env(g.decode, _ => None)), text, end, glued);
    Upstream(p.seen, p.stop)
  }

  function Said(g: Gateway, error: Option<EventError>): Option<string> {
    match error case None => None case Some(e) => Some(g.say(e))
  }

  // The callback of each handler: its answer after the events delivered so far.
  function StreamCallback(g: Gateway, includeUsage: bool): Sse.Env<Event> {
    Sse.Env(g.decode, seen => Said(g, StreamEvents(g.codec, seen, includeUsage).error))
  }

  function CollectCallback(g: Gateway): Sse.Env<Event> {
    Sse.Env(g.decode, seen => Said(g, CollectEvents(g.codec, seen).error))
  }

  predicate Rejecting(stop: Sse.Stop) {
    stop.Failed? && stop.error.Rejected?
  }

  lemma {:induction false} DeliverToStream(g: Gateway, includeUsage: bool, seen: seq<Event>, rest: seq<Event>,
        stop: Sse.Stop)
    requires !Rejecting(stop) && StreamEvents(g.codec, seen, includeUsage).error.None?
    ensures
      var p := Sse.Deliver(StreamCallback(g, includeUsage), seen, rest, stop);
      var s := StreamEvents(g.codec, seen + rest, includeUsage);
      && p.Stopped? && StreamEvents(g.codec, p.seen, includeUsage) == s
      && (if s.error.Some? then Rejecting(p.stop) else p.stop == stop)
    decreases |rest|
  {
    hide StreamEvents;
    if rest == [] {
      assert seen + rest == seen;
    } else {
      var now := seen + [rest[0]];
      assert seen + rest == now + rest[1..];
      if StreamEvents(g.codec, now, includeUsage).error.Some? {
        assert (seen + rest)[..|now|] == now;
        StreamEventsStop(g.codec, seen + rest, |now|, includeUsage);
      } else {
        DeliverToStream(g, includeUsage, now, rest[1..], stop);
      }
    }
  }

  lemma {:induction false} DeliverToCollect(g: Gateway, seen: seq<Event>, rest: seq<Event>, stop: Sse.Stop)
    requires !Rejecting(stop) && CollectEvents(g.codec, seen).error.None?
    ensures
      var p := Sse.Deliver(CollectCallback(g), seen, rest, stop);
      var c := CollectEvents(g.codec, seen + rest);
      && p.Stopped? && CollectEvents(g.codec, p.seen) == c
      && (if c.error.Some? then Rejecting(p.stop) else p.stop == stop)
    decreases |rest|
  {
    hide CollectEvents;
    if rest == [] {
      assert seen + rest == seen;
    } else {
      var now := seen + [rest[0]];
      assert seen + rest == now + rest[1..];
      if CollectEvents(g.codec, now).error.Some? {
        assert (seen + rest)[..|now|] == now;
        CollectEventsStop(g.codec, seen + rest, |now|);
      } else {
        DeliverToCollect(g, now, rest[1..], stop);
      }
    }
  }

  /** Parsing with the streaming handler as the callback, event by event, comes to the same as
  handing the streaming handler all the events the body holds. */
  lemma StreamThroughTheParser(g: Gateway, text: string, end: Sse.BodyEnd, glued: bool, includeUsage: bool)
    ensures
      var p := Sse.ParseBody(StreamCallback(g, includeUsage), text, end, glued);
      StreamEnd(StreamEvents(g.codec, p.seen, includeUsage), p.stop)
        == StreamEnd(StreamEvents(g.codec, Parsed(g, text, end, glued).events, includeUsage),
          Parsed(g, text, end, glued).end)
  {
    hide StreamEvents;
    var up := Parsed(g, text, end, glued);
    Sse.CallbackOnlyCutsShort(StreamCallback(g, includeUsage), text, end, glued);
    FreeParse(g, StreamCallback(g, includeUsage), text, end, glued);
    StreamStarts(g, includeUsage);
    DeliverToStream(g, includeUsage, [], up.events, up.end);
    assert [] + up.events == up.events;
  }

  lemma StreamStarts(g: Gateway, includeUsage: bool)
    ensures StreamEvents(g.codec, [], includeUsage).error.None? && CollectEvents(g.codec, []).error.None?
  {
  }

  /** The same for the non-streaming handler. */
  lemma CollectThroughTheParser(g: Gateway, text: string, end: Sse.BodyEnd, glued: bool)
    ensures
      var p := Sse.ParseBody(CollectCallback(g), text, end, glued);
      CollectEnd(CollectEvents(g.codec, p.seen), p.stop) == CollectRun(g.codec, Parsed(g, text, end, glued))
  {
    hide CollectEvents;
    var up := Parsed(g, text, end, glued);
    Sse.CallbackOnlyCutsShort(CollectCallback(g), text, end, glued);
    FreeParse(g, CollectCallback(g), text, end, glued);
    StreamStarts(g, false);
    DeliverToCollect(g, [], up.events, up.end);
    assert [] + up.events == up.events;
  }

  // Whatever the callback was, without it the body holds the same events.
  lemma FreeParse(g: Gateway, env: Sse.Env<Event>, text: string, end: Sse.BodyEnd, glued: bool)
    requires env.decode == g.decode
    ensures
      var p := Sse.ParseBody(Sse.Accepting(env), text, end, glued);
      Parsed(g, text, end, glued) == Upstream(p.seen, p.stop) && !Rejecting(p.stop)
  {
    Sse.AcceptingNeverRejects(env, Sse.Start(), Sse.SplitLines(text));
  }

  /** Comments and event:, id: and retry: lines, wherever they are inserted in the body, reach
  neither client. */
  lemma NoiseReachesNobody(g: Gateway, before: string, noise: seq<string>, after: string, end: Sse.BodyEnd,
        glued: bool, includeUsage: bool)
    requires Sse.Terminated(before) && SseProperties.AllNoise(noise)
    ensures
      var a := Parsed(g, before + (SseProperties.NoiseText(noise) + after), end, glued);
      var b := Parsed(g, before + after, end, glued);
      StreamRun(g.codec, a, includeUsage) == StreamRun(g.codec, b, includeUsage)
        && CollectRun(g.codec, a) == CollectRun(g.codec, b)
  {
    SseProperties.NoiseInsertion(Sse.Accepting(Sse.Env(g.decode, _ => None)), before, noise, after, end, glued);
  }
}
