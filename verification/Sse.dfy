/** The event-stream parser of internal/app/cc.go, specified line by line.

The text of a response body is cut into lines, the lines drive a small state machine, and
the end of the body closes it. The callback of the parser may keep state of its own; what it
answers is then a function of the events delivered so far, the new one last, and that is how
`Env.onEvent` models it. */
module Sse {
  import opened GoStrings

  /** No line, and no event's data, may be longer than this many bytes. */
  const MAX_BYTES: nat := 32 * 1024 * 1024

  datatype Env<!E> = Env(decode: string -> Option<E>, onEvent: seq<E> -> Option<string>)

  datatype ParseError =
    | LineTooLong
    | EventTooLarge
    | BadPayload(payload: string)
    | Rejected(reason: string)
    | BodyFailed(reason: string)

  /** How the body itself ends. */
  datatype BodyEnd = Eof | Broken(reason: string)

  /** How a parse ends. */
  datatype Stop = EndOfStream | DoneMarker | Failed(error: ParseError)

  datatype Parser<E> =
    | Running(data: seq<string>, seen: seq<E>)
    | Stopped(seen: seq<E>, stop: Stop)

  // ------------------------------------------------------------------- lines

  // bufio drops "\r\n" as well as "\n" from a terminated line.
  function FirstLine(text: string): string {
    var k := LineEnd(text);
    if k == |text| then text else TrimCr(text[..k])
  }

  function AfterFirstLine(text: string): (rest: string)
    ensures text != "" ==> |rest| < |text|
  {
    var k := LineEnd(text);
    if k == |text| then "" else text[k + 1..]
  }

  function SplitLines(text: string): seq<string>
    decreases |text|
  {
    if text == "" then [] else [FirstLine(text)] + SplitLines(AfterFirstLine(text))
  }

  predicate Terminated(text: string) {
    text == "" || text[|text| - 1] == '\n'
  }

  // --------------------------------------------------------------- the steps

  function TotalBytes(data: seq<string>): nat {
    if data == [] then 0 else TotalBytes(data[..|data| - 1]) + |data[|data| - 1]|
  }

  function Dispatch<E>(env: Env<E>, data: seq<string>, seen: seq<E>): (p: Parser<E>)
    ensures p.Running? ==> p.data == []
    ensures seen <= p.seen && |p.seen| <= |seen| + 1
  {
    var payload := Join(data);
    if data == [] || Blank(payload) then Running([], seen)
    else if TrimSpace(payload) == "[DONE]" then Stopped(seen, DoneMarker)
    else match env.decode(payload) {
      case None => Stopped(seen, Failed(BadPayload(payload)))
      case Some(event) =>
        match env.onEvent(seen + [event])
        case Some(reason) => Stopped(seen + [event], Failed(Rejected(reason)))
        case None => Running([], seen + [event])
    }
  }

  predicate IsCommentLine(line: string) {
    HasPrefix(line, ":")
  }

  predicate IsFieldLine(line: string) {
    HasPrefix(line, "event:") || HasPrefix(line, "id:") || HasPrefix(line, "retry:")
  }

  function DataValue(line: string): string
    requires HasPrefix(line, "data:")
  {
    var value := line[5..];
    if HasPrefix(value, " ") then value[1..] else value
  }

  /** A line over the bound comes back empty from the reader, next to the error: the pending data
  is dispatched as for a blank line, and only then is the error looked at. */
  function OverLong<E>(env: Env<E>, data: seq<string>, seen: seq<E>): (p: Parser<E>)
    ensures p.Stopped?
  {
    var q := Dispatch(env, data, seen);
    if q.Stopped? then q else Stopped(q.seen, Failed(LineTooLong))
  }

  function TakeLine<E>(env: Env<E>, p: Parser<E>, raw: string): Parser<E> {
    if p.Stopped? then p
    else if |raw| > MAX_BYTES then OverLong(env, p.data, p.seen)
    else
      var line := TrimCr(raw);
      if line == "" then Dispatch(env, p.data, p.seen)
      else if IsCommentLine(line) then p
      else if HasPrefix(line, "data:") then
        var value := DataValue(line);
        if TotalBytes(p.data) + |value| > MAX_BYTES then Stopped(p.seen, Failed(EventTooLarge))
        else Running(p.data + [value], p.seen)
      else if IsFieldLine(line) then p
      else
        var q := Dispatch(env, p.data, p.seen);
        if q.Stopped? then q else Dispatch(env, [TrimSpace(line)], q.seen)
  }

  function Feed<E>(env: Env<E>, p: Parser<E>, lines: seq<string>): Parser<E>
    decreases |lines|
  {
    if lines == [] then p else Feed(env, TakeLine(env, p, lines[0]), lines[1..])
  }

  /** The end of the body. `glued` says that a read error arrived in the same call as the last,
  unterminated line: then the pending data is not dispatched before the error is reported. */
  function Close<E>(env: Env<E>, p: Parser<E>, end: BodyEnd, glued: bool): (r: Parser<E>)
    ensures r.Stopped?
  {
    if p.Stopped? then p
    else match end {
      case Eof =>
        var q := Dispatch(env, p.data, p.seen);
        if q.Stopped? then q else Stopped(q.seen, EndOfStream)
      case Broken(reason) =>
        var q := if glued then p else Dispatch(env, p.data, p.seen);
        if q.Stopped? then q else Stopped(q.seen, Failed(BodyFailed(reason)))
    }
  }

  function Start<E>(): Parser<E> {
    Running([], [])
  }

  function ParseBody<E>(env: Env<E>, text: string, end: BodyEnd, glued: bool): (r: Parser<E>)
    ensures r.Stopped?
  {
    Close(env, Feed(env, Start(), SplitLines(text)), end, glued)
  }

  // ----------------------------------------------------- what the spec keeps

  lemma TotalBytesSnoc(data: seq<string>, value: string)
    ensures TotalBytes(data + [value]) == TotalBytes(data) + |value|
  {
    assert (data + [value])[..|data|] == data;
  }

  lemma {:induction false} FeedConcat<E>(env: Env<E>, p: Parser<E>, a: seq<string>, b: seq<string>)
    ensures Feed(env, p, a + b) == Feed(env, Feed(env, p, a), b)
    decreases |a|
  {
    if a == [] {
      assert a + b == b;
    } else {
      assert (a + b)[1..] == a[1..] + b;
      FeedConcat(env, TakeLine(env, p, a[0]), a[1..], b);
    }
  }

  lemma {:induction false} FeedStopped<E>(env: Env<E>, p: Parser<E>, lines: seq<string>)
    requires p.Stopped?
    ensures Feed(env, p, lines) == p
    decreases |lines|
  {
    if lines != [] {
      FeedStopped(env, p, lines[1..]);
    }
  }

  lemma FirstLineOf(l: string, rest: string)
    requires '\n' !in l
    ensures FirstLine(l + "\n" + rest) == TrimCr(l)
    ensures AfterFirstLine(l + "\n" + rest) == rest
  {
    var text := l + "\n" + rest;
    LineEndUnique(text, |l|) by { assert text[..|l|] == l; }
    assert text[..|l|] == l;
    assert text[|l| + 1..] == rest;
  }

  lemma SplitLinesCons(l: string, rest: string, text: string)
    requires '\n' !in l && text == l + "\n" + rest
    ensures SplitLines(text) == [TrimCr(l)] + SplitLines(rest)
  {
    FirstLineOf(l, rest);
  }

  lemma TerminatedParts(a: string) returns (l: string, rest: string)
    requires Terminated(a) && a != ""
    ensures '\n' !in l && a == l + "\n" + rest && Terminated(rest)
  {
    assert a[..|a|][|a| - 1] == '\n';
    var k := LineEnd(a);
    l, rest := a[..k], a[k + 1..];
  }

  lemma Append3(l: string, rest: string, b: string)
    ensures l + "\n" + rest + b == l + "\n" + (rest + b)
  {
  }

  lemma {:induction false} SplitLinesConcat(a: string, b: string)
    requires Terminated(a)
    ensures SplitLines(a + b) == SplitLines(a) + SplitLines(b)
    decreases |a|
  {
    if a == "" {
      assert a + b == b;
    } else {
      var l, rest := TerminatedParts(a);
      SplitLinesConcat(rest, b);
      Append3(l, rest, b);
      SplitLinesCons(l, rest, a);
      SplitLinesCons(l, rest + b, a + b);
      Regroup(TrimCr(l), SplitLines(rest), SplitLines(b));
    }
  }

  lemma Regroup(l: string, x: seq<string>, y: seq<string>)
    ensures [l] + (x + y) == ([l] + x) + y
  {
  }

  // ------------------------------------------- the callback only cuts it short

  /** Delivering a list of events until the callback rejects one. */
  function Deliver<E>(env: Env<E>, seen: seq<E>, events: seq<E>, stop: Stop): Parser<E>
    decreases |events|
  {
    if events == [] then Stopped(seen, stop)
    else
      var now := seen + [events[0]];
      match env.onEvent(now)
      case Some(reason) => Stopped(now, Failed(Rejected(reason)))
      case None => Deliver(env, now, events[1..], stop)
  }

  function Accepting<E>(env: Env<E>): Env<E> {
    env.(onEvent := (_ => None))
  }

  /** `p`, run under the caller's callback, is where `q`, run under a callback that accepts
  everything, would be if its events from number `from` on were delivered one by one. */
  ghost predicate CutOf<E(!new)>(env: Env<E>, p: Parser<E>, q: Parser<E>) {
    if p.Running? then p == q
    else
      && (p.stop.Failed? && p.stop.error.Rejected? ==>
        p.seen != [] && p.seen <= q.seen && env.onEvent(p.seen) == Some(p.stop.error.reason))
      && (!(p.stop.Failed? && p.stop.error.Rejected?) ==> p == q)
  }

  ghost predicate AllAccepted<E(!new)>(env: Env<E>, seen: seq<E>) {
    forall k :: 0 < k <= |seen| ==> env.onEvent(seen[..k]) == None
  }

  ghost predicate AcceptedSoFar<E(!new)>(env: Env<E>, p: Parser<E>) {
    if p.Stopped? && p.stop.Failed? && p.stop.error.Rejected?
    then p.seen != [] && AllAccepted(env, p.seen[..|p.seen| - 1])
    else AllAccepted(env, p.seen)
  }

  lemma DispatchCut<E(!new)>(env: Env<E>, data: seq<string>, seen: seq<E>)
    requires AllAccepted(env, seen)
    ensures CutOf(env, Dispatch(env, data, seen), Dispatch(Accepting(env), data, seen))
    ensures AcceptedSoFar(env, Dispatch(env, data, seen))
  {
    var p := Dispatch(env, data, seen);
    if |p.seen| > |seen| {
      assert p.seen[..|seen|] == seen;
      forall k | 0 < k <= |seen| ensures env.onEvent(p.seen[..k]) == None {
        assert p.seen[..k] == seen[..k];
      }
      assert p.seen[..|p.seen|] == p.seen;
    }
  }

  lemma SeenGrows<E>(env: Env<E>, p: Parser<E>, raw: string)
    ensures p.seen <= TakeLine(env, p, raw).seen
  {
  }

  lemma TakeLineCut<E(!new)>(env: Env<E>, p: Parser<E>, q: Parser<E>, raw: string)
    requires CutOf(env, p, q) && AcceptedSoFar(env, p)
    ensures CutOf(env, TakeLine(env, p, raw), TakeLine(Accepting(env), q, raw))
    ensures AcceptedSoFar(env, TakeLine(env, p, raw))
  {
    hide Dispatch, TrimSpace, TrimCr, IsFieldLine, IsCommentLine, DataValue, AllAccepted, TotalBytes;
    SeenGrows(Accepting(env), q, raw);
    if p.Running? {
      DispatchCut(env, p.data, p.seen);
      var r := Dispatch(env, p.data, p.seen);
      if r.Running? {
        DispatchCut(env, [TrimSpace(TrimCr(raw))], r.seen);
      }
    }
  }

  lemma {:induction false} FeedCut<E(!new)>(env: Env<E>, p: Parser<E>, q: Parser<E>, lines: seq<string>)
    requires CutOf(env, p, q) && AcceptedSoFar(env, p)
    ensures CutOf(env, Feed(env, p, lines), Feed(Accepting(env), q, lines))
    ensures AcceptedSoFar(env, Feed(env, p, lines))
    decreases |lines|
  {
    if lines != [] {
      TakeLineCut(env, p, q, lines[0]);
      FeedCut(env, TakeLine(env, p, lines[0]), TakeLine(Accepting(env), q, lines[0]), lines[1..]);
    }
  }

  lemma {:induction false} DeliverCut<E(!new)>(env: Env<E>, seen: seq<E>, p: Parser<E>, q: Parser<E>)
    requires p.Stopped? && q.Stopped? && CutOf(env, p, q) && AcceptedSoFar(env, p)
    requires !(q.stop.Failed? && q.stop.error.Rejected?)
    requires seen <= p.seen
    requires |seen| < |p.seen| || p == q
    ensures Deliver(env, seen, q.seen[|seen|..], q.stop) == p
    decreases |q.seen| - |seen|
  {
    var rest := q.seen[|seen|..];
    if |seen| == |p.seen| {
      assert rest == [] && seen == p.seen;
    } else {
      var now := seen + [rest[0]];
      assert now == p.seen[..|seen| + 1];
      assert rest[1..] == q.seen[|now|..];
      if |now| == |p.seen| && p.stop.Failed? && p.stop.error.Rejected? {
        assert now == p.seen;
      } else {
        var accepted := if p.stop.Failed? && p.stop.error.Rejected? then p.seen[..|p.seen| - 1] else p.seen;
        assert now == accepted[..|now|];
        DeliverCut(env, now, p, q);
      }
    }
  }

  /** A callback never changes which events there are: the parse under any callback is the
  callback-free parse of the same bytes, delivered event by event until one is rejected. */
  lemma CallbackOnlyCutsShort<E(!new)>(env: Env<E>, text: string, end: BodyEnd, glued: bool)
    ensures
      var free := ParseBody(Accepting(env), text, end, glued);
      ParseBody(env, text, end, glued) == Deliver(env, [], free.seen, free.stop)
  {
    var lines := SplitLines(text);
    FeedCut(env, Start(), Start(), lines);
    var p, q := Feed(env, Start(), lines), Feed(Accepting(env), Start(), lines);
    if p.Running? {
      DispatchCut(env, p.data, p.seen);
    }
    var a, b := ParseBody(env, text, end, glued), ParseBody(Accepting(env), text, end, glued);
    AcceptingNeverRejects(env, Start(), lines);
    assert CutOf(env, a, b) && AcceptedSoFar(env, a);
    assert b.seen[0..] == b.seen;
    DeliverCut(env, [], a, b);
  }

  lemma AcceptingDispatch<E>(env: Env<E>, data: seq<string>, seen: seq<E>)
    ensures
      var q := Dispatch(Accepting(env), data, seen);
      q.Stopped? ==> !(q.stop.Failed? && q.stop.error.Rejected?)
  {
  }

  lemma AcceptingStep<E>(env: Env<E>, p: Parser<E>, raw: string)
    requires p.Stopped? ==> !(p.stop.Failed? && p.stop.error.Rejected?)
    ensures
      var q := TakeLine(Accepting(env), p, raw);
      q.Stopped? ==> !(q.stop.Failed? && q.stop.error.Rejected?)
  {
    hide Dispatch, TrimSpace, TrimCr, IsFieldLine, IsCommentLine, DataValue, TotalBytes;
    if p.Running? {
      AcceptingDispatch(env, p.data, p.seen);
      AcceptingDispatch(env, [TrimSpace(TrimCr(raw))], Dispatch(Accepting(env), p.data, p.seen).seen);
    }
  }

  lemma {:induction false} AcceptingNeverRejects<E>(env: Env<E>, p: Parser<E>, lines: seq<string>)
    requires p.Stopped? ==> !(p.stop.Failed? && p.stop.error.Rejected?)
    ensures
      var q := Feed(Accepting(env), p, lines);
      q.Stopped? ==> !(q.stop.Failed? && q.stop.error.Rejected?)
    decreases |lines|
  {
    hide TakeLine;
    if lines != [] {
      AcceptingStep(env, p, lines[0]);
      AcceptingNeverRejects(env, TakeLine(Accepting(env), p, lines[0]), lines[1..]);
    }
  }
}
