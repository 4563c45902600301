/** What the event-stream parser promises: framing noise is ignored, line ends may be LF or
CRLF, and payloads written as "data: " lines come back unchanged. */
module SseProperties {
  import opened GoStrings
  import opened Sse

  // ---------------------------------------------------------- framing noise

  /** How a line begins that carries nothing for the parser. */
  const NOISE_PREFIXES: seq<string> := [":", "event:", "id:", "retry:"]

  // A comment or a non-data field.
  predicate NoiseLine(raw: string) {
    exists i :: 0 <= i < |NOISE_PREFIXES| && HasPrefix(raw, NOISE_PREFIXES[i])
  }

  lemma NoiseLineMeans(raw: string)
    ensures NoiseLine(raw) <==> IsCommentLine(raw) || IsFieldLine(raw)
    ensures NoiseLine(raw) <==> NoiseLine(TrimCr(raw))
  {
    hide TrimCr;
    PrefixOfTrimmed(raw, ":");
    PrefixOfTrimmed(raw, "event:");
    PrefixOfTrimmed(raw, "id:");
    PrefixOfTrimmed(raw, "retry:");
    FourPrefixes(raw);
    FourPrefixes(TrimCr(raw));
  }

  lemma FourPrefixes(raw: string)
    ensures NoiseLine(raw)
      <==> HasPrefix(raw, ":") || HasPrefix(raw, "event:") || HasPrefix(raw, "id:") || HasPrefix(raw, "retry:")
  {
    assert NOISE_PREFIXES[0] == ":" && NOISE_PREFIXES[1] == "event:";
    assert NOISE_PREFIXES[2] == "id:" && NOISE_PREFIXES[3] == "retry:";
  }

  lemma PrefixOfTrimmed(raw: string, prefix: string)
    requires '\r' !in prefix && prefix != ""
    ensures HasPrefix(raw, prefix) <==> HasPrefix(TrimCr(raw), prefix)
  {
    if HasPrefix(raw, prefix) && |raw| == |prefix| {
      assert raw == prefix;
    } else if TrimCr(raw) != raw && |prefix| < |raw| {
      assert TrimCr(raw)[..|prefix|] == raw[..|prefix|];
    }
  }

  /** A running parser passes over a noise line exactly when the line is within the bound; beyond
  it the parse stops. */
  lemma NoiseLineIsSkipped<E>(env: Env<E>, p: Parser<E>, raw: string)
    requires NoiseLine(raw) && p.Running?
    ensures TakeLine(env, p, raw) == p <==> |raw| <= MAX_BYTES
    ensures |raw| > MAX_BYTES ==> TakeLine(env, p, raw).Stopped?
  {
    NoiseLineMeans(raw);
    var line := TrimCr(raw);
    NoiseLineMeans(line);
    assert HasPrefix(line, "event:") ==> line[0] == 'e';
    assert HasPrefix(line, "id:") ==> line[0] == 'i';
    assert HasPrefix(line, "retry:") ==> line[0] == 'r';
    assert HasPrefix(line, "data:") ==> line[0] == 'd';
  }

  function Significant(lines: seq<string>): seq<string> {
    if lines == [] then []
    else if NoiseLine(lines[0]) && |lines[0]| <= MAX_BYTES then Significant(lines[1..])
    else [lines[0]] + Significant(lines[1..])
  }

  lemma {:induction false} FeedSignificant<E>(env: Env<E>, p: Parser<E>, lines: seq<string>)
    ensures Feed(env, p, lines) == Feed(env, p, Significant(lines))
    decreases |lines|
  {
    if lines != [] {
      if NoiseLine(lines[0]) && |lines[0]| <= MAX_BYTES {
        if p.Running? {
          NoiseLineIsSkipped(env, p, lines[0]);
        }
        FeedSignificant(env, p, lines[1..]);
      } else {
        FeedSignificant(env, TakeLine(env, p, lines[0]), lines[1..]);
        assert Significant(lines)[1..] == Significant(lines[1..]);
      }
    }
  }

  /** Two bodies whose lines differ only by noise are parsed alike. */
  lemma SameSignificantLinesSameParse<E>(env: Env<E>, a: string, b: string, end: BodyEnd, glued: bool)
    requires Significant(SplitLines(a)) == Significant(SplitLines(b))
    ensures ParseBody(env, a, end, glued) == ParseBody(env, b, end, glued)
  {
    FeedSignificant(env, Start(), SplitLines(a));
    FeedSignificant(env, Start(), SplitLines(b));
  }

  function NoiseText(noise: seq<string>): string {
    if noise == [] then "" else noise[0] + "\n" + NoiseText(noise[1..])
  }

  ghost predicate AllNoise(noise: seq<string>) {
    forall i :: 0 <= i < |noise| ==>
      '\n' !in noise[i] && NoiseLine(noise[i]) && |noise[i]| <= MAX_BYTES
  }

  lemma {:induction false} NoiseHasNoSignificantLine(noise: seq<string>)
    requires AllNoise(noise)
    ensures Terminated(NoiseText(noise)) && Significant(SplitLines(NoiseText(noise))) == []
    decreases |noise|
  {
    if noise != [] {
      var rest := noise[1..];
      assert AllNoise(rest) by {
        forall i | 0 <= i < |rest|
          ensures '\n' !in rest[i] && NoiseLine(rest[i]) && |rest[i]| <= MAX_BYTES
        {
          assert rest[i] == noise[i + 1];
        }
      }
      NoiseHasNoSignificantLine(rest);
      NoiseLineMeans(noise[0]);
      SplitLinesCons(noise[0], NoiseText(rest), NoiseText(noise));
      var tail := SplitLines(NoiseText(rest));
      assert ([TrimCr(noise[0])] + tail)[1..] == tail;
    }
  }

  lemma {:induction false} SignificantConcat(a: seq<string>, b: seq<string>)
    ensures Significant(a + b) == Significant(a) + Significant(b)
    decreases |a|
  {
    if a == [] {
      assert a + b == b;
    } else {
      assert (a + b)[1..] == a[1..] + b;
      SignificantConcat(a[1..], b);
      if !(NoiseLine(a[0]) && |a[0]| <= MAX_BYTES) {
        Regroup(a[0], Significant(a[1..]), Significant(b));
      }
    }
  }

  /** Complete comment, event:, id: and retry: lines may be inserted at any line boundary: the
  delivered events, the end kind and the success of the parse stay what they were. */
  lemma NoiseInsertion<E>(env: Env<E>, before: string, noise: seq<string>, after: string, end: BodyEnd, glued: bool)
    requires Terminated(before) && AllNoise(noise)
    ensures ParseBody(env, before + (NoiseText(noise) + after), end, glued)
      == ParseBody(env, before + after, end, glued)
  {
    hide NoiseText, Feed, Close, TrimCr;
    var middle := NoiseText(noise);
    NoiseHasNoSignificantLine(noise);
    SplitLinesConcat(before, after);
    SplitLinesConcat(before, middle + after);
    SplitLinesConcat(middle, after);
    SignificantConcat(SplitLines(before), SplitLines(after));
    SignificantConcat(SplitLines(before), SplitLines(middle + after));
    SignificantConcat(SplitLines(middle), SplitLines(after));
    assert Significant(SplitLines(middle + after)) == Significant(SplitLines(after));
    SameSignificantLinesSameParse(env, before + (middle + after), before + after, end, glued);
  }

  // -------------------------------------------------------------- line ends

  datatype TextLine = TextLine(content: string, crlf: bool)

  predicate PlainLine(content: string) {
    '\n' !in content && TrimCr(content) == content
  }

  /** The text of some complete lines, each closed by LF or by CRLF, and a last partial line. */
  function Written(lines: seq<TextLine>, last: string): string {
    if lines == [] then last
    else lines[0].content + (if lines[0].crlf then "\r\n" else "\n") + Written(lines[1..], last)
  }

  function Contents(lines: seq<TextLine>): seq<string> {
    if lines == [] then [] else [lines[0].content] + Contents(lines[1..])
  }

  lemma {:induction false} SplitLinesWritten(lines: seq<TextLine>, last: string)
    requires forall i :: 0 <= i < |lines| ==> PlainLine(lines[i].content)
    ensures SplitLines(Written(lines, last)) == Contents(lines) + SplitLines(last)
    decreases |lines|
  {
    if lines == [] {
      assert Contents(lines) + SplitLines(last) == SplitLines(last);
    } else {
      var l, rest := lines[0], Written(lines[1..], last);
      SplitLinesWritten(lines[1..], last);
      var raw := if l.crlf then l.content + "\r" else l.content;
      assert Written(lines, last) == raw + "\n" + rest;
      SplitLinesCons(raw, rest, Written(lines, last));
      assert TrimCr(l.content + "\r") == l.content;
      Regroup(l.content, Contents(lines[1..]), SplitLines(last));
    }
  }

  /** Which of the lines end in CRLF and which in LF makes no difference. */
  lemma LineEndsDoNotMatter<E>(env: Env<E>, a: seq<TextLine>, b: seq<TextLine>, last: string, end: BodyEnd, glued: bool)
    requires forall i :: 0 <= i < |a| ==> PlainLine(a[i].content)
    requires forall i :: 0 <= i < |b| ==> PlainLine(b[i].content)
    requires Contents(a) == Contents(b)
    ensures ParseBody(env, Written(a, last), end, glued) == ParseBody(env, Written(b, last), end, glued)
  {
    SplitLinesWritten(a, last);
    SplitLinesWritten(b, last);
  }

  /** Whether a read error comes glued to the last line, which the size of the reader's buffer
  decides, is visible exactly when the body breaks while an event is pending. */
  lemma GluingMattersExactlyWhen<E>(env: Env<E>, text: string, end: BodyEnd)
    ensures
      var p := Feed(env, Start(), SplitLines(text));
      ParseBody(env, text, end, true) == ParseBody(env, text, end, false)
      <==> end.Eof? || p.Stopped? || Blank(Join(p.data))
  {
    hide SplitLines, Feed;
    var p := Feed(env, Start(), SplitLines(text));
    assert Join([]) == "" && Blank("");
    if p.Running? && !Blank(Join(p.data)) {
      assert p.data != [];
    }
  }

  // -------------------------------------------------------------- over-long lines

  /** The event that dispatching the pending data would deliver, if it would deliver one. */
  function PendingEvent<E>(env: Env<E>, data: seq<string>): Option<E> {
    var payload := Join(data);
    if Blank(payload) || TrimSpace(payload) == "[DONE]" then None else env.decode(payload)
  }

  /** Nothing in the pending data stops a parse: it is blank, or an event that is accepted. */
  predicate Dispatchable<E>(env: Env<E>, data: seq<string>, seen: seq<E>) {
    || Blank(Join(data))
    || (PendingEvent(env, data).Some? && env.onEvent(seen + [PendingEvent(env, data).value]).None?)
  }

  lemma NothingIsBlank()
    ensures Join([]) == "" && TrimSpace("") == ""
  {
  }

  /** A line over the bound ends the parse, whatever the line says and whatever follows it. The
  pending data still counts: its event is delivered, and the parse fails for the length of the
  line exactly when nothing in that data stops it first; a pending end marker ends it well. */
  lemma OverLongLineEndsTheParse<E>(env: Env<E>, before: string, tail: string, end: BodyEnd, glued: bool)
    requires Terminated(before) && |FirstLine(tail)| > MAX_BYTES
    requires Feed(env, Start(), SplitLines(before)).Running?
    ensures
      var p := Feed(env, Start(), SplitLines(before));
      var q := ParseBody(env, before + tail, end, glued);
      var event := PendingEvent(env, p.data);
      && q.seen == p.seen + (if event.Some? then [event.value] else [])
      && (q.stop == Failed(LineTooLong) <==> Dispatchable(env, p.data, p.seen))
      && (q.stop == DoneMarker <==> TrimSpace(Join(p.data)) == "[DONE]")
  {
    var p := Feed(env, Start(), SplitLines(before));
    FeedTail(env, before, tail);
    hide Feed, SplitLines, FirstLine, TrimSpace, OverLong, PendingEvent, Dispatchable;
    OverLongMeaning(env, p.data, p.seen);
  }

  // What a line over the bound makes of the pending data.
  lemma OverLongMeaning<E>(env: Env<E>, data: seq<string>, seen: seq<E>)
    ensures
      var q := OverLong(env, data, seen);
      var event := PendingEvent(env, data);
      && q.seen == seen + (if event.Some? then [event.value] else [])
      && (q.stop == Failed(LineTooLong) <==> Dispatchable(env, data, seen))
      && (q.stop == DoneMarker <==> TrimSpace(Join(data)) == "[DONE]")
  {
    hide TrimSpace;
    NothingIsBlank();
  }

  /** A body that breaks ends the parse with the reason it broke for. The pending data still counts, as
  it does before an over-long line, unless the break came in one call with the last line. */
  lemma BrokenBodyEndsTheParse<E>(env: Env<E>, text: string, reason: string, glued: bool)
    requires Feed(env, Start(), SplitLines(text)).Running?
    ensures
      var p := Feed(env, Start(), SplitLines(text));
      var q := ParseBody(env, text, Broken(reason), glued);
      var event := if glued then None else PendingEvent(env, p.data);
      && q.seen == p.seen + (if event.Some? then [event.value] else [])
      && (q.stop == Failed(BodyFailed(reason)) <==> glued || Dispatchable(env, p.data, p.seen))
      && (q.stop == DoneMarker <==> !glued && TrimSpace(Join(p.data)) == "[DONE]")
  {
    var p := Feed(env, Start(), SplitLines(text));
    hide Feed, SplitLines, TrimSpace;
    NothingIsBlank();
  }

  lemma FeedTail<E>(env: Env<E>, before: string, tail: string)
    requires Terminated(before) && |FirstLine(tail)| > MAX_BYTES
    requires Feed(env, Start(), SplitLines(before)).Running?
    ensures
      var p := Feed(env, Start(), SplitLines(before));
      Feed(env, Start(), SplitLines(before + tail)) == OverLong(env, p.data, p.seen)
  {
    var p := Feed(env, Start(), SplitLines(before));
    SplitLinesConcat(before, tail);
    FeedConcat(env, Start(), SplitLines(before), SplitLines(tail));
    var rest := SplitLines(AfterFirstLine(tail));
    assert ([FirstLine(tail)] + rest)[1..] == rest;
    FeedStopped(env, TakeLine(env, p, FirstLine(tail)), rest);
  }

  // ------------------------------------------------------ text not yet cut into lines

  function FeedText<E>(env: Env<E>, p: Parser<E>, text: string): Parser<E> {
    Feed(env, p, SplitLines(text))
  }

  lemma FeedTextConcat<E>(env: Env<E>, p: Parser<E>, a: string, b: string)
    requires Terminated(a)
    ensures FeedText(env, p, a + b) == FeedText(env, FeedText(env, p, a), b)
  {
    SplitLinesConcat(a, b);
    FeedConcat(env, p, SplitLines(a), SplitLines(b));
  }

  lemma FeedTextCons<E>(env: Env<E>, p: Parser<E>, l: string, rest: string, text: string)
    requires '\n' !in l && text == l + "\n" + rest
    ensures FeedText(env, p, text) == FeedText(env, TakeLine(env, p, TrimCr(l)), rest)
  {
    SplitLinesCons(l, rest, text);
    var tail := SplitLines(rest);
    assert ([TrimCr(l)] + tail)[1..] == tail;
  }

  lemma FeedTextStopped<E>(env: Env<E>, p: Parser<E>, text: string)
    requires p.Stopped?
    ensures FeedText(env, p, text) == p
  {
    FeedStopped(env, p, SplitLines(text));
  }

  lemma FeedNothing<E>(env: Env<E>, p: Parser<E>)
    ensures FeedText(env, p, "") == p
  {
  }

  lemma FeedBlankLine<E>(env: Env<E>, p: Parser<E>)
    ensures FeedText(env, p, "\n") == TakeLine(env, p, "")
  {
    FeedTextCons(env, p, "", "", "\n");
    FeedNothing(env, TakeLine(env, p, ""));
  }

  lemma BlankLineDispatches<E>(env: Env<E>, p: Parser<E>)
    ensures TakeLine(env, p, "") == if p.Stopped? then p else Dispatch(env, p.data, p.seen)
  {
  }

  // ------------------------------------- where the parser departs from the standard

  /** The end of the body flushes what is pending, as a blank line would. */
  lemma EndOfBodyFlushes<E>(env: Env<E>, text: string, glued: bool)
    requires Terminated(text)
    ensures ParseBody(env, text + "\n", Eof, glued) == ParseBody(env, text, Eof, glued)
  {
    hide Dispatch;
    FeedTextConcat(env, Start(), text, "\n");
    var p := FeedText(env, Start(), text);
    FeedBlankLine(env, p);
    if p.Running? {
      DispatchTwice(env, p.data, p.seen);
      assert TakeLine(env, p, "") == Dispatch(env, p.data, p.seen);
    }
  }

  lemma DispatchTwice<E>(env: Env<E>, data: seq<string>, seen: seq<E>)
    ensures
      var q := Dispatch(env, data, seen);
      q.Running? ==> Dispatch(env, q.data, q.seen) == q
  {
  }

  // A line that is neither blank nor a comment nor a field of any kind.
  predicate BareLine(line: string) {
    && '\n' !in line && TrimCr(line) == line && line != "" && |line| <= MAX_BYTES
    && !NoiseLine(line) && !HasPrefix(line, "data:")
  }

  /** A bare line closes the pending event, as a blank line before it would. */
  lemma BareLineClosesThePendingEvent<E>(env: Env<E>, p: Parser<E>, line: string)
    requires BareLine(line)
    ensures FeedText(env, p, line + "\n") == FeedText(env, p, "\n" + (line + "\n"))
  {
    hide Dispatch, NoiseLine;
    FeedTextConcat(env, p, "\n", line + "\n");
    FeedBlankLine(env, p);
    FeedBareLine(env, p, line);
    FeedBareLine(env, TakeLine(env, p, ""), line);
    if p.Running? {
      DispatchTwice(env, p.data, p.seen);
    }
  }

  lemma FeedBareLine<E>(env: Env<E>, p: Parser<E>, line: string)
    requires BareLine(line)
    ensures FeedText(env, p, line + "\n") ==
      if p.Stopped? then p
      else
        var q := Dispatch(env, p.data, p.seen);
        if q.Stopped? then q else Dispatch(env, [TrimSpace(line)], q.seen)
  {
    hide Dispatch, TrimSpace;
    NoiseLineMeans(line);
    assert line + "\n" + "" == line + "\n";
    FeedTextCons(env, p, line, "", line + "\n");
    FeedNothing(env, TakeLine(env, p, line));
  }
}
