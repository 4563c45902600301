/** Payloads written as data lines come back unchanged through the event-stream parser: exactly which
ones, and what arrives of the others. */
module SseRoundTrip {
  import opened GoStrings
  import opened Sse
  import opened SseProperties

  // ------------------------------------------------------------------ the encoder

  /** A payload and how it is written: line number i of it with a space after the colon, unless
  `spaces` says otherwise. */
  datatype Payload = Payload(text: string, spaces: seq<bool>)

  datatype DataLine = DataLine(text: string, spaced: bool)

  function LinesOf(payload: Payload): (lines: seq<DataLine>)
    ensures |lines| == |SplitLf(payload.text)|
    ensures forall i :: 0 <= i < |lines| ==>
      lines[i] == DataLine(SplitLf(payload.text)[i], i < |payload.spaces| ==> payload.spaces[i])
    ensures forall i :: 0 <= i < |lines| ==> '\n' !in lines[i].text
  {
    var texts := SplitLf(payload.text);
    seq(|texts|, i requires 0 <= i < |texts| => DataLine(texts[i], i < |payload.spaces| ==> payload.spaces[i]))
  }

  function Field(l: DataLine): string {
    (if l.spaced then "data: " else "data:") + l.text
  }

  function DataLines(lines: seq<DataLine>): string {
    if lines == [] then "" else Field(lines[0]) + "\n" + DataLines(lines[1..])
  }

  /** One payload as an event: a data line for each of its lines, then a blank line. */
  function EncodePayload(payload: Payload): string {
    DataLines(LinesOf(payload)) + "\n"
  }

  function Encode(payloads: seq<Payload>): string {
    if payloads == [] then "" else EncodePayload(payloads[0]) + Encode(payloads[1..])
  }

  function Texts(payloads: seq<Payload>): (r: seq<string>)
    ensures |r| == |payloads| && forall i :: 0 <= i < |r| ==> r[i] == payloads[i].text
  {
    if payloads == [] then [] else [payloads[0].text] + Texts(payloads[1..])
  }

  const DONE_FRAME: string := "data: [DONE]\n\n"

  const DONE_LINE: DataLine := DataLine("[DONE]", true)

  // ------------------------------------------------------------------ what arrives

  /** What is received of a line. Of the carriage returns at its end bufio and the parser each remove
  one; and a line that is written without a space loses the one it begins with itself. */
  function Received(l: DataLine): string {
    var bare := TrimCr(TrimCr(l.text));
    if !l.spaced && HasPrefix(bare, " ") then bare[1..] else bare
  }

  function ReceivedLines(lines: seq<DataLine>): (r: seq<string>)
    ensures |r| == |lines|
    ensures forall i :: 0 <= i < |r| ==> r[i] == Received(lines[i])
  {
    if lines == [] then [] else [Received(lines[0])] + ReceivedLines(lines[1..])
  }

  /** What arrives of a payload. */
  function Arriving(payload: Payload): string {
    Join(ReceivedLines(LinesOf(payload)))
  }

  // A line that is received as it was.
  predicate KeptLine(l: DataLine) {
    TrimCr(l.text) == l.text && (l.spaced || !HasPrefix(l.text, " "))
  }

  /** No line ends in a carriage return, and none that is written without a space begins with one. */
  predicate Kept(payload: Payload) {
    forall i :: 0 <= i < |LinesOf(payload)| ==> KeptLine(LinesOf(payload)[i])
  }

  // One more data line is within both bounds, that of the line and that of the event.
  predicate LineFits(data: seq<string>, l: DataLine) {
    |TrimCr(Field(l))| <= MAX_BYTES && TotalBytes(data) + |Received(l)| <= MAX_BYTES
  }

  /** How many of the lines are buffered before the first that does not fit. */
  function FittingLines(data: seq<string>, lines: seq<DataLine>): (n: nat)
    ensures n <= |lines|
    decreases |lines|
  {
    if lines == [] || !LineFits(data, lines[0]) then 0 else 1 + FittingLines(data + [Received(lines[0])], lines[1..])
  }

  /** The size bound of the parser, for one payload. */
  predicate Fits(payload: Payload) {
    FittingLines([], LinesOf(payload)) == |LinesOf(payload)|
  }

  // Where a running parser stops at a data line that does not fit.
  function TooBig<E>(env: Env<E>, data: seq<string>, seen: seq<E>, l: DataLine): (p: Parser<E>)
    ensures p.Stopped?
  {
    if |TrimCr(Field(l))| > MAX_BYTES then OverLong(env, data, seen) else Stopped(seen, Failed(EventTooLarge))
  }

  /** A payload the parser does not take for an empty event or for the end marker. */
  predicate Ordinary(payload: Payload) {
    !Blank(Arriving(payload)) && TrimSpace(Arriving(payload)) != "[DONE]"
  }

  lemma TrimCrAfter(prefix: string, l: string)
    requires prefix != "" && TrimCr(prefix) == prefix
    ensures TrimCr(prefix + l) == prefix + TrimCr(l)
  {
    var s := prefix + l;
    if l == "" {
      assert s == prefix;
    } else {
      assert s[|s| - 1] == l[|l| - 1];
      assert s[..|s| - 1] == prefix + l[..|l| - 1];
    }
  }

  // The line as the parser sees it, and the value it takes from it.
  lemma FieldValue(l: DataLine)
    ensures
      var line := TrimCr(TrimCr(Field(l)));
      HasPrefix(line, "data:") && DataValue(line) == Received(l)
  {
    var name := if l.spaced then "data: " else "data:";
    var bare := TrimCr(TrimCr(l.text));
    TrimCrAfter(name, l.text);
    TrimCrAfter(name, TrimCr(l.text));
    var line := name + bare;
    assert line[..5] == "data:";
    if l.spaced {
      assert line[5..] == " " + bare && line[5..][..1] == " " && line[5..][1..] == bare;
    } else {
      assert line[5..] == bare;
    }
  }

  // One data line is buffered, or stops the parse because of its size.
  lemma TakeDataLine<E>(env: Env<E>, data: seq<string>, seen: seq<E>, l: DataLine)
    ensures
      var q := TakeLine(env, Running(data, seen), TrimCr(Field(l)));
      q == if LineFits(data, l) then Running(data + [Received(l)], seen) else TooBig(env, data, seen, l)
  {
    hide TrimCr, DataValue, Received, OverLong;
    FieldValue(l);
    var line := TrimCr(TrimCr(Field(l)));
    assert line[..5][0] == 'd';
    assert !IsCommentLine(line);
  }

  lemma {:induction false} DataLinesTerminated(lines: seq<DataLine>)
    ensures Terminated(DataLines(lines))
    decreases |lines|
  {
    if lines != [] {
      DataLinesTerminated(lines[1..]);
    }
  }

  // The first of several data lines, and then the others.
  lemma FeedFirstDataLine<E>(env: Env<E>, data: seq<string>, seen: seq<E>, lines: seq<DataLine>)
    requires lines != [] && '\n' !in lines[0].text
    ensures
      var q := FeedText(env, Running(data, seen), DataLines(lines));
      q == if LineFits(data, lines[0])
        then FeedText(env, Running(data + [Received(lines[0])], seen), DataLines(lines[1..]))
        else TooBig(env, data, seen, lines[0])
  {
    var p, l, rest := Running(data, seen), lines[0], DataLines(lines[1..]);
    FeedTextCons(env, p, Field(l), rest, DataLines(lines));
    TakeDataLine(env, data, seen, l);
    var q := TakeLine(env, p, TrimCr(Field(l)));
    if q.Stopped? {
      FeedTextStopped(env, q, rest);
    }
  }

  lemma {:induction false} FeedDataLines<E>(env: Env<E>, data: seq<string>, seen: seq<E>, lines: seq<DataLine>)
    requires forall i :: 0 <= i < |lines| ==> '\n' !in lines[i].text
    ensures
      var q := FeedText(env, Running(data, seen), DataLines(lines));
      var n := FittingLines(data, lines);
      var buffered := data + ReceivedLines(lines)[..n];
      q == if n == |lines| then Running(buffered, seen) else TooBig(env, buffered, seen, lines[n])
    decreases |lines|
  {
    hide FeedText, LineFits, TooBig, Received;
    if lines == [] {
      FeedNothing(env, Running(data, seen));
      assert data + ReceivedLines(lines) == data;
    } else {
      FeedFirstDataLine(env, data, seen, lines);
      if LineFits(data, lines[0]) {
        FeedDataLines(env, data + [Received(lines[0])], seen, lines[1..]);
        var fitting := FittingLines(data + [Received(lines[0])], lines[1..]);
        PrefixShift(data, Received(lines[0]), ReceivedLines(lines[1..]), fitting);
      } else {
        assert data + ReceivedLines(lines)[..0] == data;
      }
    }
  }

  lemma PrefixShift<T>(seen: seq<T>, x: T, rest: seq<T>, n: nat)
    requires n <= |rest|
    ensures seen + [x] + rest[..n] == seen + ([x] + rest)[..n + 1]
  {
  }

  /** One payload. If it fits it is dispatched whole. If not, the parse stops at the first line
  that does not fit; when that line itself is over the bound, what came before it is dispatched
  all the same, as an event cut short. */
  lemma FeedPayload<E>(env: Env<E>, seen: seq<E>, payload: Payload)
    ensures
      var q := FeedText(env, Running([], seen), EncodePayload(payload));
      var lines := LinesOf(payload);
      var n := FittingLines([], lines);
      var arrived := ReceivedLines(lines)[..n];
      if Fits(payload) then q == Dispatch(env, ReceivedLines(lines), seen)
      else if |TrimCr(Field(lines[n]))| > MAX_BYTES then q == OverLong(env, arrived, seen)
      else q == Stopped(seen, Failed(EventTooLarge))
  {
    hide FeedText, TrimCr, SplitLf, FittingLines, ReceivedLines, DataLines, Dispatch, TakeLine, OverLong;
    var lines := LinesOf(payload);
    var p := FeedText(env, Running([], seen), DataLines(lines));
    FeedDataLines(env, [], seen, lines);
    DataLinesTerminated(lines);
    FeedTextConcat(env, Running([], seen), DataLines(lines), "\n");
    FeedBlankLine(env, p);
    BlankLineDispatches(env, p);
    var bare := ReceivedLines(lines);
    assert forall n :: 0 <= n <= |bare| ==> [] + bare[..n] == bare[..n];
    assert bare[..|bare|] == bare;
  }

  lemma {:induction false} EncodeTerminated(payloads: seq<Payload>)
    ensures Terminated(Encode(payloads))
    decreases |payloads|
  {
    if payloads != [] {
      EncodeTerminated(payloads[1..]);
    }
  }

  // The first of several payloads, and then the others.
  lemma FeedFirstPayload<E>(env: Env<E>, seen: seq<E>, payloads: seq<Payload>)
    requires payloads != []
    ensures
      var q := FeedText(env, Running([], seen), EncodePayload(payloads[0]));
      FeedText(env, Running([], seen), Encode(payloads)) == FeedText(env, q, Encode(payloads[1..]))
  {
    EncodeTerminated([payloads[0]]);
    assert Encode([payloads[0]]) == EncodePayload(payloads[0]) + "";
    assert Encode([payloads[0]]) == EncodePayload(payloads[0]);
    FeedTextConcat(env, Running([], seen), EncodePayload(payloads[0]), Encode(payloads[1..]));
  }

  /** Delivering a list of payloads, as the documentation of the stream format has it. */
  function DeliverPayloads<E>(env: Env<E>, seen: seq<E>, payloads: seq<string>): (p: Parser<E>)
    ensures p.Running? ==> p.data == []
    decreases |payloads|
  {
    if payloads == [] then Running([], seen)
    else match env.decode(payloads[0]) {
      case None => Stopped(seen, Failed(BadPayload(payloads[0])))
      case Some(event) =>
        var now := seen + [event];
        match env.onEvent(now)
        case Some(reason) => Stopped(now, Failed(Rejected(reason)))
        case None => DeliverPayloads(env, now, payloads[1..])
    }
  }

  function ArrivingAll(payloads: seq<Payload>): (r: seq<string>)
    ensures |r| == |payloads| && forall i :: 0 <= i < |r| ==> r[i] == Arriving(payloads[i])
  {
    if payloads == [] then [] else [Arriving(payloads[0])] + ArrivingAll(payloads[1..])
  }

  // An ordinary payload is delivered, or stops the parse for what it is.
  lemma DispatchOrdinary<E>(env: Env<E>, payload: Payload, seen: seq<E>)
    requires Ordinary(payload)
    ensures Dispatch(env, ReceivedLines(LinesOf(payload)), seen) == DeliverPayloads(env, seen, [Arriving(payload)])
  {
    hide TrimSpace, Received;
    var text := Arriving(payload);
    assert [text][1..] == [];
  }

  lemma DeliverFirst<E>(env: Env<E>, seen: seq<E>, text: string, rest: seq<string>)
    ensures
      var q := DeliverPayloads(env, seen, [text]);
      DeliverPayloads(env, seen, [text] + rest) == if q.Stopped? then q else DeliverPayloads(env, q.seen, rest)
  {
    assert ([text] + rest)[1..] == rest && [text][1..] == [];
  }

  lemma {:induction false} FeedPayloads<E>(env: Env<E>, seen: seq<E>, payloads: seq<Payload>)
    requires forall i :: 0 <= i < |payloads| ==> Fits(payloads[i]) && Ordinary(payloads[i])
    ensures FeedText(env, Running([], seen), Encode(payloads)) == DeliverPayloads(env, seen, ArrivingAll(payloads))
    decreases |payloads|
  {
    hide Fits, Ordinary, Arriving, FeedText, EncodePayload, Dispatch;
    if payloads == [] {
      FeedNothing(env, Running([], seen));
    } else {
      hide Encode, DeliverPayloads;
      var p, rest := payloads[0], payloads[1..];
      FeedFirstPayload(env, seen, payloads);
      FeedPayload(env, seen, p);
      DispatchOrdinary(env, p, seen);
      DeliverFirst(env, seen, Arriving(p), ArrivingAll(rest));
      var q := DeliverPayloads(env, seen, [Arriving(p)]);
      if q.Stopped? {
        FeedTextStopped(env, q, Encode(rest));
      } else {
        assert q == Running([], q.seen);
        FeedPayloads(env, q.seen, rest);
      }
    }
  }

  lemma ReceivedLine(l: DataLine)
    ensures |Received(l)| <= |l.text|
    ensures |Received(l)| == |l.text| <==> KeptLine(l)
    ensures KeptLine(l) ==> Received(l) == l.text
  {
  }

  function LineTexts(lines: seq<DataLine>): (r: seq<string>)
    ensures |r| == |lines| && forall i :: 0 <= i < |r| ==> r[i] == lines[i].text
  {
    if lines == [] then [] else [lines[0].text] + LineTexts(lines[1..])
  }

  lemma {:induction false} ReceivedIsShorter(lines: seq<DataLine>)
    requires |lines| >= 1
    ensures |Join(ReceivedLines(lines))| <= |Join(LineTexts(lines))|
    ensures |Join(ReceivedLines(lines))| == |Join(LineTexts(lines))|
      ==> forall i :: 0 <= i < |lines| ==> KeptLine(lines[i])
    decreases |lines|
  {
    hide Received, KeptLine;
    ReceivedLine(lines[0]);
    if |lines| > 1 {
      ReceivedIsShorter(lines[1..]);
      assert ReceivedLines(lines)[1..] == ReceivedLines(lines[1..]) && LineTexts(lines)[1..] == LineTexts(lines[1..]);
      assert forall i :: 0 < i < |lines| ==> lines[i] == lines[1..][i - 1];
    }
  }

  lemma ReceivedOfKept(lines: seq<DataLine>)
    requires forall i :: 0 <= i < |lines| ==> KeptLine(lines[i])
    ensures ReceivedLines(lines) == LineTexts(lines)
  {
    forall i | 0 <= i < |lines| ensures ReceivedLines(lines)[i] == LineTexts(lines)[i] {
      ReceivedLine(lines[i]);
    }
  }

  /** A payload arrives unchanged exactly when none of its lines ends in a carriage return and none
  that is written without a space begins with one. */
  lemma ArrivesUnchanged(payload: Payload)
    ensures Arriving(payload) == payload.text <==> Kept(payload)
  {
    hide KeptLine, Received;
    var lines := LinesOf(payload);
    JoinSplit(payload.text);
    assert LineTexts(lines) == SplitLf(payload.text);
    if Kept(payload) {
      ReceivedOfKept(lines);
    } else if Arriving(payload) == payload.text {
      ReceivedIsShorter(lines);
    }
  }

  // ----------------------------------------------------------- the bound, in bytes

  lemma {:induction false} JoinLength(data: seq<string>)
    requires data != []
    ensures |Join(data)| == TotalBytes(data) + |data| - 1
    decreases |data|
  {
    if |data| == 1 {
      assert data[..0] == [] && data == [data[0]];
    } else {
      JoinLength(data[1..]);
      TotalBytesCons(data);
    }
  }

  lemma {:induction false} TotalBytesCons(data: seq<string>)
    requires data != []
    ensures TotalBytes(data) == |data[0]| + TotalBytes(data[1..])
    decreases |data|
  {
    var n := |data| - 1;
    if n > 0 {
      TotalBytesCons(data[..n]);
      assert data[..n][1..] == data[1..][..n - 1];
    }
  }

  lemma {:induction false} FittingLinesMeaning(data: seq<string>, lines: seq<DataLine>)
    requires TotalBytes(data) <= MAX_BYTES
    ensures FittingLines(data, lines) == |lines| <==> (
        && (forall i :: 0 <= i < |lines| ==> |TrimCr(Field(lines[i]))| <= MAX_BYTES)
        && TotalBytes(data) + TotalBytes(ReceivedLines(lines)) <= MAX_BYTES)
    decreases |lines|
  {
    hide Field, Received, TrimCr;
    if lines != [] {
      var l, rest := lines[0], lines[1..];
      TotalBytesCons(ReceivedLines(lines));
      assert ReceivedLines(lines)[1..] == ReceivedLines(rest);
      TotalBytesSnoc(data, Received(l));
      if LineFits(data, l) {
        FittingLinesMeaning(data + [Received(l)], rest);
      }
      assert (forall i :: 0 <= i < |lines| ==> |TrimCr(Field(lines[i]))| <= MAX_BYTES)
        <==>
          |TrimCr(Field(l))| <= MAX_BYTES && forall i :: 0 <= i < |rest| ==> |TrimCr(Field(rest[i]))| <= MAX_BYTES
      by {
        assert forall i :: 0 < i < |lines| ==> lines[i] == rest[i - 1];
        assert forall i :: 0 <= i < |rest| ==> rest[i] == lines[i + 1];
      }
    }
  }

  /** What the size bound means: no line as it is written, and not what arrives of all of them
  together without its line feeds, may be longer than 32 MiB. */
  lemma FitsMeaning(payload: Payload)
    ensures
      var lines := LinesOf(payload);
      Fits(payload) <==>
        && (forall i :: 0 <= i < |lines| ==> |TrimCr(Field(lines[i]))| <= 33_554_432)
        && |Arriving(payload)| - (|lines| - 1) <= 33_554_432
  {
    hide Field, Received, TrimCr;
    FittingLinesMeaning([], LinesOf(payload));
    JoinLength(ReceivedLines(LinesOf(payload)));
  }

  // ----------------------------------------------------------------- the round trip

  /** The round trip. Payloads written as data lines and blank lines are delivered as they were, in
  order, whatever the decoder and the callback do with them; then the parse ends at the end of the
  body, or at the [DONE] frame if there is one. */
  lemma RoundTrip<E>(env: Env<E>, payloads: seq<Payload>, marked: bool, glued: bool)
    requires forall i :: 0 <= i < |payloads| ==> Fits(payloads[i]) && Ordinary(payloads[i]) && Kept(payloads[i])
    ensures
      var text := Encode(payloads) + (if marked then DONE_FRAME else "");
      var q := DeliverPayloads(env, [], Texts(payloads));
      ParseBody(env, text, Eof, glued)
        == if q.Stopped? then q else Stopped(q.seen, if marked then DoneMarker else EndOfStream)
  {
    FeedPayloads(env, [], payloads);
    forall i | 0 <= i < |payloads| ensures Arriving(payloads[i]) == payloads[i].text {
      ArrivesUnchanged(payloads[i]);
    }
    assert ArrivingAll(payloads) == Texts(payloads);
    MarkedEnd(env, payloads, marked, glued);
  }

  lemma DoneFrameEndsTheParse<E>(env: Env<E>, seen: seq<E>)
    ensures FeedText(env, Running([], seen), DONE_FRAME) == Stopped(seen, DoneMarker)
  {
    hide FeedText, TrimSpace, DataLines, FittingLines, ReceivedLines;
    var lines := [DONE_LINE];
    FeedDataLines(env, [], seen, lines);
    DataLinesTerminated(lines);
    FeedTextConcat(env, Running([], seen), DataLines(lines), "\n");
    DoneLine();
    FeedBlankLine(env, Running(["[DONE]"], seen));
    BlankLineDispatches(env, Running(["[DONE]"], seen));
  }

  lemma DoneLine()
    ensures DataLines([DONE_LINE]) == "data: [DONE]\n" && DataLines([DONE_LINE]) + "\n" == DONE_FRAME
    ensures FittingLines([], [DONE_LINE]) == 1 && [] + ReceivedLines([DONE_LINE])[..1] == ["[DONE]"]
    ensures Join(["[DONE]"]) == "[DONE]" && TrimSpace("[DONE]") == "[DONE]"
  {
    assert DataLines([]) == "" && Received(DONE_LINE) == "[DONE]";
  }

  /** A pending end marker outweighs an over-long line after it: the parse ends well. */
  lemma MarkerBeforeOverLongLine<E>(env: Env<E>, tail: string, end: BodyEnd, glued: bool)
    requires |FirstLine(tail)| > MAX_BYTES
    ensures ParseBody(env, "data: [DONE]\n" + tail, end, glued) == Stopped([], DoneMarker)
  {
    hide FirstLine, TrimSpace, SplitLines, Feed, ParseBody, DataLines, FittingLines, ReceivedLines;
    var lines := [DONE_LINE];
    FeedDataLines(env, [], [], lines);
    DataLinesTerminated(lines);
    DoneLine();
    OverLongLineEndsTheParse(env, DataLines(lines), tail, end, glued);
  }

  lemma MarkedEnd<E>(env: Env<E>, payloads: seq<Payload>, marked: bool, glued: bool)
    requires
      var q := FeedText(env, Start(), Encode(payloads));
      q.Running? ==> q.data == []
    ensures
      var text := Encode(payloads) + (if marked then DONE_FRAME else "");
      var q := FeedText(env, Start(), Encode(payloads));
      ParseBody(env, text, Eof, glued)
        == if q.Stopped? then q else Stopped(q.seen, if marked then DoneMarker else EndOfStream)
  {
    var q := FeedText(env, Start(), Encode(payloads));
    if marked {
      EncodeTerminated(payloads);
      FeedTextConcat(env, Start(), Encode(payloads), DONE_FRAME);
      if q.Stopped? {
        FeedTextStopped(env, q, DONE_FRAME);
      } else {
        DoneFrameEndsTheParse(env, q.seen);
      }
    } else {
      assert Encode(payloads) + "" == Encode(payloads);
    }
  }

  // The payloads themselves, taken as the events.
  function Verbatim(): Env<string> {
    Env(payload => Some(payload), _ => None)
  }

  function FittingPrefix(payloads: seq<Payload>): (n: nat)
    ensures n <= |payloads|
    ensures forall i :: 0 <= i < n ==> Fits(payloads[i])
    ensures n < |payloads| ==> !Fits(payloads[n])
  {
    hide Fits;
    if payloads == [] || !Fits(payloads[0]) then 0
    else
      var rest := FittingPrefix(payloads[1..]);
      assert forall i :: 0 < i < |payloads| ==> payloads[i] == payloads[1..][i - 1];
      1 + rest
  }

  /** What still arrives of a payload that does not fit: nothing, or its lines before an over-long
  one, unless they are blank or the end marker. */
  function CutShort(payload: Payload): (r: seq<string>)
    requires !Fits(payload)
    ensures |r| <= 1
  {
    var lines := LinesOf(payload);
    var n := FittingLines([], lines);
    var arrived := ReceivedLines(lines)[..n];
    if |TrimCr(Field(lines[n]))| <= MAX_BYTES then []
    else
      var event := PendingEvent(Verbatim(), arrived);
      if event.Some? then [event.value] else []
  }

  // A parse that ends at a payload that does not fit is no success, or has lost that payload.
  predicate EndedBySize(payload: Payload, stop: Stop)
    requires !Fits(payload)
  {
    || (stop.Failed? && (stop.error.LineTooLong? || stop.error.EventTooLarge?))
    || (stop == DoneMarker && CutShort(payload) == [])
  }

  lemma OverLongVerbatim(data: seq<string>, seen: seq<string>)
    ensures
      var q := OverLong(Verbatim(), data, seen);
      var event := PendingEvent(Verbatim(), data);
      && q.seen == seen + (if event.Some? then [event.value] else [])
      && (q.stop == Failed(LineTooLong) || (q.stop == DoneMarker && event.None?))
  {
    hide TrimSpace, OverLong;
    OverLongMeaning(Verbatim(), data, seen);
  }

  lemma FeedOversized(seen: seq<string>, payload: Payload)
    requires !Fits(payload)
    ensures
      var q := FeedText(Verbatim(), Running([], seen), EncodePayload(payload));
      q.Stopped? && q.seen == seen + CutShort(payload) && EndedBySize(payload, q.stop)
  {
    hide FeedText, EncodePayload, SplitLf, OverLong, PendingEvent, TrimCr, ReceivedLines;
    var lines := LinesOf(payload);
    FeedPayload(Verbatim(), seen, payload);
    OverLongVerbatim(ReceivedLines(lines)[..FittingLines([], lines)], seen);
  }

  // What one payload does to a parser that takes payloads verbatim.
  lemma FeedOneVerbatim(seen: seq<string>, payloads: seq<Payload>)
    requires payloads != [] && Ordinary(payloads[0])
    ensures
      var q := FeedText(Verbatim(), Running([], seen), Encode(payloads));
      if Fits(payloads[0])
      then q == FeedText(Verbatim(), Running([], seen + [Arriving(payloads[0])]), Encode(payloads[1..]))
      else q.Stopped? && q.seen == seen + CutShort(payloads[0]) && EndedBySize(payloads[0], q.stop)
  {
    hide FeedText, Encode, EncodePayload, CutShort, EndedBySize, Fits, TrimSpace;
    var env := Verbatim();
    FeedFirstPayload(env, seen, payloads);
    if Fits(payloads[0]) {
      FeedPayload(env, seen, payloads[0]);
    } else {
      FeedOversized(seen, payloads[0]);
      FeedTextStopped(env, FeedText(env, Running([], seen), EncodePayload(payloads[0])), Encode(payloads[1..]));
    }
  }

  // All that arrives of a list of payloads.
  function ArrivingPart(payloads: seq<Payload>): seq<string> {
    var n := FittingPrefix(payloads);
    ArrivingAll(payloads)[..n] + if n < |payloads| then CutShort(payloads[n]) else []
  }

  lemma ArrivingPartCons(seen: seq<string>, payloads: seq<Payload>)
    requires payloads != []
    ensures seen + ArrivingPart(payloads) ==
      if Fits(payloads[0])
      then seen + [Arriving(payloads[0])] + ArrivingPart(payloads[1..])
      else seen + CutShort(payloads[0])
  {
    hide Fits, Arriving, CutShort;
    var rest := payloads[1..];
    if Fits(payloads[0]) {
      var n := FittingPrefix(rest);
      var tail := if n < |rest| then CutShort(rest[n]) else [];
      PrefixShift(seen, Arriving(payloads[0]), ArrivingAll(rest), n);
      assert ArrivingPart(payloads) == ArrivingAll(payloads)[..n + 1] + tail;
      Associate(seen, ArrivingAll(payloads)[..n + 1], tail);
      Associate(seen + [Arriving(payloads[0])], ArrivingAll(rest)[..n], tail);
    } else {
      assert ArrivingPart(payloads) == ArrivingAll(payloads)[..0] + CutShort(payloads[0]);
    }
  }

  lemma NothingArrives(seen: seq<string>)
    ensures seen + ArrivingPart([]) == seen
    ensures FeedText(Verbatim(), Running([], seen), Encode([])) == Running([], seen)
  {
    FeedNothing(Verbatim(), Running([], seen));
  }

  lemma {:induction false} FeedVerbatim(seen: seq<string>, payloads: seq<Payload>)
    requires forall i :: 0 <= i < |payloads| ==> Ordinary(payloads[i])
    ensures
      var n := FittingPrefix(payloads);
      var q := FeedText(Verbatim(), Running([], seen), Encode(payloads));
      && q.seen == seen + ArrivingPart(payloads)
      && (if n == |payloads| then q.Running? && q.data == [] else q.Stopped? && EndedBySize(payloads[n], q.stop))
    decreases |payloads|
  {
    hide FeedText, Ordinary, Fits, Arriving, CutShort, EndedBySize, Encode, ArrivingPart;
    if payloads == [] {
      NothingArrives(seen);
    } else {
      FeedOneVerbatim(seen, payloads);
      ArrivingPartCons(seen, payloads);
      if Fits(payloads[0]) {
        FeedVerbatim(seen + [Arriving(payloads[0])], payloads[1..]);
      }
    }
  }

  /** What is parsed of the encoded payloads: all that arrives, up to the first oversized one and
  perhaps a first part of that. */
  lemma ParseVerbatim(payloads: seq<Payload>, marked: bool, glued: bool)
    requires forall i :: 0 <= i < |payloads| ==> Ordinary(payloads[i])
    ensures
      var n := FittingPrefix(payloads);
      var q := ParseBody(Verbatim(), Encode(payloads) + (if marked then DONE_FRAME else ""), Eof, glued);
      && q.seen == ArrivingPart(payloads)
      && if n == |payloads|
        then q.stop == (if marked then DoneMarker else EndOfStream)
        else EndedBySize(payloads[n], q.stop)
  {
    hide ParseBody, Encode, ArrivingPart, FittingPrefix, EndedBySize;
    FeedVerbatim([], payloads);
    MarkedEnd(Verbatim(), payloads, marked, glued);
    assert [] + ArrivingPart(payloads) == ArrivingPart(payloads);
  }

  lemma AllArriveUnchanged(payloads: seq<Payload>)
    ensures ArrivingAll(payloads) == Texts(payloads) <==> forall i :: 0 <= i < |payloads| ==> Kept(payloads[i])
  {
    hide Arriving, Kept;
    forall i | 0 <= i < |payloads|
      ensures ArrivingAll(payloads)[i] == Texts(payloads)[i] <==> Kept(payloads[i])
    {
      ArrivesUnchanged(payloads[i]);
    }
  }

  // A payload that fits but is blank or the end marker is no event.
  lemma FeedMarker(seen: seq<string>, payload: Payload)
    requires Fits(payload) && !Ordinary(payload)
    ensures
      var q := FeedText(Verbatim(), Running([], seen), EncodePayload(payload));
      q.seen == seen && (q.Running? ==> q.data == []) && (q.Stopped? ==> q.stop == DoneMarker)
  {
    hide FeedText, EncodePayload, Fits, TrimSpace, SplitLf, ReceivedLines;
    FeedPayload(Verbatim(), seen, payload);
  }

  // A parser that has not failed, and has at most as many events as it was given payloads.
  predicate NoSurplus(q: Parser<string>, most: nat) {
    && |q.seen| <= most && (q.Running? ==> q.data == []) && (q.Stopped? ==> q.stop != EndOfStream)
  }

  predicate Unfailed(q: Parser<string>) {
    q.Stopped? ==> q.stop == DoneMarker
  }

  predicate AllFit(payloads: seq<Payload>) {
    forall i :: 0 <= i < |payloads| ==> Fits(payloads[i]) && Ordinary(payloads[i])
  }

  lemma FeedFirstOfAny(seen: seq<string>, payloads: seq<Payload>)
    requires payloads != []
    ensures
      var q := FeedText(Verbatim(), Running([], seen), EncodePayload(payloads[0]));
      && NoSurplus(q, |seen| + 1)
      && (Unfailed(q) && |q.seen| == |seen| + 1 ==> Fits(payloads[0]) && Ordinary(payloads[0]))
  {
    hide FeedText, EncodePayload, Fits, Ordinary, CutShort, Dispatch, TrimSpace, SplitLf, ReceivedLines;
    var payload := payloads[0];
    if !Fits(payload) {
      FeedOversized(seen, payload);
    } else if Ordinary(payload) {
      FeedPayload(Verbatim(), seen, payload);
      DispatchStops(ReceivedLines(LinesOf(payload)), seen);
    } else {
      FeedMarker(seen, payload);
    }
  }

  lemma DispatchStops(data: seq<string>, seen: seq<string>)
    ensures NoSurplus(Dispatch(Verbatim(), data, seen), |seen| + 1)
  {
    hide TrimSpace, Join;
  }

  /** However the payloads are made, no more events come out than payloads went in; and if the parse
  has not failed and as many came out, all of them fitted and were ordinary. */
  lemma {:induction false} FeedAny(seen: seq<string>, payloads: seq<Payload>)
    ensures
      var q := FeedText(Verbatim(), Running([], seen), Encode(payloads));
      NoSurplus(q, |seen| + |payloads|) && (Unfailed(q) && |q.seen| == |seen| + |payloads| ==> AllFit(payloads))
    decreases |payloads|
  {
    hide FeedText, Encode, EncodePayload, Fits, Ordinary;
    if payloads == [] {
      NothingArrives(seen);
    } else {
      var first, rest := FeedText(Verbatim(), Running([], seen), EncodePayload(payloads[0])), payloads[1..];
      FeedFirstPayload(Verbatim(), seen, payloads);
      FeedFirstOfAny(seen, payloads);
      if first.Stopped? {
        FeedTextStopped(Verbatim(), first, Encode(rest));
      } else {
        FeedAny(first.seen, rest);
      }
    }
  }

  /** A payload survives the event stream: it fits the bound, no line of it ends in a carriage return
  and none that is written without a space begins with one, and it is neither blank nor the end
  marker. */
  predicate Survives(payload: Payload) {
    Fits(payload) && Kept(payload) && !Blank(payload.text) && TrimSpace(payload.text) != "[DONE]"
  }

  lemma SurvivesMeans(payload: Payload)
    ensures Survives(payload) <==> Fits(payload) && Kept(payload) && Ordinary(payload)
  {
    hide Fits, Kept, Arriving, TrimSpace;
    ArrivesUnchanged(payload);
  }

  /** Exactly when the round trip works. */
  lemma RoundTripExactly(payloads: seq<Payload>, marked: bool, glued: bool)
    ensures
      var text := Encode(payloads) + (if marked then DONE_FRAME else "");
      ParseBody(Verbatim(), text, Eof, glued) == Stopped(Texts(payloads), if marked then DoneMarker else EndOfStream)
      <==> forall i :: 0 <= i < |payloads| ==> Survives(payloads[i])
  {
    hide ParseBody, Encode, AllFit, AllKept, Survives;
    SurvivesAll(payloads);
    if AllFit(payloads) {
      FittingRoundTrip(payloads, marked, glued);
    } else {
      UnfitRoundTrip(payloads, marked, glued);
    }
  }

  predicate AllKept(payloads: seq<Payload>) {
    forall i :: 0 <= i < |payloads| ==> Kept(payloads[i])
  }

  lemma SurvivesAll(payloads: seq<Payload>)
    ensures (forall i :: 0 <= i < |payloads| ==> Survives(payloads[i])) <==> AllFit(payloads) && AllKept(payloads)
  {
    hide Fits, Kept, Ordinary, Survives;
    forall i | 0 <= i < |payloads|
      ensures Survives(payloads[i]) <==> Fits(payloads[i]) && Kept(payloads[i]) && Ordinary(payloads[i])
    {
      SurvivesMeans(payloads[i]);
    }
  }

  lemma FittingRoundTrip(payloads: seq<Payload>, marked: bool, glued: bool)
    requires AllFit(payloads)
    ensures
      var text := Encode(payloads) + (if marked then DONE_FRAME else "");
      ParseBody(Verbatim(), text, Eof, glued) == Stopped(Texts(payloads), if marked then DoneMarker else EndOfStream)
      <==> AllKept(payloads)
  {
    hide ParseBody, Encode, Fits, Kept, Ordinary, Arriving;
    AllFitMeans(payloads);
    ParseVerbatim(payloads, marked, glued);
    AllArriveUnchanged(payloads);
    assert ArrivingPart(payloads) == ArrivingAll(payloads);
  }

  lemma UnfitRoundTrip(payloads: seq<Payload>, marked: bool, glued: bool)
    requires !AllFit(payloads)
    ensures
      var text := Encode(payloads) + (if marked then DONE_FRAME else "");
      ParseBody(Verbatim(), text, Eof, glued) != Stopped(Texts(payloads), if marked then DoneMarker else EndOfStream)
  {
    hide ParseBody, Encode, FeedText, AllFit;
    FeedAny([], payloads);
    MarkedEnd(Verbatim(), payloads, marked, glued);
  }

  lemma AllFitMeans(payloads: seq<Payload>)
    requires AllFit(payloads)
    ensures FittingPrefix(payloads) == |payloads|
    ensures forall i :: 0 <= i < |payloads| ==> Ordinary(payloads[i])
  {
    hide Fits, Ordinary;
  }

  /** A bare JSON line is an event of its own: it is delivered just as if it had been written as a
  data line, with or without a space, and a blank line after it. */
  lemma BareLineIsAnEvent<E>(env: Env<E>, seen: seq<E>, line: string, spaces: seq<bool>)
    requires BareLine(line) && TrimSpace(line) == line && Fits(Payload(line, spaces))
    ensures FeedText(env, Running([], seen), line + "\n")
      == FeedText(env, Running([], seen), EncodePayload(Payload(line, spaces)))
  {
    hide TrimSpace, Join, NoiseLine, FeedText, EncodePayload, Fits;
    FeedBareLine(env, Running([], seen), line);
    FeedPayload(env, seen, Payload(line, spaces));
    LineEndUnique(line, |line|);
    assert line[..|line|] == line;
    assert SplitLf(line) == [line];
    NoLeadingSpace(line);
    assert ReceivedLines(LinesOf(Payload(line, spaces))) == [line];
    assert Dispatch(env, [], seen) == Running([], seen);
  }

  lemma NoLeadingSpace(line: string)
    requires TrimSpace(line) == line
    ensures !HasPrefix(line, " ")
  {
    hide TrimSpace;
    var left, right := TrimSpaceMeaning(line);
    assert line != "" ==> line[..1] == [line[0]];
  }
}
