/** The reading loop of internal/app/cc.go, proved against the specification in `Sse`. */
module SseReader {
  import opened GoStrings
  import opened Sse

  /** bufio.Reader over a response body, as far as ReadLine uses it: `rest` is what has not been
  read yet, `end` is what the body answers, time and again, once `rest` is used up. */
  class BufReader {
    const size: nat
    const end: BodyEnd
    var rest: string

    ghost predicate Valid() {
      16 <= size
    }

    constructor (text: string, end: BodyEnd, size: nat)
      requires 16 <= size
      ensures Valid() && rest == text && this.end == end && this.size == size
    {
      this.size := size;
      this.end := end;
      rest := text;
    }

    /** bufio.Reader.ReadLine. A line that does not fit the buffer comes in several chunks; a
    carriage return at the end of a full buffer is held back in case a line feed follows. When
    the last bytes of the body fill the buffer exactly, the reader may or may not have seen the
    end of the body yet. */
    method ReadLine() returns (chunk: string, isPrefix: bool, err: Option<BodyEnd>)
      requires Valid()
      modifies this`rest
      ensures old(rest) == "" ==> chunk == "" && !isPrefix && err == Some(end) && rest == ""
      ensures old(rest) != "" ==> err == None
      ensures old(rest) != "" && !isPrefix ==> chunk == FirstLine(old(rest)) && rest == AfterFirstLine(old(rest))
      ensures isPrefix ==>
        && chunk != "" && '\n' !in chunk && old(rest) == chunk + rest
        && (HasPrefix(rest, "\n") ==> TrimCr(chunk) == chunk)
    {
      if rest == "" {
        return "", false, Some(end);
      }
      err := None;
      var k := LineEnd(rest);
      if k < |rest| && k < size {
        chunk, isPrefix := TrimCr(rest[..k]), false;
        rest := rest[k + 1..];
        return;
      }
      var endSeen: bool := *;
      if |rest| < size || (|rest| == size && endSeen) {
        chunk, isPrefix := rest, false;
        rest := "";
        return;
      }
      FullBuffer(rest, size);
      chunk, isPrefix := TrimCr(rest[..size]), true;
      rest := rest[|chunk|..];
    }

    /** readSSELine: the whole line, however many chunks it takes; it fails exactly when the line
    is over the bound. */
    method ReadSseLine() returns (line: string, err: Option<ReadError>)
      requires Valid()
      modifies this`rest
      ensures err == Some(TooLong) <==> |FirstLine(old(rest))| > 33_554_432
      ensures err == Some(TooLong) ==> line == ""
      ensures err != Some(TooLong) ==> line == FirstLine(old(rest)) && rest == AfterFirstLine(old(rest))
      ensures err == None || err == Some(TooLong) || err == Some(AtEnd(end))
      ensures err == None ==> old(rest) != ""
      ensures err == Some(AtEnd(end)) ==> '\n' !in old(rest)
    {
      line := "";
      while true
        invariant |line| <= MAX_BYTES && '\n' !in line
        invariant old(rest) == line + rest
        invariant HasPrefix(rest, "\n") ==> TrimCr(line) == line
        decreases |rest|
      {
        ghost var before := rest;
        var chunk, isPrefix, readErr := ReadLine();
        FirstLineAfterPrefix(line, before);
        if isPrefix {
          ChunkOfLine(line, chunk, rest);
        }
        if |line| + |chunk| > MAX_BYTES {
          return "", Some(TooLong);
        }
        line := line + chunk;
        if readErr.Some? {
          return line, Some(AtEnd(readErr.value));
        }
        if !isPrefix {
          return line, None;
        }
      }
    }
  }

  datatype ReadError = TooLong | AtEnd(end: BodyEnd)

  // A full buffer of one line, of which a carriage return at the end is held back.
  lemma FullBuffer(text: string, size: nat)
    requires 2 <= size <= LineEnd(text)
    ensures
      var chunk := TrimCr(text[..size]);
      var rest := text[|chunk|..];
      chunk != "" && '\n' !in chunk && text == chunk + rest && (HasPrefix(rest, "\n") ==> TrimCr(chunk) == chunk)
  {
    var k := LineEnd(text);
    assert forall i :: 0 <= i < size ==> text[i] == text[..k][i];
    var full := text[..size];
    assert full[size - 1] == text[size - 1];
    if text[size - 1] == '\r' {
      // what is left begins with the carriage return
      assert TrimCr(full) == full[..size - 1] == text[..size - 1];
      assert !HasPrefix(text[size - 1..], "\n") by { assert text[size - 1..][0] == '\r'; }
    } else {
      assert TrimCr(full) == full;
    }
  }

  // Bytes already read of a line come before what is still to be read of it.
  lemma FirstLineAfterPrefix(prefix: string, rest: string)
    requires '\n' !in prefix
    requires HasPrefix(rest, "\n") ==> TrimCr(prefix) == prefix
    ensures FirstLine(prefix + rest) == prefix + FirstLine(rest)
    ensures AfterFirstLine(prefix + rest) == AfterFirstLine(rest)
  {
    var k := LineEnd(rest);
    var text := prefix + rest;
    assert text[..|prefix| + k] == prefix + rest[..k];
    LineEndUnique(text, |prefix| + k);
    if k < |rest| {
      assert text[|prefix| + k + 1..] == rest[k + 1..];
      if k == 0 {
        assert rest[..1] == "\n";
      } else {
        var l := prefix + rest[..k];
        assert l[|l| - 1] == rest[..k][k - 1];
        assert l[..|l| - 1] == prefix + rest[..k][..k - 1];
      }
    }
  }

  // One chunk more of a line that is not finished.
  lemma ChunkOfLine(line: string, chunk: string, rest: string)
    requires '\n' !in line && '\n' !in chunk && chunk != ""
    requires HasPrefix(rest, "\n") ==> TrimCr(chunk) == chunk
    ensures line + (chunk + rest) == line + chunk + rest
    ensures HasPrefix(rest, "\n") ==> TrimCr(line + chunk) == line + chunk
    ensures |FirstLine(line + chunk + rest)| >= |line| + |chunk|
  {
    var both := line + chunk;
    assert both[|both| - 1] == chunk[|chunk| - 1];
    FirstLineAfterPrefix(both, rest);
  }

  /** parseStreamEvents with its `dataLines` and `dataBytes`; `seen` is the list of the events
  that the callback has been given. */
  class StreamParser<E> {
    const env: Env<E>
    var dataLines: seq<string>
    var dataBytes: nat
    var seen: seq<E>

    constructor (env: Env<E>)
      ensures this.env == env && dataLines == [] && dataBytes == 0 && seen == []
    {
      this.env := env;
      dataLines, dataBytes, seen := [], 0, [];
    }

    function State(): Parser<E>
      reads this
    {
      Running(dataLines, seen)
    }

    ghost predicate Valid()
      reads this
    {
      dataBytes == TotalBytes(dataLines) && dataBytes <= MAX_BYTES
    }

    /** The dispatch closure: nothing to stop for, or the way the parse stops. */
    method Dispatch() returns (stop: Option<Stop>)
      modifies this
      ensures Sse.Dispatch(env, old(dataLines), old(seen))
        == if stop.Some? then Stopped(seen, stop.value) else State()
      ensures stop.None? ==> dataLines == [] && dataBytes == if old(dataLines) == [] then old(dataBytes) else 0
    {
      if dataLines == [] {
        return None;
      }
      var payload := Join(dataLines);
      dataLines, dataBytes := [], 0;
      if TrimSpace(payload) == "" {
        return None;
      }
      if TrimSpace(payload) == "[DONE]" {
        return Some(DoneMarker);
      }
      var event := env.decode(payload);
      if event.None? {
        return Some(Failed(BadPayload(payload)));
      }
      seen := seen + [event.value];
      var refusal := env.onEvent(seen);
      if refusal.Some? {
        return Some(Failed(Rejected(refusal.value)));
      }
      return None;
    }

    /** One turn of the switch over the kind of a line. */
    method TakeLine(raw: string) returns (stop: Option<Stop>)
      requires Valid() && |raw| <= MAX_BYTES
      modifies this
      ensures Sse.TakeLine(env, old(State()), raw)
        == if stop.Some? then Stopped(seen, stop.value) else State()
      ensures stop.None? ==> Valid()
    {
      hide Sse.Dispatch, TrimSpace, TrimCr, Join, TotalBytes, IsFieldLine, OverLong;
      NothingPending(env, seen);
      var line := TrimCr(raw);
      if line == "" {
        stop := Dispatch();
      } else if HasPrefix(line, ":") {
        stop := None;
      } else if HasPrefix(line, "data:") {
        var value := line[5..];
        if HasPrefix(value, " ") {
          value := value[1..];
        }
        dataBytes := dataBytes + |value|;
        if dataBytes > MAX_BYTES {
          return Some(Failed(EventTooLarge));
        }
        TotalBytesSnoc(dataLines, value);
        dataLines := dataLines + [value];
        stop := None;
      } else if IsFieldLine(line) {
        stop := None;
      } else {
        if |dataLines| > 0 {
          stop := Dispatch();
          if stop.Some? {
            return;
          }
        }
        dataLines := dataLines + [TrimSpace(line)];
        assert dataLines == [TrimSpace(line)];
        stop := Dispatch();
      }
    }

    /** The whole parse. For a body that ends properly the result does not depend on the buffer
    of the reader at all; for a body that breaks in the middle of a line it may depend on it in
    one way only: whether the data pending at that moment is still dispatched. */
    method Parse(reader: BufReader) returns (stop: Stop)
      requires reader.Valid() && State() == Start() && dataBytes == 0
      modifies this, reader`rest
      ensures reader.end.Eof? ==>
        Stopped(seen, stop) == ParseBody(env, old(reader.rest), Eof, false)
      ensures
        || Stopped(seen, stop) == ParseBody(env, old(reader.rest), reader.end, false)
        || (!Terminated(old(reader.rest)) && Stopped(seen, stop) == ParseBody(env, old(reader.rest), reader.end, true))
    {
      assert Valid();
      hide TrimSpace, Join, Sse.TakeLine, Feed, SplitLines, FirstLine, AfterFirstLine, TotalBytes, LineEnd,
        Sse.Dispatch;
      while true
        invariant Valid()
        invariant Feed(env, State(), SplitLines(reader.rest)) == Feed(env, Start(), SplitLines(old(reader.rest)))
        invariant reader.rest != "" ==> Terminated(reader.rest) == Terminated(old(reader.rest))
        decreases |reader.rest|
      {
        ghost var p, text := State(), reader.rest;
        var raw, readErr := reader.ReadSseLine();
        LineTaken(env, p, text, reader.end);
        RestEndsAlike(text);
        var lineStop := TakeLine(raw);
        if lineStop.Some? {
          stop := lineStop.value;
          return;
        }
        if readErr == Some(TooLong) {
          stop := Failed(LineTooLong);
          return;
        }
        if readErr.Some? {
          LastLineTaken(env, p, text, reader.end);
          match readErr.value.end {
            case Broken(reason) =>
              stop := Failed(BodyFailed(reason));
              return;
            case Eof =>
              var last := Dispatch();
              if last.Some? {
                stop := last.value;
                return;
              }
              stop := EndOfStream;
              return;
          }
        }
      }
    }
  }

  lemma NothingPending<E>(env: Env<E>, seen: seq<E>)
    ensures TotalBytes([]) == 0 && Sse.Dispatch(env, [], seen) == Running([], seen)
  {
  }

  lemma RestEndsAlike(text: string)
    ensures AfterFirstLine(text) != "" ==> Terminated(AfterFirstLine(text)) == Terminated(text)
    ensures text != "" && '\n' !in text ==> !Terminated(text)
    ensures |AfterFirstLine(text)| < |text| || text == ""
  {
  }

  // What is left of the parse once one more line has been taken.
  lemma LineTaken<E>(env: Env<E>, p: Parser<E>, text: string, end: BodyEnd)
    requires p.Running?
    ensures
      var q := TakeLine(env, p, FirstLine(text));
      && (q.Stopped? ==> Close(env, Feed(env, p, SplitLines(text)), end, false) == q)
      && (text != "" ==> Feed(env, p, SplitLines(text)) == Feed(env, q, SplitLines(AfterFirstLine(text))))
      && (|FirstLine(text)| > MAX_BYTES ==>
        var r := TakeLine(env, p, "");
        q == if r.Stopped? then r else Stopped(r.seen, Failed(LineTooLong)))
  {
    hide TrimSpace, Join, LineEnd;
    var q := TakeLine(env, p, FirstLine(text));
    if text != "" {
      var tail := SplitLines(AfterFirstLine(text));
      assert ([FirstLine(text)] + tail)[1..] == tail;
      if q.Stopped? {
        FeedStopped(env, q, tail);
      }
    }
  }

  // The same for the last, unterminated line of the body, which may be empty.
  lemma LastLineTaken<E>(env: Env<E>, p: Parser<E>, text: string, end: BodyEnd)
    requires p.Running? && '\n' !in text && TakeLine(env, p, FirstLine(text)).Running?
    ensures
      var q := TakeLine(env, p, FirstLine(text));
      && (text != "" ==> Feed(env, p, SplitLines(text)) == q)
      && (text == "" ==>
        && Close(env, Feed(env, p, SplitLines(text)), end, false) == Close(env, q, end, false)
        && Close(env, q, end, false) == Close(env, q, end, true))
  {
    hide TrimSpace, Join;
    var k := LineEnd(text);
    assert k == |text|;
    if text != "" {
      assert SplitLines(text) == [text];
      assert [text][1..] == [];
    }
  }
}
