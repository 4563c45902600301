/** The log ring of internal/app/logbuf.go, as a refinement of an unbounded log. */
module LogRing {
  import opened GoStrings

  const CAPACITY: nat := 500

  datatype LogEntry = LogEntry(seqNo: int, time: int, line: string)

  // ----------------------------------------------------------- the unbounded log

  /** Lines are numbered from 1 in the order they are logged. */
  predicate Numbered(log: seq<LogEntry>) {
    forall i :: 0 <= i < |log| ==> log[i].seqNo == i + 1
  }

  /** What After answers: the logged lines numbered above `after`, but no more than the last
  CAPACITY ones. */
  function Tail(log: seq<LogEntry>, after: int): seq<LogEntry> {
    var oldest := if |log| <= CAPACITY then 0 else |log| - CAPACITY;
    var from := if after < oldest then oldest else if after > |log| then |log| else after;
    log[from..]
  }

  // strings.TrimRight(line, "\n")
  function TrimNewlines(s: string): string {
    if s != "" && s[|s| - 1] == '\n' then TrimNewlines(s[..|s| - 1]) else s
  }

  // -------------------------------------------------------------------- the ring

  /** The last `filled` lines of the log are in the slots, each at its number modulo CAPACITY. */
  predicate Holds(slots: seq<LogEntry>, log: seq<LogEntry>, filled: nat) {
    && |slots| == CAPACITY && filled <= |log| && filled <= CAPACITY
    && forall j :: |log| - filled <= j < |log| ==> slots[j % CAPACITY] == log[j]
  }

  /** logRing; `log` is the history of everything that was ever written to it. */
  class Ring {
    const strip: string -> string
    const entries: array<LogEntry>
    var next: nat
    var filled: nat
    var seqNo: int
    ghost var log: seq<LogEntry>

    ghost predicate Valid()
      reads this, entries
    {
      && entries.Length == CAPACITY
      && Numbered(log)
      && seqNo == |log|
      && filled == (if |log| <= CAPACITY then |log| else CAPACITY)
      && next == |log| % CAPACITY
      && Holds(entries[..], log, filled)
    }

    constructor (strip: string -> string)
      ensures Valid() && log == [] && fresh(entries) && this.strip == strip
    {
      this.strip := strip;
      entries := new LogEntry[CAPACITY](_ => LogEntry(0, 0, ""));
      next, filled, seqNo := 0, 0, 0;
      log := [];
    }

    /** A line that is blank once its escape codes are stripped is not logged at all. */
    method Write(p: string, now: int) returns (n: nat)
      requires Valid()
      modifies this, entries
      ensures Valid() && n == |p|
      ensures
        var line := strip(TrimNewlines(p));
        log == old(log) + if Blank(line) then [] else [LogEntry(|old(log)| + 1, now, line)]
    {
      n := |p|;
      var line := strip(TrimNewlines(p));
      if TrimSpace(line) == "" {
        return;
      }
      hide Holds, TrimSpace;
      WrittenHolds(entries[..], log, filled, LogEntry(seqNo + 1, now, line));
      NextSlot(|log|);
      seqNo := seqNo + 1;
      entries[next] := LogEntry(seqNo, now, line);
      next := (next + 1) % entries.Length;
      if filled < entries.Length {
        filled := filled + 1;
      }
      log := log + [LogEntry(seqNo, now, line)];
    }

    /** Entries numbered above `after`, oldest first, and the number of the last one written. */
    method After(after: int) returns (out: seq<LogEntry>, last: int)
      requires Valid()
      ensures out == Tail(log, after) && last == |log|
    {
      hide Holds;
      last := seqNo;
      out := [];
      ghost var oldest := |log| - filled;
      ghost var from := if after < oldest then oldest else if after > |log| then |log| else after;
      for i := 0 to filled
        invariant out == if oldest + i <= from then [] else log[from..oldest + i]
      {
        var idx := (next - filled + i + entries.Length) % entries.Length;
        assert 0 <= idx < CAPACITY && entries[idx] == log[oldest + i] by {
          SlotOf(entries[..], log, filled, i);
        }
        if oldest + i >= from {
          OneMore(log, from, oldest + i);
        }
        if entries[idx].seqNo > after {
          out := out + [entries[idx]];
        }
      }
      assert oldest + filled == |log|;
      assert log[from..|log|] == log[from..];
    }
  }

  lemma OneMore(log: seq<LogEntry>, from: nat, j: nat)
    requires from <= j < |log|
    ensures log[from..j + 1] == log[from..j] + [log[j]]
  {
  }

  lemma NextSlot(n: nat)
    ensures (n % CAPACITY + 1) % CAPACITY == (n + 1) % CAPACITY
  {
  }

  lemma OtherSlot(j: nat, n: nat)
    requires j < n < j + CAPACITY
    ensures j % CAPACITY != n % CAPACITY
  {
    assert n - j == (n / CAPACITY - j / CAPACITY) * CAPACITY + (n % CAPACITY - j % CAPACITY);
  }

  // A new line takes the slot of the oldest one once the ring is full, and a free one before.
  lemma WrittenHolds(slots: seq<LogEntry>, log: seq<LogEntry>, filled: nat, entry: LogEntry)
    requires Holds(slots, log, filled) && (filled == |log| || filled == CAPACITY)
    ensures Holds(slots[|log| % CAPACITY := entry], log + [entry], if filled < CAPACITY then filled + 1 else filled)
  {
    var n := |log|;
    forall j | n + 1 - CAPACITY <= j < n && j >= 0 ensures j % CAPACITY != n % CAPACITY {
      OtherSlot(j, n);
    }
  }

  // Where After finds the line that is `i` lines after the oldest one.
  lemma SlotOf(slots: seq<LogEntry>, log: seq<LogEntry>, filled: nat, i: nat)
    requires Holds(slots, log, filled) && i < filled
    ensures
      var idx := (|log| % CAPACITY - filled + i + CAPACITY) % CAPACITY;
      0 <= idx < CAPACITY && slots[idx] == log[|log| - filled + i]
  {
    SlotNumber(|log|, filled, i);
  }

  lemma SlotNumber(n: nat, filled: nat, i: nat)
    requires filled <= CAPACITY && filled <= n && i < filled
    ensures (n % CAPACITY - filled + i + CAPACITY) % CAPACITY == (n - filled + i) % CAPACITY
  {
    var q := n / CAPACITY;
    assert n - filled + i + CAPACITY == (n % CAPACITY - filled + i + CAPACITY) + q * CAPACITY;
  }

  /** What is answered from a log: its end, and of the last 500 lines exactly those numbered above
  `after`. */
  lemma TailMeaning(log: seq<LogEntry>, after: int)
    requires Numbered(log)
    ensures Tail(log, after) == log[|log| - |Tail(log, after)|..]
    ensures forall e :: e in Tail(log, after) <==> e in log && e.seqNo > after && e.seqNo > |log| - 500
  {
    var tail := Tail(log, after);
    var from := |log| - |tail|;
    forall i | 0 <= i < |log| ensures log[i] in tail <==> log[i].seqNo > after && log[i].seqNo > |log| - 500 {
      if i >= from {
        assert log[i] == tail[i - from];
      } else {
        assert forall j :: 0 <= j < |tail| ==> tail[j].seqNo == from + j + 1;
      }
    }
    assert forall e :: e in tail ==> e in log;
  }

  /** Only line feeds are cut off, all of those at the end. */
  lemma {:induction false} TrimNewlinesMeaning(s: string)
    ensures TrimNewlines(s) <= s && forall i :: |TrimNewlines(s)| <= i < |s| ==> s[i] == '\n'
    ensures TrimNewlines(s) != "" ==> TrimNewlines(s)[|TrimNewlines(s)| - 1] != '\n'
  {
    if s != "" && s[|s| - 1] == '\n' {
      TrimNewlinesMeaning(s[..|s| - 1]);
    }
  }

  // -------------------------------------------------------------------- a poller

  /** What a poller collects that passes back the last number it was given, when the log has
  grown to the given lengths at its polls. */
  function Polled(log: seq<LogEntry>, last: nat, lengths: seq<nat>): seq<LogEntry>
    requires forall i :: 0 <= i < |lengths| ==> lengths[i] <= |log|
    decreases |lengths|
  {
    if lengths == [] then []
    else Tail(log[..lengths[0]], last) + Polled(log, lengths[0], lengths[1..])
  }

  /** The log grows from poll to poll. */
  predicate Growing(last: nat, lengths: seq<nat>)
    decreases |lengths|
  {
    lengths == [] || (last <= lengths[0] && Growing(lengths[0], lengths[1..]))
  }

  /** At most CAPACITY lines are logged between two polls. */
  predicate KeepsUp(last: nat, lengths: seq<nat>)
    decreases |lengths|
  {
    lengths == [] || (lengths[0] - last <= CAPACITY && KeepsUp(lengths[0], lengths[1..]))
  }

  function LastLength(last: nat, lengths: seq<nat>): nat {
    if lengths == [] then last else lengths[|lengths| - 1]
  }

  lemma {:induction false} GrowingBound(last: nat, lengths: seq<nat>)
    requires Growing(last, lengths)
    ensures last <= LastLength(last, lengths)
    decreases |lengths|
  {
    if lengths != [] {
      GrowingBound(lengths[0], lengths[1..]);
    }
  }

  lemma {:induction false} PolledLength(log: seq<LogEntry>, last: nat, lengths: seq<nat>)
    requires forall i :: 0 <= i < |lengths| ==> lengths[i] <= |log|
    requires Growing(last, lengths)
    ensures |Polled(log, last, lengths)| <= LastLength(last, lengths) - last
    ensures |Polled(log, last, lengths)| == LastLength(last, lengths) - last ==> KeepsUp(last, lengths)
    decreases |lengths|
  {
    if lengths != [] {
      PolledLength(log, lengths[0], lengths[1..]);
    }
  }

  /** A poller sees every line logged since it started once, in order and none twice, exactly when
  it keeps up with the ring. */
  lemma {:induction false} PollerSeesEachLineOnce(log: seq<LogEntry>, last: nat, lengths: seq<nat>)
    requires forall i :: 0 <= i < |lengths| ==> lengths[i] <= |log|
    requires last <= |log| && Growing(last, lengths)
    ensures last <= LastLength(last, lengths) <= |log|
    ensures Polled(log, last, lengths) == log[last..LastLength(last, lengths)] <==> KeepsUp(last, lengths)
    decreases |lengths|
  {
    GrowingBound(last, lengths);
    PolledLength(log, last, lengths);
    if KeepsUp(last, lengths) && lengths != [] {
      PollerSeesEachLineOnce(log, lengths[0], lengths[1..]);
      assert log[..lengths[0]][last..] == log[last..lengths[0]];
    }
  }
}
