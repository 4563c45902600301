/** The failure limiter of internal/app/ratelimit.go, with the calling order of adminAuth
(internal/app/server.go): Allow first, then Fail or Reset if it said yes. */
module RateLimit {
  import opened GoStrings
  import opened GoTime

  const FAIL_LIMIT: nat := 5
  const FAIL_WINDOW: int := 600 * SECOND
  const LOCKOUT: int := 900 * SECOND

  /** One source's record; a zero lockedUntil in Go is None here. */
  datatype FailRecord = FailRecord(count: int, windowStart: int, lockedUntil: Option<int>)

  type Record = Option<FailRecord>

  /** What Allow decides; `until` is the end of the lockout when it refuses. */
  datatype Answer = Answer(allowed: bool, until: int, record: Record)

  // ------------------------------------------------------------- one source's steps

  function AllowStep(rec: Record, now: int): Answer {
    match rec
    case None => Answer(true, 0, None)
    case Some(r) =>
      match r.lockedUntil
      case Some(until) => if now < until then Answer(false, until, rec) else Answer(true, 0, None)
      case None => Answer(true, 0, if now - r.windowStart > FAIL_WINDOW then None else rec)
  }

  function FailStep(rec: Record, now: int): Record {
    var r := if rec.None? || now - rec.value.windowStart > FAIL_WINDOW then FailRecord(0, now, None) else rec.value;
    var counted := r.(count := r.count + 1);
    Some(if counted.count >= FAIL_LIMIT then counted.(lockedUntil := Some(now + LOCKOUT)) else counted)
  }

  /** What Allow decides and what it leaves: a source is refused exactly while a lockout runs, and told
  its end; and a record is kept, as it is, exactly while its lockout runs or, without one, for ten
  minutes. */
  lemma AllowMeaning(rec: Record, now: int)
    ensures
      var a := AllowStep(rec, now);
      && (!a.allowed <==> rec.Some? && rec.value.lockedUntil.Some? && now < rec.value.lockedUntil.value)
      && (!a.allowed ==> Some(a.until) == rec.value.lockedUntil)
      && (a.record.Some? ==> a.record == rec)
      && (a.record.Some? <==>
        rec.Some? && (!a.allowed || (rec.value.lockedUntil.None? && now <= rec.value.windowStart + 600_000_000_000)))
  {
  }

  // -------------------------------------------------------------------- the class

  /** ipRateLimiter. */
  class Limiter {
    var fails: map<string, FailRecord>

    constructor ()
      ensures fails == map[]
    {
      fails := map[];
    }

    /** A refusal reads the clock a second time, `later`, to tell how long the lockout goes on. */
    method Allow(ip: string, now: int, later: int) returns (allowed: bool, wait: int)
      modifies this
      ensures
        var a := AllowStep(Lookup(old(fails), ip), now);
        && allowed == a.allowed && fails == Store(old(fails), ip, a.record)
        && wait == if allowed then 0 else a.until - later
    {
      if ip !in fails {
        return true, 0;
      }
      var rec := fails[ip];
      if rec.lockedUntil.Some? {
        if now < rec.lockedUntil.value {
          return false, rec.lockedUntil.value - later;
        }
        fails := fails - {ip};
        return true, 0;
      }
      if now - rec.windowStart > FAIL_WINDOW {
        fails := fails - {ip};
      }
      return true, 0;
    }

    method Fail(ip: string, now: int)
      modifies this
      ensures fails == Store(old(fails), ip, FailStep(Lookup(old(fails), ip), now))
    {
      var rec: FailRecord;
      if ip !in fails || now - fails[ip].windowStart > FAIL_WINDOW {
        rec := FailRecord(0, now, None);
      } else {
        rec := fails[ip];
      }
      rec := rec.(count := rec.count + 1);
      if rec.count >= FAIL_LIMIT {
        rec := rec.(lockedUntil := Some(now + LOCKOUT));
      }
      fails := fails[ip := rec];
    }

    method Reset(ip: string)
      modifies this
      ensures fails == Store(old(fails), ip, None)
    {
      fails := fails - {ip};
    }
  }

  function Lookup(fails: map<string, FailRecord>, ip: string): Record {
    if ip in fails then Some(fails[ip]) else None
  }

  function Store(fails: map<string, FailRecord>, ip: string, rec: Record): map<string, FailRecord> {
    match rec
    case None => fails - {ip}
    case Some(r) => fails[ip := r]
  }

  // ------------------------------------------------------- runs over many sources

  datatype Call = AllowCall(ip: string, at: int) | FailCall(ip: string, at: int) | ResetCall(ip: string, at: int)

  function OneCall(rec: Record, c: Call): Record {
    match c
    case AllowCall(_, at) => AllowStep(rec, at).record
    case FailCall(_, at) => FailStep(rec, at)
    case ResetCall(_, _) => None
  }

  function RunAll(fails: map<string, FailRecord>, calls: seq<Call>): map<string, FailRecord> {
    if calls == [] then fails
    else
      var before, c := RunAll(fails, calls[..|calls| - 1]), calls[|calls| - 1];
      Store(before, c.ip, OneCall(Lookup(before, c.ip), c))
  }

  function RunOne(rec: Record, calls: seq<Call>): Record {
    if calls == [] then rec
    else OneCall(RunOne(rec, calls[..|calls| - 1]), calls[|calls| - 1])
  }

  function CallsOf(calls: seq<Call>, ip: string): seq<Call> {
    if calls == [] then []
    else
      var n := |calls| - 1;
      CallsOf(calls[..n], ip) + if calls[n].ip == ip then [calls[n]] else []
  }

  /** Sources do not influence each other: what the limiter remembers of a source is what it would
  remember had nobody else ever called. */
  lemma {:induction false} SourcesAreIndependent(fails: map<string, FailRecord>, calls: seq<Call>, ip: string)
    ensures Lookup(RunAll(fails, calls), ip) == RunOne(Lookup(fails, ip), CallsOf(calls, ip))
  {
    if calls != [] {
      var n := |calls| - 1;
      SourcesAreIndependent(fails, calls[..n], ip);
      if calls[n].ip == ip {
        var mine := CallsOf(calls, ip);
        assert mine[..|mine| - 1] == CallsOf(calls[..n], ip);
      } else {
        assert CallsOf(calls, ip) == CallsOf(calls[..n], ip);
      }
    }
  }

  // ------------------------------------------------------- attempts that overlap

  /** One source as the limiter and the world see it: the record, how many admitted attempts have
  not ended yet, and the clock. */
  datatype Source = Source(rec: Record, open: int, clock: int)

  function Idle(clock: int): Source {
    Source(None, 0, clock)
  }

  function Take(s: Source, c: Call): Source {
    var change := match c case AllowCall(_, at) => if AllowStep(s.rec, at).allowed then 1 else 0 case _ => -1;
    Source(OneCall(s.rec, c), s.open + change, c.at)
  }

  function TakeAll(s: Source, calls: seq<Call>): Source
    decreases |calls|
  {
    if calls == [] then s else TakeAll(Take(s, calls[0]), calls[1..])
  }

  // The order of adminAuth, with no more than `limit` attempts under way at a time.
  predicate May(s: Source, c: Call, limit: nat) {
    s.clock <= c.at && 0 <= Take(s, c).open <= limit
  }

  /** Calls as adminAuth makes them for one source when at most `limit` of its attempts overlap:
  each Fail and each Reset ends an attempt that an Allow let in, and the clock does not run
  backwards. */
  predicate Overlapping(s: Source, calls: seq<Call>, limit: nat)
    decreases |calls|
  {
    calls == [] || (May(s, calls[0], limit) && Overlapping(Take(s, calls[0]), calls[1..], limit))
  }

  predicate NoResetIn(calls: seq<Call>, from: int, to: int)
    decreases |calls|
  {
    calls == [] || (!(calls[0].ResetCall? && from <= calls[0].at <= to) && NoResetIn(calls[1..], from, to))
  }

  function FailCallsIn(calls: seq<Call>, from: int, to: int): nat {
    if calls == [] then 0
    else (if calls[0].FailCall? && from <= calls[0].at <= to then 1 else 0) + FailCallsIn(calls[1..], from, to)
  }

  /** What every source satisfies. */
  predicate Sound(s: Source) {
    s.rec.Some? ==>
      var r := s.rec.value;
      && r.windowStart <= s.clock && 1 <= r.count
      && (r.lockedUntil.None? <==> r.count < FAIL_LIMIT)
      && (r.lockedUntil.Some? ==> r.windowStart + LOCKOUT <= r.lockedUntil.value <= s.clock + LOCKOUT)
  }

  lemma TakeKeepsSound(s: Source, c: Call)
    requires Sound(s) && s.clock <= c.at
    ensures Sound(Take(s, c))
  {
  }

  // How many more failures there can be between `from` and `from` + FAIL_WINDOW.
  function Budget(s: Source, limit: int, from: int): int {
    var anew := FAIL_LIMIT - 1 + limit;
    match s.rec
    case None => anew
    case Some(r) =>
      match r.lockedUntil
      case None => if r.windowStart >= from then anew - r.count else anew + FAIL_LIMIT - 2 + limit - r.count
      case Some(until) =>
        if r.windowStart >= from then s.open
        else if s.open > 0 then anew + s.open - 1
        else if until > from + FAIL_WINDOW then 0
        else anew
  }

  lemma BudgetBound(s: Source, limit: nat, from: int)
    requires Sound(s) && 0 <= s.open <= limit && limit >= 1
    ensures 0 <= Budget(s, limit, from) <= 2 * FAIL_LIMIT - 4 + 2 * limit
  {
  }

  lemma CallSpendsBudget(s: Source, c: Call, limit: nat, from: int)
    requires Sound(s) && 0 <= s.open <= limit && limit >= 1 && May(s, c, limit)
    requires from <= c.at <= from + FAIL_WINDOW && !c.ResetCall?
    ensures Budget(Take(s, c), limit, from) + (if c.FailCall? then 1 else 0) <= Budget(s, limit, from)
  {
  }

  lemma {:induction false} NothingAfter(s: Source, calls: seq<Call>, limit: nat, from: int)
    requires Overlapping(s, calls, limit) && s.clock > from + FAIL_WINDOW
    ensures FailCallsIn(calls, from, from + FAIL_WINDOW) == 0
    decreases |calls|
  {
    if calls != [] {
      NothingAfter(Take(s, calls[0]), calls[1..], limit, from);
    }
  }

  lemma {:induction false} SpentWithinBudget(s: Source, calls: seq<Call>, limit: nat, from: int)
    requires Sound(s) && 0 <= s.open <= limit && limit >= 1 && from <= s.clock
    requires Overlapping(s, calls, limit) && NoResetIn(calls, from, from + FAIL_WINDOW)
    ensures FailCallsIn(calls, from, from + FAIL_WINDOW) <= Budget(s, limit, from)
    decreases |calls|
  {
    BudgetBound(s, limit, from);
    if calls != [] {
      hide Budget, Sound;
      var c := calls[0];
      TakeKeepsSound(s, c);
      if c.at <= from + FAIL_WINDOW {
        CallSpendsBudget(s, c, limit, from);
        SpentWithinBudget(Take(s, c), calls[1..], limit, from);
      } else {
        NothingAfter(Take(s, c), calls[1..], limit, from);
      }
    }
  }

  /** When at most `limit` attempts of a source are under way at a time, at most 4 + 2 * (limit + 1)
  of them fail in any ten minutes without a success, whatever happened before. */
  lemma {:induction false} FailuresAreBounded(s: Source, calls: seq<Call>, limit: nat, from: int)
    requires Sound(s) && 0 <= s.open <= limit && limit >= 1
    requires Overlapping(s, calls, limit) && NoResetIn(calls, from, from + FAIL_WINDOW)
    ensures FailCallsIn(calls, from, from + FAIL_WINDOW) <= 2 * FAIL_LIMIT - 4 + 2 * limit
    decreases |calls|
  {
    if from <= s.clock {
      SpentWithinBudget(s, calls, limit, from);
      BudgetBound(s, limit, from);
    } else if calls != [] {
      hide Sound;
      var c := calls[0];
      TakeKeepsSound(s, c);
      if c.at < from {
        FailuresAreBounded(Take(s, c), calls[1..], limit, from);
      } else {
        var t := s.(clock := from);
        assert Sound(t) by { SoundLater(s, from); }
        assert Take(t, c) == Take(s, c);
        SpentWithinBudget(t, calls, limit, from);
        BudgetBound(t, limit, from);
      }
    }
  }

  lemma SoundLater(s: Source, later: int)
    requires Sound(s) && s.clock <= later
    ensures Sound(s.(clock := later))
  {
  }

  // ------------------------------------------------------------ the bound is reached

  // Some calls at one time, put before later ones.
  function Allows(ip: string, at: int, k: nat, later: seq<Call>): seq<Call> {
    if k == 0 then later else [AllowCall(ip, at)] + Allows(ip, at, k - 1, later)
  }

  function Fails(ip: string, at: int, k: nat, later: seq<Call>): seq<Call> {
    if k == 0 then later else [FailCall(ip, at)] + Fails(ip, at, k - 1, later)
  }

  // Attempts that fail at once, one after another.
  function Pairs(ip: string, at: int, k: nat, later: seq<Call>): seq<Call> {
    if k == 0 then later else [AllowCall(ip, at), FailCall(ip, at)] + Pairs(ip, at, k - 1, later)
  }

  /** From `s` the calls can be made within the limit, there is no success among them, and so many
  failures in the interval. */
  predicate Possible(s: Source, calls: seq<Call>, limit: nat, from: int, failures: nat) {
    && Overlapping(s, calls, limit) && NoResetIn(calls, from, from + FAIL_WINDOW)
    && FailCallsIn(calls, from, from + FAIL_WINDOW) == failures
  }

  lemma PossibleCons(s: Source, c: Call, later: seq<Call>, limit: nat, from: int, failures: nat)
    requires May(s, c, limit) && !c.ResetCall? && Possible(Take(s, c), later, limit, from, failures)
    ensures Possible(s, [c] + later, limit, from,
      failures + if c.FailCall? && from <= c.at <= from + FAIL_WINDOW then 1 else 0)
  {
    assert ([c] + later)[1..] == later;
  }

  lemma {:induction false} AllowsFirst(s: Source, ip: string, at: int, k: nat, later: seq<Call>, limit: nat, from: int,
        failures: nat)
    requires s.clock <= at && 0 <= s.open && s.open + k <= limit && AllowStep(s.rec, at) == Answer(true, 0, s.rec)
    requires Possible(Source(s.rec, s.open + k, at), later, limit, from, failures)
    ensures Possible(s, Allows(ip, at, k, later), limit, from, failures)
    decreases k
  {
    if k > 0 {
      var t := Take(s, AllowCall(ip, at));
      AllowsFirst(t, ip, at, k - 1, later, limit, from, failures);
      PossibleCons(s, AllowCall(ip, at), Allows(ip, at, k - 1, later), limit, from, failures);
    }
  }

  // A record after some failures within its window.
  function Failed(r: FailRecord, at: int, k: nat): FailRecord {
    r.(count := r.count + k,
       lockedUntil := if k > 0 && r.count + k >= FAIL_LIMIT then Some(at + LOCKOUT) else r.lockedUntil)
  }

  lemma {:induction false} FailsFirst(s: Source, ip: string, at: int, k: nat, later: seq<Call>, limit: nat, from: int,
        failures: nat)
    requires s.clock <= at && k <= s.open <= limit && from <= at <= from + FAIL_WINDOW
    requires s.rec.Some? && at - s.rec.value.windowStart <= FAIL_WINDOW
    requires Possible(Source(Some(Failed(s.rec.value, at, k)), s.open - k, at), later, limit, from, failures)
    ensures Possible(s, Fails(ip, at, k, later), limit, from, failures + k)
    decreases k
  {
    if k > 0 {
      var t := Take(s, FailCall(ip, at));
      assert Failed(s.rec.value, at, k) == Failed(t.rec.value, at, k - 1);
      FailsFirst(t, ip, at, k - 1, later, limit, from, failures);
      PossibleCons(s, FailCall(ip, at), Fails(ip, at, k - 1, later), limit, from, failures + k - 1);
    }
  }

  lemma {:induction false} PairsFirst(s: Source, ip: string, at: int, k: nat, later: seq<Call>, limit: nat, from: int,
        failures: nat)
    requires s.clock <= at && 0 <= s.open < limit && from <= at <= from + FAIL_WINDOW
    requires s.rec.Some? && s.rec.value.lockedUntil.None? && s.rec.value.count + k < FAIL_LIMIT
    requires at - s.rec.value.windowStart <= FAIL_WINDOW
    requires Possible(Source(Some(s.rec.value.(count := s.rec.value.count + k)), s.open, at), later, limit, from,
      failures)
    ensures Possible(s, Pairs(ip, at, k, later), limit, from, failures + k)
    decreases k
  {
    if k > 0 {
      var a, f, rest := AllowCall(ip, at), FailCall(ip, at), Pairs(ip, at, k - 1, later);
      var t := Take(Take(s, a), f);
      PairsFirst(t, ip, at, k - 1, later, limit, from, failures);
      PossibleCons(Take(s, a), f, rest, limit, from, failures + k - 1);
      PossibleCons(s, a, [f] + rest, limit, from, failures + k);
      assert [a, f] + rest == [a] + ([f] + rest);
    }
  }

  // The second half of the run: a record begun at the end of the interval is filled and overrun.
  function SecondHalf(ip: string, limit: nat): seq<Call> {
    Pairs(ip, FAIL_WINDOW, 3, Allows(ip, FAIL_WINDOW, limit, Fails(ip, FAIL_WINDOW, limit, [])))
  }

  lemma SecondHalfFails(ip: string, limit: nat)
    requires limit >= 1
    ensures Possible(Source(Some(FailRecord(1, FAIL_WINDOW, None)), 0, FAIL_WINDOW), SecondHalf(ip, limit), limit, 0,
      3 + limit)
  {
    hide Possible;
    var at, four := FAIL_WINDOW, FailRecord(4, FAIL_WINDOW, None);
    var fails := Fails(ip, at, limit, []);
    PossibleEnd(Source(Some(Failed(four, at, limit)), 0, at), limit, 0);
    FailsFirst(Source(Some(four), limit, at), ip, at, limit, [], limit, 0, 0);
    AllowsFirst(Source(Some(four), 0, at), ip, at, limit, fails, limit, 0, limit);
    PairsFirst(Source(Some(FailRecord(1, FAIL_WINDOW, None)), 0, at), ip, at, 3, Allows(ip, at, limit, fails), limit,
      0, limit);
  }

  lemma PossibleEnd(s: Source, limit: nat, from: int)
    ensures Possible(s, [], limit, from, 0)
  {
  }

  // The first half: an older record is filled and overrun, and its last straggler begins a new one.
  function FirstHalf(ip: string, limit: nat): seq<Call>
    requires limit >= 1
  {
    Pairs(ip, 0, 3, Allows(ip, 0, limit, Fails(ip, 0, limit - 1, [FailCall(ip, FAIL_WINDOW)] + SecondHalf(ip, limit))))
  }

  lemma FirstHalfFails(ip: string, limit: nat)
    requires limit >= 1
    ensures Possible(Source(Some(FailRecord(1, -1, None)), 0, -1), FirstHalf(ip, limit), limit, 0,
      2 * FAIL_LIMIT - 4 + 2 * limit)
  {
    hide Possible, SecondHalf;
    var four, straggler := FailRecord(4, -1, None), FailCall(ip, FAIL_WINDOW);
    var end := [straggler] + SecondHalf(ip, limit);
    SecondHalfFails(ip, limit);
    PossibleCons(Source(Some(Failed(four, 0, limit - 1)), 1, 0), straggler, SecondHalf(ip, limit), limit, 0, 3 + limit);
    FailsFirst(Source(Some(four), limit, 0), ip, 0, limit - 1, end, limit, 0, 4 + limit);
    var fails := Fails(ip, 0, limit - 1, end);
    AllowsFirst(Source(Some(four), 0, 0), ip, 0, limit, fails, limit, 0, 3 + 2 * limit);
    PairsFirst(Source(Some(FailRecord(1, -1, None)), 0, -1), ip, 0, 3, Allows(ip, 0, limit, fails), limit, 0,
      3 + 2 * limit);
  }

  /** A run that overruns two records: one failure before the interval begins the first, and a
  straggler of it begins the second. */
  function OverrunTwice(ip: string, limit: nat): seq<Call>
    requires limit >= 1
  {
    [AllowCall(ip, -1)] + ([FailCall(ip, -1)] + FirstHalf(ip, limit))
  }

  /** The bound is reached, for every number of overlapping attempts. */
  lemma BoundIsReached(ip: string, limit: nat)
    requires limit >= 1
    ensures Possible(Idle(-1), OverrunTwice(ip, limit), limit, 0, 2 * FAIL_LIMIT - 4 + 2 * limit)
  {
    hide Possible, FirstHalf;
    var a, f, rest := AllowCall(ip, -1), FailCall(ip, -1), FirstHalf(ip, limit);
    FirstHalfFails(ip, limit);
    PossibleCons(Take(Idle(-1), a), f, rest, limit, 0, 2 * FAIL_LIMIT - 4 + 2 * limit);
    PossibleCons(Idle(-1), a, [f] + rest, limit, 0, 2 * FAIL_LIMIT - 4 + 2 * limit);
  }

  /** Without a limit on overlapping there is no bound: `n` attempts that are let in together all
  fail in the same instant. */
  lemma OverlappingAttemptsAreNotBounded(ip: string, now: int, n: nat)
    ensures Possible(Idle(now), Allows(ip, now, n, Fails(ip, now, n, [])), n, now, n)
  {
    hide Possible;
    var waiting := Source(None, n, now);
    PossibleEnd(waiting, n, now);
    if n > 0 {
      var one := FailRecord(1, now, None);
      PossibleEnd(Source(Some(Failed(one, now, n - 1)), 0, now), n, now);
      FailsFirst(Source(Some(one), n - 1, now), ip, now, n - 1, [], n, now, 0);
      PossibleCons(waiting, FailCall(ip, now), Fails(ip, now, n - 1, []), n, now, n - 1);
    }
    AllowsFirst(Idle(now), ip, now, n, Fails(ip, now, n, []), n, now, n);
  }

  lemma {:induction false} MoreRoom(s: Source, calls: seq<Call>, limit: nat, more: nat)
    requires Overlapping(s, calls, limit) && limit <= more
    ensures Overlapping(s, calls, more)
    decreases |calls|
  {
    if calls != [] {
      MoreRoom(Take(s, calls[0]), calls[1..], limit, more);
    }
  }

  ghost predicate NeverMoreThan(limit: nat, n: nat) {
    forall clock: int, calls: seq<Call>, from: int, failures: nat :: Possible(Idle(clock), calls, limit, from, failures)
      ==> failures <= n
  }

  /** Eight failures in ten minutes is the bound exactly when attempts do not overlap. */
  lemma EightIsTheBoundExactlyWhenSerial(limit: nat)
    ensures NeverMoreThan(limit, 8) <==> limit <= 1
  {
    if limit <= 1 {
      forall clock: int, calls: seq<Call>, from: int, failures: nat
        | Possible(Idle(clock), calls, limit, from, failures)
        ensures failures <= 8
      {
        MoreRoom(Idle(clock), calls, limit, 1);
        FailuresAreBounded(Idle(clock), calls, 1, from);
      }
    } else {
      BoundIsReached("", limit);
    }
  }

  // ------------------------------------------------------ one source among many

  lemma {:induction false} RunOneConcat(rec: Record, a: seq<Call>, b: seq<Call>)
    ensures RunOne(rec, a + b) == RunOne(RunOne(rec, a), b)
  {
    if b == [] {
      assert a + b == a;
    } else {
      var n := |b| - 1;
      assert (a + b)[..|a| + n] == a + b[..n];
      RunOneConcat(rec, a, b[..n]);
    }
  }

  lemma RunOneCall(rec: Record, c: Call)
    ensures RunOne(rec, [c]) == OneCall(rec, c)
  {
    assert [c][..0] == [];
  }

  lemma {:induction false} TakeAllRunsTheLimiter(s: Source, calls: seq<Call>)
    ensures TakeAll(s, calls).rec == RunOne(s.rec, calls)
    decreases |calls|
  {
    if calls != [] {
      TakeAllRunsTheLimiter(Take(s, calls[0]), calls[1..]);
      RunOneConcat(s.rec, [calls[0]], calls[1..]);
      RunOneCall(s.rec, calls[0]);
      assert [calls[0]] + calls[1..] == calls;
    }
  }

  /** The bound for a limiter that serves many sources at once: the calls of the others may come
  anywhere in between. */
  lemma BoundPerSource(calls: seq<Call>, ip: string, clock: int, limit: nat, from: int)
    requires Overlapping(Idle(clock), CallsOf(calls, ip), limit) && limit >= 1
    requires NoResetIn(CallsOf(calls, ip), from, from + FAIL_WINDOW)
    ensures FailCallsIn(CallsOf(calls, ip), from, from + FAIL_WINDOW) <= 2 * FAIL_LIMIT - 4 + 2 * limit
    ensures Lookup(RunAll(map[], calls), ip) == TakeAll(Idle(clock), CallsOf(calls, ip)).rec
  {
    FailuresAreBounded(Idle(clock), CallsOf(calls, ip), limit, from);
    SourcesAreIndependent(map[], calls, ip);
    TakeAllRunsTheLimiter(Idle(clock), CallsOf(calls, ip));
  }

  // --------------------------------------------------- attempts, one after another

  /** One authentication attempt: Allow at one clock reading, and if it was admitted, Fail at a
  later one or Reset. */
  datatype Attempt = Attempt(allowAt: int, endAt: int, success: bool)

  function Admitted(rec: Record, a: Attempt): bool {
    AllowStep(rec, a.allowAt).allowed
  }

  function AttemptStep(rec: Record, a: Attempt): Record {
    var answer := AllowStep(rec, a.allowAt);
    if !answer.allowed then answer.record
    else if a.success then None
    else FailStep(answer.record, a.endAt)
  }

  // The calls an attempt makes.
  function AttemptCalls(ip: string, rec: Record, a: Attempt): seq<Call> {
    [AllowCall(ip, a.allowAt)] +
    if !Admitted(rec, a) then [] else if a.success then [ResetCall(ip, a.endAt)] else [FailCall(ip, a.endAt)]
  }

  function AttemptsCalls(ip: string, rec: Record, attempts: seq<Attempt>): seq<Call>
    decreases |attempts|
  {
    if attempts == [] then []
    else AttemptCalls(ip, rec, attempts[0]) + AttemptsCalls(ip, AttemptStep(rec, attempts[0]), attempts[1..])
  }

  /** The clock does not run backwards through the attempts. */
  predicate InOrder(now: int, attempts: seq<Attempt>)
    decreases |attempts|
  {
    attempts == [] ||
    (now <= attempts[0].allowAt <= attempts[0].endAt && InOrder(attempts[0].endAt, attempts[1..]))
  }

  predicate FailsIn(rec: Record, a: Attempt, from: int, to: int) {
    Admitted(rec, a) && !a.success && from <= a.endAt <= to
  }

  /** How many admitted attempts fail within the interval. */
  function FailuresIn(rec: Record, attempts: seq<Attempt>, from: int, to: int): nat
    decreases |attempts|
  {
    if attempts == [] then 0
    else
      (if FailsIn(rec, attempts[0], from, to) then 1 else 0) +
      FailuresIn(AttemptStep(rec, attempts[0]), attempts[1..], from, to)
  }

  predicate NoSuccessIn(attempts: seq<Attempt>, from: int, to: int) {
    forall i :: 0 <= i < |attempts| && attempts[i].success ==> !(from <= attempts[i].endAt <= to)
  }

  lemma {:induction false} FailCallsConcat(a: seq<Call>, b: seq<Call>, from: int, to: int)
    ensures FailCallsIn(a + b, from, to) == FailCallsIn(a, from, to) + FailCallsIn(b, from, to)
    decreases |a|
  {
    if a == [] {
      assert a + b == b;
    } else {
      assert (a + b)[1..] == a[1..] + b;
      FailCallsConcat(a[1..], b, from, to);
    }
  }

  lemma {:induction false} FailuresAreFailCalls(ip: string, rec: Record, attempts: seq<Attempt>, from: int, to: int)
    ensures FailCallsIn(AttemptsCalls(ip, rec, attempts), from, to) == FailuresIn(rec, attempts, from, to)
    decreases |attempts|
  {
    if attempts != [] {
      var first := AttemptCalls(ip, rec, attempts[0]);
      FailuresAreFailCalls(ip, AttemptStep(rec, attempts[0]), attempts[1..], from, to);
      FailCallsConcat(first, AttemptsCalls(ip, AttemptStep(rec, attempts[0]), attempts[1..]), from, to);
      if Admitted(rec, attempts[0]) && !attempts[0].success {
        assert first[1..] == [FailCall(ip, attempts[0].endAt)] && first[1..][1..] == [];
      } else if Admitted(rec, attempts[0]) {
        assert first[1..] == [ResetCall(ip, attempts[0].endAt)] && first[1..][1..] == [];
      }
    }
  }

  // Serial attempts are attempts of which no two overlap.
  lemma {:induction false} SerialAttempts(ip: string, rec: Record, now: int, attempts: seq<Attempt>, from: int, to: int)
    requires InOrder(now, attempts) && NoSuccessIn(attempts, from, to)
    ensures Overlapping(Source(rec, 0, now), AttemptsCalls(ip, rec, attempts), 1)
    ensures NoResetIn(AttemptsCalls(ip, rec, attempts), from, to)
    decreases |attempts|
  {
    hide FailStep;
    if attempts != [] {
      var a, s := attempts[0], Source(rec, 0, now);
      var first, rest := AttemptCalls(ip, rec, a), AttemptsCalls(ip, AttemptStep(rec, a), attempts[1..]);
      NoSuccessLater(attempts, from, to);
      SerialAttempts(ip, AttemptStep(rec, a), a.endAt, attempts[1..], from, to);
      var allow := AllowCall(ip, a.allowAt);
      assert (first + rest)[0] == allow;
      if Admitted(rec, a) {
        assert (first + rest)[1..][0] == first[1] && (first + rest)[1..][1..] == rest;
        assert Take(Take(s, allow), first[1]) == Source(AttemptStep(rec, a), 0, a.endAt);
      } else {
        assert (first + rest)[1..] == rest;
        assert Overlapping(Source(rec, 0, a.endAt), rest, 1);
        EarlierClock(Source(rec, 0, a.endAt), a.allowAt, rest, 1);
      }
    }
  }

  lemma EarlierClock(s: Source, clock: int, calls: seq<Call>, limit: nat)
    requires Overlapping(s, calls, limit) && clock <= s.clock
    ensures Overlapping(s.(clock := clock), calls, limit)
  {
  }

  lemma NoSuccessLater(attempts: seq<Attempt>, from: int, to: int)
    requires attempts != [] && NoSuccessIn(attempts, from, to)
    ensures NoSuccessIn(attempts[1..], from, to)
    ensures attempts[0].success ==> !(from <= attempts[0].endAt <= to)
  {
    var later := attempts[1..];
    forall i | 0 <= i < |later| && later[i].success ensures !(from <= later[i].endAt <= to) {
      assert later[i] == attempts[i + 1];
    }
  }

  /** In every ten-minute interval without a success, at most eight failed attempts of one source
  are admitted if they come one after another, whatever happened before. */
  lemma AtMostEightFailures(rec: Record, now: int, attempts: seq<Attempt>, from: int)
    requires Sound(Source(rec, 0, now)) && InOrder(now, attempts)
    requires NoSuccessIn(attempts, from, from + 600_000_000_000)
    ensures FailuresIn(rec, attempts, from, from + 600_000_000_000) <= 8
  {
    SerialAttempts("", rec, now, attempts, from, from + FAIL_WINDOW);
    FailuresAreBounded(Source(rec, 0, now), AttemptsCalls("", rec, attempts), 1, from);
    FailuresAreFailCalls("", rec, attempts, from, from + FAIL_WINDOW);
  }

  function RecordAfter(rec: Record, attempts: seq<Attempt>): Record
    decreases |attempts|
  {
    if attempts == [] then rec else RecordAfter(AttemptStep(rec, attempts[0]), attempts[1..])
  }

  /** The record an attempt is judged by is the one the limiter holds at that point. */
  lemma {:induction false} AttemptsRunTheLimiter(ip: string, rec: Record, attempts: seq<Attempt>)
    ensures RunOne(rec, AttemptsCalls(ip, rec, attempts)) == RecordAfter(rec, attempts)
    decreases |attempts|
  {
    if attempts != [] {
      var a := attempts[0];
      var first, rest := AttemptCalls(ip, rec, a), AttemptsCalls(ip, AttemptStep(rec, a), attempts[1..]);
      AttemptsRunTheLimiter(ip, AttemptStep(rec, a), attempts[1..]);
      RunOneConcat(rec, first, rest);
      var allow := AllowCall(ip, a.allowAt);
      RunOneCall(rec, allow);
      if Admitted(rec, a) {
        var last := if a.success then ResetCall(ip, a.endAt) else FailCall(ip, a.endAt);
        RunOneConcat(rec, [allow], [last]);
        RunOneCall(RunOne(rec, [allow]), last);
      } else {
        assert first == [allow];
      }
    }
  }

  /** The bound for a limiter that serves many sources at once, as long as the attempts of this one
  do not overlap: the calls of other sources may come anywhere in between. */
  lemma AtMostEightPerSource(calls: seq<Call>, ip: string, start: int, attempts: seq<Attempt>, from: int)
    requires CallsOf(calls, ip) == AttemptsCalls(ip, None, attempts) && InOrder(start, attempts)
    requires NoSuccessIn(attempts, from, from + FAIL_WINDOW)
    ensures FailCallsIn(CallsOf(calls, ip), from, from + FAIL_WINDOW) <= 8
    ensures Lookup(RunAll(map[], calls), ip) == RecordAfter(None, attempts)
  {
    AtMostEightFailures(None, start, attempts, from);
    FailuresAreFailCalls(ip, None, attempts, from, from + FAIL_WINDOW);
    SourcesAreIndependent(map[], calls, ip);
    AttemptsRunTheLimiter(ip, None, attempts);
  }

  // -------------------------------------------------------------------- the lockout

  predicate LockedFrom(rec: Record, windowStart: int, until: int) {
    rec.Some? && rec.value.windowStart == windowStart && rec.value.count >= FAIL_LIMIT
    && rec.value.lockedUntil.Some? && rec.value.lockedUntil.value >= until
  }

  /** The fifth failure of one record locks its source out for fifteen minutes. */
  lemma FifthFailureLocks(rec: Record, now: int)
    requires rec.Some? && rec.value.lockedUntil.None? && rec.value.count == 4
    requires now - rec.value.windowStart <= 600_000_000_000
    ensures LockedFrom(FailStep(rec, now), rec.value.windowStart, now + 900_000_000_000)
  {
  }

  /** A locked-out source whose attempts come one after another is not let in before the time. */
  lemma {:induction false} LockoutRejectsAttempts(rec: Record, windowStart: int, until: int, attempts: seq<Attempt>)
    requires LockedFrom(rec, windowStart, until)
    requires forall i :: 0 <= i < |attempts| ==> attempts[i].allowAt < until
    ensures RecordAfter(rec, attempts) == rec
    ensures forall i :: 0 <= i < |attempts| ==> !Admitted(RecordAfter(rec, attempts[..i]), attempts[i])
    decreases |attempts|
  {
    if attempts != [] {
      LockoutRejectsAttempts(rec, windowStart, until, attempts[1..]);
      forall i | 0 <= i < |attempts| ensures !Admitted(RecordAfter(rec, attempts[..i]), attempts[i]) {
        if i > 0 {
          assert attempts[..i][1..] == attempts[1..][..i - 1] && attempts[i] == attempts[1..][i - 1];
        }
      }
    }
  }

  /** What can lift a lockout early: a success, or a straggler that was let in before the lockout
  and fails when the record's ten-minute window is over. */
  predicate Lifts(windowStart: int, c: Call) {
    c.ResetCall? || (c.FailCall? && c.at - windowStart > FAIL_WINDOW)
  }

  predicate During(c: Call, until: int) {
    until - LOCKOUT <= c.at < until
  }

  lemma {:induction false} LockoutStays(rec: Record, windowStart: int, until: int, calls: seq<Call>)
    requires LockedFrom(rec, windowStart, until)
    requires forall i :: 0 <= i < |calls| ==> During(calls[i], until) && !Lifts(windowStart, calls[i])
    ensures LockedFrom(RunOne(rec, calls), windowStart, until)
  {
    if calls != [] {
      LockoutStays(rec, windowStart, until, calls[..|calls| - 1]);
    }
  }

  /** With overlapping attempts the lockout holds exactly until one of those calls: after any other
  calls of the source the next Allow is refused, after such a call it is admitted. */
  lemma LockoutHoldsExactlyUntil(rec: Record, windowStart: int, until: int, calls: seq<Call>, c: Call, at: int)
    requires LockedFrom(rec, windowStart, until) && at < until
    requires forall i :: 0 <= i < |calls| ==> During(calls[i], until) && !Lifts(windowStart, calls[i])
    requires During(c, until)
    ensures !AllowStep(RunOne(rec, calls), at).allowed
    ensures AllowStep(OneCall(RunOne(rec, calls), c), at).allowed <==> Lifts(windowStart, c)
  {
    LockoutStays(rec, windowStart, until, calls);
  }

  // ------------------------------------------------------- how long a lockout lasts

  lemma {:induction false} TakeAllConcat(s: Source, a: seq<Call>, b: seq<Call>, limit: nat)
    ensures TakeAll(s, a + b) == TakeAll(TakeAll(s, a), b)
    ensures Overlapping(s, a + b, limit) <==> Overlapping(s, a, limit) && Overlapping(TakeAll(s, a), b, limit)
    decreases |a|
  {
    if a == [] {
      assert a + b == b;
    } else {
      assert (a + b)[1..] == a[1..] + b;
      TakeAllConcat(Take(s, a[0]), a[1..], b, limit);
    }
  }

  predicate Locked(rec: Record, until: int) {
    rec.Some? && rec.value.lockedUntil == Some(until)
  }

  /** A locked-out source has no attempt under way; it is so when attempts do not overlap. */
  predicate Quiet(s: Source) {
    s.open >= 0 && (s.rec.Some? && s.rec.value.lockedUntil.Some? ==> s.open == 0)
  }

  lemma {:induction false} SerialIsQuiet(s: Source, calls: seq<Call>)
    requires Quiet(s) && s.open <= 1 && Overlapping(s, calls, 1)
    ensures Quiet(TakeAll(s, calls))
    decreases |calls|
  {
    if calls != [] {
      SerialIsQuiet(Take(s, calls[0]), calls[1..]);
    }
  }

  lemma {:induction false} QuietStaysLocked(s: Source, calls: seq<Call>, until: int)
    requires Locked(s.rec, until) && s.open == 0 && Overlapping(s, calls, 1)
    requires TakeAll(s, calls).clock < until
    ensures TakeAll(s, calls).rec == s.rec && s.clock <= TakeAll(s, calls).clock
    decreases |calls|
  {
    if calls != [] {
      ClockGoesOn(Take(s, calls[0]), calls[1..], 1);
      QuietStaysLocked(Take(s, calls[0]), calls[1..], until);
    }
  }

  lemma {:induction false} ClockGoesOn(s: Source, calls: seq<Call>, limit: nat)
    requires Overlapping(s, calls, limit)
    ensures s.clock <= TakeAll(s, calls).clock
    decreases |calls|
  {
    if calls != [] {
      ClockGoesOn(Take(s, calls[0]), calls[1..], limit);
    }
  }

  // Four failures one after another, then two attempts at once of which the first one fails.
  function LockingRun(ip: string): seq<Call> {
    var a, f := AllowCall(ip, 0), FailCall(ip, 0);
    [a, f, a, f, a, f, a, f] + [a, a, f]
  }

  /** A lockout can end early without any success. Two attempts overlap; the first fails for the
  fifth time and locks the source out, the second fails once the record's ten minutes are over,
  and the next attempt is let in although the fifteen minutes are not. */
  lemma StragglerEndsTheLockout(ip: string)
    ensures
      var calls, straggler := LockingRun(ip), FailCall(ip, FAIL_WINDOW + 1);
      && Overlapping(Idle(0), calls + [straggler], 2)
      && Locked(RunOne(None, calls), LOCKOUT)
      && FAIL_WINDOW + 1 < LOCKOUT && AllowStep(RunOne(None, calls + [straggler]), FAIL_WINDOW + 1).allowed
  {
    var a, f := AllowCall(ip, 0), FailCall(ip, 0);
    var calls, straggler := LockingRun(ip), FailCall(ip, FAIL_WINDOW + 1);
    FourFailures(ip);
    TakeAllConcat(Idle(0), [a, f, a, f, a, f, a, f], [a, a, f], 2);
    FifthOfTwo(ip);
    var t := TakeAll(Idle(0), calls);
    TakeAllConcat(Idle(0), calls, [straggler], 2);
    assert [straggler][1..] == [];
    TakeAllRunsTheLimiter(Idle(0), calls);
    TakeAllRunsTheLimiter(Idle(0), calls + [straggler]);
  }

  lemma TakeTwo(s: Source, c: Call, d: Call, limit: nat)
    ensures TakeAll(s, [c, d]) == Take(Take(s, c), d)
    ensures Overlapping(s, [c, d], limit) <==> May(s, c, limit) && May(Take(s, c), d, limit)
  {
    var t := Take(s, c);
    assert [c, d][1..] == [d] && [d][1..] == [];
    assert TakeAll(t, [d]) == TakeAll(Take(t, d), []) && (Overlapping(t, [d], limit) <==> May(t, d, limit));
  }

  lemma FourFailures(ip: string)
    ensures
      var a, f := AllowCall(ip, 0), FailCall(ip, 0);
      var calls := [a, f, a, f, a, f, a, f];
      Overlapping(Idle(0), calls, 2) && TakeAll(Idle(0), calls) == Source(Some(FailRecord(4, 0, None)), 0, 0)
  {
    var a, f := AllowCall(ip, 0), FailCall(ip, 0);
    var one, two := [a, f], [a, f, a, f];
    var r := FailRecord(1, 0, None);
    TakeTwo(Idle(0), a, f, 2);
    TakeTwo(Source(Some(r), 0, 0), a, f, 2);
    TakeTwo(Source(Some(r.(count := 2)), 0, 0), a, f, 2);
    TakeTwo(Source(Some(r.(count := 3)), 0, 0), a, f, 2);
    assert one + one == two && two + two == [a, f, a, f, a, f, a, f];
    TakeAllConcat(Idle(0), one, one, 2);
    TakeAllConcat(Source(Some(r.(count := 2)), 0, 0), one, one, 2);
    TakeAllConcat(Idle(0), two, two, 2);
  }

  lemma FifthOfTwo(ip: string)
    ensures
      var a, f := AllowCall(ip, 0), FailCall(ip, 0);
      var s := Source(Some(FailRecord(4, 0, None)), 0, 0);
      Overlapping(s, [a, a, f], 2) && TakeAll(s, [a, a, f]) == Source(Some(FailRecord(5, 0, Some(LOCKOUT))), 1, 0)
  {
    var a, f := AllowCall(ip, 0), FailCall(ip, 0);
    var s := Source(Some(FailRecord(4, 0, None)), 0, 0);
    assert [a, a, f][1..] == [a, f];
    TakeTwo(Take(s, a), a, f, 2);
  }

  /** Once locked out, and without a success, a source is not let in before its time. */
  ghost predicate KeepsLockouts(limit: nat) {
    forall clock: int, calls: seq<Call>, more: seq<Call>, until: int, at: int ::
      && Overlapping(Idle(clock), calls + more, limit) && (forall c :: c in more ==> !c.ResetCall?)
      && Locked(TakeAll(Idle(clock), calls).rec, until) && TakeAll(Idle(clock), calls + more).clock <= at < until
      ==> !AllowStep(TakeAll(Idle(clock), calls + more).rec, at).allowed
  }

  /** The fifteen minutes of a lockout are kept in every run exactly when attempts do not overlap. */
  lemma LockoutsAreKeptExactlyWhenSerial(limit: nat)
    ensures KeepsLockouts(limit) <==> limit <= 1
  {
    if limit <= 1 {
      forall clock: int, calls: seq<Call>, more: seq<Call>, until: int, at: int
        | Overlapping(Idle(clock), calls + more, limit)
          && Locked(TakeAll(Idle(clock), calls).rec, until) && TakeAll(Idle(clock), calls + more).clock <= at < until
        ensures !AllowStep(TakeAll(Idle(clock), calls + more).rec, at).allowed
      {
        MoreRoom(Idle(clock), calls + more, limit, 1);
        TakeAllConcat(Idle(clock), calls, more, 1);
        SerialIsQuiet(Idle(clock), calls);
        QuietStaysLocked(TakeAll(Idle(clock), calls), more, until);
      }
    } else {
      var calls, more := LockingRun(""), [FailCall("", FAIL_WINDOW + 1)];
      StragglerEndsTheLockout("");
      MoreRoom(Idle(0), calls + more, 2, limit);
      TakeAllRunsTheLimiter(Idle(0), calls);
      TakeAllRunsTheLimiter(Idle(0), calls + more);
      TakeAllConcat(Idle(0), calls, more, limit);
      assert more[1..] == [];
      assert TakeAll(Idle(0), calls + more).clock == FAIL_WINDOW + 1;
    }
  }
}
