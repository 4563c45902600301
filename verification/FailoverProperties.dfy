/** What rotation and failover promise. */
module FailoverProperties {
  import opened GoStrings
  import opened GoTime
  import opened Accounts
  import opened Failover

  predicate Distinct(s: seq<nat>) {
    forall i, j :: 0 <= i < j < |s| ==> s[i] != s[j]
  }

  // ------------------------------------------------------------ counting accounts

  function EnabledSet(healths: seq<Health>): set<nat> {
    set k: nat | k < |healths| && healths[k].enabled
  }

  lemma {:induction false} EnabledCountIsSize(healths: seq<Health>)
    ensures EnabledCount(healths) == |EnabledSet(healths)|
  {
    if healths != [] {
      var n := |healths| - 1;
      EnabledCountIsSize(healths[..n]);
      assert EnabledSet(healths) == EnabledSet(healths[..n]) + if healths[n].enabled then {n} else {};
    }
  }

  function Elements(s: seq<nat>): set<nat> {
    set x | x in s
  }

  lemma {:induction false} DistinctSize(s: seq<nat>)
    requires Distinct(s)
    ensures |Elements(s)| == |s|
  {
    if s != [] {
      var n := |s| - 1;
      DistinctSize(s[..n]);
      assert s == s[..n] + [s[n]];
      assert Elements(s) == Elements(s[..n]) + {s[n]};
      assert s[n] !in s[..n];
    }
  }

  lemma SameSizeSubset(a: set<nat>, b: set<nat>)
    requires a <= b && |a| == |b|
    ensures a == b
  {
    assert b == a + (b - a);
  }

  // As many distinct enabled accounts as there are enabled ones are all of them.
  lemma AllEnabledAreTried(healths: seq<Health>, tried: seq<nat>)
    requires Distinct(tried) && |tried| >= EnabledCount(healths)
    requires forall t :: t in tried ==> t < |healths| && healths[t].enabled
    ensures forall k :: 0 <= k < |healths| && healths[k].enabled ==> k in tried
  {
    EnabledCountIsSize(healths);
    DistinctSize(tried);
    assert Elements(tried) <= EnabledSet(healths);
    SubsetSize(Elements(tried), EnabledSet(healths));
    SameSizeSubset(Elements(tried), EnabledSet(healths));
    forall k | 0 <= k < |healths| && healths[k].enabled ensures k in tried {
      assert k in EnabledSet(healths);
    }
  }

  lemma SubsetSize(a: set<nat>, b: set<nat>)
    requires a <= b
    ensures |a| <= |b|
  {
    assert b == a + (b - a);
  }

  // ------------------------------------------------------------ how a Send ends

  /** A failure that no other account would avoid: the caller is gone, the request is invalid, or the
  upstream turned it down for a reason that is neither the account's nor the upstream's own. */
  predicate Hopeless(e: SendError) {
    || e.Canceled? || e.InvalidRequest?
    || (e.UpstreamStatus? && e.status < 500 && e.status !in [401, 403, 429])
  }

  predicate Within(tried: seq<nat>, n: nat) {
    forall i :: 0 <= i < |tried| ==> tried[i] < n
  }

  /** The accounts after some attempts, each of which is recorded on the account it used. */
  function Recorded(healths: seq<Health>, w: World, tried: seq<nat>): (r: seq<Health>)
    requires Within(tried, |healths|)
    ensures |r| == |healths|
  {
    if tried == [] then healths
    else
      var n := |tried| - 1;
      var before := Recorded(healths, w, tried[..n]);
      var k := tried[n];
      before[k := match w.reply(n)
                  case None => AfterSuccess(before[k], w.recordAt(n))
                  case Some(e) => AfterFailure(before[k], e, w.recordAt(n))]
  }

  predicate NobodyEligible(healths: seq<Health>, now: int) {
    forall k :: 0 <= k < |healths| ==> !Eligible(healths[k], now)
  }

  // All attempts so far failed in a way that another account might avoid.
  predicate FailedSoFar(w: World, n: int) {
    forall i :: 0 <= i < n ==> w.reply(i).Some? && !Hopeless(w.reply(i).value)
  }

  /** How a Send that makes at most so many attempts may end. Every attempt but the last failed, and
  not hopelessly; the last one decides the answer; and a Send gives up only when its attempts are
  used up or nobody is eligible. */
  ghost predicate Ending(healths: seq<Health>, w: World, a: Attempted, attempts: nat) {
    var n := |a.tried|;
    && n <= attempts && FailedSoFar(w, n - 1)
    && Within(a.tried, |healths|) && a.pool.healths == Recorded(healths, w, a.tried)
    && (a.result.Served? <==> n > 0 && w.reply(n - 1).None?)
    && (a.result.Refused? <==> n > 0 && w.reply(n - 1).Some? && Hopeless(w.reply(n - 1).value))
    && (a.result.GaveUp? <==> n > 0 && w.reply(n - 1).Some? && !Hopeless(w.reply(n - 1).value))
    && (a.result.Refused? || a.result.GaveUp? ==> a.result.error == w.reply(n - 1).value)
    && (a.account == if n > 0 then Some(a.tried[n - 1]) else None)
    && (n == 0 || a.result.GaveUp? ==> n == attempts || NobodyEligible(a.pool.healths, w.acquireAt(n)))
    && (n == 0 ==> a.result == LimitedAnswer(EarliestWait(healths, w.endAt)))
  }

  // The attempts so far, and what the loop remembers of them.
  ghost predicate SoFar(healths: seq<Health>, p: Pool, w: World, tried: seq<nat>, last: Option<LastFailure>) {
    var n := |tried|;
    && FailedSoFar(w, n) && Within(tried, |healths|) && p.healths == Recorded(healths, w, tried)
    && last == if n > 0 then Some(LastFailure(tried[n - 1], w.reply(n - 1).value)) else None
  }

  lemma EndedAs(healths: seq<Health>, p: Pool, w: World, attempts: nat, tried: seq<nat>, last: Option<LastFailure>)
    requires |tried| <= attempts && SoFar(healths, p, w, tried, last)
    requires |tried| == attempts || NobodyEligible(p.healths, w.acquireAt(|tried|))
    ensures Ending(healths, w, Ended(p, w, tried, last), attempts)
  {
    hide Eligible, EarliestWait, FormatInt, RoundToSecond, Hopeless;
  }

  lemma RecordedOneMore(healths: seq<Health>, w: World, tried: seq<nat>, k: nat)
    requires Within(tried, |healths|) && k < |healths|
    ensures Within(tried + [k], |healths|)
    ensures
      var before, n := Recorded(healths, w, tried), |tried|;
      Recorded(healths, w, tried + [k]) == before[k :=
        match w.reply(n)
        case None => AfterSuccess(before[k], w.recordAt(n))
        case Some(e) => AfterFailure(before[k], e, w.recordAt(n))]
  {
    assert (tried + [k])[..|tried|] == tried;
  }

  lemma LastAttempt(
    healths: seq<Health>, p: Pool, w: World, attempts: nat, tried: seq<nat>, last: Option<LastFailure>, k: nat)
    requires |tried| < attempts && SoFar(healths, p, w, tried, last) && k < |healths|
    ensures
      var n := |tried|;
      match w.reply(n)
      case None =>
        var served := Update(Advance(p), k, AfterSuccess(p.healths[k], w.recordAt(n)));
        Ending(healths, w, Attempted(Served, Some(k), served, tried + [k]), attempts)
      case Some(e) =>
        var failed := Update(Advance(p), k, AfterFailure(p.healths[k], e, w.recordAt(n)));
        && (Hopeless(e) ==> Ending(healths, w, Attempted(Refused(e), Some(k), failed, tried + [k]), attempts))
        && (!Hopeless(e) ==> SoFar(healths, failed, w, tried + [k], Some(LastFailure(k, e))))
  {
    hide AfterFailure, AfterSuccess, Hopeless, Recorded;
    RecordedOneMore(healths, w, tried, k);
  }

  lemma MovesOn(e: SendError)
    ensures ShouldFailover(e) <==> !Hopeless(e)
  {
  }

  lemma {:induction false} AttemptsEnd(
    healths: seq<Health>, p: Pool, w: World, attempts: nat, tried: seq<nat>, last: Option<LastFailure>)
    requires |tried| <= attempts && SoFar(healths, p, w, tried, last)
    ensures Ending(healths, w, Attempts(p, w, |tried|, attempts, tried, last), attempts)
    decreases attempts - |tried|
  {
    hide AfterFailure, AfterSuccess, Pick, Ended, Update, Advance, Ending, ShouldFailover, Hopeless, Eligible, SoFar;
    var n := |tried|;
    SameAccounts(healths, p, w, tried, last);
    if n == attempts {
      EndedAs(healths, p, w, attempts, tried, last);
    } else {
      PickMeaning(p, w.acquireAt(n));
      match Pick(p, w.acquireAt(n)) {
        case None => EndedAs(healths, Advance(p), w, attempts, tried, last);
        case Some(k) =>
          LastAttempt(healths, p, w, attempts, tried, last, k);
          if w.reply(n).Some? {
            var err := w.reply(n).value;
            MovesOn(err);
            if !Hopeless(err) {
              AttemptsEnd(healths, Update(Advance(p), k, AfterFailure(p.healths[k], err, w.recordAt(n))), w, attempts,
                tried + [k], Some(LastFailure(k, err)));
            }
          }
      }
    }
  }

  // Moving the cursor changes nothing that the attempts depend on.
  lemma SameAccounts(healths: seq<Health>, p: Pool, w: World, tried: seq<nat>, last: Option<LastFailure>)
    requires SoFar(healths, p, w, tried, last)
    ensures |p.healths| == |healths| && Advance(p).healths == p.healths && SoFar(healths, Advance(p), w, tried, last)
  {
  }

  /** How every Send ends, read off the replies of the upstream. */
  lemma SendEndsAs(p: Pool, w: World)
    ensures
      var attempts := EnabledCount(p.healths);
      if attempts == 0 then Send(p, w) == Attempted(NoAccounts, None, p, [])
      else Ending(p.healths, w, Send(p, w), attempts)
  {
    hide Attempts, Ending;
    if EnabledCount(p.healths) > 0 {
      AttemptsEnd(p.healths, p, w, EnabledCount(p.healths), [], None);
    }
  }

  // ------------------------------------------------------- failing over on 429 only

  /** The clock does not run backwards during the attempts. */
  predicate ClockInOrder(w: World, attempts: nat) {
    && (forall k :: 0 <= k < attempts ==> w.acquireAt(k) <= w.recordAt(k))
    && (forall k, j :: 0 <= k < j < attempts ==> w.recordAt(k) <= w.acquireAt(j))
  }

  predicate Limit(reply: Option<SendError>) {
    reply.Some? && reply.value.UpstreamStatus? && reply.value.status == 429
  }

  /** Every failure is a 429. */
  predicate OnlyLimits(w: World, attempts: nat) {
    forall k :: 0 <= k < attempts && w.reply(k).Some? ==> Limit(w.reply(k))
  }

  /** No later Acquire happens when a cooldown set during this Send is over. */
  predicate NoCooldownEnds(w: World, attempts: nat) {
    forall k, j :: 0 <= k < j < attempts && Limit(w.reply(k)) ==>
      w.acquireAt(j) < w.recordAt(k) + Cooldown(w.reply(k).value.retryAfter)
  }

  // After some attempts: the tried accounts are cooling for the rest of the Send, the others are
  // as they were at entry.
  ghost predicate Progress(p0: Pool, p: Pool, w: World, attempt: nat, attempts: nat, tried: seq<nat>) {
    && |p.healths| == |p0.healths| && |tried| == attempt && Distinct(tried)
    && (forall k :: 0 <= k < |p.healths| ==> p.healths[k].enabled == p0.healths[k].enabled)
    && (forall t :: t in tried ==> t < |p.healths| && p.healths[t].enabled)
    && (forall t, j :: t in tried && attempt <= j < attempts ==> w.acquireAt(j) < p.healths[t].limitedUntil)
    && (forall k :: 0 <= k < |p.healths| && k !in tried ==> p.healths[k] == p0.healths[k])
  }

  lemma ProgressStep(p0: Pool, p: Pool, w: World, attempt: nat, attempts: nat, tried: seq<nat>, k: nat)
    requires Progress(p0, p, w, attempt, attempts, tried) && attempt < attempts
    requires NoCooldownEnds(w, attempts) && Limit(w.reply(attempt))
    requires k < |p.healths| && Eligible(p.healths[k], w.acquireAt(attempt))
    ensures
      var failed := Update(Advance(p), k, AfterFailure(p.healths[k], w.reply(attempt).value, w.recordAt(attempt)));
      Progress(p0, failed, w, attempt + 1, attempts, tried + [k])
  {
    hide Cooldown, ErrorText;
  }

  lemma {:induction false} LimitedAttempts(p0: Pool, p: Pool, w: World, attempt: nat, attempts: nat, tried: seq<nat>,
        last: Option<LastFailure>)
    requires attempts == EnabledCount(p0.healths) && attempt <= attempts
    requires ClockInOrder(w, attempts) && OnlyLimits(w, attempts) && NoCooldownEnds(w, attempts)
    requires Progress(p0, p, w, attempt, attempts, tried)
    ensures
      var a := Attempts(p, w, attempt, attempts, tried, last);
      && Distinct(a.tried)
      && (!a.result.Served? ==>
        forall k :: 0 <= k < |p0.healths| && Eligible(p0.healths[k], w.acquireAt(0)) ==> k in a.tried)
    decreases attempts - attempt
  {
    hide EnabledCount, Cooldown, EarliestWait, Scan, AfterFailure, AfterSuccess;
    if attempt == attempts {
      AllEnabledAreTried(p0.healths, tried);
    } else {
      PickMeaning(p, w.acquireAt(attempt));
      match Pick(p, w.acquireAt(attempt)) {
        case None =>
          forall k | 0 <= k < |p0.healths| && Eligible(p0.healths[k], w.acquireAt(0)) ensures k in tried {
            assert w.acquireAt(0) <= w.acquireAt(attempt);
            assert !Eligible(p.healths[k], w.acquireAt(attempt));
          }
        case Some(k) =>
          assert k !in tried;
          if w.reply(attempt).Some? {
            ProgressStep(p0, p, w, attempt, attempts, tried, k);
            var failed := Update(Advance(p), k,
              AfterFailure(p.healths[k], w.reply(attempt).value, w.recordAt(attempt)));
            LimitedAttempts(p0, failed, w, attempt + 1, attempts, tried + [k],
              Some(LastFailure(k, w.reply(attempt).value)));
          }
      }
    }
  }

  /** If every failure of one Send is a 429, and no cooldown it sets ends while it runs, then its
  attempts go to pairwise distinct accounts, and it returns an error only after it has tried
  every account that was eligible when it began. */
  lemma SendTriesEveryEligibleAccountOnce(p: Pool, w: World)
    requires
      var attempts := EnabledCount(p.healths);
      ClockInOrder(w, attempts) && OnlyLimits(w, attempts) && NoCooldownEnds(w, attempts)
    ensures
      var a := Send(p, w);
      && Distinct(a.tried)
      && (!a.result.Served? ==>
        forall k :: 0 <= k < |p.healths| && Eligible(p.healths[k], w.acquireAt(0)) ==> k in a.tried)
  {
    var attempts := EnabledCount(p.healths);
    if attempts == 0 {
      AllEnabledAreTried(p.healths, []);
    } else {
      LimitedAttempts(p, p, w, 0, attempts, [], None);
    }
  }

  // ---------------------------------------------------------------- places in a round

  /** The accounts from place `from` on, going round. */
  function Rotation(from: nat, n: nat, len: nat): (r: seq<nat>)
    requires n > 0
    ensures |r| == len && forall i :: 0 <= i < len ==> r[i] == Place(from, i, n)
  {
    seq(len, i requires i >= 0 => Place(from, i, n))
  }

  lemma DistinctPlaces(from: nat, n: nat, i: nat, j: nat)
    requires i < j < i + n
    ensures Place(from, i, n) != Place(from, j, n)
  {
    var x, y := from + i, from + j;
    var d := y / n - x / n;
    assert d * n == (y / n) * n - (x / n) * n;
    assert d * n == (y - x) - (y % n - x % n);
    MultipleIsBig(d, n);
  }

  lemma {:induction false} RotationCountOne(from: nat, n: nat, x: nat)
    requires x < n
    ensures multiset(Rotation(from, n, n))[x] == 1
  {
    var r := Rotation(from, n, n);
    forall i, j | 0 <= i < j < n ensures r[i] != r[j] {
      DistinctPlaces(from, n, i, j);
    }
    var j := PlaceOnRound(from % n, n, x);
    PlaceModulo(from, j, n);
    assert r[j] == x;
    OnceInDistinct(r, j);
  }

  lemma PlaceModulo(from: nat, j: nat, n: nat)
    requires n > 0
    ensures Place(from % n, j, n) == Place(from, j, n)
  {
    var s := from % n + j;
    QuotientAndRest(from, n);
    QuotientAndRest(s, n);
    AddQuotients(from / n, s / n, n, from % n, j, s % n);
    Remainder(s % n, n, from / n + s / n);
  }

  lemma QuotientAndRest(x: nat, n: nat)
    requires n > 0
    ensures x == (x / n) * n + x % n
  {
  }

  lemma AddQuotients(p: nat, q: nat, n: nat, r: nat, j: nat, k: nat)
    requires r + j == q * n + k
    ensures p * n + r + j == k + (p + q) * n
  {
    assert (p + q) * n == p * n + q * n;
  }

  lemma OnceInDistinct(s: seq<nat>, j: nat)
    requires Distinct(s) && j < |s|
    ensures multiset(s)[s[j]] == 1
  {
    assert s == s[..j] + [s[j]] + s[j + 1..];
    assert s[j] !in s[..j] && s[j] !in s[j + 1..];
  }

  predicate AllEligible(p: Pool, now: int) {
    forall k :: 0 <= k < |p.healths| ==> Eligible(p.healths[k], now)
  }

  lemma PickWhenAllEligible(p: Pool, now: int)
    requires p.healths != [] && Eligible(p.healths[Place(p.cursor, 0, |p.healths|)], now)
    ensures Pick(p, now) == Some(Place(p.cursor, 0, |p.healths|))
  {
    PlaceModulo(p.cursor, 0, |p.healths|);
  }

  // Moving on by one and looking `i` places ahead.
  lemma PlaceAhead(from: nat, i: nat, n: nat)
    requires n > 0
    ensures Place(from + 1, i, n) == Place(from, i + 1, n)
  {
    assert from + 1 + i == from + (i + 1);
  }

  lemma AdvanceWithoutWrap(p: Pool)
    requires p.healths != [] && p.cursor + 1 < CURSOR_SIZE
    ensures Advance(p) == p.(cursor := p.cursor + 1)
  {
  }

  // ------------------------------------------------- failing over every time

  predicate AlwaysFailsOver(w: World, attempts: nat) {
    forall k :: 0 <= k < attempts ==> w.reply(k).Some? && ShouldFailover(w.reply(k).value)
  }

  // After some attempts of a full round: the cursor has moved along, and the places still to come
  // are as they were.
  ghost predicate OnRound(p0: Pool, p: Pool, attempt: nat, tried: seq<nat>)
    requires p0.healths != []
  {
    var n := |p0.healths|;
    && |p.healths| == n && tried == Rotation(p0.cursor, n, attempt)
    && (attempt < n ==> p.cursor == p0.cursor + attempt)
    && (forall m :: attempt <= m < n ==> p.healths[Place(p0.cursor, m, n)] == p0.healths[Place(p0.cursor, m, n)])
  }

  lemma RoundStep(p0: Pool, p: Pool, attempt: nat, tried: seq<nat>, h: Health)
    requires p0.healths != [] && p0.cursor + |p0.healths| <= CURSOR_SIZE
    requires attempt < |p0.healths| && OnRound(p0, p, attempt, tried)
    ensures
      var k := Place(p0.cursor, attempt, |p0.healths|);
      OnRound(p0, Update(Advance(p), k, h), attempt + 1, tried + [k])
  {
    var n := |p0.healths|;
    forall m | attempt + 1 <= m < n ensures Place(p0.cursor, m, n) != Place(p0.cursor, attempt, n) {
      DistinctPlaces(p0.cursor, n, attempt, m);
    }
  }

  lemma {:induction false} RoundAttempts(p0: Pool, p: Pool, w: World, attempt: nat, tried: seq<nat>,
        last: Option<LastFailure>)
    requires p0.healths != [] && p0.cursor + |p0.healths| <= CURSOR_SIZE
    requires attempt <= |p0.healths| && OnRound(p0, p, attempt, tried)
    requires AllEligible(p0, w.acquireAt(0)) && ClockInOrder(w, |p0.healths|) && AlwaysFailsOver(w, |p0.healths|)
    requires last.Some? <==> attempt > 0
    ensures
      var n := |p0.healths|;
      var a := Attempts(p, w, attempt, n, tried, last);
      a.tried == Rotation(p0.cursor, n, n) && a.result.GaveUp?
    decreases |p0.healths| - attempt
  {
    hide AfterFailure, AfterSuccess, ShouldFailover, Scan, Eligible, EarliestWait;
    var n := |p0.healths|;
    if attempt < n {
      var k, now := Place(p0.cursor, attempt, n), w.acquireAt(attempt);
      assert Place(p.cursor, 0, n) == k;
      assert w.acquireAt(0) <= now;
      StaysEligible(p0, w.acquireAt(0), now, k);
      PickWhenAllEligible(p, now);
      var err := w.reply(attempt).value;
      var h := AfterFailure(p.healths[k], err, w.recordAt(attempt));
      RoundStep(p0, p, attempt, tried, h);
      RoundAttempts(p0, Update(Advance(p), k, h), w, attempt + 1, tried + [k], Some(LastFailure(k, err)));
    }
  }

  lemma StaysEligible(p: Pool, now: int, later: int, k: nat)
    requires AllEligible(p, now) && now <= later && k < |p.healths|
    ensures Eligible(p.healths[k], later)
  {
  }

  /** A Send that begins with all accounts eligible and fails over every time, for whatever mix of
  reasons, visits every account exactly once, in cyclic order, before it gives up. */
  lemma SendVisitsEachAccountOnce(p: Pool, w: World, x: nat)
    requires x < |p.healths| && p.cursor + |p.healths| <= CURSOR_SIZE
    requires AllEligible(p, w.acquireAt(0)) && ClockInOrder(w, |p.healths|) && AlwaysFailsOver(w, |p.healths|)
    ensures
      var a := Send(p, w);
      && a.result.GaveUp? && a.tried == Rotation(p.cursor, |p.healths|, |p.healths|)
      && multiset(a.tried)[x] == 1
  {
    var n := |p.healths|;
    AllEnabledCount(p.healths);
    assert Rotation(p.cursor, n, 0) == [];
    RoundAttempts(p, p, w, 0, [], None);
    RotationCountOne(p.cursor, n, x);
  }

  lemma {:induction false} AllEnabledCount(healths: seq<Health>)
    requires forall k :: 0 <= k < |healths| ==> healths[k].enabled
    ensures EnabledCount(healths) == |healths|
  {
    if healths != [] {
      AllEnabledCount(healths[..|healths| - 1]);
    }
  }

  // ----------------------------------------- which pools a failing Send goes round

  // Pools with the same eligible accounts are picked from alike.
  lemma {:induction false} ScanSame(a: seq<Health>, b: seq<Health>, start: nat, i: nat, now: int, later: int)
    requires |a| == |b| && i <= |a|
    requires forall k :: 0 <= k < |a| ==> (Eligible(a[k], now) <==> Eligible(b[k], later))
    ensures Scan(a, start, i, now) == Scan(b, start, i, later)
    decreases |a| - i
  {
    hide Eligible;
    if i < |a| {
      ScanSame(a, b, start, i + 1, now, later);
    }
  }

  // The accounts picked at consecutive places of the cursor while eligibility stays what it is.
  function Picks(p: Pool, now: int, len: nat): (r: seq<nat>)
    requires exists k :: 0 <= k < |p.healths| && Eligible(p.healths[k], now)
    ensures |r| == len && forall i :: 0 <= i < len ==> Some(r[i]) == Pick(p.(cursor := p.cursor + i), now)
  {
    if len == 0 then []
    else
      PickMeaning(p.(cursor := p.cursor + len - 1), now);
      Picks(p, now, len - 1) + [Pick(p.(cursor := p.cursor + len - 1), now).value]
  }

  /** Every enabled account is eligible. */
  predicate NoneCooling(p: Pool, now: int) {
    forall k :: 0 <= k < |p.healths| && p.healths[k].enabled ==> Eligible(p.healths[k], now)
  }

  /** No failure is a 429, so no cooldown begins. */
  predicate NoLimits(w: World, attempts: nat) {
    forall k :: 0 <= k < attempts ==> !Limit(w.reply(k))
  }

  // The pool some attempts later: nothing that decides eligibility has changed.
  predicate SameHealth(p0: Pool, p: Pool) {
    && |p.healths| == |p0.healths|
    && forall k :: 0 <= k < |p.healths| ==>
      p.healths[k].enabled == p0.healths[k].enabled && p.healths[k].limitedUntil == p0.healths[k].limitedUntil
  }

  lemma FailureKeepsHealth(p0: Pool, p: Pool, k: nat, err: SendError, now: int)
    requires SameHealth(p0, p) && k < |p.healths| && !Limit(Some(err))
    ensures SameHealth(p0, Update(Advance(p), k, AfterFailure(p.healths[k], err, now)))
  {
    hide ErrorText;
  }

  lemma {:induction false} SteadyAttempts(p0: Pool, p: Pool, w: World, attempt: nat, attempts: nat,
        last: Option<LastFailure>)
    requires attempt <= attempts && p0.cursor + attempts <= CURSOR_SIZE
    requires exists k :: 0 <= k < |p0.healths| && Eligible(p0.healths[k], w.acquireAt(0))
    requires NoneCooling(p0, w.acquireAt(0)) && ClockInOrder(w, attempts)
    requires AlwaysFailsOver(w, attempts) && NoLimits(w, attempts)
    requires SameHealth(p0, p) && (attempt < attempts ==> p.cursor == p0.cursor + attempt)
    requires last.Some? <==> attempt > 0
    ensures
      var a := Attempts(p, w, attempt, attempts, Picks(p0, w.acquireAt(0), attempt), last);
      a.tried == Picks(p0, w.acquireAt(0), attempts) && (attempts > 0 ==> a.result.GaveUp?)
    decreases attempts - attempt
  {
    hide AfterFailure, AfterSuccess, ShouldFailover, Pick, EarliestWait, SameHealth, NoneCooling;
    if attempt < attempts {
      var start, now := w.acquireAt(0), w.acquireAt(attempt);
      PickSame(p0, p, w, attempt, attempts);
      var tried := Picks(p0, start, attempt);
      var k := Pick(p, now).value;
      assert Picks(p0, start, attempt + 1) == tried + [k];
      var err := w.reply(attempt).value;
      FailureKeepsHealth(p0, p, k, err, w.recordAt(attempt));
      assert Limit(w.reply(attempt)) == Limit(Some(err));
      var failed := Update(Advance(p), k, AfterFailure(p.healths[k], err, w.recordAt(attempt)));
      if attempt + 1 < attempts {
        AdvanceWithoutWrap(p);
      }
      SteadyAttempts(p0, failed, w, attempt + 1, attempts, Some(LastFailure(k, err)));
    }
  }

  lemma PickSame(p0: Pool, p: Pool, w: World, attempt: nat, attempts: nat)
    requires attempt < attempts && SameHealth(p0, p) && p.cursor == p0.cursor + attempt
    requires exists k :: 0 <= k < |p0.healths| && Eligible(p0.healths[k], w.acquireAt(0))
    requires NoneCooling(p0, w.acquireAt(0)) && ClockInOrder(w, attempts)
    ensures Pick(p, w.acquireAt(attempt)).Some?
    ensures Pick(p, w.acquireAt(attempt)) == Pick(p0.(cursor := p0.cursor + attempt), w.acquireAt(0))
  {
    var start, now := w.acquireAt(0), w.acquireAt(attempt);
    assert start <= now by { ClockAt(w, attempt, attempts); }
    ScanSame(p0.healths, p.healths, p.cursor % |p.healths|, 0, start, now);
    PickMeaning(p0.(cursor := p0.cursor + attempt), start);
  }

  lemma ClockAt(w: World, attempt: nat, attempts: nat)
    requires attempt < attempts && ClockInOrder(w, attempts)
    ensures w.acquireAt(0) <= w.acquireAt(attempt)
  {
    if attempt > 0 {
      assert w.acquireAt(0) <= w.recordAt(0) <= w.acquireAt(attempt);
    }
  }

  // A scan that begins one place later finds the same account, if it does not begin with it.
  lemma {:induction false} ScanShift(healths: seq<Health>, start: nat, i: nat, now: int)
    requires i < |healths| && Scan(healths, start, i + 1, now).Some?
    ensures Scan(healths, Place(start, 1, |healths|), i, now) == Scan(healths, start, i + 1, now)
    decreases |healths| - i
  {
    hide Eligible;
    var n := |healths|;
    PlaceModulo(start + 1, i, n);
    PlaceAhead(start, i, n);
    if i + 1 < n && !Eligible(healths[Place(start, i + 1, n)], now) {
      ScanShift(healths, start, i + 1, now);
    }
  }

  // A disabled account at the cursor is passed over, and its successor is picked in its stead.
  lemma PassedOver(p: Pool, now: int)
    requires exists k :: 0 <= k < |p.healths| && Eligible(p.healths[k], now)
    requires !Eligible(p.healths[Place(p.cursor, 0, |p.healths|)], now)
    ensures Pick(p, now) == Pick(p.(cursor := p.cursor + 1), now)
  {
    hide Eligible;
    var n, start := |p.healths|, p.cursor % |p.healths|;
    PickMeaning(p, now);
    PlaceModulo(p.cursor, 0, n);
    PlaceModulo(p.cursor, 1, n);
    assert Scan(p.healths, start, 0, now) == Scan(p.healths, start, 1, now);
    ScanShift(p.healths, start, 0, now);
  }

  lemma {:induction false} SizeDistinct(s: seq<nat>)
    requires |Elements(s)| == |s|
    ensures Distinct(s)
  {
    if s != [] {
      var n := |s| - 1;
      assert s == s[..n] + [s[n]];
      assert Elements(s) == Elements(s[..n]) + {s[n]};
      ElementsSize(s[..n]);
      SizeDistinct(s[..n]);
      forall i, j | 0 <= i < j < |s| ensures s[i] != s[j] {
        if j < n {
          assert s[..n][i] != s[..n][j];
        } else {
          assert s[i] in s[..n];
        }
      }
    }
  }

  lemma {:induction false} ElementsSize(s: seq<nat>)
    ensures |Elements(s)| <= |s|
  {
    if s != [] {
      var n := |s| - 1;
      ElementsSize(s[..n]);
      assert s == s[..n] + [s[n]];
      assert Elements(s) == Elements(s[..n]) + {s[n]};
    }
  }

  // As many attempts as there are enabled accounts are distinct exactly when they reach them all.
  lemma DistinctReachesAll(healths: seq<Health>, tried: seq<nat>)
    requires |tried| == EnabledCount(healths)
    requires forall t :: t in tried ==> t < |healths| && healths[t].enabled
    ensures Distinct(tried) <==> forall k :: 0 <= k < |healths| && healths[k].enabled ==> k in tried
  {
    if Distinct(tried) {
      AllEnabledAreTried(healths, tried);
    } else if forall k :: 0 <= k < |healths| && healths[k].enabled ==> k in tried {
      EnabledCountIsSize(healths);
      assert Elements(tried) == EnabledSet(healths);
      SizeDistinct(tried);
    }
  }

  /** The first `len` accounts from the cursor on are enabled. */
  predicate EnabledFromCursor(p: Pool, len: int) {
    forall i :: 0 <= i < len && p.healths != [] ==> p.healths[Place(p.cursor, i, |p.healths|)].enabled
  }

  // While the accounts at the cursor are enabled, the picks go along with it.
  lemma PicksGoAlong(p: Pool, now: int, len: nat, i: nat)
    requires exists k :: 0 <= k < |p.healths| && Eligible(p.healths[k], now)
    requires NoneCooling(p, now) && i < len && p.healths[Place(p.cursor, i, |p.healths|)].enabled
    ensures Picks(p, now, len)[i] == Place(p.cursor, i, |p.healths|)
  {
    var q := p.(cursor := p.cursor + i);
    assert Place(q.cursor, 0, |q.healths|) == Place(p.cursor, i, |p.healths|);
    PickWhenAllEligible(q, now);
  }

  // A pick goes no further than to an eligible account `x` places ahead.
  lemma PickWithin(p: Pool, now: int, x: nat) returns (j: nat)
    requires x < |p.healths| && Eligible(p.healths[Place(p.cursor, x, |p.healths|)], now)
    ensures j <= x && Pick(p, now) == Some(Place(p.cursor, j, |p.healths|))
  {
    hide Eligible;
    var n, start := |p.healths|, p.cursor % |p.healths|;
    PickMeaning(p, now);
    PlaceModulo(p.cursor, x, n);
    j :| FirstAt(p.healths, start, 0, j, Pick(p, now).value, now);
    PlaceModulo(p.cursor, j, n);
  }

  // The last pick of a round does not fall back on an account that was picked before.
  lemma LastPickIsNew(p: Pool, now: int, m: nat, i: nat)
    requires m == EnabledCount(p.healths) && NoneCooling(p, now) && EnabledFromCursor(p, m - 1) && i + 1 < m
    ensures Pick(p.(cursor := p.cursor + m - 1), now) != Some(Place(p.cursor, i, |p.healths|))
  {
    hide Place, EnabledCount, EnabledFromCursor, Pick;
    var n, from := |p.healths|, p.cursor + (m - 1);
    var x := RemainingAccount(p, m);
    PlaceFurther(p.cursor, m - 1, x - (m - 1), n);
    var j := PickWithin(p.(cursor := from), now, x - (m - 1));
    PlaceFurther(p.cursor, m - 1, j, n);
    DistinctPlaces(p.cursor, n, i, m - 1 + j);
  }

  lemma PlaceFurther(from: nat, d: nat, i: nat, n: nat)
    requires n > 0
    ensures Place(from + d, i, n) == Place(from, d + i, n)
  {
    assert from + d + i == from + (d + i);
  }

  // One enabled account lies beyond the first m - 1 places from the cursor on.
  lemma RemainingAccount(p: Pool, m: nat) returns (x: nat)
    requires m == EnabledCount(p.healths) && m >= 1 && EnabledFromCursor(p, m - 1)
    ensures m - 1 <= x < |p.healths| && p.healths[Place(p.cursor, x, |p.healths|)].enabled
  {
    var n := |p.healths|;
    var first := Rotation(p.cursor, n, m - 1);
    EnabledCountIsSize(p.healths);
    ElementsSize(first);
    Outsider(EnabledSet(p.healths), Elements(first));
    var k :| k in EnabledSet(p.healths) && k !in Elements(first);
    x := PlaceOnRound(p.cursor % n, n, k);
    PlaceModulo(p.cursor, x, n);
    forall i | 0 <= i < m - 1 ensures Place(p.cursor, i, n) != k {
      assert first[i] in Elements(first);
    }
  }

  lemma Outsider(a: set<nat>, b: set<nat>)
    requires |b| < |a|
    ensures exists k :: k in a && k !in b
  {
    if a <= b {
      SubsetSize(a, b);
    }
  }

  // An account at the cursor that is disabled leaves the same account to two attempts.
  lemma PickedTwice(p: Pool, now: int, m: nat, i: nat)
    requires exists k :: 0 <= k < |p.healths| && Eligible(p.healths[k], now)
    requires i + 1 < m && !p.healths[Place(p.cursor, i, |p.healths|)].enabled
    ensures Picks(p, now, m)[i] == Picks(p, now, m)[i + 1]
  {
    hide Pick, Picks;
    var q := p.(cursor := p.cursor + i);
    PlaceFurther(p.cursor, i, 0, |p.healths|);
    PassedOver(q, now);
    assert q.(cursor := q.cursor + 1) == p.(cursor := p.cursor + (i + 1));
  }

  lemma PickedOnce(p: Pool, now: int, m: nat, i: nat, j: nat)
    requires m == EnabledCount(p.healths) && NoneCooling(p, now) && EnabledFromCursor(p, m - 1) && i < j < m
    requires exists k :: 0 <= k < |p.healths| && Eligible(p.healths[k], now)
    ensures Picks(p, now, m)[i] != Picks(p, now, m)[j]
  {
    hide Pick, Picks, Place, NoneCooling, EnabledCount;
    PicksGoAlong(p, now, m, i);
    if j < m - 1 {
      PicksGoAlong(p, now, m, j);
      DistinctPlaces(p.cursor, |p.healths|, i, j);
    } else {
      LastPickIsNew(p, now, m, i);
      assert p.cursor + m - 1 == p.cursor + j;
    }
  }

  lemma PicksDistinctExactlyWhen(p: Pool, now: int, m: nat)
    requires m == EnabledCount(p.healths) && NoneCooling(p, now)
    requires exists k :: 0 <= k < |p.healths| && Eligible(p.healths[k], now)
    ensures Distinct(Picks(p, now, m)) <==> EnabledFromCursor(p, m - 1)
  {
    hide Pick, Picks, Place, NoneCooling, EnabledCount;
    var picks := Picks(p, now, m);
    if EnabledFromCursor(p, m - 1) {
      forall i, j | 0 <= i < j < m ensures picks[i] != picks[j] {
        PickedOnce(p, now, m, i, j);
      }
    } else {
      var i :| 0 <= i < m - 1 && !p.healths[Place(p.cursor, i, |p.healths|)].enabled;
      PickedTwice(p, now, m, i);
    }
  }

  /** When a failing Send goes round all its accounts. All enabled accounts are eligible when it
  begins, every attempt fails over, and no failure is a 429. Then it makes as many attempts as
  there are enabled accounts, m; and they go to m different accounts, that is, to all of them,
  exactly when the m - 1 accounts from the cursor on are enabled. */
  lemma SendVisitsAllExactlyWhen(p: Pool, w: World)
    requires p.cursor + EnabledCount(p.healths) <= CURSOR_SIZE && NoneCooling(p, w.acquireAt(0))
    requires
      var m := EnabledCount(p.healths);
      ClockInOrder(w, m) && AlwaysFailsOver(w, m) && NoLimits(w, m)
    ensures
      var m, tried := EnabledCount(p.healths), Send(p, w).tried;
      && |tried| == m
      && (Distinct(tried) <==> EnabledFromCursor(p, m - 1))
      && (Distinct(tried) <==> forall k :: 0 <= k < |p.healths| && p.healths[k].enabled ==> k in tried)
  {
    hide Send, Eligible, EnabledFromCursor, AlwaysFailsOver, NoLimits, ClockInOrder, Pick;
    var m, now := EnabledCount(p.healths), w.acquireAt(0);
    if m > 0 {
      SteadySend(p, w);
      PicksDistinctExactlyWhen(p, now, m);
      PicksAreEnabled(p, now, m);
      DistinctReachesAll(p.healths, Picks(p, now, m));
    } else {
      NothingToSend(p, w);
      DistinctReachesAll(p.healths, []);
    }
  }

  lemma NothingToSend(p: Pool, w: World)
    requires EnabledCount(p.healths) == 0
    ensures Send(p, w).tried == [] && Distinct([]) && EnabledFromCursor(p, -1)
  {
  }

  lemma PicksAreEnabled(p: Pool, now: int, len: nat)
    requires exists k :: 0 <= k < |p.healths| && Eligible(p.healths[k], now)
    ensures forall t :: t in Picks(p, now, len) ==> t < |p.healths| && p.healths[t].enabled
  {
    hide Scan;
    var picks := Picks(p, now, len);
    forall t | t in picks ensures t < |p.healths| && p.healths[t].enabled {
      var i :| 0 <= i < len && picks[i] == t;
      assert Some(t) == Pick(p.(cursor := p.cursor + i), now);
    }
  }

  lemma SteadySend(p: Pool, w: World)
    requires p.cursor + EnabledCount(p.healths) <= CURSOR_SIZE && NoneCooling(p, w.acquireAt(0))
    requires
      var m := EnabledCount(p.healths);
      m > 0 && ClockInOrder(w, m) && AlwaysFailsOver(w, m) && NoLimits(w, m)
    ensures exists k :: 0 <= k < |p.healths| && Eligible(p.healths[k], w.acquireAt(0))
    ensures Send(p, w).tried == Picks(p, w.acquireAt(0), EnabledCount(p.healths))
  {
    var m, now := EnabledCount(p.healths), w.acquireAt(0);
    var x := SomeEnabled(p.healths);
    assert Eligible(p.healths[x], now);
    assert Picks(p, now, 0) == [];
    hide EnabledCount, Eligible;
    SteadyAttempts(p, p, w, 0, m, None);
  }

  lemma SomeEnabled(healths: seq<Health>) returns (k: nat)
    requires EnabledCount(healths) > 0
    ensures k < |healths| && healths[k].enabled
  {
    EnabledCountIsSize(healths);
    k :| k in EnabledSet(healths);
  }

  /** With a disabled account between enabled ones this fails: one account can be tried twice and
  another, eligible all the time, not at all. */
  lemma DisabledAccountsSkewTheRotation()
    ensures exists p: Pool, w: World ::
      && ClockInOrder(w, EnabledCount(p.healths)) && AlwaysFailsOver(w, EnabledCount(p.healths))
      && Send(p, w).tried == [2, 2] && |p.healths| == 3 && Eligible(p.healths[0], w.acquireAt(0))
  {
    var on := Health("a", "k", true, 0, "", ZERO_TIME, ZERO_TIME, ZERO_TIME, 0);
    var off := on.(enabled := false);
    var p := Pool([on, off, on], 1);
    var err := UpstreamStatus(500, "", "");
    var w := World(_ => Some(err), _ => 0, _ => 0, 0);
    SkewedCount(on, off);
    assert Pick(p, 0) == Some(2) by {
      assert Place(1, 0, 3) == 1 && Place(1, 1, 3) == 2 && p.cursor % 3 == 1;
      assert Scan(p.healths, 1, 1, 0) == Some(2);
      assert Scan(p.healths, 1, 0, 0) == Scan(p.healths, 1, 1, 0);
    }
    var q := Update(Advance(p), 2, AfterFailure(on, err, 0));
    assert q.healths == [on, off, AfterFailure(on, err, 0)] && q.cursor == 2;
    assert Place(2, 0, 3) == 2;
    assert Pick(q, 0) == Some(2);
    var r := Update(Advance(q), 2, AfterFailure(q.healths[2], err, 0));
    var last := Some(LastFailure(2, err));
    assert Attempts(r, w, 2, 2, [2, 2], last).tried == [2, 2];
    assert [2] + [2] == [2, 2] && [] + [2] == [2];
    assert Attempts(q, w, 1, 2, [2], last) == Attempts(r, w, 2, 2, [2, 2], last);
    assert Attempts(p, w, 0, 2, [], None) == Attempts(q, w, 1, 2, [2], last);
    assert Send(p, w).tried == [2, 2];
  }

  lemma SkewedCount(on: Health, off: Health)
    requires on.enabled && !off.enabled
    ensures EnabledCount([on, off, on]) == 2
  {
    var three := [on, off, on];
    assert three[..2] == [on, off] && [on, off][..1] == [on] && [on][..0] == [];
    assert EnabledCount([on]) == 1 && EnabledCount([on, off]) == 1;
  }

  // ---------------------------------------------------------------- fair rotation

  /** What consecutive Acquire calls return at the given times. */
  function AcquireRun(p: Pool, times: seq<int>): seq<Option<nat>>
    decreases |times|
  {
    if times == [] then [] else [Pick(p, times[0])] + AcquireRun(Advance(p), times[1..])
  }

  function Chosen(picks: seq<Option<nat>>): seq<nat>
    requires forall i :: 0 <= i < |picks| ==> picks[i].Some?
  {
    seq(|picks|, i requires 0 <= i < |picks| => picks[i].value)
  }

  /** The same accounts are eligible at all the given times as at `now`, and one is. */
  predicate Steady(p: Pool, times: seq<int>, now: int) {
    && (exists k :: 0 <= k < |p.healths| && Eligible(p.healths[k], now))
    && forall i, k ::
      0 <= i < |times| && 0 <= k < |p.healths| ==> (Eligible(p.healths[k], times[i]) <==> Eligible(p.healths[k], now))
  }

  lemma SteadyLater(p: Pool, times: seq<int>, now: int)
    requires Steady(p, times, now) && times != []
    ensures Steady(Advance(p), times[1..], now) && Pick(p, times[0]) == Pick(p, now) && Pick(p, now).Some?
  {
    var later, q := times[1..], Advance(p);
    forall i, k | 0 <= i < |later| && 0 <= k < |q.healths|
      ensures Eligible(q.healths[k], later[i]) <==> Eligible(q.healths[k], now)
    {
      assert later[i] == times[i + 1];
    }
    PickMeaning(p, now);
    ScanSame(p.healths, p.healths, p.cursor % |p.healths|, 0, times[0], now);
  }

  // How often `x` is picked from `len` consecutive places of the cursor.
  function Hits(p: Pool, now: int, from: nat, len: nat, x: nat): nat
    decreases len
  {
    if len == 0 then 0
    else (if Pick(p.(cursor := from), now) == Some(x) then 1 else 0) + Hits(p, now, from + 1, len - 1, x)
  }

  lemma {:induction false} RunHits(p: Pool, times: seq<int>, now: int, x: nat)
    requires Steady(p, times, now) && p.cursor + |times| <= CURSOR_SIZE
    ensures |AcquireRun(p, times)| == |times|
    ensures forall i :: 0 <= i < |times| ==> AcquireRun(p, times)[i].Some?
    ensures multiset(Chosen(AcquireRun(p, times)))[x] == Hits(p, now, p.cursor, |times|, x)
    decreases |times|
  {
    hide Steady, Pick, Advance;
    if times == [] {
      assert Chosen(AcquireRun(p, times)) == [];
    } else {
      SteadyLater(p, times, now);
      var pick, rest := Pick(p, now), AcquireRun(Advance(p), times[1..]);
      if |times| > 1 {
        AdvanceOnce(p, now, x, |times| - 1);
        RunHits(Advance(p), times[1..], now, x);
      } else {
        assert times[1..] == [];
      }
      assert AcquireRun(p, times) == [pick] + rest;
      assert Chosen(AcquireRun(p, times)) == [pick.value] + Chosen(rest);
      assert p.(cursor := p.cursor) == p;
    }
  }

  lemma AdvanceOnce(p: Pool, now: int, x: nat, len: nat)
    requires p.healths != [] && p.cursor + 1 < CURSOR_SIZE
    ensures Advance(p).cursor == p.cursor + 1
    ensures Hits(Advance(p), now, p.cursor + 1, len, x) == Hits(p, now, p.cursor + 1, len, x)
  {
    AdvanceWithoutWrap(p);
    SameHits(p, Advance(p), now, p.cursor + 1, len, x);
  }

  lemma {:induction false} SameHits(p: Pool, q: Pool, now: int, from: nat, len: nat, x: nat)
    requires p.healths == q.healths
    ensures Hits(p, now, from, len, x) == Hits(q, now, from, len, x)
    decreases len
  {
    if len > 0 {
      assert p.(cursor := from) == q.(cursor := from);
      SameHits(p, q, now, from + 1, len - 1, x);
    }
  }

  lemma {:induction false} HitsSplit(p: Pool, now: int, from: nat, a: nat, b: nat, x: nat)
    ensures Hits(p, now, from, a + b, x) == Hits(p, now, from, a, x) + Hits(p, now, from + a, b, x)
    decreases a
  {
    hide Pick;
    if a > 0 {
      HitsSplit(p, now, from + 1, a - 1, b, x);
    }
  }

  // One round later the cursor is at the same account.
  lemma RoundLater(p: Pool, now: int, from: nat)
    requires p.healths != []
    ensures Pick(p.(cursor := from + |p.healths|), now) == Pick(p.(cursor := from), now)
  {
    var n := |p.healths|;
    QuotientAndRest(from, n);
    Remainder(from % n, n, from / n + 1);
    assert from + n == from % n + (from / n + 1) * n;
  }

  // A round hits `x` equally often wherever it begins.
  lemma {:induction false} AnyRound(p: Pool, now: int, from: nat, x: nat)
    requires p.healths != []
    ensures Hits(p, now, from, |p.healths|, x) == Hits(p, now, 0, |p.healths|, x)
    decreases from
  {
    hide Pick;
    var n := |p.healths|;
    if from > 0 {
      AnyRound(p, now, from - 1, x);
      RoundLater(p, now, from - 1);
      HitsSplit(p, now, from - 1, 1, n - 1, x);
      HitsSplit(p, now, from, n - 1, 1, x);
      assert Hits(p, now, from - 1, 1, x) == Hits(p, now, from - 1 + n, 1, x);
    }
  }

  lemma {:induction false} Rounds(p: Pool, now: int, from: nat, k: nat, x: nat)
    requires p.healths != []
    ensures Hits(p, now, from, k * |p.healths|, x) == k * Hits(p, now, 0, |p.healths|, x)
    decreases k
  {
    hide Pick, Hits;
    var n := |p.healths|;
    if k == 0 {
      NoHits(p, now, from, x);
    } else {
      var once := Hits(p, now, 0, n, x);
      assert k * n == n + (k - 1) * n;
      assert k * once == once + (k - 1) * once;
      HitsSplit(p, now, from, n, (k - 1) * n, x);
      AnyRound(p, now, from, x);
      Rounds(p, now, from + n, k - 1, x);
    }
  }

  lemma NoHits(p: Pool, now: int, from: nat, x: nat)
    ensures Hits(p, now, from, 0, x) == 0
  {
  }

  // The account `g` places before `x`.
  function Behind(x: nat, g: nat, n: nat): (k: nat)
    requires x < n && g <= n
    ensures k < n
  {
    Place(x + n - g, 0, n)
  }

  // How many accounts in a row, from `g` places before `x` on backwards, are not eligible.
  function GapFrom(healths: seq<Health>, now: int, x: nat, g: nat): nat
    requires x < |healths|
    decreases |healths| - g
  {
    if g >= |healths| || Eligible(healths[Behind(x, g, |healths|)], now) then 0
    else 1 + GapFrom(healths, now, x, g + 1)
  }

  /** The number of accounts directly before `x` in cyclic order that are not eligible. */
  function Gap(healths: seq<Health>, now: int, x: nat): nat
    requires x < |healths|
  {
    GapFrom(healths, now, x, 1)
  }

  lemma {:induction false} GapMeaning(healths: seq<Health>, now: int, x: nat, g: nat)
    requires x < |healths| && 1 <= g <= |healths|
    ensures
      var n, end := |healths|, g + GapFrom(healths, now, x, g);
      && end <= n
      && (end < n ==> Eligible(healths[Behind(x, end, n)], now))
      && (forall d :: g <= d < end ==> !Eligible(healths[Behind(x, d, n)], now))
    decreases |healths| - g
  {
    hide Eligible, Behind;
    if g < |healths| {
      GapMeaning(healths, now, x, g + 1);
    }
  }

  // From within the gap before it, `x` is picked.
  lemma {:induction false} PickWithinGap(p: Pool, now: int, x: nat, g: nat)
    requires x < |p.healths| && g <= Gap(p.healths, now, x) && Eligible(p.healths[x], now)
    ensures g < |p.healths| && Pick(p.(cursor := x + |p.healths| - g), now) == Some(x)
    decreases g
  {
    hide Eligible, Place, GapFrom, Pick;
    var n := |p.healths|;
    GapMeaning(p.healths, now, x, 1);
    var q := p.(cursor := x + n - g);
    if g == 0 {
      AtItself(x, n);
      PickWhenAllEligible(q, now);
    } else {
      PickWithinGap(p, now, x, g - 1);
      assert !Eligible(p.healths[Behind(x, g, n)], now);
      PassedOver(q, now);
    }
  }

  // From further back the account at the far end of the gap comes first.
  lemma PickBeyondGap(p: Pool, now: int, x: nat, g: nat)
    requires x < |p.healths| && Gap(p.healths, now, x) < g < |p.healths|
    ensures Pick(p.(cursor := x + |p.healths| - g), now) != Some(x)
  {
    hide Eligible, Place, GapFrom, Pick;
    var n, end := |p.healths|, Gap(p.healths, now, x) + 1;
    var from := x + n - g;
    GapMeaning(p.healths, now, x, 1);
    PlaceFurther(from, g - end, 0, n);
    assert Place(from, g - end, n) == Behind(x, end, n);
    var j := PickWithin(p.(cursor := from), now, g - end);
    PlaceFurther(from, g, 0, n);
    AtItself(x, n);
    DistinctPlaces(from, n, j, g);
  }

  lemma AtItself(x: nat, n: nat)
    requires x < n
    ensures Place(x + n, 0, n) == x
  {
    Remainder(x, n, 1);
  }

  lemma {:induction false} HitsBefore(p: Pool, now: int, x: nat, g: nat)
    requires x < |p.healths| && g < |p.healths| && Eligible(p.healths[x], now)
    ensures
      var gap := Gap(p.healths, now, x);
      Hits(p, now, x + |p.healths| - g, g + 1, x) == 1 + if g <= gap then g else gap
    decreases g
  {
    hide Pick, Gap, Eligible;
    if g <= Gap(p.healths, now, x) {
      PickWithinGap(p, now, x, g);
    } else {
      PickBeyondGap(p, now, x, g);
    }
    if g == 0 {
      NoHits(p, now, x + |p.healths| + 1, x);
    } else {
      HitsBefore(p, now, x, g - 1);
    }
  }

  /** How the rotation shares out. While the same accounts stay eligible and the cursor does not
  wrap around, k times n consecutive Acquire calls over n accounts return an eligible account k
  times for itself and k times for every account directly before it that is not eligible. */
  lemma AcquireSharesExactly(p: Pool, times: seq<int>, now: int, k: nat, x: nat)
    requires x < |p.healths| && |times| == k * |p.healths| && p.cursor + |times| <= CURSOR_SIZE
    requires Steady(p, times, now) && Eligible(p.healths[x], now)
    ensures |AcquireRun(p, times)| == |times|
    ensures forall i :: 0 <= i < |times| ==> AcquireRun(p, times)[i].Some?
    ensures multiset(Chosen(AcquireRun(p, times)))[x] == k * (1 + Gap(p.healths, now, x))
  {
    hide Steady, Gap, Hits, Eligible, AcquireRun;
    var n, gap := |p.healths|, Gap(p.healths, now, x);
    RunHits(p, times, now, x);
    Rounds(p, now, p.cursor, k, x);
    AnyRound(p, now, x + n - (n - 1), x);
    HitsBefore(p, now, x, n - 1);
    GapIsShort(p.healths, now, x);
  }

  lemma GapIsShort(healths: seq<Health>, now: int, x: nat)
    requires x < |healths|
    ensures Gap(healths, now, x) < |healths|
  {
    GapMeaning(healths, now, x, 1);
  }

  /** Rotation is fair when all n accounts are eligible throughout: any k times n consecutive
  Acquire calls return every account exactly k times. */
  lemma AcquireIsFair(p: Pool, times: seq<int>, k: nat, x: nat)
    requires x < |p.healths| && |times| == k * |p.healths| && p.cursor + |times| <= CURSOR_SIZE
    requires forall i :: 0 <= i < |times| ==> AllEligible(p, times[i])
    ensures |AcquireRun(p, times)| == |times|
    ensures forall i :: 0 <= i < |times| ==> AcquireRun(p, times)[i].Some?
    ensures multiset(Chosen(AcquireRun(p, times)))[x] == k
  {
    if k == 0 {
      assert times == [];
    } else {
      assert |times| >= 1 by { MultipleIsBig(k, |p.healths|); }
      var now := times[0];
      assert AllEligible(p, now);
      forall i, j | 0 <= i < |times| && 0 <= j < |p.healths|
        ensures Eligible(p.healths[j], times[i]) <==> Eligible(p.healths[j], now)
      {
        assert AllEligible(p, times[i]);
      }
      assert Eligible(p.healths[x], now);
      AcquireSharesExactly(p, times, now, k, x);
    }
  }

  /** The Retry-After of the answer "all accounts are rate limited" is the wait rounded to the
  nearest second, and left out when that is zero. */
  lemma LimitedAnswerIsNearest(wait: int)
    requires 0 <= wait <= INT64_MAX - SECOND
    ensures
      var text := LimitedAnswer(wait).retryAfter;
      if 2 * wait < SECOND then text == ""
      else Atoi(text).Some? && -SECOND <= 2 * (Atoi(text).value * SECOND - wait) <= SECOND
  {
    hide Atoi, FormatInt;
    var rounded := RoundToSecond(wait);
    var r := wait % SECOND;
    assert wait == (wait / SECOND) * SECOND + r;
    assert rounded % SECOND == 0;
    assert rounded == (rounded / SECOND) * SECOND;
    AtoiOfFormatInt(rounded / SECOND);
  }
}
