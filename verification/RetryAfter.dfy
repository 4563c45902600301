/** How the reset time of an upstream rate limit becomes a Retry-After (internal/app/cc.go) and
then a cooldown (internal/app/accounts.go). */
module RetryAfter {
  import opened GoStrings
  import opened GoTime
  import opened Accounts

  // Integer division of Go, which truncates toward zero.
  function TruncDiv(a: int, b: int): int
    requires b > 0
  {
    if a >= 0 then a / b else -((-a) / b)
  }

  // Conversion of a floating-point number to an integer, which truncates toward zero.
  function Truncate(x: real): int {
    if x >= 0.0 then x.Floor else -((-x).Floor)
  }

  /** The reset time: a positive number of seconds since the epoch, or else the time found in the
  message, if one is. `reset` is the value of the float64 that was decoded; its whole and its
  fractional part are exact, and `round` is what floating-point multiplication makes of the
  product with a second's nanoseconds. */
  function ResetTime(reset: real, round: real -> real, inMessage: Option<int>): Option<int> {
    if reset > 0.0 then
      var seconds := reset.Floor;
      Some(seconds * SECOND + Truncate(round((reset - seconds as real) * SECOND as real)))
    else inMessage
  }

  // Seconds from now to the reset time, rounded up: in int64 nanoseconds, with a saturating Sub.
  function WaitSeconds(resetAt: int, now: int): int {
    TruncDiv(Wrap64(SubTime(resetAt, now) + SECOND - 1), SECOND)
  }

  /** retryAfterFromRateLimit. */
  function FromRateLimit(reset: real, round: real -> real, inMessage: Option<int>, now: int): string {
    match ResetTime(reset, round, inMessage)
    case None => ""
    case Some(resetAt) =>
      if resetAt == ZERO_TIME || resetAt <= now then "" else FormatInt(WaitSeconds(resetAt, now))
  }

  /** The Retry-After of an upstream answer: its own header, or for a 429 without one what its rate
  limit information says. */
  function RetryAfterOf(status: int, header: string, reset: real, round: real -> real, inMessage: Option<int>,
        now: int): string
  {
    if status == 429 && header == "" then FromRateLimit(reset, round, inMessage, now) else header
  }

  /** How far the reset time is from the one the upstream wrote: no further than the error of its
  float64, that of one multiplication, and the nanosecond that truncation may take. */
  lemma ResetTimeIsNear(written: real, reset: real, round: real -> real, decoding: real, product: real,
        inMessage: Option<int>)
    requires reset > 0.0 && product >= 0.0
    requires -decoding <= (reset - written) * SECOND as real <= decoding
    requires forall x: real :: 0.0 <= x <= SECOND as real ==> 0.0 <= round(x) && -product <= round(x) - x <= product
    ensures
      var resetAt := ResetTime(reset, round, inMessage);
      resetAt.Some?
        && -decoding - product - 1.0 < resetAt.value as real - written * SECOND as real <= decoding + product
  {
    var seconds := reset.Floor;
    var x := (reset - seconds as real) * SECOND as real;
    assert 0.0 <= x <= SECOND as real;
    assert round(x) - 1.0 < Truncate(round(x)) as real <= round(x);
    assert x == reset * SECOND as real - (seconds * SECOND) as real;
  }

  /** The seconds are the reset time rounded up to whole seconds from now, exactly when the sum the
  code forms does not leave the range of a Duration. */
  lemma WaitReachesReset(resetAt: int, now: int)
    requires resetAt > now
    ensures
      var s := WaitSeconds(resetAt, now);
      resetAt <= now + s * SECOND < resetAt + SECOND <==> resetAt - now + SECOND - 1 <= INT64_MAX
  {
    var diff := resetAt - now;
    if diff + SECOND - 1 <= INT64_MAX {
      var sum := diff + SECOND - 1;
      assert WaitSeconds(resetAt, now) == sum / SECOND;
      assert sum == (sum / SECOND) * SECOND + sum % SECOND;
    } else {
      assert SubTime(resetAt, now) + SECOND - 1 > INT64_MAX;
      assert Wrap64(SubTime(resetAt, now) + SECOND - 1) < 0;
      assert WaitSeconds(resetAt, now) <= 0;
    }
  }

  /** Where the Retry-After of an upstream answer comes from: its own header whenever it has one; for
  a 429 without one the reset time, the given number if it is positive and else the time in the
  message, and only if it lies ahead; and else nothing. */
  lemma RetryAfterComesFrom(
    status: int, header: string, reset: real, round: real -> real, inMessage: Option<int>, now: int)
    ensures
      var text := RetryAfterOf(status, header, reset, round, inMessage, now);
      && (header != "" ==> text == header)
      && (header == "" && status != 429 ==> text == "")
      && (header == "" && status == 429 && reset <= 0.0 ==>
        text == if inMessage.Some? && inMessage.value != ZERO_TIME && now < inMessage.value
                then FormatInt(WaitSeconds(inMessage.value, now)) else "")
      && (header == "" && status == 429 && reset > 0.0 ==>
        var resetAt := reset.Floor * 1_000_000_000 + Truncate(round((reset - reset.Floor as real) * 1_000_000_000.0));
        text == if resetAt != ZERO_TIME && now < resetAt then FormatInt(WaitSeconds(resetAt, now)) else "")
  {
    hide FormatInt, WaitSeconds, Truncate;
  }

  // ---------------------------------------------------------- honouring the reset

  lemma CooldownOfSeconds(s: int)
    requires 0 < s && s * SECOND <= INT64_MAX
    ensures Cooldown(FormatInt(s)) == s * SECOND
  {
    AtoiOfFormatInt(s);
  }

  // An account that fails with a 429 whose reset time is in range is not used before that time.
  lemma CooldownReachesReset(h: Health, resetAt: int, now: int, later: int, message: string)
    requires resetAt > now && resetAt - now + SECOND - 1 <= INT64_MAX && later >= now
    ensures
      var err := UpstreamStatus(429, FormatInt(WaitSeconds(resetAt, now)), message);
      AfterFailure(h, err, later).limitedUntil >= resetAt
  {
    WaitReachesReset(resetAt, now);
    var s := WaitSeconds(resetAt, now);
    var sum := resetAt - now + SECOND - 1;
    assert s == sum / SECOND && s * SECOND <= sum;
    CooldownOfSeconds(s);
  }

  /** What can happen to the pool afterwards. */
  datatype PoolStep =
    | Acquiring(at: int)
    | Succeeding(account: nat, at: int)
    | Failing(account: nat, err: SendError, at: int)

  function StepPool(p: Pool, step: PoolStep): Pool {
    match step
    case Acquiring(_) => Advance(p)
    case Succeeding(k, at) =>
      if k < |p.healths| then p.(healths := p.healths[k := AfterSuccess(p.healths[k], at)]) else p
    case Failing(k, err, at) =>
      if k < |p.healths| then p.(healths := p.healths[k := AfterFailure(p.healths[k], err, at)]) else p
  }

  function RunPool(p: Pool, steps: seq<PoolStep>): Pool {
    if steps == [] then p else StepPool(RunPool(p, steps[..|steps| - 1]), steps[|steps| - 1])
  }

  // A later 429 of the same account rewrites its cooldown.
  predicate Rewrites(step: PoolStep, k: nat) {
    step.Failing? && step.account == k && step.err.UpstreamStatus? && step.err.status == 429
  }

  lemma {:induction false} CooldownStays(p: Pool, k: nat, steps: seq<PoolStep>)
    requires k < |p.healths|
    requires forall i :: 0 <= i < |steps| ==> !Rewrites(steps[i], k)
    ensures |RunPool(p, steps).healths| == |p.healths|
    ensures RunPool(p, steps).healths[k].limitedUntil == p.healths[k].limitedUntil
  {
    hide Cooldown, ErrorText;
    if steps != [] {
      CooldownStays(p, k, steps[..|steps| - 1]);
    }
  }

  /** Upstream reset times are honoured. An account fails with a 429 that has no Retry-After header
  and a reset time in range; the failure is recorded at a clock reading no earlier than the one
  the wait was computed with. Then, whatever happens to the pool except another 429 of that
  account, Acquire does not return it before the reset time. */
  lemma ResetTimesAreHonoured(
    p: Pool, k: nat, reset: real, round: real -> real, inMessage: Option<int>, now: int, later: int, message: string,
    steps: seq<PoolStep>, t: int)
    requires k < |p.healths| && later >= now
    requires ResetTime(reset, round, inMessage).Some?
    requires
      var resetAt := ResetTime(reset, round, inMessage).value;
      resetAt != ZERO_TIME && now < resetAt && resetAt - now + SECOND - 1 <= INT64_MAX && t < resetAt
    requires forall i :: 0 <= i < |steps| ==> !Rewrites(steps[i], k)
    ensures
      var err := UpstreamStatus(429, RetryAfterOf(429, "", reset, round, inMessage, now), message);
      Pick(RunPool(StepPool(p, Failing(k, err, later)), steps), t) != Some(k)
  {
    hide AfterFailure, Cooldown, ErrorText, WaitSeconds, FormatInt, ResetTime;
    var resetAt := ResetTime(reset, round, inMessage).value;
    var err := UpstreamStatus(429, RetryAfterOf(429, "", reset, round, inMessage, now), message);
    CooldownReachesReset(p.healths[k], resetAt, now, later, message);
    CooldownStays(StepPool(p, Failing(k, err, later)), k, steps);
  }

  // ------------------------------------------- honoured exactly when it is in range

  /** Beyond the range the sum wraps, the Retry-After is not positive, and the default minute takes
  its place. */
  lemma CooldownBeyondRange(resetAt: int, now: int)
    requires resetAt - now + SECOND - 1 > INT64_MAX
    ensures Cooldown(FormatInt(WaitSeconds(resetAt, now))) == DEFAULT_COOLDOWN
  {
    hide FormatInt, Atoi;
    var s := WaitSeconds(resetAt, now);
    var wrapped := Wrap64(SubTime(resetAt, now) + SECOND - 1);
    assert INT64_MIN <= wrapped < 0;
    assert INT64_MIN <= s <= 0 by { TruncatedNegative(wrapped); }
    AtoiOfFormatInt(s);
  }

  lemma TruncatedNegative(n: int)
    requires n < 0
    ensures n <= TruncDiv(n, SECOND) <= 0
  {
  }

  /** The cooldown of one account reaches the reset time exactly when the reset time is in range,
  unless the default minute reaches it anyway. */
  lemma CooldownReachesExactlyWhen(h: Health, resetAt: int, now: int, later: int, message: string)
    requires now <= later && later + DEFAULT_COOLDOWN < resetAt
    ensures
      var err := UpstreamStatus(429, FormatInt(WaitSeconds(resetAt, now)), message);
      AfterFailure(h, err, later).limitedUntil >= resetAt <==> resetAt - now + SECOND - 1 <= INT64_MAX
  {
    hide WaitSeconds, FormatInt, Cooldown, ErrorText;
    if resetAt - now + SECOND - 1 <= INT64_MAX {
      CooldownReachesReset(h, resetAt, now, later, message);
    } else {
      CooldownBeyondRange(resetAt, now);
    }
  }

  /** Whatever happens to the pool, except another 429 of that account, Acquire does not return it
  before the given time. */
  ghost predicate NotUsedBefore(p: Pool, k: nat, until: int) {
    forall steps: seq<PoolStep>, t: int :: t < until && NoRewrite(steps, k) ==> Pick(RunPool(p, steps), t) != Some(k)
  }

  predicate NoRewrite(steps: seq<PoolStep>, k: nat) {
    forall i :: 0 <= i < |steps| ==> !Rewrites(steps[i], k)
  }

  // The other accounts hit their limits, one after another.
  function OthersFail(k: nat, n: nat, at: int): seq<PoolStep> {
    if n == 0 then []
    else OthersFail(k, n - 1, at) + if n - 1 == k then [] else [Failing(n - 1, UpstreamStatus(429, "", ""), at)]
  }

  lemma LimitedForAMinute(h: Health, at: int)
    ensures !Eligible(AfterFailure(h, UpstreamStatus(429, "", ""), at), at)
  {
  }

  lemma {:induction false} OthersAreLimited(p: Pool, k: nat, n: nat, at: int)
    requires k < |p.healths| && n <= |p.healths|
    ensures NoRewrite(OthersFail(k, n, at), k)
    ensures
      var q := RunPool(p, OthersFail(k, n, at));
      && |q.healths| == |p.healths| && q.healths[k] == p.healths[k]
      && forall i :: 0 <= i < n && i != k ==> !Eligible(q.healths[i], at)
  {
    hide AfterFailure, Eligible, RunPool, StepPool;
    if n == 0 {
      RunNothing(p);
    } else {
      OthersAreLimited(p, k, n - 1, at);
      var before := OthersFail(k, n - 1, at);
      if n - 1 == k {
        assert OthersFail(k, n, at) == before;
      } else {
        var q, err := RunPool(p, before), UpstreamStatus(429, "", "");
        RunOneMore(p, before, Failing(n - 1, err, at));
        FailingAt(q, n - 1, err, at);
        LimitedForAMinute(q.healths[n - 1], at);
      }
    }
  }

  lemma RunNothing(p: Pool)
    ensures RunPool(p, []) == p
  {
  }

  lemma RunOneMore(p: Pool, steps: seq<PoolStep>, step: PoolStep)
    ensures RunPool(p, steps + [step]) == StepPool(RunPool(p, steps), step)
  {
    assert (steps + [step])[..|steps|] == steps;
  }

  lemma FailingAt(p: Pool, k: nat, err: SendError, at: int)
    requires k < |p.healths|
    ensures StepPool(p, Failing(k, err, at)).healths == p.healths[k := AfterFailure(p.healths[k], err, at)]
  {
  }

  // An account is returned once it is the only one that is eligible.
  lemma UsedWhenCooldownEnds(p: Pool, k: nat, until: int)
    requires k < |p.healths| && p.healths[k].enabled && p.healths[k].limitedUntil < until
    ensures !NotUsedBefore(p, k, until)
  {
    hide RunPool;
    var n, t := |p.healths|, p.healths[k].limitedUntil;
    var steps := OthersFail(k, n, t);
    OthersAreLimited(p, k, n, t);
    PickMeaning(RunPool(p, steps), t);
    assert Eligible(RunPool(p, steps).healths[k], t);
    assert Pick(RunPool(p, steps), t) == Some(k);
  }

  lemma NotUsedWhileCooling(p: Pool, k: nat, until: int)
    requires k < |p.healths| && p.healths[k].limitedUntil >= until
    ensures NotUsedBefore(p, k, until)
  {
    forall steps: seq<PoolStep>, t: int | t < until && NoRewrite(steps, k)
      ensures Pick(RunPool(p, steps), t) != Some(k)
    {
      CooldownStays(p, k, steps);
    }
  }

  /** When an upstream reset time keeps an account from being used before it: an enabled account fails
  with a 429 that has no Retry-After header, more than the default minute before the reset time.
  It is left alone until then, whatever happens to the pool except another 429 of it, exactly when
  the sum the code forms is in the range of a Duration. */
  lemma ResetIsHonouredExactlyWhen(
    p: Pool, k: nat, reset: real, round: real -> real, inMessage: Option<int>, now: int, later: int, message: string)
    requires k < |p.healths| && p.healths[k].enabled
    requires ResetTime(reset, round, inMessage).Some?
    requires
      var resetAt := ResetTime(reset, round, inMessage).value;
      resetAt != ZERO_TIME && now <= later && later + DEFAULT_COOLDOWN < resetAt
    ensures
      var resetAt := ResetTime(reset, round, inMessage).value;
      var err := UpstreamStatus(429, RetryAfterOf(429, "", reset, round, inMessage, now), message);
      NotUsedBefore(StepPool(p, Failing(k, err, later)), k, resetAt) <==> resetAt - now + SECOND - 1 <= INT64_MAX
  {
    hide Cooldown, ErrorText, WaitSeconds, FormatInt, ResetTime, NotUsedBefore, Pick;
    var resetAt := ResetTime(reset, round, inMessage).value;
    var err := UpstreamStatus(429, RetryAfterOf(429, "", reset, round, inMessage, now), message);
    var q := StepPool(p, Failing(k, err, later));
    CooldownReachesExactlyWhen(p.healths[k], resetAt, now, later, message);
    if q.healths[k].limitedUntil >= resetAt {
      NotUsedWhileCooling(q, k, resetAt);
    } else {
      UsedWhenCooldownEnds(q, k, resetAt);
    }
  }
}
