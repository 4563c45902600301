/** The retry loop of CCClient.Send in internal/app/cc.go over the account pool, with the upstream
request as an oracle and one clock reading per step. */
module Failover {
  import opened GoStrings
  import opened GoTime
  import opened Accounts

  /** What the world answers to the attempts of one Send: the upstream's replies, None for a
  success, and the clock at each Acquire, at each RecordSuccess or RecordFailure, and at the end. */
  datatype World = World(reply: nat -> Option<SendError>, acquireAt: nat -> int, recordAt: nat -> int, endAt: int)

  // shouldFailover
  predicate ShouldFailover(err: SendError) {
    match err
    case Canceled => false
    case InvalidRequest(_) => false
    case UpstreamStatus(status, _, _) => status == 401 || status == 403 || status == 429 || status >= 500
    case Transport(_) => true
  }

  datatype SendResult =
    | NoAccounts
    | Served
    | Refused(error: SendError)
    | GaveUp(error: SendError)
    | AllLimited(retryAfter: string)

  function LimitedAnswer(wait: int): SendResult {
    var rounded := if wait >= 0 then RoundToSecond(wait) else 0;
    AllLimited(if rounded > 0 then FormatInt(rounded / SECOND) else "")
  }

  /** What one Send comes to: the answer, the account it is answered with, the pool it leaves, and
  the accounts it tried, in order. */
  datatype Attempted = Attempted(result: SendResult, account: Option<nat>, pool: Pool, tried: seq<nat>)

  datatype LastFailure = LastFailure(account: nat, error: SendError)

  function Update(p: Pool, k: nat, h: Health): Pool
    requires k < |p.healths|
  {
    p.(healths := p.healths[k := h])
  }

  // The attempts from number `attempt` on; `tried` are the accounts of the ones before it.
  function Attempts(p: Pool, w: World, attempt: nat, attempts: nat, tried: seq<nat>,
        last: Option<LastFailure>): Attempted
    decreases attempts - attempt
  {
    if attempt >= attempts then Ended(p, w, tried, last)
    else
      var q := Advance(p);
      match Pick(p, w.acquireAt(attempt))
      case None => Ended(q, w, tried, last)
      case Some(k) =>
        match w.reply(attempt)
        case None =>
          Attempted(Served, Some(k), Update(q, k, AfterSuccess(q.healths[k], w.recordAt(attempt))), tried + [k])
        case Some(err) =>
          var failed := Update(q, k, AfterFailure(q.healths[k], err, w.recordAt(attempt)));
          if !ShouldFailover(err) then Attempted(Refused(err), Some(k), failed, tried + [k])
          else Attempts(failed, w, attempt + 1, attempts, tried + [k], Some(LastFailure(k, err)))
  }

  function Ended(p: Pool, w: World, tried: seq<nat>, last: Option<LastFailure>): Attempted {
    match last
    case Some(f) => Attempted(GaveUp(f.error), Some(f.account), p, tried)
    case None => Attempted(LimitedAnswer(EarliestWait(p.healths, w.endAt)), None, p, tried)
  }

  function Send(p: Pool, w: World): Attempted {
    var attempts := EnabledCount(p.healths);
    if attempts == 0 then Attempted(NoAccounts, None, p, []) else Attempts(p, w, 0, attempts, [], None)
  }

  // -------------------------------------------------------------------- the method

  // Recording on one account, seen from the pool that holds it.
  method Succeed(pool: AccountPool, account: Account, ghost k: nat, now: int)
    requires pool.Valid() && k < |pool.accounts| && pool.accounts[k] == account
    modifies account
    ensures pool.State() == Update(old(pool.State()), k, AfterSuccess(old(pool.State()).healths[k], now))
  {
    ghost var before := pool.Healths();
    account.RecordSuccess(now);
    assert pool.Healths() == before[k := AfterSuccess(before[k], now)];
  }

  method Fail(pool: AccountPool, account: Account, ghost k: nat, err: SendError, now: int)
    requires pool.Valid() && k < |pool.accounts| && pool.accounts[k] == account
    modifies account
    ensures pool.State() == Update(old(pool.State()), k, AfterFailure(old(pool.State()).healths[k], err, now))
  {
    hide AfterFailure;
    ghost var before := pool.Healths();
    account.RecordFailure(err, now);
    assert pool.Healths() == before[k := AfterFailure(before[k], err, now)];
  }

  /** The loop of Send; `tried` lists the accounts it used. */
  method SendRequest(pool: AccountPool, w: World) returns (result: SendResult, acct: Account?, ghost tried: seq<nat>)
    requires pool.Valid()
    modifies pool`cursor, pool.accounts
    ensures pool.Valid() && pool.accounts == old(pool.accounts)
    ensures
      var a := Send(old(pool.State()), w);
      && result == a.result && pool.State() == a.pool && tried == a.tried
      && (acct == null <==> a.account.None?)
      && (acct != null ==> a.account.value < |pool.accounts| && pool.accounts[a.account.value] == acct)
  {
    hide AfterFailure, AfterSuccess, Pick, Advance, EarliestWait, LimitedAnswer, ShouldFailover;
    tried := [];
    acct := null;
    var attempts := pool.CountEnabled();
    if attempts == 0 {
      return NoAccounts, null, [];
    }
    var lastErr: Option<SendError> := None;
    var lastAcct: Account? := null;
    ghost var last: Option<LastFailure> := None;
    var attempt := 0;
    while attempt < attempts
      invariant 0 <= attempt <= attempts
      invariant pool.Valid() && pool.accounts == old(pool.accounts)
      invariant Send(old(pool.State()), w) == Attempts(pool.State(), w, attempt, attempts, tried, last)
      invariant lastErr.Some? <==> last.Some?
      invariant last.Some? ==>
        && lastErr.value == last.value.error
        && last.value.account < |pool.accounts| && pool.accounts[last.value.account] == lastAcct
      decreases attempts - attempt
    {
      ghost var before := pool.State();
      var account := pool.Acquire(w.acquireAt(attempt));
      if account == null {
        break;
      }
      lastAcct := account;
      ghost var k := Pick(before, w.acquireAt(attempt)).value;
      tried := tried + [k];
      var reply := w.reply(attempt);
      if reply.None? {
        Succeed(pool, account, k, w.recordAt(attempt));
        return Served, account, tried;
      }
      Fail(pool, account, k, reply.value, w.recordAt(attempt));
      if !ShouldFailover(reply.value) {
        return Refused(reply.value), account, tried;
      }
      lastErr := reply;
      last := Some(LastFailure(k, reply.value));
      attempt := attempt + 1;
    }
    if lastErr.Some? {
      return GaveUp(lastErr.value), lastAcct, tried;
    }
    var wait := pool.EarliestRateLimitWait(w.endAt);
    result := LimitedAnswer(wait);
  }
}
