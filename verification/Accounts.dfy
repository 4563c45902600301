/** The account pool of internal/app/accounts.go: round-robin over accounts with cooldowns.

Times are nanoseconds since the Unix epoch. Every method takes the clock reading it works with as
an argument. */
module Accounts {
  import opened GoStrings
  import opened GoTime

  const DEFAULT_COOLDOWN: int := 60 * SECOND

  const CURSOR_SIZE: nat := 0x1_0000_0000_0000_0000

  datatype SendError =
    | Canceled
    | InvalidRequest(message: string)
    | UpstreamStatus(status: int, retryAfter: string, message: string)
    | Transport(message: string)

  /** One account's credential and its health. */
  datatype Health = Health(
    id: string, apiKey: string, enabled: bool, errors: nat, lastError: string,
    lastErrorAt: int, lastUsedAt: int, limitedUntil: int, authFailures: nat)

  function ErrorText(err: SendError): string {
    match err
    case Canceled => "canceled"
    case InvalidRequest(message) => message
    case UpstreamStatus(status, _, message) => "cc api error " + FormatInt(status) + ": " + message
    case Transport(message) => message
  }

  // The cooldown of a 429: its Retry-After in seconds if that is a positive number, else a minute.
  function Cooldown(retryAfter: string): int {
    var seconds := Atoi(retryAfter);
    if seconds.Some? && seconds.value > 0 then Wrap64(seconds.value * SECOND) else DEFAULT_COOLDOWN
  }

  predicate Eligible(h: Health, now: int) {
    h.enabled && now >= h.limitedUntil
  }

  function AfterSuccess(h: Health, now: int): Health {
    h.(lastUsedAt := now, lastError := "", lastErrorAt := ZERO_TIME, authFailures := 0)
  }

  function AfterFailure(h: Health, err: SendError, now: int): Health {
    var failed := h.(errors := h.errors + 1, lastError := ErrorText(err), lastErrorAt := now);
    if !err.UpstreamStatus? then failed
    else if err.status == 429 then failed.(limitedUntil := now + Cooldown(err.retryAfter))
    else if err.status == 401 || err.status == 403 then failed.(authFailures := h.authFailures + 1)
    else failed
  }

  // ------------------------------------------------------------- picking an account

  datatype Pool = Pool(healths: seq<Health>, cursor: nat)

  // The account that is `i` places after `start`, going round.
  function Place(start: nat, i: nat, n: nat): (k: nat)
    requires n > 0
    ensures k < n
  {
    (start + i) % n
  }

  // The first eligible account in cyclic order, from place `i` of a scan that begins at `start`.
  function Scan(healths: seq<Health>, start: nat, i: nat, now: int): (r: Option<nat>)
    requires i <= |healths|
    ensures r.Some? ==> r.value < |healths| && Eligible(healths[r.value], now)
    decreases |healths| - i
  {
    if i == |healths| then None
    else
      var k := Place(start, i, |healths|);
      if Eligible(healths[k], now) then Some(k) else Scan(healths, start, i + 1, now)
  }

  function Pick(p: Pool, now: int): (r: Option<nat>)
    ensures r.Some? ==> r.value < |p.healths| && Eligible(p.healths[r.value], now)
  {
    if p.healths == [] then None else Scan(p.healths, p.cursor % |p.healths|, 0, now)
  }

  // The cursor moves by one per call, whatever is found.
  function Advance(p: Pool): Pool {
    if p.healths == [] then p else p.(cursor := (p.cursor + 1) % CURSOR_SIZE)
  }

  // No account among the places `i` to `j` - 1 of a scan is eligible.
  predicate NoneBetween(healths: seq<Health>, start: nat, i: nat, j: nat, now: int)
    requires j <= |healths|
  {
    forall m :: i <= m < j ==> !Eligible(healths[Place(start, m, |healths|)], now)
  }

  predicate FirstAt(healths: seq<Health>, start: nat, i: nat, j: nat, k: nat, now: int) {
    && i <= j < |healths| && k == Place(start, j, |healths|) && Eligible(healths[k], now)
    && NoneBetween(healths, start, i, j, now)
  }

  lemma {:induction false} ScanMeaning(healths: seq<Health>, start: nat, i: nat, now: int)
    requires i <= |healths|
    ensures Scan(healths, start, i, now).None? ==> NoneBetween(healths, start, i, |healths|, now)
    ensures Scan(healths, start, i, now).Some?
      ==> exists j :: FirstAt(healths, start, i, j, Scan(healths, start, i, now).value, now)
    decreases |healths| - i
  {
    if i < |healths| {
      var k := Place(start, i, |healths|);
      if Eligible(healths[k], now) {
        assert FirstAt(healths, start, i, i, k, now);
      } else {
        ScanMeaning(healths, start, i + 1, now);
        var r := Scan(healths, start, i + 1, now);
        if r.Some? {
          var j :| FirstAt(healths, start, i + 1, j, r.value, now);
          assert FirstAt(healths, start, i, j, r.value, now);
        }
      }
    }
  }

  // Going round once passes every place.
  lemma PlaceOnRound(start: nat, n: nat, k: nat) returns (j: nat)
    requires k < n && start < n
    ensures j < n && Place(start, j, n) == k
  {
    if k >= start {
      j := k - start;
      Remainder(k, n, 0);
    } else {
      j := k + n - start;
      Remainder(k, n, 1);
    }
  }

  lemma Remainder(k: nat, n: nat, q: nat)
    requires k < n
    ensures (k + q * n) % n == k
  {
    var x := k + q * n;
    var d := x / n - q;
    assert d * n == (x / n) * n - q * n;
    assert d * n == k - x % n;
    MultipleIsBig(d, n);
  }

  lemma MultipleIsBig(d: int, n: nat)
    ensures d >= 1 ==> d * n >= n
    ensures d <= -1 ==> d * n <= 0 - n
  {
    if d >= 1 {
      assert d * n == (d - 1) * n + n;
    } else if d <= -1 {
      assert d * n == (d + 1) * n - n;
    }
  }

  /** Acquire finds an account exactly when one is eligible, and then the first one from the cursor
  on, in cyclic order. */
  lemma PickMeaning(p: Pool, now: int)
    ensures Pick(p, now).None? <==> forall k :: 0 <= k < |p.healths| ==> !Eligible(p.healths[k], now)
    ensures Pick(p, now).Some? ==>
      exists j :: FirstAt(p.healths, p.cursor % |p.healths|, 0, j, Pick(p, now).value, now)
  {
    if p.healths != [] {
      var n, start := |p.healths|, p.cursor % |p.healths|;
      ScanMeaning(p.healths, start, 0, now);
      if Pick(p, now).None? {
        forall k | 0 <= k < n ensures !Eligible(p.healths[k], now) {
          var j := PlaceOnRound(start, n, k);
        }
      }
    }
  }

  // ---------------------------------------------------------------- counting, waiting

  function EnabledCount(healths: seq<Health>): (c: nat)
    ensures c <= |healths|
  {
    if healths == [] then 0
    else
      var n := |healths| - 1;
      EnabledCount(healths[..n]) + if healths[n].enabled then 1 else 0
  }

  // The earliest end of a cooldown that is still running, ZERO_TIME if there is none.
  function Earliest(healths: seq<Health>, now: int): int {
    if healths == [] then ZERO_TIME
    else
      var n := |healths| - 1;
      var before, h := Earliest(healths[..n], now), healths[n];
      if h.enabled && h.limitedUntil > now && (before == ZERO_TIME || h.limitedUntil < before)
      then h.limitedUntil
      else before
  }

  function EarliestWait(healths: seq<Health>, now: int): int {
    var earliest := Earliest(healths, now);
    if earliest == ZERO_TIME then 0 else SubTime(earliest, now)
  }

  predicate Cooling(h: Health, now: int) {
    h.enabled && h.limitedUntil > now
  }

  lemma {:induction false} EarliestMeaning(healths: seq<Health>, now: int)
    requires now >= ZERO_TIME
    ensures Earliest(healths, now) == ZERO_TIME <==> forall k :: 0 <= k < |healths| ==> !Cooling(healths[k], now)
    ensures Earliest(healths, now) != ZERO_TIME ==>
      && Earliest(healths, now) > now
      && (forall k ::
            0 <= k < |healths| && Cooling(healths[k], now) ==> Earliest(healths, now) <= healths[k].limitedUntil)
      && (exists k ::
            0 <= k < |healths| && Cooling(healths[k], now) && healths[k].limitedUntil == Earliest(healths, now))
  {
    if healths != [] {
      var n := |healths| - 1;
      var front := healths[..n];
      EarliestMeaning(front, now);
      assert forall k :: 0 <= k < n ==> front[k] == healths[k];
      if Earliest(healths, now) == Earliest(front, now) && Earliest(front, now) != ZERO_TIME {
        var k :| 0 <= k < n && Cooling(front[k], now) && front[k].limitedUntil == Earliest(front, now);
        assert Cooling(healths[k], now);
      }
    }
  }

  /** The earliest wait is exact. When some account is enabled and every enabled one is cooling,
  the wait is positive; before it is over Acquire finds nobody, and when it is over Acquire finds
  an account, wherever the cursor has got to. */
  lemma EarliestWaitIsExact(healths: seq<Health>, now: int)
    requires now >= ZERO_TIME
    requires exists k :: 0 <= k < |healths| && healths[k].enabled
    requires forall k :: 0 <= k < |healths| && healths[k].enabled ==> now < healths[k].limitedUntil <= now + INT64_MAX
    ensures
      var wait := EarliestWait(healths, now);
      && wait > 0
      && (forall t, cursor: nat :: now <= t < now + wait ==> Pick(Pool(healths, cursor), t) == None)
      && (forall cursor: nat :: Pick(Pool(healths, cursor), now + wait).Some?)
  {
    EarliestMeaning(healths, now);
    var some :| 0 <= some < |healths| && healths[some].enabled;
    assert Cooling(healths[some], now);
    var wait := EarliestWait(healths, now);
    var first :| 0 <= first < |healths| && Cooling(healths[first], now)
      && healths[first].limitedUntil == Earliest(healths, now);
    forall t, cursor: nat | now <= t < now + wait ensures Pick(Pool(healths, cursor), t) == None {
      PickMeaning(Pool(healths, cursor), t);
      forall k | 0 <= k < |healths| ensures !Eligible(healths[k], t) {
        assert healths[k].enabled ==> Cooling(healths[k], now);
      }
    }
    forall cursor: nat ensures Pick(Pool(healths, cursor), now + wait).Some? {
      PickMeaning(Pool(healths, cursor), now + wait);
      assert Eligible(healths[first], now + wait);
    }
  }

  // --------------------------------------------------------- what an account remembers

  datatype Outcome = Success(at: int) | Failure(err: SendError, at: int)

  function AfterOutcome(h: Health, o: Outcome): Health {
    match o
    case Success(at) => AfterSuccess(h, at)
    case Failure(err, at) => AfterFailure(h, err, at)
  }

  function AfterOutcomes(h: Health, outcomes: seq<Outcome>): Health {
    if outcomes == [] then h else AfterOutcome(AfterOutcomes(h, outcomes[..|outcomes| - 1]), outcomes[|outcomes| - 1])
  }

  function FailuresIn(outcomes: seq<Outcome>): nat {
    if outcomes == [] then 0
    else FailuresIn(outcomes[..|outcomes| - 1]) + if outcomes[|outcomes| - 1].Failure? then 1 else 0
  }

  predicate StatusIn(o: Outcome, statuses: seq<int>) {
    o.Failure? && o.err.UpstreamStatus? && o.err.status in statuses
  }

  predicate IsSuccess(o: Outcome) {
    o.Success?
  }

  predicate IsLimit(o: Outcome) {
    StatusIn(o, [429])
  }

  // How many failures with one of these statuses there were since the last success, or since the
  // beginning, when `before` of them were remembered.
  function StatusesSinceSuccess(outcomes: seq<Outcome>, statuses: seq<int>, before: nat): nat {
    if outcomes == [] then before
    else
      var n := |outcomes| - 1;
      if outcomes[n].Success? then 0
      else StatusesSinceSuccess(outcomes[..n], statuses, before) + if StatusIn(outcomes[n], statuses) then 1 else 0
  }

  /** The last outcome of a kind is number i. */
  ghost predicate LastAt(outcomes: seq<Outcome>, kind: Outcome -> bool, i: nat) {
    i < |outcomes| && kind(outcomes[i]) && forall j :: i < j < |outcomes| ==> !kind(outcomes[j])
  }

  /** What an account remembers of its requests: how many failed, when the last one succeeded, the last
  failure unless a success came after it, the refusals of its key since the last success, and the
  cooldown of its last 429. Nothing else of it changes. */
  lemma {:induction false} AccountRemembers(h: Health, outcomes: seq<Outcome>)
    ensures
      var after := AfterOutcomes(h, outcomes);
      && after.id == h.id && after.apiKey == h.apiKey && after.enabled == h.enabled
      && after.errors == h.errors + FailuresIn(outcomes)
      && after.authFailures == StatusesSinceSuccess(outcomes, [401, 403], h.authFailures)
      && (forall i: nat :: LastAt(outcomes, IsSuccess, i) ==> after.lastUsedAt == outcomes[i].at)
      && ((forall i :: 0 <= i < |outcomes| ==> !outcomes[i].Success?) ==> after.lastUsedAt == h.lastUsedAt)
      && (forall i: nat :: LastAt(outcomes, IsLimit, i) ==>
        after.limitedUntil == outcomes[i].at + Cooldown(outcomes[i].err.retryAfter))
      && ((forall i :: 0 <= i < |outcomes| ==> !StatusIn(outcomes[i], [429])) ==> after.limitedUntil == h.limitedUntil)
      && (outcomes != [] ==>
        match outcomes[|outcomes| - 1]
        case Success(_) => after.lastError == "" && after.lastErrorAt == ZERO_TIME
        case Failure(err, at) => after.lastError == ErrorText(err) && after.lastErrorAt == at)
  {
    hide Cooldown, ErrorText;
    if outcomes != [] {
      var n := |outcomes| - 1;
      var front := outcomes[..n];
      AccountRemembers(h, front);
      LastStays(outcomes, IsSuccess);
      LastStays(outcomes, IsLimit);
    }
  }

  lemma LastStays(outcomes: seq<Outcome>, kind: Outcome -> bool)
    requires outcomes != []
    ensures
      var n := |outcomes| - 1;
      forall i: nat :: LastAt(outcomes, kind, i) ==>
        i == n || (i < n && !kind(outcomes[n]) && LastAt(outcomes[..n], kind, i))
  {
  }

  /** The cooldown of a 429: so many seconds if its Retry-After is a positive number that does not
  overflow a Duration, and a minute if it is no number or not positive. */
  lemma CooldownMeaning(retryAfter: string)
    ensures
      var seconds := Atoi(retryAfter);
      && (seconds.None? || seconds.value <= 0 ==> Cooldown(retryAfter) == 60_000_000_000)
      && (seconds.Some? && 0 < seconds.value <= 9_223_372_036 ==>
        Cooldown(retryAfter) == seconds.value * 1_000_000_000)
  {
    hide Atoi;
  }

  // ------------------------------------------------------------------- the classes

  /** Account. */
  class Account {
    var id: string
    var apiKey: string
    var enabled: bool
    var errors: nat
    var lastError: string
    var lastErrorAt: int
    var lastUsedAt: int
    var rateLimitedUntil: int
    var authFailures: nat

    constructor (id: string, apiKey: string, enabled: bool)
      ensures State() == Health(id, apiKey, enabled, 0, "", ZERO_TIME, ZERO_TIME, ZERO_TIME, 0)
    {
      this.id, this.apiKey, this.enabled := id, apiKey, enabled;
      errors, lastError, authFailures := 0, "", 0;
      lastErrorAt, lastUsedAt, rateLimitedUntil := ZERO_TIME, ZERO_TIME, ZERO_TIME;
    }

    function State(): Health
      reads this
    {
      Health(id, apiKey, enabled, errors, lastError, lastErrorAt, lastUsedAt, rateLimitedUntil, authFailures)
    }

    method RecordSuccess(now: int)
      modifies this
      ensures State() == AfterSuccess(old(State()), now)
    {
      lastUsedAt := now;
      lastError := "";
      lastErrorAt := ZERO_TIME;
      authFailures := 0;
    }

    method RecordFailure(err: SendError, now: int)
      modifies this
      ensures State() == AfterFailure(old(State()), err, now)
    {
      hide ErrorText, Atoi, Wrap64;
      errors := errors + 1;
      lastError := ErrorText(err);
      lastErrorAt := now;
      if err.UpstreamStatus? {
        if err.status == 429 {
          var cooldown := DEFAULT_COOLDOWN;
          var seconds := Atoi(err.retryAfter);
          if seconds.Some? && seconds.value > 0 {
            cooldown := Wrap64(seconds.value * SECOND);
          }
          rateLimitedUntil := now + cooldown;
        } else if err.status == 401 || err.status == 403 {
          authFailures := authFailures + 1;
        }
      }
    }
  }

  /** AccountPool. */
  class AccountPool {
    var accounts: seq<Account>
    var cursor: nat

    constructor (accounts: seq<Account>)
      requires forall i, j :: 0 <= i < j < |accounts| ==> accounts[i] != accounts[j]
      ensures Valid() && this.accounts == accounts && cursor == 0
    {
      this.accounts := accounts;
      cursor := 0;
    }

    ghost predicate Valid()
      reads this
    {
      && cursor < CURSOR_SIZE
      && forall i, j :: 0 <= i < j < |accounts| ==> accounts[i] != accounts[j]
    }

    function Healths(): (healths: seq<Health>)
      reads this, accounts
      ensures |healths| == |accounts| && forall i :: 0 <= i < |healths| ==> healths[i] == accounts[i].State()
    {
      seq(|accounts|, i requires 0 <= i < |accounts| reads this, accounts => accounts[i].State())
    }

    function State(): Pool
      reads this, accounts
    {
      Pool(Healths(), cursor)
    }

    /** The account Pick names, or null; the cursor has moved on. */
    method Acquire(now: int) returns (a: Account?)
      requires Valid()
      modifies this`cursor
      ensures Valid() && accounts == old(accounts)
      ensures State() == Advance(old(State()))
      ensures a == null <==> Pick(old(State()), now).None?
      ensures a != null ==> Pick(old(State()), now).value < |accounts| && a == accounts[Pick(old(State()), now).value]
    {
      var n := |accounts|;
      if n == 0 {
        return null;
      }
      var start := cursor % n;
      cursor := (cursor + 1) % CURSOR_SIZE;
      var i := 0;
      while i < n
        invariant 0 <= i <= n
        invariant Scan(Healths(), start, 0, now) == Scan(Healths(), start, i, now)
      {
        var candidate := accounts[(start + i) % n];
        if candidate.enabled && !(now < candidate.rateLimitedUntil) {
          return candidate;
        }
        i := i + 1;
      }
      return null;
    }

    method CountEnabled() returns (n: nat)
      ensures n == EnabledCount(Healths())
    {
      n := 0;
      var i := 0;
      while i < |accounts|
        invariant 0 <= i <= |accounts|
        invariant n == EnabledCount(Healths()[..i])
      {
        assert Healths()[..i + 1][..i] == Healths()[..i];
        if accounts[i].enabled {
          n := n + 1;
        }
        i := i + 1;
      }
      assert Healths()[..i] == Healths();
    }

    method EarliestRateLimitWait(now: int) returns (wait: int)
      ensures wait == EarliestWait(Healths(), now)
    {
      var earliest := ZERO_TIME;
      var i := 0;
      while i < |accounts|
        invariant 0 <= i <= |accounts|
        invariant earliest == Earliest(Healths()[..i], now)
      {
        assert Healths()[..i + 1][..i] == Healths()[..i];
        if accounts[i].enabled {
          var until := accounts[i].rateLimitedUntil;
          if until > now && (earliest == ZERO_TIME || until < earliest) {
            earliest := until;
          }
        }
        i := i + 1;
      }
      assert Healths()[..i] == Healths();
      return if earliest == ZERO_TIME then 0 else SubTime(earliest, now);
    }
  }
}
