/** What the usage counters hold, request by request: each counter of an account, of a client key and
of the totals is the sum of one argument of the requests that belong there. */
module UsageByRequest {
  import opened GoStrings
  import opened UsageAccounting

  /** Accounts and client keys are counted independently of each other. */
  datatype Dimension = ByAccount | ByClientKey

  datatype Counter = Requests | Prompt | Completion | CacheRead | CacheWrite

  // What one counter shows.
  function Shown(c: Counts, counter: Counter): int {
    match counter
    case Requests => c.requests
    case Prompt => c.prompt
    case Completion => c.completion
    case CacheRead => c.cacheRead
    case CacheWrite => c.cacheWrite
  }

  // What one recorded request reports for a counter; negative cache counts are ignored.
  function Reported(op: Op, counter: Counter): int
    requires op.Record?
  {
    match counter
    case Requests => 1
    case Prompt => op.prompt
    case Completion => op.completion
    case CacheRead => if op.cacheRead < 0 then 0 else op.cacheRead
    case CacheWrite => if op.cacheWrite < 0 then 0 else op.cacheWrite
  }

  function LedgerOf(b: Books, d: Dimension): Ledger {
    match d case ByAccount => b.accounts case ByClientKey => b.clientKeys
  }

  // ---------------------------------------------------------- where a request is held

  /** Who holds a request's counts after one more operation. A move takes them to the new id, the
  removal of their holder drops them. */
  function HeldAfter(holder: Option<string>, op: Op, d: Dimension): Option<string> {
    if holder.None? then None
    else match op {
      case MoveAccount(oldId, newId) =>
        if d.ByAccount? && holder.value == oldId && newId != "" then Some(newId) else holder
      case DropAccount(id) => if d.ByAccount? && holder.value == id then None else holder
      case DropClientKey(id) => if d.ByClientKey? && holder.value == id then None else holder
      case Record(_, _, _, _, _, _) => holder
    }
  }

  // Who is given a request when it is recorded; no id is nobody.
  function GivenTo(op: Op, d: Dimension): Option<string>
    requires op.Record?
  {
    var id := match d case ByAccount => op.accountId case ByClientKey => op.clientKeyId;
    if id == "" then None else Some(id)
  }

  /** Who holds the counts of request number i at the end of a run. */
  function Holder(ops: seq<Op>, i: nat, d: Dimension): (holder: Option<string>)
    requires i < |ops| && ops[i].Record?
    ensures holder.Some? ==> holder.value != ""
    decreases |ops|
  {
    var n := |ops| - 1;
    if i == n then GivenTo(ops[n], d) else HeldAfter(Holder(ops[..n], i, d), ops[n], d)
  }

  /** The sum of what the first k operations report, over the requests that one id holds in the end. */
  function HeldSum(ops: seq<Op>, k: nat, id: string, d: Dimension, counter: Counter): int
    requires k <= |ops|
    decreases k
  {
    if k == 0 then 0
    else
      HeldSum(ops, k - 1, id, d, counter) +
      if ops[k - 1].Record? && Holder(ops, k - 1, d) == Some(id) then Reported(ops[k - 1], counter) else 0
  }

  function TotalSum(ops: seq<Op>, counter: Counter): int {
    if ops == [] then 0
    else
      var n := |ops| - 1;
      TotalSum(ops[..n], counter) + if ops[n].Record? then Reported(ops[n], counter) else 0
  }

  // ------------------------------------------------------------------- the law

  // An effective move merges what the old id holds into the new one.
  predicate Moves(op: Op, d: Dimension) {
    d.ByAccount? && op.MoveAccount? && op.oldId != "" && op.newId != "" && op.oldId != op.newId
  }

  predicate Drops(op: Op, d: Dimension, id: string) {
    (d.ByAccount? && op == DropAccount(id)) || (d.ByClientKey? && op == DropClientKey(id))
  }

  // What an id holds of the earlier requests after one more operation.
  function Carried(ops: seq<Op>, k: nat, op: Op, id: string, d: Dimension, counter: Counter): int
    requires k <= |ops|
  {
    if Moves(op, d) && id == op.newId then HeldSum(ops, k, id, d, counter) + HeldSum(ops, k, op.oldId, d, counter)
    else if (Moves(op, d) && id == op.oldId) || Drops(op, d, id) then 0
    else HeldSum(ops, k, id, d, counter)
  }

  lemma {:induction false} EarlierRequests(ops: seq<Op>, k: nat, id: string, d: Dimension, counter: Counter)
    requires ops != [] && k <= |ops| - 1 && id != ""
    ensures HeldSum(ops, k, id, d, counter) == Carried(ops[..|ops| - 1], k, ops[|ops| - 1], id, d, counter)
    decreases k
  {
    hide Reported;
    if k > 0 {
      var n := |ops| - 1;
      EarlierRequests(ops, k - 1, id, d, counter);
      assert ops[..n][k - 1] == ops[k - 1];
      if ops[k - 1].Record? {
        OneHolder(ops[..n], k - 1, ops[n], id, d);
        assert Holder(ops, k - 1, d) == HeldAfter(Holder(ops[..n], k - 1, d), ops[n], d);
      }
    }
  }

  lemma OneHolder(front: seq<Op>, i: nat, op: Op, id: string, d: Dimension)
    requires i < |front| && front[i].Record? && id != ""
    ensures
      var before := Holder(front, i, d);
      HeldAfter(before, op, d) == Some(id) <==>
        if Moves(op, d) && id == op.newId then before == Some(id) || before == Some(op.oldId)
        else !(Moves(op, d) && id == op.oldId) && !Drops(op, d, id) && before == Some(id)
  {
  }

  // What one counter of one id shows after one more operation.
  lemma LedgerStep(b: Books, op: Op, id: string, d: Dimension, counter: Counter)
    requires id != ""
    ensures
      var before, after := LedgerOf(b, d), LedgerOf(Apply(b, op), d);
      Shown(CountsIn(after, id), counter) ==
        if op.Record? && GivenTo(op, d) == Some(id) then Shown(CountsIn(before, id), counter) + Reported(op, counter)
        else if Moves(op, d) && id == op.newId
        then Shown(CountsIn(before, id), counter) + Shown(CountsIn(before, op.oldId), counter)
        else if (Moves(op, d) && id == op.oldId) || Drops(op, d, id) then 0
        else Shown(CountsIn(before, id), counter)
  {
  }

  /** In every run from an empty tracker each counter of each account and of each client key is the sum
  of that number over the requests it was given or that were moved to it, and that were not dropped
  since. */
  lemma {:induction false} CountersAreTheirRequests(ops: seq<Op>, id: string, d: Dimension, counter: Counter)
    requires id != ""
    ensures Shown(CountsIn(LedgerOf(Run(ops), d), id), counter) == HeldSum(ops, |ops|, id, d, counter)
    decreases |ops|
  {
    hide Apply, Shown, Reported, CountsIn, GivenTo;
    if ops == [] {
      NothingShown(id, d, counter);
    } else {
      var n := |ops| - 1;
      var front, op := ops[..n], ops[n];
      CountersAreTheirRequests(front, id, d, counter);
      LedgerStep(Run(front), op, id, d, counter);
      EarlierRequests(ops, n, id, d, counter);
      if Moves(op, d) && id == op.newId {
        CountersAreTheirRequests(front, op.oldId, d, counter);
      }
    }
  }

  lemma NothingShown(id: string, d: Dimension, counter: Counter)
    ensures Shown(CountsIn(LedgerOf(EMPTY, d), id), counter) == 0
  {
  }

  /** The totals are the sums over all requests, whoever holds them. */
  lemma {:induction false} TotalsAreAllRequests(ops: seq<Op>, counter: Counter)
    ensures Shown(Run(ops).total, counter) == TotalSum(ops, counter)
  {
    if ops != [] {
      var n := |ops| - 1;
      TotalsAreAllRequests(ops[..n], counter);
      TotalStep(Run(ops[..n]), ops[n], counter);
    }
  }

  lemma TotalStep(b: Books, op: Op, counter: Counter)
    ensures Shown(Apply(b, op).total, counter)
      == Shown(b.total, counter) + if op.Record? then Reported(op, counter) else 0
  {
  }
}
