/** The usage accounting of internal/app/usage.go: global counters, counters per account and
counters per client key, and the conservation law that ties them together. */
module UsageAccounting {

  datatype Counts = Counts(requests: int, prompt: int, completion: int, cacheRead: int, cacheWrite: int) {
    function Plus(d: Counts): Counts {
      Counts(requests + d.requests, prompt + d.prompt, completion + d.completion,
             cacheRead + d.cacheRead, cacheWrite + d.cacheWrite)
    }
  }

  const ZERO: Counts := Counts(0, 0, 0, 0, 0)

  // What one finished request adds; negative cache counts are not counted.
  function Tally(prompt: int, completion: int, cacheRead: int, cacheWrite: int): Counts {
    Counts(1, prompt, completion, if cacheRead > 0 then cacheRead else 0, if cacheWrite > 0 then cacheWrite else 0)
  }

  type Ledger = map<string, Counts>

  function CountsIn(ledger: Ledger, id: string): Counts {
    if id in ledger then ledger[id] else ZERO
  }

  // ------------------------------------------------------------ sums over a ledger

  ghost function Sum<K>(ledger: map<K, Counts>): Counts
    decreases |ledger|
  {
    if ledger == map[] then ZERO
    else
      var id :| id in ledger;
      ledger[id].Plus(Sum(ledger - {id}))
  }

  lemma SumEmpty<K>()
    ensures Sum<K>(map[]) == ZERO
  {
  }

  lemma PlusLaws(a: Counts, b: Counts, c: Counts)
    ensures a.Plus(b) == b.Plus(a) && a.Plus(b.Plus(c)) == a.Plus(b).Plus(c) && a.Plus(ZERO) == a
  {
  }

  /** The sum may be taken in any order. */
  lemma {:induction false} SumWithout<K>(ledger: map<K, Counts>, id: K)
    requires id in ledger
    ensures Sum(ledger) == ledger[id].Plus(Sum(ledger - {id}))
    decreases |ledger|
  {
    var first :| first in ledger && Sum(ledger) == ledger[first].Plus(Sum(ledger - {first}));
    if first != id {
      SumWithout(ledger - {first}, id);
      SumWithout(ledger - {id}, first);
      assert ledger - {first} - {id} == ledger - {id} - {first};
      var rest := Sum(ledger - {first} - {id});
      assert ledger[first].Plus(ledger[id].Plus(rest)) == ledger[id].Plus(ledger[first].Plus(rest));
    }
  }

  /** Dropping one entry takes exactly its counts away. */
  lemma SumDrop<K>(ledger: map<K, Counts>, id: K)
    ensures Sum(ledger) == (if id in ledger then ledger[id] else ZERO).Plus(Sum(ledger - {id}))
  {
    hide Sum;
    if id in ledger {
      SumWithout(ledger, id);
    } else {
      assert ledger - {id} == ledger;
    }
  }

  /** Setting one entry. */
  lemma SumSet<K>(ledger: map<K, Counts>, id: K, c: Counts)
    ensures Sum(ledger[id := c]) == c.Plus(Sum(ledger - {id}))
  {
    SumWithout(ledger[id := c], id);
    assert ledger[id := c] - {id} == ledger - {id};
  }

  lemma SumAdd(ledger: Ledger, id: string, c: Counts)
    ensures Sum(ledger[id := CountsIn(ledger, id).Plus(c)]) == Sum(ledger).Plus(c)
  {
    hide Sum;
    SumDrop(ledger, id);
    SumSet(ledger, id, CountsIn(ledger, id).Plus(c));
  }

  // ------------------------------------------------------------------- operations

  datatype Books = Books(total: Counts, accounts: Ledger, clientKeys: Ledger)

  const EMPTY: Books := Books(ZERO, map[], map[])

  datatype Op =
    | Record(accountId: string, clientKeyId: string, prompt: int, completion: int, cacheRead: int, cacheWrite: int)
    | MoveAccount(oldId: string, newId: string)
    | DropAccount(id: string)
    | DropClientKey(id: string)

  function Credit(ledger: Ledger, id: string, c: Counts): Ledger {
    if id == "" then ledger else ledger[id := CountsIn(ledger, id).Plus(c)]
  }

  function Moved(accounts: Ledger, oldId: string, newId: string): Ledger {
    if oldId == "" || newId == "" || oldId == newId || oldId !in accounts then accounts
    else (accounts - {oldId})[newId := CountsIn(accounts, newId).Plus(accounts[oldId])]
  }

  function Apply(b: Books, op: Op): Books {
    match op
    case Record(accountId, clientKeyId, prompt, completion, cacheRead, cacheWrite) =>
      var c := Tally(prompt, completion, cacheRead, cacheWrite);
      Books(b.total.Plus(c), Credit(b.accounts, accountId, c), Credit(b.clientKeys, clientKeyId, c))
    case MoveAccount(oldId, newId) => b.(accounts := Moved(b.accounts, oldId, newId))
    case DropAccount(id) => b.(accounts := b.accounts - {id})
    case DropClientKey(id) => b.(clientKeys := b.clientKeys - {id})
  }

  function Run(ops: seq<Op>): Books {
    if ops == [] then EMPTY else Apply(Run(ops[..|ops| - 1]), ops[|ops| - 1])
  }

  // -------------------------------------------------- where the counts have gone

  /** What the dropped accounts held when they were dropped. */
  function DroppedFromAccounts(ops: seq<Op>): Counts {
    if ops == [] then ZERO
    else
      var n := |ops| - 1;
      DroppedFromAccounts(ops[..n]).Plus(
        if ops[n].DropAccount? then CountsIn(Run(ops[..n]).accounts, ops[n].id) else ZERO)
  }

  function DroppedFromClientKeys(ops: seq<Op>): Counts {
    if ops == [] then ZERO
    else
      var n := |ops| - 1;
      DroppedFromClientKeys(ops[..n]).Plus(
        if ops[n].DropClientKey? then CountsIn(Run(ops[..n]).clientKeys, ops[n].id) else ZERO)
  }

  function TallyOf(op: Op): Counts
    requires op.Record?
  {
    Tally(op.prompt, op.completion, op.cacheRead, op.cacheWrite)
  }

  /** What was recorded without an account. */
  function WithoutAccount(ops: seq<Op>): Counts {
    if ops == [] then ZERO
    else
      var n := |ops| - 1;
      WithoutAccount(ops[..n]).Plus(if ops[n].Record? && ops[n].accountId == "" then TallyOf(ops[n]) else ZERO)
  }

  function WithoutClientKey(ops: seq<Op>): Counts {
    if ops == [] then ZERO
    else
      var n := |ops| - 1;
      WithoutClientKey(ops[..n]).Plus(if ops[n].Record? && ops[n].clientKeyId == "" then TallyOf(ops[n]) else ZERO)
  }

  // ---------------------------------------------------------------- conservation

  /** Moving an account keeps the sum, also when it merges into another one. */
  lemma MoveKeepsTheSum(accounts: Ledger, oldId: string, newId: string)
    ensures Sum(Moved(accounts, oldId, newId)) == Sum(accounts)
  {
    if Moved(accounts, oldId, newId) != accounts {
      var rest := accounts - {oldId};
      SumDrop(accounts, oldId);
      assert CountsIn(rest, newId) == CountsIn(accounts, newId);
      SumAdd(rest, newId, accounts[oldId]);
      PlusLaws(accounts[oldId], Sum(rest), ZERO);
    }
  }

  lemma CreditSum(ledger: Ledger, id: string, c: Counts)
    ensures Sum(Credit(ledger, id, c)).Plus(if id == "" then c else ZERO) == Sum(ledger).Plus(c)
  {
    if id != "" {
      SumAdd(ledger, id, c);
    }
  }

  // One operation on the accounts: what the total gains is in the sum, or dropped, or unassigned.
  lemma AccountsStep(b: Books, op: Op)
    ensures
      var gained := if op.Record? then TallyOf(op) else ZERO;
      var dropped := if op.DropAccount? then CountsIn(b.accounts, op.id) else ZERO;
      var without := if op.Record? && op.accountId == "" then TallyOf(op) else ZERO;
      && Apply(b, op).total == b.total.Plus(gained)
      && Sum(Apply(b, op).accounts).Plus(dropped).Plus(without) == Sum(b.accounts).Plus(gained)
  {
    hide Sum, Tally, Moved, Credit;
    match op {
      case Record(accountId, _, _, _, _, _) => CreditSum(b.accounts, accountId, TallyOf(op));
      case MoveAccount(oldId, newId) => MoveKeepsTheSum(b.accounts, oldId, newId);
      case DropAccount(id) => SumDrop(b.accounts, id);
      case DropClientKey(_) =>
    }
  }

  lemma ClientKeysStep(b: Books, op: Op)
    ensures
      var gained := if op.Record? then TallyOf(op) else ZERO;
      var dropped := if op.DropClientKey? then CountsIn(b.clientKeys, op.id) else ZERO;
      var without := if op.Record? && op.clientKeyId == "" then TallyOf(op) else ZERO;
      Sum(Apply(b, op).clientKeys).Plus(dropped).Plus(without) == Sum(b.clientKeys).Plus(gained)
  {
    hide Sum, Tally, Moved, Credit;
    match op {
      case Record(_, clientKeyId, _, _, _, _) => CreditSum(b.clientKeys, clientKeyId, TallyOf(op));
      case MoveAccount(_, _) =>
      case DropAccount(_) =>
      case DropClientKey(id) => SumDrop(b.clientKeys, id);
    }
  }

  // Bookkeeping: the totals balance again after one more operation.
  lemma Balance(total: Counts, sum: Counts, dropped: Counts, without: Counts, gained: Counts, sum': Counts, d: Counts,
        w: Counts)
    requires total == sum.Plus(dropped).Plus(without) && sum'.Plus(d).Plus(w) == sum.Plus(gained)
    ensures total.Plus(gained) == sum'.Plus(dropped.Plus(d)).Plus(without.Plus(w))
  {
  }

  /** In every run from an empty tracker the global totals equal the live accounts plus what
  dropped accounts held plus what was recorded without an account, for all five counters; and
  the same holds, independently, for client keys. */
  lemma {:induction false} Conservation(ops: seq<Op>)
    ensures
      var b := Run(ops);
      && b.total == Sum(b.accounts).Plus(DroppedFromAccounts(ops)).Plus(WithoutAccount(ops))
      && b.total == Sum(b.clientKeys).Plus(DroppedFromClientKeys(ops)).Plus(WithoutClientKey(ops))
  {
    if ops != [] {
      hide Apply, Sum, Tally;
      var n := |ops| - 1;
      var op, before, b := ops[n], ops[..n], Run(ops[..n]);
      Conservation(before);
      AccountsStep(b, op);
      ClientKeysStep(b, op);
      var gained := if op.Record? then TallyOf(op) else ZERO;
      Balance(b.total, Sum(b.accounts), DroppedFromAccounts(before), WithoutAccount(before), gained,
        Sum(Run(ops).accounts),
        if op.DropAccount? then CountsIn(b.accounts, op.id) else ZERO,
        if op.Record? && op.accountId == "" then TallyOf(op) else ZERO);
      Balance(b.total, Sum(b.clientKeys), DroppedFromClientKeys(before), WithoutClientKey(before), gained,
        Sum(Run(ops).clientKeys),
        if op.DropClientKey? then CountsIn(b.clientKeys, op.id) else ZERO,
        if op.Record? && op.clientKeyId == "" then TallyOf(op) else ZERO);
    }
  }

  // ------------------------------------------------------------------- the classes

  /** UsageCounters. */
  class UsageCounters {
    var requests: int
    var promptTokens: int
    var completionTokens: int
    var cacheReadTokens: int
    var cacheWriteTokens: int

    constructor ()
      ensures Value() == ZERO
    {
      requests, promptTokens, completionTokens, cacheReadTokens, cacheWriteTokens := 0, 0, 0, 0, 0;
    }

    function Value(): Counts
      reads this
    {
      Counts(requests, promptTokens, completionTokens, cacheReadTokens, cacheWriteTokens)
    }

    method Add(prompt: int, completion: int, cacheRead: int, cacheWrite: int)
      modifies this
      ensures requests == old(requests) + 1
      ensures promptTokens == old(promptTokens) + prompt && completionTokens == old(completionTokens) + completion
      ensures cacheReadTokens == old(cacheReadTokens) + if cacheRead < 0 then 0 else cacheRead
      ensures cacheWriteTokens == old(cacheWriteTokens) + if cacheWrite < 0 then 0 else cacheWrite
      ensures Value() == old(Value()).Plus(Tally(prompt, completion, cacheRead, cacheWrite))
    {
      requests := requests + 1;
      promptTokens := promptTokens + prompt;
      completionTokens := completionTokens + completion;
      if cacheRead > 0 {
        cacheReadTokens := cacheReadTokens + cacheRead;
      }
      if cacheWrite > 0 {
        cacheWriteTokens := cacheWriteTokens + cacheWrite;
      }
    }

    method Merge(other: UsageCounters)
      requires other != this
      modifies this
      ensures Value() == old(Value()).Plus(other.Value())
    {
      requests := requests + other.requests;
      promptTokens := promptTokens + other.promptTokens;
      completionTokens := completionTokens + other.completionTokens;
      cacheReadTokens := cacheReadTokens + other.cacheReadTokens;
      cacheWriteTokens := cacheWriteTokens + other.cacheWriteTokens;
    }
  }

  /** Every counter belongs to one id in one of the two dimensions. */
  ghost predicate Separate(global: UsageCounters, accounts: map<string, UsageCounters>,
        clientKeys: map<string, UsageCounters>)
  {
    && (forall x :: x in accounts ==> accounts[x] != global)
    && (forall y :: y in clientKeys ==> clientKeys[y] != global)
    && (forall x, y :: x in accounts && y in clientKeys ==> accounts[x] != clientKeys[y])
    && (forall x, y :: x in accounts && y in accounts && x != y ==> accounts[x] != accounts[y])
    && (forall x, y :: x in clientKeys && y in clientKeys && x != y ==> clientKeys[x] != clientKeys[y])
  }

  lemma SeparateRenamed(
    global: UsageCounters, accounts: map<string, UsageCounters>, clientKeys: map<string, UsageCounters>,
    oldId: string, newId: string)
    requires Separate(global, accounts, clientKeys) && oldId in accounts && newId !in accounts
    ensures Separate(global, (accounts - {oldId})[newId := accounts[oldId]], clientKeys)
    ensures (accounts - {oldId})[newId := accounts[oldId]].Values <= accounts.Values
  {
  }

  /** UsageTracker; `global` stands for the counters that are its own fields. */
  class UsageTracker {
    const global: UsageCounters
    var accounts: map<string, UsageCounters>
    var clientKeys: map<string, UsageCounters>

    constructor ()
      ensures Valid() && fresh(Repr()) && State() == EMPTY
    {
      global := new UsageCounters();
      accounts, clientKeys := map[], map[];
    }

    function Repr(): set<object>
      reads this
    {
      {this, global} + accounts.Values + clientKeys.Values
    }

    ghost predicate Valid()
      reads this
    {
      Separate(global, accounts, clientKeys)
    }

    function Accounts(): Ledger
      reads this, accounts.Values
    {
      map id | id in accounts :: accounts[id].Value()
    }

    function ClientKeys(): Ledger
      reads this, clientKeys.Values
    {
      map id | id in clientKeys :: clientKeys[id].Value()
    }

    function State(): Books
      reads this, global, accounts.Values, clientKeys.Values
    {
      Books(global.Value(), Accounts(), ClientKeys())
    }

    // counter(&u.accounts, id): the counter of an id, made on first use; and its add.
    method AccountCounter(id: string) returns (c: UsageCounters)
      requires Valid() && id != ""
      modifies this
      ensures Valid() && id in accounts && accounts[id] == c && clientKeys == old(clientKeys)
      ensures Accounts() == old(Accounts())[id := CountsIn(old(Accounts()), id)]
      ensures ClientKeys() == old(ClientKeys()) && global.Value() == old(global.Value())
      ensures c in old(accounts.Values) || fresh(c)
      ensures fresh(accounts.Values - old(accounts.Values))
    {
      if id !in accounts {
        var made := new UsageCounters();
        accounts := accounts[id := made];
      }
      c := accounts[id];
    }

    method AddToAccount(id: string, prompt: int, completion: int, cacheRead: int, cacheWrite: int)
      requires Valid() && id in accounts
      modifies accounts[id]
      ensures Valid()
      ensures Accounts() ==
        old(Accounts())[id := old(Accounts())[id].Plus(Tally(prompt, completion, cacheRead, cacheWrite))]
      ensures ClientKeys() == old(ClientKeys()) && global.Value() == old(global.Value())
    {
      accounts[id].Add(prompt, completion, cacheRead, cacheWrite);
    }

    method CreditAccount(id: string, prompt: int, completion: int, cacheRead: int, cacheWrite: int)
      requires Valid()
      modifies this, accounts.Values
      ensures Valid() && fresh(accounts.Values - old(accounts.Values)) && clientKeys == old(clientKeys)
      ensures State() == old(State()).(accounts :=
        Credit(old(Accounts()), id, Tally(prompt, completion, cacheRead, cacheWrite)))
    {
      hide Separate, Tally, CountsIn;
      if id != "" {
        var _ := AccountCounter(id);
        AddToAccount(id, prompt, completion, cacheRead, cacheWrite);
      }
    }

    method ClientKeyCounter(id: string) returns (c: UsageCounters)
      requires Valid() && id != ""
      modifies this
      ensures Valid() && id in clientKeys && clientKeys[id] == c && accounts == old(accounts)
      ensures ClientKeys() == old(ClientKeys())[id := CountsIn(old(ClientKeys()), id)]
      ensures Accounts() == old(Accounts()) && global.Value() == old(global.Value())
      ensures c in old(clientKeys.Values) || fresh(c)
      ensures fresh(clientKeys.Values - old(clientKeys.Values))
    {
      if id !in clientKeys {
        var made := new UsageCounters();
        clientKeys := clientKeys[id := made];
      }
      c := clientKeys[id];
    }

    method AddToClientKey(id: string, prompt: int, completion: int, cacheRead: int, cacheWrite: int)
      requires Valid() && id in clientKeys
      modifies clientKeys[id]
      ensures Valid()
      ensures ClientKeys() ==
        old(ClientKeys())[id := old(ClientKeys())[id].Plus(Tally(prompt, completion, cacheRead, cacheWrite))]
      ensures Accounts() == old(Accounts()) && global.Value() == old(global.Value())
    {
      clientKeys[id].Add(prompt, completion, cacheRead, cacheWrite);
    }

    method CreditClientKey(id: string, prompt: int, completion: int, cacheRead: int, cacheWrite: int)
      requires Valid()
      modifies this, clientKeys.Values
      ensures Valid() && fresh(clientKeys.Values - old(clientKeys.Values)) && accounts == old(accounts)
      ensures State() == old(State()).(clientKeys :=
        Credit(old(ClientKeys()), id, Tally(prompt, completion, cacheRead, cacheWrite)))
    {
      hide Separate, Tally, CountsIn;
      if id != "" {
        var _ := ClientKeyCounter(id);
        AddToClientKey(id, prompt, completion, cacheRead, cacheWrite);
      }
    }

    /** mirrorUsageRecorder.Record; with both ids empty, UsageTracker.Record. */
    method RecordFor(accountId: string, clientKeyId: string, prompt: int, completion: int, cacheRead: int,
          cacheWrite: int)
      requires Valid()
      modifies Repr()
      ensures Valid() && fresh(Repr() - old(Repr()))
      ensures State() == Apply(old(State()), Record(accountId, clientKeyId, prompt, completion, cacheRead, cacheWrite))
    {
      global.Add(prompt, completion, cacheRead, cacheWrite);
      assert Accounts() == old(Accounts()) && ClientKeys() == old(ClientKeys());
      CreditAccount(accountId, prompt, completion, cacheRead, cacheWrite);
      CreditClientKey(clientKeyId, prompt, completion, cacheRead, cacheWrite);
    }

    method Move(oldId: string, newId: string)
      requires Valid()
      modifies Repr()
      ensures Valid() && fresh(Repr() - old(Repr()))
      ensures State() == Apply(old(State()), MoveAccount(oldId, newId))
    {
      if oldId == "" || newId == "" || oldId == newId || oldId !in accounts {
        return;
      }
      if newId !in accounts {
        RenameAccount(oldId, newId);
      } else {
        MergeAccount(oldId, newId);
      }
    }

    method RenameAccount(oldId: string, newId: string)
      requires Valid() && oldId in accounts && newId !in accounts && oldId != "" && newId != ""
      modifies this
      ensures Valid() && Repr() <= old(Repr())
      ensures State() == old(State()).(accounts := Moved(old(Accounts()), oldId, newId))
    {
      hide Separate;
      SeparateRenamed(global, accounts, clientKeys, oldId, newId);
      accounts := (accounts - {oldId})[newId := accounts[oldId]];
      assert Accounts() == Moved(old(Accounts()), oldId, newId);
    }

    // The target already has counters: the old ones are added to them.
    method MergeAccount(oldId: string, newId: string)
      requires Valid() && oldId in accounts && newId in accounts && oldId != newId && oldId != "" && newId != ""
      modifies this, accounts[newId]
      ensures Valid() && Repr() <= old(Repr())
      ensures State() == old(State()).(accounts := Moved(old(Accounts()), oldId, newId))
    {
      var moved, target := accounts[oldId], accounts[newId];
      accounts := accounts - {oldId};
      target.Merge(moved);
      assert Accounts() == Moved(old(Accounts()), oldId, newId);
      assert ClientKeys() == old(ClientKeys());
    }

    method ForgetAccount(id: string)
      requires Valid()
      modifies this
      ensures Valid() && fresh(Repr() - old(Repr()))
      ensures State() == Apply(old(State()), DropAccount(id))
    {
      hide CountsIn, Credit, Moved, Tally;
      accounts := accounts - {id};
      assert Accounts() == old(Accounts()) - {id};
    }

    method ForgetClientKey(id: string)
      requires Valid()
      modifies this
      ensures Valid() && fresh(Repr() - old(Repr()))
      ensures State() == Apply(old(State()), DropClientKey(id))
    {
      hide CountsIn, Credit, Moved, Tally;
      clientKeys := clientKeys - {id};
      assert ClientKeys() == old(ClientKeys()) - {id};
    }
  }
}
