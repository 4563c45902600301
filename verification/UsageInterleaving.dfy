/** Usage accounting with requests that overlap (internal/app/usage.go). Recording one request takes
many steps: the totals, one counter after the other; the lookup of its record under the lock; and
the additions to that record outside the lock, again one counter after the other. Moves and drops
may come in between, and so may additions while a move merges two records counter by counter.

One dimension is modelled at a time: the accounts, or, in runs without moves, the client keys. A
request touches the two one after the other, so every run of both is a run of each. */
module UsageInterleaving {
  import opened UsageAccounting

  // ------------------------------------------------------ one counter of a record

  /** A record has five counters, numbered in the order in which the code adds to them. */
  const FIELDS: nat := 5

  // A record with one counter of `c` only, with those before it, and with it and those after it.
  function Only(c: Counts, k: nat): Counts {
    Counts(
      if k == 0 then c.requests else 0, if k == 1 then c.prompt else 0, if k == 2 then c.completion else 0,
      if k == 3 then c.cacheRead else 0, if k == 4 then c.cacheWrite else 0)
  }

  function Before(c: Counts, k: nat): Counts {
    Counts(
      if k > 0 then c.requests else 0, if k > 1 then c.prompt else 0, if k > 2 then c.completion else 0,
      if k > 3 then c.cacheRead else 0, if k > 4 then c.cacheWrite else 0)
  }

  function Since(c: Counts, k: nat): Counts {
    Counts(
      if k <= 0 then c.requests else 0, if k <= 1 then c.prompt else 0, if k <= 2 then c.completion else 0,
      if k <= 3 then c.cacheRead else 0, if k <= 4 then c.cacheWrite else 0)
  }

  lemma Parts(c: Counts, k: nat)
    ensures Before(c, 0) == ZERO && Before(c, FIELDS) == c && Since(c, 0) == c && Since(c, FIELDS) == ZERO
    ensures Before(c, k + 1) == Before(c, k).Plus(Only(c, k)) && Since(c, k) == Only(c, k).Plus(Since(c, k + 1))
  {
  }

  lemma PartsOfSum(c: Counts, d: Counts, j: nat, k: nat)
    ensures j >= k ==> Since(c.Plus(Only(d, j)), k) == Since(c, k).Plus(Only(d, j))
    ensures j < k ==> Since(c.Plus(Only(d, j)), k) == Since(c, k)
  {
  }

  // ------------------------------------------------------------------ the tracker

  /** Where one request's recording has got to: adding to the totals, about to look its record up,
  or adding to the record it was given; `next` is the counter that comes next. */
  datatype Pending =
    | Totalling(counts: Counts, id: string, next: nat)
    | Looking(counts: Counts, id: string)
    | Adding(counts: Counts, record: nat, next: nat)

  /** A move that merges the record `source` into `target`; meanwhile it holds the lock. */
  datatype Merge = Merge(source: nat, target: nat, next: nat)

  /** Records have an identity, so a request can hold on to one that its id has lost. The last three
  fields keep the history: what dropped ids held, what belonged to no id, and what was added to a
  record when no id had any use for it any more. */
  datatype Tracker = Tracker(
    total: Counts, records: seq<Counts>, ids: map<string, nat>, pending: map<nat, Pending>, merging: Merging,
    dropped: Counts, without: Counts, late: Counts)

  datatype Merging = Unlocked | Locked(merge: Merge)

  const FRESH: Tracker := Tracker(ZERO, [], map[], map[], Unlocked, ZERO, ZERO, ZERO)

  datatype Step =
    | Begin(request: nat, counts: Counts, id: string)
    | Total(request: nat)
    | Lookup(request: nat)
    | Addition(request: nat)
    | Move(oldId: string, newId: string)
    | MergeCounter
    | Drop(id: string)

  /** Steps that can happen: a request's steps come in their order, and whoever looks up, moves or
  drops waits for the lock. A counter is merged in one step: additions to the target come to the
  same before and after it, and the old counter is read once. */
  predicate Enabled(t: Tracker, s: Step) {
    match s
    case Begin(request, _, _) => request !in t.pending
    case Total(request) => request in t.pending && t.pending[request].Totalling?
    case Lookup(request) =>
      request in t.pending && t.pending[request].Looking? && (t.pending[request].id == "" || t.merging.Unlocked?)
    case Addition(request) => request in t.pending && t.pending[request].Adding?
    case Move(_, _) => t.merging.Unlocked?
    case MergeCounter => t.merging.Locked?
    case Drop(_) => t.merging.Unlocked?
  }

  predicate InUse(t: Tracker, record: nat) {
    exists id :: id in t.ids && t.ids[id] == record
  }

  /** Counter `k` of a record still counts: an id has the record, or it is being merged and that
  counter has not been read yet. */
  predicate Counted(t: Tracker, record: nat, k: nat) {
    InUse(t, record) || (t.merging.Locked? && t.merging.merge.source == record && k >= t.merging.merge.next)
  }

  function Next(t: Tracker, s: Step): Tracker
    requires Wellformed(t) && Enabled(t, s)
  {
    match s
    case Begin(request, counts, id) => t.(pending := t.pending[request := Totalling(counts, id, 0)])
    case Total(request) =>
      var p := t.pending[request];
      var after := if p.next + 1 < FIELDS then Totalling(p.counts, p.id, p.next + 1) else Looking(p.counts, p.id);
      t.(total := t.total.Plus(Only(p.counts, p.next)), pending := t.pending[request := after])
    case Lookup(request) =>
      var p := t.pending[request];
      if p.id == "" then t.(pending := t.pending - {request}, without := t.without.Plus(p.counts))
      else if p.id in t.ids then t.(pending := t.pending[request := Adding(p.counts, t.ids[p.id], 0)])
      else
        var made := |t.records|;
        t.(records := t.records + [ZERO], ids := t.ids[p.id := made],
           pending := t.pending[request := Adding(p.counts, made, 0)])
    case Addition(request) =>
      var p := t.pending[request];
      var part := Only(p.counts, p.next);
      t.(records := t.records[p.record := t.records[p.record].Plus(part)],
         pending :=
           if p.next + 1 < FIELDS then t.pending[request := Adding(p.counts, p.record, p.next + 1)]
           else t.pending - {request},
         late := if Counted(t, p.record, p.next) then t.late else t.late.Plus(part))
    case Move(oldId, newId) =>
      if oldId == "" || newId == "" || oldId == newId || oldId !in t.ids then t
      else if newId !in t.ids then t.(ids := (t.ids - {oldId})[newId := t.ids[oldId]])
      else t.(ids := t.ids - {oldId}, merging := Locked(Merge(t.ids[oldId], t.ids[newId], 0)))
    case MergeCounter =>
      var m := t.merging.merge;
      t.(records := t.records[m.target := t.records[m.target].Plus(Only(t.records[m.source], m.next))],
         merging := if m.next + 1 < FIELDS then Locked(m.(next := m.next + 1)) else Unlocked)
    case Drop(id) =>
      t.(ids := t.ids - {id},
         dropped := if id in t.ids then t.dropped.Plus(t.records[t.ids[id]]) else t.dropped)
  }

  /** Ids and requests hold existing records, no two ids the same one, and a merge goes from a
  record that no id has to one that an id has. */
  predicate Wellformed(t: Tracker) {
    OneOwner(t.ids, |t.records|) && PendingFit(t.pending, |t.records|) && MergeFits(t)
  }

  predicate OneOwner(ids: map<string, nat>, records: nat) {
    && (forall id :: id in ids ==> ids[id] < records)
    && (forall x, y :: x in ids && y in ids && ids[x] == ids[y] ==> x == y)
  }

  predicate PendingFit(pending: map<nat, Pending>, records: nat) {
    forall r :: r in pending ==>
      (pending[r].Totalling? ==> pending[r].next < FIELDS)
      && (pending[r].Adding? ==> pending[r].record < records && pending[r].next < FIELDS)
  }

  predicate MergeFits(t: Tracker) {
    t.merging.Locked? ==>
      var m := t.merging.merge;
      m.source < |t.records| && m.target < |t.records| && m.next < FIELDS && !InUse(t, m.source) && InUse(t, m.target)
  }

  /** What the ids hold. */
  function Live(t: Tracker): Ledger
    requires Wellformed(t)
  {
    map id | id in t.ids :: t.records[t.ids[id]]
  }

  /** What a request has added to the totals but not yet to a record. */
  function Underway(p: Pending): Counts {
    match p
    case Totalling(counts, _, next) => Before(counts, next)
    case Looking(counts, _) => counts
    case Adding(counts, _, next) => Since(counts, next)
  }

  function InFlight(t: Tracker): map<nat, Counts> {
    map r | r in t.pending :: Underway(t.pending[r])
  }

  /** What a merge has still to move. */
  function InTransit(records: seq<Counts>, merging: Merging): Counts {
    if merging.Locked? && merging.merge.source < |records|
    then Since(records[merging.merge.source], merging.merge.next)
    else ZERO
  }

  // ------------------------------------------------------------------ the invariant

  /** Nothing is lost track of: the totals are what the ids hold, what dropped ones held, what
  belonged to none, what is in flight or being merged, and what came too late. */
  ghost predicate Balanced(t: Tracker)
    requires Wellformed(t)
  {
    t.total == Sum(Live(t)).Plus(t.dropped).Plus(t.without)
      .Plus(Sum(InFlight(t))).Plus(InTransit(t.records, t.merging)).Plus(t.late)
  }

  lemma OwnersStay(t: Tracker, s: Step)
    requires Wellformed(t) && Enabled(t, s)
    ensures OneOwner(Next(t, s).ids, |Next(t, s).records|) && |Next(t, s).records| >= |t.records|
  {
    hide Counted, Only, InUse;
  }

  lemma PendingStays(t: Tracker, s: Step)
    requires Wellformed(t) && Enabled(t, s) && |Next(t, s).records| >= |t.records|
    ensures PendingFit(Next(t, s).pending, |Next(t, s).records|)
  {
    hide MergeFits, Counted, Only;
  }

  lemma MergeStays(t: Tracker, s: Step)
    requires Wellformed(t) && Enabled(t, s) && |Next(t, s).records| >= |t.records|
    ensures MergeFits(Next(t, s))
  {
    hide PendingFit, Counted, Only;
    var u := Next(t, s);
    if t.merging.Locked? {
      assert u.ids == t.ids;
      assert forall r: nat :: InUse(u, r) <==> InUse(t, r);
    } else if s.Move? && u.merging.Locked? {
      assert s.newId in u.ids && u.ids[s.newId] == u.merging.merge.target;
    }
  }

  lemma StepKeepsWellformed(t: Tracker, s: Step)
    requires Wellformed(t) && Enabled(t, s)
    ensures Wellformed(Next(t, s))
  {
    hide Next, OneOwner, PendingFit, MergeFits;
    OwnersStay(t, s);
    PendingStays(t, s);
    MergeStays(t, s);
  }

  // What is in flight when one request has gone on, or is done.
  lemma WentOn(t: Tracker, u: Tracker, request: nat)
    requires request in t.pending && request in u.pending && u.pending == t.pending[request := u.pending[request]]
    ensures Sum(InFlight(t)).Plus(Underway(u.pending[request])) == Sum(InFlight(u)).Plus(Underway(t.pending[request]))
  {
    hide Sum, Underway;
    SumDrop(InFlight(t), request);
    SumDrop(InFlight(u), request);
    assert InFlight(t) - {request} == InFlight(u) - {request};
  }

  lemma Done(t: Tracker, u: Tracker, request: nat)
    requires request in t.pending && u.pending == t.pending - {request}
    ensures Sum(InFlight(t)) == Underway(t.pending[request]).Plus(Sum(InFlight(u)))
  {
    hide Sum, Underway;
    SumDrop(InFlight(t), request);
    assert InFlight(t) - {request} == InFlight(u);
  }

  lemma SameInFlight(t: Tracker, u: Tracker)
    requires t.pending == u.pending
    ensures InFlight(t) == InFlight(u)
  {
  }

  lemma SameLive(t: Tracker, u: Tracker)
    requires Wellformed(t) && Wellformed(u) && t.ids == u.ids && t.records == u.records
    ensures Live(t) == Live(u)
  {
  }

  lemma BeginKeepsBalance(t: Tracker, s: Step)
    requires Wellformed(t) && s.Begin? && Enabled(t, s) && Balanced(t)
    ensures Wellformed(Next(t, s)) && Balanced(Next(t, s))
  {
    hide Sum, Live, Since;
    var u := Next(t, s);
    StepKeepsWellformed(t, s);
    SameLive(t, u);
    SumSet(InFlight(t), s.request, ZERO);
    Parts(s.counts, 0);
    assert InFlight(u) == InFlight(t)[s.request := ZERO];
    assert InFlight(t) - {s.request} == InFlight(t);
  }

  lemma TotalKeepsBalance(t: Tracker, s: Step)
    requires Wellformed(t) && s.Total? && Enabled(t, s) && Balanced(t)
    ensures Wellformed(Next(t, s)) && Balanced(Next(t, s))
  {
    hide Sum, Live, InFlight, Since, Before, Only;
    var u, p := Next(t, s), t.pending[s.request];
    StepKeepsWellformed(t, s);
    SameLive(t, u);
    WentOn(t, u, s.request);
    Parts(p.counts, p.next);
  }

  lemma NewRecord(t: Tracker, request: nat)
    requires Wellformed(t) && Enabled(t, Lookup(request))
    requires t.pending[request].id != "" && t.pending[request].id !in t.ids
    ensures
      var u := Next(t, Lookup(request));
      Wellformed(u) && Sum(Live(u)) == Sum(Live(t))
  {
    hide Sum, PendingFit;
    var u, id := Next(t, Lookup(request)), t.pending[request].id;
    StepKeepsWellformed(t, Lookup(request));
    assert Live(u) == Live(t)[id := ZERO];
    SumSet(Live(t), id, ZERO);
    assert Live(t) - {id} == Live(t);
  }

  lemma LookupKeepsBalance(t: Tracker, s: Step)
    requires Wellformed(t) && s.Lookup? && Enabled(t, s) && Balanced(t)
    ensures Wellformed(Next(t, s)) && Balanced(Next(t, s))
  {
    hide Sum, Live, InFlight, Since, Before, Only;
    var u, p := Next(t, s), t.pending[s.request];
    StepKeepsWellformed(t, s);
    Parts(p.counts, 0);
    if p.id == "" {
      Done(t, u, s.request);
      SameLive(t, u);
    } else {
      WentOn(t, u, s.request);
      if p.id in t.ids {
        SameLive(t, u);
      } else {
        NewRecord(t, s.request);
      }
    }
  }

  // An addition reaches an id.
  lemma LandedAtId(t: Tracker, request: nat)
    requires Wellformed(t) && Enabled(t, Addition(request)) && InUse(t, t.pending[request].record)
    ensures
      var u, p := Next(t, Addition(request)), t.pending[request];
      && Wellformed(u) && InTransit(u.records, u.merging) == InTransit(t.records, t.merging)
      && Sum(Live(u)) == Sum(Live(t)).Plus(Only(p.counts, p.next))
  {
    hide Sum, Only, Since, PendingFit;
    var u, p := Next(t, Addition(request)), t.pending[request];
    var part := Only(p.counts, p.next);
    StepKeepsWellformed(t, Addition(request));
    var id :| id in t.ids && t.ids[id] == p.record;
    assert Live(u) == Live(t)[id := CountsIn(Live(t), id).Plus(part)];
    SumAdd(Live(t), id, part);
  }

  // An addition reaches a merge under way, or it comes too late.
  lemma LandedElsewhere(t: Tracker, request: nat)
    requires Wellformed(t) && Enabled(t, Addition(request)) && !InUse(t, t.pending[request].record)
    ensures
      var u, p := Next(t, Addition(request)), t.pending[request];
      && Wellformed(u) && Live(u) == Live(t)
      && InTransit(u.records, u.merging)
        == InTransit(t.records, t.merging).Plus(if Counted(t, p.record, p.next) then Only(p.counts, p.next) else ZERO)
  {
    hide Only, Live, InTransit, InUse, OneOwner, MergeFits;
    var u, p := Next(t, Addition(request)), t.pending[request];
    StepKeepsWellformed(t, Addition(request));
    UnusedIsNotLive(t, u, p.record);
    TransitGrows(t.records, t.merging, p.record, p.counts, p.next);
  }

  lemma TransitGrows(records: seq<Counts>, merging: Merging, record: nat, counts: Counts, k: nat)
    requires record < |records|
    ensures
      var after := InTransit(records[record := records[record].Plus(Only(counts, k))], merging);
      if merging.Locked? && merging.merge.source == record && k >= merging.merge.next
      then after == InTransit(records, merging).Plus(Only(counts, k))
      else after == InTransit(records, merging)
  {
    hide Only, Since;
    if merging.Locked? {
      PartsOfSum(records[record], counts, k, merging.merge.next);
    }
  }

  lemma UnusedIsNotLive(t: Tracker, u: Tracker, record: nat)
    requires Wellformed(t) && Wellformed(u) && !InUse(t, record) && record < |t.records|
    requires t.ids == u.ids && |u.records| == |t.records|
    requires forall r :: 0 <= r < |t.records| && r != record ==> u.records[r] == t.records[r]
    ensures Live(u) == Live(t)
  {
  }

  lemma Landed(t: Tracker, request: nat)
    requires Wellformed(t) && Enabled(t, Addition(request))
    ensures
      var u, p := Next(t, Addition(request)), t.pending[request];
      && Wellformed(u)
      && Sum(Live(u)).Plus(InTransit(u.records, u.merging))
        == Sum(Live(t)).Plus(InTransit(t.records, t.merging))
          .Plus(if Counted(t, p.record, p.next) then Only(p.counts, p.next) else ZERO)
  {
    hide Sum, Only, Live, InTransit, Next, Wellformed;
    if InUse(t, t.pending[request].record) {
      LandedAtId(t, request);
    } else {
      LandedElsewhere(t, request);
    }
  }

  // Bookkeeping: a part leaves what is in flight, and is live, in transit or late.
  lemma PartLands(total: Counts, live: Counts, elsewhere: Counts, flight: Counts, transit: Counts, late: Counts,
                  part: Counts, counted: bool, live': Counts, flight': Counts, transit': Counts)
    requires total == live.Plus(elsewhere).Plus(flight).Plus(transit).Plus(late)
    requires live'.Plus(transit') == live.Plus(transit).Plus(if counted then part else ZERO)
    requires flight == part.Plus(flight')
    ensures total == live'.Plus(elsewhere).Plus(flight').Plus(transit').Plus(if counted then late else late.Plus(part))
  {
  }

  lemma AdditionLeavesFlight(t: Tracker, request: nat)
    requires Wellformed(t) && Enabled(t, Addition(request))
    ensures
      var p := t.pending[request];
      Sum(InFlight(t)) == Only(p.counts, p.next).Plus(Sum(InFlight(Next(t, Addition(request)))))
  {
    hide Sum, InFlight, Counted, Since, Before, Only, OneOwner, MergeFits;
    var u, p := Next(t, Addition(request)), t.pending[request];
    Parts(p.counts, p.next);
    if p.next + 1 < FIELDS {
      WentOn(t, u, request);
    } else {
      assert p.next + 1 == FIELDS;
      Done(t, u, request);
    }
  }

  lemma AdditionKeepsBalance(t: Tracker, s: Step)
    requires Wellformed(t) && s.Addition? && Enabled(t, s) && Balanced(t)
    ensures Wellformed(Next(t, s)) && Balanced(Next(t, s))
  {
    hide Sum, Live, InFlight, InTransit, Counted, Wellformed, Only, Counts.Plus;
    var u, p := Next(t, s), t.pending[s.request];
    Landed(t, s.request);
    AdditionLeavesFlight(t, s.request);
    PlusLaws(Sum(Live(t)), t.dropped, t.without);
    PlusLaws(Sum(Live(u)), t.dropped, t.without);
    PartLands(
      t.total, Sum(Live(t)), t.dropped.Plus(t.without), Sum(InFlight(t)), InTransit(t.records, t.merging), t.late,
      Only(p.counts, p.next), Counted(t, p.record, p.next),
      Sum(Live(u)), Sum(InFlight(u)), InTransit(u.records, u.merging));
  }

  // A move to a new id, and the beginning of one that merges.
  lemma Renamed(t: Tracker, u: Tracker, oldId: string, newId: string)
    requires Wellformed(t) && Wellformed(u) && oldId in t.ids && newId !in t.ids
    requires u.records == t.records && u.ids == (t.ids - {oldId})[newId := t.ids[oldId]]
    ensures Sum(Live(u)) == Sum(Live(t))
  {
    hide Sum, PendingFit, MergeFits;
    var moved, rest := Live(t)[oldId], Live(t) - {oldId};
    SumDrop(Live(t), oldId);
    SumSet(rest, newId, moved);
    assert rest - {newId} == rest;
    assert Live(u) == rest[newId := moved];
  }

  lemma Unlinked(t: Tracker, u: Tracker, oldId: string)
    requires Wellformed(t) && Wellformed(u) && oldId in t.ids
    requires u.records == t.records && u.ids == t.ids - {oldId}
    ensures Sum(Live(t)) == t.records[t.ids[oldId]].Plus(Sum(Live(u)))
  {
    hide Sum, PendingFit, MergeFits;
    SumDrop(Live(t), oldId);
    assert Live(u) == Live(t) - {oldId};
  }

  // Bookkeeping: what a merge begins with is no longer live but in transit.
  lemma IntoTransit(total: Counts, live: Counts, elsewhere: Counts, late: Counts, moved: Counts, live': Counts)
    requires total == live.Plus(elsewhere).Plus(ZERO).Plus(late) && live == moved.Plus(live')
    ensures total == live'.Plus(elsewhere).Plus(moved).Plus(late)
  {
  }

  lemma MoveKeepsBalance(t: Tracker, s: Step)
    requires Wellformed(t) && s.Move? && Enabled(t, s) && Balanced(t)
    ensures Wellformed(Next(t, s)) && Balanced(Next(t, s))
  {
    hide Sum, InFlight, Live, PendingFit, MergeFits, Since;
    var u := Next(t, s);
    StepKeepsWellformed(t, s);
    SameInFlight(t, u);
    if u != t {
      if s.newId in t.ids {
        hide Counts.Plus;
        var moved := t.records[t.ids[s.oldId]];
        Unlinked(t, u, s.oldId);
        Parts(moved, 0);
        var elsewhere := t.dropped.Plus(t.without).Plus(Sum(InFlight(t)));
        assert InTransit(u.records, u.merging) == moved && InTransit(t.records, t.merging) == ZERO;
        PlusRegroup(Sum(Live(t)), t.dropped, t.without, Sum(InFlight(t)));
        PlusRegroup(Sum(Live(u)), t.dropped, t.without, Sum(InFlight(t)));
        IntoTransit(t.total, Sum(Live(t)), elsewhere, t.late, moved, Sum(Live(u)));
      } else {
        Renamed(t, u, s.oldId, s.newId);
      }
    }
  }

  lemma PlusRegroup(a: Counts, b: Counts, c: Counts, d: Counts)
    ensures a.Plus(b).Plus(c).Plus(d) == a.Plus(b.Plus(c).Plus(d))
  {
  }

  lemma MergeCounterKeepsBalance(t: Tracker, s: Step)
    requires Wellformed(t) && s.MergeCounter? && Enabled(t, s) && Balanced(t)
    ensures Wellformed(Next(t, s)) && Balanced(Next(t, s))
  {
    hide Sum, InFlight, PendingFit, Since, Only;
    var u, m := Next(t, s), t.merging.merge;
    StepKeepsWellformed(t, s);
    SameInFlight(t, u);
    var part := Only(t.records[m.source], m.next);
    var id :| id in t.ids && t.ids[id] == m.target;
    assert Live(u) == Live(t)[id := CountsIn(Live(t), id).Plus(part)];
    SumAdd(Live(t), id, part);
    assert u.records[m.source] == t.records[m.source];
    Parts(t.records[m.source], m.next);
  }

  lemma DropKeepsBalance(t: Tracker, s: Step)
    requires Wellformed(t) && s.Drop? && Enabled(t, s) && Balanced(t)
    ensures Wellformed(Next(t, s)) && Balanced(Next(t, s))
  {
    hide Sum, InFlight, Live, PendingFit, MergeFits;
    var u := Next(t, s);
    StepKeepsWellformed(t, s);
    SameInFlight(t, u);
    if s.id in t.ids {
      Unlinked(t, u, s.id);
    } else {
      assert u.ids == t.ids;
      SameLive(t, u);
    }
  }

  lemma StepKeepsBalance(t: Tracker, s: Step)
    requires Wellformed(t) && Enabled(t, s) && Balanced(t)
    ensures Wellformed(Next(t, s)) && Balanced(Next(t, s))
  {
    hide Next, Wellformed, Balanced, Enabled;
    match s {
      case Begin(_, _, _) => BeginKeepsBalance(t, s);
      case Total(_) => TotalKeepsBalance(t, s);
      case Lookup(_) => LookupKeepsBalance(t, s);
      case Addition(_) => AdditionKeepsBalance(t, s);
      case Move(_, _) => MoveKeepsBalance(t, s);
      case MergeCounter => MergeCounterKeepsBalance(t, s);
      case Drop(_) => DropKeepsBalance(t, s);
    }
  }

  // ------------------------------------------------------------------------- runs

  predicate StepTo(t: Tracker, s: Step, u: Tracker) {
    Wellformed(t) && Enabled(t, s) && u == Next(t, s)
  }

  /** A run from the empty tracker, state by state. */
  predicate IsRun(states: seq<Tracker>, steps: seq<Step>) {
    && |states| == |steps| + 1 && states[0] == FRESH
    && forall i {:trigger steps[i]} :: 0 <= i < |steps| ==> StepTo(states[i], steps[i], states[i + 1])
  }

  lemma FreshIsBalanced()
    ensures Wellformed(FRESH) && Balanced(FRESH)
  {
    hide Sum;
    SumEmpty<string>();
    SumEmpty<nat>();
    assert Live(FRESH) == map[] && InFlight(FRESH) == map[];
  }

  lemma RunPrefix(states: seq<Tracker>, steps: seq<Step>)
    requires IsRun(states, steps) && steps != []
    ensures IsRun(states[..|steps|], steps[..|steps| - 1])
    ensures StepTo(states[|steps| - 1], steps[|steps| - 1], states[|steps|])
  {
    hide StepTo;
    var n := |steps| - 1;
    forall i | 0 <= i < n ensures StepTo(states[..n + 1][i], steps[..n][i], states[..n + 1][i + 1]) {
      assert steps[..n][i] == steps[i];
    }
  }

  /** In every interleaving of overlapping requests with moves and drops, the books balance. */
  lemma {:induction false} InterleavedConservation(states: seq<Tracker>, steps: seq<Step>)
    requires IsRun(states, steps)
    ensures
      var t := states[|steps|];
      Wellformed(t) && Balanced(t)
    decreases |steps|
  {
    if steps == [] {
      FreshIsBalanced();
    } else {
      hide Next, Wellformed, Balanced, Enabled;
      var n := |steps| - 1;
      RunPrefix(states, steps);
      InterleavedConservation(states[..n + 1], steps[..n]);
      StepKeepsBalance(states[n], steps[n]);
    }
  }

  // ------------------------------------------------------------- what came too late

  /** Something is added to a counter after its record was dropped, or after it was merged into
  another record. */
  predicate TooLate(t: Tracker, s: Step) {
    && s.Addition? && Enabled(t, s)
    && var p := t.pending[s.request];
       !Counted(t, p.record, p.next) && Only(p.counts, p.next) != ZERO
  }

  predicate NoneTooLate(states: seq<Tracker>, steps: seq<Step>)
    requires |states| > |steps|
  {
    forall i {:trigger steps[i]} :: 0 <= i < |steps| ==> !TooLate(states[i], steps[i])
  }

  predicate AtLeastZero(c: Counts) {
    c.requests >= 0 && c.prompt >= 0 && c.completion >= 0 && c.cacheRead >= 0 && c.cacheWrite >= 0
  }

  /** No request reports a negative number of tokens. */
  predicate NoNegativeCounts(steps: seq<Step>) {
    forall s :: s in steps && s.Begin? ==> AtLeastZero(s.counts)
  }

  predicate CleanPending(t: Tracker) {
    forall r :: r in t.pending ==> AtLeastZero(t.pending[r].counts)
  }

  lemma LateStep(t: Tracker, s: Step)
    requires Wellformed(t) && Enabled(t, s) && CleanPending(t) && AtLeastZero(t.late)
    requires s.Begin? ==> AtLeastZero(s.counts)
    ensures CleanPending(Next(t, s)) && AtLeastZero(Next(t, s).late)
    ensures Next(t, s).late == ZERO <==> t.late == ZERO && !TooLate(t, s)
  {
    hide Counted, PendingFit;
  }

  lemma NoneTooLateUpTo(states: seq<Tracker>, steps: seq<Step>)
    requires |states| == |steps| + 1 && steps != []
    ensures
      var n := |steps| - 1;
      NoneTooLate(states, steps) <==> NoneTooLate(states[..n + 1], steps[..n]) && !TooLate(states[n], steps[n])
  {
    hide TooLate;
    var n := |steps| - 1;
    assert forall i :: 0 <= i < n ==> states[..n + 1][i] == states[i] && steps[..n][i] == steps[i];
  }

  lemma {:induction false} LateCounts(states: seq<Tracker>, steps: seq<Step>)
    requires IsRun(states, steps) && NoNegativeCounts(steps)
    ensures CleanPending(states[|steps|]) && AtLeastZero(states[|steps|].late)
    ensures states[|steps|].late == ZERO <==> NoneTooLate(states, steps)
    decreases |steps|
  {
    if steps != [] {
      var n := |steps| - 1;
      RunPrefix(states, steps);
      LateCounts(states[..n + 1], steps[..n]);
      NoneTooLateUpTo(states, steps);
      hide IsRun, TooLate, Next, Wellformed, Enabled, NoneTooLate, CleanPending, AtLeastZero;
      LateStep(states[n], steps[n]);
    }
  }

  /** When nothing is in flight or being merged any more, the conservation law of the serial tracker
  holds exactly when what came too late adds up to nothing; as long as no request reports negative
  numbers, that is exactly when no addition came too late. */
  lemma ConservationHoldsExactlyWhen(states: seq<Tracker>, steps: seq<Step>)
    requires IsRun(states, steps) && states[|steps|].pending == map[] && states[|steps|].merging.Unlocked?
    ensures
      var t := states[|steps|];
      && Wellformed(t)
      && (t.total == Sum(Live(t)).Plus(t.dropped).Plus(t.without) <==> t.late == ZERO)
      && (NoNegativeCounts(steps) ==> (t.late == ZERO <==> NoneTooLate(states, steps)))
  {
    var t := states[|steps|];
    InterleavedConservation(states, steps);
    if NoNegativeCounts(steps) {
      LateCounts(states, steps);
    }
    assert InFlight(t) == map[];
    SumEmpty<nat>();
  }

  // ------------------------------------------------------- a request that is lost

  /** Some run from the empty tracker leads here. */
  ghost predicate Reachable(t: Tracker) {
    exists states: seq<Tracker>, steps: seq<Step> :: IsRun(states, steps) && states[|steps|] == t
  }

  lemma StepReaches(t: Tracker, s: Step)
    requires Reachable(t) && Wellformed(t) && Enabled(t, s)
    ensures Wellformed(Next(t, s)) && Reachable(Next(t, s))
  {
    hide Wellformed, Enabled, Next;
    StepKeepsWellformed(t, s);
    var states: seq<Tracker>, steps: seq<Step> :| IsRun(states, steps) && states[|steps|] == t;
    var n, u := |steps|, Next(t, s);
    var longer, more := states + [u], steps + [s];
    forall i | 0 <= i < n + 1 ensures StepTo(longer[i], more[i], longer[i + 1]) {
      assert i < n ==> StepTo(states[i], steps[i], states[i + 1]);
    }
    assert IsRun(longer, more) && longer[n + 1] == u;
  }

  // A request's recording adds up its totals, without anything in between.
  lemma {:induction false} TotalsReach(t: Tracker, request: nat)
    requires Reachable(t) && Wellformed(t) && request in t.pending && t.pending[request].Totalling?
    ensures
      var p := t.pending[request];
      var u := t.(total := t.total.Plus(Since(p.counts, p.next)),
        pending := t.pending[request := Looking(p.counts, p.id)]);
      Wellformed(u) && Reachable(u)
    decreases FIELDS - t.pending[request].next
  {
    hide Reachable, Only, Since, OneOwner, MergeFits, Counts.Plus;
    var p, u := t.pending[request], Next(t, Total(request));
    StepReaches(t, Total(request));
    Parts(p.counts, p.next);
    PlusLaws(t.total, Only(p.counts, p.next), Since(p.counts, p.next + 1));
    if p.next + 1 < FIELDS {
      TotalsReach(u, request);
      assert u.pending[request := Looking(p.counts, p.id)] == t.pending[request := Looking(p.counts, p.id)];
    } else {
      PlusLaws(Only(p.counts, p.next), ZERO, ZERO);
    }
  }

  // It adds to a record that no id has and no merge needs.
  lemma {:induction false} LateAdditionsReach(t: Tracker, request: nat)
    requires Reachable(t) && Wellformed(t) && request in t.pending && t.pending[request].Adding?
    requires t.merging.Unlocked? && !InUse(t, t.pending[request].record)
    ensures
      var p := t.pending[request];
      var rest := Since(p.counts, p.next);
      var u := t.(records := t.records[p.record := t.records[p.record].Plus(rest)], pending := t.pending - {request},
                  late := t.late.Plus(rest));
      Wellformed(u) && Reachable(u)
    decreases FIELDS - t.pending[request].next
  {
    hide Reachable, Only, Since, OneOwner, MergeFits, Counts.Plus;
    var p, u := t.pending[request], Next(t, Addition(request));
    var part, rest := Only(p.counts, p.next), Since(p.counts, p.next + 1);
    StepReaches(t, Addition(request));
    Parts(p.counts, p.next);
    PlusLaws(t.late, part, rest);
    PlusLaws(t.records[p.record], part, rest);
    if p.next + 1 < FIELDS {
      assert !InUse(u, p.record);
      LateAdditionsReach(u, request);
      assert u.pending - {request} == t.pending - {request};
      assert u.records[p.record] == t.records[p.record].Plus(part) && u.late == t.late.Plus(part);
      assert u.records[p.record := u.records[p.record].Plus(rest)]
          == t.records[p.record := t.records[p.record].Plus(part.Plus(rest))];
    } else {
      PlusLaws(part, ZERO, ZERO);
    }
  }

  /** A request that is lost: its account is dropped after its record was looked up and before
  anything was added to it. What the request added to the totals is then found nowhere, so unless
  it is nothing at all the law of the serial tracker is broken. */
  lemma DropLosesARequest(counts: Counts, id: string)
    requires id != "" && counts != ZERO
    ensures
      var t := Tracker(counts, [counts], map[], map[], Unlocked, ZERO, ZERO, counts);
      && Reachable(t) && Wellformed(t)
      && t.total != Sum(Live(t)).Plus(t.dropped).Plus(t.without)
  {
    var t := Tracker(counts, [counts], map[], map[], Unlocked, ZERO, ZERO, counts);
    Lost(counts, id);
    assert Live(t) == map[];
    SumEmpty<string>();
  }

  lemma FreshIsReachable()
    ensures Reachable(FRESH)
  {
    assert IsRun([FRESH], []);
  }

  lemma Totalled(counts: Counts, id: string)
    ensures
      var t := Tracker(counts, [], map[], map[0 := Looking(counts, id)], Unlocked, ZERO, ZERO, ZERO);
      Wellformed(t) && Reachable(t)
  {
    hide Reachable, Only, Since, Counts.Plus;
    var begun := FRESH.(pending := map[0 := Totalling(counts, id, 0)]);
    FreshIsReachable();
    assert Next(FRESH, Begin(0, counts, id)) == begun;
    StepReaches(FRESH, Begin(0, counts, id));
    TotalsReach(begun, 0);
    Parts(counts, 0);
    PlusLaws(ZERO, counts, ZERO);
    PlusLaws(counts, ZERO, ZERO);
    assert begun.pending[0 := Looking(counts, id)] == map[0 := Looking(counts, id)];
  }

  lemma LookedUp(counts: Counts, id: string)
    requires id != ""
    ensures
      var t := Tracker(counts, [ZERO], map[id := 0], map[0 := Adding(counts, 0, 0)], Unlocked, ZERO, ZERO, ZERO);
      Wellformed(t) && Reachable(t)
  {
    hide Reachable, Only, Since, Counts.Plus;
    var t := Tracker(counts, [], map[], map[0 := Looking(counts, id)], Unlocked, ZERO, ZERO, ZERO);
    Totalled(counts, id);
    StepReaches(t, Lookup(0));
    var u := Next(t, Lookup(0));
    assert u.records == [ZERO] && u.ids == map[id := 0] && u.pending == map[0 := Adding(counts, 0, 0)];
  }

  lemma Dropped(counts: Counts, id: string)
    requires id != ""
    ensures
      var t := Tracker(counts, [ZERO], map[], map[0 := Adding(counts, 0, 0)], Unlocked, ZERO, ZERO, ZERO);
      Wellformed(t) && Reachable(t)
  {
    hide Reachable, Only, Since, Counts.Plus;
    var t := Tracker(counts, [ZERO], map[id := 0], map[0 := Adding(counts, 0, 0)], Unlocked, ZERO, ZERO, ZERO);
    LookedUp(counts, id);
    StepReaches(t, Drop(id));
    PlusLaws(ZERO, ZERO, ZERO);
    assert Next(t, Drop(id)).ids == map[];
  }

  lemma Lost(counts: Counts, id: string)
    requires id != ""
    ensures
      var t := Tracker(counts, [counts], map[], map[], Unlocked, ZERO, ZERO, counts);
      Wellformed(t) && Reachable(t)
  {
    hide Reachable, Only, Since, Counts.Plus;
    var t := Tracker(counts, [ZERO], map[], map[0 := Adding(counts, 0, 0)], Unlocked, ZERO, ZERO, ZERO);
    Dropped(counts, id);
    LateAdditionsReach(t, 0);
    Parts(counts, 0);
    PlusLaws(counts, ZERO, ZERO);
    assert t.pending - {0} == map[] && t.records[0 := counts] == [counts];
  }

  // -------------------------------------------- steps that nothing comes in between of

  predicate CanRun(t: Tracker, steps: seq<Step>)
    requires Wellformed(t)
    decreases |steps|
  {
    steps == [] || (
      && Enabled(t, steps[0]) && Wellformed(Next(t, steps[0]))
      && CanRun(Next(t, steps[0]), steps[1..]))
  }

  function Exec(t: Tracker, steps: seq<Step>): (u: Tracker)
    requires Wellformed(t) && CanRun(t, steps)
    ensures Wellformed(u)
    decreases |steps|
  {
    if steps == [] then t else Exec(Next(t, steps[0]), steps[1..])
  }

  /** From `t` the steps can be taken one after another, and they lead to `u`. */
  predicate Leads(t: Tracker, steps: seq<Step>, u: Tracker) {
    Wellformed(t) && CanRun(t, steps) && Exec(t, steps) == u
  }

  lemma LeadsFirst(t: Tracker, s: Step, rest: seq<Step>, u: Tracker)
    requires Wellformed(t) && Enabled(t, s) && Leads(Next(t, s), rest, u)
    ensures Leads(t, [s] + rest, u)
  {
    hide Next, Enabled, Wellformed;
    assert ([s] + rest)[1..] == rest;
  }

  lemma {:induction false} LeadsOn(t: Tracker, a: seq<Step>, u: Tracker, b: seq<Step>, v: Tracker)
    requires Leads(t, a, u) && Leads(u, b, v)
    ensures Leads(t, a + b, v)
    decreases |a|
  {
    hide Next, Enabled, Wellformed;
    if a == [] {
      assert a + b == b;
    } else {
      LeadsOn(Next(t, a[0]), a[1..], u, b, v);
      assert a + b == [a[0]] + (a[1..] + b);
      LeadsFirst(t, a[0], a[1..] + b, v);
    }
  }

  function Times(s: Step, k: nat): seq<Step> {
    if k == 0 then [] else [s] + Times(s, k - 1)
  }

  lemma {:induction false} TotalsRun(t: Tracker, request: nat, k: nat)
    requires Wellformed(t) && request in t.pending && t.pending[request].Totalling?
    requires k == FIELDS - t.pending[request].next
    ensures
      var p := t.pending[request];
      Leads(t, Times(Total(request), k),
        t.(total := t.total.Plus(Since(p.counts, p.next)), pending := t.pending[request := Looking(p.counts, p.id)]))
    decreases k
  {
    hide Only, Since, OneOwner, MergeFits, Counts.Plus, Leads;
    var p, u := t.pending[request], Next(t, Total(request));
    var looking := t.pending[request := Looking(p.counts, p.id)];
    var end := t.(total := t.total.Plus(Since(p.counts, p.next)), pending := looking);
    StepKeepsWellformed(t, Total(request));
    Parts(p.counts, p.next);
    PlusLaws(t.total, Only(p.counts, p.next), Since(p.counts, p.next + 1));
    if p.next + 1 < FIELDS {
      TotalsRun(u, request, k - 1);
      assert u.pending[request := Looking(p.counts, p.id)] == end.pending;
    } else {
      PlusLaws(Only(p.counts, p.next), ZERO, ZERO);
      Nowhere(u);
    }
    LeadsFirst(t, Total(request), Times(Total(request), k - 1), end);
  }

  lemma Nowhere(t: Tracker)
    requires Wellformed(t)
    ensures Leads(t, [], t)
  {
  }

  // The counter that an id has, after a request's additions to it.
  lemma {:induction false} AdditionsRun(t: Tracker, request: nat, k: nat)
    requires Wellformed(t) && request in t.pending && t.pending[request].Adding?
    requires k == FIELDS - t.pending[request].next && InUse(t, t.pending[request].record)
    ensures
      var p := t.pending[request];
      Leads(t, Times(Addition(request), k),
        t.(records := t.records[p.record := t.records[p.record].Plus(Since(p.counts, p.next))],
           pending := t.pending - {request}))
    decreases k
  {
    hide Only, Since, OneOwner, MergeFits, Counts.Plus, Leads;
    var p, u := t.pending[request], Next(t, Addition(request));
    var part, rest := Only(p.counts, p.next), Since(p.counts, p.next + 1);
    var end := t.(records := t.records[p.record := t.records[p.record].Plus(Since(p.counts, p.next))],
                  pending := t.pending - {request});
    StepKeepsWellformed(t, Addition(request));
    Parts(p.counts, p.next);
    PlusLaws(t.records[p.record], part, rest);
    if p.next + 1 < FIELDS {
      assert InUse(u, p.record);
      AdditionsRun(u, request, k - 1);
      assert u.pending - {request} == end.pending;
      assert u.records[p.record := u.records[p.record].Plus(rest)] == end.records;
    } else {
      PlusLaws(part, ZERO, ZERO);
      Nowhere(u);
    }
    LeadsFirst(t, Addition(request), Times(Addition(request), k - 1), end);
  }

  lemma {:induction false} MergeRuns(t: Tracker, k: nat)
    requires Wellformed(t) && t.merging.Locked? && k == FIELDS - t.merging.merge.next
    ensures
      var m := t.merging.merge;
      Leads(t, Times(MergeCounter, k),
        t.(records := t.records[m.target := t.records[m.target].Plus(Since(t.records[m.source], m.next))],
           merging := Unlocked))
    decreases k
  {
    hide Only, Since, OneOwner, PendingFit, Counts.Plus, Leads;
    var m, u := t.merging.merge, Next(t, MergeCounter);
    var source := t.records[m.source];
    var part, rest := Only(source, m.next), Since(source, m.next + 1);
    var merged := t.records[m.target := t.records[m.target].Plus(Since(source, m.next))];
    var end := t.(records := merged, merging := Unlocked);
    StepKeepsWellformed(t, MergeCounter);
    assert m.source != m.target;
    Parts(source, m.next);
    PlusLaws(t.records[m.target], part, rest);
    if m.next + 1 < FIELDS {
      MergeRuns(u, k - 1);
      assert u.records[m.target := u.records[m.target].Plus(rest)] == end.records;
    } else {
      PlusLaws(part, ZERO, ZERO);
      Nowhere(u);
    }
    LeadsFirst(t, MergeCounter, Times(MergeCounter, k - 1), end);
  }

  /** All the steps of recording one request. */
  function RecordSteps(request: nat, counts: Counts, id: string): seq<Step> {
    [Begin(request, counts, id)] + (Times(Total(request), FIELDS)
      + ([Lookup(request)] + if id == "" then [] else Times(Addition(request), FIELDS)))
  }

  /** All the steps of a move. */
  function MoveSteps(t: Tracker, oldId: string, newId: string): seq<Step> {
    [Move(oldId, newId)] +
    if Moves(oldId, newId) && oldId in t.ids && newId in t.ids then Times(MergeCounter, FIELDS) else []
  }

  predicate Moves(oldId: string, newId: string) {
    oldId != "" && newId != "" && oldId != newId
  }

  // After its lookup a request adds to the record that its id has.
  lemma FromLookup(t: Tracker, request: nat, counts: Counts, id: string)
    requires Wellformed(t) && t.merging.Unlocked? && request in t.pending && t.pending[request] == Looking(counts, id)
    ensures
      exists u ::
        && Leads(t, [Lookup(request)] + if id == "" then [] else Times(Addition(request), FIELDS), u)
        && Wellformed(u) && Live(u) == Credit(Live(t), id, counts) && u.pending == t.pending - {request}
        && u.total == t.total && u.merging.Unlocked?
  {
    hide Only, Since, Counts.Plus, Leads, MergeFits, PendingFit;
    var looked := Next(t, Lookup(request));
    StepKeepsWellformed(t, Lookup(request));
    if id == "" {
      Nowhere(looked);
      LeadsFirst(t, Lookup(request), [], looked);
      SameLive(t, looked);
      assert Live(looked) == Credit(Live(t), id, counts);
    } else {
      var r := looked.ids[id];
      assert InUse(looked, r) && looked.pending[request] == Adding(counts, r, 0);
      AdditionsRun(looked, request, FIELDS);
      Parts(counts, 0);
      var credited := looked.records[r := looked.records[r].Plus(counts)];
      var u := looked.(records := credited, pending := looked.pending - {request});
      LeadsFirst(t, Lookup(request), Times(Addition(request), FIELDS), u);
      LeadsWell(t, [Lookup(request)] + Times(Addition(request), FIELDS), u);
      CreditedLive(t, looked, u, id, r, counts);
      assert u.pending == t.pending - {request};
    }
  }

  lemma LeadsWell(t: Tracker, steps: seq<Step>, u: Tracker)
    requires Leads(t, steps, u)
    ensures Wellformed(u)
  {
  }

  lemma CreditedLive(t: Tracker, looked: Tracker, u: Tracker, id: string, r: nat, counts: Counts)
    requires Wellformed(t) && Wellformed(looked) && Wellformed(u) && id != "" && id in looked.ids && looked.ids[id] == r
    requires looked.ids == (if id in t.ids then t.ids else t.ids[id := |t.records|])
    requires looked.records == (if id in t.ids then t.records else t.records + [ZERO])
    requires u.ids == looked.ids && u.records == looked.records[r := looked.records[r].Plus(counts)]
    ensures Live(u) == Credit(Live(t), id, counts)
  {
    hide PendingFit, MergeFits, Counts.Plus;
    var credited := Credit(Live(t), id, counts);
    forall x | x in u.ids ensures x in credited && Live(u)[x] == credited[x] {
      if x != id {
        assert u.ids[x] != r;
      }
    }
  }

  /** The steps can be taken one after another, and leave this behind and nothing under way. */
  ghost predicate LeaveBehind(t: Tracker, steps: seq<Step>, ledger: Ledger, total: Counts) {
    exists u: Tracker ::
      && Leads(t, steps, u) && Wellformed(u)
      && Live(u) == ledger && u.total == total && u.pending == t.pending && u.merging.Unlocked?
  }

  /** Taken without anything in between, the steps of a request, of a move and of a drop do to what the
  ids hold, and to the totals, what the serial tracker does. */
  lemma SerialStepsAreSerial(t: Tracker, request: nat, counts: Counts, id: string, oldId: string, newId: string)
    requires Wellformed(t) && t.merging.Unlocked? && request !in t.pending
    ensures LeaveBehind(t, RecordSteps(request, counts, id), Credit(Live(t), id, counts), t.total.Plus(counts))
    ensures LeaveBehind(t, MoveSteps(t, oldId, newId), Moved(Live(t), oldId, newId), t.total)
    ensures LeaveBehind(t, [Drop(id)], Live(t) - {id}, t.total)
  {
    hide LeaveBehind, RecordSteps, MoveSteps;
    RecordIsSerial(t, request, counts, id);
    MoveIsSerial(t, oldId, newId);
    DropIsSerial(t, id);
  }

  lemma RecordIsSerial(t: Tracker, request: nat, counts: Counts, id: string)
    requires Wellformed(t) && t.merging.Unlocked? && request !in t.pending
    ensures LeaveBehind(t, RecordSteps(request, counts, id), Credit(Live(t), id, counts), t.total.Plus(counts))
  {
    hide Only, Since, Counts.Plus, Leads, OneOwner, MergeFits, Times;
    var begun := Next(t, Begin(request, counts, id));
    StepKeepsWellformed(t, Begin(request, counts, id));
    TotalsRun(begun, request, FIELDS);
    Parts(counts, 0);
    var totalled := begun.(total := t.total.Plus(counts), pending := begun.pending[request := Looking(counts, id)]);
    LeadsWell(begun, Times(Total(request), FIELDS), totalled);
    SameLive(t, totalled);
    FromLookup(totalled, request, counts, id);
    var rest := [Lookup(request)] + if id == "" then [] else Times(Addition(request), FIELDS);
    var u :| Leads(totalled, rest, u) && Wellformed(u) && Live(u) == Credit(Live(totalled), id, counts)
      && u.pending == totalled.pending - {request} && u.total == totalled.total && u.merging.Unlocked?;
    LeadsOn(begun, Times(Total(request), FIELDS), totalled, rest, u);
    LeadsFirst(t, Begin(request, counts, id), Times(Total(request), FIELDS) + rest, u);
    assert u.pending == t.pending;
  }

  lemma MoveIsSerial(t: Tracker, oldId: string, newId: string)
    requires Wellformed(t) && t.merging.Unlocked?
    ensures LeaveBehind(t, MoveSteps(t, oldId, newId), Moved(Live(t), oldId, newId), t.total)
  {
    hide Only, Since, Leads, PendingFit, MergeFits, Times;
    var s := Move(oldId, newId);
    var moved := Next(t, s);
    StepKeepsWellformed(t, s);
    if Moves(oldId, newId) && oldId in t.ids && newId in t.ids {
      var source, target := t.ids[oldId], t.ids[newId];
      MergeRuns(moved, FIELDS);
      Parts(t.records[source], 0);
      var u := moved.(records := t.records[target := t.records[target].Plus(t.records[source])], merging := Unlocked);
      LeadsFirst(t, s, Times(MergeCounter, FIELDS), u);
      LeadsWell(moved, Times(MergeCounter, FIELDS), u);
      MergedLive(t, u, oldId, newId);
    } else {
      Nowhere(moved);
      LeadsFirst(t, s, [], moved);
      if moved != t {
        RenamedLive(t, moved, oldId, newId);
      }
    }
  }

  lemma RenamedLive(t: Tracker, u: Tracker, oldId: string, newId: string)
    requires Wellformed(t) && Wellformed(u) && Moves(oldId, newId) && oldId in t.ids && newId !in t.ids
    requires u.records == t.records && u.ids == (t.ids - {oldId})[newId := t.ids[oldId]]
    ensures Live(u) == Moved(Live(t), oldId, newId)
  {
    hide PendingFit, MergeFits;
    PlusLaws(Live(t)[oldId], ZERO, ZERO);
    var moved := Moved(Live(t), oldId, newId);
    assert Live(u).Keys == moved.Keys;
  }

  lemma MergedLive(t: Tracker, u: Tracker, oldId: string, newId: string)
    requires Wellformed(t) && Wellformed(u) && Moves(oldId, newId) && oldId in t.ids && newId in t.ids
    requires u.ids == t.ids - {oldId}
    requires
      var source, target := t.ids[oldId], t.ids[newId];
      u.records == t.records[target := t.records[target].Plus(t.records[source])]
    ensures Live(u) == Moved(Live(t), oldId, newId)
  {
    hide PendingFit, MergeFits;
    var moved := Moved(Live(t), oldId, newId);
    forall x | x in u.ids ensures x in moved && Live(u)[x] == moved[x] {
      if x != newId {
        assert t.ids[x] != t.ids[newId];
      }
    }
  }

  lemma DropIsSerial(t: Tracker, id: string)
    requires Wellformed(t) && t.merging.Unlocked?
    ensures LeaveBehind(t, [Drop(id)], Live(t) - {id}, t.total)
  {
    hide Leads;
    var u := Next(t, Drop(id));
    StepKeepsWellformed(t, Drop(id));
    Nowhere(u);
    LeadsFirst(t, Drop(id), [], u);
    assert [Drop(id)] + [] == [Drop(id)];
    assert Live(u) == Live(t) - {id};
  }
}
