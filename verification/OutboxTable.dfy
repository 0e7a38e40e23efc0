/** The outbox_events table and the relay's poll, publish, mark transaction. */
module OutboxTable {
  import opened Collections

  type Id = nat
  type Carrier = map<string, string>

  datatype Status = Pending | Published | Failed

  datatype Row = Row(kind: string, topic: string, payload: string, carrier: Carrier, status: Status,
                     createdAt: int, publishedAt: Option<int>, attempts: nat, lastError: string)

  type Table = map<Id, Row>

  const DEAD_LETTERED := "publish failed: max attempts exceeded"

  /** A row as the write side creates it. */
  function FreshRow(kind: string, topic: string, payload: string, carrier: Carrier, now: int): (r: Row) {
    Row(kind, topic, payload, carrier, Pending, now, None, 0, "")
  }

  function PendingIds(t: Table): set<Id> {
    set id | id in t && t[id].status == Pending
  }

  /** How many pending rows nobody else holds. */
  function Free(t: Table, locked: set<Id>): nat {
    |PendingIds(t) - locked|
  }

  function FailedAmong(t: Table, ids: set<Id>): set<Id> {
    set id | id in ids && id in t && t[id].status == Failed
  }

  /** UPDATE ... SET status = PUBLISHED WHERE id IN ids. */
  function MarkPublished(t: Table, ids: set<Id>, now: int): Table {
    map id | id in t :: if id in ids then t[id].(status := Published, publishedAt := Some(now)) else t[id]
  }

  /** One failed attempt on one row: the CASE expression of the bump statement. */
  function Bump(r: Row, maxAttempts: int): Row {
    if maxAttempts > 0 && r.attempts + 1 >= maxAttempts
    then r.(attempts := r.attempts + 1, status := Failed, lastError := DEAD_LETTERED)
    else r.(attempts := r.attempts + 1)
  }

  function IncrementAttempt(t: Table, ids: set<Id>, maxAttempts: int): Table {
    map id | id in t :: if id in ids then Bump(t[id], maxAttempts) else t[id]
  }

  /** What a committed batch does to the table. */
  function Marked(t: Table, published: set<Id>, failed: set<Id>, maxAttempts: int, now: int): Table {
    IncrementAttempt(MarkPublished(t, published, now), failed, maxAttempts)
  }

  /**
   * SELECT ... WHERE status = PENDING ORDER BY created_at LIMIT limit FOR UPDATE SKIP LOCKED:
   * the oldest pending rows nobody else holds, as many as there are up to the limit.
   */
  ghost predicate IsPoll(t: Table, locked: set<Id>, limit: nat, picked: seq<Id>) {
    var available := PendingIds(t) - locked;
    && Distinct(picked)
    && (forall i :: 0 <= i < |picked| ==> picked[i] in available)
    && |picked| == (if |available| < limit then |available| else limit)
    && (forall i, j :: 0 <= i < j < |picked| ==> t[picked[i]].createdAt <= t[picked[j]].createdAt)
    && (forall x, i :: x in available && x !in picked && 0 <= i < |picked| ==>
          t[picked[i]].createdAt <= t[x].createdAt)
  }

  lemma {:induction false} OldestExists(t: Table, s: set<Id>)
    requires s != {} && s <= t.Keys
    ensures exists m :: m in s && forall x :: x in s ==> t[m].createdAt <= t[x].createdAt
    decreases |s|
  {
    var y :| y in s;
    if s == {y} {
      assert forall x :: x in s ==> t[y].createdAt <= t[x].createdAt;
    } else {
      assert |s - {y}| < |s|;
      assert s == (s - {y}) + {y};
      OldestExists(t, s - {y});
      var m :| m in s - {y} && forall x :: x in s - {y} ==> t[m].createdAt <= t[x].createdAt;
      var best := if t[y].createdAt < t[m].createdAt then y else m;
      assert forall x :: x in s ==> t[best].createdAt <= t[x].createdAt;
    }
  }

  /** Part of a poll: picked holds the oldest of available in order, rest what was not picked. */
  ghost predicate OldestFirst(t: Table, available: set<Id>, picked: seq<Id>, rest: set<Id>) {
    && available <= t.Keys && rest <= available
    && Distinct(picked) && |picked| + |rest| == |available|
    && (forall i :: 0 <= i < |picked| ==> picked[i] in available && picked[i] !in rest)
    && (forall x :: x in available ==> x in rest || x in picked)
    && (forall i, j :: 0 <= i < j < |picked| ==> t[picked[i]].createdAt <= t[picked[j]].createdAt)
    && (forall x, i :: x in rest && 0 <= i < |picked| ==> t[picked[i]].createdAt <= t[x].createdAt)
  }

  lemma PickOldest(t: Table, available: set<Id>, picked: seq<Id>, rest: set<Id>, m: Id)
    requires OldestFirst(t, available, picked, rest)
    requires m in rest && forall x :: x in rest ==> t[m].createdAt <= t[x].createdAt
    ensures OldestFirst(t, available, picked + [m], rest - {m})
  {
  }

  // --- What a row still owes: the budget that bounds retries ------------------------------

  /** Attempts a row may still consume before it leaves the pending state. */
  function Owed(r: Row, maxAttempts: int): nat {
    if r.status == Pending && r.attempts < maxAttempts then maxAttempts - r.attempts else 0
  }

  ghost function Debt(t: Table, ids: set<Id>, maxAttempts: int): nat
    requires ids <= t.Keys
    decreases |ids|
  {
    if ids == {} then 0 else
    var x :| x in ids;
    Owed(t[x], maxAttempts) + Debt(t, ids - {x}, maxAttempts)
  }

  lemma {:induction false} DebtRemove(t: Table, ids: set<Id>, x: Id, maxAttempts: int)
    requires ids <= t.Keys && x in ids
    ensures Debt(t, ids, maxAttempts) == Owed(t[x], maxAttempts) + Debt(t, ids - {x}, maxAttempts)
    decreases |ids|
  {
    var y :| y in ids && Debt(t, ids, maxAttempts) == Owed(t[y], maxAttempts) + Debt(t, ids - {y}, maxAttempts);
    if y != x {
      DebtRemove(t, ids - {y}, x, maxAttempts);
      DebtRemove(t, ids - {x}, y, maxAttempts);
      assert ids - {y} - {x} == ids - {x} - {y};
    }
  }

  /** Rows that each pay at least one unit pay at least their number in all. */
  lemma {:induction false} DebtFalls(t: Table, u: Table, ids: set<Id>, paid: set<Id>, maxAttempts: int)
    requires ids <= t.Keys && ids <= u.Keys && paid <= ids
    requires forall x :: x in ids ==>
               Owed(u[x], maxAttempts) + (if x in paid then 1 else 0) <= Owed(t[x], maxAttempts)
    ensures Debt(u, ids, maxAttempts) + |paid| <= Debt(t, ids, maxAttempts)
    decreases |ids|
  {
    if ids != {} {
      var x :| x in ids;
      DebtRemove(t, ids, x, maxAttempts);
      DebtRemove(u, ids, x, maxAttempts);
      DebtFalls(t, u, ids - {x}, paid - {x}, maxAttempts);
      if x in paid { assert |paid - {x}| == |paid| - 1; } else { assert paid - {x} == paid; }
    }
  }

  lemma {:induction false} DebtZero(t: Table, ids: set<Id>, x: Id, maxAttempts: int)
    requires ids <= t.Keys && x in ids && Owed(t[x], maxAttempts) > 0
    ensures Debt(t, ids, maxAttempts) > 0
  {
    DebtRemove(t, ids, x, maxAttempts);
  }

  /** Attempts stay under the limit while a row is pending and meet it exactly when it is dead-lettered. */
  predicate AttemptsBounded(t: Table, maxAttempts: int) {
    forall id :: id in t ==>
      && (t[id].status == Failed ==> maxAttempts > 0 && t[id].attempts == maxAttempts)
      && (t[id].status == Pending && maxAttempts > 0 ==> t[id].attempts < maxAttempts)
  }

  /** The batch report accounts for every picked row exactly once. */
  datatype Report = Report(published: seq<Id>, failed: seq<Id>)

  predicate Splits(report: Report, picked: seq<Id>) {
    multiset(report.published) + multiset(report.failed) == multiset(picked)
  }

  /** A pool that accounts for every row it is given. */
  ghost predicate Accounts(publish: seq<Id> -> Report) {
    forall picked: seq<Id> :: Distinct(picked) ==> Splits(publish(picked), picked)
  }

  lemma SplitsAsSets(report: Report, picked: seq<Id>)
    requires Splits(report, picked) && Distinct(picked)
    ensures Elements(report.published) + Elements(report.failed) == Elements(picked)
    ensures Elements(report.published) !! Elements(report.failed)
  {
    forall x ensures x in picked <==> x in report.published || x in report.failed {
      assert x in picked <==> x in multiset(picked);
      assert x in report.published <==> x in multiset(report.published);
      assert x in report.failed <==> x in multiset(report.failed);
    }
    forall x | x in report.published && x in report.failed ensures false {
      assert multiset(report.published)[x] >= 1 && multiset(report.failed)[x] >= 1;
      DistinctOnce(picked, x);
    }
  }

  lemma {:induction false} DistinctOnce(s: seq<Id>, x: Id)
    requires Distinct(s)
    ensures multiset(s)[x] <= 1
  {
    if s != [] {
      var rest := s[..|s| - 1];
      DistinctOnce(rest, x);
      assert s == rest + [s[|s| - 1]];
      if s[|s| - 1] == x { assert x !in multiset(rest); }
    }
  }

  /**
   * A committed batch over pending rows: published rows leave the pending state for good, failed
   * rows use up one attempt, nobody else is touched, and the dead-letter count is the number of
   * rows the batch itself moved to FAILED.
   */
  lemma MarkedOutcome(t: Table, published: set<Id>, failed: set<Id>, maxAttempts: int, now: int)
    requires published !! failed && published + failed <= PendingIds(t)
    requires AttemptsBounded(t, maxAttempts)
    ensures var u := Marked(t, published, failed, maxAttempts, now);
            && u.Keys == t.Keys && AttemptsBounded(u, maxAttempts)
            && PendingIds(u) == PendingIds(t) - published - FailedAmong(u, failed)
            && FailedAmong(u, failed) == FailedAmong(u, u.Keys) - FailedAmong(t, t.Keys)
            && (maxAttempts > 0 ==>
                  Debt(u, t.Keys, maxAttempts) + |published + failed| <= Debt(t, t.Keys, maxAttempts))
  {
    var u := Marked(t, published, failed, maxAttempts, now);
    MarkedRows(t, published, failed, maxAttempts, now);
    RowsToOutcome(t, u, published, failed, maxAttempts, now);
    if maxAttempts > 0 {
      DebtFalls(t, u, t.Keys, published + failed, maxAttempts);
    }
  }

  /** The fate of one row in a committed batch; its content never changes. */
  predicate MarkedRow(r: Row, r': Row, published: bool, failed: bool, maxAttempts: int, now: int) {
    && r'.kind == r.kind && r'.topic == r.topic && r'.payload == r.payload && r'.carrier == r.carrier
    && r'.createdAt == r.createdAt
    && r'.publishedAt == (if published then Some(now) else r.publishedAt)
    && r'.attempts == (if failed then r.attempts + 1 else r.attempts)
    && var dead := failed && maxAttempts > 0 && r.attempts + 1 >= maxAttempts;
    && r'.status == (if published then Published else if dead then Failed else r.status)
    && r'.lastError == (if dead then DEAD_LETTERED else r.lastError)
  }

  ghost predicate MarkedTable(t: Table, u: Table, published: set<Id>, failed: set<Id>, maxAttempts: int, now: int) {
    && u.Keys == t.Keys
    && forall id :: id in t ==> MarkedRow(t[id], u[id], id in published, id in failed, maxAttempts, now)
  }

  lemma MarkedRows(t: Table, published: set<Id>, failed: set<Id>, maxAttempts: int, now: int)
    requires published !! failed
    ensures MarkedTable(t, Marked(t, published, failed, maxAttempts, now), published, failed, maxAttempts, now)
  {
    var v := MarkPublished(t, published, now);
    assert v.Keys == t.Keys;
    assert IncrementAttempt(v, failed, maxAttempts).Keys == v.Keys;
  }

  lemma RowsToOutcome(t: Table, u: Table, published: set<Id>, failed: set<Id>, maxAttempts: int, now: int)
    requires MarkedTable(t, u, published, failed, maxAttempts, now)
    requires published !! failed && published + failed <= PendingIds(t)
    requires AttemptsBounded(t, maxAttempts)
    ensures AttemptsBounded(u, maxAttempts)
    ensures PendingIds(u) == PendingIds(t) - published - FailedAmong(u, failed)
    ensures FailedAmong(u, failed) == FailedAmong(u, u.Keys) - FailedAmong(t, t.Keys)
    ensures maxAttempts > 0 ==> forall x :: x in t ==>
              Owed(u[x], maxAttempts) + (if x in published + failed then 1 else 0) <= Owed(t[x], maxAttempts)
  {
    forall id | id in published + failed ensures id in t && t[id].status == Pending {
      assert id in PendingIds(t);
    }
  }

  /** Where the relay's transaction may be cut short; a lost commit reply is an error after the fact. */
  datatype Fault =
    NoFault | PollFault | PublishFault | MarkFault | BumpFault | CountFault | CommitFault | CommitReplyLost

  /** Whether a batch gets to where the fault is. */
  predicate Strikes(fault: Fault, picked: seq<Id>, report: Report, maxAttempts: int) {
    match fault
    case NoFault => false
    case PollFault => true
    case PublishFault => picked != []
    case MarkFault => picked != [] && report.published != []
    case BumpFault => picked != [] && report.failed != []
    case CountFault => picked != [] && report.failed != [] && maxAttempts > 0
    case CommitFault => true
    case CommitReplyLost => true
  }

  /** Whether the transaction takes effect: it does without a fault, and also when only the reply is lost. */
  predicate Commits(fault: Fault, picked: seq<Id>, report: Report, maxAttempts: int) {
    fault == CommitReplyLost || !Strikes(fault, picked, report, maxAttempts)
  }

  lemma NobodyFailed(t: Table)
    ensures FailedAmong(t, {}) == {}
  {
  }

  /** Marking nobody published, or nobody failed, changes nothing. */
  lemma MarkNobody(t: Table, maxAttempts: int, now: int)
    ensures MarkPublished(t, {}, now) == t && IncrementAttempt(t, {}, maxAttempts) == t
  {
  }

  class Store {
    var rows: Table

    constructor ()
      ensures rows == map[]
    {
      rows := map[];
    }

    /** Write side: the primary key refuses a second row with the same id. */
    method Insert(id: Id, kind: string, topic: string, payload: string, carrier: Carrier, now: int) returns (ok: bool)
      modifies this
      ensures ok <==> id !in old(rows)
      ensures rows == if ok then old(rows)[id := FreshRow(kind, topic, payload, carrier, now)] else old(rows)
      ensures ok ==> rows[id] == Row(kind, topic, payload, carrier, Pending, now, None, 0, "")
      ensures forall maxAttempts :: AttemptsBounded(old(rows), maxAttempts) ==> AttemptsBounded(rows, maxAttempts)
    {
      ok := id !in rows;
      if ok {
        rows := rows[id := FreshRow(kind, topic, payload, carrier, now)];
      }
    }

    /** The oldest pending rows nobody holds, oldest first, as many as there are up to the limit. */
    method Poll(limit: nat, locked: set<Id>) returns (picked: seq<Id>)
      ensures IsPoll(rows, locked, limit, picked)
      ensures forall id :: id in picked ==> id in rows && rows[id].status == Pending && id !in locked
      ensures forall i, j :: 0 <= i < j < |picked| ==> rows[picked[i]].createdAt <= rows[picked[j]].createdAt
      ensures forall id, x :: id in picked && x in rows && rows[x].status == Pending && x !in locked && x !in picked ==>
                rows[id].createdAt <= rows[x].createdAt
      ensures |picked| < limit ==> forall x :: x in rows && rows[x].status == Pending && x !in locked ==> x in picked
    {
      picked := [];
      var rest := PendingIds(rows) - locked;
      ghost var available := rest;
      while |picked| < limit && rest != {}
        invariant available == PendingIds(rows) - locked
        invariant OldestFirst(rows, available, picked, rest) && |picked| <= limit
        decreases rest
      {
        OldestExists(rows, rest);
        var m :| m in rest && forall x :: x in rest ==> rows[m].createdAt <= rows[x].createdAt;
        PickOldest(rows, available, picked, rest, m);
        picked := picked + [m];
        rest := rest - {m};
      }
    }

    /**
     * One poll, publish, mark cycle in one transaction: either everything the report says is written, or
     * the table is left alone. The caller is told of an error, and of no dead letters, also when the
     * commit went through and only its reply was lost.
     */
    method RunBatch(limit: nat, maxAttempts: int, locked: set<Id>, publish: seq<Id> -> Report, fault: Fault, now: int)
      returns (polled: nat, deadLettered: nat, ok: bool, ghost picked: seq<Id>)
      modifies this
      ensures ok <==> !Strikes(fault, picked, publish(picked), maxAttempts)
      ensures IsPoll(old(rows), locked, limit, picked)
      ensures polled == if fault == PollFault then 0 else |picked|
      ensures !Commits(fault, picked, publish(picked), maxAttempts) || picked == [] ==> rows == old(rows)
      ensures Commits(fault, picked, publish(picked), maxAttempts) && picked != [] ==>
                var published, failed := Elements(publish(picked).published), Elements(publish(picked).failed);
                && rows == Marked(old(rows), published, failed, maxAttempts, now)
                && (published !! failed ==> MarkedTable(old(rows), rows, published, failed, maxAttempts, now))
      ensures deadLettered == if ok && picked != [] && maxAttempts > 0
                              then |FailedAmong(rows, Elements(publish(picked).failed))| else 0
    {
      hide MarkPublished, IncrementAttempt, FailedAmong, IsPoll, MarkedTable;
      polled, deadLettered, ok := 0, 0, false;
      var batch := Poll(limit, locked);
      picked := batch;
      if fault == PollFault { return; }
      polled := |batch|;
      var tx := rows;
      var dead := 0;
      if polled > 0 {
        if fault == PublishFault { return; }
        var report := publish(batch);
        if |report.published| > 0 {
          if fault == MarkFault { return; }
          tx := MarkPublished(tx, Elements(report.published), now);
        } else {
          assert Elements(report.published) == {};
          MarkNobody(tx, maxAttempts, now);
        }
        if |report.failed| > 0 {
          if fault == BumpFault { return; }
          tx := IncrementAttempt(tx, Elements(report.failed), maxAttempts);
          if maxAttempts > 0 {
            if fault == CountFault { return; }
            dead := |FailedAmong(tx, Elements(report.failed))|;
          }
        } else {
          assert Elements(report.failed) == {};
          MarkNobody(tx, maxAttempts, now);
          NobodyFailed(tx);
        }
      }
      if fault == CommitFault { return; }
      ghost var published, failed := Elements(publish(batch).published), Elements(publish(batch).failed);
      if published !! failed { MarkedRows(rows, published, failed, maxAttempts, now); }
      rows := tx;
      if fault == CommitReplyLost { return; }
      deadLettered, ok := dead, true;
    }

    method CountPending() returns (n: nat)
      ensures n == |PendingIds(rows)|
    {
      n := |PendingIds(rows)|;
    }
  }

  datatype RelayConfig = RelayConfig(batchSize: int, workers: int, maxAttempts: int) {
    function WithDefaults(): (c: RelayConfig)
      ensures c.batchSize > 0 && c.workers > 0 && c.maxAttempts == maxAttempts
      ensures c.batchSize == (if batchSize > 0 then batchSize else 100)
      ensures c.workers == (if workers > 0 then workers else 4)
    {
      RelayConfig(if batchSize <= 0 then 100 else batchSize, if workers <= 0 then 4 else workers, maxAttempts)
    }
  }

  /** A batch that takes effect on a nonempty poll always shows: some row is published or has an attempt more. */
  lemma CommitShows(t: Table, picked: seq<Id>, report: Report, maxAttempts: int, now: int)
    requires picked != [] && Distinct(picked) && Splits(report, picked)
    requires forall i :: 0 <= i < |picked| ==> picked[i] in PendingIds(t)
    ensures Marked(t, Elements(report.published), Elements(report.failed), maxAttempts, now) != t
  {
    var published, failed := Elements(report.published), Elements(report.failed);
    SplitsAsSets(report, picked);
    MarkedRows(t, published, failed, maxAttempts, now);
    assert picked[0] in Elements(picked) && picked[0] in PendingIds(t);
    hide Marked, Splits;
    assert MarkedRow(t[picked[0]], Marked(t, published, failed, maxAttempts, now)[picked[0]],
                     picked[0] in published, picked[0] in failed, maxAttempts, now);
  }

  /**
   * An error means an untouched table exactly when the commit reply was not the one thing lost, or nothing
   * was polled.
   */
  lemma ErrorMeansUntouchedIff(t: Table, u: Table, picked: seq<Id>, report: Report, fault: Fault, maxAttempts: int,
                               now: int)
    requires Distinct(picked) && Splits(report, picked)
    requires forall i :: 0 <= i < |picked| ==> picked[i] in PendingIds(t)
    requires Strikes(fault, picked, report, maxAttempts)
    requires u == if Commits(fault, picked, report, maxAttempts) && picked != []
                  then Marked(t, Elements(report.published), Elements(report.failed), maxAttempts, now) else t
    ensures u == t <==> fault != CommitReplyLost || picked == []
  {
    if picked != [] { CommitShows(t, picked, report, maxAttempts, now); }
  }

  /** The batch would dead-letter the row if its publish failed. */
  predicate LastAttempt(r: Row, maxAttempts: int) {
    maxAttempts > 0 && r.attempts + 1 >= maxAttempts
  }

  /**
   * The dead-letter count of a batch that took effect is the rows it moved to FAILED exactly when the caller
   * got the reply, or no failed row was on its last attempt.
   */
  lemma CountIsMovedIff(t: Table, picked: seq<Id>, report: Report, maxAttempts: int, now: int, replied: bool)
    requires AttemptsBounded(t, maxAttempts)
    requires Distinct(picked) && (forall i :: 0 <= i < |picked| ==> picked[i] in PendingIds(t))
            && Splits(report, picked)
    ensures var failed := Elements(report.failed);
            var u := Marked(t, Elements(report.published), failed, maxAttempts, now);
            var count := if replied && maxAttempts > 0 then |FailedAmong(u, failed)| else 0;
            && failed <= t.Keys
            && (count == |FailedAmong(u, u.Keys) - FailedAmong(t, t.Keys)|
                <==> replied || forall id :: id in failed ==> !LastAttempt(t[id], maxAttempts))
  {
    var published, failed := Elements(report.published), Elements(report.failed);
    SplitsAsSets(report, picked);
    assert published + failed <= PendingIds(t);
    MarkedOutcome(t, published, failed, maxAttempts, now);
    MarkedRows(t, published, failed, maxAttempts, now);
    var u := Marked(t, published, failed, maxAttempts, now);
    hide Marked, Splits, Debt, AttemptsBounded;
    forall id ensures id in FailedAmong(u, failed) <==> id in failed && LastAttempt(t[id], maxAttempts) {
      if id in failed { assert MarkedRow(t[id], u[id], id in published, id in failed, maxAttempts, now); }
    }
    assert |FailedAmong(u, failed)| == 0 <==> FailedAmong(u, failed) == {};
  }

  /**
   * The relay's catch-up loop: it polls back to back while batches come back full, whether or not they
   * succeed. Other replicas may hold rows at each poll, and the first polls may fail anywhere. With
   * dead-lettering on, the attempts still owed pay for every row a batch handled, so once the faults are
   * over the loop stops, whatever the bus answers. If its last poll succeeded, less than one batch is
   * pending and free.
   */
  method CatchUp(store: Store, cfg: RelayConfig, publish: nat -> (seq<Id> -> Report), faults: seq<Fault>,
                 locks: nat -> set<Id>, now: int)
    returns (polls: nat, handled: nat, ok: bool)
    requires cfg.maxAttempts > 0 && AttemptsBounded(store.rows, cfg.maxAttempts)
    requires forall poll: nat :: Accounts(publish(poll))
    modifies store
    ensures AttemptsBounded(store.rows, cfg.maxAttempts) && store.rows.Keys == old(store.rows).Keys
    ensures polls > 0 && (ok ==> Free(store.rows, locks(polls - 1)) < cfg.WithDefaults().batchSize)
    ensures polls > |faults| ==> ok
    ensures Debt(store.rows, store.rows.Keys, cfg.maxAttempts) + handled
         <= old(Debt(store.rows, store.rows.Keys, cfg.maxAttempts))
  {
    hide Debt, AttemptsBounded, Accounts, Free;
    var c := cfg.WithDefaults();
    polls, handled, ok := 0, 0, false;
    var more := true;
    while more
      invariant AttemptsBounded(store.rows, c.maxAttempts) && store.rows.Keys == old(store.rows).Keys
      invariant Debt(store.rows, store.rows.Keys, c.maxAttempts) + handled
             <= old(Debt(store.rows, store.rows.Keys, cfg.maxAttempts))
      invariant !more ==> polls > 0 && (ok ==> Free(store.rows, locks(polls - 1)) < c.batchSize)
      invariant polls > |faults| ==> ok
      decreases if polls < |faults| then |faults| - polls else 0, Debt(store.rows, store.rows.Keys, c.maxAttempts), more
    {
      var fault := if polls < |faults| then faults[polls] else NoFault;
      var n, done, replied := ProcessBatch(store, c, publish(polls), fault, locks(polls), now);
      polls, handled, ok, more := polls + 1, handled + done, replied, n >= c.batchSize;
    }
  }

  /** One batch as the loop sees it: the rows polled, those it handled for good, and whether it succeeded. */
  method ProcessBatch(store: Store, c: RelayConfig, publish: seq<Id> -> Report, fault: Fault, locked: set<Id>, now: int)
    returns (polled: nat, done: nat, ok: bool)
    requires c.maxAttempts > 0 && c.batchSize > 0 && AttemptsBounded(store.rows, c.maxAttempts)
    requires Accounts(publish)
    modifies store
    ensures AttemptsBounded(store.rows, c.maxAttempts) && store.rows.Keys == old(store.rows).Keys
    ensures ok || fault == CommitReplyLost ==> done == polled
    ensures !ok && fault != CommitReplyLost ==> done == 0
    ensures Debt(store.rows, store.rows.Keys, c.maxAttempts) + done
         <= old(Debt(store.rows, store.rows.Keys, c.maxAttempts))
    ensures fault == NoFault ==> ok
    ensures ok && polled < c.batchSize ==> Free(store.rows, locked) < c.batchSize
  {
    hide Debt, Marked, Splits, AttemptsBounded;
    ghost var before := store.rows;
    var n, _, replied, picked := store.RunBatch(c.batchSize, c.maxAttempts, locked, publish, fault, now);
    polled, ok := n, replied;
    done := if ok || fault == CommitReplyLost then polled else 0;
    if done > 0 { BatchPays(before, picked, publish(picked), c.maxAttempts, now); }
    SubsetSize(PendingIds(store.rows) - locked, PendingIds(before) - locked);
  }

  /** What the pending gauge shows falls by exactly the rows a batch published and dead-lettered. */
  lemma PendingFalls(t: Table, picked: seq<Id>, report: Report, maxAttempts: int, now: int)
    requires AttemptsBounded(t, maxAttempts)
    requires Distinct(picked) && (forall i :: 0 <= i < |picked| ==> picked[i] in PendingIds(t))
            && Splits(report, picked)
    ensures var failed := Elements(report.failed);
            var u := Marked(t, Elements(report.published), failed, maxAttempts, now);
            |PendingIds(u)| == |PendingIds(t)| - |Elements(report.published)| - |FailedAmong(u, failed)|
  {
    var published, failed := Elements(report.published), Elements(report.failed);
    SplitsAsSets(report, picked);
    assert published + failed <= PendingIds(t);
    MarkedOutcome(t, published, failed, maxAttempts, now);
    var u := Marked(t, published, failed, maxAttempts, now);
    hide PendingIds, FailedAmong, Marked, Elements, AttemptsBounded, Debt;
    SplitOff(PendingIds(t), published, FailedAmong(u, failed), failed);
  }

  lemma SplitOff(all: set<Id>, a: set<Id>, b: set<Id>, c: set<Id>)
    requires a + c <= all && a !! c && b <= c
    ensures |all - a - b| == |all| - |a| - |b|
  {
    assert all == (all - a - b) + (a + b);
  }

  /** A batch over polled rows pays one unit of debt per row and never adds pending rows. */
  lemma BatchPays(t: Table, picked: seq<Id>, report: Report, maxAttempts: int, now: int)
    requires maxAttempts > 0 && AttemptsBounded(t, maxAttempts)
    requires Distinct(picked) && (forall i :: 0 <= i < |picked| ==> picked[i] in PendingIds(t))
            && Splits(report, picked)
    ensures var u := Marked(t, Elements(report.published), Elements(report.failed), maxAttempts, now);
            && u.Keys == t.Keys && AttemptsBounded(u, maxAttempts)
            && Debt(u, t.Keys, maxAttempts) + |picked| <= Debt(t, t.Keys, maxAttempts)
            && PendingIds(u) <= PendingIds(t)
  {
    SplitsAsSets(report, picked);
    MarkedOutcome(t, Elements(report.published), Elements(report.failed), maxAttempts, now);
    DistinctSize(picked);
  }
}
