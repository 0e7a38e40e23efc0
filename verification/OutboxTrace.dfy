/**
 * What the table and the bus of the outbox say about the run that made them: which write each row came
 * from, which publish each copy came from, and when a row was marked.
 */
module OutboxTrace {
  import opened Collections
  import opened OutboxTable
  import opened OutboxProtocol

  lemma {:induction false} RunsFront(cfg: Config, s: Sys, steps: seq<Step>)
    requires steps != [] && Runs(cfg, s, steps)
    ensures var front, last := steps[..|steps| - 1], steps[|steps| - 1];
            && Runs(cfg, s, front) && Enabled(cfg, Final(cfg, s, front), last)
            && Final(cfg, s, steps) == Apply(cfg, Final(cfg, s, front), last)
    decreases |steps|
  {
    hide Enabled, Apply;
    var front := steps[..|steps| - 1];
    if |steps| > 1 {
      var s' := Apply(cfg, s, steps[0]);
      RunsFront(cfg, s', steps[1..]);
      assert steps[1..][..|steps[1..]| - 1] == front[1..];
    } else {
      assert Final(cfg, Apply(cfg, s, steps[0]), steps[1..]) == Apply(cfg, s, steps[0]);
    }
  }

  lemma RunsNone(cfg: Config)
    ensures Inv(cfg, INIT) && Runs(cfg, INIT, []) && Final(cfg, INIT, []) == INIT
  {
  }

  // --- Which write a row came from ---------------------------------------------------------------

  predicate Concerns(step: Step, x: nat) {
    (step.TxWrite? || step.TxInsert? || step.TxCommit? || step.TxAbort?) && step.tx == x
  }

  /** Step j is the insert of transaction x that counts at time k: nothing of x happens in between. */
  predicate LastInsert(steps: seq<Step>, j: nat, k: nat, x: nat) {
    && j < k <= |steps| && steps[j].TxInsert? && steps[j].tx == x
    && forall m :: j < m < k ==> !Concerns(steps[m], x)
  }

  ghost predicate TxTraced(steps: seq<Step>, x: nat, tx: Tx) {
    tx.inserted.Some? ==>
      exists j: nat :: LastInsert(steps, j, |steps|, x) && steps[j].ask == tx.inserted.value.ask
  }

  /** Transaction x inserted at step j, committed at step k, and the row it answers for is the one it asked for. */
  predicate CommittedAt(steps: seq<Step>, j: nat, k: nat, x: nat, a: Ask) {
    k < |steps| && steps[k] == TxCommit(x) && LastInsert(steps, j, k, x) && steps[j].ask == a
  }

  ghost predicate WriteTraced(steps: seq<Step>, x: nat, a: Ask) {
    exists j: nat, k: nat :: CommittedAt(steps, j, k, x, a)
  }

  /** Some write of the run asked for the row: one on its own, or that of a transaction that committed. */
  ghost predicate RowTraced(steps: seq<Step>, a: Ask) {
    InsertAlone(a) in steps || exists x: nat :: WriteTraced(steps, x, a)
  }

  ghost predicate WritersTraced(s: Sys, steps: seq<Step>) {
    && s.origin.Keys == s.rows.Keys
    && (forall x :: x in s.txs ==> TxTraced(steps, x, s.txs[x]))
    && (forall x :: x in s.writes ==> s.writes[x] in s.origin && WriteTraced(steps, x, s.origin[s.writes[x]]))
    && (forall id :: id in s.origin ==> RowTraced(steps, s.origin[id]))
    && (forall k :: 0 <= k < |steps| && steps[k].TxCommit? ==> steps[k].tx in s.writes)
  }

  lemma LaterTx(steps: seq<Step>, step: Step, x: nat, tx: Tx)
    requires TxTraced(steps, x, tx) && !Concerns(step, x)
    ensures TxTraced(steps + [step], x, tx)
  {
    if tx.inserted.Some? {
      var j: nat :| LastInsert(steps, j, |steps|, x) && steps[j].ask == tx.inserted.value.ask;
      assert LastInsert(steps + [step], j, |steps| + 1, x);
    }
  }

  lemma LaterWrite(steps: seq<Step>, step: Step, x: nat, a: Ask)
    requires WriteTraced(steps, x, a)
    ensures WriteTraced(steps + [step], x, a)
  {
    var j: nat, k: nat :| CommittedAt(steps, j, k, x, a);
    assert CommittedAt(steps + [step], j, k, x, a);
  }

  lemma LaterRow(steps: seq<Step>, step: Step, a: Ask)
    requires RowTraced(steps, a)
    ensures RowTraced(steps + [step], a)
  {
    if InsertAlone(a) !in steps {
      var x: nat :| WriteTraced(steps, x, a);
      LaterWrite(steps, step, x, a);
    }
  }

  lemma FreshTx(steps: seq<Step>, x: nat, a: Ask, id: Id, row: Row)
    ensures TxTraced(steps + [TxInsert(x, a)], x, Tx(Some(Insertion(id, a, row))))
  {
    assert LastInsert(steps + [TxInsert(x, a)], |steps|, |steps| + 1, x);
  }

  lemma FreshWrite(steps: seq<Step>, x: nat, tx: Tx)
    requires TxTraced(steps, x, tx) && tx.inserted.Some?
    ensures WriteTraced(steps + [TxCommit(x)], x, tx.inserted.value.ask)
    ensures RowTraced(steps + [TxCommit(x)], tx.inserted.value.ask)
  {
    var j: nat :| LastInsert(steps, j, |steps|, x) && steps[j].ask == tx.inserted.value.ask;
    assert CommittedAt(steps + [TxCommit(x)], j, |steps|, x, tx.inserted.value.ask);
  }

  /** What was traced stays traced, so a step need only account for what it changes. */
  lemma Carried(s: Sys, t: Sys, steps: seq<Step>, step: Step)
    requires WritersTraced(s, steps) && t.origin.Keys == t.rows.Keys
    requires forall x :: x in t.txs ==>
               (x in s.txs && t.txs[x] == s.txs[x] && !Concerns(step, x)) || TxTraced(steps + [step], x, t.txs[x])
    requires forall x :: x in t.writes ==> t.writes[x] in t.origin
    requires forall x :: x in t.writes ==>
               (x in s.writes && t.writes[x] == s.writes[x]) || WriteTraced(steps + [step], x, t.origin[t.writes[x]])
    requires forall id :: id in s.origin ==> id in t.origin && t.origin[id] == s.origin[id]
    requires forall id :: id in t.origin ==> id in s.origin || RowTraced(steps + [step], t.origin[id])
    requires s.writes.Keys <= t.writes.Keys && (step.TxCommit? ==> step.tx in t.writes)
    ensures WritersTraced(t, steps + [step])
  {
    var steps' := steps + [step];
    hide TxTraced, WriteTraced, RowTraced, Concerns;
    forall x | x in t.txs ensures TxTraced(steps', x, t.txs[x]) {
      if x in s.txs && t.txs[x] == s.txs[x] && !Concerns(step, x) { LaterTx(steps, step, x, s.txs[x]); }
    }
    forall x | x in t.writes ensures WriteTraced(steps', x, t.origin[t.writes[x]]) {
      if x in s.writes && t.writes[x] == s.writes[x] { LaterWrite(steps, step, x, s.origin[s.writes[x]]); }
    }
    forall id | id in t.origin ensures RowTraced(steps', t.origin[id]) {
      if id in s.origin { LaterRow(steps, step, s.origin[id]); }
    }
  }

  predicate OfTx(step: Step) {
    step.TxWrite? || step.TxInsert? || step.TxAbort?
  }

  /** What an open transaction does is its own. */
  lemma TxFrame(cfg: Config, s: Sys, step: Step)
    requires Enabled(cfg, s, step) && OfTx(step)
    ensures var t := Apply(cfg, s, step);
            && t.rows == s.rows && t.origin == s.origin && t.writes == s.writes
            && (forall x :: x in t.txs && !Concerns(step, x) ==> x in s.txs && t.txs[x] == s.txs[x])
            && (step.TxInsert? ==> step.tx in t.txs && t.txs[step.tx].inserted.Some?
                                   && t.txs[step.tx].inserted.value.ask == step.ask)
            && (step.TxWrite? ==> step.tx in t.txs && t.txs[step.tx] == Tx(None))
            && (step.TxAbort? ==> step.tx !in t.txs)
  {
    hide RowFor;
  }

  lemma MarkedKeys(t: Table, published: set<Id>, failed: set<Id>, maxAttempts: int, now: int)
    ensures Marked(t, published, failed, maxAttempts, now).Keys == t.Keys
  {
    assert MarkPublished(t, published, now).Keys == t.Keys;
  }

  /** The relay touches no writer, and adds and drops no row. */
  lemma RelayFrame(cfg: Config, s: Sys, step: Step)
    requires Enabled(cfg, s, step) && !OfTx(step) && !step.TxCommit? && !step.InsertAlone?
    ensures var t := Apply(cfg, s, step);
            t.rows.Keys == s.rows.Keys && t.origin == s.origin && t.writes == s.writes && t.txs == s.txs
  {
    hide Marked, IsPoll, Locked, Complete, Unreported, Reported, Sent, Unfinished, OnBus, Elements;
    if step.Commit? {
      var b := s.open[step.replica];
      MarkedKeys(s.rows, b.published.Keys, b.failed, cfg.maxAttempts, step.now);
    }
  }

  /** Steps of the relay, and of transactions that have not committed, add no row and no write. */
  lemma QuietTraced(cfg: Config, s: Sys, steps: seq<Step>, step: Step)
    requires WritersTraced(s, steps) && Enabled(cfg, s, step) && !step.TxCommit? && !step.InsertAlone?
    ensures WritersTraced(Apply(cfg, s, step), steps + [step])
  {
    var t, steps' := Apply(cfg, s, step), steps + [step];
    if OfTx(step) { TxFrame(cfg, s, step); } else { RelayFrame(cfg, s, step); }
    hide TxTraced, WriteTraced, RowTraced, Enabled, Apply;
    forall x | x in t.txs && Concerns(step, x) ensures TxTraced(steps', x, t.txs[x]) {
      if step.TxInsert? {
        FreshTx(steps, x, step.ask, t.txs[x].inserted.value.id, t.txs[x].inserted.value.row);
      } else {
        NoInsert(steps', x);
      }
    }
    Carried(s, t, steps, step);
  }

  lemma NoInsert(steps: seq<Step>, x: nat)
    ensures TxTraced(steps, x, Tx(None))
  {
  }

  lemma CommitTraced(cfg: Config, s: Sys, steps: seq<Step>, x: nat)
    requires WritersTraced(s, steps) && Enabled(cfg, s, TxCommit(x))
    ensures WritersTraced(Apply(cfg, s, TxCommit(x)), steps + [TxCommit(x)])
  {
    hide TxTraced, WriteTraced, RowTraced;
    FreshWrite(steps, x, s.txs[x]);
    Carried(s, Apply(cfg, s, TxCommit(x)), steps, TxCommit(x));
  }

  lemma AloneTraced(cfg: Config, s: Sys, steps: seq<Step>, a: Ask)
    requires WritersTraced(s, steps) && Enabled(cfg, s, InsertAlone(a))
    ensures WritersTraced(Apply(cfg, s, InsertAlone(a)), steps + [InsertAlone(a)])
  {
    assert (steps + [InsertAlone(a)])[|steps|] == InsertAlone(a);
    assert RowTraced(steps + [InsertAlone(a)], a);
    hide TxTraced, WriteTraced, RowTraced;
    Carried(s, Apply(cfg, s, InsertAlone(a)), steps, InsertAlone(a));
  }

  lemma {:induction false} RunTraced(cfg: Config, steps: seq<Step>)
    requires Runs(cfg, INIT, steps)
    ensures WritersTraced(Final(cfg, INIT, steps), steps)
    decreases |steps|
  {
    if steps != [] {
      var front, last := steps[..|steps| - 1], steps[|steps| - 1];
      RunsFront(cfg, INIT, steps);
      RunTraced(cfg, front);
      assert steps == front + [last];
      var s := Final(cfg, INIT, front);
      hide WritersTraced, Runs, Final, Enabled, Apply;
      match last
      case TxCommit(x) => CommitTraced(cfg, s, front, x);
      case InsertAlone(a) => AloneTraced(cfg, s, front, a);
      case _ => QuietTraced(cfg, s, front, last);
    }
  }

  /**
   * A row's content is what some insert of the run asked for, one on its own or the last one of a
   * transaction that then committed, under the event's own id whenever that parsed; only a producer with a
   * malformed id gets the spare one.
   */
  lemma RowsAsAsked(cfg: Config, steps: seq<Step>, id: Id) returns (m: nat)
    requires Runs(cfg, INIT, steps) && id in Final(cfg, INIT, steps).rows
    ensures m < |steps| && (steps[m].InsertAlone? || (steps[m].TxInsert? && CommitsLater(steps, m)))
    ensures var s, a := Final(cfg, INIT, steps), steps[m].ask;
            && (a.event.id == Parsed(id) || (a.event.id == Malformed && a.spare == id))
            && s.rows[id].kind == a.event.kind && s.rows[id].topic == a.topic && s.rows[id].payload == a.event.payload
            && s.rows[id].createdAt == a.now && s.rows[id].carrier == a.event.carrier + a.span
            && id in s.origin && s.origin[id] == a
  {
    var s := Final(cfg, INIT, steps);
    RunTraced(cfg, steps);
    RunKeeps(cfg, INIT, steps);
    hide Runs, Final, BatchInv, BusInv, ProofInv, ChargeInv, LateInv, AttemptsBounded, RowTraced, CommitsLater;
    assert FaithfulRow(s.origin[id], id, s.rows[id]);
    m := AskedBy(steps, s.origin[id]);
  }

  /** The transaction whose insert is step m commits with that insert. */
  ghost predicate CommitsLater(steps: seq<Step>, m: nat)
    requires m < |steps| && steps[m].TxInsert?
  {
    exists k: nat :: k < |steps| && steps[k] == TxCommit(steps[m].tx) && LastInsert(steps, m, k, steps[m].tx)
  }

  lemma AskedBy(steps: seq<Step>, a: Ask) returns (m: nat)
    requires RowTraced(steps, a)
    ensures m < |steps| && (steps[m].InsertAlone? || (steps[m].TxInsert? && CommitsLater(steps, m)))
    ensures steps[m].ask == a
  {
    if InsertAlone(a) in steps {
      m :| m < |steps| && steps[m] == InsertAlone(a);
    } else {
      var x: nat :| WriteTraced(steps, x, a);
      var k;
      m, k := CommittedSteps(steps, x, a);
    }
  }

  /**
   * At-least-once: a transaction that committed in the run is never forgotten. The event it last handed in
   * before its commit waits, was dead-lettered at the limit, or is on the bus, acknowledged, under its own
   * id whenever that parsed, on its topic and with its content.
   */
  lemma NoLostWrites(cfg: Config, steps: seq<Step>, x: nat) returns (j: nat, k: nat, id: Id)
    requires Runs(cfg, INIT, steps) && TxCommit(x) in steps
    ensures j < k < |steps| && steps[k] == TxCommit(x) && LastInsert(steps, j, k, x)
    ensures var s, a := Final(cfg, INIT, steps), steps[j].ask;
            && (a.event.id == Parsed(id) || (a.event.id == Malformed && a.spare == id))
            && id in s.rows && s.rows[id].kind == a.event.kind && s.rows[id].topic == a.topic
            && s.rows[id].payload == a.event.payload && s.rows[id].createdAt == a.now
            && (|| s.rows[id].status == Pending
                || (cfg.maxAttempts > 0 && s.rows[id].status == Failed && s.rows[id].attempts == cfg.maxAttempts)
                || exists n :: 0 <= n < |s.bus| && s.bus[n].acked && s.bus[n].event.id == id
                     && AsAsked(a, s.bus[n].event))
  {
    hide Runs, Final, BatchInv, BusInv, ProofInv, ChargeInv, LateInv, WriteTraced, AsAsked;
    var s := Final(cfg, INIT, steps);
    RunTraced(cfg, steps);
    RunsNone(cfg);
    RunKeeps(cfg, INIT, steps);
    var i :| 0 <= i < |steps| && steps[i] == TxCommit(x);
    assert steps[i].TxCommit? && x in s.writes;
    id := s.writes[x];
    assert FaithfulRow(s.origin[id], id, s.rows[id]);
    if s.rows[id].status == Published { var n := PublishedCopy(s, id); }
    j, k := CommittedSteps(steps, x, s.origin[id]);
  }

  lemma PublishedCopy(s: Sys, id: Id) returns (n: nat)
    requires RowsInv(s.rows, s.origin, s.writes, s.txs) && BusInv(s.rows, s.open, s.fates, s.bus)
    requires ProofInv(s.rows, s.fates, s.bus, s.proof) && id in s.rows && s.rows[id].status == Published
    ensures n < |s.bus| && s.bus[n].acked && s.bus[n].event.id == id && id in s.origin
    ensures AsAsked(s.origin[id], s.bus[n].event)
  {
    n := s.proof[id];
    assert Proves(s.fates, s.bus, n, id);
    CopyAsAsked(s, n);
  }

  lemma CommittedSteps(steps: seq<Step>, x: nat, a: Ask) returns (j: nat, k: nat)
    requires WriteTraced(steps, x, a)
    ensures j < k < |steps| && steps[k] == TxCommit(x) && LastInsert(steps, j, k, x) && steps[j].ask == a
  {
    j, k :| CommittedAt(steps, j, k, x, a);
  }

  // --- Which publish a copy came from ------------------------------------------------------------

  /** The publish calls of a run that put a copy on the bus, in order. */
  function Deliveries(steps: seq<Step>): seq<Step> {
    if steps == [] then [] else
    var last := steps[|steps| - 1];
    Deliveries(steps[..|steps| - 1])
    + (if (last.Publish? || last.LatePublish?) && last.outcome != Refused then [last] else [])
  }

  lemma {:induction false} DeliveriesPublish(steps: seq<Step>)
    ensures forall n :: 0 <= n < |Deliveries(steps)| ==>
              Deliveries(steps)[n].Publish? || Deliveries(steps)[n].LatePublish?
  {
    if steps != [] { DeliveriesPublish(steps[..|steps| - 1]); }
  }

  /** The copy is what this publish call sends: the row's event with the call's span, acknowledged if it said so. */
  predicate SentBy(rows: Table, c: Copy, step: Step)
    requires step.Publish? || step.LatePublish?
  {
    && c.event.id == step.id && step.id in rows && c.acked == (step.outcome == Acked)
    && c.event.carrier == rows[step.id].carrier + step.span
    && (step.LatePublish? ==> c.batch == step.batch)
  }

  ghost predicate BusTraced(s: Sys, steps: seq<Step>)
  {
    DeliveriesPublish(steps);
    && |s.bus| == |Deliveries(steps)|
    && forall n :: 0 <= n < |s.bus| ==> SentBy(s.rows, s.bus[n], Deliveries(steps)[n])
  }

  lemma BusStep(cfg: Config, s: Sys, steps: seq<Step>, step: Step)
    requires BusTraced(s, steps) && Enabled(cfg, s, step) && Extends(s, Apply(cfg, s, step))
    ensures BusTraced(Apply(cfg, s, step), steps + [step])
  {
    var t := Apply(cfg, s, step);
    assert (steps + [step])[..|steps|] == steps;
    DeliveriesPublish(steps + [step]);
    DeliveriesPublish(steps);
    assert forall id :: id in s.rows ==> id in t.rows && Relayed(id, t.rows[id]) == Relayed(id, s.rows[id]);
    forall n | 0 <= n < |t.bus| ensures SentBy(t.rows, t.bus[n], Deliveries(steps + [step])[n]) {
      if n < |s.bus| { assert SentBy(s.rows, s.bus[n], Deliveries(steps)[n]); }
    }
  }

  lemma NoDeliveries()
    ensures BusTraced(INIT, [])
  {
    assert Deliveries([]) == [];
  }

  /** The bus holds one copy for each publish that was not refused, in order: nothing else puts anything there. */
  lemma {:induction false} BusIsDeliveries(cfg: Config, steps: seq<Step>)
    requires Runs(cfg, INIT, steps)
    ensures BusTraced(Final(cfg, INIT, steps), steps)
    decreases |steps|
  {
    hide BusTraced, Runs, Final, Enabled, Apply, Inv, Extends;
    RunsNone(cfg);
    if steps == [] {
      NoDeliveries();
    } else {
      var front, last := steps[..|steps| - 1], steps[|steps| - 1];
      RunsFront(cfg, INIT, steps);
      BusIsDeliveries(cfg, front);
      RunKeeps(cfg, INIT, front);
      assert steps == front + [last];
      var s := Final(cfg, INIT, front);
      StepExtends(cfg, s, last);
      BusStep(cfg, s, front, last);
    }
  }

  /** Every entry of the span is in the carrier already. */
  predicate Carries(carrier: Carrier, span: Carrier) {
    forall k :: k in span ==> k in carrier && carrier[k] == span[k]
  }

  lemma CarrierKeptIff(carrier: Carrier, a: Span, b: Span)
    ensures carrier + a + b == carrier <==> Carries(carrier, a + b)
  {
    var out, spans := carrier + a + b, a + b;
    assert forall k :: k in spans ==> k in out && out[k] == spans[k];
    assert Carries(carrier, spans) ==> out == carrier;
  }

  /**
   * What consumers see is the producer's event exactly when its id parsed, its timestamp was the row's
   * creation time, and neither injected span changed the carrier it came with.
   */
  lemma RelayKeepsEventIff(cfg: Config, steps: seq<Step>, n: nat) returns (m: nat)
    requires Runs(cfg, INIT, steps) && n < |Final(cfg, INIT, steps).bus|
    ensures m < |steps| && (steps[m].TxInsert? || steps[m].InsertAlone?)
    ensures n < |Deliveries(steps)| && (Deliveries(steps)[n].Publish? || Deliveries(steps)[n].LatePublish?)
    ensures var b, a, publish := Final(cfg, INIT, steps).bus[n].event, steps[m].ask, Deliveries(steps)[n];
            (b == BusEvent(b.id, a.topic, a.event.kind, a.event.timestamp, a.event.payload, a.event.carrier)
             && a.event.id == Parsed(b.id))
            <==> (a.event.id.Parsed? && a.event.timestamp == a.now && Carries(a.event.carrier, a.span + publish.span))
  {
    var s := Final(cfg, INIT, steps);
    RunKeeps(cfg, INIT, steps);
    BusIsDeliveries(cfg, steps);
    DeliveriesPublish(steps);
    assert SentBy(s.rows, s.bus[n], Deliveries(steps)[n]);
    hide Runs, Final, BatchInv, ProofInv, ChargeInv, LateInv, AttemptsBounded, Deliveries;
    CopyAsAsked(s, n);
    m := RowsAsAsked(cfg, steps, s.bus[n].event.id);
    CarrierKeptIff(steps[m].ask.event.carrier, steps[m].ask.span, Deliveries(steps)[n].span);
  }

  // --- Which rows a replica claims -----------------------------------------------------------------

  predicate Waiting(s: Sys, id: Id) {
    id in s.rows && s.rows[id].status == Pending && forall q :: q in s.open ==> id !in s.open[q].claimed
  }

  /** The writer of the one row asked no later than that of the other. */
  predicate NoYounger(s: Sys, a: Id, b: Id) {
    a in s.origin && b in s.origin && s.origin[a].now <= s.origin[b].now
  }

  ghost predicate OldestOf(s: Sys, limit: nat, picked: seq<Id>) {
    && 0 < |picked| <= limit
    && (forall i :: 0 <= i < |picked| ==> Waiting(s, picked[i]))
    && (forall i, x :: 0 <= i < |picked| && Waiting(s, x) && x !in picked ==> NoYounger(s, picked[i], x))
  }

  lemma ClaimIsOldest(cfg: Config, s: Sys, r: nat, picked: seq<Id>)
    requires RowsInv(s.rows, s.origin, s.writes, s.txs) && Enabled(cfg, s, Claim(r, picked))
    ensures OldestOf(s, cfg.limit, picked)
  {
    hide RowsInv;
    PollSkipsLocked(s.rows, s.open, cfg.limit, picked);
    forall i | 0 <= i < |picked| ensures Waiting(s, picked[i]) { assert picked[i] in Elements(picked); }
    forall i, x | 0 <= i < |picked| && Waiting(s, x) && x !in picked ensures NoYounger(s, picked[i], x) {
      assert x in PendingIds(s.rows) - Locked(s.open);
      AskedTime(s, x);
      AskedTime(s, picked[i]);
    }
  }

  /**
   * In every run a replica claims pending rows no other open batch holds, and leaves no older one of them
   * behind: the age of a row is the time its writer asked at.
   */
  lemma ClaimsOldest(cfg: Config, steps: seq<Step>, r: nat, picked: seq<Id>)
    requires Runs(cfg, INIT, steps) && Enabled(cfg, Final(cfg, INIT, steps), Claim(r, picked))
    ensures OldestOf(Final(cfg, INIT, steps), cfg.limit, picked)
  {
    hide Runs, Final, Enabled, OldestOf, RowsInv, BatchInv, BusInv, ProofInv, ChargeInv, LateInv, AttemptsBounded;
    RunsNone(cfg);
    RunKeeps(cfg, INIT, steps);
    ClaimIsOldest(cfg, Final(cfg, INIT, steps), r, picked);
  }

  lemma AskedTime(s: Sys, id: Id)
    requires RowsInv(s.rows, s.origin, s.writes, s.txs) && id in s.rows
    ensures id in s.origin && s.origin[id].now == s.rows[id].createdAt
  {
    assert FaithfulRow(s.origin[id], id, s.rows[id]);
  }

  // --- When a row was marked ---------------------------------------------------------------------

  /** A row says when it was published exactly if it was, and why exactly if it was dead-lettered. */
  predicate Stamped(r: Row) {
    && (r.status == Published <==> r.publishedAt.Some?)
    && r.lastError == (if r.status == Failed then DEAD_LETTERED else "")
  }

  ghost predicate MarkedAt(steps: seq<Step>, r: Row) {
    r.publishedAt.Some? ==> exists m :: 0 <= m < |steps| && steps[m].Commit? && steps[m].now == r.publishedAt.value
  }

  ghost predicate RowsStamped(s: Sys, steps: seq<Step>) {
    && (forall id :: id in s.rows ==> Stamped(s.rows[id]) && MarkedAt(steps, s.rows[id]))
    && (forall x :: x in s.txs && s.txs[x].inserted.Some? ==>
          s.txs[x].inserted.value.row.status == Pending && Stamped(s.txs[x].inserted.value.row))
  }

  lemma LaterMark(steps: seq<Step>, step: Step, r: Row)
    requires MarkedAt(steps, r)
    ensures MarkedAt(steps + [step], r)
  {
    if r.publishedAt.Some? {
      var m :| 0 <= m < |steps| && steps[m].Commit? && steps[m].now == r.publishedAt.value;
      assert (steps + [step])[m] == steps[m];
    }
  }

  /** Marking rows that were pending keeps every row true to its marks. */
  lemma TableStamps(rows: Table, rows': Table, steps: seq<Step>, published: set<Id>, failed: set<Id>, max: int, r: nat,
                    now: int)
    requires forall id :: id in rows ==> Stamped(rows[id]) && MarkedAt(steps, rows[id])
    requires MarkedTable(rows, rows', published, failed, max, now) && published !! failed
    requires forall id :: id in published + failed ==> id in rows && rows[id].status == Pending
    ensures forall id :: id in rows' ==> Stamped(rows'[id]) && MarkedAt(steps + [Commit(r, now)], rows'[id])
  {
    hide MarkedAt;
    forall id | id in rows' ensures Stamped(rows'[id]) && MarkedAt(steps + [Commit(r, now)], rows'[id]) {
      assert MarkedRow(rows[id], rows'[id], id in published, id in failed, max, now);
      LaterMark(steps, Commit(r, now), rows[id]);
      if id in published {
        assert id in published + failed;
        MarkedNow(steps, r, now, rows'[id]);
      } else {
        assert id in failed ==> id in published + failed;
        SameMark(steps + [Commit(r, now)], rows[id], rows'[id]);
      }
    }
  }

  lemma CommitStamps(cfg: Config, s: Sys, steps: seq<Step>, r: nat, now: int)
    requires RowsStamped(s, steps) && BatchInv(s.rows, s.open, s.fates, s.bus) && Enabled(cfg, s, Commit(r, now))
    ensures RowsStamped(Apply(cfg, s, Commit(r, now)), steps + [Commit(r, now)])
  {
    hide MarkedAt, Stamped, Marked, MarkedTable, BatchInv, Complete;
    var b := s.open[r];
    BatchSides(s, r);
    MarkedRows(s.rows, b.published.Keys, b.failed, cfg.maxAttempts, now);
    var rows' := Marked(s.rows, b.published.Keys, b.failed, cfg.maxAttempts, now);
    TableStamps(s.rows, rows', steps, b.published.Keys, b.failed, cfg.maxAttempts, r, now);
  }

  lemma BatchSides(s: Sys, r: nat)
    requires BatchInv(s.rows, s.open, s.fates, s.bus) && r in s.open
    ensures s.open[r].published.Keys !! s.open[r].failed
    ensures forall id :: id in s.open[r].published.Keys + s.open[r].failed ==>
              id in s.rows && s.rows[id].status == Pending
  {
    assert BatchOk(s.rows, s.fates, s.bus, r, s.open[r]);
  }

  lemma MarkedNow(steps: seq<Step>, r: nat, now: int, row: Row)
    requires row.publishedAt == Some(now)
    ensures MarkedAt(steps + [Commit(r, now)], row)
  {
    assert (steps + [Commit(r, now)])[|steps|] == Commit(r, now);
  }

  lemma SameMark(steps: seq<Step>, r: Row, r': Row)
    requires MarkedAt(steps, r) && r'.publishedAt == r.publishedAt
    ensures MarkedAt(steps, r')
  {
  }

  lemma OtherStamps(cfg: Config, s: Sys, steps: seq<Step>, step: Step)
    requires RowsStamped(s, steps) && Enabled(cfg, s, step) && !step.Commit?
    ensures RowsStamped(Apply(cfg, s, step), steps + [step])
  {
    var t := Apply(cfg, s, step);
    forall id | id in t.rows ensures Stamped(t.rows[id]) && MarkedAt(steps + [step], t.rows[id]) {
      if id in s.rows && t.rows[id] == s.rows[id] { LaterMark(steps, step, s.rows[id]); }
    }
  }

  lemma OpenBatches(cfg: Config, s: Sys)
    requires Inv(cfg, s)
    ensures BatchInv(s.rows, s.open, s.fates, s.bus)
  {
    hide BatchInv, BusInv, ProofInv, RowsInv, ChargeInv, LateInv, AttemptsBounded;
  }

  lemma NoMarks()
    ensures RowsStamped(INIT, [])
  {
  }

  /**
   * In every run a row carries a publish time exactly when it is PUBLISHED, and that is the time of a commit;
   * it carries the dead-letter message exactly when it is FAILED.
   */
  lemma {:induction false} MarksAreTrue(cfg: Config, steps: seq<Step>)
    requires Runs(cfg, INIT, steps)
    ensures RowsStamped(Final(cfg, INIT, steps), steps)
    decreases |steps|
  {
    hide RowsStamped, Runs, Final, Enabled, Apply, Inv, Extends;
    RunsNone(cfg);
    if steps == [] {
      assert RowsStamped(INIT, steps) by { NoMarks(); }
    } else {
      var front, last := steps[..|steps| - 1], steps[|steps| - 1];
      RunsFront(cfg, INIT, steps);
      MarksAreTrue(cfg, front);
      RunKeeps(cfg, INIT, front);
      assert steps == front + [last];
      var s := Final(cfg, INIT, front);
      if last.Commit? {
        assert BatchInv(s.rows, s.open, s.fates, s.bus) by { OpenBatches(cfg, s); }
        CommitStamps(cfg, s, front, last.replica, last.now);
      } else {
        OtherStamps(cfg, s, front, last);
      }
    }
  }
}
