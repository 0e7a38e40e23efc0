/**
 * The outbox as a protocol: business transactions that write a row beside their own write, any
 * number of relay replicas that claim, publish and mark rows, and an append-only bus. Every step
 * may interleave with every other, and any transaction may be cut off at any point. A relay batch
 * that lost its transaction, and with it its row locks, may still finish the publishes it began.
 */
module OutboxProtocol {
  import opened Collections
  import opened OutboxTable

  // --- Events as producers hand them in and as the relay rebuilds them ----------------------

  datatype EventId = Parsed(id: Id) | Malformed
  datatype Event = Event(id: EventId, kind: string, timestamp: int, payload: string, carrier: Carrier)
  datatype BusEvent = BusEvent(id: Id, topic: string, kind: string, timestamp: int, payload: string, carrier: Carrier)

  /** The carrier keys that injecting a trace context may set. */
  const TRACE_KEYS := {"traceparent", "tracestate", "baggage"}

  /** What the propagator writes for the current span. */
  type Span = c: Carrier | c.Keys <= TRACE_KEYS witness map[]

  /** What a producer hands to the outbox publisher, with the spare id, the span and the time of the call. */
  datatype Ask = Ask(event: Event, topic: string, spare: Id, span: Span, now: int)

  /** The row id: the event's own id, or a fresh one when that does not parse. */
  function RowId(a: Ask): Id {
    if a.event.id.Parsed? then a.event.id.id else a.spare
  }

  /** The outbox publisher injects its own span before it writes the row. */
  function RowFor(a: Ask): Row {
    FreshRow(a.event.kind, a.topic, a.event.payload, a.event.carrier + a.span, a.now)
  }

  /** The event the relay rebuilds from a row; its timestamp is the row's, not the producer's. */
  function Relayed(id: Id, r: Row): BusEvent {
    BusEvent(id, r.topic, r.kind, r.createdAt, r.payload, r.carrier)
  }

  /** The event as it leaves for the bus, which injects a span of its own on every publish. */
  function OnBus(id: Id, r: Row, span: Span): BusEvent {
    Relayed(id, r).(carrier := r.carrier + span)
  }

  /** An event without its trace context. */
  function Core(e: BusEvent): BusEvent {
    e.(carrier := e.carrier - TRACE_KEYS)
  }

  lemma SpanOnlyTraces(carrier: Carrier, span: Span)
    ensures (carrier + span) - TRACE_KEYS == carrier - TRACE_KEYS
  {
  }

  // --- State ---------------------------------------------------------------------------------

  datatype Config = Config(maxAttempts: int, limit: nat)

  datatype Insertion = Insertion(id: Id, ask: Ask, row: Row)

  /** An open business transaction: its own write, then its outbox row. */
  datatype Tx = Tx(inserted: Option<Insertion>)

  /** How a relay batch ended; an open one belongs to a replica. */
  datatype Fate = Open(replica: nat) | Committed | Aborted

  /** One delivery on the bus, the batch that made it, and whether the publisher saw it succeed. */
  datatype Copy = Copy(event: BusEvent, batch: nat, acked: bool)

  /** A relay transaction: rows it locks, rows reported published (with their bus position), rows reported failed. */
  datatype Batch = Batch(no: nat, claimed: set<Id>, published: map<Id, nat>, failed: set<Id>)

  datatype Sys = Sys(
    rows: Table,
    origin: map<Id, Ask>,        // what the writer of each committed row asked for
    txs: map<nat, Tx>,
    writes: map<nat, Id>,        // committed business writes and the event each must announce
    open: map<nat, Batch>,
    fates: seq<Fate>,
    bus: seq<Copy>,
    late: set<(nat, Id)>,        // rows an aborted batch may still publish
    proof: map<Id, nat>,         // the bus position that justifies each PUBLISHED row
    polled: nat)                 // rows handled by committed batches

  const INIT := Sys(map[], map[], map[], map[], map[], [], [], {}, map[], 0)

  datatype Outcome = Acked | LostAck | Refused

  datatype Step =
    | TxWrite(tx: nat)
    | TxInsert(tx: nat, ask: Ask)
    | TxCommit(tx: nat)
    | TxAbort(tx: nat)
    | InsertAlone(ask: Ask)
    | Claim(replica: nat, picked: seq<Id>)
    | Publish(replica: nat, id: Id, span: Span, outcome: Outcome)
    | Commit(replica: nat, now: int)
    | Abort(replica: nat)
    | LatePublish(batch: nat, id: Id, span: Span, outcome: Outcome)

  type Batches = map<nat, Batch>

  function Locked(open: Batches): set<Id> {
    set r, id | r in open && id in open[r].claimed :: id
  }

  ghost predicate Enabled(cfg: Config, s: Sys, step: Step) {
    match step
    case TxWrite(tx) => tx !in s.txs && tx !in s.writes
    case TxInsert(tx, _) => tx in s.txs && s.txs[tx].inserted.None?
    case TxCommit(tx) => tx in s.txs && s.txs[tx].inserted.Some? && s.txs[tx].inserted.value.id !in s.rows
    case TxAbort(tx) => tx in s.txs
    case InsertAlone(a) => RowId(a) !in s.rows
    case Claim(r, picked) => r !in s.open && picked != [] && IsPoll(s.rows, Locked(s.open), cfg.limit, picked)
    case Publish(r, id, _, _) => r in s.open && Unreported(s.open[r], id) && id in s.rows
    case Commit(r, _) => r in s.open && Complete(s.open[r]) && s.open[r].no < |s.fates|
    case Abort(r) => r in s.open && s.open[r].no < |s.fates|
    case LatePublish(no, id, _, _) => (no, id) in s.late && id in s.rows
  }

  predicate Unreported(b: Batch, id: Id) {
    id in b.claimed && id !in b.published && id !in b.failed
  }

  /** The worker pool has reported on every claimed row. */
  predicate Complete(b: Batch) {
    b.claimed == b.published.Keys + b.failed
  }

  function Added(s: Sys, i: Insertion): Sys {
    s.(rows := s.rows[i.id := i.row], origin := s.origin[i.id := i.ask])
  }

  /** The batch after one publish call; a delivered event lands at bus position pos. */
  function Reported(b: Batch, id: Id, outcome: Outcome, pos: nat): Batch {
    if outcome == Acked then b.(published := b.published[id := pos]) else b.(failed := b.failed + {id})
  }

  function Sent(bus: seq<Copy>, no: nat, e: BusEvent, outcome: Outcome): seq<Copy> {
    if outcome == Refused then bus else bus + [Copy(e, no, outcome == Acked)]
  }

  /** The rows whose publish call a batch has yet to finish. */
  function Unfinished(b: Batch): set<(nat, Id)> {
    set id | id in b.claimed && Unreported(b, id) :: (b.no, id)
  }

  /** A relay batch committed with the table it wrote. */
  function Closed(s: Sys, r: nat, rows': Table): Sys
    requires r in s.open && s.open[r].no < |s.fates|
  {
    var b := s.open[r];
    s.(rows := rows', open := s.open - {r}, fates := s.fates[b.no := Committed],
       proof := s.proof + b.published, polled := s.polled + |b.claimed|)
  }

  function Apply(cfg: Config, s: Sys, step: Step): Sys
    requires Enabled(cfg, s, step)
  {
    match step
    case TxWrite(tx) => s.(txs := s.txs[tx := Tx(None)])
    case TxInsert(tx, a) => s.(txs := s.txs[tx := Tx(Some(Insertion(RowId(a), a, RowFor(a))))])
    case TxCommit(tx) =>
      var i := s.txs[tx].inserted.value;
      Added(s, i).(txs := s.txs - {tx}, writes := s.writes[tx := i.id])
    case TxAbort(tx) => s.(txs := s.txs - {tx})
    case InsertAlone(a) => Added(s, Insertion(RowId(a), a, RowFor(a)))
    case Claim(r, picked) =>
      s.(open := s.open[r := Batch(|s.fates|, Elements(picked), map[], {})], fates := s.fates + [Open(r)])
    case Publish(r, id, span, outcome) =>
      s.(open := s.open[r := Reported(s.open[r], id, outcome, |s.bus|)],
         bus := Sent(s.bus, s.open[r].no, OnBus(id, s.rows[id], span), outcome))
    case Commit(r, now) =>
      Closed(s, r, Marked(s.rows, s.open[r].published.Keys, s.open[r].failed, cfg.maxAttempts, now))
    case Abort(r) =>
      s.(open := s.open - {r}, fates := s.fates[s.open[r].no := Aborted], late := s.late + Unfinished(s.open[r]))
    case LatePublish(no, id, span, outcome) =>
      s.(late := s.late - {(no, id)}, bus := Sent(s.bus, no, OnBus(id, s.rows[id], span), outcome))
  }

  ghost predicate Runs(cfg: Config, s: Sys, steps: seq<Step>)
    decreases |steps|
  {
    steps != [] ==> Enabled(cfg, s, steps[0]) && Runs(cfg, Apply(cfg, s, steps[0]), steps[1..])
  }

  ghost function Final(cfg: Config, s: Sys, steps: seq<Step>): Sys
    requires Runs(cfg, s, steps)
    decreases |steps|
  {
    if steps == [] then s else Final(cfg, Apply(cfg, s, steps[0]), steps[1..])
  }

  // --- Invariant, in parts that each speak of the state they need -----------------------------

  /** The row is the one its writer asked for, under the event's own id whenever that parsed. */
  predicate FaithfulRow(a: Ask, id: Id, r: Row) {
    && (a.event.id == Parsed(id) || (a.event.id == Malformed && id == a.spare))
    && r.kind == a.event.kind && r.topic == a.topic && r.payload == a.event.payload
    && r.createdAt == a.now && r.carrier == a.event.carrier + a.span
  }

  predicate FreshInsertion(i: Insertion) {
    FaithfulRow(i.ask, i.id, i.row) && i.row.status == Pending && i.row.attempts == 0
  }

  /** Committed rows tell the event they were written for; every committed write has its row. */
  predicate RowsInv(rows: Table, origin: map<Id, Ask>, writes: map<nat, Id>, txs: map<nat, Tx>) {
    && origin.Keys == rows.Keys
    && (forall id :: id in rows ==> FaithfulRow(origin[id], id, rows[id]))
    && (forall x :: x in writes ==> writes[x] in rows && x !in txs)
    && (forall x :: x in txs && txs[x].inserted.Some? ==> FreshInsertion(txs[x].inserted.value))
  }

  /** Bus position k holds an acknowledged copy of event id made by the given batch. */
  predicate Evidence(bus: seq<Copy>, k: nat, id: Id, batch: nat) {
    k < |bus| && bus[k].acked && bus[k].event.id == id && bus[k].batch == batch
  }

  predicate BatchOk(rows: Table, fates: seq<Fate>, bus: seq<Copy>, r: nat, b: Batch) {
    && b.claimed != {}
    && (forall id :: id in b.claimed ==> id in rows && rows[id].status == Pending)
    && (forall id :: id in b.published ==> id in b.claimed && id !in b.failed)
    && (forall id :: id in b.failed ==> id in b.claimed)
    && b.no < |fates| && fates[b.no] == Open(r)
    && (forall id :: id in b.published ==> Evidence(bus, b.published[id], id, b.no))
  }

  /** Open batches lock pending rows, and no two lock the same row. */
  predicate BatchInv(rows: Table, open: Batches, fates: seq<Fate>, bus: seq<Copy>) {
    && (forall r :: r in open ==> BatchOk(rows, fates, bus, r, open[r]))
    && (forall q, r, id :: q in open && r in open && id in open[q].claimed && id in open[r].claimed ==> q == r)
    && (forall n :: 0 <= n < |fates| && fates[n].Open? ==>
          fates[n].replica in open && open[fates[n].replica].no == n)
  }

  predicate CopyOk(rows: Table, open: Batches, fates: seq<Fate>, c: Copy) {
    && c.batch < |fates| && c.event.id in rows && Core(c.event) == Core(Relayed(c.event.id, rows[c.event.id]))
    && (c.acked && fates[c.batch] == Committed ==> rows[c.event.id].status == Published)
    && (c.acked && fates[c.batch].Open? ==>
          fates[c.batch].replica in open && c.event.id in open[fates[c.batch].replica].published)
  }

  /** Everything on the bus is a committed row's event, and an acknowledged copy shows in its row or its batch. */
  predicate BusInv(rows: Table, open: Batches, fates: seq<Fate>, bus: seq<Copy>) {
    forall k :: 0 <= k < |bus| ==> CopyOk(rows, open, fates, bus[k])
  }

  predicate Proves(fates: seq<Fate>, bus: seq<Copy>, k: nat, id: Id) {
    k < |bus| && bus[k].acked && bus[k].event.id == id && bus[k].batch < |fates| && fates[bus[k].batch] == Committed
  }

  /** Every PUBLISHED row is backed by an acknowledged copy of a committed batch. */
  predicate ProofInv(rows: Table, fates: seq<Fate>, bus: seq<Copy>, proof: map<Id, nat>) {
    && (forall id :: id in rows && rows[id].status == Published ==> id in proof)
    && (forall id :: id in proof ==> Proves(fates, bus, proof[id], id))
  }

  /** A delivery that explains a later duplicate by itself: its publisher saw an error, or its batch aborted. */
  predicate Charged(fates: seq<Fate>, c: Copy) {
    !c.acked || (c.batch < |fates| && fates[c.batch] == Aborted)
  }

  /** Of all copies of an event at most one is one nobody has to answer for. */
  predicate ChargeInv(fates: seq<Fate>, bus: seq<Copy>) {
    forall i, j :: 0 <= i < j < |bus| && bus[i].event.id == bus[j].event.id ==>
      Charged(fates, bus[i]) || Charged(fates, bus[j])
  }

  /** Publishes that outlive their transaction belong to aborted batches. */
  predicate LateInv(rows: Table, fates: seq<Fate>, late: set<(nat, Id)>) {
    forall p :: p in late ==> p.0 < |fates| && fates[p.0] == Aborted && p.1 in rows
  }

  predicate Inv(cfg: Config, s: Sys) {
    && AttemptsBounded(s.rows, cfg.maxAttempts)
    && RowsInv(s.rows, s.origin, s.writes, s.txs)
    && BatchInv(s.rows, s.open, s.fates, s.bus)
    && BusInv(s.rows, s.open, s.fates, s.bus)
    && ProofInv(s.rows, s.fates, s.bus, s.proof)
    && ChargeInv(s.fates, s.bus)
    && LateInv(s.rows, s.fates, s.late)
  }

  predicate Settled(t: Table, u: Table) {
    && t.Keys <= u.Keys
    && (forall id :: id in t ==> Relayed(id, u[id]) == Relayed(id, t[id]))
    && (forall id :: id in t && t[id].status != Pending ==> u[id] == t[id])
  }

  /** What no step ever undoes: rows, their content, a final status, committed writes, the bus. */
  predicate Extends(s: Sys, s': Sys) {
    && Settled(s.rows, s'.rows)
    && s.writes.Keys <= s'.writes.Keys && (forall x :: x in s.writes ==> s'.writes[x] == s.writes[x])
    && s.bus <= s'.bus
  }

  // --- Preservation, step by step ------------------------------------------------------------

  lemma AddedRelay(rows: Table, open: Batches, fates: seq<Fate>, bus: seq<Copy>, proof: map<Id, nat>, id: Id, row: Row)
    requires id !in rows && row.status == Pending
    requires BatchInv(rows, open, fates, bus) && BusInv(rows, open, fates, bus) && ProofInv(rows, fates, bus, proof)
    ensures BatchInv(rows[id := row], open, fates, bus)
    ensures BusInv(rows[id := row], open, fates, bus)
    ensures ProofInv(rows[id := row], fates, bus, proof)
  {
    forall r | r in open ensures BatchOk(rows[id := row], fates, bus, r, open[r]) {
      assert BatchOk(rows, fates, bus, r, open[r]);
    }
    forall k | 0 <= k < |bus| ensures CopyOk(rows[id := row], open, fates, bus[k]) {
      assert CopyOk(rows, open, fates, bus[k]);
    }
  }

  lemma AddedInv(cfg: Config, s: Sys, i: Insertion)
    requires Inv(cfg, s) && i.id !in s.rows && FreshInsertion(i)
    ensures Inv(cfg, Added(s, i))
  {
    hide BatchInv, BusInv, ProofInv, RowsInv, ChargeInv, LateInv, AttemptsBounded;
    AddedRelay(s.rows, s.open, s.fates, s.bus, s.proof, i.id, i.row);
    AddedTable(cfg, s, i);
  }

  lemma AddedTable(cfg: Config, s: Sys, i: Insertion)
    requires AttemptsBounded(s.rows, cfg.maxAttempts) && RowsInv(s.rows, s.origin, s.writes, s.txs)
    requires LateInv(s.rows, s.fates, s.late) && i.id !in s.rows && FreshInsertion(i)
    ensures var t := Added(s, i);
            && AttemptsBounded(t.rows, cfg.maxAttempts) && RowsInv(t.rows, t.origin, t.writes, t.txs)
            && LateInv(t.rows, t.fates, t.late)
  {
    hide FaithfulRow;
  }

  predicate Claimable(rows: Table, open: Batches, ids: set<Id>) {
    forall id :: id in ids ==> id in rows && rows[id].status == Pending && forall q :: q in open ==>
      id !in open[q].claimed
  }

  /** A poll that skips locked rows picks rows no open batch holds. */
  lemma PollSkipsLocked(rows: Table, open: Batches, limit: nat, picked: seq<Id>)
    requires IsPoll(rows, Locked(open), limit, picked)
    ensures Claimable(rows, open, Elements(picked))
  {
    forall id | id in Elements(picked) ensures id in PendingIds(rows) && id !in Locked(open) {
      var i :| 0 <= i < |picked| && picked[i] == id;
      assert picked[i] in PendingIds(rows) - Locked(open);
    }
    forall q, id | q in open && id in open[q].claimed ensures id in Locked(open) {}
  }

  lemma ClaimBatches(rows: Table, open: Batches, fates: seq<Fate>, bus: seq<Copy>, r: nat, ids: set<Id>)
    requires BatchInv(rows, open, fates, bus) && r !in open && ids != {} && Claimable(rows, open, ids)
    ensures BatchInv(rows, open[r := Batch(|fates|, ids, map[], {})], fates + [Open(r)], bus)
  {
    var fates' := fates + [Open(r)];
    forall q | q in open ensures BatchOk(rows, fates', bus, q, open[q]) {
      assert BatchOk(rows, fates, bus, q, open[q]);
    }
  }

  lemma ClaimBus(rows: Table, open: Batches, fates: seq<Fate>, bus: seq<Copy>, r: nat, b: Batch)
    requires BusInv(rows, open, fates, bus) && r !in open && ChargeInv(fates, bus)
    ensures BusInv(rows, open[r := b], fates + [Open(r)], bus) && ChargeInv(fates + [Open(r)], bus)
  {
    forall k | 0 <= k < |bus| ensures CopyOk(rows, open[r := b], fates + [Open(r)], bus[k]) {
      assert CopyOk(rows, open, fates, bus[k]);
    }
  }

  /** Nothing uncharged is on the bus for a row that is about to be published. */
  lemma EarlierCopiesCharged(rows: Table, open: Batches, fates: seq<Fate>, bus: seq<Copy>, r: nat, id: Id, k: nat)
    requires BatchInv(rows, open, fates, bus) && BusInv(rows, open, fates, bus)
    requires r in open && Unreported(open[r], id)
    requires k < |bus| && bus[k].event.id == id
    ensures Charged(fates, bus[k])
  {
    assert BatchOk(rows, fates, bus, r, open[r]) && CopyOk(rows, open, fates, bus[k]);
    if fates[bus[k].batch].Open? {
      var q := fates[bus[k].batch].replica;
      assert BatchOk(rows, fates, bus, q, open[q]);
    }
  }

  lemma PublishBatches(rows: Table, open: Batches, fates: seq<Fate>, bus: seq<Copy>, r: nat, e: BusEvent,
                       outcome: Outcome)
    requires BatchInv(rows, open, fates, bus) && r in open && Unreported(open[r], e.id) && e.id in rows
    ensures BatchInv(rows, open[r := Reported(open[r], e.id, outcome, |bus|)], fates, Sent(bus, open[r].no, e, outcome))
  {
    var id, bus' := e.id, Sent(bus, open[r].no, e, outcome);
    var open' := open[r := Reported(open[r], id, outcome, |bus|)];
    assert BatchOk(rows, fates, bus, r, open[r]);
    PublishBatch(rows, fates, bus, r, open[r], e, outcome);
    hide BatchOk, Reported, Sent;
    forall q | q in open' ensures BatchOk(rows, fates, bus', q, open'[q]) {
      if q != r { OtherBatch(rows, fates, bus, bus', q, open[q], open[r].no, e, outcome); }
    }
  }

  lemma OtherBatch(rows: Table, fates: seq<Fate>, bus: seq<Copy>, bus': seq<Copy>, q: nat, b: Batch, no: nat,
                   e: BusEvent, outcome: Outcome)
    requires BatchOk(rows, fates, bus, q, b) && bus' == Sent(bus, no, e, outcome)
    ensures BatchOk(rows, fates, bus', q, b)
  {
  }

  lemma PublishBatch(rows: Table, fates: seq<Fate>, bus: seq<Copy>, r: nat, b: Batch, e: BusEvent, outcome: Outcome)
    requires BatchOk(rows, fates, bus, r, b) && Unreported(b, e.id)
    ensures BatchOk(rows, fates, Sent(bus, b.no, e, outcome), r, Reported(b, e.id, outcome, |bus|))
    ensures Reported(b, e.id, outcome, |bus|).claimed == b.claimed && Reported(b, e.id, outcome, |bus|).no == b.no
  {
  }

  predicate FromRow(rows: Table, e: BusEvent) {
    e.id in rows && Core(e) == Core(Relayed(e.id, rows[e.id]))
  }

  lemma OnBusFromRow(rows: Table, id: Id, span: Span)
    requires id in rows
    ensures FromRow(rows, OnBus(id, rows[id], span))
  {
    SpanOnlyTraces(rows[id].carrier, span);
  }

  lemma PublishBus(rows: Table, open: Batches, fates: seq<Fate>, bus: seq<Copy>, r: nat, e: BusEvent, outcome: Outcome)
    requires BatchInv(rows, open, fates, bus) && BusInv(rows, open, fates, bus) && ChargeInv(fates, bus)
    requires r in open && Unreported(open[r], e.id) && FromRow(rows, e)
    ensures var bus' := Sent(bus, open[r].no, e, outcome);
            && BusInv(rows, open[r := Reported(open[r], e.id, outcome, |bus|)], fates, bus')
            && ChargeInv(fates, bus')
  {
    var id, bus' := e.id, Sent(bus, open[r].no, e, outcome);
    var open' := open[r := Reported(open[r], id, outcome, |bus|)];
    assert BatchOk(rows, fates, bus, r, open[r]);
    forall k | 0 <= k < |bus'| ensures CopyOk(rows, open', fates, bus'[k]) {
      if k < |bus| { assert CopyOk(rows, open, fates, bus[k]); }
    }
    forall i, j | 0 <= i < j < |bus'| && bus'[i].event.id == bus'[j].event.id
      ensures Charged(fates, bus'[i]) || Charged(fates, bus'[j]) {
      if j == |bus| { EarlierCopiesCharged(rows, open, fates, bus, r, id, i); }
    }
  }

  /** A late copy is charged as it lands, whatever became of the row meanwhile. */
  lemma LateBus(rows: Table, open: Batches, fates: seq<Fate>, bus: seq<Copy>, no: nat, e: BusEvent, outcome: Outcome)
    requires BusInv(rows, open, fates, bus) && ChargeInv(fates, bus)
    requires no < |fates| && fates[no] == Aborted && FromRow(rows, e)
    ensures BusInv(rows, open, fates, Sent(bus, no, e, outcome)) && ChargeInv(fates, Sent(bus, no, e, outcome))
  {
    var bus' := Sent(bus, no, e, outcome);
    forall k | 0 <= k < |bus'| ensures CopyOk(rows, open, fates, bus'[k]) {
      if k < |bus| { assert CopyOk(rows, open, fates, bus[k]); }
    }
  }

  /** A longer bus keeps what open batches and published rows rest on. */
  lemma LongerBus(rows: Table, open: Batches, fates: seq<Fate>, bus: seq<Copy>, bus': seq<Copy>, proof: map<Id, nat>)
    requires BatchInv(rows, open, fates, bus) && ProofInv(rows, fates, bus, proof) && bus <= bus'
    ensures BatchInv(rows, open, fates, bus') && ProofInv(rows, fates, bus', proof)
  {
    forall q | q in open ensures BatchOk(rows, fates, bus', q, open[q]) {
      assert BatchOk(rows, fates, bus, q, open[q]);
    }
    ProofLonger(rows, fates, bus, bus', proof);
  }

  /** Closing a batch, either way, leaves the other open batches as they were. */
  lemma CloseBatches(rows: Table, rows': Table, open: Batches, fates: seq<Fate>, bus: seq<Copy>, r: nat, fate: Fate)
    requires BatchInv(rows, open, fates, bus) && r in open && !fate.Open?
    requires forall id :: id in rows && id !in open[r].claimed ==> id in rows' && rows'[id] == rows[id]
    ensures open[r].no < |fates| && BatchInv(rows', open - {r}, fates[open[r].no := fate], bus)
  {
    assert BatchOk(rows, fates, bus, r, open[r]);
    var fates', open' := fates[open[r].no := fate], open - {r};
    forall q | q in open' ensures BatchOk(rows', fates', bus, q, open'[q]) {
      assert BatchOk(rows, fates, bus, q, open[q]);
      assert forall id :: id in open[q].claimed ==> id !in open[r].claimed;
    }
  }

  lemma AbortBus(rows: Table, open: Batches, fates: seq<Fate>, bus: seq<Copy>, r: nat)
    requires BatchInv(rows, open, fates, bus) && BusInv(rows, open, fates, bus) && ChargeInv(fates, bus) && r in open
    ensures open[r].no < |fates|
    ensures var fates' := fates[open[r].no := Aborted]; BusInv(rows, open - {r}, fates', bus) && ChargeInv(fates', bus)
  {
    assert BatchOk(rows, fates, bus, r, open[r]);
    var fates', open' := fates[open[r].no := Aborted], open - {r};
    hide BatchOk, CopyOk;
    forall k | 0 <= k < |bus| ensures CopyOk(rows, open', fates', bus[k]) {
      CopyKnown(rows, open, fates, bus, k);
      AbortCopy(rows, open, fates, bus, r, bus[k]);
    }
  }

  lemma AbortCopy(rows: Table, open: Batches, fates: seq<Fate>, bus: seq<Copy>, r: nat, c: Copy)
    requires r in open && BatchOk(rows, fates, bus, r, open[r]) && CopyOk(rows, open, fates, c)
    requires fates[c.batch].Open? ==> fates[c.batch].replica in open && open[fates[c.batch].replica].no == c.batch
    ensures CopyOk(rows, open - {r}, fates[open[r].no := Aborted], c)
  {
    hide Evidence, Core;
  }

  /**
   * What a commit may do to the table: published rows become PUBLISHED, the batch's failures do not, no
   * one else moves.
   */
  predicate CommitsTo(rows: Table, rows': Table, b: Batch) {
    && rows'.Keys == rows.Keys
    && (forall id :: id in rows ==> Relayed(id, rows'[id]) == Relayed(id, rows[id]))
    && (forall id :: id in rows && id !in b.claimed ==> rows'[id] == rows[id])
    && (forall id :: id in rows && id in b.claimed ==> (rows'[id].status == Published <==> id in b.published))
  }

  lemma CommitRows(rows: Table, fates: seq<Fate>, bus: seq<Copy>, r: nat, b: Batch, maxAttempts: int, now: int)
    requires BatchOk(rows, fates, bus, r, b) && Complete(b)
    ensures CommitsTo(rows, Marked(rows, b.published.Keys, b.failed, maxAttempts, now), b)
  {
    var v := MarkPublished(rows, b.published.Keys, now);
    assert v.Keys == rows.Keys;
    assert IncrementAttempt(v, b.failed, maxAttempts).Keys == v.Keys;
  }

  lemma CommitTable(rows: Table, fates: seq<Fate>, bus: seq<Copy>, r: nat, b: Batch, maxAttempts: int, now: int)
    requires BatchOk(rows, fates, bus, r, b) && Complete(b) && AttemptsBounded(rows, maxAttempts)
    ensures var rows' := Marked(rows, b.published.Keys, b.failed, maxAttempts, now);
            AttemptsBounded(rows', maxAttempts) && CommitsTo(rows, rows', b) && Settled(rows, rows')
  {
    CommitRows(rows, fates, bus, r, b, maxAttempts, now);
    assert b.published.Keys + b.failed <= PendingIds(rows);
    MarkedOutcome(rows, b.published.Keys, b.failed, maxAttempts, now);
  }

  lemma CommitCopy(rows: Table, rows': Table, open: Batches, fates: seq<Fate>, bus: seq<Copy>, r: nat, c: Copy)
    requires r in open && BatchOk(rows, fates, bus, r, open[r]) && CopyOk(rows, open, fates, c)
            && CommitsTo(rows, rows', open[r])
    requires fates[c.batch].Open? ==> fates[c.batch].replica in open && open[fates[c.batch].replica].no == c.batch
    ensures CopyOk(rows', open - {r}, fates[open[r].no := Committed], c)
  {
    hide Evidence;
  }

  lemma CommitBus(rows: Table, rows': Table, open: Batches, fates: seq<Fate>, bus: seq<Copy>, r: nat)
    requires BatchInv(rows, open, fates, bus) && BusInv(rows, open, fates, bus) && ChargeInv(fates, bus)
    requires r in open && CommitsTo(rows, rows', open[r])
    ensures open[r].no < |fates|
    ensures var fates' := fates[open[r].no := Committed];
            BusInv(rows', open - {r}, fates', bus) && ChargeInv(fates', bus)
  {
    assert BatchOk(rows, fates, bus, r, open[r]);
    var fates', open' := fates[open[r].no := Committed], open - {r};
    hide CommitsTo, BatchOk, CopyOk;
    forall k | 0 <= k < |bus| ensures CopyOk(rows', open', fates', bus[k]) {
      CopyKnown(rows, open, fates, bus, k);
      CommitCopy(rows, rows', open, fates, bus, r, bus[k]);
    }
  }

  lemma CopyKnown(rows: Table, open: Batches, fates: seq<Fate>, bus: seq<Copy>, k: nat)
    requires BatchInv(rows, open, fates, bus) && BusInv(rows, open, fates, bus) && k < |bus|
    ensures CopyOk(rows, open, fates, bus[k])
    ensures fates[bus[k].batch].Open? ==>
            fates[bus[k].batch].replica in open && open[fates[bus[k].batch].replica].no == bus[k].batch
  {
    assert CopyOk(rows, open, fates, bus[k]);
  }

  lemma CommitProof(rows: Table, rows': Table, open: Batches, fates: seq<Fate>, bus: seq<Copy>, proof: map<Id, nat>,
                    r: nat)
    requires BatchInv(rows, open, fates, bus) && ProofInv(rows, fates, bus, proof)
    requires r in open && CommitsTo(rows, rows', open[r])
    ensures open[r].no < |fates|
    ensures ProofInv(rows', fates[open[r].no := Committed], bus, proof + open[r].published)
  {
    assert BatchOk(rows, fates, bus, r, open[r]);
    var fates', proof' := fates[open[r].no := Committed], proof + open[r].published;
    forall id | id in proof' ensures Proves(fates', bus, proof'[id], id) {
      if id in open[r].published { assert Evidence(bus, open[r].published[id], id, open[r].no); }
      else { assert Proves(fates, bus, proof[id], id); }
    }
  }

  lemma ClosedInv(cfg: Config, s: Sys, r: nat, rows': Table)
    requires Inv(cfg, s) && r in s.open && s.open[r].no < |s.fates|
    requires CommitsTo(s.rows, rows', s.open[r]) && AttemptsBounded(rows', cfg.maxAttempts)
    ensures Inv(cfg, Closed(s, r, rows'))
  {
    CloseBatches(s.rows, rows', s.open, s.fates, s.bus, r, Committed);
    CommitBus(s.rows, rows', s.open, s.fates, s.bus, r);
    CommitProof(s.rows, rows', s.open, s.fates, s.bus, s.proof, r);
    ClosedRows(s.rows, rows', s.origin, s.writes, s.txs, s.open[r]);
    assert BatchOk(s.rows, s.fates, s.bus, r, s.open[r]);
    ClosedLate(s.rows, rows', s.fates, s.late, s.open[r].no);
    hide BatchInv, BusInv, ProofInv, RowsInv, ChargeInv, LateInv, CommitsTo, AttemptsBounded, BatchOk;
  }

  lemma ClosedLate(rows: Table, rows': Table, fates: seq<Fate>, late: set<(nat, Id)>, no: nat)
    requires LateInv(rows, fates, late) && no < |fates| && fates[no].Open? && rows'.Keys == rows.Keys
    ensures LateInv(rows', fates[no := Committed], late)
  {
  }

  lemma ClosedRows(rows: Table, rows': Table, origin: map<Id, Ask>, writes: map<nat, Id>, txs: map<nat, Tx>, b: Batch)
    requires RowsInv(rows, origin, writes, txs) && CommitsTo(rows, rows', b)
    ensures RowsInv(rows', origin, writes, txs)
  {
    assert forall id :: id in rows ==> Relayed(id, rows'[id]) == Relayed(id, rows[id]);
  }

  lemma CommitInv(cfg: Config, s: Sys, r: nat, now: int)
    requires Inv(cfg, s) && Enabled(cfg, s, Commit(r, now))
    ensures Inv(cfg, Apply(cfg, s, Commit(r, now)))
  {
    var b := s.open[r];
    assert BatchOk(s.rows, s.fates, s.bus, r, b);
    CommitTable(s.rows, s.fates, s.bus, r, b, cfg.maxAttempts, now);
    ClosedInv(cfg, s, r, Marked(s.rows, b.published.Keys, b.failed, cfg.maxAttempts, now));
  }

  lemma ClaimInv(cfg: Config, s: Sys, r: nat, picked: seq<Id>)
    requires Inv(cfg, s) && Enabled(cfg, s, Claim(r, picked))
    ensures Inv(cfg, Apply(cfg, s, Claim(r, picked)))
  {
    PollSkipsLocked(s.rows, s.open, cfg.limit, picked);
    assert picked[0] in Elements(picked);
    ClaimBatches(s.rows, s.open, s.fates, s.bus, r, Elements(picked));
    ClaimBus(s.rows, s.open, s.fates, s.bus, r, Batch(|s.fates|, Elements(picked), map[], {}));
    ClaimProof(s.rows, s.fates, s.bus, s.proof, Open(r));
  }

  lemma ClaimProof(rows: Table, fates: seq<Fate>, bus: seq<Copy>, proof: map<Id, nat>, f: Fate)
    requires ProofInv(rows, fates, bus, proof)
    ensures ProofInv(rows, fates + [f], bus, proof)
  {
    forall id | id in proof ensures Proves(fates + [f], bus, proof[id], id) {
      assert Proves(fates, bus, proof[id], id);
    }
  }

  lemma SentLonger(bus: seq<Copy>, no: nat, e: BusEvent, outcome: Outcome)
    ensures bus <= Sent(bus, no, e, outcome)
  {
  }

  lemma LateInvKept(cfg: Config, s: Sys, no: nat, id: Id, span: Span, outcome: Outcome)
    requires Inv(cfg, s) && Enabled(cfg, s, LatePublish(no, id, span, outcome))
    ensures Inv(cfg, Apply(cfg, s, LatePublish(no, id, span, outcome)))
  {
    hide BatchInv, BusInv, ProofInv, RowsInv, ChargeInv, AttemptsBounded, OnBus, Sent;
    var e := OnBus(id, s.rows[id], span);
    OnBusFromRow(s.rows, id, span);
    LateBus(s.rows, s.open, s.fates, s.bus, no, e, outcome);
    SentLonger(s.bus, no, e, outcome);
    LongerBus(s.rows, s.open, s.fates, s.bus, Sent(s.bus, no, e, outcome), s.proof);
  }

  lemma PublishInv(cfg: Config, s: Sys, r: nat, id: Id, span: Span, outcome: Outcome)
    requires Inv(cfg, s) && Enabled(cfg, s, Publish(r, id, span, outcome))
    ensures Inv(cfg, Apply(cfg, s, Publish(r, id, span, outcome)))
  {
    var e := OnBus(id, s.rows[id], span);
    OnBusFromRow(s.rows, id, span);
    PublishBatches(s.rows, s.open, s.fates, s.bus, r, e, outcome);
    PublishBus(s.rows, s.open, s.fates, s.bus, r, e, outcome);
    ProofLonger(s.rows, s.fates, s.bus, Sent(s.bus, s.open[r].no, e, outcome), s.proof);
    hide BatchInv, BusInv, ProofInv, RowsInv, ChargeInv, LateInv, AttemptsBounded, OnBus, Reported, Sent;
  }

  lemma ProofLonger(rows: Table, fates: seq<Fate>, bus: seq<Copy>, bus': seq<Copy>, proof: map<Id, nat>)
    requires ProofInv(rows, fates, bus, proof) && bus <= bus'
    ensures ProofInv(rows, fates, bus', proof)
  {
    forall i | i in proof ensures Proves(fates, bus', proof[i], i) { assert Proves(fates, bus, proof[i], i); }
  }

  lemma AbortInv(cfg: Config, s: Sys, r: nat)
    requires Inv(cfg, s) && Enabled(cfg, s, Abort(r))
    ensures Inv(cfg, Apply(cfg, s, Abort(r)))
  {
    CloseBatches(s.rows, s.rows, s.open, s.fates, s.bus, r, Aborted);
    AbortBus(s.rows, s.open, s.fates, s.bus, r);
    assert BatchOk(s.rows, s.fates, s.bus, r, s.open[r]);
    AbortProof(s.rows, s.fates, s.bus, s.proof, s.open[r].no);
    AbortLate(s.rows, s.fates, s.late, s.open[r]);
  }

  lemma AbortLate(rows: Table, fates: seq<Fate>, late: set<(nat, Id)>, b: Batch)
    requires LateInv(rows, fates, late) && b.no < |fates| && forall id :: id in b.claimed ==> id in rows
    ensures LateInv(rows, fates[b.no := Aborted], late + Unfinished(b))
  {
  }

  lemma AbortProof(rows: Table, fates: seq<Fate>, bus: seq<Copy>, proof: map<Id, nat>, no: nat)
    requires ProofInv(rows, fates, bus, proof) && no < |fates| && fates[no].Open?
    ensures ProofInv(rows, fates[no := Aborted], bus, proof)
  {
    forall i | i in proof ensures Proves(fates[no := Aborted], bus, proof[i], i) {
      assert Proves(fates, bus, proof[i], i);
    }
  }

  lemma TxInv(cfg: Config, s: Sys, step: Step)
    requires Inv(cfg, s) && Enabled(cfg, s, step) && (step.TxWrite? || step.TxInsert? || step.TxAbort?)
    ensures Inv(cfg, Apply(cfg, s, step))
  {
    hide BatchInv, BusInv, ProofInv, ChargeInv, LateInv, AttemptsBounded;
    assert RowsInv(s.rows, s.origin, s.writes, Apply(cfg, s, step).txs);
  }

  lemma TxCommitInv(cfg: Config, s: Sys, tx: nat)
    requires Inv(cfg, s) && Enabled(cfg, s, TxCommit(tx))
    ensures Inv(cfg, Apply(cfg, s, TxCommit(tx)))
  {
    var i := s.txs[tx].inserted.value;
    AddedInv(cfg, s, i);
    CommittedWrite(cfg, Added(s, i), tx, i.id);
  }

  lemma CommittedWrite(cfg: Config, s: Sys, tx: nat, id: Id)
    requires Inv(cfg, s) && id in s.rows
    ensures Inv(cfg, s.(txs := s.txs - {tx}, writes := s.writes[tx := id]))
  {
    WriteKept(s.rows, s.origin, s.writes, s.txs, tx, id);
    hide BatchInv, BusInv, ProofInv, RowsInv, ChargeInv, LateInv, AttemptsBounded;
  }

  lemma WriteKept(rows: Table, origin: map<Id, Ask>, writes: map<nat, Id>, txs: map<nat, Tx>, tx: nat, id: Id)
    requires RowsInv(rows, origin, writes, txs) && id in rows
    ensures RowsInv(rows, origin, writes[tx := id], txs - {tx})
  {
    hide FaithfulRow, FreshInsertion;
  }

  /** Every step keeps the invariant. */
  lemma StepInv(cfg: Config, s: Sys, step: Step)
    requires Inv(cfg, s) && Enabled(cfg, s, step)
    ensures Inv(cfg, Apply(cfg, s, step))
  {
    match step
    case TxCommit(tx) => TxCommitInv(cfg, s, tx);
    case InsertAlone(a) => AddedInv(cfg, s, Insertion(RowId(a), a, RowFor(a)));
    case Claim(r, picked) => ClaimInv(cfg, s, r, picked);
    case Publish(r, id, span, outcome) => PublishInv(cfg, s, r, id, span, outcome);
    case LatePublish(no, id, span, outcome) => LateInvKept(cfg, s, no, id, span, outcome);
    case Commit(r, now) => CommitInv(cfg, s, r, now);
    case Abort(r) => AbortInv(cfg, s, r);
    case _ => TxInv(cfg, s, step);
  }

  lemma CommitExtends(cfg: Config, s: Sys, r: nat, now: int)
    requires AttemptsBounded(s.rows, cfg.maxAttempts) && BatchInv(s.rows, s.open, s.fates, s.bus)
    requires Enabled(cfg, s, Commit(r, now))
    ensures Extends(s, Apply(cfg, s, Commit(r, now)))
  {
    assert BatchOk(s.rows, s.fates, s.bus, r, s.open[r]);
    CommitTable(s.rows, s.fates, s.bus, r, s.open[r], cfg.maxAttempts, now);
  }

  /** No step takes back a row, a final status, a committed write or a delivery. */
  lemma StepExtends(cfg: Config, s: Sys, step: Step)
    requires Inv(cfg, s) && Enabled(cfg, s, step)
    ensures Extends(s, Apply(cfg, s, step))
  {
    if step.Commit? {
      CommitExtends(cfg, s, step.replica, step.now);
    } else {
      assert RowsInv(s.rows, s.origin, s.writes, s.txs);
      OtherExtends(cfg, s, step);
    }
  }

  lemma OtherExtends(cfg: Config, s: Sys, step: Step)
    requires !step.Commit? && Enabled(cfg, s, step)
    requires forall x :: x in s.writes ==> x !in s.txs
    ensures Extends(s, Apply(cfg, s, step))
  {
  }

  // --- Whole runs ----------------------------------------------------------------------------

  lemma ExtendsTrans(a: Sys, b: Sys, c: Sys)
    requires Extends(a, b) && Extends(b, c)
    ensures Extends(a, c)
  {
  }

  lemma {:induction false} RunKeeps(cfg: Config, s: Sys, steps: seq<Step>)
    requires Inv(cfg, s) && Runs(cfg, s, steps)
    ensures Inv(cfg, Final(cfg, s, steps)) && Extends(s, Final(cfg, s, steps))
    decreases |steps|
  {
    if steps != [] {
      var next := Apply(cfg, s, steps[0]);
      StepInv(cfg, s, steps[0]);
      StepExtends(cfg, s, steps[0]);
      RunKeeps(cfg, next, steps[1..]);
      ExtendsTrans(s, next, Final(cfg, next, steps[1..]));
    }
  }

  /** The event on the bus is what the writer asked for, but for the trace context. */
  predicate AsAsked(a: Ask, e: BusEvent) {
    && (a.event.id == Parsed(e.id) || (a.event.id == Malformed && a.spare == e.id))
    && e.topic == a.topic && e.timestamp == a.now
    && e.kind == a.event.kind && e.payload == a.event.payload
    && e.carrier - TRACE_KEYS == a.event.carrier - TRACE_KEYS
  }

  lemma CopyAsAsked(s: Sys, k: nat)
    requires RowsInv(s.rows, s.origin, s.writes, s.txs) && BusInv(s.rows, s.open, s.fates, s.bus) && k < |s.bus|
    ensures var e := s.bus[k].event; e.id in s.rows && e.id in s.origin && AsAsked(s.origin[e.id], e)
  {
    var id := s.bus[k].event.id;
    assert CopyOk(s.rows, s.open, s.fates, s.bus[k]);
    assert FaithfulRow(s.origin[id], id, s.rows[id]);
    SpanOnlyTraces(s.origin[id].event.carrier, s.origin[id].span);
  }

  lemma PublishedIffProved(s: Sys, id: Id)
    requires BusInv(s.rows, s.open, s.fates, s.bus) && ProofInv(s.rows, s.fates, s.bus, s.proof) && id in s.rows
    ensures s.rows[id].status == Published <==> exists k :: 0 <= k < |s.bus| && Proves(s.fates, s.bus, k, id)
  {
    if s.rows[id].status == Published { assert Proves(s.fates, s.bus, s.proof[id], id); }
    forall k | 0 <= k < |s.bus| && Proves(s.fates, s.bus, k, id) ensures s.rows[id].status == Published {
      assert CopyOk(s.rows, s.open, s.fates, s.bus[k]);
    }
  }

  /**
   * In every run of any number of replicas, cut off anywhere: no two open batches hold the same row, a
   * row is PUBLISHED exactly when a committed batch has an acknowledged copy of it on the bus, and
   * everything on the bus is what the writer of a committed row asked for: the event's own id whenever it
   * parsed, the topic, kind, payload and every carrier entry but the trace context, with the time of the
   * write.
   */
  lemma RelaySafety(cfg: Config, steps: seq<Step>)
    requires Runs(cfg, INIT, steps)
    ensures var s := Final(cfg, INIT, steps);
            && (forall q, r :: q in s.open && r in s.open && q != r ==> s.open[q].claimed !! s.open[r].claimed)
            && (forall id :: id in s.rows ==>
                  (s.rows[id].status == Published <==> exists k :: 0 <= k < |s.bus| && Proves(s.fates, s.bus, k, id)))
            && (forall k :: 0 <= k < |s.bus| ==>
                  var e := s.bus[k].event; e.id in s.rows && e.id in s.origin && AsAsked(s.origin[e.id], e))
            && AttemptsBounded(s.rows, cfg.maxAttempts)
  {
    hide Runs, Final, AsAsked, Proves, BusInv, ProofInv, RowsInv, AttemptsBounded, BatchOk, ChargeInv, LateInv;
    RunKeeps(cfg, INIT, steps);
    var s := Final(cfg, INIT, steps);
    assert BatchInv(s.rows, s.open, s.fates, s.bus);
    forall id | id in s.rows
      ensures s.rows[id].status == Published <==> exists k :: 0 <= k < |s.bus| && Proves(s.fates, s.bus, k, id) {
      PublishedIffProved(s, id);
    }
    forall k | 0 <= k < |s.bus|
      ensures var e := s.bus[k].event; e.id in s.rows && e.id in s.origin && AsAsked(s.origin[e.id], e) {
      CopyAsAsked(s, k);
    }
  }

  /**
   * Of any two copies of an event one is accounted for by its own history: its publish reported an
   * error, or its batch was aborted, whether before or after the copy was sent. So at most one copy is
   * nobody's to answer for, and all copies are the same event but for their trace context.
   */
  lemma DuplicatesAccountedFor(cfg: Config, steps: seq<Step>, i: nat, j: nat)
    requires Runs(cfg, INIT, steps)
    requires i < j < |Final(cfg, INIT, steps).bus|
    requires Final(cfg, INIT, steps).bus[i].event.id == Final(cfg, INIT, steps).bus[j].event.id
    ensures var s := Final(cfg, INIT, steps);
            && (Charged(s.fates, s.bus[i]) || Charged(s.fates, s.bus[j]))
            && Core(s.bus[i].event) == Core(s.bus[j].event)
  {
    RunKeeps(cfg, INIT, steps);
    var s := Final(cfg, INIT, steps);
    assert CopyOk(s.rows, s.open, s.fates, s.bus[i]) && CopyOk(s.rows, s.open, s.fates, s.bus[j]);
  }
}
