/** The relay's batch, as the store runs it, is a run of the protocol. */
module OutboxRefinement {
  import opened Collections
  import opened OutboxTable
  import opened OutboxProtocol
  import Pool = PublishPool

  lemma {:induction false} RunsConcat(cfg: Config, s: Sys, a: seq<Step>, b: seq<Step>)
    requires Runs(cfg, s, a) && Runs(cfg, Final(cfg, s, a), b)
    ensures Runs(cfg, s, a + b) && Final(cfg, s, a + b) == Final(cfg, Final(cfg, s, a), b)
    decreases |a|
  {
    hide Enabled, Apply;
    if a == [] {
      assert a + b == b;
    } else {
      assert (a + b)[1..] == a[1..] + b;
      RunsConcat(cfg, Apply(cfg, s, a[0]), a[1..], b);
    }
  }

  lemma RunsOne(cfg: Config, s: Sys, step: Step)
    requires Enabled(cfg, s, step)
    ensures Runs(cfg, s, [step]) && Final(cfg, s, [step]) == Apply(cfg, s, step)
  {
    hide Enabled, Apply;
    assert [step][1..] == [];
    assert Runs(cfg, Apply(cfg, s, step), []);
  }

  /** What a publish call injects and how it ends. */
  datatype Call = Call(span: Span, outcome: Outcome)

  /** One publish call per row, in order. */
  function Calls(r: nat, ids: seq<Id>, call: Id -> Call): seq<Step> {
    if ids == [] then [] else
    var id := ids[|ids| - 1];
    Calls(r, ids[..|ids| - 1], call) + [Publish(r, id, call(id).span, call(id).outcome)]
  }

  /** The copies the calls put on the bus, in order: one for each that was not refused. */
  function Copies(rows: Table, no: nat, ids: seq<Id>, call: Id -> Call): seq<Copy>
    requires forall i :: 0 <= i < |ids| ==> ids[i] in rows
  {
    if ids == [] then [] else
    var id := ids[|ids| - 1];
    Sent(Copies(rows, no, ids[..|ids| - 1], call), no, OnBus(id, rows[id], call(id).span), call(id).outcome)
  }

  lemma CopiesMore(rows: Table, no: nat, ids: seq<Id>, call: Id -> Call, id: Id, bus: seq<Copy>)
    requires id in rows && forall i :: 0 <= i < |ids| ==> ids[i] in rows
    ensures Sent(bus + Copies(rows, no, ids, call), no, OnBus(id, rows[id], call(id).span), call(id).outcome)
         == bus + Copies(rows, no, ids + [id], call)
  {
    assert (ids + [id])[..|ids|] == ids;
  }

  /** What the calls leave behind: their copies on the bus and the batch's own report. */
  ghost predicate Called(s: Sys, t: Sys, r: nat, ids: seq<Id>, call: Id -> Call) {
    && r in s.open && r in t.open && (forall i :: 0 <= i < |ids| ==> ids[i] in s.rows)
    && t.bus == s.bus + Copies(s.rows, s.open[r].no, ids, call)
    && t == s.(open := s.open[r := t.open[r]], bus := t.bus)
    && t.open[r].no == s.open[r].no && t.open[r].claimed == s.open[r].claimed
    && (forall id ::
          id in t.open[r].published <==> id in s.open[r].published || (id in ids && call(id).outcome == Acked))
    && (forall id :: id in t.open[r].failed <==> id in s.open[r].failed || (id in ids && call(id).outcome != Acked))
  }

  lemma CalledOne(cfg: Config, s: Sys, t: Sys, r: nat, ids: seq<Id>, call: Id -> Call, id: Id)
    requires Called(s, t, r, ids, call) && Enabled(cfg, t, Publish(r, id, call(id).span, call(id).outcome))
    ensures Called(s, Apply(cfg, t, Publish(r, id, call(id).span, call(id).outcome)), r, ids + [id], call)
  {
    hide Copies, Sent, OnBus;
    var u := Apply(cfg, t, Publish(r, id, call(id).span, call(id).outcome));
    CopiesMore(s.rows, s.open[r].no, ids, call, id, s.bus);
    assert s.open[r := t.open[r]][r := u.open[r]] == s.open[r := u.open[r]];
  }

  lemma {:induction false} CallsRun(cfg: Config, s: Sys, r: nat, ids: seq<Id>, call: Id -> Call)
    requires r in s.open && Distinct(ids) && forall i :: 0 <= i < |ids| ==>
            Unreported(s.open[r], ids[i]) && ids[i] in s.rows
    ensures Runs(cfg, s, Calls(r, ids, call)) && Called(s, Final(cfg, s, Calls(r, ids, call)), r, ids, call)
  {
    if ids == [] {
      assert s.open[r := s.open[r]] == s.open;
    } else {
      var front, id := ids[..|ids| - 1], ids[|ids| - 1];
      CallsRun(cfg, s, r, front, call);
      var t := Final(cfg, s, Calls(r, front, call));
      var step := Publish(r, id, call(id).span, call(id).outcome);
      assert id !in front;
      RunsOne(cfg, t, step);
      RunsConcat(cfg, s, Calls(r, front, call), [step]);
      CalledOne(cfg, s, t, r, front, call, id);
      assert front + [id] == ids;
    }
  }

  /** The batch a poll opens. */
  function Claimed(s: Sys, r: nat, picked: seq<Id>): Sys {
    s.(open := s.open[r := Batch(|s.fates|, Elements(picked), map[], {})], fates := s.fates + [Open(r)])
  }

  /** Up to its end, a batch over a poll is a run: claim, then publishes of any of its rows. */
  lemma OpenBatchIsRun(cfg: Config, s: Sys, r: nat, picked: seq<Id>, told: seq<Id>, call: Id -> Call)
    requires r !in s.open && picked != [] && IsPoll(s.rows, Locked(s.open), cfg.limit, picked)
    requires Distinct(told) && Elements(told) <= Elements(picked)
    ensures var steps := [Claim(r, picked)] + Calls(r, told, call);
            Runs(cfg, s, steps) && Called(Claimed(s, r, picked), Final(cfg, s, steps), r, told, call)
  {
    var claim, t := Claim(r, picked), Claimed(s, r, picked);
    assert Enabled(cfg, s, claim) && Apply(cfg, s, claim) == t;
    RunsOne(cfg, s, claim);
    forall i | 0 <= i < |told| ensures Unreported(t.open[r], told[i]) && told[i] in t.rows {
      assert told[i] in Elements(told);
      var k :| 0 <= k < |picked| && picked[k] == told[i];
      assert picked[k] in PendingIds(s.rows) - Locked(s.open);
    }
    CallsRun(cfg, t, r, told, call);
    RunsConcat(cfg, s, [claim], Calls(r, told, call));
  }

  /** A report agrees with what the publish calls did. */
  predicate Tells(report: Report, call: Id -> Call) {
    && (forall i :: 0 <= i < |report.published| ==> call(report.published[i]).outcome == Acked)
    && (forall i :: 0 <= i < |report.failed| ==> call(report.failed[i]).outcome != Acked)
  }

  lemma ReportedSets(s: Sys, t: Sys, r: nat, picked: seq<Id>, order: seq<Id>, report: Report, call: Id -> Call)
    requires Called(s, t, r, order, call) && Elements(order) == Elements(picked) && s.open[r].published == map[]
            && s.open[r].failed == {}
    requires Distinct(picked) && Splits(report, picked) && Tells(report, call)
    ensures t.open[r].published.Keys == Elements(report.published) && t.open[r].failed == Elements(report.failed)
  {
    hide Copies;
    forall id ensures id in order <==> id in picked { assert id in Elements(order) <==> id in Elements(picked); }
    forall id ensures id in Elements(report.published) <==> id in picked && call(id).outcome == Acked {
      ReportedId(report, picked, call, id);
    }
    forall id ensures id in Elements(report.failed) <==> id in picked && call(id).outcome != Acked {
      ReportedId(report, picked, call, id);
    }
  }

  lemma ReportedId(report: Report, picked: seq<Id>, call: Id -> Call, id: Id)
    requires Splits(report, picked) && Tells(report, call)
    ensures id in report.published <==> id in picked && call(id).outcome == Acked
    ensures id in report.failed <==> id in picked && call(id).outcome != Acked
  {
    assert id in picked <==> id in multiset(picked);
    assert id in report.published <==> id in multiset(report.published);
    assert id in report.failed <==> id in multiset(report.failed);
  }

  /**
   * The state after a batch ends: the table it leaves, the replica idle again, everything else of the
   * writers as it was.
   */
  ghost predicate Ended(s: Sys, t: Sys, rows: Table, fate: Fate, polled: nat) {
    && t.rows == rows && t.open == s.open && t.txs == s.txs && t.writes == s.writes
    && t.fates == s.fates + [fate] && t.polled == s.polled + polled
  }

  lemma CommitEnds(cfg: Config, s: Sys, t: Sys, r: nat, picked: seq<Id>, order: seq<Id>, report: Report,
                   call: Id -> Call, now: int)
    requires r !in s.open && Called(Claimed(s, r, picked), t, r, order, call)
    requires Distinct(picked) && Elements(order) == Elements(picked) && Splits(report, picked) && Tells(report, call)
    ensures Enabled(cfg, t, Commit(r, now))
    ensures Ended(s, Apply(cfg, t, Commit(r, now)),
                  Marked(s.rows, Elements(report.published), Elements(report.failed), cfg.maxAttempts, now),
                  Committed, |picked|)
    ensures Apply(cfg, t, Commit(r, now)).bus == s.bus + Copies(s.rows, |s.fates|, order, call)
  {
    hide Marked, Splits, Tells, Elements, Complete, Distinct, Enabled, Apply, Ended, Copies;
    CommitReady(s, t, r, picked, order, report, call);
    assert s.open[r := Claimed(s, r, picked).open[r]][r := t.open[r]] == s.open[r := t.open[r]];
    CommitCloses(cfg, s, t, r, t.open[r], now);
  }

  /** Committing a complete batch ends it with the table its report describes. */
  lemma CommitCloses(cfg: Config, s: Sys, t: Sys, r: nat, b: Batch, now: int)
    requires r !in s.open && b.no == |s.fates| && Complete(b)
    requires t == s.(open := s.open[r := b], fates := s.fates + [Open(r)], bus := t.bus)
    ensures Enabled(cfg, t, Commit(r, now))
    ensures Ended(s, Apply(cfg, t, Commit(r, now)),
                  Marked(s.rows, b.published.Keys, b.failed, cfg.maxAttempts, now), Committed, |b.claimed|)
    ensures Apply(cfg, t, Commit(r, now)).bus == t.bus && Apply(cfg, t, Commit(r, now)).late == t.late
  {
    hide Marked, Complete, IsPoll, Locked, Unreported, Added, Sent, Reported, RowFor, RowId, Elements;
    assert t.open - {r} == s.open;
    assert t.fates[b.no := Committed] == s.fates + [Committed];
  }

  lemma CommitReady(s: Sys, t: Sys, r: nat, picked: seq<Id>, order: seq<Id>, report: Report, call: Id -> Call)
    requires Called(Claimed(s, r, picked), t, r, order, call)
    requires Distinct(picked) && Elements(order) == Elements(picked) && Splits(report, picked) && Tells(report, call)
    ensures var b := t.open[r];
            && Complete(b) && |b.claimed| == |picked|
            && b.published.Keys == Elements(report.published) && b.failed == Elements(report.failed)
  {
    hide Splits, Tells, Distinct, Copies;
    ReportedSets(Claimed(s, r, picked), t, r, picked, order, report, call);
    SplitsAsSets(report, picked);
    DistinctSize(picked);
  }

  lemma AbortEnds(cfg: Config, s: Sys, t: Sys, r: nat, picked: seq<Id>, told: seq<Id>, call: Id -> Call)
    requires r !in s.open && Called(Claimed(s, r, picked), t, r, told, call)
    ensures Enabled(cfg, t, Abort(r)) && Ended(s, Apply(cfg, t, Abort(r)), s.rows, Aborted, 0)
    ensures Apply(cfg, t, Abort(r)).bus == t.bus && t.bus == s.bus + Copies(s.rows, |s.fates|, told, call)
    ensures forall id :: id in picked && id !in told ==> (|s.fates|, id) in Apply(cfg, t, Abort(r)).late
  {
    hide Copies;
    assert t.open - {r} == s.open;
    forall id | id in picked && id !in told ensures (|s.fates|, id) in Unfinished(t.open[r]) {
      assert id in t.open[r].claimed && Unreported(t.open[r], id);
    }
  }

  /** Publishes that were under way when the transaction went. */
  function LateCalls(no: nat, ids: seq<Id>, call: Id -> Call): seq<Step> {
    if ids == [] then [] else
    var id := ids[|ids| - 1];
    LateCalls(no, ids[..|ids| - 1], call) + [LatePublish(no, id, call(id).span, call(id).outcome)]
  }

  lemma {:induction false} LateCallsRun(cfg: Config, s: Sys, no: nat, ids: seq<Id>, call: Id -> Call)
    requires Distinct(ids) && forall i :: 0 <= i < |ids| ==> (no, ids[i]) in s.late && ids[i] in s.rows
    ensures Runs(cfg, s, LateCalls(no, ids, call))
    ensures var t := Final(cfg, s, LateCalls(no, ids, call));
            && t == s.(late := t.late, bus := t.bus)
            && t.bus == s.bus + Copies(s.rows, no, ids, call)
            && (forall id :: (no, id) in s.late && id !in ids ==> (no, id) in t.late)
  {
    if ids != [] {
      var front, id := ids[..|ids| - 1], ids[|ids| - 1];
      LateCallsRun(cfg, s, no, front, call);
      var t := Final(cfg, s, LateCalls(no, front, call));
      var step := LatePublish(no, id, call(id).span, call(id).outcome);
      assert id !in front && (no, id) in t.late;
      RunsOne(cfg, t, step);
      RunsConcat(cfg, s, LateCalls(no, front, call), [step]);
      CopiesMore(s.rows, no, front, call, id, s.bus);
      assert front + [id] == ids;
    }
  }

  /**
   * A batch the store commits is a run of the protocol: claim, one publish per row in whatever order,
   * commit. It ends in the very table the store wrote, with the delivered copies on the bus in that order.
   */
  lemma CommittedBatchIsRun(cfg: Config, s: Sys, r: nat, picked: seq<Id>, order: seq<Id>, report: Report,
                            call: Id -> Call, now: int)
    requires r !in s.open && picked != [] && IsPoll(s.rows, Locked(s.open), cfg.limit, picked)
    requires Distinct(order) && Elements(order) == Elements(picked)
    requires Splits(report, picked) && Tells(report, call)
    ensures forall i :: 0 <= i < |order| ==> order[i] in s.rows
    ensures var steps := [Claim(r, picked)] + Calls(r, order, call) + [Commit(r, now)];
            && Runs(cfg, s, steps)
            && Ended(s, Final(cfg, s, steps),
                     Marked(s.rows, Elements(report.published), Elements(report.failed), cfg.maxAttempts, now),
                     Committed, |picked|)
            && Final(cfg, s, steps).bus == s.bus + Copies(s.rows, |s.fates|, order, call)
  {
    assert Distinct(picked);
    OrderedRows(s, cfg.limit, picked, order);
    hide Marked, Splits, Tells, Elements, Enabled, Apply, Called, Claimed, Ended, IsPoll, Locked, Distinct, Runs,
         Final, Calls, Copies;
    var opening, commit := [Claim(r, picked)] + Calls(r, order, call), Commit(r, now);
    OpenBatchIsRun(cfg, s, r, picked, order, call);
    var t := Final(cfg, s, opening);
    CommitEnds(cfg, s, t, r, picked, order, report, call, now);
    RunsOne(cfg, t, commit);
    RunsConcat(cfg, s, opening, [commit]);
  }

  lemma OrderedRows(s: Sys, limit: nat, picked: seq<Id>, order: seq<Id>)
    requires IsPoll(s.rows, Locked(s.open), limit, picked) && Elements(order) <= Elements(picked)
    ensures forall i :: 0 <= i < |order| ==> order[i] in s.rows
  {
    PickedRows(s, limit, picked);
    forall i | 0 <= i < |order| ensures order[i] in s.rows { assert order[i] in Elements(order); }
  }

  /**
   * A batch the store rolls back is a run that leaves the table alone, however many of its rows were
   * published before the transaction went and however many after. The bus has the delivered copies.
   */
  lemma AbortedBatchIsRun(cfg: Config, s: Sys, r: nat, picked: seq<Id>, before: seq<Id>, after: seq<Id>,
                          call: Id -> Call)
    requires r !in s.open && picked != [] && IsPoll(s.rows, Locked(s.open), cfg.limit, picked)
    requires Distinct(before + after) && Elements(before + after) <= Elements(picked)
    ensures forall i :: 0 <= i < |before| ==> before[i] in s.rows
    ensures forall i :: 0 <= i < |after| ==> after[i] in s.rows
    ensures var no := |s.fates|;
            var steps := [Claim(r, picked)] + Calls(r, before, call) + [Abort(r)] + LateCalls(no, after, call);
            && Runs(cfg, s, steps) && Ended(s, Final(cfg, s, steps), s.rows, Aborted, 0)
            && Final(cfg, s, steps).bus == s.bus + Copies(s.rows, no, before, call) + Copies(s.rows, no, after, call)
  {
    hide Enabled, Apply, Called, Claimed, Ended, IsPoll, Locked, Distinct, Runs, Final, Calls, LateCalls, Copies,
         Elements;
    BeforeAfter(before, after, picked);
    PickedRows(s, cfg.limit, picked);
    OrderedRows(s, cfg.limit, picked, before);
    RolledBack(cfg, s, r, picked, before, call);
    var opening := [Claim(r, picked)] + Calls(r, before, call) + [Abort(r)];
    var u := Final(cfg, s, opening);
    EndedRows(s, u, s.rows, Aborted, 0);
    forall i | 0 <= i < |after| ensures (|s.fates|, after[i]) in u.late && after[i] in u.rows {}
    FinishLate(cfg, s, u, opening, |s.fates|, after, call);
  }

  /** The batch up to its rollback. */
  lemma RolledBack(cfg: Config, s: Sys, r: nat, picked: seq<Id>, before: seq<Id>, call: Id -> Call)
    requires r !in s.open && picked != [] && IsPoll(s.rows, Locked(s.open), cfg.limit, picked)
    requires Distinct(before) && Elements(before) <= Elements(picked)
    requires forall i :: 0 <= i < |before| ==> before[i] in s.rows
    ensures var opening := [Claim(r, picked)] + Calls(r, before, call) + [Abort(r)];
            && Runs(cfg, s, opening)
            && var u := Final(cfg, s, opening);
            && Ended(s, u, s.rows, Aborted, 0) && u.bus == s.bus + Copies(s.rows, |s.fates|, before, call)
            && (forall id :: id in picked && id !in before ==> (|s.fates|, id) in u.late)
  {
    hide Enabled, Apply, Called, Claimed, Ended, IsPoll, Locked, Distinct, Runs, Final, Calls, Copies, Elements;
    var opening := [Claim(r, picked)] + Calls(r, before, call);
    OpenBatchIsRun(cfg, s, r, picked, before, call);
    var t := Final(cfg, s, opening);
    AbortEnds(cfg, s, t, r, picked, before, call);
    RunsOne(cfg, t, Abort(r));
    RunsConcat(cfg, s, opening, [Abort(r)]);
  }

  /** Late publishes after the rollback add their copies and nothing else. */
  lemma FinishLate(cfg: Config, s: Sys, u: Sys, opening: seq<Step>, no: nat, after: seq<Id>, call: Id -> Call)
    requires Runs(cfg, s, opening) && u == Final(cfg, s, opening) && Ended(s, u, s.rows, Aborted, 0) && u.rows == s.rows
    requires Distinct(after) && forall i :: 0 <= i < |after| ==> (no, after[i]) in u.late && after[i] in s.rows
    ensures Runs(cfg, s, opening + LateCalls(no, after, call))
    ensures var t := Final(cfg, s, opening + LateCalls(no, after, call));
            Ended(s, t, s.rows, Aborted, 0) && t.bus == u.bus + Copies(s.rows, no, after, call)
  {
    hide Enabled, Apply, Ended, Distinct, Runs, Final, LateCalls, Copies;
    LateCallsRun(cfg, u, no, after, call);
    EndedLater(s, u, Final(cfg, u, LateCalls(no, after, call)), s.rows, Aborted, 0);
    RunsConcat(cfg, s, opening, LateCalls(no, after, call));
  }

  lemma EndedRows(s: Sys, t: Sys, rows: Table, fate: Fate, polled: nat)
    requires Ended(s, t, rows, fate, polled)
    ensures t.rows == rows
  {
  }

  lemma EndedLater(s: Sys, t: Sys, u: Sys, rows: Table, fate: Fate, polled: nat)
    requires Ended(s, t, rows, fate, polled) && u == t.(late := u.late, bus := u.bus)
    ensures Ended(s, u, rows, fate, polled)
  {
  }

  lemma PickedRows(s: Sys, limit: nat, picked: seq<Id>)
    requires IsPoll(s.rows, Locked(s.open), limit, picked)
    ensures forall id :: id in picked ==> id in s.rows
  {
    forall i | 0 <= i < |picked| ensures picked[i] in s.rows {
      assert picked[i] in PendingIds(s.rows) - Locked(s.open);
    }
  }

  lemma BeforeAfter(before: seq<Id>, after: seq<Id>, picked: seq<Id>)
    requires Distinct(before + after) && Elements(before + after) <= Elements(picked)
    ensures Distinct(before) && Elements(before) <= Elements(picked) && Distinct(after)
    ensures forall i :: 0 <= i < |after| ==> after[i] in picked && after[i] !in before
  {
    var all := before + after;
    forall i | 0 <= i < |before| ensures all[i] == before[i] && before[i] in Elements(picked) {
      assert all[i] in Elements(all);
    }
    forall i | 0 <= i < |after| ensures all[|before| + i] == after[i] && after[i] in Elements(picked) {
      assert all[|before| + i] in Elements(all);
    }
    forall i, j | 0 <= i < j < |after| ensures after[i] != after[j] { assert all[|before| + i] != all[|before| + j]; }
    forall i, j | 0 <= i < |before| && 0 <= j < |after| ensures before[i] != after[j] {
      assert all[i] != all[|before| + j];
    }
  }

  // --- The worker pool supplies the report --------------------------------------------------------

  /** The rows in the order the pool called them. */
  function Tried(calls: seq<Pool.Attempt>): seq<Id> {
    seq(|calls|, i requires 0 <= i < |calls| => calls[i].id)
  }

  /** A row is tried as often as its calls succeed and fail together. */
  predicate Sides(calls: seq<Pool.Attempt>, id: Id) {
    Pool.Times(Tried(calls), id) == Pool.Times(Pool.Ids(calls, true), id) + Pool.Times(Pool.Ids(calls, false), id)
  }

  lemma {:induction false} TriedTimes(calls: seq<Pool.Attempt>, id: Id)
    ensures Sides(calls, id)
  {
    hide Sides;
    if calls == [] {
      NoneTried(id);
    } else {
      var front, a := calls[..|calls| - 1], calls[|calls| - 1];
      TriedTimes(front, id);
      assert calls == front + [a];
      SidesMore(front, a, id);
    }
  }

  lemma NoneTried(id: Id)
    ensures Sides([], id)
  {
    assert Tried([]) == [];
  }

  lemma SidesMore(front: seq<Pool.Attempt>, a: Pool.Attempt, id: Id)
    requires Sides(front, id)
    ensures Sides(front + [a], id)
  {
    hide Tried, Pool.Ids, Pool.Times;
    TriedMore(front, a);
    Pool.TimesAppend(Tried(front), a.id, id);
    Pool.IdsAppend(front, a, true, id);
    Pool.IdsAppend(front, a, false, id);
  }

  lemma TriedMore(calls: seq<Pool.Attempt>, a: Pool.Attempt)
    ensures Tried(calls + [a]) == Tried(calls) + [a.id]
  {
  }

  lemma TriedIds(calls: seq<Pool.Attempt>)
    ensures multiset(Tried(calls)) == multiset(Pool.Ids(calls, true)) + multiset(Pool.Ids(calls, false))
  {
    hide Tried, Pool.Ids;
    var both := Pool.Ids(calls, true) + Pool.Ids(calls, false);
    forall id ensures Pool.Times(Tried(calls), id) == Pool.Times(both, id) { TriedTimes(calls, id); }
    Pool.SameTimes(Tried(calls), both);
  }

  lemma {:induction false} TriedListed(calls: seq<Pool.Attempt>, i: nat)
    requires i < |calls|
    ensures calls[i].id in Pool.Ids(calls, calls[i].ok)
  {
    var front := calls[..|calls| - 1];
    if i < |front| {
      assert front[i] == calls[i];
      TriedListed(front, i);
    }
  }

  /** What each call was: acknowledged if the pool saw it succeed, else delivered or not, who knows. */
  function CallOf(published: seq<Id>, span: Id -> Span, lost: Id -> bool): Id -> Call {
    (id: Id) => Call(span(id), if id in published then Acked else if lost(id) then LostAck else Refused)
  }

  /** A complete pool run over distinct rows reports on each of them, and truly. */
  lemma PoolTells(rows: seq<Id>, workers: nat, run: seq<Pool.Step>, span: Id -> Span, lost: Id -> bool)
    requires Distinct(rows) && workers > 0 && Pool.Runs(Pool.Start(rows, workers), run)
    requires Pool.Final(Pool.Start(rows, workers), run).resultsClosed
    ensures var p := Pool.Final(Pool.Start(rows, workers), run);
            var call := CallOf(Pool.Ids(p.calls, true), span, lost);
            && Splits(p.report, rows) && Tells(p.report, call)
            && Distinct(Tried(p.calls)) && Elements(Tried(p.calls)) == Elements(rows)
            && (forall i :: 0 <= i < |p.calls| ==> (call(p.calls[i].id).outcome == Acked <==> p.calls[i].ok))
  {
    var p := Pool.Final(Pool.Start(rows, workers), run);
    Pool.PublishAllCorrect(rows, workers, run);
    Pool.RunRows(rows, workers, run);
    TriedIds(p.calls);
    hide Pool.Runs, Pool.Final, Pool.Ids, Tried;
    SameElements(Tried(p.calls), rows);
    ReportTells(p.report, p.calls, rows, span, lost);
    forall i | 0 <= i < |p.calls|
      ensures CallOf(Pool.Ids(p.calls, true), span, lost)(p.calls[i].id).outcome == Acked <==> p.calls[i].ok {
      TriedListed(p.calls, i);
      NotBoth(Pool.Ids(p.calls, true), Pool.Ids(p.calls, false), rows, p.calls[i].id);
    }
  }

  lemma SameElements(a: seq<Id>, b: seq<Id>)
    requires multiset(a) == multiset(b) && Distinct(b)
    ensures Distinct(a) && Elements(a) == Elements(b)
  {
    forall x ensures x in a <==> x in b { assert x in multiset(a) <==> x in multiset(b); }
    forall i, j | 0 <= i < j < |a| ensures a[i] != a[j] {
      DistinctOnce(b, a[i]);
      assert a == a[..j] + [a[j]] + a[j + 1..];
      assert multiset(a)[a[i]] == multiset(a[..j])[a[i]] + (if a[j] == a[i] then 1 else 0) + multiset(a[j + 1..])[a[i]];
      assert a[..j][i] in multiset(a[..j]);
    }
  }

  /** Of distinct rows split in two none is on both sides. */
  lemma NotBoth(a: seq<Id>, b: seq<Id>, rows: seq<Id>, id: Id)
    requires Distinct(rows) && multiset(a) + multiset(b) == multiset(rows)
    ensures !(id in a && id in b)
  {
    DistinctOnce(rows, id);
    assert id in a <==> multiset(a)[id] > 0;
    assert id in b <==> multiset(b)[id] > 0;
    assert multiset(rows)[id] == multiset(a)[id] + multiset(b)[id];
  }

  lemma ReportTells(report: Report, calls: seq<Pool.Attempt>, rows: seq<Id>, span: Id -> Span, lost: Id -> bool)
    requires Distinct(rows) && multiset(report.published) == multiset(Pool.Ids(calls, true))
    requires multiset(report.failed) == multiset(Pool.Ids(calls, false))
    requires multiset(Pool.Ids(calls, true)) + multiset(Pool.Ids(calls, false)) == multiset(rows)
    ensures Tells(report, CallOf(Pool.Ids(calls, true), span, lost))
  {
    hide Pool.Ids;
    var yes, no := Pool.Ids(calls, true), Pool.Ids(calls, false);
    forall i | 0 <= i < |report.published| ensures report.published[i] in yes {
      assert report.published[i] in multiset(report.published);
    }
    forall i | 0 <= i < |report.failed| ensures report.failed[i] !in yes {
      assert report.failed[i] in multiset(report.failed);
      NotBoth(yes, no, rows, report.failed[i]);
    }
  }

  /**
   * So a poll whose rows any schedule of the worker pool publishes, and which the store then commits with
   * the pool's own report, is a run of the protocol: no hypothesis about the report is left.
   */
  lemma PooledBatchIsRun(cfg: Config, s: Sys, r: nat, picked: seq<Id>, workers: nat, run: seq<Pool.Step>,
                         span: Id -> Span, lost: Id -> bool, now: int)
    requires r !in s.open && picked != [] && IsPoll(s.rows, Locked(s.open), cfg.limit, picked)
    requires workers > 0 && Pool.Runs(Pool.Start(picked, workers), run)
    requires Pool.Final(Pool.Start(picked, workers), run).resultsClosed
    ensures var p := Pool.Final(Pool.Start(picked, workers), run);
            var call := CallOf(Pool.Ids(p.calls, true), span, lost);
            var steps := [Claim(r, picked)] + Calls(r, Tried(p.calls), call) + [Commit(r, now)];
            && (forall i :: 0 <= i < |Tried(p.calls)| ==> Tried(p.calls)[i] in s.rows)
            && Runs(cfg, s, steps)
            && Ended(s, Final(cfg, s, steps),
                     Marked(s.rows, Elements(p.report.published), Elements(p.report.failed), cfg.maxAttempts, now),
                     Committed, |picked|)
            && Final(cfg, s, steps).bus == s.bus + Copies(s.rows, |s.fates|, Tried(p.calls), call)
  {
    assert Distinct(picked);
    hide Marked, Splits, Tells, Ended, IsPoll, Locked, Runs, Final, Calls, Copies, Tried, Pool.Runs, Pool.Final,
         Pool.Ids, CallOf;
    var p := Pool.Final(Pool.Start(picked, workers), run);
    PoolTells(picked, workers, run, span, lost);
    CommittedBatchIsRun(cfg, s, r, picked, Tried(p.calls), p.report, CallOf(Pool.Ids(p.calls, true), span, lost), now);
  }

  // --- A copy that lands after the row is done --------------------------------------------------

  lemma RunsThen(cfg: Config, s: Sys, steps: seq<Step>, step: Step)
    requires Runs(cfg, s, steps) && Enabled(cfg, Final(cfg, s, steps), step)
    ensures Runs(cfg, s, steps + [step]) && Final(cfg, s, steps + [step]) == Apply(cfg, Final(cfg, s, steps), step)
  {
    hide Enabled, Apply, Runs, Final;
    RunsOne(cfg, Final(cfg, s, steps), step);
    RunsConcat(cfg, s, steps, [step]);
  }

  lemma OnlyRow(rows: Table, id: Id, row: Row, open: Batches, limit: nat)
    requires rows == map[id := row] && row.status == Pending && open == map[] && limit > 0
    ensures IsPoll(rows, Locked(open), limit, [id])
  {
    assert Locked(open) == {} && PendingIds(rows) - {} == {id};
  }

  lemma ClaimStep(cfg: Config, s: Sys, r: nat, picked: seq<Id>)
    requires r !in s.open && picked != [] && IsPoll(s.rows, Locked(s.open), cfg.limit, picked)
    ensures Enabled(cfg, s, Claim(r, picked)) && Apply(cfg, s, Claim(r, picked)) == Claimed(s, r, picked)
  {
    hide IsPoll, Locked;
  }

  lemma NoCalls(s: Sys, r: nat, call: Id -> Call)
    requires r in s.open
    ensures Called(s, s, r, [], call)
  {
    assert s.open[r := s.open[r]] == s.open;
    assert s.bus + [] == s.bus;
  }

  lemma InsertStep(cfg: Config, event: Event)
    requires event.id == Parsed(7)
    ensures var insert := InsertAlone(Ask(event, "t", 7, map[], 0));
            && Enabled(cfg, INIT, insert)
            && Apply(cfg, INIT, insert) == INIT.(rows := map[7 := RowFor(Ask(event, "t", 7, map[], 0))],
                origin := map[7 := Ask(event, "t", 7, map[], 0)])
  {
    hide RowFor;
  }

  /** One replica has claimed the only row and lost its transaction before it published anything. */
  lemma LostBatch(cfg: Config, event: Event) returns (steps: seq<Step>)
    requires cfg.limit > 0 && event.id == Parsed(7)
    ensures Runs(cfg, INIT, steps)
    ensures var s := Final(cfg, INIT, steps);
            && s.rows == map[7 := RowFor(Ask(event, "t", 7, map[], 0))] && s.open == map[] && s.bus == []
            && s.fates == [Aborted] && (0, 7) in s.late
  {
    assert RowFor(Ask(event, "t", 7, map[], 0)).status == Pending;
    hide Enabled, Apply, Runs, Final, IsPoll, Locked, Called, RowFor;
    var insert, claim, abort := InsertAlone(Ask(event, "t", 7, map[], 0)), Claim(0, [7]), Abort(0);
    InsertStep(cfg, event);
    RunsOne(cfg, INIT, insert);
    var s := Apply(cfg, INIT, insert);
    OnlyRow(s.rows, 7, RowFor(Ask(event, "t", 7, map[], 0)), s.open, cfg.limit);
    ClaimStep(cfg, s, 0, [7]);
    RunsThen(cfg, INIT, [insert], claim);
    var t, call := Claimed(s, 0, [7]), (_: Id) => Call(map[], Refused);
    NoCalls(t, 0, call);
    AbortEnds(cfg, s, t, 0, [7], [], call);
    RunsThen(cfg, INIT, [insert] + [claim], abort);
    steps := [insert] + [claim] + [abort];
  }

  lemma PublishStep(cfg: Config, s: Sys, row: Row)
    requires s.rows == map[7 := row] && s.open == map[] && s.bus == [] && s.fates == [Aborted]
    ensures var t, publish := Claimed(s, 1, [7]), Publish(1, 7, map[], Acked);
            && Enabled(cfg, t, publish)
            && Apply(cfg, t, publish) == s.(open := s.open[1 := Batch(1, {7}, map[7 := 0], {})],
                fates := s.fates + [Open(1)],
                                            bus := [Copy(OnBus(7, row, map[]), 1, true)])
  {
    hide OnBus;
    var t := Claimed(s, 1, [7]);
    assert Elements([7]) == {7};
    assert Reported(t.open[1], 7, Acked, 0) == Batch(1, {7}, map[7 := 0], {});
    assert t.open[1 := Batch(1, {7}, map[7 := 0], {})] == s.open[1 := Batch(1, {7}, map[7 := 0], {})];
  }

  /** Another replica publishes the row and commits. */
  lemma CommittedAgain(cfg: Config, s: Sys, row: Row) returns (steps: seq<Step>)
    requires s.rows == map[7 := row] && row.status == Pending && s.open == map[] && s.bus == [] && s.fates == [Aborted]
    requires IsPoll(s.rows, Locked(s.open), cfg.limit, [7])
    ensures Runs(cfg, s, steps)
    ensures var t := Final(cfg, s, steps);
            t.bus == [Copy(OnBus(7, row, map[]), 1, true)] && t.fates == [Aborted, Committed] && 7 in t.rows
              && t.late == s.late
  {
    hide Enabled, Apply, Runs, Final, IsPoll, Locked, OnBus, Claimed;
    var claim, publish, commit := Claim(1, [7]), Publish(1, 7, map[], Acked), Commit(1, 0);
    ClaimStep(cfg, s, 1, [7]);
    RunsOne(cfg, s, claim);
    PublishStep(cfg, s, row);
    RunsThen(cfg, s, [claim], publish);
    var u, b := Apply(cfg, Claimed(s, 1, [7]), publish), Batch(1, {7}, map[7 := 0], {});
    CommitCloses(cfg, s, u, 1, b, 0);
    RunsThen(cfg, s, [claim] + [publish], commit);
    steps := [claim] + [publish] + [commit];
  }

  lemma LateStep(cfg: Config, s: Sys)
    requires (0, 7) in s.late && 7 in s.rows
    ensures var late := LatePublish(0, 7, map[], Acked);
            && Enabled(cfg, s, late)
            && Apply(cfg, s, late) == s.(late := s.late - {(0, 7)},
                bus := s.bus + [Copy(OnBus(7, s.rows[7], map[]), 0, true)])
  {
  }

  /**
   * The earlier of two copies need not be the one to answer for: a second replica publishes the row and
   * commits, and then the first one's publish lands.
   */
  lemma LateCopyLands(cfg: Config, event: Event) returns (steps: seq<Step>)
    requires cfg.limit > 0 && event.id == Parsed(7)
    ensures Runs(cfg, INIT, steps)
    ensures var s := Final(cfg, INIT, steps);
            && |s.bus| == 2 && s.bus[0].event.id == s.bus[1].event.id
            && !Charged(s.fates, s.bus[0]) && Charged(s.fates, s.bus[1])
  {
    assert RowFor(Ask(event, "t", 7, map[], 0)).status == Pending;
    hide Enabled, Apply, Runs, Final, IsPoll, Locked, RowFor;
    steps := LostBatch(cfg, event);
    var s, row := Final(cfg, INIT, steps), RowFor(Ask(event, "t", 7, map[], 0));
    OnlyRow(s.rows, 7, row, s.open, cfg.limit);
    var again := CommittedAgain(cfg, s, row);
    RunsConcat(cfg, INIT, steps, again);
    steps := steps + again;
    LateStep(cfg, Final(cfg, INIT, steps));
    RunsThen(cfg, INIT, steps, LatePublish(0, 7, map[], Acked));
    steps := steps + [LatePublish(0, 7, map[], Acked)];
  }

  // --- Writing -------------------------------------------------------------------------------------

  /** A write on its own is the store's insert: refused when the id is taken, else one fresh row under it. */
  lemma InsertIsStep(cfg: Config, s: Sys, a: Ask, id: Id)
    requires a.event.id == Parsed(id) || (a.event.id == Malformed && a.spare == id)
    ensures Enabled(cfg, s, InsertAlone(a)) <==> id !in s.rows
    ensures id !in s.rows ==>
              var carrier := a.event.carrier + a.span;
              var row := Row(a.event.kind, a.topic, a.event.payload, carrier, Pending, a.now, None, 0, "");
              Apply(cfg, s, InsertAlone(a)) == s.(rows := s.rows[id := row], origin := s.origin[id := a])
  {
  }
}
