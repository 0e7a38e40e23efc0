/** The backlog drains: what is pending is paid for by the attempts it still owes. */
module OutboxDrain {
  import opened Collections
  import opened OutboxTable
  import opened OutboxProtocol

  predicate Quiet(step: Step) {
    !step.TxCommit? && !step.InsertAlone? && !step.Abort?
  }

  lemma QuietStep(cfg: Config, s: Sys, step: Step)
    requires cfg.maxAttempts > 0 && Inv(cfg, s) && Enabled(cfg, s, step) && Quiet(step)
    ensures var s' := Apply(cfg, s, step);
            && s'.rows.Keys == s.rows.Keys
            && Debt(s'.rows, s'.rows.Keys, cfg.maxAttempts) + s'.polled
            <= Debt(s.rows, s.rows.Keys, cfg.maxAttempts) + s.polled
  {
    if step.Commit? {
      var b := s.open[step.replica];
      assert BatchOk(s.rows, s.fates, s.bus, step.replica, b);
      assert b.published.Keys + b.failed <= PendingIds(s.rows);
      MarkedOutcome(s.rows, b.published.Keys, b.failed, cfg.maxAttempts, step.now);
    }
  }

  lemma {:induction false} QuietRun(cfg: Config, s: Sys, steps: seq<Step>)
    requires cfg.maxAttempts > 0 && Inv(cfg, s) && Runs(cfg, s, steps)
    requires forall i :: 0 <= i < |steps| ==> Quiet(steps[i])
    ensures var s' := Final(cfg, s, steps);
            && s'.rows.Keys == s.rows.Keys
            && Debt(s'.rows, s'.rows.Keys, cfg.maxAttempts) + s'.polled
            <= Debt(s.rows, s.rows.Keys, cfg.maxAttempts) + s.polled
    decreases |steps|
  {
    hide Inv, Apply, Enabled, Debt;
    if steps != [] {
      QuietStep(cfg, s, steps[0]);
      StepInv(cfg, s, steps[0]);
      QuietRun(cfg, Apply(cfg, s, steps[0]), steps[1..]);
    }
  }

  lemma NothingOwed(cfg: Config, s: Sys)
    requires cfg.maxAttempts > 0 && Inv(cfg, s)
    ensures Debt(s.rows, s.rows.Keys, cfg.maxAttempts) == 0 ==> PendingIds(s.rows) == {}
  {
    forall id | id in PendingIds(s.rows) ensures Debt(s.rows, s.rows.Keys, cfg.maxAttempts) > 0 {
      DebtZero(s.rows, s.rows.Keys, id, cfg.maxAttempts);
    }
  }

  // --- How much the relay can still do --------------------------------------------------------

  predicate RelayStep(step: Step) {
    step.Claim? || step.Publish? || step.Commit? || step.LatePublish?
  }

  /** Claimed rows whose publish has been reported. */
  function Told(open: Batches): set<Id> {
    set r, id | r in open && id in open[r].claimed && !Unreported(open[r], id) :: id
  }

  /**
   * Each row passes from free to claimed to reported, and leaves with one attempt less owed; three
   * units per owed attempt pay for these moves, and one pays for each late publish.
   */
  ghost function Work(cfg: Config, s: Sys): int {
    3 * Debt(s.rows, s.rows.Keys, cfg.maxAttempts) - |Locked(s.open)| - |Told(s.open)| + |s.late|
  }

  lemma {:induction false} PendingOwes(t: Table, ids: set<Id>, maxAttempts: int)
    requires maxAttempts > 0 && AttemptsBounded(t, maxAttempts) && ids <= PendingIds(t)
    ensures |ids| <= Debt(t, ids, maxAttempts)
    decreases |ids|
  {
    if ids != {} {
      var x :| x in ids;
      DebtRemove(t, ids, x, maxAttempts);
      PendingOwes(t, ids - {x}, maxAttempts);
    }
  }

  lemma {:induction false} DebtOfPart(t: Table, part: set<Id>, ids: set<Id>, maxAttempts: int)
    requires part <= ids <= t.Keys
    ensures Debt(t, part, maxAttempts) <= Debt(t, ids, maxAttempts)
    decreases |ids|
  {
    if x :| x in ids && x !in part {
      DebtRemove(t, ids, x, maxAttempts);
      DebtOfPart(t, part, ids - {x}, maxAttempts);
    } else {
      assert part == ids;
    }
  }

  /** Claimed rows are pending, so the claims and reports are paid for. */
  lemma WorkNonNegative(cfg: Config, s: Sys)
    requires cfg.maxAttempts > 0 && Inv(cfg, s)
    ensures Work(cfg, s) >= 0
  {
    var locked, told := Locked(s.open), Told(s.open);
    forall id | id in locked ensures id in PendingIds(s.rows) {
      var r :| r in s.open && id in s.open[r].claimed;
      assert BatchOk(s.rows, s.fates, s.bus, r, s.open[r]);
    }
    assert told <= locked;
    SubsetSize(told, locked);
    PendingOwes(s.rows, locked, cfg.maxAttempts);
    DebtOfPart(s.rows, locked, s.rows.Keys, cfg.maxAttempts);
  }

  lemma PickedFree(rows: Table, open: Batches, limit: nat, picked: seq<Id>)
    requires picked != [] && IsPoll(rows, Locked(open), limit, picked)
    ensures picked[0] !in Locked(open)
  {
    hide Locked;
    assert picked[0] in PendingIds(rows) - Locked(open);
  }

  lemma ClaimWorks(open: Batches, r: nat, picked: seq<Id>, no: nat)
    requires r !in open && picked != [] && picked[0] !in Locked(open)
    ensures var open' := open[r := Batch(no, Elements(picked), map[], {})];
            |Locked(open')| > |Locked(open)| && Told(open') == Told(open)
  {
    var open' := open[r := Batch(no, Elements(picked), map[], {})];
    var locked, locked' := Locked(open), Locked(open');
    forall id | id in locked ensures id in locked' {
      var q :| q in open && id in open[q].claimed;
      assert q in open' && id in open'[q].claimed;
    }
    assert r in open' && picked[0] in open'[r].claimed && picked[0] in locked';
    SubsetSize(locked + {picked[0]}, locked');
    SameTold(open, open', r);
  }

  /** Opening a batch that has reported nothing tells nothing. */
  lemma SameTold(open: Batches, open': Batches, r: nat)
    requires r !in open && r in open' && open' == open[r := open'[r]]
    requires open'[r].published == map[] && open'[r].failed == {}
    ensures Told(open') == Told(open)
  {
    forall id ensures id in Told(open') <==> id in Told(open) {
      if id in Told(open') {
        var q :| q in open' && id in open'[q].claimed && !Unreported(open'[q], id);
        assert q in open && open[q] == open'[q];
      }
      if id in Told(open) {
        var q :| q in open && id in open[q].claimed && !Unreported(open[q], id);
        assert q in open' && open[q] == open'[q];
      }
    }
  }

  predicate Exclusive(open: Batches) {
    forall q, r, id :: q in open && r in open && id in open[q].claimed && id in open[r].claimed ==> q == r
  }

  lemma PublishWorks(open: Batches, r: nat, id: Id, outcome: Outcome, pos: nat)
    requires Exclusive(open) && r in open && Unreported(open[r], id)
    ensures var open' := open[r := Reported(open[r], id, outcome, pos)];
            Locked(open') == Locked(open) && |Told(open')| > |Told(open)|
  {
    var open' := open[r := Reported(open[r], id, outcome, pos)];
    assert open'.Keys == open.Keys && forall q :: q in open ==> open'[q].claimed == open[q].claimed;
    forall x ensures x in Locked(open') <==> x in Locked(open) {
      if x in Locked(open') { var q :| q in open' && x in open'[q].claimed; assert x in open[q].claimed; }
      if x in Locked(open) { var q :| q in open && x in open[q].claimed; assert x in open'[q].claimed; }
    }
    forall x | x in Told(open) ensures x in Told(open') {
      var q :| q in open && x in open[q].claimed && !Unreported(open[q], x);
      assert q in open' && x in open'[q].claimed && !Unreported(open'[q], x);
    }
    assert id !in Told(open);
    assert id in open'[r].claimed && !Unreported(open'[r], id) && id in Told(open');
    SubsetSize(Told(open) + {id}, Told(open'));
  }

  lemma LockedFalls(open: Batches, r: nat)
    requires Exclusive(open) && r in open
    ensures Locked(open) == Locked(open - {r}) + open[r].claimed && Locked(open - {r}) !! open[r].claimed
  {
    var mine, open' := open[r].claimed, open - {r};
    forall x ensures x in Locked(open) <==> x in Locked(open') || x in mine {
      if x in Locked(open) {
        var q :| q in open && x in open[q].claimed;
        assert q == r || (q in open' && x in open'[q].claimed);
      }
      if x in Locked(open') { var q :| q in open' && x in open'[q].claimed; assert x in open[q].claimed; }
    }
  }

  lemma ToldFalls(open: Batches, r: nat)
    requires Exclusive(open) && r in open && Complete(open[r])
    ensures Told(open) == Told(open - {r}) + open[r].claimed && Told(open - {r}) !! open[r].claimed
  {
    var mine, open' := open[r].claimed, open - {r};
    forall x ensures x in Told(open) <==> x in Told(open') || x in mine {
      if x in Told(open) {
        var q :| q in open && x in open[q].claimed && !Unreported(open[q], x);
        assert q == r || (q in open' && x in open'[q].claimed && !Unreported(open'[q], x));
      }
      if x in Told(open') {
        var q :| q in open' && x in open'[q].claimed && !Unreported(open'[q], x);
        assert x in open[q].claimed;
      }
      if x in mine { assert !Unreported(open[r], x); }
    }
  }

  lemma CommitWorks(open: Batches, r: nat)
    requires Exclusive(open) && r in open && Complete(open[r])
    ensures var n := |open[r].claimed|;
            |Locked(open - {r})| == |Locked(open)| - n && |Told(open - {r})| == |Told(open)| - n
  {
    hide Locked, Told, Complete, Exclusive;
    LockedFalls(open, r);
    ToldFalls(open, r);
  }

  /** While nothing is inserted and no batch aborts, no step adds work and every relay step uses some up. */
  lemma WorkStep(cfg: Config, s: Sys, step: Step)
    requires cfg.maxAttempts > 0 && Inv(cfg, s) && Enabled(cfg, s, step) && Quiet(step)
    ensures Work(cfg, Apply(cfg, s, step)) + (if RelayStep(step) then 1 else 0) <= Work(cfg, s)
  {
    match step
    case Claim(r, picked) =>
      PickedFree(s.rows, s.open, cfg.limit, picked);
      ClaimWorks(s.open, r, picked, |s.fates|);
    case Publish(r, id, _, outcome) => PublishWorks(s.open, r, id, outcome, |s.bus|);
    case Commit(r, now) => CommitPays(cfg, s, r, now);
    case LatePublish(no, id, _, _) => assert |s.late - {(no, id)}| == |s.late| - 1;
    case _ =>
  }

  lemma CommitPays(cfg: Config, s: Sys, r: nat, now: int)
    requires cfg.maxAttempts > 0 && Inv(cfg, s) && Enabled(cfg, s, Commit(r, now))
    ensures Work(cfg, Apply(cfg, s, Commit(r, now))) < Work(cfg, s)
  {
    var b := s.open[r];
    assert BatchOk(s.rows, s.fates, s.bus, r, b);
    assert b.published.Keys + b.failed <= PendingIds(s.rows);
    MarkedOutcome(s.rows, b.published.Keys, b.failed, cfg.maxAttempts, now);
    CommitWorks(s.open, r);
    assert |b.claimed| > 0;
  }

  // --- Nothing is left waiting -----------------------------------------------------------------

  /** There always is something to poll when a row is pending and free. */
  lemma PollExists(t: Table, locked: set<Id>, limit: nat) returns (picked: seq<Id>)
    ensures IsPoll(t, locked, limit, picked)
  {
    picked := [];
    var available := PendingIds(t) - locked;
    var rest := available;
    while |picked| < limit && rest != {}
      invariant OldestFirst(t, available, picked, rest) && |picked| <= limit
      decreases rest
    {
      OldestExists(t, rest);
      var m :| m in rest && forall x :: x in rest ==> t[m].createdAt <= t[x].createdAt;
      PickOldest(t, available, picked, rest, m);
      picked := picked + [m];
      rest := rest - {m};
    }
  }

  /** As long as a row is pending, some replica can claim, publish or commit. */
  lemma RelayCanMove(cfg: Config, s: Sys) returns (step: Step)
    requires cfg.limit > 0 && Inv(cfg, s) && PendingIds(s.rows) != {}
    ensures RelayStep(step) && Quiet(step) && Enabled(cfg, s, step)
  {
    if r :| r in s.open {
      step := OpenBatchMoves(cfg, s, r);
    } else {
      var picked := PollExists(s.rows, Locked(s.open), cfg.limit);
      assert s.open == map[] && Locked(s.open) == {};
      assert PendingIds(s.rows) - {} == PendingIds(s.rows);
      step := Claim(0, picked);
    }
  }

  lemma OpenBatchMoves(cfg: Config, s: Sys, r: nat) returns (step: Step)
    requires Inv(cfg, s) && r in s.open
    ensures (step.Publish? || step.Commit?) && Enabled(cfg, s, step)
  {
    hide Inv, BatchOk, Complete, Unreported, IsPoll, Locked;
    BatchKnown(cfg, s, r);
    step := BatchMove(s.open[r], r, s.rows, s.fates, s.bus);
  }

  lemma BatchKnown(cfg: Config, s: Sys, r: nat)
    requires Inv(cfg, s) && r in s.open
    ensures BatchOk(s.rows, s.fates, s.bus, r, s.open[r])
  {
  }

  /** A batch has a publish call left to make, or everything it needs to commit. */
  lemma BatchMove(b: Batch, r: nat, rows: Table, fates: seq<Fate>, bus: seq<Copy>) returns (step: Step)
    requires BatchOk(rows, fates, bus, r, b)
    ensures b.no < |fates| && (step.Publish? || step == Commit(r, 0))
    ensures step.Publish? ==> step.replica == r && Unreported(b, step.id) && step.id in rows
    ensures step.Commit? ==> Complete(b)
  {
    if id :| id in b.claimed && Unreported(b, id) {
      step := Publish(r, id, map[], Acked);
    } else {
      step := Commit(r, 0);
    }
  }

  /** Relay steps of a run. */
  function Moves(steps: seq<Step>): nat {
    if steps == [] then 0 else (if RelayStep(steps[0]) then 1 else 0) + Moves(steps[1..])
  }

  lemma {:induction false} WorkRun(cfg: Config, s: Sys, steps: seq<Step>)
    requires cfg.maxAttempts > 0 && Inv(cfg, s) && Runs(cfg, s, steps)
    requires forall i :: 0 <= i < |steps| ==> Quiet(steps[i])
    ensures Work(cfg, Final(cfg, s, steps)) + Moves(steps) <= Work(cfg, s)
    decreases |steps|
  {
    hide Inv, Apply, Enabled, Work;
    if steps != [] {
      WorkStep(cfg, s, steps[0]);
      StepInv(cfg, s, steps[0]);
      WorkRun(cfg, Apply(cfg, s, steps[0]), steps[1..]);
    }
  }

  /** No replica can claim, publish or commit. */
  ghost predicate AtRest(cfg: Config, s: Sys) {
    forall step :: RelayStep(step) && Quiet(step) ==> !Enabled(cfg, s, step)
  }

  lemma RestMeansDrained(cfg: Config, s: Sys)
    requires cfg.limit > 0 && Inv(cfg, s) && AtRest(cfg, s)
    ensures PendingIds(s.rows) == {}
  {
    hide Inv, Enabled;
    if PendingIds(s.rows) != {} {
      var step := RelayCanMove(cfg, s);
      assert false;
    }
  }

  /**
   * While nothing is inserted and no batch aborts, whatever the bus answers: every row handled uses up
   * an attempt still owed, the relay makes at most three moves per owed attempt and one per publish
   * still under way, and a run that leaves it no move leaves nothing pending. So however the steps are
   * ordered the backlog drains.
   */
  lemma BacklogDrains(cfg: Config, s: Sys, steps: seq<Step>)
    requires cfg.maxAttempts > 0 && cfg.limit > 0 && Inv(cfg, s) && Runs(cfg, s, steps)
    requires forall i :: 0 <= i < |steps| ==> Quiet(steps[i])
    ensures var s' := Final(cfg, s, steps);
            && s'.rows.Keys == s.rows.Keys
            && Debt(s'.rows, s'.rows.Keys, cfg.maxAttempts) + s'.polled
            <= Debt(s.rows, s.rows.Keys, cfg.maxAttempts) + s.polled
            && Moves(steps) <= 3 * Debt(s.rows, s.rows.Keys, cfg.maxAttempts) + |s.late|
            && (AtRest(cfg, s') ==> PendingIds(s'.rows) == {})
            && (s'.polled >= s.polled + Debt(s.rows, s.rows.Keys, cfg.maxAttempts) ==> PendingIds(s'.rows) == {})
  {
    hide Debt, Runs, Final, PendingIds, Inv, AtRest, Moves;
    QuietRun(cfg, s, steps);
    WorkRun(cfg, s, steps);
    RunKeeps(cfg, s, steps);
    var s' := Final(cfg, s, steps);
    WorkNonNegative(cfg, s');
    NothingOwed(cfg, s');
    if AtRest(cfg, s') { RestMeansDrained(cfg, s'); }
  }
}
