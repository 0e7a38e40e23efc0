/**
 * The relay's bounded worker pool over two unbuffered channels. A send and its receive are one
 * step; the feeder closes jobs after the last row, the closer closes results once every worker
 * has returned, and the collector runs until results is closed.
 */
module PublishPool {
  import opened OutboxTable

  datatype Worker = Idle | Publishing(id: Id) | Reporting(id: Id, ok: bool) | Returned

  /** A publish call and how it ended. */
  datatype Attempt = Attempt(id: Id, ok: bool)

  datatype Pool = Pool(
    rows: seq<Id>,
    fed: nat,              // rows the feeder has handed over
    jobsClosed: bool,
    workers: seq<Worker>,
    resultsClosed: bool,
    calls: seq<Attempt>,   // publish calls made, in order
    report: Report)

  /** min(cfg.Workers, len(rows)) goroutines. */
  function Start(rows: seq<Id>, workers: nat): Pool {
    var n := if workers > |rows| then |rows| else workers;
    Pool(rows, 0, false, seq(n, _ => Idle), false, [], Report([], []))
  }

  datatype Step = Feed(w: nat) | CloseJobs | Publish(w: nat, ok: bool) | Collect(w: nat) | Return(w: nat) | CloseResults

  predicate Enabled(p: Pool, step: Step) {
    match step
    case Feed(w) => w < |p.workers| && p.workers[w].Idle? && p.fed < |p.rows|
    case CloseJobs => p.fed >= |p.rows| && !p.jobsClosed
    case Publish(w, _) => w < |p.workers| && p.workers[w].Publishing?
    case Collect(w) => w < |p.workers| && p.workers[w].Reporting? && !p.resultsClosed
    case Return(w) => w < |p.workers| && p.workers[w].Idle? && p.jobsClosed
    case CloseResults => !p.resultsClosed && forall w :: 0 <= w < |p.workers| ==> p.workers[w].Returned?
  }

  function Apply(p: Pool, step: Step): Pool
    requires Enabled(p, step)
  {
    match step
    case Feed(w) => p.(workers := p.workers[w := Publishing(p.rows[p.fed])], fed := p.fed + 1)
    case CloseJobs => p.(jobsClosed := true)
    case Publish(w, ok) =>
      p.(workers := p.workers[w := Reporting(p.workers[w].id, ok)], calls := p.calls + [Attempt(p.workers[w].id, ok)])
    case Collect(w) =>
      var id := p.workers[w].id;
      p.(workers := p.workers[w := Idle],
         report := if p.workers[w].ok then p.report.(published := p.report.published + [id])
                   else p.report.(failed := p.report.failed + [id]))
    case Return(w) => p.(workers := p.workers[w := Returned])
    case CloseResults => p.(resultsClosed := true)
  }

  predicate Runs(p: Pool, steps: seq<Step>)
    decreases |steps|
  {
    steps != [] ==> Enabled(p, steps[0]) && Runs(Apply(p, steps[0]), steps[1..])
  }

  function Final(p: Pool, steps: seq<Step>): Pool
    requires Runs(p, steps)
    decreases |steps|
  {
    if steps == [] then p else Final(Apply(p, steps[0]), steps[1..])
  }

  // --- Conservation: where each row is --------------------------------------------------------

  /** Workers holding the row before, and after, its publish call. */
  function Held(ws: seq<Worker>, id: Id): nat {
    if ws == [] then 0 else Held(ws[..|ws| - 1], id) + (if ws[|ws| - 1] == Publishing(id) then 1 else 0)
  }

  function Unreported(ws: seq<Worker>, id: Id, ok: bool): nat {
    if ws == [] then 0 else Unreported(ws[..|ws| - 1], id, ok) + (if ws[|ws| - 1] == Reporting(id, ok) then 1 else 0)
  }

  lemma {:induction false} MoveWorker(ws: seq<Worker>, w: nat, next: Worker, id: Id, ok: bool)
    requires w < |ws|
    ensures Held(ws[w := next], id)
         == Held(ws, id) - (if ws[w] == Publishing(id) then 1 else 0) + (if next == Publishing(id) then 1 else 0)
    ensures Unreported(ws[w := next], id, ok)
         == Unreported(ws, id, ok) - (if ws[w] == Reporting(id, ok) then 1 else 0)
            + (if next == Reporting(id, ok) then 1 else 0)
  {
    var n := |ws| - 1;
    if w == n {
      assert ws[w := next][..n] == ws[..n];
    } else {
      MoveWorker(ws[..n], w, next, id, ok);
      assert ws[w := next][..n] == ws[..n][w := next];
    }
  }

  function Times(s: seq<Id>, id: Id): nat {
    multiset(s)[id]
  }

  /** The rows of the calls that ended one way, in order. */
  function Ids(calls: seq<Attempt>, ok: bool): seq<Id> {
    if calls == [] then [] else
    Ids(calls[..|calls| - 1], ok) + (if calls[|calls| - 1].ok == ok then [calls[|calls| - 1].id] else [])
  }

  /** The side of the report a result goes to. */
  function Side(report: Report, ok: bool): seq<Id> {
    if ok then report.published else report.failed
  }

  /**
   * Every row handed over is with a worker or was tried, and every call that ended one way is with a
   * worker or was collected on that side.
   */
  predicate Conserved(p: Pool, id: Id)
    requires p.fed <= |p.rows|
  {
    && Times(p.rows[..p.fed], id)
       == Held(p.workers, id) + Times(Ids(p.calls, true), id) + Times(Ids(p.calls, false), id)
    && SideConserved(p, id, true)
    && SideConserved(p, id, false)
  }

  predicate SideConserved(p: Pool, id: Id, ok: bool) {
    Times(Ids(p.calls, ok), id) == Unreported(p.workers, id, ok) + Times(Side(p.report, ok), id)
  }

  predicate Orderly(p: Pool) {
    && p.fed <= |p.rows|
    && (p.jobsClosed ==> p.fed == |p.rows|)
    && (forall w :: 0 <= w < |p.workers| && p.workers[w].Returned? ==> p.jobsClosed)
    && (p.resultsClosed ==> forall w :: 0 <= w < |p.workers| ==> p.workers[w].Returned?)
  }

  ghost predicate Inv(p: Pool) {
    Orderly(p) && forall id :: Conserved(p, id)
  }

  lemma {:induction false} NothingHeld(ws: seq<Worker>, id: Id)
    requires forall w :: 0 <= w < |ws| ==> ws[w].Idle? || ws[w].Returned?
    ensures Held(ws, id) == Unreported(ws, id, true) == Unreported(ws, id, false) == 0
  {
    if ws != [] {
      NothingHeld(ws[..|ws| - 1], id);
    }
  }

  lemma TimesAppend(s: seq<Id>, x: Id, id: Id)
    ensures Times(s + [x], id) == Times(s, id) + (if x == id then 1 else 0)
  {
  }

  lemma IdsAppend(calls: seq<Attempt>, a: Attempt, ok: bool, id: Id)
    ensures Times(Ids(calls + [a], ok), id) == Times(Ids(calls, ok), id) + (if a == Attempt(id, ok) then 1 else 0)
  {
    assert (calls + [a])[..|calls|] == calls;
  }

  /** How the counts of one side move in a step. */
  lemma SideMoves(p: Pool, step: Step, id: Id, ok: bool)
    requires Enabled(p, step)
    ensures var p' := Apply(p, step);
            && Times(Ids(p'.calls, ok), id)
            == Times(Ids(p.calls, ok), id)
               + (if step.Publish? && Attempt(p.workers[step.w].id, step.ok) == Attempt(id, ok) then 1 else 0)
            && Times(Side(p'.report, ok), id)
            == Times(Side(p.report, ok), id)
               + (if step.Collect? && p.workers[step.w] == Reporting(id, ok) then 1 else 0)
  {
    hide Times, Ids;
    if step.Publish? { IdsAppend(p.calls, Attempt(p.workers[step.w].id, step.ok), ok, id); }
    if step.Collect? { TimesAppend(Side(p.report, ok), p.workers[step.w].id, id); }
  }

  lemma FedMoves(p: Pool, step: Step, id: Id)
    requires Orderly(p) && Enabled(p, step)
    ensures var p' := Apply(p, step);
            && p'.fed <= |p'.rows|
            && Times(p'.rows[..p'.fed], id)
               == Times(p.rows[..p.fed], id) + (if step.Feed? && p.rows[p.fed] == id then 1 else 0)
  {
    hide Times;
    if step.Feed? {
      assert p.rows[..p.fed + 1] == p.rows[..p.fed] + [p.rows[p.fed]];
      TimesAppend(p.rows[..p.fed], p.rows[p.fed], id);
    }
  }

  /** A step moves at most one worker, and an Attempt or a report along with it. */
  lemma SideStep(p: Pool, step: Step, id: Id, ok: bool)
    requires Enabled(p, step) && SideConserved(p, id, ok)
    ensures SideConserved(Apply(p, step), id, ok)
  {
    hide Held, Unreported, Times, Ids, Side;
    SideMoves(p, step, id, ok);
    var p' := Apply(p, step);
    match step
    case Feed(w) => MoveWorker(p.workers, w, p'.workers[w], id, ok);
    case Publish(w, _) => MoveWorker(p.workers, w, p'.workers[w], id, ok);
    case Collect(w) => MoveWorker(p.workers, w, p'.workers[w], id, ok);
    case Return(w) => MoveWorker(p.workers, w, p'.workers[w], id, ok);
    case _ =>
  }

  lemma StepConserves(p: Pool, step: Step, id: Id)
    requires Orderly(p) && Enabled(p, step) && Conserved(p, id)
    ensures Orderly(Apply(p, step)) && Conserved(Apply(p, step), id)
  {
    hide Held, Unreported, Times, Ids, Side, SideConserved;
    SideStep(p, step, id, true);
    SideStep(p, step, id, false);
    SideMoves(p, step, id, true);
    SideMoves(p, step, id, false);
    FedMoves(p, step, id);
    var p' := Apply(p, step);
    match step
    case Feed(w) => MoveWorker(p.workers, w, p'.workers[w], id, true);
    case Publish(w, _) => MoveWorker(p.workers, w, p'.workers[w], id, true);
    case Collect(w) => MoveWorker(p.workers, w, p'.workers[w], id, true);
    case Return(w) => MoveWorker(p.workers, w, p'.workers[w], id, true);
    case _ =>
  }

  // --- Progress -------------------------------------------------------------------------------

  function Todo(w: Worker): nat {
    match w case Publishing(_) => 3 case Reporting(_, _) => 2 case Idle => 1 case Returned => 0
  }

  function WorkLeft(ws: seq<Worker>): nat {
    if ws == [] then 0 else WorkLeft(ws[..|ws| - 1]) + Todo(ws[|ws| - 1])
  }

  /** Bounds the steps any schedule can still take. */
  function Measure(p: Pool): nat {
    3 * (if p.fed <= |p.rows| then |p.rows| - p.fed else 0) + WorkLeft(p.workers)
    + (if p.jobsClosed then 0 else 1) + (if p.resultsClosed then 0 else 1)
  }

  lemma {:induction false} WorkMoves(ws: seq<Worker>, w: nat, next: Worker)
    requires w < |ws|
    ensures WorkLeft(ws[w := next]) + Todo(ws[w]) == WorkLeft(ws) + Todo(next)
  {
    var n := |ws| - 1;
    if w == n {
      assert ws[w := next][..n] == ws[..n];
    } else {
      WorkMoves(ws[..n], w, next);
      assert ws[w := next][..n] == ws[..n][w := next];
    }
  }

  lemma StepProgress(p: Pool, step: Step)
    requires Enabled(p, step)
    ensures Measure(Apply(p, step)) < Measure(p)
  {
    var p' := Apply(p, step);
    match step
    case Feed(w) => WorkMoves(p.workers, w, p'.workers[w]);
    case Publish(w, _) => WorkMoves(p.workers, w, p'.workers[w]);
    case Collect(w) => WorkMoves(p.workers, w, p'.workers[w]);
    case Return(w) => WorkMoves(p.workers, w, p'.workers[w]);
    case _ =>
  }

  /** Something can always move until the collector's loop ends. */
  lemma NoDeadlock(p: Pool)
    requires Orderly(p) && !p.resultsClosed
    ensures exists step :: Enabled(p, step)
  {
    if w :| 0 <= w < |p.workers| && p.workers[w].Publishing? {
      assert Enabled(p, Publish(w, true));
    } else if w :| 0 <= w < |p.workers| && p.workers[w].Reporting? {
      assert Enabled(p, Collect(w));
    } else if p.jobsClosed {
      if w :| 0 <= w < |p.workers| && p.workers[w].Idle? {
        assert Enabled(p, Return(w));
      } else {
        assert Enabled(p, CloseResults);
      }
    } else if p.fed == |p.rows| {
      assert Enabled(p, CloseJobs);
    } else if |p.workers| > 0 {
      assert p.workers[0].Idle?;
      assert Enabled(p, Feed(0));
    } else {
      assert Enabled(p, CloseResults);
    }
  }

  lemma {:induction false} RunKeeps(p: Pool, steps: seq<Step>)
    requires Inv(p) && Runs(p, steps)
    ensures var q := Final(p, steps);
            && Inv(q) && q.rows == p.rows && |q.workers| == |p.workers|
            && Measure(q) + |steps| <= Measure(p)
    decreases |steps|
  {
    if steps != [] {
      forall id ensures Orderly(Apply(p, steps[0])) && Conserved(Apply(p, steps[0]), id) {
        StepConserves(p, steps[0], id);
      }
      StepProgress(p, steps[0]);
      RunKeeps(Apply(p, steps[0]), steps[1..]);
    }
  }

  lemma {:induction false} StartInv(rows: seq<Id>, workers: nat)
    ensures Inv(Start(rows, workers)) && Measure(Start(rows, workers)) <= 4 * |rows| + 2
  {
    var p := Start(rows, workers);
    forall id ensures Conserved(p, id) { NothingHeld(p.workers, id); }
    IdleWork(p.workers);
    assert rows[..0] == [];
  }

  lemma {:induction false} IdleWork(ws: seq<Worker>)
    requires forall w :: 0 <= w < |ws| ==> ws[w].Idle?
    ensures WorkLeft(ws) == |ws|
  {
    if ws != [] { IdleWork(ws[..|ws| - 1]); }
  }

  /** The report tells which calls succeeded, and the calls are the rows. */
  predicate Truthful(p: Pool) {
    && multiset(p.report.published) == multiset(Ids(p.calls, true))
    && multiset(p.report.failed) == multiset(Ids(p.calls, false))
    && multiset(Ids(p.calls, true)) + multiset(Ids(p.calls, false)) == multiset(p.rows)
  }

  lemma AllReported(p: Pool)
    requires Inv(p) && p.resultsClosed && p.fed == |p.rows|
    ensures Truthful(p) && Splits(p.report, p.rows)
  {
    assert p.rows[..p.fed] == p.rows;
    forall id
      ensures Times(p.report.published, id) == Times(Ids(p.calls, true), id)
      ensures Times(p.report.failed, id) == Times(Ids(p.calls, false), id)
      ensures Times(p.rows, id) == Times(Ids(p.calls, true), id) + Times(Ids(p.calls, false), id)
    {
      NothingHeld(p.workers, id);
      assert Conserved(p, id);
      hide Held, Unreported, Ids;
    }
    hide Held, Unreported, Ids, Inv;
    SameTimes(p.report.published, Ids(p.calls, true));
    SameTimes(p.report.failed, Ids(p.calls, false));
    forall id ensures Times(p.rows, id) == Times(Ids(p.calls, true) + Ids(p.calls, false), id) {}
    SameTimes(p.rows, Ids(p.calls, true) + Ids(p.calls, false));
  }

  lemma SameTimes(a: seq<Id>, b: seq<Id>)
    requires forall id :: Times(a, id) == Times(b, id)
    ensures multiset(a) == multiset(b)
  {
    forall id ensures multiset(a)[id] == multiset(b)[id] { assert Times(a, id) == Times(b, id); }
  }

  /**
   * Under every schedule the pool takes at most 4n+2 steps, can always move until it ends, and,
   * given at least one worker, ends with every row tried by exactly one call, those whose call
   * succeeded reported published, the others failed, and no goroutine left behind.
   */
  lemma PublishAllCorrect(rows: seq<Id>, workers: nat, steps: seq<Step>)
    requires Runs(Start(rows, workers), steps)
    ensures var p := Final(Start(rows, workers), steps);
            && |steps| <= 4 * |rows| + 2
            && (!p.resultsClosed ==> exists step :: Enabled(p, step))
            && (p.resultsClosed && (workers > 0 || rows == []) ==>
                  && Truthful(p) && Splits(p.report, rows)
                  && (forall w :: 0 <= w < |p.workers| ==> p.workers[w].Returned?)
                  && (rows != [] ==> p.jobsClosed))
  {
    StartInv(rows, workers);
    RunKeeps(Start(rows, workers), steps);
    var p := Final(Start(rows, workers), steps);
    if p.resultsClosed {
      if rows != [] && workers > 0 { assert p.workers[0].Returned?; }
      if workers > 0 || rows == [] { AllReported(p); }
    } else {
      NoDeadlock(p);
    }
  }

  lemma RunRows(rows: seq<Id>, workers: nat, steps: seq<Step>)
    requires Runs(Start(rows, workers), steps)
    ensures Final(Start(rows, workers), steps).rows == rows
  {
    StartInv(rows, workers);
    RunKeeps(Start(rows, workers), steps);
  }

  /**
   * The default of at least one worker is needed: with none, the collector can end at once having
   * reported nothing, so the rows are neither published nor failed.
   */
  lemma EveryRowReportedIff(rows: seq<Id>, workers: nat)
    ensures (forall steps :: Runs(Start(rows, workers), steps) && Final(Start(rows, workers), steps).resultsClosed ==>
               Splits(Final(Start(rows, workers), steps).report, rows))
            <==> (workers > 0 || rows == [])
  {
    if workers > 0 || rows == [] {
      forall steps | Runs(Start(rows, workers), steps) && Final(Start(rows, workers), steps).resultsClosed
        ensures Splits(Final(Start(rows, workers), steps).report, rows) {
        PublishAllCorrect(rows, workers, steps);
      }
    } else {
      NobodyReports(rows);
    }
  }

  lemma NobodyReports(rows: seq<Id>)
    requires rows != []
    ensures var steps := [CloseResults];
            && Runs(Start(rows, 0), steps)
            && Final(Start(rows, 0), steps).resultsClosed && !Splits(Final(Start(rows, 0), steps).report, rows)
  {
    var p, steps := Start(rows, 0), [CloseResults];
    assert steps[1..] == [];
    assert Runs(Apply(p, steps[0]), []);
    assert Final(p, steps) == Final(Apply(p, steps[0]), steps[1..]) == Apply(p, CloseResults);
    assert rows[0] in multiset(rows);
  }

  // --- Bounded: never more calls at once than workers ------------------------------------------

  function Busy(ws: seq<Worker>): nat {
    if ws == [] then 0 else
    Busy(ws[..|ws| - 1]) + (if ws[|ws| - 1].Publishing? || ws[|ws| - 1].Reporting? then 1 else 0)
  }

  lemma {:induction false} BusyMoves(ws: seq<Worker>, w: nat, next: Worker)
    requires w < |ws|
    ensures Busy(ws) <= |ws|
    ensures Busy(ws[w := next])
         == Busy(ws) - (if ws[w].Publishing? || ws[w].Reporting? then 1 else 0)
            + (if next.Publishing? || next.Reporting? then 1 else 0)
  {
    var n := |ws| - 1;
    BusyAtMost(ws);
    if w == n {
      assert ws[w := next][..n] == ws[..n];
    } else {
      BusyMoves(ws[..n], w, next);
      assert ws[w := next][..n] == ws[..n][w := next];
    }
  }

  lemma {:induction false} BusyAtMost(ws: seq<Worker>)
    ensures Busy(ws) <= |ws|
    ensures (forall w :: 0 <= w < |ws| ==> ws[w].Idle?) ==> Busy(ws) == 0
  {
    if ws != [] { BusyAtMost(ws[..|ws| - 1]); }
  }

  /** Rows handed to a worker whose result is not collected yet. */
  function InFlight(p: Pool): int {
    p.fed - |p.report.published| - |p.report.failed|
  }

  lemma {:induction false} FlightIsBusy(p: Pool, steps: seq<Step>)
    requires Runs(p, steps) && InFlight(p) == Busy(p.workers)
    ensures var q := Final(p, steps); InFlight(q) == Busy(q.workers) && |q.workers| == |p.workers|
    decreases |steps|
  {
    if steps != [] {
      hide Busy;
      var step, q := steps[0], Apply(p, steps[0]);
      if step.Feed? || step.Publish? || step.Collect? || step.Return? {
        BusyMoves(p.workers, step.w, q.workers[step.w]);
      }
      FlightIsBusy(q, steps[1..]);
    }
  }

  /** Under every schedule at most `workers` rows are in a publish call or wait to be collected at any moment. */
  lemma FlightBounded(rows: seq<Id>, workers: nat, steps: seq<Step>)
    requires Runs(Start(rows, workers), steps)
    ensures 0 <= InFlight(Final(Start(rows, workers), steps)) <= workers
  {
    var p := Start(rows, workers);
    BusyAtMost(p.workers);
    FlightIsBusy(p, steps);
    BusyAtMost(Final(p, steps).workers);
  }

  function Feeds(n: nat): seq<Step> {
    seq(n, i requires 0 <= i < n => Feed(i))
  }

  lemma {:induction false} FeedsRun(p: Pool, from: nat, n: nat)
    requires n <= |p.workers| && n <= |p.rows| && from <= n && p.fed == from
    requires forall w :: from <= w < |p.workers| ==> p.workers[w].Idle?
    ensures Runs(p, Feeds(n)[from..]) && Final(p, Feeds(n)[from..]).fed == n
    ensures Final(p, Feeds(n)[from..]).report == p.report
    decreases n - from
  {
    if from < n {
      var steps := Feeds(n)[from..];
      assert steps[0] == Feed(from) && steps[1..] == Feeds(n)[from + 1..];
      FeedsRun(Apply(p, steps[0]), from + 1, n);
    }
  }

  /** The bound is met: as many rows as there are workers, or rows, can be in flight at once. */
  lemma FlightReached(rows: seq<Id>, workers: nat)
    ensures var n := if workers < |rows| then workers else |rows|;
            && Runs(Start(rows, workers), Feeds(n))
            && InFlight(Final(Start(rows, workers), Feeds(n))) == n
  {
    var n := if workers < |rows| then workers else |rows|;
    FeedsRun(Start(rows, workers), 0, n);
    assert Feeds(n)[0..] == Feeds(n);
  }
}
