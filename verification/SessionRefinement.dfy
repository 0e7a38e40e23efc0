/** What the cached store does, one call after another, is a run among concurrent calls. */
module SessionRefinement {
  import opened Collections
  import C = SessionCache
  import R = SessionRaces

  /** The cache and the store after a history, starting with an empty cache. */
  function After(live: set<nat>, ops: seq<C.Op>, ttl: nat): C.Cache {
    if ops == [] then C.Cache(map[], live)
    else C.Step(After(live, ops[..|ops| - 1], ttl), ops[|ops| - 1], ttl)
  }

  /** What the call tells its caller about a session, if anything. */
  function Said(c: C.Cache, op: C.Op): Option<bool> {
    if op.Exists? then C.Answer(c, op.jti, op.at, op.innerOk) else None
  }

  /** The verdicts a history gives, in order, with the session and the time. */
  function Verdicts(live: set<nat>, ops: seq<C.Op>, ttl: nat): seq<(nat, bool, int)> {
    if ops == [] then [] else
    var front, op := ops[..|ops| - 1], ops[|ops| - 1];
    var said := Said(After(live, front, ttl), op);
    Verdicts(live, front, ttl) + (if said.Some? && op.Exists? then [(op.jti, said.value, op.at)] else [])
  }

  // --- Runs ----------------------------------------------------------------------------------------

  lemma {:induction false} RunsConcat(cfg: R.Config, w: R.World, a: seq<R.Step>, b: seq<R.Step>)
    requires R.Runs(cfg, w, a) && R.Runs(cfg, R.Final(cfg, w, a), b)
    ensures R.Runs(cfg, w, a + b) && R.Final(cfg, w, a + b) == R.Final(cfg, R.Final(cfg, w, a), b)
    decreases |a|
  {
    hide R.Enabled, R.Apply;
    if a == [] {
      assert a + b == b;
    } else {
      assert (a + b)[1..] == a[1..] + b;
      RunsConcat(cfg, R.Apply(cfg, w, a[0]), a[1..], b);
    }
  }

  lemma RunsOne(cfg: R.Config, w: R.World, step: R.Step)
    requires R.Enabled(cfg, w, step)
    ensures R.Runs(cfg, w, [step]) && R.Final(cfg, w, [step]) == R.Apply(cfg, w, step)
  {
    hide R.Enabled, R.Apply;
    assert [step][1..] == [];
    assert R.Runs(cfg, R.Apply(cfg, w, step), []);
  }

  // --- One call ------------------------------------------------------------------------------------

  /** The world seen as the class sees it: no call is under way. */
  ghost predicate Shows(w: R.World, c: C.Cache) {
    && R.Sane(w) && w.calls == map[] && R.Redis(w) == c.inner && w.entries.Keys == c.entries.Keys
    && forall jti :: jti in c.entries ==> w.entries[jti].cached == c.entries[jti]
  }

  /** A miss asks Redis and then fills, a save writes Redis and then fills, a delete evicts first. */
  function Moves(c: C.Cache, op: C.Op): seq<R.Step> {
    match op
    case Exists(jti, at, innerOk) =>
      if jti in c.entries && at <= c.entries[jti].expiresAt then [R.Hit(jti)]
      else if innerOk then [R.AskRedis(0, jti), R.Fill(0)] else []
    case Save(jti, _, reply) =>
      if reply.Replied? then [R.SaveRedis(0, jti), R.Fill(0)]
      else if reply.LostReply? then [R.Outside(c.inner + {jti})] else []
    case Delete(jti, _, reply) => [R.EvictFirst(0, jti), R.DeleteRedis(0, reply != C.Refused)]
    case Outside(live, _) => [R.Outside(live)]
    case Sweep(_) => [R.Sweep]
  }

  /** The answers gained, if any, are the verdict the caller got. */
  predicate Answered(before: seq<R.Answer>, after: seq<R.Answer>, said: Option<bool>, op: C.Op) {
    if said.Some? && op.Exists? then
      && |after| == |before| + 1 && after[..|before|] == before
      && var a := after[|before|]; a.jti == op.jti && a.valid == said.value && a.time == op.at
    else after == before
  }

  /** A call adds at most one moment, at its own time, and that shows the store as the call left it. */
  predicate Noted(before: seq<R.Moment>, after: seq<R.Moment>, at: int, inner: set<nat>) {
    after == before || after == before + [R.Moment(at, inner)]
  }

  /** The call, run as its moves, answers and leaves what the class does. */
  ghost predicate Performed(cfg: R.Config, w: R.World, c: C.Cache, op: C.Op)
    requires R.Sane(w)
  {
    && R.Runs(cfg, w, Moves(c, op))
    && var v := R.Final(cfg, w, Moves(c, op));
    && Shows(v, C.Step(c, op, cfg.ttl)) && R.Now(v) == op.at
    && Answered(w.answers, v.answers, Said(c, op), op)
    && Noted(w.moments, v.moments, op.at, C.Step(c, op, cfg.ttl).inner)
  }

  lemma OneMove(cfg: R.Config, w: R.World, c: C.Cache, op: C.Op)
    requires Shows(w, c) && R.Now(w) == op.at && |Moves(c, op)| <= 1
    ensures Performed(cfg, w, c, op)
  {
    var moves := Moves(c, op);
    if |moves| == 1 {
      RunsOne(cfg, w, moves[0]);
      assert moves == [moves[0]];
    }
  }

  lemma LookupMoves(cfg: R.Config, w: R.World, c: C.Cache, op: C.Op)
    requires Shows(w, c) && R.Now(w) == op.at && op.Exists? && |Moves(c, op)| == 2
    ensures Performed(cfg, w, c, op)
  {
    R.TwoSteps(cfg, w, R.AskRedis(0, op.jti), R.Fill(0));
  }

  lemma WriteMoves(cfg: R.Config, w: R.World, c: C.Cache, op: C.Op)
    requires Shows(w, c) && R.Now(w) == op.at && (op.Save? || op.Delete?) && |Moves(c, op)| == 2
    ensures Performed(cfg, w, c, op)
  {
    R.TwoSteps(cfg, w, Moves(c, op)[0], Moves(c, op)[1]);
    assert Moves(c, op) == [Moves(c, op)[0], Moves(c, op)[1]];
  }

  lemma CallIsRun(cfg: R.Config, w: R.World, c: C.Cache, op: C.Op)
    requires Shows(w, c) && R.Now(w) == op.at
    ensures R.Runs(cfg, w, Moves(c, op))
    ensures var v := R.Final(cfg, w, Moves(c, op));
            && Shows(v, C.Step(c, op, cfg.ttl)) && R.Now(v) == op.at
            && Answered(w.answers, v.answers, Said(c, op), op)
            && Noted(w.moments, v.moments, op.at, C.Step(c, op, cfg.ttl).inner)
  {
    hide R.Runs, R.Final, C.Step, Answered, Noted, Said;
    if |Moves(c, op)| <= 1 {
      OneMove(cfg, w, c, op);
    } else if op.Exists? {
      LookupMoves(cfg, w, c, op);
    } else {
      WriteMoves(cfg, w, c, op);
    }
  }

  // --- Whole histories -----------------------------------------------------------------------------

  /** The moment shows the store between calls j - 1 and j of the history, at a time between the two. */
  predicate Between(m: R.Moment, from: int, live: set<nat>, ops: seq<C.Op>, ttl: nat, j: nat) {
    && j <= |ops| && m.live == After(live, ops[..j], ttl).inner
    && m.time >= (if j == 0 then from else ops[j - 1].at)
    && (j < |ops| ==> m.time <= ops[j].at)
  }

  ghost predicate Known(m: R.Moment, from: int, live: set<nat>, ops: seq<C.Op>, ttl: nat) {
    exists j: nat :: Between(m, from, live, ops, ttl, j)
  }

  function Clock(from: int, ops: seq<C.Op>): int {
    if ops == [] then from else ops[|ops| - 1].at
  }

  /** The run has answered what the history did, and its moments are the states of the store in the history. */
  ghost predicate Retells(w: R.World, from: int, live: set<nat>, ops: seq<C.Op>, ttl: nat) {
    && Shows(w, After(live, ops, ttl)) && R.Now(w) == Clock(from, ops)
    && |w.answers| == |Verdicts(live, ops, ttl)|
    && (forall i :: 0 <= i < |w.answers| ==>
          Verdicts(live, ops, ttl)[i] == (w.answers[i].jti, w.answers[i].valid, w.answers[i].time))
    && (forall k :: 0 <= k < |w.moments| ==> Known(w.moments[k], from, live, ops, ttl) && w.moments[k].time <= R.Now(w))
  }

  lemma KnownLater(m: R.Moment, from: int, live: set<nat>, front: seq<C.Op>, op: C.Op, ttl: nat)
    requires Known(m, from, live, front, ttl) && m.time <= op.at
    ensures Known(m, from, live, front + [op], ttl)
  {
    var j: nat :| Between(m, from, live, front, ttl, j);
    assert (front + [op])[..j] == front[..j];
    assert Between(m, from, live, front + [op], ttl, j);
  }

  /** The store just before a call, as the clock reaches it, and just after. */
  lemma KnownNow(m: R.Moment, from: int, live: set<nat>, front: seq<C.Op>, op: C.Op, ttl: nat)
    requires m.time == op.at && Clock(from, front) <= op.at
    requires m.live == After(live, front, ttl).inner || m.live == After(live, front + [op], ttl).inner
    ensures Known(m, from, live, front + [op], ttl)
  {
    hide After;
    var n, ops := |front|, front + [op];
    assert ops[..n] == front && ops[..n + 1] == ops && ops[n] == op;
    if m.live == After(live, front, ttl).inner {
      assert Between(m, from, live, ops, ttl, n);
    } else {
      assert Between(m, from, live, ops, ttl, n + 1);
    }
  }

  lemma MomentsKnown(w: R.World, u: R.World, v: R.World, from: int, live: set<nat>, front: seq<C.Op>, op: C.Op,
                     ttl: nat)
    requires Retells(w, from, live, front, ttl) && Clock(from, front) <= op.at
    requires u.moments == w.moments + [R.Moment(op.at, After(live, front, ttl).inner)]
    requires Noted(u.moments, v.moments, op.at, After(live, front + [op], ttl).inner)
    ensures forall k :: 0 <= k < |v.moments| ==>
              Known(v.moments[k], from, live, front + [op], ttl) && v.moments[k].time <= op.at
  {
    hide After, Known, Verdicts, Shows;
    forall k | 0 <= k < |v.moments|
      ensures Known(v.moments[k], from, live, front + [op], ttl) && v.moments[k].time <= op.at {
      if k < |w.moments| {
        assert v.moments[k] == w.moments[k];
        KnownLater(w.moments[k], from, live, front, op, ttl);
      } else {
        KnownNow(v.moments[k], from, live, front, op, ttl);
      }
    }
  }

  lemma VerdictsMore(live: set<nat>, front: seq<C.Op>, op: C.Op, ttl: nat)
    ensures After(live, front + [op], ttl) == C.Step(After(live, front, ttl), op, ttl)
    ensures var said := Said(After(live, front, ttl), op);
            Verdicts(live, front + [op], ttl)
            == Verdicts(live, front, ttl) + (if said.Some? && op.Exists? then [(op.jti, said.value, op.at)] else [])
  {
    assert (front + [op])[..|front|] == front;
  }

  lemma Ticked(cfg: R.Config, w: R.World, c: C.Cache, at: int)
    requires Shows(w, c) && R.Now(w) <= at
    ensures var tick := R.Tick(at - R.Now(w));
            && R.Enabled(cfg, w, tick)
            && var u := R.Apply(cfg, w, tick);
            && Shows(u, c) && R.Now(u) == at && u.answers == w.answers
            && u.moments == w.moments + [R.Moment(at, c.inner)]
  {
  }

  lemma OneMore(cfg: R.Config, w: R.World, from: int, live: set<nat>, front: seq<C.Op>, op: C.Op)
    returns (steps: seq<R.Step>)
    requires Retells(w, from, live, front, cfg.ttl) && Clock(from, front) <= op.at
    ensures R.Runs(cfg, w, steps) && Retells(R.Final(cfg, w, steps), from, live, front + [op], cfg.ttl)
  {
    hide R.Enabled, R.Apply, R.Runs, R.Final, After, Verdicts, Moves, C.Step, Shows, Known, Said;
    var c, tick := After(live, front, cfg.ttl), R.Tick(op.at - R.Now(w));
    Ticked(cfg, w, c, op.at);
    var u := R.Apply(cfg, w, tick);
    RunsOne(cfg, w, tick);
    CallIsRun(cfg, u, c, op);
    RunsConcat(cfg, w, [tick], Moves(c, op));
    steps := [tick] + Moves(c, op);
    VerdictsMore(live, front, op, cfg.ttl);
    MomentsKnown(w, u, R.Final(cfg, w, steps), from, live, front, op, cfg.ttl);
  }

  lemma Fresh(from: int, live: set<nat>, ttl: nat)
    ensures Retells(R.Start(from, live), from, live, [], ttl)
  {
    assert Between(R.Moment(from, live), from, live, [], ttl, 0);
  }

  /** Every history of the cached store is a run of the protocol, with the same verdicts at the same times. */
  lemma {:induction false} HistoryIsRun(cfg: R.Config, from: int, live: set<nat>, ops: seq<C.Op>)
    returns (steps: seq<R.Step>)
    requires C.InTime(ops, from)
    ensures R.Runs(cfg, R.Start(from, live), steps)
    ensures Retells(R.Final(cfg, R.Start(from, live), steps), from, live, ops, cfg.ttl)
  {
    hide R.Enabled, R.Apply, After, Verdicts, Retells;
    if ops == [] {
      steps := [];
      Fresh(from, live, cfg.ttl);
    } else {
      var front, op := ops[..|ops| - 1], ops[|ops| - 1];
      assert ops == front + [op];
      steps := HistoryIsRun(cfg, from, live, front);
      var w := R.Final(cfg, R.Start(from, live), steps);
      var more := OneMore(cfg, w, from, live, front, op);
      RunsConcat(cfg, R.Start(from, live), steps, more);
      steps := steps + more;
    }
  }

  /**
   * Every verdict of every history was the truth in Redis at some time t no more than the ttl before it was
   * given, t lying between two consecutive calls.
   */
  lemma VerdictsAreRecent(from: int, live: set<nat>, ops: seq<C.Op>, ttl: nat, i: nat) returns (j: nat, t: int)
    requires C.InTime(ops, from) && i < |Verdicts(live, ops, ttl)|
    ensures j <= |ops| && (if j == 0 then from else ops[j - 1].at) <= t && (j < |ops| ==> t <= ops[j].at)
    ensures var (jti, valid, at) := Verdicts(live, ops, ttl)[i];
            at - ttl <= t <= at && (jti in After(live, ops[..j], ttl).inner <==> valid)
  {
    hide R.Runs, R.Final, After, Verdicts, Shows;
    var cfg := R.Config(ttl, 0);
    var steps := HistoryIsRun(cfg, from, live, ops);
    R.StalenessBounded(cfg, from, live, steps, i);
    var w := R.Final(cfg, R.Start(from, live), steps);
    var a := w.answers[i];
    var k :| 0 <= k < |w.moments| && (a.jti in w.moments[k].live <==> a.valid)
          && a.time - cfg.ttl - cfg.delay <= w.moments[k].time <= a.time;
    assert Known(w.moments[k], from, live, ops, ttl);
    j :| Between(w.moments[k], from, live, ops, ttl, j);
    t := w.moments[k].time;
  }
}
