/**
 * The cache among concurrent calls: a lookup asks Redis and fills the cache in two steps, a save
 * writes Redis and then the cache, a delete evicts and then deletes, and Redis also changes by
 * other replicas and by expiry. Every state of Redis is kept with its time.
 */
module SessionRaces {
  import opened Collections
  import opened SessionCache

  /** Redis at an instant. */
  datatype Moment = Moment(time: int, live: set<nat>)

  /** A call between its Redis step and its cache step, with the moment it saw; or a delete after its eviction. */
  datatype Call = Filling(jti: nat, valid: bool, seen: nat, answers: bool) | Deleting(jti: nat)

  /** What a lookup answered, when, and the moment it rests on. */
  datatype Answer = Answer(jti: nat, valid: bool, time: int, seen: nat)

  /** A cache entry and the moment its verdict was read at. */
  datatype Entry = Entry(cached: Cached, seen: nat)

  datatype World = World(moments: seq<Moment>, entries: map<nat, Entry>, calls: map<nat, Call>, answers: seq<Answer>)

  datatype Config = Config(ttl: nat, delay: nat)   // delay bounds the time from a call's Redis step to its cache step

  datatype Step =
    | Tick(amount: nat)
    | Outside(live: set<nat>)
    | Hit(jti: nat)
    | AskRedis(caller: nat, jti: nat)
    | SaveRedis(caller: nat, jti: nat)
    | Fill(caller: nat)
    | EvictFirst(caller: nat, jti: nat)
    | DeleteRedis(caller: nat, applied: bool)
    | Sweep

  predicate Sane(w: World) {
    |w.moments| > 0
  }

  function Here(w: World): nat
    requires Sane(w)
  {
    |w.moments| - 1
  }

  function Now(w: World): int
    requires Sane(w)
  {
    w.moments[Here(w)].time
  }

  function Redis(w: World): set<nat>
    requires Sane(w)
  {
    w.moments[Here(w)].live
  }

  predicate Fresh(w: World, jti: nat)
    requires Sane(w)
  {
    jti in w.entries && Now(w) <= w.entries[jti].cached.expiresAt
  }

  predicate Enabled(cfg: Config, w: World, step: Step) {
    Sane(w) &&
    match step
    case Tick(amount) => forall c :: c in w.calls && w.calls[c].Filling? && w.calls[c].seen < |w.moments| ==>
                       Now(w) + amount <= w.moments[w.calls[c].seen].time + cfg.delay
    case Outside(_) => true
    case Hit(jti) => Fresh(w, jti)
    case AskRedis(caller, _) => caller !in w.calls
    case SaveRedis(caller, _) => caller !in w.calls
    case Fill(caller) => caller in w.calls && w.calls[caller].Filling?
    case EvictFirst(caller, _) => caller !in w.calls
    case DeleteRedis(caller, _) => caller in w.calls && w.calls[caller].Deleting?
    case Sweep => true
  }

  function Moved(w: World, time: int, live: set<nat>): World {
    w.(moments := w.moments + [Moment(time, live)])
  }

  function Apply(cfg: Config, w: World, step: Step): World
    requires Enabled(cfg, w, step)
  {
    match step
    case Tick(amount) => Moved(w, Now(w) + amount, Redis(w))
    case Outside(live) => Moved(w, Now(w), live)
    case Hit(jti) => w.(answers := w.answers + [Answer(jti, w.entries[jti].cached.valid, Now(w), w.entries[jti].seen)])
    case AskRedis(caller, jti) => w.(calls := w.calls[caller := Filling(jti, jti in Redis(w), Here(w), true)])
    case SaveRedis(caller, jti) =>
      Moved(w, Now(w), Redis(w) + {jti}).(calls := w.calls[caller := Filling(jti, true, |w.moments|, false)])
    case Fill(caller) =>
      var c := w.calls[caller];
      w.(entries := w.entries[c.jti := Entry(Cached(c.valid, Now(w) + cfg.ttl), c.seen)], calls := w.calls - {caller},
         answers := if c.answers then w.answers + [Answer(c.jti, c.valid, Now(w), c.seen)] else w.answers)
    case EvictFirst(caller, jti) => w.(entries := w.entries - {jti}, calls := w.calls[caller := Deleting(jti)])
    case DeleteRedis(caller, applied) =>
      Moved(w, Now(w), if applied then Redis(w) - {w.calls[caller].jti} else Redis(w)).(calls := w.calls - {caller})
    case Sweep =>
      w.(entries := map jti | jti in w.entries && Now(w) <= w.entries[jti].cached.expiresAt :: w.entries[jti])
  }

  predicate Runs(cfg: Config, w: World, steps: seq<Step>)
    decreases |steps|
  {
    steps != [] ==> Enabled(cfg, w, steps[0]) && Runs(cfg, Apply(cfg, w, steps[0]), steps[1..])
  }

  function Final(cfg: Config, w: World, steps: seq<Step>): World
    requires Runs(cfg, w, steps)
    decreases |steps|
  {
    if steps == [] then w else Final(cfg, Apply(cfg, w, steps[0]), steps[1..])
  }

  function Start(time: int, live: set<nat>): World {
    World([Moment(time, live)], map[], map[], [])
  }

  // --- Staleness ---------------------------------------------------------------------------------------

  /** Moment k says the session's truth was v. */
  predicate Witness(moments: seq<Moment>, k: nat, jti: nat, v: bool) {
    k < |moments| && (jti in moments[k].live <==> v)
  }

  predicate EntryOk(cfg: Config, moments: seq<Moment>, jti: nat, e: Entry) {
    && Witness(moments, e.seen, jti, e.cached.valid)
    && e.cached.expiresAt <= moments[e.seen].time + cfg.ttl + cfg.delay
  }

  predicate CallOk(cfg: Config, moments: seq<Moment>, c: Call) {
    c.Filling? ==>
      && Witness(moments, c.seen, c.jti, c.valid)
      && moments[|moments| - 1].time <= moments[c.seen].time + cfg.delay
  }

  predicate AnswerOk(cfg: Config, moments: seq<Moment>, a: Answer) {
    && Witness(moments, a.seen, a.jti, a.valid)
    && a.time - cfg.ttl - cfg.delay <= moments[a.seen].time <= a.time
  }

  predicate Inv(cfg: Config, w: World) {
    && Sane(w)
    && (forall i, j :: 0 <= i < j < |w.moments| ==> w.moments[i].time <= w.moments[j].time)
    && (forall jti :: jti in w.entries ==> EntryOk(cfg, w.moments, jti, w.entries[jti]))
    && (forall c :: c in w.calls ==> CallOk(cfg, w.moments, w.calls[c]))
    && (forall i :: 0 <= i < |w.answers| ==> AnswerOk(cfg, w.moments, w.answers[i]))
  }

  lemma EntriesStep(cfg: Config, w: World, step: Step)
    requires Inv(cfg, w) && Enabled(cfg, w, step)
    ensures var v := Apply(cfg, w, step); forall jti :: jti in v.entries ==>
            EntryOk(cfg, v.moments, jti, v.entries[jti])
  {
    var v := Apply(cfg, w, step);
    forall jti | jti in v.entries ensures EntryOk(cfg, v.moments, jti, v.entries[jti]) {
      if step.Fill? && jti == w.calls[step.caller].jti {
        assert CallOk(cfg, w.moments, w.calls[step.caller]);
      } else {
        assert EntryOk(cfg, w.moments, jti, w.entries[jti]);
      }
    }
  }

  lemma AnswersStep(cfg: Config, w: World, step: Step)
    requires Inv(cfg, w) && Enabled(cfg, w, step)
    ensures var v := Apply(cfg, w, step); forall i :: 0 <= i < |v.answers| ==> AnswerOk(cfg, v.moments, v.answers[i])
  {
    var v := Apply(cfg, w, step);
    forall i | 0 <= i < |v.answers| ensures AnswerOk(cfg, v.moments, v.answers[i]) {
      if i < |w.answers| {
        assert AnswerOk(cfg, w.moments, w.answers[i]);
      } else if step.Hit? {
        assert EntryOk(cfg, w.moments, step.jti, w.entries[step.jti]);
      } else {
        assert CallOk(cfg, w.moments, w.calls[step.caller]);
      }
    }
  }

  lemma StepInv(cfg: Config, w: World, step: Step)
    requires Inv(cfg, w) && Enabled(cfg, w, step)
    ensures Inv(cfg, Apply(cfg, w, step))
  {
    var v := Apply(cfg, w, step);
    EntriesStep(cfg, w, step);
    AnswersStep(cfg, w, step);
    forall c | c in v.calls ensures CallOk(cfg, v.moments, v.calls[c]) {
      if c in w.calls { assert CallOk(cfg, w.moments, w.calls[c]); }
    }
  }

  lemma {:induction false} RunKeeps(cfg: Config, w: World, steps: seq<Step>)
    requires Inv(cfg, w) && Runs(cfg, w, steps)
    ensures Inv(cfg, Final(cfg, w, steps))
    decreases |steps|
  {
    if steps != [] {
      StepInv(cfg, w, steps[0]);
      RunKeeps(cfg, Apply(cfg, w, steps[0]), steps[1..]);
    }
  }

  /**
   * Under every interleaving, each answer was the truth in Redis at some instant no older than the
   * cache's ttl plus the time a call may take; with atomic calls (delay 0) that is the ttl alone.
   */
  lemma StalenessBounded(cfg: Config, time: int, live: set<nat>, steps: seq<Step>, i: nat)
    requires Runs(cfg, Start(time, live), steps) && i < |Final(cfg, Start(time, live), steps).answers|
    ensures var w := Final(cfg, Start(time, live), steps);
            var a := w.answers[i];
            exists k :: 0 <= k < |w.moments| && (a.jti in w.moments[k].live <==> a.valid)
                     && a.time - cfg.ttl - cfg.delay <= w.moments[k].time <= a.time
  {
    RunKeeps(cfg, Start(time, live), steps);
    var w := Final(cfg, Start(time, live), steps);
    assert AnswerOk(cfg, w.moments, w.answers[i]);
  }

  // --- When a delete is final ----------------------------------------------------------------------------

  /** The cache serves, or a call is about to cache, that the session exists, on the word of a moment before d. */
  predicate StaleSource(w: World, jti: nat, d: nat)
    requires Sane(w)
  {
    || (Fresh(w, jti) && w.entries[jti].cached.valid && w.entries[jti].seen < d)
    || (exists c ::
          c in w.calls && w.calls[c].Filling? && w.calls[c].jti == jti && w.calls[c].valid && w.calls[c].seen < d)
  }

  /** An answer given from position n on that the session exists, resting on a moment before d. */
  predicate StaleAnswer(w: World, jti: nat, d: nat, n: nat) {
    exists i :: n <= i < |w.answers| && w.answers[i].jti == jti && w.answers[i].valid && w.answers[i].seen < d
  }

  lemma SourceNeverArises(cfg: Config, w: World, step: Step, jti: nat, d: nat)
    requires Enabled(cfg, w, step) && !StaleSource(w, jti, d) && d < |w.moments|
    ensures Sane(Apply(cfg, w, step)) && !StaleSource(Apply(cfg, w, step), jti, d)
    ensures !StaleAnswer(Apply(cfg, w, step), jti, d, |w.answers|) && w.answers <= Apply(cfg, w, step).answers
  {
  }

  lemma {:induction false} NoSourceNoStaleAnswer(cfg: Config, w: World, steps: seq<Step>, jti: nat, d: nat)
    requires Runs(cfg, w, steps) && d < |w.moments| && !StaleSource(w, jti, d)
    ensures !StaleAnswer(Final(cfg, w, steps), jti, d, |w.answers|) && w.answers <= Final(cfg, w, steps).answers
    decreases |steps|
  {
    if steps != [] {
      var next := Apply(cfg, w, steps[0]);
      SourceNeverArises(cfg, w, steps[0], jti, d);
      NoSourceNoStaleAnswer(cfg, next, steps[1..], jti, d);
      var v := Final(cfg, w, steps);
      forall i | |w.answers| <= i < |v.answers| && v.answers[i].jti == jti && v.answers[i].valid
        ensures v.answers[i].seen >= d {
        if i < |next.answers| { assert v.answers[i] == next.answers[i]; }
      }
    }
  }

  function Deleted(cfg: Config, w: World, caller: nat): World
    requires Enabled(cfg, w, DeleteRedis(caller, true))
  {
    Apply(cfg, w, DeleteRedis(caller, true))
  }

  lemma SourceShows(cfg: Config, w: World, jti: nat, d: nat) returns (steps: seq<Step>)
    requires Sane(w) && StaleSource(w, jti, d)
    ensures Runs(cfg, w, steps) && StaleAnswer(Final(cfg, w, steps), jti, d, |w.answers|)
  {
    if Fresh(w, jti) && w.entries[jti].cached.valid && w.entries[jti].seen < d {
      steps := [Hit(jti)];
      var v := Apply(cfg, w, Hit(jti));
      assert steps[1..] == [] && Runs(cfg, v, []);
      assert Runs(cfg, w, steps) && Final(cfg, w, steps) == Final(cfg, v, steps[1..]) == v;
      assert v.answers[|w.answers|].seen < d;
    } else {
      var c :| c in w.calls && w.calls[c].Filling? && w.calls[c].jti == jti && w.calls[c].valid && w.calls[c].seen < d;
      steps := [Fill(c), Hit(jti)];
      var v := Apply(cfg, w, Fill(c));
      var u := Apply(cfg, v, Hit(jti));
      assert steps[1..] == [Hit(jti)] && steps[1..][1..] == [] && Runs(cfg, u, []);
      assert Runs(cfg, v, steps[1..]) && Final(cfg, v, steps[1..]) == u;
      assert Runs(cfg, w, steps) && Final(cfg, w, steps) == u;
      assert u.answers[|v.answers|].seen < d && |v.answers| >= |w.answers|;
    }
  }

  /** The cache serves that the session exists, or an unfinished lookup or save is about to make it do so. */
  predicate StillServed(w: World, jti: nat)
    requires Sane(w)
  {
    || (Fresh(w, jti) && w.entries[jti].cached.valid)
    || (exists c :: c in w.calls && w.calls[c].Filling? && w.calls[c].jti == jti && w.calls[c].valid)
  }

  /** No continuation is told the session exists on evidence from before d. */
  ghost predicate NeverStale(cfg: Config, w: World, jti: nat, d: nat) {
    forall steps :: Runs(cfg, w, steps) ==> !StaleAnswer(Final(cfg, w, steps), jti, d, |w.answers|)
  }

  lemma SourceIsService(cfg: Config, w: World, caller: nat)
    requires Inv(cfg, w) && Enabled(cfg, w, DeleteRedis(caller, true))
    ensures StaleSource(Deleted(cfg, w, caller), w.calls[caller].jti, |w.moments|)
            <==> StillServed(w, w.calls[caller].jti)
  {
    var jti, v := w.calls[caller].jti, Deleted(cfg, w, caller);
    if jti in w.entries { assert EntryOk(cfg, w.moments, jti, w.entries[jti]); }
    forall c | c in w.calls && w.calls[c].Filling? ensures w.calls[c].seen < |w.moments| {
      assert CallOk(cfg, w.moments, w.calls[c]);
    }
    forall c ensures c in v.calls && v.calls[c].Filling? <==> c in w.calls && w.calls[c].Filling? {}
    forall c | c in v.calls ensures c in w.calls && w.calls[c] == v.calls[c] {}
    assert Fresh(v, jti) == Fresh(w, jti);
  }

  /**
   * The cache evicts before it deletes from Redis. The delete is final exactly when, as it reaches
   * Redis, the cache no longer serves the session and no overlapping lookup or save has yet to
   * cache that it exists.
   */
  lemma DeleteIsFinalIff(cfg: Config, w: World, caller: nat)
    requires Inv(cfg, w) && Enabled(cfg, w, DeleteRedis(caller, true))
    ensures NeverStale(cfg, Deleted(cfg, w, caller), w.calls[caller].jti, |w.moments|)
            <==> !StillServed(w, w.calls[caller].jti)
  {
    var jti, d, v := w.calls[caller].jti, |w.moments|, Deleted(cfg, w, caller);
    SourceIsService(cfg, w, caller);
    if StaleSource(v, jti, d) {
      var steps := SourceShows(cfg, v, jti, d);
    } else {
      forall steps | Runs(cfg, v, steps) ensures !StaleAnswer(Final(cfg, v, steps), jti, d, |v.answers|) {
        NoSourceNoStaleAnswer(cfg, v, steps, jti, d);
      }
    }
  }

  /** Nothing here serves the session or is about to. */
  predicate Unserved(w: World, jti: nat) {
    jti !in w.entries && forall c :: c in w.calls && w.calls[c].Filling? ==> w.calls[c].jti != jti
  }

  /** A step that starts no lookup or save of the session, and is not the end of the delete itself. */
  predicate Apart(step: Step, jti: nat, caller: nat) {
    match step
    case AskRedis(_, j) => j != jti
    case SaveRedis(_, j) => j != jti
    case DeleteRedis(c, _) => c != caller
    case _ => true
  }

  lemma {:induction false} StaysUnserved(cfg: Config, w: World, steps: seq<Step>, jti: nat, caller: nat)
    requires Runs(cfg, w, steps) && forall i :: 0 <= i < |steps| ==> Apart(steps[i], jti, caller)
    requires Sane(w) && Unserved(w, jti) && caller in w.calls && w.calls[caller] == Deleting(jti)
    ensures var v := Final(cfg, w, steps);
            Sane(v) && Unserved(v, jti) && caller in v.calls && v.calls[caller] == Deleting(jti)
    decreases |steps|
  {
    if steps != [] {
      assert Apart(steps[0], jti, caller);
      StaysUnserved(cfg, Apply(cfg, w, steps[0]), steps[1..], jti, caller);
    }
  }

  /**
   * A delete that no lookup or save of the session overlaps is final, whatever else happens between its
   * eviction and its Redis delete, and the next lookup must ask Redis.
   */
  lemma LoneDeleteIsFinal(cfg: Config, w: World, caller: nat, jti: nat, between: seq<Step>, after: seq<Step>)
    requires Sane(w) && caller !in w.calls
            && (forall c :: c in w.calls && w.calls[c].Filling? ==> w.calls[c].jti != jti)
    requires Runs(cfg, Apply(cfg, w, EvictFirst(caller, jti)), between)
    requires forall i :: 0 <= i < |between| ==> Apart(between[i], jti, caller)
    ensures var u := Final(cfg, Apply(cfg, w, EvictFirst(caller, jti)), between);
            && Enabled(cfg, u, DeleteRedis(caller, true)) && u.calls[caller].jti == jti
            && var v := Deleted(cfg, u, caller);
            && jti !in Redis(v) && !Fresh(v, jti)
            && (Runs(cfg, v, after) ==> !StaleAnswer(Final(cfg, v, after), jti, |u.moments|, |v.answers|))
  {
    var evicted := Apply(cfg, w, EvictFirst(caller, jti));
    StaysUnserved(cfg, evicted, between, jti, caller);
    var u := Final(cfg, evicted, between);
    var v := Deleted(cfg, u, caller);
    if Runs(cfg, v, after) { NoSourceNoStaleAnswer(cfg, v, after, jti, |u.moments|); }
  }

  /** The race is real: a lookup that asked Redis before the delete caches its answer after it. */
  lemma DeleteRaceHappens(cfg: Config)
    ensures var before, after := [AskRedis(5, 1), EvictFirst(6, 1)], [Fill(5), Hit(1)];
            && Runs(cfg, Start(0, {1}), before)
            && var w := Final(cfg, Start(0, {1}), before);
            && Enabled(cfg, w, DeleteRedis(6, true)) && w.calls[6].jti == 1
            && var v := Deleted(cfg, w, 6);
            && 1 !in Redis(v)
            && Runs(cfg, v, after) && StaleAnswer(Final(cfg, v, after), 1, |w.moments|, |v.answers|)
  {
    var s, before, after := Start(0, {1}), [AskRedis(5, 1), EvictFirst(6, 1)], [Fill(5), Hit(1)];
    var s1 := Apply(cfg, s, before[0]);
    var w := Apply(cfg, s1, before[1]);
    TwoSteps(cfg, s, before[0], before[1]);
    var v := Deleted(cfg, w, 6);
    var v1 := Apply(cfg, v, after[0]);
    var v2 := Apply(cfg, v1, after[1]);
    TwoSteps(cfg, v, after[0], after[1]);
    assert v2.answers[|v.answers|].seen < |w.moments|;
  }

  lemma TwoSteps(cfg: Config, w: World, a: Step, b: Step)
    requires Enabled(cfg, w, a) && Enabled(cfg, Apply(cfg, w, a), b)
    ensures Runs(cfg, w, [a, b]) && Final(cfg, w, [a, b]) == Apply(cfg, Apply(cfg, w, a), b)
  {
    hide Enabled, Apply;
    var v := Apply(cfg, w, a);
    assert [a, b][1..] == [b] && [b][1..] == [];
    assert Runs(cfg, Apply(cfg, v, b), []);
    assert Runs(cfg, v, [b]) && Final(cfg, v, [b]) == Apply(cfg, v, b);
  }
}
