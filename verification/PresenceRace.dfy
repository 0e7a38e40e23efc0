/**
 * SetState as it runs among replicas: a read checked in Go, then a script, with any other
 * presence step or an expiry in between.
 */
module PresenceRace {
  import opened Collections
  import opened Presence

  /** A SetState call that passed its check and has yet to run its script. */
  datatype Pending = Pending(player: nat, target: PState, seen: PState)

  datatype World = World(keys: map<nat, Record>, pending: map<nat, Pending>)

  datatype Step =
    | Up(player: nat, now: int)
    | Down(player: nat, now: int)
    | Beat(player: nat, now: int)
    | Expire(player: nat)
    | Check(caller: nat, player: nat, target: PState)
    | Script(caller: nat, now: int)

  function StateAt(w: World, p: nat): PState {
    Read(Lookup(w.keys, p)).state
  }

  predicate Enabled(w: World, step: Step) {
    match step
    case Check(caller, _, _) => caller !in w.pending
    case Script(caller, _) => caller in w.pending
    case _ => true
  }

  function Apply(w: World, step: Step): World
    requires Enabled(w, step)
  {
    match step
    case Up(p, now) => w.(keys := Write(w.keys, p, Connect(Lookup(w.keys, p), now)))
    case Down(p, now) => w.(keys := Write(w.keys, p, Disconnect(Lookup(w.keys, p), now)))
    case Beat(p, now) => w.(keys := Write(w.keys, p, Heartbeat(Lookup(w.keys, p), now)))
    case Expire(p) => w.(keys := w.keys - {p})
    case Check(caller, p, target) =>
      if Valid(target) && CanTransition(StateAt(w, p), target)
      then w.(pending := w.pending[caller := Pending(p, target, StateAt(w, p))]) else w
    case Script(caller, now) =>
      var c := w.pending[caller];
      World(Write(w.keys, c.player, SetState(Lookup(w.keys, c.player), c.target, now)), w.pending - {caller})
  }

  predicate Runs(w: World, steps: seq<Step>)
    decreases |steps|
  {
    steps != [] ==> Enabled(w, steps[0]) && Runs(Apply(w, steps[0]), steps[1..])
  }

  function Final(w: World, steps: seq<Step>): World
    requires Runs(w, steps)
    decreases |steps|
  {
    if steps == [] then w else Final(Apply(w, steps[0]), steps[1..])
  }

  predicate Checked(w: World) {
    forall c :: c in w.pending ==> CanTransition(w.pending[c].seen, w.pending[c].target)
  }

  /** No step of anyone takes a missing key into a queue or a match. */
  lemma NoStepFabricates(w: World, step: Step, p: nat)
    requires Enabled(w, step) && p !in w.keys
    ensures !Engaged(StateAt(Apply(w, step), p))
  {
  }

  /**
   * Over any interleaving, a player whose key was missing is engaged later only after the key was
   * re-created in a state that is not.
   */
  lemma {:induction false} EngagedOnlyAfterReturning(w: World, steps: seq<Step>, p: nat)
    requires Runs(w, steps) && p !in w.keys && Engaged(StateAt(Final(w, steps), p))
    ensures exists n ::
              && 0 < n < |steps| && Runs(w, steps[..n])
              && p in Final(w, steps[..n]).keys && !Engaged(StateAt(Final(w, steps[..n]), p))
    decreases |steps|
  {
    var next := Apply(w, steps[0]);
    NoStepFabricates(w, steps[0], p);
    if p in next.keys {
      assert |steps| == 1 ==> steps[1..] == [] && Final(w, steps) == next;
      assert steps[..1][1..] == [] && steps[..1][0] == steps[0];
      assert Runs(next, []);
      assert Runs(w, steps[..1]) && Final(w, steps[..1]) == Final(next, steps[..1][1..]) == next;
    } else {
      EngagedOnlyAfterReturning(next, steps[1..], p);
      var n :| 0 < n < |steps| - 1 && Runs(next, steps[1..][..n])
            && p in Final(next, steps[1..][..n]).keys && !Engaged(StateAt(Final(next, steps[1..][..n]), p));
      assert steps[..n + 1][1..] == steps[1..][..n];
      assert Runs(w, steps[..n + 1]) && Final(w, steps[..n + 1]) == Final(next, steps[1..][..n]);
    }
  }

  lemma {:induction false} RunChecked(w: World, steps: seq<Step>)
    requires Checked(w) && Runs(w, steps)
    ensures Checked(Final(w, steps))
    decreases |steps|
  {
    if steps != [] { RunChecked(Apply(w, steps[0]), steps[1..]); }
  }

  /**
   * In every reachable world a script moves an OFFLINE player into a queue or match exactly when
   * the key is there; its check then read some other state, so the player changed in between.
   */
  lemma OfflineToEngagedIsARace(steps: seq<Step>, caller: nat, now: int)
    requires Runs(World(map[], map[]), steps) && caller in Final(World(map[], map[]), steps).pending
    ensures var w := Final(World(map[], map[]), steps);
            var c := w.pending[caller];
            StateAt(w, c.player) == Offline && Engaged(c.target) ==>
              && (Engaged(StateAt(Apply(w, Script(caller, now)), c.player)) <==> c.player in w.keys)
              && c.seen != StateAt(w, c.player)
  {
    RunChecked(World(map[], map[]), steps);
  }

  /** Such a race exists: between check and script another replica writes OFFLINE over a live record. */
  lemma RaceHappens() returns (steps: seq<Step>)
    ensures Runs(World(map[], map[]), steps)
    ensures var w := Final(World(map[], map[]), steps);
            1 in w.pending && StateAt(w, 0) == Offline && StateAt(Apply(w, Script(1, 9)), 0) == InQueue
  {
    steps := [Step.Up(0, 1)] + [Check(1, 0, InQueue)] + [Check(2, 0, Offline)] + [Script(2, 3)];
    var w0 := World(map[], map[]);
    var w1 := Apply(w0, Step.Up(0, 1));
    var w2 := Apply(w1, Check(1, 0, InQueue));
    var w3 := Apply(w2, Check(2, 0, Offline));
    var w4 := Apply(w3, Script(2, 3));
    RunsOne(w0, Step.Up(0, 1));
    RunsThen(w0, [Step.Up(0, 1)], Check(1, 0, InQueue));
    RunsThen(w0, [Step.Up(0, 1)] + [Check(1, 0, InQueue)], Check(2, 0, Offline));
    RunsThen(w0, [Step.Up(0, 1)] + [Check(1, 0, InQueue)] + [Check(2, 0, Offline)], Script(2, 3));
  }

  lemma RunsOne(w: World, step: Step)
    requires Enabled(w, step)
    ensures Runs(w, [step]) && Final(w, [step]) == Apply(w, step)
  {
    hide Enabled, Apply;
    assert [step][1..] == [];
    assert Runs(Apply(w, step), []);
  }

  lemma {:induction false} RunsThen(w: World, steps: seq<Step>, step: Step)
    requires Runs(w, steps) && Enabled(Final(w, steps), step)
    ensures Runs(w, steps + [step]) && Final(w, steps + [step]) == Apply(Final(w, steps), step)
    decreases |steps|
  {
    hide Enabled, Apply;
    if steps == [] {
      assert steps + [step] == [step];
      RunsOne(w, step);
    } else {
      assert (steps + [step])[1..] == steps[1..] + [step];
      RunsThen(Apply(w, steps[0]), steps[1..], step);
    }
  }
}
