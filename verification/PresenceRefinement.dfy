/** What the presence service does to its keys is what the step systems of replicas and fleets do. */
module PresenceRefinement {
  import opened Collections
  import opened Presence
  import S = PresenceService
  import Race = PresenceRace
  import Fleet = PresenceFleet

  /** The keys without their deadlines. */
  function Records(keys: S.Keys): map<nat, Record> {
    map p | p in keys :: keys[p].record
  }

  lemma RecordsOfPut(keys: S.Keys, p: nat, e: Effect, deadline: int)
    ensures Lookup(Records(keys), p) == S.Get(keys, p)
    ensures Records(S.Put(keys, p, e.after, deadline)) == Write(Records(keys), p, e)
  {
  }

  lemma MutateRecords(s: S.Svc, p: nat, e: Effect, deadline: int, notice: S.Notice)
    ensures Records(S.Mutate(s, p, e, deadline, notice).keys) == Write(Records(s.keys), p, e)
  {
    RecordsOfPut(s.keys, p, e, deadline);
  }

  lemma ExpireRecords(s: S.Svc, p: nat)
    ensures Records(S.DoExpire(s, p).keys) == Records(s.keys) - {p}
  {
  }

  lemma LookupGets(keys: S.Keys, p: nat)
    ensures Lookup(Records(keys), p) == S.Get(keys, p)
  {
  }

  /** One call of the service as the steps it takes among replicas; a state call is a check and then a script. */
  function RaceSteps(caller: nat, step: S.Step): seq<Race.Step> {
    match step
    case SConnect(p, now, _) => [Race.Up(p, now)]
    case SDisconnect(p, now, _) => [Race.Down(p, now)]
    case SHeartbeat(p, now, _) => [Race.Beat(p, now)]
    case SSetState(p, target, now, _) => [Race.Check(caller, p, target), Race.Script(caller, now)]
    case SExpire(p) => [Race.Expire(p)]
    case SBulk(_, _, _, _) => []
  }

  lemma DoRecords(s: S.Svc, ttl: nat, step: S.Step)
    requires !step.SBulk?
    ensures var k, p := Records(s.keys), step.player;
            Records(S.Do(s, ttl, step).keys) ==
            match step
            case SConnect(_, now, _) => Write(k, p, Connect(Lookup(k, p), now))
            case SDisconnect(_, now, _) => Write(k, p, Disconnect(Lookup(k, p), now))
            case SHeartbeat(_, now, _) => Write(k, p, Heartbeat(Lookup(k, p), now))
            case SSetState(_, target, now, _) =>
              if S.Accepts(s.keys, p, target) then Write(k, p, SetState(Lookup(k, p), target, now)) else k
            case SExpire(_) => k - {p}
  {
    hide Connect, Disconnect, Heartbeat, SetState, S.Mutate, S.DoExpire, S.BeatBulk, Write, Records, Lookup, S.Get,
         S.Accepts;
    var p, raw := step.player, S.Get(s.keys, step.player);
    LookupGets(s.keys, p);
    match step
    case SConnect(_, now, n) => MutateRecords(s, p, Connect(raw, now), now + ttl, n);
    case SDisconnect(_, now, n) => MutateRecords(s, p, Disconnect(raw, now), now + ttl, n);
    case SHeartbeat(_, now, n) => MutateRecords(s, p, Heartbeat(raw, now), now + ttl, n);
    case SSetState(_, target, now, n) => MutateRecords(s, p, SetState(raw, target, now), now + ttl, n);
    case SExpire(_) => ExpireRecords(s, p);
  }

  /**
   * An undisturbed call of the service, refused state calls apart, is a run among replicas that leaves the
   * same records.
   */
  lemma CallIsRaceRun(s: S.Svc, ttl: nat, step: S.Step, pending: map<nat, Race.Pending>, caller: nat)
    requires !step.SBulk? && caller !in pending
    requires step.SSetState? ==> S.Accepts(s.keys, step.player, step.target)
    ensures var w := Race.World(Records(s.keys), pending);
            && Race.Runs(w, RaceSteps(caller, step))
            && Race.Final(w, RaceSteps(caller, step)) == Race.World(Records(S.Do(s, ttl, step).keys), pending)
  {
    hide Connect, Disconnect, Heartbeat, SetState, S.Do;
    DoRecords(s, ttl, step);
    var w, steps := Race.World(Records(s.keys), pending), RaceSteps(caller, step);
    Race.RunsOne(w, steps[0]);
    if step.SSetState? {
      RecordsOfPut(s.keys, step.player, Effect(None, Mutation(OFFLINE_RECORD, OFFLINE_RECORD)), 0);
      var v := Race.Apply(w, steps[0]);
      assert v.pending - {caller} == pending;
      Race.RunsThen(w, [steps[0]], steps[1]);
      assert steps == [steps[0]] + [steps[1]];
    } else {
      assert steps == [steps[0]];
    }
  }

  /** The fleet's deliveries, heartbeats and state writes leave the records the service leaves. */
  lemma FleetStepIsCall(f: Fleet.Fleet, s: S.Svc, ttl: nat, step: Fleet.Step, notice: S.Notice)
    requires Fleet.Enabled(f, step) && f.keys == Records(s.keys)
    ensures var k := Fleet.Apply(f, step).keys;
            match step
            case DeliverUp(c, now) => k == Records(S.DoConnect(s, f.conns[c].player, now, ttl, notice).keys)
            case DeliverDown(c, now) => k == Records(S.DoDisconnect(s, f.conns[c].player, now, ttl, notice).keys)
            case Beat(p, now) => k == Records(S.DoHeartbeat(s, p, now, ttl, notice).keys)
            case Change(p, target, now) =>
              S.Accepts(s.keys, p, target) ==> k == Records(S.DoSetState(s, p, target, now, ttl, notice).keys)
            case _ => k == f.keys
  {
    hide Connect, Disconnect, Heartbeat, SetState;
    match step
    case DeliverUp(c, now) => DoRecords(s, ttl, S.SConnect(f.conns[c].player, now, notice));
    case DeliverDown(c, now) => DoRecords(s, ttl, S.SDisconnect(f.conns[c].player, now, notice));
    case Beat(p, now) => DoRecords(s, ttl, S.SHeartbeat(p, now, notice));
    case Change(p, target, now) => DoRecords(s, ttl, S.SSetState(p, target, now, notice));
    case _ =>
  }
}
