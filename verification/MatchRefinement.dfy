/** A match tick, as the service performs it, is a run of the protocol. */
module MatchRefinement {
  import opened Collections
  import opened ZSet
  import opened Matcher
  import opened MatchProtocol
  import opened MatchService

  lemma {:induction false} RunsConcat(cfg: Config, s: State, a: seq<Step>, b: seq<Step>)
    requires Runs(cfg, s, a) && Runs(cfg, Final(cfg, s, a), b)
    ensures Runs(cfg, s, a + b) && Final(cfg, s, a + b) == Final(cfg, Final(cfg, s, a), b)
    decreases |a|
  {
    hide Enabled, Apply;
    if a == [] {
      assert a + b == b;
    } else {
      assert (a + b)[1..] == a[1..] + b;
      RunsConcat(cfg, Apply(cfg, s, a[0]), a[1..], b);
    }
  }

  lemma RunsOne(cfg: Config, s: State, step: Step)
    requires Enabled(cfg, s, step)
    ensures Runs(cfg, s, [step]) && Final(cfg, s, [step]) == Apply(cfg, s, step)
  {
    hide Enabled, Apply;
    assert [step][1..] == [];
    assert Runs(cfg, Apply(cfg, s, step), []);
  }

  /** One more step at the end of a run. */
  lemma RunsThen(cfg: Config, s: State, steps: seq<Step>, step: Step)
    requires Runs(cfg, s, steps) && Enabled(cfg, Final(cfg, s, steps), step)
    ensures Runs(cfg, s, steps + [step]) && Final(cfg, s, steps + [step]) == Apply(cfg, Final(cfg, s, steps), step)
  {
    hide Enabled, Apply, Runs, Final;
    RunsOne(cfg, Final(cfg, s, steps), step);
    RunsConcat(cfg, s, steps, [step]);
  }

  // --- Announcing --------------------------------------------------------------------------------

  function Tagged(tick: nat, rooms: seq<Room>): seq<Found> {
    seq(|rooms|, i requires 0 <= i < |rooms| => Found(tick, rooms[i]))
  }

  function Announces(rooms: seq<Room>, delivered: set<nat>, k: nat): seq<Step>
    requires k <= |rooms|
  {
    if k == 0 then [] else Announces(rooms, delivered, k - 1) + [Announce(rooms[k - 1].id in delivered)]
  }

  /** The phase after the first k rooms have been announced. */
  function Left(rooms: seq<Room>, k: nat): Phase
    requires k <= |rooms|
  {
    if k == |rooms| then Resting else Announcing(rooms[k..])
  }

  function Announced(s: State, rooms: seq<Room>, delivered: set<nat>, k: nat): State
    requires k <= |rooms|
  {
    s.(phase := Left(rooms, k), bus := s.bus + Tagged(s.tick, Delivered(rooms[..k], delivered)))
  }

  lemma AnnounceOne(cfg: Config, s: State, rooms: seq<Room>, delivered: set<nat>, k: nat)
    requires 0 < k <= |rooms|
    ensures var t := Announced(s, rooms, delivered, k - 1);
            var step := Announce(rooms[k - 1].id in delivered);
            Enabled(cfg, t, step) && Apply(cfg, t, step) == Announced(s, rooms, delivered, k)
  {
    assert rooms[..k][..k - 1] == rooms[..k - 1];
    assert rooms[k - 1..][1..] == rooms[k..];
    var before, after := Delivered(rooms[..k - 1], delivered), Delivered(rooms[..k], delivered);
    assert rooms[k - 1].id in delivered ==>
      Tagged(s.tick, after) == Tagged(s.tick, before) + [Found(s.tick, rooms[k - 1])];
  }

  lemma {:induction false} AnnouncesRun(cfg: Config, s: State, rooms: seq<Room>, delivered: set<nat>, k: nat)
    requires s.phase == Announcing(rooms) && rooms != [] && k <= |rooms|
    ensures Runs(cfg, s, Announces(rooms, delivered, k))
    ensures Final(cfg, s, Announces(rooms, delivered, k)) == Announced(s, rooms, delivered, k)
  {
    if k == 0 {
      assert rooms[0..] == rooms && rooms[..0] == [] && Tagged(s.tick, []) == [];
    } else {
      hide Apply, Enabled, Runs, Final, Announced;
      AnnouncesRun(cfg, s, rooms, delivered, k - 1);
      AnnounceOne(cfg, s, rooms, delivered, k);
      RunsThen(cfg, s, Announces(rooms, delivered, k - 1), Announce(rooms[k - 1].id in delivered));
    }
  }

  // --- The whole tick -----------------------------------------------------------------------------

  function Ids(newId: nat -> nat, n: nat): (ids: seq<nat>)
    ensures |ids| == n
  {
    seq(n, i requires 0 <= i < n => newId(i))
  }

  predicate FreshIds(s: State, newId: nat -> nat, n: nat) {
    Distinct(Ids(newId, n)) && forall id :: id in Ids(newId, n) ==> id !in s.used
  }

  /** What the service's own state is, seen in the protocol's. */
  ghost predicate Shows(t: State, zset: ZSet, joined: map<nat, Option<int>>, stored: map<nat, Room>, bus: seq<Found>) {
    t.phase == Resting && t.zset == zset && t.joined == joined && t.stored == stored && t.bus == bus
  }

  function Evicts(cutoff: int, f: Faults): seq<Step> {
    if f.evictRead then [] else [EvictRead(cutoff), EvictRemove(f.evict.first, f.evict.second)]
  }

  lemma EvictsRun(cfg: Config, s: State, cutoff: int, f: Faults)
    requires s.phase == Resting
    ensures Runs(cfg, s, Evicts(cutoff, f))
    ensures Final(cfg, s, Evicts(cutoff, f))
         == s.(zset := AfterEviction(s.zset, s.joined, cutoff, f), joined := JoinedAfterEviction(s.joined, cutoff, f))
  {
    if !f.evictRead {
      var read, remove := EvictRead(cutoff), EvictRemove(f.evict.first, f.evict.second);
      RunsOne(cfg, s, read);
      RunsThen(cfg, s, [read], remove);
      assert [read] + [remove] == Evicts(cutoff, f);
    }
  }

  /** The rooms the service makes are those of the protocol's snapshot with the service's ids. */
  lemma SameRooms(z: ZSet, cfg: Config, newId: nat -> nat)
    ensures var pairs := PairsFrom(Tickets(z, cfg.batch), cfg.window, 0);
            RoomsFor(z, cfg, newId) == MakeRooms(pairs, Ids(newId, |pairs|))
  {
    hide Tickets, PairsFrom;
  }

  function Snapped(s: State, rooms: seq<Room>, ids: seq<nat>): State {
    s.(phase := if rooms == [] then Resting else Saving(rooms), tick := s.tick + 1, used := s.used + Elements(ids))
  }

  lemma SnapshotStep(cfg: Config, s: State, newId: nat -> nat)
    requires s.phase == Resting && FreshIds(s, newId, |RoomsFor(s.zset, cfg, newId)|)
    ensures var rooms := RoomsFor(s.zset, cfg, newId);
            var step := Step.Snapshot(Ids(newId, |rooms|));
            Enabled(cfg, s, step) && Apply(cfg, s, step) == Snapped(s, rooms, Ids(newId, |rooms|))
  {
    SameRooms(s.zset, cfg, newId);
    hide Tickets, PairsFrom, Ids;
  }

  function Creates(rooms: seq<Room>, f: Faults): seq<Step> {
    if rooms == [] then [] else
    var saved := f.saveReply && Stored(rooms, f.applied);
    [Save(f.applied, saved)]
    + (if saved then [Step.Remove(f.remove.first, f.remove.second, f.remove.Ok())] else [])
    + (if saved && f.remove.Ok() then Announces(rooms, f.delivered, |rooms|) else [])
  }

  /** The service's state after creating rooms, as its contract gives it. */
  ghost predicate CreatedFrom(s: State, t: State, rooms: seq<Room>, f: Faults) {
    var saved := f.saveReply && Stored(rooms, f.applied);
    Shows(t, Keep(s.zset, PlayersOf(rooms), saved && f.remove.first),
      Keep(s.joined, PlayersOf(rooms), saved && f.remove.second),
          StoreRooms(s.stored, rooms, f.applied),
          s.bus + (if saved && f.remove.Ok() then Tagged(s.tick, Delivered(rooms, f.delivered)) else []))
  }

  lemma CreatesRun(cfg: Config, s: State, rooms: seq<Room>, f: Faults)
    requires s.phase == Saving(rooms) && rooms != []
    ensures Runs(cfg, s, Creates(rooms, f)) && CreatedFrom(s, Final(cfg, s, Creates(rooms, f)), rooms, f)
  {
    hide PlayersOf, StoreRooms, Delivered, AsMap;
    var saved := f.saveReply && Stored(rooms, f.applied);
    var save, remove := Save(f.applied, saved), Step.Remove(f.remove.first, f.remove.second, f.remove.Ok());
    RunsOne(cfg, s, save);
    var t := Apply(cfg, s, save);
    if !saved {
      assert Creates(rooms, f) == [save];
    } else {
      RunsThen(cfg, s, [save], remove);
      var u := Apply(cfg, t, remove);
      if !f.remove.Ok() {
        assert Creates(rooms, f) == [save] + [remove];
      } else {
        AnnouncesRun(cfg, u, rooms, f.delivered, |rooms|);
        RunsConcat(cfg, s, [save] + [remove], Announces(rooms, f.delivered, |rooms|));
        assert rooms[..|rooms|] == rooms;
        assert Creates(rooms, f) == [save] + [remove] + Announces(rooms, f.delivered, |rooms|);
      }
    }
  }

  lemma NoRooms(s: State, rooms: seq<Room>, f: Faults)
    requires rooms == [] && s.phase == Resting
    ensures CreatedFrom(s, s, rooms, f)
  {
    assert PlayersOf(rooms) == {};
    assert s.zset - {} == s.zset && s.joined - {} == s.joined;
  }

  /** A tick whose snapshot fails is a run too: it has evicted, and does nothing more. */
  lemma FailedTickIsRun(cfg: Config, s: State, cutoff: int, f: Faults)
    requires s.phase == Resting
    ensures Runs(cfg, s, Evicts(cutoff, f))
    ensures Shows(Final(cfg, s, Evicts(cutoff, f)), AfterEviction(s.zset, s.joined, cutoff, f),
                  JoinedAfterEviction(s.joined, cutoff, f), s.stored, s.bus)
  {
    hide Runs, Final, AfterEviction, JoinedAfterEviction, Evicts;
    EvictsRun(cfg, s, cutoff, f);
  }

  lemma PairedTickIsRun(cfg: Config, s: State, cutoff: int, newId: nat -> nat, f: Faults) returns (steps: seq<Step>)
    requires s.phase == Resting
    requires FreshIds(s, newId, |RoomsFor(AfterEviction(s.zset, s.joined, cutoff, f), cfg, newId)|)
    ensures Runs(cfg, s, steps)
    ensures var z := AfterEviction(s.zset, s.joined, cutoff, f);
            var e := s.(zset := z, joined := JoinedAfterEviction(s.joined, cutoff, f), tick := s.tick + 1);
            CreatedFrom(e, Final(cfg, s, steps), RoomsFor(z, cfg, newId), f)
  {
    hide Enabled, Apply, Runs, Final, RoomsFor, AfterEviction, JoinedAfterEviction, Ids, Evicts, FreshIds;
    var z := AfterEviction(s.zset, s.joined, cutoff, f);
    var rooms := RoomsFor(z, cfg, newId);
    EvictsRun(cfg, s, cutoff, f);
    var t := Final(cfg, s, Evicts(cutoff, f));
    FreshStays(s, t, newId, |rooms|);
    SnapshotStep(cfg, t, newId);
    var snap := Step.Snapshot(Ids(newId, |rooms|));
    RunsThen(cfg, s, Evicts(cutoff, f), snap);
    steps := Evicts(cutoff, f) + [snap];
    var u := Snapped(t, rooms, Ids(newId, |rooms|));
    if rooms == [] {
      NoRooms(u, rooms, f);
    } else {
      CreatesRun(cfg, u, rooms, f);
      RunsConcat(cfg, s, steps, Creates(rooms, f));
      steps := steps + Creates(rooms, f);
    }
  }

  /**
   * An undisturbed tick with fresh room ids is a run of the protocol, whatever fails, and ends with the
   * queue, the hash, the stored rooms and the announcements that the service's contract gives for the tick.
   */
  lemma TickIsRun(cfg: Config, s: State, cutoff: int, newId: nat -> nat, f: Faults) returns (steps: seq<Step>)
    requires s.phase == Resting
    requires !f.snapshot ==> FreshIds(s, newId, |RoomsFor(AfterEviction(s.zset, s.joined, cutoff, f), cfg, newId)|)
    ensures Runs(cfg, s, steps)
    ensures var z, j := AfterEviction(s.zset, s.joined, cutoff, f), JoinedAfterEviction(s.joined, cutoff, f);
            if f.snapshot then Shows(Final(cfg, s, steps), z, j, s.stored, s.bus)
            else CreatedFrom(s.(zset := z, joined := j, tick := s.tick + 1), Final(cfg, s, steps),
              RoomsFor(z, cfg, newId), f)
  {
    hide Runs, Final, RoomsFor, AfterEviction, JoinedAfterEviction, Evicts, FreshIds, Shows, CreatedFrom;
    if f.snapshot {
      FailedTickIsRun(cfg, s, cutoff, f);
      steps := Evicts(cutoff, f);
    } else {
      steps := PairedTickIsRun(cfg, s, cutoff, newId, f);
    }
  }

  lemma FreshStays(s: State, t: State, newId: nat -> nat, n: nat)
    requires FreshIds(s, newId, n) && t.used == s.used
    ensures FreshIds(t, newId, n)
  {
  }

  // --- Joining and leaving --------------------------------------------------------------------------

  /** A join is one step, and leaves the queue and the hash as the service's contract gives them. */
  lemma EnqueueIsStep(cfg: Config, s: State, player: nat, rank: int, now: int, pipe: Pipe)
    ensures var step := Join(player, rank, now, pipe.first, pipe.second);
            && Enabled(cfg, s, step)
            && var t := Apply(cfg, s, step);
            && t.zset == (if pipe.first then s.zset[player := rank] else s.zset)
            && t.joined == (if pipe.second then s.joined[player := Some(now)] else s.joined)
            && t == s.(zset := t.zset, joined := t.joined, joins := t.joins)
  {
  }

  /** So is a leave: the hash entry goes only after a reply to the removal from the queue. */
  lemma LeaveIsStep(cfg: Config, s: State, player: nat, zrem: Zrem, hdel: bool)
    ensures var step := Leave(player, !zrem.Refused?, zrem.Replied? && hdel);
            && Enabled(cfg, s, step)
            && Apply(cfg, s, step) == s.(zset := if zrem.Refused? then s.zset else s.zset - {player},
                                         joined := if zrem.Replied? && hdel then s.joined - {player} else s.joined)
  {
  }
}
