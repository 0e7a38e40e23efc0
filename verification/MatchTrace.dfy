/** What the queue, the rooms and the announcements say about the run that made them. */
module MatchTrace {
  import opened Collections
  import opened ZSet
  import opened Matcher
  import opened MatchProtocol

  lemma {:induction false} RunsFront(cfg: Config, s: State, steps: seq<Step>)
    requires steps != [] && Runs(cfg, s, steps)
    ensures var front, last := steps[..|steps| - 1], steps[|steps| - 1];
            && Runs(cfg, s, front) && Enabled(cfg, Final(cfg, s, front), last)
            && Final(cfg, s, steps) == Apply(cfg, Final(cfg, s, front), last)
    decreases |steps|
  {
    hide Enabled, Apply;
    var front := steps[..|steps| - 1];
    if |steps| > 1 {
      var s' := Apply(cfg, s, steps[0]);
      RunsFront(cfg, s', steps[1..]);
      assert steps[1..][..|steps[1..]| - 1] == front[1..];
    } else {
      assert Final(cfg, Apply(cfg, s, steps[0]), steps[1..]) == Apply(cfg, s, steps[0]);
    }
  }

  lemma RunsNone(cfg: Config)
    ensures Inv(INIT) && Runs(cfg, INIT, []) && Final(cfg, INIT, []) == INIT
  {
  }

  // --- Rooms are made of players who joined with those ranks ----------------------------------------

  /** Some join of the run put the player into the queue with this rank. */
  ghost predicate Entered(steps: seq<Step>, t: Ticket) {
    exists m :: 0 <= m < |steps| && steps[m].Join? && steps[m].zadd && steps[m].player == t.player
                && steps[m].rank == t.rank
  }

  /** Two different players whose ranks are within the window, both of whom joined with the rank they are matched at. */
  ghost predicate Fair(cfg: Config, steps: seq<Step>, r: Room) {
    && r.a.player != r.b.player && 0 <= r.b.rank - r.a.rank <= cfg.window
    && Entered(steps, r.a) && Entered(steps, r.b)
  }

  /** How often the player was put into the queue, by the run's own count. */
  function Joins(steps: seq<Step>, p: nat): nat {
    if steps == [] then 0 else
    var last := steps[|steps| - 1];
    Joins(steps[..|steps| - 1], p) + (if last.Join? && last.zadd && last.player == p then 1 else 0)
  }

  ghost predicate Traced(cfg: Config, s: State, steps: seq<Step>) {
    && (forall p :: p in s.zset ==> Entered(steps, Ticket(p, s.zset[p])))
    && (forall i :: 0 <= i < |RoomsOf(s.phase)| ==> Fair(cfg, steps, RoomsOf(s.phase)[i]))
    && (forall id :: id in s.saved ==> Fair(cfg, steps, s.saved[id]))
    && (forall p :: s.joins[p] <= Joins(steps, p))
  }

  lemma EnteredLater(steps: seq<Step>, step: Step, t: Ticket)
    requires Entered(steps, t)
    ensures Entered(steps + [step], t)
  {
    var m :| 0 <= m < |steps| && steps[m].Join? && steps[m].zadd && steps[m].player == t.player
             && steps[m].rank == t.rank;
    assert (steps + [step])[m] == steps[m];
  }

  lemma EnteredNow(steps: seq<Step>, step: Step)
    requires step.Join? && step.zadd
    ensures Entered(steps + [step], Ticket(step.player, step.rank))
  {
    assert (steps + [step])[|steps|] == step;
  }

  lemma FairLater(cfg: Config, steps: seq<Step>, step: Step, r: Room)
    requires Fair(cfg, steps, r)
    ensures Fair(cfg, steps + [step], r)
  {
    EnteredLater(steps, step, r.a);
    EnteredLater(steps, step, r.b);
  }

  /** The rooms of a snapshot pair players of the queue, at the ranks they have there, within the window. */
  lemma SnapshotFair(cfg: Config, z: ZSet, ids: seq<nat>, steps: seq<Step>)
    requires forall p :: p in z ==> Entered(steps, Ticket(p, z[p]))
    requires |ids| == |PairsFrom(Tickets(z, cfg.batch), cfg.window, 0)| && Distinct(ids)
    ensures var rooms := MakeRooms(PairsFrom(Tickets(z, cfg.batch), cfg.window, 0), ids);
            forall i :: 0 <= i < |rooms| ==> Fair(cfg, steps, rooms[i])
  {
    hide Tickets, PairsFrom, Entered;
    var ts := Tickets(z, cfg.batch);
    TicketsSorted(z, cfg.batch);
    RoomsFromTickets(ts, cfg.window, ids);
    PairsWithinWindow(ts, cfg.window, 0);
    var rooms := MakeRooms(PairsFrom(ts, cfg.window, 0), ids);
    forall i | 0 <= i < |rooms| ensures Fair(cfg, steps, rooms[i]) {
      assert rooms[i].a in ts && rooms[i].b in ts;
      assert rooms[i].a == Ticket(rooms[i].a.player, z[rooms[i].a.player]);
      assert rooms[i].b == Ticket(rooms[i].b.player, z[rooms[i].b.player]);
    }
  }

  lemma QueueTraced(cfg: Config, s: State, steps: seq<Step>, step: Step)
    requires Traced(cfg, s, steps) && Enabled(cfg, s, step)
    ensures var t := Apply(cfg, s, step);
            && (forall p :: p in t.zset ==> Entered(steps + [step], Ticket(p, t.zset[p])))
            && (forall p :: t.joins[p] <= Joins(steps + [step], p))
  {
    hide Tickets, PairsFrom, MakeRooms, StoreRooms, AsMap, Stale, PlayersOf, Elements, Entered, Fair;
    var t := Apply(cfg, s, step);
    assert (steps + [step])[..|steps|] == steps;
    forall p | p in t.zset ensures Entered(steps + [step], Ticket(p, t.zset[p])) {
      if step.Join? && step.zadd && step.player == p {
        EnteredNow(steps, step);
      } else {
        EnteredLater(steps, step, Ticket(p, s.zset[p]));
      }
    }
  }

  lemma RoomsTraced(cfg: Config, s: State, steps: seq<Step>, step: Step)
    requires Traced(cfg, s, steps) && MatchProtocol.Apart(RoomsOf(s.phase)) && Enabled(cfg, s, step)
    ensures var t := Apply(cfg, s, step);
            && (forall i :: 0 <= i < |RoomsOf(t.phase)| ==> Fair(cfg, steps + [step], RoomsOf(t.phase)[i]))
            && (forall id :: id in t.saved ==> Fair(cfg, steps + [step], t.saved[id]))
  {
    hide Tickets, PairsFrom, MakeRooms, StoreRooms, AsMap, Stale, PlayersOf, Elements, Entered, Fair;
    var t := Apply(cfg, s, step);
    forall i | 0 <= i < |RoomsOf(s.phase)| ensures Fair(cfg, steps + [step], RoomsOf(s.phase)[i]) {
      FairLater(cfg, steps, step, RoomsOf(s.phase)[i]);
    }
    forall id | id in s.saved ensures Fair(cfg, steps + [step], s.saved[id]) {
      FairLater(cfg, steps, step, s.saved[id]);
    }
    if step.Snapshot? {
      forall p | p in s.zset ensures Entered(steps + [step], Ticket(p, s.zset[p])) {
        EnteredLater(steps, step, Ticket(p, s.zset[p]));
      }
      SnapshotFair(cfg, s.zset, step.ids, steps + [step]);
    } else if step.Save? {
      AsMapHas(s.phase.rooms);
      forall id | id in AsMap(s.phase.rooms) ensures Fair(cfg, steps + [step], AsMap(s.phase.rooms)[id]) {
        var i :| 0 <= i < |s.phase.rooms| && s.phase.rooms[i].id == id;
        assert AsMap(s.phase.rooms)[id] == s.phase.rooms[i];
      }
    }
  }

  lemma {:induction false} RunTraced(cfg: Config, steps: seq<Step>)
    requires Runs(cfg, INIT, steps)
    ensures Traced(cfg, Final(cfg, INIT, steps), steps)
    decreases |steps|
  {
    hide Runs, Final, Enabled, Apply, Inv;
    RunsNone(cfg);
    if steps == [] {
      NothingTraced(cfg);
    } else {
      var front, last := steps[..|steps| - 1], steps[|steps| - 1];
      RunsFront(cfg, INIT, steps);
      RunTraced(cfg, front);
      RunKeeps(cfg, INIT, front);
      assert steps == front + [last];
      var s := Final(cfg, INIT, front);
      PendingApart(s);
      QueueTraced(cfg, s, front, last);
      RoomsTraced(cfg, s, front, last);
    }
  }

  lemma NothingTraced(cfg: Config)
    ensures Traced(cfg, INIT, [])
  {
  }

  lemma PendingApart(s: State)
    requires Inv(s)
    ensures MatchProtocol.Apart(RoomsOf(s.phase))
  {
  }

  /**
   * In every run an announced room joins two different players whose ranks are within the window, and each
   * of them had joined the queue with that rank; nobody is announced more often than they joined.
   */
  lemma AnnouncedAreFair(cfg: Config, steps: seq<Step>)
    requires Runs(cfg, INIT, steps)
    ensures var s := Final(cfg, INIT, steps);
            && (forall k :: 0 <= k < |s.bus| ==> Fair(cfg, steps, s.bus[k].room))
            && (forall p :: Named(s.bus, p) <= Joins(steps, p))
  {
    hide Runs, Final, Fair, Named, Joins;
    RunTraced(cfg, steps);
    MatchSafety(cfg, steps);
  }

  // --- Announced only after it was saved and its players taken out ------------------------------------

  /** At step j a save that stored every room of its batch, r among them, reported success. */
  ghost predicate SavedAt(cfg: Config, steps: seq<Step>, j: nat, r: Room) {
    && j < |steps| && Runs(cfg, INIT, steps[..j]) && steps[j].Save? && steps[j].ok && r.id in steps[j].applied
    && Final(cfg, INIT, steps[..j]).phase.Saving? && r in Final(cfg, INIT, steps[..j]).phase.rooms
  }

  /** At step k the removal of the players of a batch, r among them, applied on both sides and reported success. */
  ghost predicate ClearedAt(cfg: Config, steps: seq<Step>, k: nat, r: Room) {
    && k < |steps| && Runs(cfg, INIT, steps[..k]) && steps[k] == Remove(true, true, true)
    && Final(cfg, INIT, steps[..k]).phase.Removing? && r in Final(cfg, INIT, steps[..k]).phase.rooms
  }

  ghost predicate WasSaved(cfg: Config, steps: seq<Step>, r: Room) {
    exists j: nat :: SavedAt(cfg, steps, j, r)
  }

  ghost predicate WasCleared(cfg: Config, steps: seq<Step>, r: Room) {
    exists k: nat :: ClearedAt(cfg, steps, k, r)
  }

  ghost predicate Accounted(cfg: Config, s: State, steps: seq<Step>) {
    && (forall id :: id in s.saved ==> WasSaved(cfg, steps, s.saved[id]))
    && (forall r :: r in s.cleared ==> WasCleared(cfg, steps, r))
    && (forall r :: r in s.expired ==> RoomExpires(r.id) in steps)
  }

  lemma SavedLater(cfg: Config, steps: seq<Step>, step: Step, r: Room)
    requires WasSaved(cfg, steps, r)
    ensures WasSaved(cfg, steps + [step], r)
  {
    var j: nat :| SavedAt(cfg, steps, j, r);
    assert (steps + [step])[..j] == steps[..j];
    assert SavedAt(cfg, steps + [step], j, r);
  }

  lemma ClearedLater(cfg: Config, steps: seq<Step>, step: Step, r: Room)
    requires WasCleared(cfg, steps, r)
    ensures WasCleared(cfg, steps + [step], r)
  {
    var k: nat :| ClearedAt(cfg, steps, k, r);
    assert (steps + [step])[..k] == steps[..k];
    assert ClearedAt(cfg, steps + [step], k, r);
  }

  lemma SavedNow(cfg: Config, steps: seq<Step>, step: Step, i: nat)
    requires Runs(cfg, INIT, steps) && Enabled(cfg, Final(cfg, INIT, steps), step) && step.Save? && step.ok
    requires i < |Final(cfg, INIT, steps).phase.rooms|
    ensures WasSaved(cfg, steps + [step], Final(cfg, INIT, steps).phase.rooms[i])
  {
    assert (steps + [step])[..|steps|] == steps;
    assert SavedAt(cfg, steps + [step], |steps|, Final(cfg, INIT, steps).phase.rooms[i]);
  }

  lemma ClearedNow(cfg: Config, steps: seq<Step>, step: Step, r: Room)
    requires Runs(cfg, INIT, steps) && Enabled(cfg, Final(cfg, INIT, steps), step) && step.Remove? && step.ok
    requires r in Final(cfg, INIT, steps).phase.rooms
    ensures WasCleared(cfg, steps + [step], r)
  {
    assert (steps + [step])[..|steps|] == steps;
    assert ClearedAt(cfg, steps + [step], |steps|, r);
  }

  lemma StepAccounted(cfg: Config, steps: seq<Step>, step: Step)
    requires Runs(cfg, INIT, steps) && Enabled(cfg, Final(cfg, INIT, steps), step)
    requires Accounted(cfg, Final(cfg, INIT, steps), steps)
            && MatchProtocol.Apart(RoomsOf(Final(cfg, INIT, steps).phase))
    requires Keyed(Final(cfg, INIT, steps).stored)
    ensures Accounted(cfg, Apply(cfg, Final(cfg, INIT, steps), step), steps + [step])
  {
    hide Runs, Final, WasSaved, WasCleared, AsMap, StoreRooms, Tickets, PairsFrom, MakeRooms, PlayersOf, Stale, Keep;
    var s := Final(cfg, INIT, steps);
    assert (steps + [step])[|steps|] == step;
    var t := Apply(cfg, s, step);
    forall id | id in t.saved ensures WasSaved(cfg, steps + [step], t.saved[id]) {
      if step.Save? && step.ok && id in AsMap(s.phase.rooms) {
        AsMapHas(s.phase.rooms);
        var i :| 0 <= i < |s.phase.rooms| && s.phase.rooms[i].id == id;
        SavedNow(cfg, steps, step, i);
      } else {
        SavedLater(cfg, steps, step, s.saved[id]);
      }
    }
    forall r | r in t.cleared ensures WasCleared(cfg, steps + [step], r) {
      if r in s.cleared { ClearedLater(cfg, steps, step, r); } else { ClearedNow(cfg, steps, step, r); }
    }
  }

  /** A room is stored under its own id. */
  predicate Keyed(stored: map<nat, Room>) {
    forall id :: id in stored ==> stored[id].id == id
  }

  lemma {:induction false} StoreKeeps(stored: map<nat, Room>, rooms: seq<Room>, applied: set<nat>)
    requires Keyed(stored)
    ensures Keyed(StoreRooms(stored, rooms, applied))
  {
    if rooms != [] { StoreKeeps(stored, rooms[..|rooms| - 1], applied); }
  }

  lemma {:induction false} RoomsKeyed(cfg: Config, steps: seq<Step>)
    requires Runs(cfg, INIT, steps)
    ensures Keyed(Final(cfg, INIT, steps).stored)
    decreases |steps|
  {
    hide Runs, Final;
    RunsNone(cfg);
    if steps != [] {
      hide StoreRooms, AsMap, Tickets, PairsFrom, MakeRooms, PlayersOf, Stale, Keep;
      var front, last := steps[..|steps| - 1], steps[|steps| - 1];
      RunsFront(cfg, INIT, steps);
      RoomsKeyed(cfg, front);
      var s := Final(cfg, INIT, front);
      if last.Save? { StoreKeeps(s.stored, s.phase.rooms, last.applied); }
    }
  }

  /** An expiry takes the one room whose key it is; a stop abandons the tick and nothing else. */
  lemma ExpiryTakesRoom(cfg: Config, s: State, id: nat)
    ensures Apply(cfg, s, Stop) == s.(phase := Resting)
    ensures var t := Apply(cfg, s, RoomExpires(id));
            && t.stored == s.stored - {id}
            && t == s.(stored := t.stored, expired := t.expired)
  {
  }

  lemma {:induction false} RunAccounted(cfg: Config, steps: seq<Step>)
    requires Runs(cfg, INIT, steps)
    ensures Accounted(cfg, Final(cfg, INIT, steps), steps)
    decreases |steps|
  {
    hide Runs, Final, Enabled, Apply, Inv, WasSaved, WasCleared;
    RunsNone(cfg);
    if steps != [] {
      var front, last := steps[..|steps| - 1], steps[|steps| - 1];
      RunsFront(cfg, INIT, steps);
      RunAccounted(cfg, front);
      RunKeeps(cfg, INIT, front);
      assert steps == front + [last];
      PendingApart(Final(cfg, INIT, front));
      RoomsKeyed(cfg, front);
      StepAccounted(cfg, front, last);
    }
  }

  lemma RemovedRoomSaved(s: State, r: Room)
    requires Inv(s) && s.phase.Removing? && r in s.phase.rooms
    ensures r.id in s.saved && s.saved[r.id] == r
  {
  }

  /**
   * In every run an announced room was stored by a save that succeeded, and after that a removal of its
   * players applied on both sides and was confirmed; it is still there unless its key expired in the run.
   */
  lemma AnnouncedAfterRemoval(cfg: Config, steps: seq<Step>, n: nat) returns (j: nat, k: nat)
    requires Runs(cfg, INIT, steps) && n < |Final(cfg, INIT, steps).bus|
    ensures j < k && ClearedAt(cfg, steps, k, Final(cfg, INIT, steps).bus[n].room)
    ensures SavedAt(cfg, steps, j, Final(cfg, INIT, steps).bus[n].room)
    ensures var s := Final(cfg, INIT, steps);
            var r := s.bus[n].room;
            RoomExpires(r.id) in steps || (r.id in s.stored && s.stored[r.id] == r)
  {
    hide Runs, Final, Inv;
    var r := Final(cfg, INIT, steps).bus[n].room;
    MatchSafety(cfg, steps);
    RunAccounted(cfg, steps);
    assert WasCleared(cfg, steps, r);
    k :| ClearedAt(cfg, steps, k, r);
    var before := steps[..k];
    RunsNone(cfg);
    RunKeeps(cfg, INIT, before);
    RemovedRoomSaved(Final(cfg, INIT, before), r);
    RunAccounted(cfg, before);
    assert WasSaved(cfg, before, r);
    j :| SavedAt(cfg, before, j, r);
    assert before[..j] == steps[..j];
  }
}
