/** The matchmaking queue and one match tick, run without interference. */
module MatchService {
  import opened Collections
  import opened ZSet
  import opened Matcher
  import opened MatchProtocol

  /** How a two-command pipeline went: what each command did, and whether the reply arrived. */
  datatype Pipe = Pipe(first: bool, second: bool, reply: bool) {
    predicate Ok() { first && second && reply }
  }

  /** How a single removal went; a lost reply leaves the caller with an error. */
  datatype Zrem = Replied | LostReply | Refused

  datatype Faults = Faults(
    evictRead: bool, evict: Pipe, snapshot: bool, applied: set<nat>, saveReply: bool, remove: Pipe, delivered: set<nat>)

  function Delivered(rooms: seq<Room>, delivered: set<nat>): seq<Room> {
    if rooms == [] then [] else
    Delivered(rooms[..|rooms| - 1], delivered)
    + (if rooms[|rooms| - 1].id in delivered then [rooms[|rooms| - 1]] else [])
  }

  /** One room per pair, each with a new id. */
  function NewRooms(pairs: seq<Match>, newId: nat -> nat): seq<Room> {
    seq(|pairs|, i requires 0 <= i < |pairs| => Room(newId(i), pairs[i].0, pairs[i].1))
  }

  /** The rooms a tick makes of a queue. */
  function RoomsFor(z: ZSet, cfg: Config, newId: nat -> nat): seq<Room> {
    NewRooms(PairsFrom(Tickets(z, cfg.batch), cfg.window, 0), newId)
  }

  function AfterEviction(z: ZSet, joined: map<nat, Option<int>>, cutoff: int, f: Faults): ZSet {
    Keep(z, Stale(joined, cutoff), !f.evictRead && f.evict.first)
  }

  function JoinedAfterEviction(joined: map<nat, Option<int>>, cutoff: int, f: Faults): map<nat, Option<int>> {
    Keep(joined, Stale(joined, cutoff), !f.evictRead && f.evict.second)
  }

  /** The player's join time is too old, or does not parse. */
  predicate IsStale(joined: map<nat, Option<int>>, p: nat, cutoff: int) {
    p in joined && (joined[p] == None || joined[p].value < cutoff)
  }

  predicate InRoom(rooms: seq<Room>, p: nat) {
    exists i :: 0 <= i < |rooms| && (p == rooms[i].a.player || p == rooms[i].b.player)
  }

  /** Whoever joined since the cutoff and is in none of the rooms keeps their entry. */
  ghost predicate Spares<T(!new)>(m: map<nat, T>, m': map<nat, T>, joined: map<nat, Option<int>>, cutoff: int,
                                  rooms: seq<Room>)
  {
    forall p :: p in m && !IsStale(joined, p, cutoff) && !InRoom(rooms, p) ==> p in m' && m'[p] == m[p]
  }

  /** Evicting and then taking out the rooms' players spares everybody else, and evicting spares no stale player. */
  lemma SparesFresh<T(!new)>(m: map<nat, T>, joined: map<nat, Option<int>>, cutoff: int, evict: bool, rooms: seq<Room>)
    ensures var e := Keep(m, Stale(joined, cutoff), evict);
            forall remove :: Spares(m, Keep(e, PlayersOf(rooms), remove), joined, cutoff, rooms)
    ensures var e := Keep(m, Stale(joined, cutoff), evict);
            evict ==> forall p, remove :: IsStale(joined, p, cutoff) ==> p !in Keep(e, PlayersOf(rooms), remove)
  {
    forall p ensures p in PlayersOf(rooms) <==> InRoom(rooms, p) {
      if InRoom(rooms, p) {
        var i :| 0 <= i < |rooms| && (p == rooms[i].a.player || p == rooms[i].b.player);
        assert p in rooms[i].Players();
      }
    }
  }

  predicate Stored(rooms: seq<Room>, applied: set<nat>) {
    forall i :: 0 <= i < |rooms| ==> rooms[i].id in applied
  }

  class Service {
    var zset: ZSet
    var joined: map<nat, Option<int>>
    var stored: map<nat, Room>
    var announced: seq<Room>

    constructor ()
      ensures zset == map[] && joined == map[] && stored == map[] && announced == []
    {
      zset, joined, stored, announced := map[], map[], map[], [];
    }

    /** ZADD and HSET in one pipeline. The two key sets stay equal unless a new player gets exactly one of them. */
    method Enqueue(player: nat, rank: int, now: int, pipe: Pipe) returns (ok: bool)
      modifies this`zset, this`joined
      ensures ok <==> pipe.Ok()
      ensures zset == if pipe.first then old(zset)[player := rank] else old(zset)
      ensures joined == if pipe.second then old(joined)[player := Some(now)] else old(joined)
      ensures old(zset.Keys == joined.Keys) ==>
                (zset.Keys == joined.Keys <==> pipe.first == pipe.second || player in old(zset))
    {
      if pipe.first { zset := zset[player := rank]; }
      if pipe.second { joined := joined[player := Some(now)]; }
      ok := pipe.Ok();
      assert player in old(zset) ==> zset.Keys == old(zset).Keys && old(joined).Keys <= joined.Keys;
    }

    /** Leaving reports whether the player was queued; the hash entry goes even if they were not. */
    method Remove(player: nat, zrem: Zrem, hdel: bool) returns (ok: bool, notQueued: bool)
      modifies this`zset, this`joined
      ensures ok <==> zrem.Replied? && player in old(zset)
      ensures notQueued <==> zrem.Replied? && player !in old(zset)
      ensures zset == (if zrem.Refused? then old(zset) else old(zset) - {player})
      ensures joined == if zrem.Replied? && hdel then old(joined) - {player} else old(joined)
    {
      ok, notQueued := false, false;
      if zrem.Refused? { return; }
      var removed := player in zset;
      zset := zset - {player};
      if zrem.LostReply? { return; }
      if hdel { joined := joined - {player}; }
      ok, notQueued := removed, !removed;
    }

    method RemoveBatch(players: seq<nat>, pipe: Pipe) returns (ok: bool)
      modifies this`zset, this`joined
      ensures ok <==> players == [] || pipe.Ok()
      ensures zset == if pipe.first then old(zset) - Elements(players) else old(zset)
      ensures joined == if pipe.second then old(joined) - Elements(players) else old(joined)
    {
      if |players| == 0 {
        assert Elements(players) == {};
        assert zset - {} == zset && joined - {} == joined;
        return true;
      }
      if pipe.first { zset := zset - Elements(players); }
      if pipe.second { joined := joined - Elements(players); }
      ok := pipe.Ok();
    }

    /** The lowest-ranked players in order, as many as the limit allows; nobody left out ranks before one listed. */
    method Snapshot(limit: int) returns (tickets: seq<Ticket>)
      ensures tickets == Tickets(zset, limit)
      ensures |tickets| == if limit > 0 then (if limit < |zset| then limit else |zset|)
                           else if |zset| + limit > 0 then |zset| + limit else 0
      ensures forall i :: 0 <= i < |tickets| ==> tickets[i].player in zset && tickets[i].rank == zset[tickets[i].player]
      ensures forall i, j :: 0 <= i < j < |tickets| ==> Before(tickets[i], tickets[j])
      ensures forall p, i :: 0 <= i < |tickets| && p in zset && (forall t :: t in tickets ==> t.player != p) ==>
                Before(tickets[i], Ticket(p, zset[p]))
    {
      TicketsAreLowest(zset, limit);
      hide Tickets, Slice, Sorted;
      var zs := Slice(Sorted(zset, zset.Keys), 0, limit - 1);
      ghost var all := Tickets(zset, limit);
      TicketsListed(zset, limit);
      tickets := [];
      for i := 0 to |zs|
        invariant tickets == all[..i]
      {
        tickets := tickets + [Ticket(zs[i], zset[zs[i]])];
      }
    }

    /** Evicts exactly the players whose join time is too old or does not parse. */
    method EvictStale(cutoff: int, readFails: bool, pipe: Pipe) returns (evicted: seq<nat>, ok: bool)
      modifies this`zset, this`joined
      ensures readFails ==> zset == old(zset) && joined == old(joined) && evicted == [] && !ok
      ensures !readFails ==> Elements(evicted) == Stale(old(joined), cutoff)
      ensures !readFails ==> forall p :: p in evicted <==>
                p in old(joined) && (old(joined)[p] == None || old(joined)[p].value < cutoff)
      ensures Distinct(evicted)
      ensures zset == if !readFails && pipe.first then old(zset) - Elements(evicted) else old(zset)
      ensures joined == if !readFails && pipe.second then old(joined) - Elements(evicted) else old(joined)
      ensures ok <==> !readFails && (evicted == [] || pipe.Ok())
    {
      evicted, ok := [], false;
      if readFails { return; }
      var todo := joined.Keys;
      while todo != {}
        invariant todo <= joined.Keys && zset == old(zset) && joined == old(joined)
        invariant Elements(evicted) == Stale(joined, cutoff) - todo && Distinct(evicted)
        decreases todo
      {
        var p :| p in todo;
        ghost var before := evicted;
        if joined[p].None? || joined[p].value < cutoff {
          assert p !in Elements(before);
          evicted := evicted + [p];
          assert Elements(evicted) == Elements(before) + {p};
        }
        todo := todo - {p};
      }
      assert forall p :: p in evicted <==> p in Elements(evicted);
      ok := RemoveBatch(evicted, pipe);
    }

    method SaveMany(rooms: seq<Room>, applied: set<nat>, reply: bool) returns (ok: bool)
      modifies this`stored
      ensures stored == StoreRooms(old(stored), rooms, applied)
      ensures ok <==> rooms == [] || (reply && Stored(rooms, applied))
    {
      if |rooms| == 0 { return true; }
      for i := 0 to |rooms|
        invariant stored == StoreRooms(old(stored), rooms[..i], applied)
      {
        assert rooms[..i + 1][..i] == rooms[..i];
        if rooms[i].id in applied { stored := stored[rooms[i].id := rooms[i]]; }
      }
      assert rooms[..|rooms|] == rooms;
      ok := reply && forall i :: 0 <= i < |rooms| ==> rooms[i].id in applied;
    }

    /** Store, then dequeue, then announce; a failure leaves out everything that comes after it. */
    method CreateRooms(pairs: seq<Match>, newId: nat -> nat, f: Faults) returns (ok: bool)
      requires pairs != []
      modifies this
      ensures var rooms := NewRooms(pairs, newId);
              var saved := f.saveReply && Stored(rooms, f.applied);
              && stored == StoreRooms(old(stored), rooms, f.applied)
              && zset == Keep(old(zset), PlayersOf(rooms), saved && f.remove.first)
              && joined == Keep(old(joined), PlayersOf(rooms), saved && f.remove.second)
              && announced == old(announced) + (if saved && f.remove.Ok() then Delivered(rooms, f.delivered) else [])
              && (ok <==> saved && f.remove.Ok())
    {
      hide StoreRooms, Stored;
      ghost var all := NewRooms(pairs, newId);
      var rooms: seq<Room>, dequeue: seq<nat> := [], [];
      for i := 0 to |pairs|
        modifies {}
        invariant rooms == all[..i] && Elements(dequeue) == PlayersOf(rooms) && |dequeue| == 2 * i
      {
        var room := Room(newId(i), pairs[i].0, pairs[i].1);
        DequeueBoth(rooms, dequeue, room);
        rooms := rooms + [room];
        dequeue := dequeue + [room.a.player, room.b.player];
      }
      assert rooms == all;
      ok := SaveMany(rooms, f.applied, f.saveReply);
      if !ok { return; }
      ok := RemoveBatch(dequeue, f.remove);
      if !ok { return; }
      for i := 0 to |rooms|
        invariant announced == old(announced) + Delivered(rooms[..i], f.delivered)
        invariant zset == Keep(old(zset), PlayersOf(rooms), f.remove.first)
        invariant joined == Keep(old(joined), PlayersOf(rooms), f.remove.second)
        invariant stored == StoreRooms(old(stored), rooms, f.applied)
      {
        assert rooms[..i + 1][..i] == rooms[..i];
        if rooms[i].id in f.delivered { announced := announced + [rooms[i]]; }
      }
      assert rooms[..|rooms|] == rooms;
    }

    /** Snapshot, pair and create: what one tick does after evicting. */
    method PairQueue(cfg: Config, newId: nat -> nat, f: Faults) returns (matches: nat)
      modifies this
      ensures var rooms := RoomsFor(old(zset), cfg, newId);
              var saved := f.saveReply && Stored(rooms, f.applied);
              && matches == |rooms| && stored == StoreRooms(old(stored), rooms, f.applied)
              && zset == Keep(old(zset), PlayersOf(rooms), saved && f.remove.first)
              && joined == Keep(old(joined), PlayersOf(rooms), saved && f.remove.second)
              && announced == old(announced) + (if saved && f.remove.Ok() then Delivered(rooms, f.delivered) else [])
    {
      var tickets := Snapshot(cfg.batch);
      var pairs := Pair(tickets, cfg.window);
      matches := |pairs|;
      if |pairs| > 0 {
        var _ := CreateRooms(pairs, newId, f);
      } else {
        assert PlayersOf(NewRooms(pairs, newId)) == {} && zset - {} == zset && joined - {} == joined;
      }
    }

    /**
     * One tick: evict, then pair what is queued. Whoever joined since the cutoff and is in no room stays
     * queued. If the whole queue is in the batch and the pairs were taken out, the queue that remains has
     * nobody left to match.
     */
    method MatchOnce(cfg: Config, cutoff: int, newId: nat -> nat, f: Faults) returns (matches: nat, ok: bool)
      modifies this
      ensures var z := AfterEviction(old(zset), old(joined), cutoff, f);
              var rooms := RoomsFor(z, cfg, newId);
              var saved := f.saveReply && Stored(rooms, f.applied);
              && ok == !f.snapshot && matches == (if ok then |rooms| else 0)
              && stored == (if ok then StoreRooms(old(stored), rooms, f.applied) else old(stored))
              && joined == Keep(JoinedAfterEviction(old(joined), cutoff, f), PlayersOf(rooms),
                                ok && saved && f.remove.second)
              && zset == Keep(z, PlayersOf(rooms), ok && saved && f.remove.first)
              && announced == old(announced)
                              + (if ok && saved && f.remove.Ok() then Delivered(rooms, f.delivered) else [])
              && (ok && saved && f.remove.first && |z| <= cfg.batch ==> RoomsFor(zset, cfg, newId) == [])
              && Spares(old(zset), zset, old(joined), cutoff, rooms)
              && Spares(old(joined), joined, old(joined), cutoff, rooms)
              && (!f.evictRead && f.evict.first ==> forall p :: IsStale(old(joined), p, cutoff) ==> p !in zset)
              && (!f.evictRead && f.evict.second ==> forall p :: IsStale(old(joined), p, cutoff) ==> p !in joined)
    {
      hide RoomsFor, PlayersOf, Delivered, Stored;
      var _, _ := EvictStale(cutoff, f.evictRead, f.evict);
      ghost var z := AfterEviction(old(zset), old(joined), cutoff, f);
      assert zset == z;
      ghost var rooms := RoomsFor(z, cfg, newId);
      SparesFresh(old(zset), old(joined), cutoff, !f.evictRead && f.evict.first, rooms);
      SparesFresh(old(joined), old(joined), cutoff, !f.evictRead && f.evict.second, rooms);
      hide Spares, IsStale, Keep, AfterEviction, JoinedAfterEviction, Stale;
      if f.snapshot { return 0, false; }
      matches := PairQueue(cfg, newId, f);
      ok := true;
      if |z| <= cfg.batch {
        TickLeavesNoPair(z, cfg, newId);
      }
    }
  }

  lemma DequeueBoth(rooms: seq<Room>, dequeue: seq<nat>, room: Room)
    requires Elements(dequeue) == PlayersOf(rooms)
    ensures Elements(dequeue + [room.a.player, room.b.player]) == PlayersOf(rooms + [room])
  {
    var more := rooms + [room];
    assert forall i :: 0 <= i < |rooms| ==> more[i] == rooms[i];
    assert more[|rooms|] == room;
    forall p ensures p in PlayersOf(more) <==> p in PlayersOf(rooms) || p in room.Players() {}
    forall p ensures p in Elements(dequeue + [room.a.player, room.b.player])
      <==> p in Elements(dequeue) || p in room.Players() {}
  }

  // --- An undisturbed tick leaves nothing to match ---------------------------------------------

  function At(all: seq<nat>, gaps: seq<nat>): seq<nat>
    requires forall k :: 0 <= k < |gaps| ==> gaps[k] < |all|
  {
    seq(|gaps|, k requires 0 <= k < |gaps| => all[gaps[k]])
  }

  /** Dropping some members of a listing leaves a listing of the rest. */
  lemma SurvivorsSorted(z: ZSet, all: seq<nat>, gaps: seq<nat>, taken: set<nat>)
    requires IsSorted(z, z.Keys, all)
    requires forall k :: 0 <= k < |gaps| ==> gaps[k] < |all|
    requires forall k, l :: 0 <= k < l < |gaps| ==> gaps[k] < gaps[l]
    requires forall j :: 0 <= j < |all| ==> (all[j] in taken <==> j !in gaps)
    ensures IsSorted(z - taken, (z - taken).Keys, At(all, gaps))
  {
    var y, rest := z - taken, At(all, gaps);
    forall x | x in y ensures x in rest {
      var j :| 0 <= j < |all| && all[j] == x;
      var k :| 0 <= k < |gaps| && gaps[k] == j;
      assert rest[k] == x;
    }
    forall k, l | 0 <= k < l < |rest| ensures Below(y, rest[k], rest[l]) {
      assert Below(z, all[gaps[k]], all[gaps[l]]);
    }
  }

  /** A tick over the whole queue takes exactly the paired players, so the next snapshot is the waiting list. */
  lemma RemainderIsWaiting(z: ZSet, window: int, limit: int, taken: set<nat>)
    requires |z| <= limit
    requires var ts := Tickets(z, limit);
             forall j :: 0 <= j < |ts| ==> (ts[j].player in taken <==> Taken(Starts(ts, window, 0), j))
    ensures Tickets(z - taken, limit) == WaitingFrom(Tickets(z, limit), window, 0)
  {
    hide Tickets, Starts, WaitingFrom, Gaps, Taken, IsSorted, Sorted;
    var all, ts := Sorted(z, z.Keys), Tickets(z, limit);
    SortedIsSorted(z, z.Keys);
    WholeQueue(z, limit);
    WaitingAt(ts, window, 0);
    var gaps, y := Gaps(ts, window, 0), z - taken;
    forall j | 0 <= j < |all| ensures all[j] in taken <==> j !in gaps {
      TakenOrWaiting(ts, window, 0, j);
      assert ts[j].player == all[j];
    }
    SurvivorsSorted(z, all, gaps, taken);
    SortedUnique(y, y.Keys, At(all, gaps));
    assert y.Keys <= z.Keys;
    SubsetSize(y.Keys, z.Keys);
    WholeQueue(y, limit);
  }

  lemma WholeQueue(z: ZSet, limit: int)
    requires |z| <= limit
    ensures var all, ts := Sorted(z, z.Keys), Tickets(z, limit);
            |ts| == |all| && forall i :: 0 <= i < |ts| ==> all[i] in z && ts[i] == Ticket(all[i], z[all[i]])
  {
    var all := Sorted(z, z.Keys);
    SortedIsSorted(z, z.Keys);
    assert |z.Keys| == |z|;
    assert Slice(all, 0, limit - 1) == all;
  }

  predicate OncePerPlayer(ts: seq<Ticket>) {
    forall i, j :: 0 <= i < |ts| && 0 <= j < |ts| && ts[i].player == ts[j].player ==> i == j
  }

  /** The players a tick takes are those at paired positions. */
  lemma TakenPlayers(ts: seq<Ticket>, window: int, rooms: seq<Room>, j: nat)
    requires OncePerPlayer(ts) && j < |ts| && |rooms| == |Starts(ts, window, 0)|
    requires forall k :: 0 <= k < |rooms| ==>
               var i := Starts(ts, window, 0)[k]; i + 1 < |ts| && rooms[k].a == ts[i] && rooms[k].b == ts[i + 1]
    ensures ts[j].player in PlayersOf(rooms) <==> Taken(Starts(ts, window, 0), j)
  {
    var st := Starts(ts, window, 0);
    if Taken(st, j) {
      var i := if j in st then j else j - 1;
      var k :| 0 <= k < |st| && st[k] == i;
      assert ts[j].player in rooms[k].Players();
    } else {
      forall k | 0 <= k < |rooms| ensures ts[j].player !in rooms[k].Players() {
        assert st[k] in st;
        assert st[k] != j && st[k] + 1 != j;
      }
    }
  }

  lemma RoomsTake(z: ZSet, cfg: Config, newId: nat -> nat, j: nat)
    requires j < |Tickets(z, cfg.batch)|
    ensures var ts := Tickets(z, cfg.batch);
            ts[j].player in PlayersOf(RoomsFor(z, cfg, newId)) <==> Taken(Starts(ts, cfg.window, 0), j)
  {
    hide Tickets, Starts, Taken, PairsFrom, PlayersOf, OncePerPlayer;
    var ts, rooms := Tickets(z, cfg.batch), RoomsFor(z, cfg, newId);
    TicketsOnce(z, cfg.batch);
    PairsAt(ts, cfg.window, 0);
    TakenPlayers(ts, cfg.window, rooms, j);
  }

  lemma TicketsOnce(z: ZSet, limit: int)
    ensures OncePerPlayer(Tickets(z, limit))
  {
    hide Tickets, ByRank;
    TicketsSorted(z, limit);
  }

  lemma TickLeavesNoPair(z: ZSet, cfg: Config, newId: nat -> nat)
    requires |z| <= cfg.batch
    ensures RoomsFor(z - PlayersOf(RoomsFor(z, cfg, newId)), cfg, newId) == []
  {
    hide Tickets, Starts, Taken, WaitingFrom, PairsFrom, PlayersOf, ByRank;
    var ts, rooms := Tickets(z, cfg.batch), RoomsFor(z, cfg, newId);
    TicketsSorted(z, cfg.batch);
    forall j | 0 <= j < |ts| ensures ts[j].player in PlayersOf(rooms) <==> Taken(Starts(ts, cfg.window, 0), j) {
      RoomsTake(z, cfg, newId, j);
    }
    RemainderIsWaiting(z, cfg.window, cfg.batch, PlayersOf(rooms));
    WaitingIsStable(ts, cfg.window);
  }
}
