/**
 * One match loop against concurrent joins and leaves. A tick evicts, snapshots and pairs, stores
 * the rooms, removes the paired players, and announces each room; every pipeline may apply any
 * part of its commands, may lose its reply, and the process may stop between any two steps.
 */
module MatchProtocol {
  import opened Collections
  import opened ZSet
  import opened Matcher

  datatype Room = Room(id: nat, a: Ticket, b: Ticket) {
    function Players(): set<nat> { {a.player, b.player} }
  }

  datatype Found = Found(tick: nat, room: Room)

  /** What the match loop is about to do. */
  datatype Phase =
    | Resting
    | Evicting(stale: set<nat>)
    | Saving(rooms: seq<Room>)
    | Removing(rooms: seq<Room>)
    | Announcing(rooms: seq<Room>)

  datatype State = State(
    zset: ZSet,
    joined: map<nat, Option<int>>,   // the hash; None is a value that does not parse
    stored: map<nat, Room>,          // room keys now in Redis
    phase: Phase,
    tick: nat,
    bus: seq<Found>,
    expired: set<Room>,              // rooms that were stored and whose key has gone since
    joins: multiset<nat>,            // times each player entered the queue
    used: set<nat>,                  // room ids handed out
    saved: map<nat, Room>,           // rooms of batches that were stored in full
    dequeued: set<Room>,             // rooms whose players a tick took out of the queue
    cleared: set<Room>)              // rooms whose removal pipeline reported success

  const INIT := State(map[], map[], map[], Resting, 0, [], {}, multiset{}, {}, map[], {}, {})

  datatype Config = Config(window: int, batch: int)

  datatype Step =
    | Join(player: nat, rank: int, now: int, zadd: bool, hset: bool)
    | Leave(player: nat, zrem: bool, hdel: bool)
    | RoomExpires(room: nat)
    | EvictRead(cutoff: int)
    | EvictRemove(zrem: bool, hdel: bool)
    | Snapshot(ids: seq<nat>)
    | Save(applied: set<nat>, ok: bool)
    | Remove(zrem: bool, hdel: bool, ok: bool)
    | Announce(delivered: bool)
    | Stop

  function Tickets(z: ZSet, limit: int): seq<Ticket> {
    SortedIsSorted(z, z.Keys);
    SliceMembers(Sorted(z, z.Keys), 0, limit - 1);
    var members := Slice(Sorted(z, z.Keys), 0, limit - 1);
    seq(|members|, i requires 0 <= i < |members| => Ticket(members[i], z[members[i]]))
  }

  function MakeRooms(pairs: seq<Match>, ids: seq<nat>): seq<Room>
    requires |ids| == |pairs|
  {
    seq(|pairs|, i requires 0 <= i < |pairs| => Room(ids[i], pairs[i].0, pairs[i].1))
  }

  function PlayersOf(rooms: seq<Room>): set<nat> {
    set i, p | 0 <= i < |rooms| && p in rooms[i].Players() :: p
  }

  function Stale(joined: map<nat, Option<int>>, cutoff: int): set<nat> {
    set p | p in joined && (joined[p].None? || joined[p].value < cutoff)
  }

  function Keep<T>(m: map<nat, T>, drop: set<nat>, applied: bool): map<nat, T> {
    if applied then m - drop else m
  }

  function StoreRooms(stored: map<nat, Room>, rooms: seq<Room>, applied: set<nat>): map<nat, Room> {
    if rooms == [] then stored else
    var rest := StoreRooms(stored, rooms[..|rooms| - 1], applied);
    var r := rooms[|rooms| - 1];
    if r.id in applied then rest[r.id := r] else rest
  }

  predicate Enabled(cfg: Config, s: State, step: Step) {
    match step
    case EvictRead(_) => s.phase.Resting?
    case EvictRemove(_, _) => s.phase.Evicting?
    case Snapshot(ids) =>
      && s.phase.Resting? && |ids| == |PairsFrom(Tickets(s.zset, cfg.batch), cfg.window, 0)|
      && Distinct(ids) && (forall id :: id in ids ==> id !in s.used)
    case Save(applied, ok) => s.phase.Saving?
      && (ok ==> forall i :: 0 <= i < |s.phase.rooms| ==> s.phase.rooms[i].id in applied)
    case Remove(zrem, hdel, ok) => s.phase.Removing? && (ok ==> zrem && hdel)
    case Announce(_) => s.phase.Announcing? && s.phase.rooms != []
    case _ => true
  }

  function AsMap(rooms: seq<Room>): map<nat, Room> {
    StoreRooms(map[], rooms, set i | 0 <= i < |rooms| :: rooms[i].id)
  }

  function Apply(cfg: Config, s: State, step: Step): State
    requires Enabled(cfg, s, step)
  {
    match step
    case Join(p, rank, now, zadd, hset) =>
      s.(zset := if zadd then s.zset[p := rank] else s.zset,
         joined := if hset then s.joined[p := Some(now)] else s.joined,
         joins := if zadd && p !in s.zset then s.joins + multiset{p} else s.joins)
    case Leave(p, zrem, hdel) =>
      s.(zset := Keep(s.zset, {p}, zrem), joined := Keep(s.joined, {p}, hdel))
    case RoomExpires(id) =>
      if id in s.stored then s.(stored := s.stored - {id}, expired := s.expired + {s.stored[id]}) else s
    case EvictRead(cutoff) => s.(phase := Evicting(Stale(s.joined, cutoff)))
    case EvictRemove(zrem, hdel) =>
      s.(zset := Keep(s.zset, s.phase.stale, zrem), joined := Keep(s.joined, s.phase.stale, hdel), phase := Resting)
    case Snapshot(ids) =>
      var rooms := MakeRooms(PairsFrom(Tickets(s.zset, cfg.batch), cfg.window, 0), ids);
      s.(phase := if rooms == [] then Resting else Saving(rooms), tick := s.tick + 1, used := s.used + Elements(ids))
    case Save(applied, ok) =>
      var rooms := s.phase.rooms;
      s.(stored := StoreRooms(s.stored, rooms, applied),
         saved := if ok then s.saved + AsMap(rooms) else s.saved,
         phase := if ok then Removing(rooms) else Resting)
    case Remove(zrem, hdel, ok) =>
      var rooms := s.phase.rooms;
      s.(zset := Keep(s.zset, PlayersOf(rooms), zrem), joined := Keep(s.joined, PlayersOf(rooms), hdel),
         dequeued := if zrem then s.dequeued + Elements(rooms) else s.dequeued,
         cleared := if ok then s.cleared + Elements(rooms) else s.cleared,
         phase := if ok then Announcing(rooms) else Resting)
    case Announce(delivered) =>
      var rooms := s.phase.rooms;
      s.(bus := if delivered then s.bus + [Found(s.tick, rooms[0])] else s.bus,
         phase := if |rooms| == 1 then Resting else Announcing(rooms[1..]))
    case Stop => s.(phase := Resting)
  }

  predicate Runs(cfg: Config, s: State, steps: seq<Step>)
    decreases |steps|
  {
    steps != [] ==> Enabled(cfg, s, steps[0]) && Runs(cfg, Apply(cfg, s, steps[0]), steps[1..])
  }

  function Final(cfg: Config, s: State, steps: seq<Step>): State
    requires Runs(cfg, s, steps)
    decreases |steps|
  {
    if steps == [] then s else Final(cfg, Apply(cfg, s, steps[0]), steps[1..])
  }

  // --- Invariant -------------------------------------------------------------------------------

  /** How many MatchFound events name the player. */
  function Named(bus: seq<Found>, p: nat): nat {
    if bus == [] then 0 else
    Named(bus[..|bus| - 1], p) + (if p in bus[|bus| - 1].room.Players() then 1 else 0)
  }

  predicate Apart(rooms: seq<Room>) {
    && (forall i :: 0 <= i < |rooms| ==> rooms[i].a.player != rooms[i].b.player)
    && (forall i, j :: 0 <= i < j < |rooms| ==> rooms[i].Players() !! rooms[j].Players() && rooms[i].id != rooms[j].id)
  }

  function RoomsOf(phase: Phase): seq<Room> {
    match phase
    case Saving(rooms) => rooms case Removing(rooms) => rooms case Announcing(rooms) => rooms case _ => []
  }

  /** A queued or about-to-be-named player has a queue addition no event has used yet. */
  predicate Budget(s: State, p: nat) {
    && Named(s.bus, p) + (if p in s.zset then 1 else 0)
       + (if s.phase.Announcing? && p in PlayersOf(s.phase.rooms) then 1 else 0) <= s.joins[p]
    && (p in PlayersOf(RoomsOf(s.phase)) ==> Named(s.bus, p) + 1 <= s.joins[p])
  }

  predicate SavedFirst(saved: map<nat, Room>, dequeued: set<Room>, cleared: set<Room>, phase: Phase, bus: seq<Found>) {
    && (forall r :: r in dequeued ==> r.id in saved && saved[r.id] == r)
    && cleared <= dequeued
    && (phase.Removing? ==> forall i :: 0 <= i < |phase.rooms| ==>
        phase.rooms[i].id in saved && saved[phase.rooms[i].id] == phase.rooms[i])
    && (phase.Announcing? ==> forall i :: 0 <= i < |phase.rooms| ==> phase.rooms[i] in cleared)
    && (forall k :: 0 <= k < |bus| ==> bus[k].room in cleared)
  }

  /** The room is in Redis under its id, or was and has expired. */
  predicate WasStored(stored: map<nat, Room>, expired: set<Room>, r: Room) {
    (r.id in stored && stored[r.id] == r) || r in expired
  }

  /** Every room counted as saved was written to Redis. */
  predicate Kept(stored: map<nat, Room>, expired: set<Room>, saved: map<nat, Room>) {
    forall id :: id in saved ==> saved[id].id == id && WasStored(stored, expired, saved[id])
  }

  predicate OncePerTick(bus: seq<Found>, tick: nat, phase: Phase) {
    && (forall k :: 0 <= k < |bus| ==> bus[k].tick <= tick)
    && (forall i, j :: 0 <= i < j < |bus| && bus[i].tick == bus[j].tick ==>
        bus[i].room.Players() !! bus[j].room.Players())
    && (forall k, i :: 0 <= k < |bus| && bus[k].tick == tick && 0 <= i < |RoomsOf(phase)| ==>
          bus[k].room.Players() !! RoomsOf(phase)[i].Players())
    && ((phase.Saving? || phase.Removing?) ==> forall k :: 0 <= k < |bus| ==> bus[k].tick < tick)
  }

  predicate IdsUsed(saved: map<nat, Room>, used: set<nat>, phase: Phase) {
    && saved.Keys <= used
    && (forall i :: 0 <= i < |RoomsOf(phase)| ==> RoomsOf(phase)[i].id in used)
    && (phase.Saving? ==> forall i :: 0 <= i < |phase.rooms| ==> phase.rooms[i].id !in saved)
  }

  ghost predicate Inv(s: State) {
    && (forall p :: Budget(s, p))
    && Apart(RoomsOf(s.phase))
    && SavedFirst(s.saved, s.dequeued, s.cleared, s.phase, s.bus)
    && OncePerTick(s.bus, s.tick, s.phase)
    && IdsUsed(s.saved, s.used, s.phase)
    && Kept(s.stored, s.expired, s.saved)
  }

  // --- What a snapshot pairs --------------------------------------------------------------------

  lemma SlicePrefix<T>(r: seq<T>, stop: int)
    ensures exists n :: 0 <= n <= |r| && Slice(r, 0, stop) == r[..n]
  {
    var hi := if stop >= 0 then stop else stop + |r|;
    var n := if 0 > hi || 0 >= |r| then 0 else if hi >= |r| then |r| else hi + 1;
    assert Slice(r, 0, stop) == r[..n];
  }

  lemma TicketsListed(z: ZSet, limit: int)
    ensures var zs, all := Slice(Sorted(z, z.Keys), 0, limit - 1), Tickets(z, limit);
            |all| == |zs| && forall i :: 0 <= i < |zs| ==> zs[i] in z && all[i] == Ticket(zs[i], z[zs[i]])
  {
    hide Slice, Sorted, IsSorted;
    SliceMembers(Sorted(z, z.Keys), 0, limit - 1);
    SortedWithin(z, z.Keys);
  }

  /** A range from the front of a sorted listing is in order. */
  lemma SliceBelow(z: ZSet, limit: int)
    ensures var zs := Slice(Sorted(z, z.Keys), 0, limit - 1);
            forall i, j :: 0 <= i < j < |zs| ==> zs[i] in z && zs[j] in z && Below(z, zs[i], zs[j])
  {
    hide Sorted, Slice;
    var all := Sorted(z, z.Keys);
    SortedIsSorted(z, z.Keys);
    SlicePrefix(all, limit - 1);
    var n :| 0 <= n <= |all| && Slice(all, 0, limit - 1) == all[..n];
  }

  /** Tickets are distinct queued players in rank order. */
  lemma TicketsSorted(z: ZSet, limit: int)
    ensures var ts := Tickets(z, limit);
            && ByRank(ts)
            && (forall i :: 0 <= i < |ts| ==> ts[i].player in z && ts[i].rank == z[ts[i].player])
            && (forall i, j :: 0 <= i < j < |ts| ==> ts[i].player != ts[j].player)
  {
    hide Tickets, Slice, Sorted;
    TicketsListed(z, limit);
    SliceBelow(z, limit);
    var ts, zs := Tickets(z, limit), Slice(Sorted(z, z.Keys), 0, limit - 1);
    forall i, j | 0 <= i < j < |ts| ensures ts[i].rank <= ts[j].rank && ts[i].player != ts[j].player {
      assert Below(z, zs[i], zs[j]);
    }
  }

  /** How many members a range from the front with this limit lists; Redis counts a negative end from the back. */
  function Listed(n: nat, limit: int): nat {
    if limit > 0 then (if limit < n then limit else n) else if n + limit > 0 then n + limit else 0
  }

  lemma FrontSlice<T>(r: seq<T>, limit: int)
    ensures Listed(|r|, limit) <= |r| && Slice(r, 0, limit - 1) == r[..Listed(|r|, limit)]
  {
  }

  /** Ranked before: by rank, and by player among equals. */
  predicate Before(a: Ticket, b: Ticket) {
    a.rank < b.rank || (a.rank == b.rank && a.player < b.player)
  }

  /** A snapshot lists the lowest-ranked players, in order, as many as the limit allows. */
  lemma TicketsAreLowest(z: ZSet, limit: int)
    ensures var ts := Tickets(z, limit);
            && |ts| == Listed(|z|, limit)
            && (forall i :: 0 <= i < |ts| ==> ts[i].player in z && ts[i].rank == z[ts[i].player])
            && (forall i, j :: 0 <= i < j < |ts| ==> Before(ts[i], ts[j]))
            && (forall p, i :: p in z && (forall j :: 0 <= j < |ts| ==> ts[j].player != p) && 0 <= i < |ts| ==>
                  Before(ts[i], Ticket(p, z[p])))
  {
    hide Tickets, Slice, Sorted, Listed;
    var all, ts := Sorted(z, z.Keys), Tickets(z, limit);
    TicketsListed(z, limit);
    FrontSlice(all, limit);
    SortedIsSorted(z, z.Keys);
    assert |z.Keys| == |z|;
    assert forall j {:trigger all[j]} :: 0 <= j < |ts| ==> all[j] == ts[j].player;
    forall p, i | p in z && (forall j :: 0 <= j < |ts| ==> ts[j].player != p) && 0 <= i < |ts|
      ensures Before(ts[i], Ticket(p, z[p])) {
      var k :| 0 <= k < |all| && all[k] == p;
      assert Below(z, all[i], all[k]);
    }
    forall i, j | 0 <= i < j < |ts| ensures Before(ts[i], ts[j]) { assert Below(z, all[i], all[j]); }
  }

  lemma RoomsFromTickets(ts: seq<Ticket>, window: int, ids: seq<nat>)
    requires forall i, j :: 0 <= i < j < |ts| ==> ts[i].player != ts[j].player
    requires |ids| == |PairsFrom(ts, window, 0)| && Distinct(ids)
    ensures var rooms := MakeRooms(PairsFrom(ts, window, 0), ids);
            && Apart(rooms)
            && (forall i :: 0 <= i < |rooms| ==> rooms[i].id == ids[i] && rooms[i].a in ts && rooms[i].b in ts)
  {
    PairsAt(ts, window, 0);
    var st := Starts(ts, window, 0);
    var rooms := MakeRooms(PairsFrom(ts, window, 0), ids);
    assert forall i :: 0 <= i < |rooms| ==> rooms[i].a == ts[st[i]] && rooms[i].b == ts[st[i] + 1];
    forall i, j | 0 <= i < j < |rooms| ensures rooms[i].Players() !! rooms[j].Players() {
      assert st[i] + 2 <= st[j];
    }
  }

  lemma SnapshotRooms(cfg: Config, z: ZSet, ids: seq<nat>)
    requires |ids| == |PairsFrom(Tickets(z, cfg.batch), cfg.window, 0)| && Distinct(ids)
    ensures var rooms := MakeRooms(PairsFrom(Tickets(z, cfg.batch), cfg.window, 0), ids);
            && Apart(rooms) && PlayersOf(rooms) <= z.Keys
            && (forall i :: 0 <= i < |rooms| ==> rooms[i].id == ids[i])
  {
    TicketsSorted(z, cfg.batch);
    RoomsFromTickets(Tickets(z, cfg.batch), cfg.window, ids);
  }

  lemma {:induction false} StoreRoomsHas(stored: map<nat, Room>, rooms: seq<Room>, applied: set<nat>)
    requires forall i, j :: 0 <= i < j < |rooms| ==> rooms[i].id != rooms[j].id
    ensures var m := StoreRooms(stored, rooms, applied);
            && (forall i :: 0 <= i < |rooms| && rooms[i].id in applied ==>
                rooms[i].id in m && m[rooms[i].id] == rooms[i])
            && (forall id :: id in m ==> id in stored || exists i :: 0 <= i < |rooms| && rooms[i].id == id)
            && (forall id :: id in stored && (forall i :: 0 <= i < |rooms| ==> rooms[i].id != id) ==>
                id in m && m[id] == stored[id])
  {
    if rooms != [] {
      StoreRoomsHas(stored, rooms[..|rooms| - 1], applied);
    }
  }

  // --- Preservation ------------------------------------------------------------------------------

  lemma {:induction false} NamedAppend(bus: seq<Found>, f: Found, p: nat)
    ensures Named(bus + [f], p) == Named(bus, p) + (if p in f.room.Players() then 1 else 0)
  {
    assert (bus + [f])[..|bus|] == bus;
  }

  lemma BudgetStep(cfg: Config, s: State, step: Step, p: nat)
    requires Inv(s) && Enabled(cfg, s, step)
    ensures Budget(Apply(cfg, s, step), p)
  {
    hide Tickets, PairsFrom, MakeRooms, StoreRooms, AsMap, Stale, SavedFirst, OncePerTick, IdsUsed;
    assert Budget(s, p);
    match step
    case Snapshot(ids) => SnapshotRooms(cfg, s.zset, ids);
    case Announce(delivered) => AnnounceBudget(cfg, s, delivered, p);
    case _ =>
  }

  lemma AnnounceBudget(cfg: Config, s: State, delivered: bool, p: nat)
    requires Apart(RoomsOf(s.phase)) && Budget(s, p) && Enabled(cfg, s, Announce(delivered))
    ensures Budget(Apply(cfg, s, Announce(delivered)), p)
  {
    hide Tickets, PairsFrom, MakeRooms, StoreRooms, AsMap, Stale, PlayersOf, Named, Keep;
    NamedAppend(s.bus, Found(s.tick, s.phase.rooms[0]), p);
    HeadApart(s.phase.rooms, p);
    NoPlayers(p);
  }

  lemma NoPlayers(p: nat)
    ensures p !in PlayersOf([])
  {
  }

  lemma HeadApart(rooms: seq<Room>, p: nat)
    requires rooms != [] && Apart(rooms)
    ensures p in PlayersOf(rooms) <==> p in rooms[0].Players() || p in PlayersOf(rooms[1..])
    ensures p in rooms[0].Players() ==> p !in PlayersOf(rooms[1..])
  {
    assert forall i :: 0 <= i < |rooms| - 1 ==> rooms[1..][i] == rooms[i + 1];
  }

  lemma ApartStep(cfg: Config, s: State, step: Step)
    requires Apart(RoomsOf(s.phase)) && Enabled(cfg, s, step)
    ensures Apart(RoomsOf(Apply(cfg, s, step).phase))
  {
    if step.Snapshot? { SnapshotRooms(cfg, s.zset, step.ids); }
  }

  lemma SavedStep(cfg: Config, s: State, step: Step)
    requires Inv(s) && Enabled(cfg, s, step)
    ensures var t := Apply(cfg, s, step); SavedFirst(t.saved, t.dequeued, t.cleared, t.phase, t.bus)
  {
    var t := Apply(cfg, s, step);
    if step.Save? && step.ok {
      SaveKeeps(s.saved, s.dequeued, s.cleared, s.phase, s.bus, s.used);
    } else if step.Remove? {
      assert forall r :: r in Elements(s.phase.rooms) ==> r.id in s.saved && s.saved[r.id] == r;
    }
  }

  lemma AsMapHas(rooms: seq<Room>)
    requires Apart(rooms)
    ensures forall i :: 0 <= i < |rooms| ==> rooms[i].id in AsMap(rooms) && AsMap(rooms)[rooms[i].id] == rooms[i]
    ensures forall id :: id in AsMap(rooms) ==> exists i :: 0 <= i < |rooms| && rooms[i].id == id
  {
    StoreRoomsHas(map[], rooms, set i | 0 <= i < |rooms| :: rooms[i].id);
  }

  lemma SaveKeeps(saved: map<nat, Room>, dequeued: set<Room>, cleared: set<Room>, phase: Phase, bus: seq<Found>,
                  used: set<nat>)
    requires phase.Saving? && Apart(phase.rooms) && SavedFirst(saved, dequeued, cleared, phase, bus)
            && IdsUsed(saved, used, phase)
    ensures SavedFirst(saved + AsMap(phase.rooms), dequeued, cleared, Removing(phase.rooms), bus)
  {
    AsMapHas(phase.rooms);
    var batch := AsMap(phase.rooms);
    forall r | r in dequeued ensures r.id in saved + batch && (saved + batch)[r.id] == r {
      assert r.id !in batch;
    }
  }

  /** A save leaves the rooms saved before alone. */
  lemma SaveSpares(stored: map<nat, Room>, expired: set<Room>, saved: map<nat, Room>, rooms: seq<Room>,
                   applied: set<nat>)
    requires Kept(stored, expired, saved) && Apart(rooms)
    requires forall i :: 0 <= i < |rooms| ==> rooms[i].id !in saved
    ensures Kept(StoreRooms(stored, rooms, applied), expired, saved)
  {
    hide StoreRooms;
    StoreRoomsHas(stored, rooms, applied);
    var m := StoreRooms(stored, rooms, applied);
    forall id | id in saved ensures saved[id].id == id && WasStored(m, expired, saved[id]) {
      assert forall i :: 0 <= i < |rooms| ==> rooms[i].id != id;
    }
  }

  /** One that succeeds has stored all of its own. */
  lemma SaveStores(stored: map<nat, Room>, expired: set<Room>, rooms: seq<Room>, applied: set<nat>)
    requires Apart(rooms) && forall i :: 0 <= i < |rooms| ==> rooms[i].id in applied
    ensures Kept(StoreRooms(stored, rooms, applied), expired, AsMap(rooms))
  {
    hide StoreRooms, AsMap;
    StoreRoomsHas(stored, rooms, applied);
    AsMapHas(rooms);
    forall id | id in AsMap(rooms)
      ensures AsMap(rooms)[id].id == id && WasStored(StoreRooms(stored, rooms, applied), expired, AsMap(rooms)[id]) {
      var i :| 0 <= i < |rooms| && rooms[i].id == id;
      assert AsMap(rooms)[id] == rooms[i];
    }
  }

  lemma KeptStep(cfg: Config, s: State, step: Step)
    requires Kept(s.stored, s.expired, s.saved) && Apart(RoomsOf(s.phase)) && IdsUsed(s.saved, s.used, s.phase)
            && Enabled(cfg, s, step)
    ensures var t := Apply(cfg, s, step); Kept(t.stored, t.expired, t.saved)
  {
    hide Tickets, PairsFrom, MakeRooms, StoreRooms, AsMap, Stale, PlayersOf, Elements, Keep;
    if step.Save? {
      SaveSpares(s.stored, s.expired, s.saved, s.phase.rooms, step.applied);
      if step.ok { SaveStores(s.stored, s.expired, s.phase.rooms, step.applied); }
    }
  }

  lemma SaveUses(saved: map<nat, Room>, used: set<nat>, rooms: seq<Room>)
    requires Apart(rooms) && IdsUsed(saved, used, Saving(rooms))
    ensures IdsUsed(saved + AsMap(rooms), used, Removing(rooms))
  {
    AsMapHas(rooms);
    forall id | id in AsMap(rooms) ensures id in used {
      var i :| 0 <= i < |rooms| && rooms[i].id == id;
      assert RoomsOf(Saving(rooms))[i].id in used;
    }
    assert forall i :: 0 <= i < |rooms| ==> RoomsOf(Saving(rooms))[i].id in used;
  }

  lemma OnceStep(cfg: Config, s: State, step: Step)
    requires Apart(RoomsOf(s.phase)) && OncePerTick(s.bus, s.tick, s.phase) && Enabled(cfg, s, step)
    ensures var t := Apply(cfg, s, step); OncePerTick(t.bus, t.tick, t.phase)
  {
    hide Tickets, PairsFrom, MakeRooms, StoreRooms, AsMap, Stale, PlayersOf, Elements, Keep;
  }

  lemma IdsStep(cfg: Config, s: State, step: Step)
    requires Inv(s) && Enabled(cfg, s, step)
    ensures var t := Apply(cfg, s, step); IdsUsed(t.saved, t.used, t.phase)
  {
    hide Tickets, PairsFrom, StoreRooms, AsMap, Stale, PlayersOf, Keep, Budget, OncePerTick, SavedFirst, Kept;
    if step.Snapshot? {
      SnapshotRooms(cfg, s.zset, step.ids);
    } else if step.Save? && step.ok {
      SaveUses(s.saved, s.used, s.phase.rooms);
    }
  }

  lemma {:induction false} RunKeeps(cfg: Config, s: State, steps: seq<Step>)
    requires Inv(s) && Runs(cfg, s, steps)
    ensures Inv(Final(cfg, s, steps))
    decreases |steps|
  {
    if steps != [] {
      var t := Apply(cfg, s, steps[0]);
      StepInv(cfg, s, steps[0]);
      RunKeeps(cfg, t, steps[1..]);
    }
  }

  lemma StepInv(cfg: Config, s: State, step: Step)
    requires Inv(s) && Enabled(cfg, s, step)
    ensures Inv(Apply(cfg, s, step))
  {
    forall p ensures Budget(Apply(cfg, s, step), p) { BudgetStep(cfg, s, step, p); }
    ApartStep(cfg, s, step);
    SavedStep(cfg, s, step);
    OnceStep(cfg, s, step);
    IdsStep(cfg, s, step);
    KeptStep(cfg, s, step);
  }

  // --- Theorems ------------------------------------------------------------------------------------

  /**
   * Over every interleaving and every failure: no player is named by more MatchFound events than
   * times they entered the queue, no tick names a player twice, and an event goes out only for a room
   * that is stored in Redis, unless it has expired since, and whose players' removal was confirmed.
   */
  lemma MatchSafety(cfg: Config, steps: seq<Step>)
    requires Runs(cfg, INIT, steps)
    ensures var s := Final(cfg, INIT, steps);
            && (forall p :: Named(s.bus, p) <= s.joins[p])
            && (forall i, j :: 0 <= i < j < |s.bus| && s.bus[i].tick == s.bus[j].tick ==>
                  s.bus[i].room.Players() !! s.bus[j].room.Players())
            && (forall k :: 0 <= k < |s.bus| ==>
                  var r := s.bus[k].room;
                  && r.id in s.saved && s.saved[r.id] == r && WasStored(s.stored, s.expired, r)
                  && r in s.dequeued && r in s.cleared)
  {
    RunKeeps(cfg, INIT, steps);
    var s := Final(cfg, INIT, steps);
    forall p ensures Named(s.bus, p) <= s.joins[p] { assert Budget(s, p); }
  }

  /** A tick takes a player out of the queue only for a room of theirs that is in Redis, unless it has expired since. */
  lemma DequeuedHaveRooms(cfg: Config, steps: seq<Step>, zrem: bool, hdel: bool, ok: bool, p: nat)
    requires Runs(cfg, INIT, steps) && Enabled(cfg, Final(cfg, INIT, steps), Remove(zrem, hdel, ok))
    requires p in Final(cfg, INIT, steps).zset && p !in Apply(cfg, Final(cfg, INIT, steps), Remove(zrem, hdel, ok)).zset
    ensures var s := Final(cfg, INIT, steps);
            exists r :: r in s.phase.rooms && p in r.Players() && WasStored(s.stored, s.expired, r)
  {
    RunKeeps(cfg, INIT, steps);
    var s := Final(cfg, INIT, steps);
    var i :| 0 <= i < |s.phase.rooms| && p in s.phase.rooms[i].Players();
    assert s.phase.rooms[i] in s.phase.rooms;
    assert s.phase.rooms[i].id in s.saved && s.saved[s.phase.rooms[i].id] == s.phase.rooms[i];
  }

  // --- Who stays in the queue -----------------------------------------------------------------------

  /** Nobody but the match loop disturbs p, whose join times stay at t or later, and no cutoff passes t. */
  predicate Calm(steps: seq<Step>, p: nat, t: int) {
    forall k :: 0 <= k < |steps| ==>
      match steps[k]
      case Join(q, _, now, _, _) => q == p ==> now >= t
      case Leave(q, _, _) => q != p
      case EvictRead(cutoff) => cutoff <= t
      case _ => true
  }

  /** Some removal of the run takes p out of the queue for a room. */
  predicate Dequeues(cfg: Config, s: State, steps: seq<Step>, p: nat)
    requires Runs(cfg, s, steps)
    decreases |steps|
  {
    steps != [] &&
    ((steps[0].Remove? && steps[0].zrem && exists i :: 0 <= i < |s.phase.rooms| && p in s.phase.rooms[i].Players())
     || Dequeues(cfg, Apply(cfg, s, steps[0]), steps[1..], p))
  }

  /** Queued, with a join time of at least t if any is recorded, and not on an eviction's list. */
  predicate Staying(s: State, p: nat, t: int) {
    && p in s.zset
    && (p in s.joined ==> s.joined[p].Some? && s.joined[p].value >= t)
    && (s.phase.Evicting? ==> p !in s.phase.stale)
  }

  lemma StayStep(cfg: Config, s: State, step: Step, p: nat, t: int)
    requires Staying(s, p, t) && Enabled(cfg, s, step) && Calm([step], p, t)
    requires step.Remove? && step.zrem ==> forall i :: 0 <= i < |s.phase.rooms| ==> p !in s.phase.rooms[i].Players()
    ensures Staying(Apply(cfg, s, step), p, t)
  {
    hide Tickets, PairsFrom, MakeRooms, StoreRooms, AsMap;
    assert [step][0] == step;
  }

  lemma {:induction false} StaysQueued(cfg: Config, s: State, steps: seq<Step>, p: nat, t: int)
    requires Runs(cfg, s, steps) && Calm(steps, p, t) && Staying(s, p, t)
    ensures p in Final(cfg, s, steps).zset || Dequeues(cfg, s, steps, p)
    decreases |steps|
  {
    if steps != [] && !Dequeues(cfg, s, steps, p) {
      hide Enabled, Apply, Staying;
      assert [steps[0]][0] == steps[0] && Calm([steps[0]], p, t);
      StayStep(cfg, s, steps[0], p, t);
      assert forall k :: 0 <= k < |steps[1..]| ==> steps[1..][k] == steps[k + 1];
      StaysQueued(cfg, Apply(cfg, s, steps[0]), steps[1..], p, t);
    } else {
      assert steps == [] ==> Staying(s, p, t);
    }
  }

  /**
   * A player who joined at t stays in the queue through every run in which they neither leave nor are
   * taken out for a room and no eviction reads with a cutoff past t, exactly if no eviction that read before
   * they joined is still to remove them.
   */
  lemma FreshStayQueuedIff(cfg: Config, s: State, p: nat, t: int)
    requires p in s.zset && p in s.joined && s.joined[p] == Some(t)
    ensures (forall steps :: Runs(cfg, s, steps) && Calm(steps, p, t) && !Dequeues(cfg, s, steps, p) ==>
               p in Final(cfg, s, steps).zset)
            <==> !(s.phase.Evicting? && p in s.phase.stale)
  {
    if s.phase.Evicting? && p in s.phase.stale {
      var steps := [EvictRemove(true, true)];
      assert steps[1..] == [];
      assert Runs(cfg, Apply(cfg, s, steps[0]), steps[1..]);
      assert Runs(cfg, s, steps) && Calm(steps, p, t) && !Dequeues(cfg, s, steps, p);
      assert p !in Final(cfg, s, steps).zset;
    } else {
      forall steps | Runs(cfg, s, steps) && Calm(steps, p, t) && !Dequeues(cfg, s, steps, p)
        ensures p in Final(cfg, s, steps).zset {
        StaysQueued(cfg, s, steps, p, t);
      }
    }
  }

  /** The eviction reads, the player re-joins, and the removal then takes the fresh entry. */
  lemma RejoinIsEvicted(cfg: Config, p: nat, rank: int, first: int, now: int)
    requires first < now
    ensures var steps := [Join(p, rank, first, true, true), EvictRead(now), Join(p, rank, now, true, true),
                          EvictRemove(true, true)];
            Runs(cfg, INIT, steps) && p !in Final(cfg, INIT, steps).zset
  {
    var a, b := Join(p, rank, first, true, true), EvictRead(now);
    var c, d := Join(p, rank, now, true, true), EvictRemove(true, true);
    var s1 := Apply(cfg, INIT, a);
    var s2 := Apply(cfg, s1, b);
    assert p in s2.phase.stale;
    var s3 := Apply(cfg, s2, c);
    var s4 := Apply(cfg, s3, d);
    hide Apply, Enabled;
    assert [d][1..] == [] && [c, d][1..] == [d] && [b, c, d][1..] == [c, d] && [a, b, c, d][1..] == [b, c, d];
    assert Runs(cfg, s4, []) && Final(cfg, s4, []) == s4;
    assert Runs(cfg, s3, [d]) && Final(cfg, s3, [d]) == s4;
    assert Runs(cfg, s2, [c, d]) && Final(cfg, s2, [c, d]) == s4;
    assert Runs(cfg, s1, [b, c, d]) && Final(cfg, s1, [b, c, d]) == s4;
  }
}
