/** The presence service: scripts, the transitions it announces and its online gauge. */
module PresenceService {
  import opened Collections
  import opened Presence

  datatype Entry = Entry(record: Record, expiresAt: int)
  type Keys = map<nat, Entry>

  /**
   * What became of a change of state: expiries and lost replies are silent, the others move the gauge and
   * are offered to the bus, which may drop them.
   */
  datatype Notice = Silent | Dropped | Sent

  datatype Change = Change(player: nat, from: PState, to: PState, connections: int, lastSeen: int, notice: Notice)

  datatype Kind = WentOnline | WentOffline | StateChanged
  datatype Event = Event(kind: Kind, player: nat, state: PState, previous: PState, connections: int, lastSeen: int)

  datatype Svc = Svc(keys: Keys, gauge: int, log: seq<Change>, bus: seq<Event>)

  const INIT := Svc(map[], 0, [], [])

  function Get(keys: Keys, p: nat): Option<Record> {
    if p in keys then Some(keys[p].record) else None
  }

  function StateAt(keys: Keys, p: nat): PState {
    Read(Get(keys, p)).state
  }

  function Put(keys: Keys, p: nat, after: Option<Record>, deadline: int): Keys {
    if after.Some? then keys[p := Entry(after.value, deadline)] else keys - {p}
  }

  function GaugeStep(from: PState, to: PState): int {
    if from == Offline && to != Offline then 1 else if from != Offline && to == Offline then -1 else 0
  }

  function KindOf(from: PState, to: PState): Kind {
    if from == Offline && to != Offline then WentOnline else if to == Offline then WentOffline else StateChanged
  }

  function ChangeOf(p: nat, m: Mutation, notice: Notice): Change {
    Change(p, m.previous.state, m.current.state, m.current.connections, m.current.lastSeen, notice)
  }

  /** The event a change is announced with. */
  function Told(c: Change): Event {
    Event(KindOf(c.from, c.to), c.player, c.to, c.from, c.connections, c.lastSeen)
  }

  /** publishTransition: nothing for an unchanged state, else the gauge and one event, if the bus takes it. */
  function Announce(s: Svc, p: nat, m: Mutation, taken: bool): Svc {
    if m.previous.state == m.current.state then s else
    var c := ChangeOf(p, m, if taken then Sent else Dropped);
    s.(gauge := s.gauge + GaugeStep(c.from, c.to), log := s.log + [c],
       bus := if taken then s.bus + [Told(c)] else s.bus)
  }

  function Unannounced(s: Svc, p: nat, m: Mutation): Svc {
    if m.previous.state == m.current.state then s else s.(log := s.log + [ChangeOf(p, m, Silent)])
  }

  /** A script runs on the server; the service announces its result only if the reply arrives. */
  function Mutate(s: Svc, p: nat, e: Effect, deadline: int, notice: Notice): Svc {
    var t := s.(keys := Put(s.keys, p, e.after, deadline));
    if notice == Silent then Unannounced(t, p, e.mutation) else Announce(t, p, e.mutation, notice == Sent)
  }

  function DoConnect(s: Svc, p: nat, now: int, ttl: nat, notice: Notice): Svc {
    Mutate(s, p, Connect(Get(s.keys, p), now), now + ttl, notice)
  }

  function DoDisconnect(s: Svc, p: nat, now: int, ttl: nat, notice: Notice): Svc {
    Mutate(s, p, Disconnect(Get(s.keys, p), now), now + ttl, notice)
  }

  function DoHeartbeat(s: Svc, p: nat, now: int, ttl: nat, notice: Notice): Svc {
    Mutate(s, p, Heartbeat(Get(s.keys, p), now), now + ttl, notice)
  }

  predicate Accepts(keys: Keys, p: nat, target: PState) {
    Valid(target) && CanTransition(StateAt(keys, p), target)
  }

  function DoSetState(s: Svc, p: nat, target: PState, now: int, ttl: nat, notice: Notice): Svc {
    if Accepts(s.keys, p, target) then Mutate(s, p, SetState(Get(s.keys, p), target, now), now + ttl, notice) else s
  }

  function DoExpire(s: Svc, p: nat): Svc {
    Unannounced(s.(keys := s.keys - {p}), p, Mutation(Read(Get(s.keys, p)), OFFLINE_RECORD))
  }

  // --- The bulk heartbeat: EXPIRE what is there, re-create what is missing -----------------------

  function Refresh(keys: Keys, ids: set<nat>, deadline: int): Keys {
    map p | p in keys :: if p in ids then keys[p].(expiresAt := deadline) else keys[p]
  }

  function Missing(keys: Keys, ids: seq<nat>): seq<nat> {
    if ids == [] then [] else
    Missing(keys, ids[..|ids| - 1]) + (if ids[|ids| - 1] in keys then [] else [ids[|ids| - 1]])
  }

  function Heal(keys: Keys, ids: seq<nat>, now: int, ttl: nat): Keys {
    if ids == [] then keys else
    var k := Heal(keys, ids[..|ids| - 1], now, ttl);
    var p := ids[|ids| - 1];
    Put(k, p, Heartbeat(Get(k, p), now).after, now + ttl)
  }

  /** Announces the re-created players; the bus takes the events of those in taken. */
  function AnnounceHealed(s: Svc, ids: seq<nat>, now: int, taken: set<nat>): Svc {
    if ids == [] then s else
    var p := ids[|ids| - 1];
    Announce(AnnounceHealed(s, ids[..|ids| - 1], now, taken), p,
             Mutation(OFFLINE_RECORD, Record(Online, now, 1, 0)), p in taken)
  }

  function BeatMany(s: Svc, ids: seq<nat>, now: int, ttl: nat, taken: set<nat>): Svc {
    var missed := Missing(s.keys, ids);
    AnnounceHealed(s.(keys := Heal(Refresh(s.keys, Elements(ids), now + ttl), missed, now, ttl)), missed, now, taken)
  }

  /** The same ids, one heartbeat at a time. */
  function BeatEach(s: Svc, ids: seq<nat>, now: int, ttl: nat, taken: set<nat>): Svc {
    if ids == [] then s else
    var p := ids[|ids| - 1];
    DoHeartbeat(BeatEach(s, ids[..|ids| - 1], now, ttl, taken), p, now, ttl, if p in taken then Sent else Dropped)
  }

  /** Where a bulk heartbeat may fail: some EXPIREs, or some re-creations, applied without a usable reply. */
  datatype BulkFault = NoFault | ExpireFails(applied: set<nat>) | HealFails(done: nat)

  /** Heartbeats whose replies never arrive. */
  function BeatSilently(s: Svc, ids: seq<nat>, now: int, ttl: nat): Svc {
    if ids == [] then s else DoHeartbeat(BeatSilently(s, ids[..|ids| - 1], now, ttl), ids[|ids| - 1], now, ttl, Silent)
  }

  function Partly(missed: seq<nat>, done: nat): seq<nat> {
    if done <= |missed| then missed[..done] else missed
  }

  /** A bulk heartbeat, whole or cut short. */
  function BeatBulk(s: Svc, ids: seq<nat>, now: int, ttl: nat, fault: BulkFault, taken: set<nat>): Svc {
    match fault
    case NoFault => BeatMany(s, ids, now, ttl, taken)
    case ExpireFails(applied) => s.(keys := Refresh(s.keys, Elements(ids) * applied, now + ttl))
    case HealFails(done) =>
      BeatSilently(s.(keys := Refresh(s.keys, Elements(ids), now + ttl)), Partly(Missing(s.keys, ids), done), now, ttl)
  }

  // --- Bulk against one at a time -----------------------------------------------------------------

  lemma {:induction false} MissingHas(keys: Keys, ids: seq<nat>, p: nat)
    ensures p in Missing(keys, ids) <==> p in ids && p !in keys
  {
    if ids != [] { MissingHas(keys, ids[..|ids| - 1], p); }
  }

  lemma {:induction false} HealAt(keys: Keys, ids: seq<nat>, now: int, ttl: nat, p: nat)
    requires forall q :: q in ids ==> q !in keys
    ensures var k := Heal(keys, ids, now, ttl);
            if p in ids then p in k && k[p] == Entry(Record(Online, now, 1, now), now + ttl)
            else (p in k <==> p in keys) && (p in keys ==> k[p] == keys[p])
  {
    if ids != [] {
      HealAt(keys, ids[..|ids| - 1], now, ttl, p);
      HealAt(keys, ids[..|ids| - 1], now, ttl, ids[|ids| - 1]);
    }
  }

  lemma {:induction false} AnnounceHealedKeeps(s: Svc, ids: seq<nat>, now: int, taken: set<nat>)
    ensures var t := AnnounceHealed(s, ids, now, taken);
            && t.keys == s.keys && t.gauge == s.gauge + |ids|
            && t.log == s.log + Camebacks(ids, now, taken)
            && t.bus == s.bus + Returns(ids, now, taken)
  {
    if ids != [] {
      AnnounceHealedKeeps(s, ids[..|ids| - 1], now, taken);
    }
  }

  function Cameback(p: nat, now: int, taken: set<nat>): Change {
    Change(p, Offline, Online, 1, now, if p in taken then Sent else Dropped)
  }

  /** The events of players who came back, those the bus took. */
  function Returns(ids: seq<nat>, now: int, taken: set<nat>): seq<Event> {
    if ids == [] then [] else
    var p := ids[|ids| - 1];
    Returns(ids[..|ids| - 1], now, taken) + (if p in taken then [Event(WentOnline, p, Online, Offline, 1, now)] else [])
  }

  /** What one bulk call leaves at each key: live records keep their timestamps, missing ones are re-created. */
  lemma BeatManyAt(s: Svc, ids: seq<nat>, now: int, ttl: nat, taken: set<nat>, p: nat)
    ensures var k := BeatMany(s, ids, now, ttl, taken).keys;
            && (p in k <==> p in s.keys || p in ids)
            && (p in s.keys ==> k[p] == Entry(s.keys[p].record, if p in ids then now + ttl else s.keys[p].expiresAt))
            && (p !in s.keys && p in ids ==> k[p] == Entry(Record(Online, now, 1, now), now + ttl))
  {
    var missed := Missing(s.keys, ids);
    var k := Refresh(s.keys, Elements(ids), now + ttl);
    forall q | q in missed ensures q !in k { MissingHas(s.keys, ids, q); }
    HealAt(k, missed, now, ttl, p);
    MissingHas(s.keys, ids, p);
    AnnounceHealedKeeps(s.(keys := Heal(k, missed, now, ttl)), missed, now, taken);
  }

  /** Missing ids in order, each at its first occurrence only. */
  function Firsts(keys: Keys, ids: seq<nat>): seq<nat> {
    if ids == [] then [] else
    var before, p := ids[..|ids| - 1], ids[|ids| - 1];
    Firsts(keys, before) + (if p in keys || p in before then [] else [p])
  }

  lemma {:induction false} BeatEachAt(s: Svc, ids: seq<nat>, now: int, ttl: nat, taken: set<nat>, p: nat)
    ensures var k := BeatEach(s, ids, now, ttl, taken).keys;
            && (p in k <==> p in s.keys || p in ids)
            && (p in s.keys ==> k[p] == if p in ids then Entry(Stamped(s.keys[p].record, now), now + ttl)
                else s.keys[p])
            && (p !in s.keys && p in ids ==> k[p] == Entry(Record(Online, now, 1, now), now + ttl))
  {
    if ids != [] {
      BeatEachAt(s, ids[..|ids| - 1], now, ttl, taken, p);
      BeatEachAt(s, ids[..|ids| - 1], now, ttl, taken, ids[|ids| - 1]);
    }
  }

  function Camebacks(ids: seq<nat>, now: int, taken: set<nat>): seq<Change> {
    seq(|ids|, i requires 0 <= i < |ids| => Cameback(ids[i], now, taken))
  }

  lemma CamebacksMore(ids: seq<nat>, p: nat, now: int, taken: set<nat>)
    ensures Camebacks(ids + [p], now, taken) == Camebacks(ids, now, taken) + [Cameback(p, now, taken)]
    ensures Returns(ids + [p], now, taken)
         == Returns(ids, now, taken) + (if p in taken then [Event(WentOnline, p, Online, Offline, 1, now)] else [])
  {
    assert (ids + [p])[..|ids|] == ids;
  }

  /** One heartbeat announces a player whose key was missing, and nobody else. */
  lemma BeatOnce(s: Svc, p: nat, now: int, ttl: nat, taken: set<nat>)
    ensures var t := DoHeartbeat(s, p, now, ttl, if p in taken then Sent else Dropped);
            && (p in s.keys ==> t.gauge == s.gauge && t.log == s.log && t.bus == s.bus)
            && (p !in s.keys ==> t.gauge == s.gauge + 1 && t.log == s.log + [Cameback(p, now, taken)])
            && (p !in s.keys ==>
                  t.bus == s.bus + (if p in taken then [Event(WentOnline, p, Online, Offline, 1, now)] else []))
  {
  }

  lemma {:induction false} BeatEachLog(s: Svc, ids: seq<nat>, now: int, ttl: nat, taken: set<nat>)
    ensures var t, f := BeatEach(s, ids, now, ttl, taken), Firsts(s.keys, ids);
            && t.gauge == s.gauge + |f| && t.bus == s.bus + Returns(f, now, taken)
            && t.log == s.log + Camebacks(f, now, taken)
  {
    hide DoHeartbeat, Camebacks, Returns;
    if ids == [] {
      NoCamebacks(now, taken);
    } else {
      var before, p := ids[..|ids| - 1], ids[|ids| - 1];
      BeatEachLog(s, before, now, ttl, taken);
      BeatEachAt(s, before, now, ttl, taken, p);
      var t, f := BeatEach(s, before, now, ttl, taken), Firsts(s.keys, before);
      BeatOnce(t, p, now, ttl, taken);
      CamebacksMore(f, p, now, taken);
      if p in t.keys {
        assert f + [] == f;
      } else {
        assert s.log + Camebacks(f + [p], now, taken) == t.log + [Cameback(p, now, taken)];
        assert s.bus + Returns(f + [p], now, taken)
            == t.bus + (if p in taken then [Event(WentOnline, p, Online, Offline, 1, now)] else []);
      }
    }
  }

  lemma NoCamebacks(now: int, taken: set<nat>)
    ensures Camebacks([], now, taken) == [] && Returns([], now, taken) == []
  {
  }

  lemma {:induction false} FirstsDistinct(keys: Keys, ids: seq<nat>)
    ensures Distinct(Firsts(keys, ids))
    ensures forall p :: p in Firsts(keys, ids) ==> p in ids
    ensures Distinct(Missing(keys, ids)) ==> Firsts(keys, ids) == Missing(keys, ids)
  {
    if ids != [] {
      var before, p := ids[..|ids| - 1], ids[|ids| - 1];
      FirstsDistinct(keys, before);
      MissingHas(keys, before, p);
      if Distinct(Missing(keys, ids)) {
        var m := Missing(keys, before);
        assert m == Missing(keys, ids)[..|m|];
        if p !in keys { assert Missing(keys, ids)[|m|] == p && p !in m; }
      }
    }
  }

  /** Same keys, states, counts and deadlines; records agree in full where there was no key before. */
  predicate SameButTimes(before: Keys, k: Keys, l: Keys) {
    && k.Keys == l.Keys
    && (forall p :: p in k ==>
          && k[p].expiresAt == l[p].expiresAt && k[p].record.state == l[p].record.state
          && k[p].record.connections == l[p].record.connections
          && (p !in before ==> k[p] == l[p]))
  }

  /**
   * For any ids, a bulk heartbeat leaves what single heartbeats leave, up to the timestamps of
   * records that were already live; and it announces the same transitions exactly when no
   * missing id is listed twice.
   */
  lemma BulkEqualsSingles(s: Svc, ids: seq<nat>, now: int, ttl: nat, taken: set<nat>)
    ensures var many, each := BeatMany(s, ids, now, ttl, taken), BeatEach(s, ids, now, ttl, taken);
            && SameButTimes(s.keys, many.keys, each.keys)
            && (Distinct(Missing(s.keys, ids))
                <==> many.log == each.log && many.gauge == each.gauge && many.bus == each.bus)
  {
    var many, each := BeatMany(s, ids, now, ttl, taken), BeatEach(s, ids, now, ttl, taken);
    forall p ensures p in many.keys <==> p in each.keys {
      BeatManyAt(s, ids, now, ttl, taken, p);
      BeatEachAt(s, ids, now, ttl, taken, p);
    }
    forall p | p in many.keys ensures
      && p in each.keys && many.keys[p].expiresAt == each.keys[p].expiresAt
      && many.keys[p].record.state == each.keys[p].record.state
      && many.keys[p].record.connections == each.keys[p].record.connections
      && (p !in s.keys ==> many.keys[p] == each.keys[p])
    {
      BeatManyAt(s, ids, now, ttl, taken, p); BeatEachAt(s, ids, now, ttl, taken, p);
    }
    BulkAnnounces(s, ids, now, ttl, taken);
  }

  lemma BulkAnnounces(s: Svc, ids: seq<nat>, now: int, ttl: nat, taken: set<nat>)
    ensures var many, each := BeatMany(s, ids, now, ttl, taken), BeatEach(s, ids, now, ttl, taken);
            Distinct(Missing(s.keys, ids)) <==> many.log == each.log && many.gauge == each.gauge && many.bus == each.bus
  {
    var m, f := Missing(s.keys, ids), Firsts(s.keys, ids);
    var many, each := BeatMany(s, ids, now, ttl, taken), BeatEach(s, ids, now, ttl, taken);
    AnnounceHealedKeeps(s.(keys := Heal(Refresh(s.keys, Elements(ids), now + ttl), m, now, ttl)), m, now, taken);
    BeatEachLog(s, ids, now, ttl, taken);
    FirstsDistinct(s.keys, ids);
    if many.log == each.log {
      assert |m| == |f|;
      forall i | 0 <= i < |m| ensures m[i] == f[i] {
        assert many.log[|s.log| + i] == Cameback(m[i], now, taken);
        assert each.log[|s.log| + i] == Cameback(f[i], now, taken);
      }
      assert m == f;
    }
  }

  // --- Announced and silent changes account for every state ---------------------------------------

  /** The state the log leaves a player in. */
  function LastOf(log: seq<Change>, p: nat): PState {
    if log == [] then Offline
    else if log[|log| - 1].player == p then log[|log| - 1].to
    else LastOf(log[..|log| - 1], p)
  }

  /** Every change starts where the player's previous change ended. */
  predicate Chained(log: seq<Change>) {
    forall i :: 0 <= i < |log| ==> log[i].from == LastOf(log[..i], log[i].player) && log[i].from != log[i].to
  }

  /** Net effect on the gauge of the changes with one kind of notice. */
  function Balance(log: seq<Change>, notice: Notice): int {
    if log == [] then 0 else
    var c := log[|log| - 1];
    Balance(log[..|log| - 1], notice) + (if c.notice == notice then GaugeStep(c.from, c.to) else 0)
  }

  /** The events of the changes that reached the bus, in order. */
  function Heard(log: seq<Change>): seq<Event> {
    if log == [] then [] else
    var c := log[|log| - 1];
    Heard(log[..|log| - 1]) + (if c.notice == Sent then [Told(c)] else [])
  }

  function OnlineSet(keys: Keys): set<nat> {
    set p | p in keys && keys[p].record.state != Offline
  }

  ghost predicate Accounted(s: Svc) {
    && Chained(s.log)
    && (forall p :: StateAt(s.keys, p) == LastOf(s.log, p))
    && s.gauge == Balance(s.log, Sent) + Balance(s.log, Dropped)
    && |OnlineSet(s.keys)| == s.gauge + Balance(s.log, Silent)
    && s.bus == Heard(s.log)
  }

  lemma ChainGrows(log: seq<Change>, c: Change)
    requires Chained(log) && c.from == LastOf(log, c.player) && c.from != c.to
    ensures Chained(log + [c])
    ensures forall p :: LastOf(log + [c], p) == if p == c.player then c.to else LastOf(log, p)
    ensures forall n ::
              Balance(log + [c], n) == Balance(log, n) + (if c.notice == n then GaugeStep(c.from, c.to) else 0)
    ensures Heard(log + [c]) == Heard(log) + (if c.notice == Sent then [Told(c)] else [])
  {
    assert (log + [c])[..|log|] == log;
    forall i | 0 <= i <= |log| ensures (log + [c])[..i] == log[..i] {}
  }

  lemma OneMoves(a: set<nat>, b: set<nat>, p: nat)
    requires forall q :: q != p ==> (q in a <==> q in b)
    ensures |b| == |a| + (if p in b then 1 else 0) - (if p in a then 1 else 0)
  {
    assert a - {p} == b - {p};
    assert |a - {p}| == |a| - (if p in a then 1 else 0);
    assert |b - {p}| == |b| - (if p in b then 1 else 0);
  }

  lemma OnlineMoves(k: Keys, l: Keys, p: nat)
    requires forall q :: q != p ==> StateAt(k, q) == StateAt(l, q)
    ensures |OnlineSet(l)| == |OnlineSet(k)| + GaugeStep(StateAt(k, p), StateAt(l, p))
  {
    assert forall m: Keys, q :: q in OnlineSet(m) <==> StateAt(m, q) != Offline;
    OneMoves(OnlineSet(k), OnlineSet(l), p);
  }

  /** Any change of one key that is logged as it happened keeps the books. */
  lemma RecordedChange(s: Svc, t: Svc, p: nat, c: Change)
    requires Accounted(s) && c.player == p && c.from == StateAt(s.keys, p) && c.to == StateAt(t.keys, p)
            && c.from != c.to
    requires forall q :: q != p ==> StateAt(t.keys, q) == StateAt(s.keys, q)
    requires t.log == s.log + [c] && t.gauge == s.gauge + (if c.notice != Silent then GaugeStep(c.from, c.to) else 0)
    requires t.bus == s.bus + (if c.notice == Sent then [Told(c)] else [])
    ensures Accounted(t)
  {
    ChainGrows(s.log, c);
    OnlineMoves(s.keys, t.keys, p);
  }

  lemma SameStates(s: Svc, t: Svc)
    requires Accounted(s) && t.log == s.log && t.gauge == s.gauge && t.bus == s.bus
    requires forall q :: StateAt(t.keys, q) == StateAt(s.keys, q)
    ensures Accounted(t)
  {
    OnlineMoves(s.keys, t.keys, 0);
  }

  predicate Honest(raw: Option<Record>, e: Effect) {
    e.mutation.previous == Read(raw) && e.mutation.current.state == Read(e.after).state
  }

  lemma MutateAccounts(s: Svc, t: Svc, p: nat, e: Effect, deadline: int, notice: Notice)
    requires Accounted(s) && Honest(Get(s.keys, p), e) && t == Mutate(s, p, e, deadline, notice)
    ensures Accounted(t)
  {
    var m := e.mutation;
    forall q ensures StateAt(t.keys, q) == if q == p then m.current.state else StateAt(s.keys, q) {}
    if m.previous.state == m.current.state {
      SameStates(s, t);
    } else {
      RecordedChange(s, t, p, ChangeOf(p, m, notice));
    }
  }

  lemma {:induction false} BeatEachAccounts(s: Svc, ids: seq<nat>, now: int, ttl: nat, taken: set<nat>)
    requires Accounted(s)
    ensures Accounted(BeatEach(s, ids, now, ttl, taken))
  {
    if ids != [] {
      var t, p := BeatEach(s, ids[..|ids| - 1], now, ttl, taken), ids[|ids| - 1];
      BeatEachAccounts(s, ids[..|ids| - 1], now, ttl, taken);
      HeartbeatAccounts(t, p, now, ttl, if p in taken then Sent else Dropped);
    }
  }

  /** Every script reports the state it found and the state it left. */
  lemma ScriptsReport(raw: Option<Record>, target: PState, now: int)
    ensures Honest(raw, Connect(raw, now)) && Honest(raw, Disconnect(raw, now))
    ensures Honest(raw, Heartbeat(raw, now)) && Honest(raw, SetState(raw, target, now))
  {
  }

  lemma HeartbeatAccounts(s: Svc, p: nat, now: int, ttl: nat, notice: Notice)
    requires Accounted(s)
    ensures Accounted(DoHeartbeat(s, p, now, ttl, notice))
  {
    ScriptsReport(Get(s.keys, p), Online, now);
    MutateAccounts(s, DoHeartbeat(s, p, now, ttl, notice), p, Heartbeat(Get(s.keys, p), now), now + ttl, notice);
  }

  lemma ConnectAccounts(s: Svc, p: nat, now: int, ttl: nat, notice: Notice)
    requires Accounted(s)
    ensures Accounted(DoConnect(s, p, now, ttl, notice))
  {
    ScriptsReport(Get(s.keys, p), Online, now);
    MutateAccounts(s, DoConnect(s, p, now, ttl, notice), p, Connect(Get(s.keys, p), now), now + ttl, notice);
  }

  lemma DisconnectAccounts(s: Svc, p: nat, now: int, ttl: nat, notice: Notice)
    requires Accounted(s)
    ensures Accounted(DoDisconnect(s, p, now, ttl, notice))
  {
    ScriptsReport(Get(s.keys, p), Online, now);
    MutateAccounts(s, DoDisconnect(s, p, now, ttl, notice), p, Disconnect(Get(s.keys, p), now), now + ttl, notice);
  }

  lemma SetStateAccounts(s: Svc, p: nat, target: PState, now: int, ttl: nat, notice: Notice)
    requires Accounted(s)
    ensures Accounted(DoSetState(s, p, target, now, ttl, notice))
  {
    if Accepts(s.keys, p, target) {
      ScriptsReport(Get(s.keys, p), target, now);
      MutateAccounts(s, DoSetState(s, p, target, now, ttl, notice), p, SetState(Get(s.keys, p), target, now),
        now + ttl, notice);
    }
  }

  lemma {:induction false} MissingDistinct(keys: Keys, ids: seq<nat>)
    requires Distinct(ids)
    ensures Distinct(Missing(keys, ids))
  {
    if ids != [] {
      MissingDistinct(keys, ids[..|ids| - 1]);
      MissingHas(keys, ids[..|ids| - 1], ids[|ids| - 1]);
    }
  }

  lemma BeatManyAccounts(s: Svc, ids: seq<nat>, now: int, ttl: nat, taken: set<nat>)
    requires Accounted(s) && Distinct(ids)
    ensures Accounted(BeatMany(s, ids, now, ttl, taken))
  {
    BeatEachAccounts(s, ids, now, ttl, taken);
    MissingDistinct(s.keys, ids);
    BulkEqualsSingles(s, ids, now, ttl, taken);
    var many, each := BeatMany(s, ids, now, ttl, taken), BeatEach(s, ids, now, ttl, taken);
    forall q ensures StateAt(many.keys, q) == StateAt(each.keys, q) {}
    SameStates(each, many);
  }

  lemma RefreshAccounts(s: Svc, ids: set<nat>, deadline: int)
    requires Accounted(s)
    ensures Accounted(s.(keys := Refresh(s.keys, ids, deadline)))
  {
    var t := s.(keys := Refresh(s.keys, ids, deadline));
    forall q ensures StateAt(t.keys, q) == StateAt(s.keys, q) {}
    SameStates(s, t);
  }

  lemma {:induction false} SilentAccounts(s: Svc, ids: seq<nat>, now: int, ttl: nat)
    requires Accounted(s)
    ensures Accounted(BeatSilently(s, ids, now, ttl))
  {
    if ids != [] {
      SilentAccounts(s, ids[..|ids| - 1], now, ttl);
      HeartbeatAccounts(BeatSilently(s, ids[..|ids| - 1], now, ttl), ids[|ids| - 1], now, ttl, Silent);
    }
  }

  lemma BulkAccounts(s: Svc, ids: seq<nat>, now: int, ttl: nat, fault: BulkFault, taken: set<nat>)
    requires Accounted(s) && Distinct(ids)
    ensures Accounted(BeatBulk(s, ids, now, ttl, fault, taken))
  {
    hide Accounted, BeatMany, Refresh, BeatSilently;
    match fault
    case NoFault => BeatManyAccounts(s, ids, now, ttl, taken);
    case ExpireFails(applied) => RefreshAccounts(s, Elements(ids) * applied, now + ttl);
    case HealFails(done) =>
      RefreshAccounts(s, Elements(ids), now + ttl);
      SilentAccounts(s.(keys := Refresh(s.keys, Elements(ids), now + ttl)), Partly(Missing(s.keys, ids), done), now,
        ttl);
  }

  // --- Whole runs -----------------------------------------------------------------------------------

  datatype Step =
    | SConnect(player: nat, now: int, notice: Notice)
    | SDisconnect(player: nat, now: int, notice: Notice)
    | SHeartbeat(player: nat, now: int, notice: Notice)
    | SBulk(ids: seq<nat>, now: int, fault: BulkFault, taken: set<nat>)
    | SSetState(player: nat, target: PState, now: int, notice: Notice)
    | SExpire(player: nat)

  function Do(s: Svc, ttl: nat, step: Step): Svc {
    match step
    case SConnect(p, now, notice) => DoConnect(s, p, now, ttl, notice)
    case SDisconnect(p, now, notice) => DoDisconnect(s, p, now, ttl, notice)
    case SHeartbeat(p, now, notice) => DoHeartbeat(s, p, now, ttl, notice)
    case SBulk(ids, now, fault, taken) => BeatBulk(s, ids, now, ttl, fault, taken)
    case SSetState(p, target, now, notice) => DoSetState(s, p, target, now, ttl, notice)
    case SExpire(p) => DoExpire(s, p)
  }

  function Final(ttl: nat, steps: seq<Step>): Svc {
    if steps == [] then INIT else Do(Final(ttl, steps[..|steps| - 1]), ttl, steps[|steps| - 1])
  }

  /** Bulk heartbeats list each player once, as the hub's snapshot does. */
  predicate BulkDistinct(steps: seq<Step>) {
    forall i :: 0 <= i < |steps| && steps[i].SBulk? ==> Distinct(steps[i].ids)
  }

  lemma DoAccounts(s: Svc, ttl: nat, step: Step)
    requires Accounted(s) && (step.SBulk? ==> Distinct(step.ids))
    ensures Accounted(Do(s, ttl, step))
  {
    match step
    case SBulk(ids, now, fault, taken) => BulkAccounts(s, ids, now, ttl, fault, taken);
    case SConnect(p, now, notice) => ConnectAccounts(s, p, now, ttl, notice);
    case SDisconnect(p, now, notice) => DisconnectAccounts(s, p, now, ttl, notice);
    case SHeartbeat(p, now, notice) => HeartbeatAccounts(s, p, now, ttl, notice);
    case SSetState(p, target, now, notice) => SetStateAccounts(s, p, target, now, ttl, notice);
    case SExpire(p) => ExpireAccounts(s, p);
  }

  lemma ExpireAccounts(s: Svc, p: nat)
    requires Accounted(s)
    ensures Accounted(DoExpire(s, p))
  {
    MutateAccounts(s, DoExpire(s, p), p, Effect(None, Mutation(Read(Get(s.keys, p)), OFFLINE_RECORD)), 0, Silent);
  }

  /**
   * In every run on one replica, expiries and lost replies included, each player's changes form a
   * chain from OFFLINE to the current state, and the online gauge differs from the number of
   * players not OFFLINE by exactly the changes that were never announced. The bus holds the event of each
   * change it took, in order, and nothing else.
   */
  lemma {:induction false} GaugeAccountsForEveryState(ttl: nat, steps: seq<Step>)
    requires BulkDistinct(steps)
    ensures var s := Final(ttl, steps);
            && Chained(s.log) && (forall p :: LastOf(s.log, p) == StateAt(s.keys, p))
            && s.gauge == |OnlineSet(s.keys)| - Balance(s.log, Silent)
            && s.bus == Heard(s.log)
    ensures Accounted(Final(ttl, steps))
  {
    if steps == [] {
      assert OnlineSet(INIT.keys) == {};
    } else {
      GaugeAccountsForEveryState(ttl, steps[..|steps| - 1]);
      DoAccounts(Final(ttl, steps[..|steps| - 1]), ttl, steps[|steps| - 1]);
    }
  }

  lemma NothingPublished()
    ensures Balance(INIT.log, Silent) == 0
  {
  }

  predicate AllReplied(steps: seq<Step>) {
    forall i :: 0 <= i < |steps| ==>
      match steps[i]
      case SConnect(_, _, notice) => notice != Silent case SDisconnect(_, _, notice) => notice != Silent
      case SHeartbeat(_, _, notice) => notice != Silent case SSetState(_, _, _, notice) => notice != Silent
      case SBulk(_, _, fault, _) => !fault.HealFails? case SExpire(_) => true
  }

  /** Expiries that took a player who was not OFFLINE. */
  function Expiries(ttl: nat, steps: seq<Step>): nat {
    if steps == [] then 0 else
    var before, step := steps[..|steps| - 1], steps[|steps| - 1];
    Expiries(ttl, before) + (if step.SExpire? && StateAt(Final(ttl, before).keys, step.player) != Offline then 1 else 0)
  }

  lemma BalanceGrows(log: seq<Change>, c: Change, n: Notice)
    ensures Balance(log + [c], n) == Balance(log, n) + (if c.notice == n then GaugeStep(c.from, c.to) else 0)
  {
    assert (log + [c])[..|log|] == log;
  }

  lemma {:induction false} AnnouncedKeepsSilent(log: seq<Change>, more: seq<Change>)
    requires forall i :: 0 <= i < |more| ==> more[i].notice != Silent
    ensures Balance(log + more, Silent) == Balance(log, Silent)
  {
    if more == [] {
      assert log + more == log;
    } else {
      var front := more[..|more| - 1];
      AnnouncedKeepsSilent(log, front);
      assert log + more == (log + front) + [more[|more| - 1]];
      BalanceGrows(log + front, more[|more| - 1], Silent);
    }
  }

  lemma RepliedKeepsSilent(s: Svc, p: nat, e: Effect, deadline: int, notice: Notice)
    requires notice != Silent
    ensures Balance(Mutate(s, p, e, deadline, notice).log, Silent) == Balance(s.log, Silent)
  {
    BalanceGrows(s.log, ChangeOf(p, e.mutation, notice), Silent);
  }

  lemma BulkKeepsSilent(s: Svc, ids: seq<nat>, now: int, ttl: nat, taken: set<nat>)
    ensures Balance(BeatMany(s, ids, now, ttl, taken).log, Silent) == Balance(s.log, Silent)
  {
    var missed := Missing(s.keys, ids);
    AnnounceHealedKeeps(s.(keys := Heal(Refresh(s.keys, Elements(ids), now + ttl), missed, now, ttl)), missed, now,
      taken);
    AnnouncedKeepsSilent(s.log, Camebacks(missed, now, taken));
  }

  lemma ExpiryIsSilent(s: Svc, p: nat)
    ensures Balance(DoExpire(s, p).log, Silent)
            == Balance(s.log, Silent) - (if StateAt(s.keys, p) != Offline then 1 else 0)
  {
    var r := Read(Get(s.keys, p));
    BalanceGrows(s.log, Change(p, r.state, Offline, 0, 0, Silent), Silent);
  }

  lemma SilentStep(s: Svc, ttl: nat, step: Step)
    requires AllReplied([step])
    ensures Balance(Do(s, ttl, step).log, Silent)
         == Balance(s.log, Silent) - (if step.SExpire? && StateAt(s.keys, step.player) != Offline then 1 else 0)
  {
    hide Balance, StateAt, BeatMany, Mutate, DoExpire, Refresh, BeatSilently;
    assert [step][0] == step;
    match step
    case SConnect(p, now, n) => RepliedKeepsSilent(s, p, Connect(Get(s.keys, p), now), now + ttl, n);
    case SDisconnect(p, now, n) => RepliedKeepsSilent(s, p, Disconnect(Get(s.keys, p), now), now + ttl, n);
    case SHeartbeat(p, now, n) => RepliedKeepsSilent(s, p, Heartbeat(Get(s.keys, p), now), now + ttl, n);
    case SSetState(p, target, now, n) => RepliedKeepsSilent(s, p, SetState(Get(s.keys, p), target, now), now + ttl, n);
    case SBulk(ids, now, _, taken) => BulkKeepsSilent(s, ids, now, ttl, taken);
    case SExpire(p) => ExpiryIsSilent(s, p);
  }

  /**
   * When every reply arrives, the gauge overstates the players online by the expiries it never saw, and
   * by nothing else.
   */
  lemma {:induction false} GaugeDriftIsExpiries(ttl: nat, steps: seq<Step>)
    requires BulkDistinct(steps) && AllReplied(steps)
    ensures Final(ttl, steps).gauge - |OnlineSet(Final(ttl, steps).keys)| == Expiries(ttl, steps)
    ensures Balance(Final(ttl, steps).log, Silent) == 0 - Expiries(ttl, steps)
  {
    hide Do, Balance, StateAt, OnlineSet, LastOf, Chained, Heard, Accounted;
    GaugeAccountsForEveryState(ttl, steps);
    if steps == [] {
      assert Final(ttl, steps) == INIT;
      NothingPublished();
    } else {
      var before := steps[..|steps| - 1];
      GaugeDriftIsExpiries(ttl, before);
      SilentStep(Final(ttl, before), ttl, steps[|steps| - 1]);
    }
  }

  /** Undisturbed, the Go check and the script together never let an OFFLINE player into a queue or match. */
  lemma AcceptedSetStateIsLegal(s: Svc, p: nat, target: PState, now: int, ttl: nat, notice: Notice)
    ensures var t := DoSetState(s, p, target, now, ttl, notice);
            && (Accepts(s.keys, p, target) ==>
                  StateAt(t.keys, p) == target && CanTransition(StateAt(s.keys, p), target))
            && (!Accepts(s.keys, p, target) ==> t == s)
            && (Engaged(StateAt(t.keys, p)) ==> StateAt(s.keys, p) != Offline)
  {
  }

  // --- The service itself ------------------------------------------------------------------------------

  function NoticeOf(reply: bool, taken: bool): Notice {
    if !reply then Silent else if taken then Sent else Dropped
  }

  class Service {
    const ttl: nat
    var keys: Keys
    var gauge: int
    var log: seq<Change>
    var heartbeats: nat
    var bus: seq<Event>

    ghost function View(): Svc reads this { Svc(keys, gauge, log, bus) }

    /** Missing, or stored as OFFLINE. */
    predicate Absent(p: nat) reads this { p !in keys || keys[p].record.state == Offline }

    constructor (ttl: nat)
      ensures this.ttl == ttl && View() == INIT && heartbeats == 0
    {
      this.ttl, keys, gauge, log, heartbeats, bus := ttl, map[], 0, [], 0, [];
    }

    /** The gauge follows the state whether or not the bus takes the event. */
    method PublishTransition(p: nat, m: Mutation, taken: bool)
      modifies this`gauge, this`log, this`bus
      ensures View() == Announce(old(View()), p, m, taken)
      ensures gauge == old(gauge) + (if m.current.state == Offline then 0 else 1)
                                  - (if m.previous.state == Offline then 0 else 1)
      ensures m.previous.state == m.current.state || !taken ==> bus == old(bus)
      ensures m.previous.state != m.current.state && taken ==>
                var kind := if m.current.state == Offline then WentOffline
                            else if m.previous.state == Offline then WentOnline else StateChanged;
                bus == old(bus) + [Event(kind, p, m.current.state, m.previous.state, m.current.connections,
                                         m.current.lastSeen)]
    {
      var prev, cur := m.previous.state, m.current.state;
      if prev == cur { return; }
      if prev == Offline && cur != Offline {
        gauge := gauge + 1;
      } else if prev != Offline && cur == Offline {
        gauge := gauge - 1;
      }
      log := log + [Change(p, prev, cur, m.current.connections, m.current.lastSeen, if taken then Sent else Dropped)];
      var kind := StateChanged;
      if prev == Offline && cur != Offline {
        kind := WentOnline;
      } else if cur == Offline {
        kind := WentOffline;
      }
      if taken { bus := bus + [Event(kind, p, cur, prev, m.current.connections, m.current.lastSeen)]; }
    }

    /** Runs a script; on a lost reply the key has changed and the change is only noted as silent. */
    method RunMutation(p: nat, e: Effect, now: int, reply: bool, taken: bool) returns (r: Option<Record>)
      modifies this`keys, this`gauge, this`log, this`bus
      ensures View() == Mutate(old(View()), p, e, now + ttl, NoticeOf(reply, taken))
      ensures keys == if e.after == None then old(keys) - {p} else old(keys)[p := Entry(e.after.value, now + ttl)]
      ensures r == if reply then Some(e.mutation.current) else None
    {
      keys := Put(keys, p, e.after, now + ttl);
      if !reply {
        if e.mutation.previous.state != e.mutation.current.state {
          log := log + [Change(p, e.mutation.previous.state, e.mutation.current.state,
                               e.mutation.current.connections, e.mutation.current.lastSeen, Silent)];
        }
        return None;
      }
      PublishTransition(p, e.mutation, taken);
      r := Some(e.mutation.current);
    }

    /** One connection more; only an OFFLINE player becomes ONLINE, any other state is kept. */
    method ConnectPlayer(p: nat, now: int, reply: bool, taken: bool) returns (r: Option<Record>)
      modifies this`keys, this`gauge, this`log, this`bus
      ensures View() == DoConnect(old(View()), p, now, ttl, NoticeOf(reply, taken))
      ensures p !in old(keys) ==> keys == old(keys)[p := Entry(Record(Online, now, 1, now), now + ttl)]
      ensures p in old(keys) ==>
                var was := old(keys)[p].record;
                keys == old(keys)[p := Entry(Record(if was.state == Offline then Online else was.state, now,
                                                    was.connections + 1, now), now + ttl)]
      ensures r == if reply then Some(keys[p].record) else None
      ensures bus == old(bus) + (if reply && taken && old(Absent(p))
                                 then [Event(WentOnline, p, Online, Offline, keys[p].record.connections, now)] else [])
    {
      r := RunMutation(p, Connect(Get(keys, p), now), now, reply, taken);
    }

    /** One connection less; the last one takes the key with it. */
    method DisconnectPlayer(p: nat, now: int, reply: bool, taken: bool) returns (r: Option<Record>)
      modifies this`keys, this`gauge, this`log, this`bus
      ensures View() == DoDisconnect(old(View()), p, now, ttl, NoticeOf(reply, taken))
      ensures p in keys <==> p in old(keys) && old(keys)[p].record.connections > 1
      ensures p !in keys ==> keys == old(keys) - {p}
      ensures p in keys ==>
                var was := old(keys)[p].record;
                keys == old(keys)[p := Entry(Record(was.state, now, was.connections - 1, now), now + ttl)]
      ensures r == if !reply then None else Some(if p in keys then keys[p].record else Record(Offline, now, 0, now))
      ensures bus == old(bus) + (if reply && taken && !old(Absent(p)) && p !in keys
                                 then [Event(WentOffline, p, Offline, old(keys)[p].record.state, 0, now)] else [])
    {
      r := RunMutation(p, Disconnect(Get(keys, p), now), now, reply, taken);
    }

    /** A live record is stamped and its lifetime renewed; a missing one is re-created ONLINE. */
    method HeartbeatPlayer(p: nat, now: int, reply: bool, taken: bool) returns (r: Option<Record>)
      modifies this
      ensures View() == DoHeartbeat(old(View()), p, now, ttl, NoticeOf(reply, taken))
      ensures p !in old(keys) ==> keys == old(keys)[p := Entry(Record(Online, now, 1, now), now + ttl)]
      ensures p in old(keys) ==>
                var was := old(keys)[p].record;
                keys == old(keys)[p := Entry(Record(was.state, now, was.connections, now), now + ttl)]
      ensures r == if reply then Some(keys[p].record) else None
      ensures heartbeats == old(heartbeats) + (if reply then 1 else 0)
      ensures bus == old(bus) + (if reply && taken && p !in old(keys)
                                 then [Event(WentOnline, p, Online, Offline, 1, now)] else [])
    {
      r := RunMutation(p, Heartbeat(Get(keys, p), now), now, reply, taken);
      if reply { heartbeats := heartbeats + 1; }
    }

    /** Any known state may be set, but an absent player cannot be put into a queue or a match. */
    method SetPlayerState(p: nat, target: PState, now: int, reply: bool, taken: bool)
      returns (accepted: bool, r: Option<Record>)
      modifies this`keys, this`gauge, this`log, this`bus
      ensures View() == DoSetState(old(View()), p, target, now, ttl, NoticeOf(reply, taken))
      ensures accepted <==> !target.Unknown? && !(old(Absent(p)) && (target == InQueue || target == InMatch))
      ensures !accepted ==> keys == old(keys) && bus == old(bus) && gauge == old(gauge)
      ensures accepted && p !in old(keys) ==> keys == old(keys)[p := Entry(Record(target, now, 0, now), now + ttl)]
      ensures accepted && p in old(keys) ==>
                var was := old(keys)[p].record;
                keys == old(keys)[p := Entry(Record(target, if was.lastSeen == 0 then now else was.lastSeen,
                                                    was.connections, now), now + ttl)]
      ensures r == if accepted && reply then Some(keys[p].record) else None
      ensures accepted ==>
                var previous := if old(Absent(p)) then Offline else old(keys)[p].record.state;
                bus == old(bus) + (if reply && taken && previous != target then [Event(
                  if target == Offline then WentOffline else if previous == Offline then WentOnline else StateChanged,
                  p, target, previous, keys[p].record.connections, keys[p].record.lastSeen)] else [])
    {
      accepted, r := false, None;
      if !Valid(target) { return; }
      var current := Read(Get(keys, p));
      if !CanTransition(current.state, target) { return; }
      accepted := true;
      r := RunMutation(p, SetState(Get(keys, p), target, now), now, reply, taken);
    }

    /** Pass one: EXPIRE every id, collecting those whose key is missing. */
    method ExpireAll(ids: seq<nat>, deadline: int) returns (missed: seq<nat>)
      modifies this`keys
      ensures keys == Refresh(old(keys), Elements(ids), deadline) && missed == Missing(old(keys), ids)
    {
      missed := [];
      assert Refresh(keys, {}, deadline) == keys;
      for i := 0 to |ids|
        invariant keys == Refresh(old(keys), Elements(ids[..i]), deadline)
        invariant missed == Missing(old(keys), ids[..i])
      {
        var p := ids[i];
        assert ids[..i + 1][..i] == ids[..i];
        assert Elements(ids[..i + 1]) == Elements(ids[..i]) + {p};
        if p in keys {
          keys := keys[p := keys[p].(expiresAt := deadline)];
        } else {
          missed := missed + [p];
        }
      }
      assert ids[..|ids|] == ids;
    }

    /** Pass two: the heartbeat script on each missing id. */
    method HealAll(missed: seq<nat>, now: int)
      modifies this`keys
      ensures keys == Heal(old(keys), missed, now, ttl)
    {
      for i := 0 to |missed|
        invariant keys == Heal(old(keys), missed[..i], now, ttl)
      {
        assert missed[..i + 1][..i] == missed[..i];
        keys := Put(keys, missed[i], Heartbeat(Get(keys, missed[i]), now).after, now + ttl);
      }
      assert missed[..|missed|] == missed;
    }

    /** Pass two without its reply: what it did to the keys nobody here learns. */
    method HealSilently(missed: seq<nat>, now: int)
      modifies this`keys, this`gauge, this`log, this`bus
      ensures View() == BeatSilently(old(View()), missed, now, ttl)
    {
      for i := 0 to |missed|
        invariant View() == BeatSilently(old(View()), missed[..i], now, ttl)
      {
        assert missed[..i + 1][..i] == missed[..i];
        var _ := RunMutation(missed[i], Heartbeat(Get(keys, missed[i]), now), now, false, false);
      }
      assert missed[..|missed|] == missed;
    }

    method AnnounceAll(healed: seq<nat>, now: int, taken: set<nat>)
      modifies this`gauge, this`log, this`bus
      ensures View() == AnnounceHealed(old(View()), healed, now, taken)
    {
      for i := 0 to |healed|
        invariant View() == AnnounceHealed(old(View()), healed[..i], now, taken)
      {
        assert healed[..i + 1][..i] == healed[..i];
        PublishTransition(healed[i], Mutation(OFFLINE_RECORD, Record(Online, now, 1, 0)), healed[i] in taken);
      }
      assert healed[..|healed|] == healed;
    }

    /** Two pipelined passes; only re-created players are announced, and none if either pass fails. */
    method HeartbeatMany(ids: seq<nat>, now: int, fault: BulkFault, taken: set<nat>) returns (ok: bool)
      modifies this
      ensures ok <==> ids == [] || fault.NoFault? || (fault.HealFails? && forall p :: p in ids ==> p in old(keys))
      ensures View() == BeatBulk(old(View()), ids, now, ttl, if ok then NoFault else fault, taken)
      ensures heartbeats == old(heartbeats) + (if ok then |ids| else 0)
      ensures !ok ==> gauge == old(gauge) && bus == old(bus)
      ensures ok ==> Renewed(old(keys), keys, ids, now, ttl)
      ensures !ok && fault.ExpireFails? ==>
                keys == map p | p in old(keys) :: if p in ids && p in fault.applied
                                                  then Entry(old(keys)[p].record, now + ttl) else old(keys)[p]
      ensures !ok && fault.HealFails? ==>
                var missing := Missing(old(keys), ids);
                var n := if fault.done < |missing| then fault.done else |missing|;
                PartlyRenewed(old(keys), keys, ids, missing[..n], now, ttl)
      ensures ok ==> bus == old(bus) + Returns(Missing(old(keys), ids), now, taken)
    {
      hide Heal, Missing, AnnounceHealed, Elements, BeatSilently, BeatMany, Returns, Renewed, PartlyRenewed;
      BulkEffect(View(), ids, now, ttl, taken);
      if |ids| == 0 {
        BeatNobody(View(), now, ttl, taken);
        return true;
      }
      if fault.ExpireFails? {
        keys := Refresh(keys, Elements(ids) * fault.applied, now + ttl);
        assert forall p :: p in Elements(ids) <==> p in ids by { ElementsAre(ids); }
        return false;
      }
      var missed := ExpireAll(ids, now + ttl);
      if fault.HealFails? && |missed| > 0 {
        ghost var refreshed := View();
        assert forall p :: p in Partly(missed, fault.done) ==> p in missed;
        assert missed[0] in missed && missed[..|missed|] == missed;
        HealSilently(Partly(missed, fault.done), now);
        SilentGauge(refreshed, Partly(missed, fault.done), now, ttl);
        SilentlyLeaves(old(keys), refreshed, ids, Partly(missed, fault.done), now, ttl);
        return false;
      }
      HealAll(missed, now);
      heartbeats := heartbeats + |ids|;
      AnnounceAll(missed, now, taken);
      ok := true;
    }
  }

  /** What a whole bulk heartbeat does to the keys and the bus. */
  lemma BulkEffect(s: Svc, ids: seq<nat>, now: int, ttl: nat, taken: set<nat>)
    ensures var t, missed := BeatMany(s, ids, now, ttl, taken), Missing(s.keys, ids);
            && t == AnnounceHealed(s.(keys := Heal(Refresh(s.keys, Elements(ids), now + ttl), missed, now, ttl)),
                                   missed, now, taken)
            && t.bus == s.bus + Returns(missed, now, taken)
            && (forall p :: p in missed <==> p in ids && p !in s.keys)
            && Renewed(s.keys, t.keys, ids, now, ttl)
  {
    var missed := Missing(s.keys, ids);
    AnnounceHealedKeeps(s.(keys := Heal(Refresh(s.keys, Elements(ids), now + ttl), missed, now, ttl)), missed, now,
      taken);
    hide Heal, Refresh, Missing, AnnounceHealed, Returns;
    forall p ensures p in missed <==> p in ids && p !in s.keys { MissingHas(s.keys, ids, p); }
    var t := BeatMany(s, ids, now, ttl, taken);
    hide BeatMany;
    assert t.keys.Keys == s.keys.Keys + Elements(ids) by {
      forall p ensures p in t.keys <==> p in s.keys || p in ids { BeatManyAt(s, ids, now, ttl, taken, p); }
    }
    forall p | p in t.keys ensures t.keys[p] == RenewedEntry(s.keys, ids, now, ttl, p) {
      BeatManyAt(s, ids, now, ttl, taken, p);
    }
  }

  /** What a whole bulk heartbeat leaves at a key that is there afterwards. */
  function RenewedEntry(keys: Keys, ids: seq<nat>, now: int, ttl: nat, p: nat): Entry {
    if p !in keys then Entry(Record(Online, now, 1, now), now + ttl)
    else if p in ids then Entry(keys[p].record, now + ttl)
    else keys[p]
  }

  /** Listed keys live a lifetime longer, missing ones are re-created ONLINE, the others are left alone. */
  ghost predicate Renewed(keys: Keys, keys': Keys, ids: seq<nat>, now: int, ttl: nat) {
    && keys'.Keys == keys.Keys + Elements(ids)
    && forall p :: p in keys' ==> keys'[p] == RenewedEntry(keys, ids, now, ttl, p)
  }

  lemma ElementsAre(ids: seq<nat>)
    ensures forall p :: p in Elements(ids) <==> p in ids
  {
  }

  /** As far as pass two got before it failed: only the missing players it reached are back. */
  ghost predicate PartlyRenewed(keys: Keys, keys': Keys, ids: seq<nat>, healed: seq<nat>, now: int, ttl: nat) {
    && keys'.Keys == keys.Keys + Elements(healed)
    && forall p :: p in keys' ==> keys'[p] == RenewedEntry(keys, ids, now, ttl, p)
  }

  lemma {:induction false} SilentlyHeals(s: Svc, ids: seq<nat>, now: int, ttl: nat, p: nat)
    requires forall q :: q in ids ==> q !in s.keys
    ensures var k := BeatSilently(s, ids, now, ttl).keys;
            && (p in ids ==> p in k && k[p] == Entry(Record(Online, now, 1, now), now + ttl))
            && (p !in ids ==> (p in k <==> p in s.keys) && (p in k ==> k[p] == s.keys[p]))
  {
    if ids != [] {
      SilentlyHeals(s, ids[..|ids| - 1], now, ttl, p);
      SilentlyHeals(s, ids[..|ids| - 1], now, ttl, ids[|ids| - 1]);
    }
  }

  lemma SilentlyLeaves(keys: Keys, s: Svc, ids: seq<nat>, healed: seq<nat>, now: int, ttl: nat)
    requires s.keys == Refresh(keys, Elements(ids), now + ttl) && forall q :: q in healed ==> q !in keys
    ensures PartlyRenewed(keys, BeatSilently(s, healed, now, ttl).keys, ids, healed, now, ttl)
  {
    var k := BeatSilently(s, healed, now, ttl).keys;
    hide BeatSilently;
    forall p ensures p in k <==> p in keys || p in healed { SilentlyHeals(s, healed, now, ttl, p); }
    forall p | p in k ensures k[p] == RenewedEntry(keys, ids, now, ttl, p) { SilentlyHeals(s, healed, now, ttl, p); }
  }

  lemma {:induction false} SilentGauge(s: Svc, ids: seq<nat>, now: int, ttl: nat)
    ensures BeatSilently(s, ids, now, ttl).gauge == s.gauge && BeatSilently(s, ids, now, ttl).bus == s.bus
  {
    if ids != [] { SilentGauge(s, ids[..|ids| - 1], now, ttl); }
  }

  lemma BeatNobody(s: Svc, now: int, ttl: nat, taken: set<nat>)
    ensures BeatMany(s, [], now, ttl, taken) == s && Missing(s.keys, []) == []
  {
    assert Refresh(s.keys, Elements([]), now + ttl) == s.keys;
  }
}
