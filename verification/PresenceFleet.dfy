/**
 * Connection counts across gateway replicas: each registered client sends one connect notice, each
 * unregistered one a disconnect notice, and notices reach the presence service in any order, among
 * state writes and heartbeats. No key expires, and no heartbeat re-creates one.
 */
module PresenceFleet {
  import opened Collections
  import opened Presence

  datatype Conn = Conn(replica: nat, player: nat)

  datatype Fleet = Fleet(
    conns: map<nat, Conn>,     // every client ever registered
    local: set<nat>,           // clients registered on their replica now
    ups: set<nat>,             // connect notices under way
    downs: set<nat>,           // disconnect notices under way
    counted: set<nat>,         // clients whose connect arrived and whose disconnect has not
    keys: map<nat, Record>,
    noted: set<nat>)           // players whose key a state write created and nobody has connected to since

  const INIT := Fleet(map[], {}, {}, {}, {}, map[], {})

  datatype Step =
    | Register(client: nat, replica: nat, player: nat)
    | Unregister(client: nat)
    | DeliverUp(client: nat, now: int)
    | DeliverDown(client: nat, now: int)
    | Beat(player: nat, now: int)
    | Change(player: nat, target: PState, now: int)

  predicate Enabled(f: Fleet, step: Step) {
    match step
    case Register(c, _, _) => c !in f.conns
    case Unregister(c) => c in f.local
    case DeliverUp(c, _) => c in f.ups && c in f.conns
    case DeliverDown(c, _) => c in f.downs && c in f.conns
    case Beat(p, _) => p in f.keys
    case Change(_, _, _) => true
  }

  /** The assumption on the network: no client's disconnect overtakes its connect. */
  predicate InOrder(f: Fleet, step: Step) {
    step.DeliverDown? ==> step.client !in f.ups
  }

  function Count(keys: map<nat, Record>, p: nat): int {
    Read(Lookup(keys, p)).connections
  }

  function Apply(f: Fleet, step: Step): Fleet
    requires Enabled(f, step)
  {
    match step
    case Register(c, replica, player) =>
      f.(conns := f.conns[c := Conn(replica, player)], local := f.local + {c}, ups := f.ups + {c})
    case Unregister(c) => f.(local := f.local - {c}, downs := f.downs + {c})
    case DeliverUp(c, now) =>
      var p := f.conns[c].player;
      f.(ups := f.ups - {c}, counted := f.counted + {c}, keys := Write(f.keys, p, Connect(Lookup(f.keys, p), now)),
         noted := f.noted - {p})
    case DeliverDown(c, now) =>
      var p := f.conns[c].player;
      f.(downs := f.downs - {c}, counted := f.counted - {c},
        keys := Write(f.keys, p, Disconnect(Lookup(f.keys, p), now)))
    case Beat(p, now) => f.(keys := Write(f.keys, p, Heartbeat(Lookup(f.keys, p), now)))
    case Change(p, target, now) =>
      f.(keys := Write(f.keys, p, SetState(Lookup(f.keys, p), target, now)),
         noted := if p !in f.keys && !Engaged(target) then f.noted + {p} else f.noted)
  }

  predicate Runs(f: Fleet, steps: seq<Step>)
    decreases |steps|
  {
    steps != [] ==> Enabled(f, steps[0]) && InOrder(f, steps[0]) && Runs(Apply(f, steps[0]), steps[1..])
  }

  function Final(f: Fleet, steps: seq<Step>): Fleet
    requires Runs(f, steps)
    decreases |steps|
  {
    if steps == [] then f else Final(Apply(f, steps[0]), steps[1..])
  }

  function Of(conns: map<nat, Conn>, clients: set<nat>, p: nat): set<nat> {
    set c | c in clients && c in conns && conns[c].player == p
  }

  ghost predicate Inv(f: Fleet) {
    && f.ups + f.downs + f.counted + f.local <= f.conns.Keys
    && f.ups !! f.counted && f.downs !! f.local
    && (forall c :: c in f.local ==> c in f.ups || c in f.counted)
    && (forall c :: c in f.downs ==> c in f.ups || c in f.counted)
    && (forall c :: c in f.ups || c in f.counted ==> c in f.local || c in f.downs)
    && (forall p :: CountOk(f, p))
  }

  predicate CountOk(f: Fleet, p: nat) {
    && Count(f.keys, p) == |Of(f.conns, f.counted, p)|
    && (p in f.keys <==> Count(f.keys, p) > 0 || p in f.noted)
    && (p in f.noted ==> Count(f.keys, p) == 0)
  }

  lemma CountsAfter(f: Fleet, step: Step, p: nat)
    requires Inv(f) && Enabled(f, step) && InOrder(f, step)
    ensures CountOk(Apply(f, step), p)
  {
    assert CountOk(f, p);
    if step.Beat? || step.Change? { return; }
    var g, c := Apply(f, step), step.client;
    if step.Register? {
      assert Of(g.conns, g.counted, p) == Of(f.conns, f.counted, p);
    } else if step.DeliverUp? {
      OfMoves(f.conns, f.counted, c, p);
    } else if step.DeliverDown? {
      OfMoves(f.conns, f.counted - {c}, c, p);
      assert f.counted - {c} + {c} == f.counted;
    }
  }

  lemma OfMoves(conns: map<nat, Conn>, clients: set<nat>, c: nat, p: nat)
    requires c in conns && c !in clients
    ensures |Of(conns, clients + {c}, p)| == |Of(conns, clients, p)| + (if conns[c].player == p then 1 else 0)
  {
    if conns[c].player == p {
      assert Of(conns, clients + {c}, p) == Of(conns, clients, p) + {c};
    } else {
      assert Of(conns, clients + {c}, p) == Of(conns, clients, p);
    }
  }

  lemma {:induction false} RunKeeps(f: Fleet, steps: seq<Step>)
    requires Inv(f) && Runs(f, steps)
    ensures Inv(Final(f, steps))
    decreases |steps|
  {
    if steps != [] {
      forall p ensures CountOk(Apply(f, steps[0]), p) { CountsAfter(f, steps[0], p); }
      RunKeeps(Apply(f, steps[0]), steps[1..]);
    }
  }

  /** A player's connections on one replica, and on any of several. */
  function On(f: Fleet, p: nat, replica: nat): set<nat> {
    set c | c in Of(f.conns, f.local, p) && f.conns[c].replica == replica
  }

  function Among(f: Fleet, p: nat, replicas: seq<nat>): set<nat> {
    set c | c in Of(f.conns, f.local, p) && f.conns[c].replica in replicas
  }

  /** Local connections of a player, replica by replica. */
  function LocalSum(f: Fleet, replicas: seq<nat>, p: nat): nat {
    if replicas == [] then 0 else
    LocalSum(f, replicas[..|replicas| - 1], p) + |On(f, p, replicas[|replicas| - 1])|
  }

  lemma AmongSplits(f: Fleet, p: nat, front: seq<nat>, replica: nat)
    requires replica !in front
    ensures Among(f, p, front + [replica]) == Among(f, p, front) + On(f, p, replica)
    ensures Among(f, p, front) !! On(f, p, replica)
  {
    hide Of;
  }

  lemma {:induction false} LocalSumCounts(f: Fleet, replicas: seq<nat>, p: nat)
    requires Distinct(replicas)
    ensures LocalSum(f, replicas, p) == |Among(f, p, replicas)|
  {
    if replicas == [] {
      assert Among(f, p, replicas) == {};
    } else {
      hide Among, On;
      var front, r := replicas[..|replicas| - 1], replicas[|replicas| - 1];
      LocalSumCounts(f, front, p);
      AmongSplits(f, p, front, r);
      assert front + [r] == replicas;
    }
  }

  /**
   * On every replica and under every delivery order that keeps each client's own notices in order,
   * with any state writes and heartbeats of live keys between them, the stored count is the
   * connections announced and not yet withdrawn; when no notice is under way it is the sum of the
   * replicas' local connections. A key is there exactly when that count is positive or a state write
   * made the key and nobody has connected since.
   */
  lemma CountTracksConnections(steps: seq<Step>, replicas: seq<nat>, p: nat)
    requires Runs(INIT, steps) && Distinct(replicas)
    requires forall c :: c in Final(INIT, steps).conns ==> Final(INIT, steps).conns[c].replica in replicas
    ensures var f := Final(INIT, steps);
            && Count(f.keys, p) == |Of(f.conns, f.counted, p)|
            && (p in f.keys <==> Count(f.keys, p) > 0 || p in f.noted)
            && (f.ups == {} && f.downs == {} ==> Count(f.keys, p) == LocalSum(f, replicas, p))
  {
    assert forall q :: Of(INIT.conns, INIT.counted, q) == {};
    RunKeeps(INIT, steps);
    var f := Final(INIT, steps);
    assert CountOk(f, p);
    if f.ups == {} && f.downs == {} {
      LocalSumCounts(f, replicas, p);
      assert f.counted == f.local;
      assert Of(f.conns, f.local, p) == Among(f, p, replicas);
    }
  }

  /**
   * Without that order a count can outlive its connection: a disconnect that overtakes its connect
   * leaves one behind.
   */
  lemma OvertakingLeavesAPhantom(up: int, down: int)
    ensures Net([Op.Down(down), Op.Up(up)]) == 0 && Read(After([Op.Down(down), Op.Up(up)])).connections == 1
  {
    var first, both := [Op.Down(down)], [Op.Down(down), Op.Up(up)];
    assert first[..0] == [] && both[..1] == first;
    assert Net(first) == -1 && After(first) == None;
  }

  /** So a key need not mean a connection: a state write leaves one with a count of zero. */
  lemma KeyWithoutConnection(p: nat, now: int)
    ensures var steps := [Change(p, Away, now)];
            && Runs(INIT, steps)
            && p in Final(INIT, steps).keys && Count(Final(INIT, steps).keys, p) == 0
  {
    var steps := [Change(p, Away, now)];
    assert steps[1..] == [];
    assert Runs(Apply(INIT, steps[0]), []);
    assert Final(INIT, steps) == Final(Apply(INIT, steps[0]), steps[1..]) == Apply(INIT, steps[0]);
  }
}
