/** Presence records and the four Redis scripts that change them. */
module Presence {
  import opened Collections

  datatype PState = Offline | Online | InQueue | InMatch | Away | Unknown(name: string)

  predicate Valid(s: PState) {
    !s.Unknown?
  }

  /** States that need an active connection. */
  predicate Engaged(s: PState) {
    s == InQueue || s == InMatch
  }

  predicate CanTransition(from: PState, to: PState) {
    Valid(to) && !(from == Offline && Engaged(to))
  }

  datatype Record = Record(state: PState, lastSeen: int, connections: int, updatedAt: int)

  const OFFLINE_RECORD := Record(Offline, 0, 0, 0)

  /** The record a key reads as: a missing key is OFFLINE. */
  function Read(raw: Option<Record>): Record {
    if raw.Some? then raw.value else OFFLINE_RECORD
  }

  datatype Mutation = Mutation(previous: Record, current: Record)

  /** A script's effect on its key, and the before/after pair it returns. */
  datatype Effect = Effect(after: Option<Record>, mutation: Mutation)

  function Stamped(r: Record, now: int): Record {
    r.(lastSeen := now, updatedAt := now)
  }

  function Wrote(prev: Record, cur: Record): Effect {
    Effect(Some(cur), Mutation(prev, cur))
  }

  function Connect(raw: Option<Record>, now: int): Effect {
    var prev := Read(raw);
    var cur := prev.(connections := prev.connections + 1,
      state := if prev.state == Offline then Online else prev.state);
    Wrote(prev, Stamped(cur, now))
  }

  function Disconnect(raw: Option<Record>, now: int): Effect {
    var prev := Read(raw);
    if prev.connections - 1 <= 0
    then Effect(None, Mutation(prev, Record(Offline, now, 0, now)))
    else Wrote(prev, Stamped(prev.(connections := prev.connections - 1), now))
  }

  function Heartbeat(raw: Option<Record>, now: int): Effect {
    var prev := Read(raw);
    var cur := if raw.None? then prev.(connections := 1, state := Online) else prev;
    Wrote(prev, Stamped(cur, now))
  }

  function SetState(raw: Option<Record>, target: PState, now: int): Effect {
    var prev := Read(raw);
    if raw.None? && Engaged(target) then Effect(None, Mutation(prev, prev)) else
    Wrote(prev, prev.(state := target, updatedAt := now, lastSeen := if prev.lastSeen == 0 then now else prev.lastSeen))
  }

  /** The state write succeeds exactly when the key is there or the target needs no connection. */
  lemma SetStateTakesEffect(raw: Option<Record>, target: PState, now: int)
    ensures SetState(raw, target, now).after.Some? <==> raw.Some? || !Engaged(target)
    ensures SetState(raw, target, now).after.Some? ==> Read(SetState(raw, target, now).after).state == target
    ensures Read(SetState(raw, target, now).after).connections == Read(raw).connections
  {
  }

  // --- A whole store of keys -----------------------------------------------------------------------

  function Lookup(keys: map<nat, Record>, p: nat): Option<Record> {
    if p in keys then Some(keys[p]) else None
  }

  function Write(keys: map<nat, Record>, p: nat, e: Effect): map<nat, Record> {
    if e.after.Some? then keys[p := e.after.value] else keys - {p}
  }

  // --- Counting connections ---------------------------------------------------------------------

  datatype Op = Up(now: int) | Down(now: int)

  /** The key after connects and disconnects, oldest first, starting with no key. */
  function After(ops: seq<Op>): Option<Record> {
    if ops == [] then None else
    var raw := After(ops[..|ops| - 1]);
    match ops[|ops| - 1] case Up(now) => Connect(raw, now).after case Down(now) => Disconnect(raw, now).after
  }

  /** Connects minus disconnects. */
  function Net(ops: seq<Op>): int {
    if ops == [] then 0 else Net(ops[..|ops| - 1]) + (if ops[|ops| - 1].Up? then 1 else -1)
  }

  /** c is the largest net count of any suffix, the empty one included. */
  ghost predicate BestSuffix(ops: seq<Op>, c: int) {
    && (exists k :: 0 <= k <= |ops| && Net(ops[k..]) == c)
    && (forall k :: 0 <= k <= |ops| ==> Net(ops[k..]) <= c)
  }

  lemma {:induction false} BestSuffixExtends(ops: seq<Op>, op: Op, c: int)
    requires BestSuffix(ops, c) && c >= 0
    ensures BestSuffix(ops + [op], if op.Up? then c + 1 else if c > 0 then c - 1 else 0)
  {
    var all := ops + [op];
    var d := if op.Up? then 1 else -1;
    forall k | 0 <= k <= |ops| ensures Net(all[k..]) == Net(ops[k..]) + d {
      assert all[k..] == ops[k..] + [op];
      assert (ops[k..] + [op])[..|ops| - k] == ops[k..];
    }
    assert all[|all|..] == [];
    var best := if op.Up? then c + 1 else if c > 0 then c - 1 else 0;
    if !op.Up? && c == 0 {
      assert Net(all[|all|..]) == best;
    } else {
      var k :| 0 <= k <= |ops| && Net(ops[k..]) == c;
      assert Net(all[k..]) == best;
    }
  }

  /**
   * Whatever the order, surplus disconnects included, the stored count is the best suffix of the
   * history, and the key exists, ONLINE, exactly when that is positive.
   */
  lemma {:induction false} CountIsBestSuffix(ops: seq<Op>)
    ensures BestSuffix(ops, Read(After(ops)).connections)
    ensures After(ops).Some? <==> Read(After(ops)).connections > 0
    ensures After(ops).Some? ==> After(ops).value.state == Online
    ensures Read(After(ops)).connections >= 0
  {
    if ops == [] {
      assert ops[0..] == [];
      assert Net(ops[0..]) == 0;
    } else {
      var before, op := ops[..|ops| - 1], ops[|ops| - 1];
      CountIsBestSuffix(before);
      assert ops == before + [op];
      BestSuffixExtends(before, op, Read(After(before)).connections);
    }
  }

  lemma {:induction false} NetSplit(ops: seq<Op>, k: nat)
    requires k <= |ops|
    ensures Net(ops) == Net(ops[..k]) + Net(ops[k..])
  {
    if k == |ops| {
      assert ops[..k] == ops && ops[k..] == [];
    } else {
      var before := ops[..|ops| - 1];
      NetSplit(before, k);
      assert before[..k] == ops[..k];
      assert ops[k..][..|ops| - k - 1] == before[k..];
    }
  }

  /**
   * The count is connects minus disconnects exactly when no prefix of the history disconnects more than
   * it connects.
   */
  lemma CountIsNetIff(ops: seq<Op>)
    ensures Read(After(ops)).connections == Net(ops) <==> forall k :: 0 <= k <= |ops| ==> Net(ops[..k]) >= 0
  {
    var c := Read(After(ops)).connections;
    CountIsBestSuffix(ops);
    assert ops[0..] == ops && Net(ops[0..]) <= c;
    if c == Net(ops) {
      forall k | 0 <= k <= |ops| ensures Net(ops[..k]) >= 0 {
        NetSplit(ops, k);
        assert Net(ops[k..]) <= c;
      }
    }
    if forall k :: 0 <= k <= |ops| ==> Net(ops[..k]) >= 0 {
      var k :| 0 <= k <= |ops| && Net(ops[k..]) == c;
      NetSplit(ops, k);
      assert Net(ops[..k]) >= 0;
    }
  }
}
