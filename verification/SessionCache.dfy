/** The session store and its short-lived in-process cache. */
module SessionCache {
  import opened Collections

  datatype Cached = Cached(valid: bool, expiresAt: int)
  type Entries = map<nat, Cached>

  /** A verdict while it is fresh; an entry still serves at the very instant it expires. */
  function Get(e: Entries, jti: nat, now: int): Option<bool> {
    if jti in e && now <= e[jti].expiresAt then Some(e[jti].valid) else None
  }

  function Put(e: Entries, jti: nat, valid: bool, now: int, ttl: nat): Entries {
    e[jti := Cached(valid, now + ttl)]
  }

  function Swept(e: Entries, now: int): Entries {
    map jti | jti in e && now <= e[jti].expiresAt :: e[jti]
  }

  /** How a write to Redis went; with a lost reply it has applied and the caller sees an error. */
  datatype Reply = Replied | LostReply | Refused

  /** The cache and the store behind it. */
  datatype Cache = Cache(entries: Entries, inner: set<nat>)

  function Saved(c: Cache, jti: nat, now: int, reply: Reply, ttl: nat): Cache {
    match reply
    case Replied => Cache(Put(c.entries, jti, true, now, ttl), c.inner + {jti})
    case LostReply => c.(inner := c.inner + {jti})
    case Refused => c
  }

  function Deleted(c: Cache, jti: nat, reply: Reply): Cache {
    Cache(c.entries - {jti}, if reply == Refused then c.inner else c.inner - {jti})
  }

  /** The answer to a lookup; a miss asks Redis. */
  function Answer(c: Cache, jti: nat, now: int, innerOk: bool): Option<bool> {
    var hit := Get(c.entries, jti, now);
    if hit.Some? || !innerOk then hit else Some(jti in c.inner)
  }

  /** A lookup that missed caches what Redis answered. */
  function Asked(c: Cache, jti: nat, now: int, innerOk: bool, ttl: nat): Cache {
    if Get(c.entries, jti, now).Some? || !innerOk then c
    else c.(entries := Put(c.entries, jti, jti in c.inner, now, ttl))
  }

  /** A batch answer from the store's current view, position by position; None is a failed round trip. */
  method ExistsMany(live: Option<set<nat>>, jtis: seq<nat>) returns (out: Option<seq<bool>>)
    ensures out.Some? <==> live.Some?
    ensures out.Some? ==> |out.value| == |jtis| && forall i :: 0 <= i < |jtis| ==>
            (out.value[i] <==> jtis[i] in live.value)
  {
    if live.None? { return None; }
    var flags := new bool[|jtis|];
    for i := 0 to |jtis|
      invariant forall k :: 0 <= k < i ==> (flags[k] <==> jtis[k] in live.value)
    {
      flags[i] := jtis[i] in live.value;
    }
    out := Some(flags[..]);
  }

  class CachedStore {
    const ttl: nat
    var entries: Entries
    var inner: set<nat>   // sessions in Redis

    constructor (ttl: nat, inner: set<nat>)
      ensures this.ttl == ttl && this.inner == inner && entries == map[]
    {
      this.ttl, this.inner, entries := ttl, inner, map[];
    }

    ghost function View(): Cache reads this { Cache(entries, inner) }

    /** A save that Redis confirms seeds the cache; one that applied with its reply lost does not. */
    method Save(jti: nat, now: int, reply: Reply) returns (ok: bool)
      modifies this`entries, this`inner
      ensures View() == Saved(old(View()), jti, now, reply, ttl)
      ensures ok <==> reply.Replied?
      ensures inner == if reply.Refused? then old(inner) else old(inner) + {jti}
      ensures entries == if ok then old(entries)[jti := Cached(true, now + ttl)] else old(entries)
      ensures ok ==> forall t :: Get(entries, jti, t) == if t <= now + ttl then Some(true) else None
    {
      ok := false;
      if reply.Refused? { return; }
      inner := inner + {jti};
      if reply.LostReply? { return; }
      entries := Put(entries, jti, true, now, ttl);
      ok := true;
    }

    /** The local entry goes first, whatever Redis does or answers; the next lookup here asks Redis. */
    method Delete(jti: nat, reply: Reply) returns (ok: bool)
      modifies this`entries, this`inner
      ensures View() == Deleted(old(View()), jti, reply) && entries == old(entries) - {jti}
      ensures ok <==> reply.Replied?
      ensures inner == if reply.Refused? then old(inner) else old(inner) - {jti}
      ensures forall t :: Get(entries, jti, t) == None
      ensures forall j, t :: j != jti ==> Get(entries, j, t) == Get(old(entries), j, t)
    {
      entries := entries - {jti};
      if !reply.Refused? { inner := inner - {jti}; }
      ok := reply.Replied?;
    }

    /** Serves a fresh verdict, else asks Redis once and keeps the answer; an error is not cached. */
    method Exists(jti: nat, now: int, innerOk: bool) returns (r: Option<bool>)
      modifies this`entries
      ensures r == Answer(old(View()), jti, now, innerOk) && View() == Asked(old(View()), jti, now, innerOk, ttl)
      ensures jti in old(entries) && now <= old(entries)[jti].expiresAt ==>
                r == Some(old(entries)[jti].valid) && entries == old(entries)
      ensures !(jti in old(entries) && now <= old(entries)[jti].expiresAt) && innerOk ==>
                && r == Some(jti in inner) && entries == old(entries)[jti := Cached(jti in inner, now + ttl)]
                && forall t :: Get(entries, jti, t) == if t <= now + ttl then Some(jti in inner) else None
      ensures !(jti in old(entries) && now <= old(entries)[jti].expiresAt) && !innerOk ==>
                r == None && entries == old(entries)
    {
      r := Get(entries, jti, now);
      if r.Some? { return; }
      if !innerOk { return None; }
      var exists' := jti in inner;
      entries := Put(entries, jti, exists', now, ttl);
      r := Some(exists');
    }

    /** Collects the expired entries, then deletes them. */
    method Janitor(now: int)
      modifies this`entries
      ensures entries == Swept(old(entries), now)
      ensures forall jti :: jti in entries <==> jti in old(entries) && now <= old(entries)[jti].expiresAt
      ensures forall jti :: jti in entries ==> entries[jti] == old(entries)[jti]
    {
      var expired: set<nat> := {};
      var todo := entries.Keys;
      while todo != {}
        invariant todo <= entries.Keys && entries == old(entries)
        invariant expired == set jti | jti in entries.Keys - todo && entries[jti].expiresAt < now
        decreases todo
      {
        var jti :| jti in todo;
        todo := todo - {jti};
        if now > entries[jti].expiresAt { expired := expired + {jti}; }
      }
      entries := entries - expired;
    }
  }

  // --- The janitor is invisible ------------------------------------------------------------------

  /** The calls on one replica, what else changes Redis, and the janitor. */
  datatype Op =
    | Exists(jti: nat, at: int, innerOk: bool)
    | Save(jti: nat, at: int, reply: Reply)
    | Delete(jti: nat, at: int, reply: Reply)
    | Outside(live: set<nat>, at: int)
    | Sweep(at: int)

  predicate InTime(ops: seq<Op>, from: int) {
    && (forall i :: 0 <= i < |ops| ==> from <= ops[i].at)
    && (forall i, j :: 0 <= i < j < |ops| ==> ops[i].at <= ops[j].at)
  }

  function Step(c: Cache, op: Op, ttl: nat): Cache {
    match op
    case Exists(jti, at, innerOk) => Asked(c, jti, at, innerOk, ttl)
    case Save(jti, at, reply) => Saved(c, jti, at, reply, ttl)
    case Delete(jti, _, reply) => Deleted(c, jti, reply)
    case Outside(live, _) => c.(inner := live)
    case Sweep(at) => c.(entries := Swept(c.entries, at))
  }

  /** What each lookup answers in turn. */
  function Answers(c: Cache, ops: seq<Op>, ttl: nat): seq<Option<bool>>
    decreases |ops|
  {
    if ops == [] then [] else
    (if ops[0].Exists? then [Answer(c, ops[0].jti, ops[0].at, ops[0].innerOk)] else [])
    + Answers(Step(c, ops[0], ttl), ops[1..], ttl)
  }

  function WithoutSweeps(ops: seq<Op>): seq<Op> {
    if ops == [] then [] else (if ops[0].Sweep? then [] else [ops[0]]) + WithoutSweeps(ops[1..])
  }

  /** Two caches over the same store that no lookup from time t on can tell apart. */
  ghost predicate Alike(c: Cache, d: Cache, t: int) {
    c.inner == d.inner && forall jti, u :: t <= u ==> Get(c.entries, jti, u) == Get(d.entries, jti, u)
  }

  lemma AlikeStep(c: Cache, d: Cache, op: Op, t: int, ttl: nat)
    requires Alike(c, d, t) && t <= op.at
    ensures Alike(Step(c, op, ttl), if op.Sweep? then d else Step(d, op, ttl), op.at)
  {
    var c', d' := Step(c, op, ttl), if op.Sweep? then d else Step(d, op, ttl);
    if op.Exists? { assert Get(c.entries, op.jti, op.at) == Get(d.entries, op.jti, op.at); }
    forall jti, u | op.at <= u ensures Get(c'.entries, jti, u) == Get(d'.entries, jti, u) {
      assert Get(c.entries, jti, u) == Get(d.entries, jti, u);
    }
  }

  /** Sweeping at any times changes no answer of any history, and so nothing a missed lookup caches. */
  lemma {:induction false} JanitorInvisible(c: Cache, d: Cache, ops: seq<Op>, t: int, ttl: nat)
    requires Alike(c, d, t) && InTime(ops, t)
    ensures Answers(c, ops, ttl) == Answers(d, WithoutSweeps(ops), ttl)
    decreases |ops|
  {
    if ops != [] {
      var op, rest := ops[0], ops[1..];
      AlikeStep(c, d, op, t, ttl);
      var d' := if op.Sweep? then d else Step(d, op, ttl);
      JanitorInvisible(Step(c, op, ttl), d', rest, op.at, ttl);
      if op.Exists? { assert Get(c.entries, op.jti, op.at) == Get(d.entries, op.jti, op.at); }
      if op.Sweep? {
        assert WithoutSweeps(ops) == WithoutSweeps(rest);
      } else {
        assert ([op] + WithoutSweeps(rest))[1..] == WithoutSweeps(rest);
      }
    }
  }
}
