/** The session sweep: closes connections whose token expired or whose session is gone. */
module Sweep {
  import opened Collections
  import opened Hub
  import SessionCache

  const SWEEP_BATCH := 1000

  predicate Expired(c: Client, now: int) {
    c.expires.Some? && now > c.expires.value
  }

  /** The snapshot without its expired connections, in order. */
  function LiveOf(s: seq<Client>, now: int): seq<Client> {
    if s == [] then [] else
    LiveOf(s[..|s| - 1], now) + (if Expired(s[|s| - 1], now) then [] else [s[|s| - 1]])
  }

  lemma {:induction false} LiveOfHas(s: seq<Client>, now: int)
    ensures |LiveOf(s, now)| <= |s|
    ensures forall c :: c in LiveOf(s, now) <==> c in s && !Expired(c, now)
    ensures Distinct(s) ==> Distinct(LiveOf(s, now))
  {
    if s != [] {
      var front := s[..|s| - 1];
      LiveOfHas(front, now);
      assert forall c :: c in s <==> c in front || c == s[|s| - 1];
      if Distinct(s) {
        assert s[|s| - 1] !in front;
      }
    }
  }

  lemma LiveOfNext(s: seq<Client>, i: nat, now: int)
    requires i < |s|
    ensures LiveOf(s[..i + 1], now) == LiveOf(s[..i], now) + (if Expired(s[i], now) then [] else [s[i]])
  {
    assert s[..i + 1][..i] == s[..i];
  }

  /** Lookups of batches 0 to k all succeeded. */
  predicate Reached(lookup: nat -> Option<set<nat>>, k: nat) {
    forall b :: 0 <= b <= k ==> lookup(b).Some?
  }

  /** Whether the connection at position j of the live list is closed as revoked. */
  predicate Revoked(live: seq<Client>, lookup: nat -> Option<set<nat>>, j: nat)
    requires j < |live|
  {
    var k := j / SWEEP_BATCH;
    Reached(lookup, k) && live[j].session !in lookup(k).value
  }

  ghost function Told(c: Client, now: int): seq<Reason> {
    if Expired(c, now) then [TokenExpired] else []
  }

  /** Filters in place over the slice it reads: the write index never passes the read index. */
  method CloseExpired(a: array<Client>, ghost s: seq<Client>, now: int) returns (n: nat)
    requires a[..] == s && Distinct(s) && forall k :: 0 <= k < |s| ==> s[k].connected
    modifies a, s`closes
    ensures n <= a.Length && a[..n] == LiveOf(s, now)
    ensures forall k :: 0 <= k < |s| ==> s[k].closes == old(s[k].closes) + Told(s[k], now)
  {
    n := 0;
    assert LiveOf(s[..0], now) == [];
    hide LiveOf;
    for i := 0 to a.Length
      invariant n <= i && a[..n] == LiveOf(s[..i], now)
      invariant forall k :: i <= k < a.Length ==> a[k] == s[k]
      invariant forall k :: 0 <= k < |s| ==> s[k].closes == old(s[k].closes) + (if k < i then Told(s[k], now) else [])
    {
      var c := a[i];
      LiveOfNext(s, i, now);
      assert forall k :: 0 <= k < |s| && k != i ==> s[k] != c;
      if c.expires.Some? && now > c.expires.value {
        c.CloseWith(TokenExpired);
      } else {
        a[n] := c;
        n := n + 1;
      }
    }
    assert s[..a.Length] == s;
  }

  /** Checks one batch and closes the connections whose session is gone; a failed lookup closes none. */
  method CheckBatch(batch: seq<Client>, live: Option<set<nat>>) returns (ok: bool)
    requires Distinct(batch) && forall i :: 0 <= i < |batch| ==> batch[i].connected
    modifies batch`closes
    ensures ok == live.Some?
    ensures forall i :: 0 <= i < |batch| ==>
              batch[i].closes == old(batch[i].closes)
                + (if ok && batch[i].session !in live.value then [SessionRevoked] else [])
  {
    var jtis: seq<nat> := [];
    for i := 0 to |batch|
      modifies {}
      invariant |jtis| == i && forall k :: 0 <= k < i ==> jtis[k] == batch[k].session
    {
      jtis := jtis + [batch[i].session];
    }
    var exists' := SessionCache.ExistsMany(live, jtis);
    if exists'.None? { return false; }
    for i := 0 to |batch|
      invariant forall k :: 0 <= k < i ==>
                  batch[k].closes == old(batch[k].closes)
                    + (if batch[k].session !in live.value then [SessionRevoked] else [])
      invariant forall k :: i <= k < |batch| ==> batch[k].closes == old(batch[k].closes)
    {
      if !exists'.value[i] {
        batch[i].CloseWith(SessionRevoked);
      }
    }
    ok := true;
  }

  /** The connections of the hub that have a socket, in some order. */
  method TakeSnapshot(h: Hub) returns (snapshot: seq<Client>)
    ensures Distinct(snapshot) && Elements(snapshot) == set c | c in h.clients && c.connected
  {
    snapshot := [];
    var todo := h.clients;
    while todo != {}
      invariant todo <= h.clients && Distinct(snapshot)
      invariant Elements(snapshot) == set c | c in h.clients - todo && c.connected
      decreases todo
    {
      var c :| c in todo;
      assert c !in Elements(snapshot);
      todo := todo - {c};
      if c.connected {
        assert Elements(snapshot + [c]) == Elements(snapshot) + {c};
        snapshot := snapshot + [c];
      }
    }
  }

  /** Walks the live list in batches; a failed lookup ends the walk and keeps everything from there on. */
  method CheckSessions(live: seq<Client>, lookup: nat -> Option<set<nat>>)
    requires Distinct(live) && forall i :: 0 <= i < |live| ==> live[i].connected
    modifies live`closes
    ensures forall j :: 0 <= j < |live| ==>
              live[j].closes == old(live[j].closes) + (if Revoked(live, lookup, j) then [SessionRevoked] else [])
  {
    var start: nat, k: nat := 0, 0;
    while start < |live|
      invariant start == k * SWEEP_BATCH && (k > 0 ==> Reached(lookup, k - 1))
      invariant forall j :: 0 <= j < |live| && j < start ==>
                  live[j].closes == old(live[j].closes) + (if Revoked(live, lookup, j) then [SessionRevoked] else [])
      invariant forall j :: start <= j < |live| ==> live[j].closes == old(live[j].closes)
    {
      var stop := if start + SWEEP_BATCH <= |live| then start + SWEEP_BATCH else |live|;
      var ok := CheckRange(live, start, stop, lookup(k));
      if !ok {
        forall j | start <= j < |live| ensures !Revoked(live, lookup, j) { LaterBatch(j, k); }
        return;
      }
      forall j | start <= j < stop ensures Revoked(live, lookup, j) <==> live[j].session !in lookup(k).value {
        BatchOf(j, k);
      }
      start, k := start + SWEEP_BATCH, k + 1;
    }
  }

  /** The batch at positions start to stop of the live list. */
  method CheckRange(live: seq<Client>, start: nat, stop: nat, found: Option<set<nat>>) returns (ok: bool)
    requires start <= stop <= |live| && Distinct(live) && forall i :: 0 <= i < |live| ==> live[i].connected
    modifies live[start..stop]`closes
    ensures ok == found.Some?
    ensures forall j :: start <= j < stop ==>
              live[j].closes == old(live[j].closes)
                + (if ok && live[j].session !in found.value then [SessionRevoked] else [])
    ensures forall j :: 0 <= j < |live| && !(start <= j < stop) ==> live[j].closes == old(live[j].closes)
  {
    var batch := live[start..stop];
    assert forall j :: start <= j < stop ==> live[j] == batch[j - start];
    ok := CheckBatch(batch, found);
  }

  lemma BatchOf(j: nat, k: nat)
    requires k * SWEEP_BATCH <= j < k * SWEEP_BATCH + SWEEP_BATCH
    ensures j / SWEEP_BATCH == k
  {
  }

  lemma LaterBatch(j: nat, k: nat)
    requires k * SWEEP_BATCH <= j
    ensures j / SWEEP_BATCH >= k
  {
  }

  /**
   * One sweep over an arbitrary order of the hub's connections. Every expired one is closed once, as
   * expired. An unexpired one is closed, once and as revoked, exactly when the lookups up to its
   * batch succeeded and its batch did not find its session. Nobody else is touched.
   */
  method SweepSessions(h: Hub, now: int, lookup: nat -> Option<set<nat>>) returns (ghost snapshot: seq<Client>)
    modifies h.clients`closes
    ensures Distinct(snapshot) && Elements(snapshot) == set c | c in h.clients && c.connected
    ensures forall c :: c in h.clients && !c.connected ==> c.closes == old(c.closes)
    ensures forall c :: c in h.clients && c.connected && c.expires.Some? && now > c.expires.value ==>
              c.closes == old(c.closes) + [TokenExpired]
    ensures var live := LiveOf(snapshot, now);
            && (forall c :: c in live <==> c in h.clients && c.connected && (c.expires.None? || now <= c.expires.value))
            && (forall j :: 0 <= j < |live| ==>
                  && live[j] in h.clients
                  && live[j].closes == old(live[j].closes)
                                       + (if Revoked(live, lookup, j) then [SessionRevoked] else []))
    ensures forall found, c :: AllFind(lookup, found) && c in h.clients && c.connected
                               && (c.expires.None? || now <= c.expires.value) ==>
              c.closes == old(c.closes) + (if c.session in found then [] else [SessionRevoked])
  {
    var taken := TakeSnapshot(h);
    snapshot := taken;
    assert forall k :: 0 <= k < |taken| ==> taken[k] in Elements(taken);
    SweepSnapshot(taken, now, lookup);
    LiveOfHas(taken, now);
    forall c | c in h.clients && c.connected && Expired(c, now) ensures c.closes == old(c.closes) + [TokenExpired] {
      assert c in Elements(taken);
      var k :| 0 <= k < |taken| && taken[k] == c;
    }
    var live := LiveOf(taken, now);
    forall c ensures c in live <==> c in h.clients && c.connected && (c.expires.None? || now <= c.expires.value) {
      assert c in taken <==> c in Elements(taken);
    }
    forall found, c | AllFind(lookup, found) && c in h.clients && c in live
      ensures c.closes == old(c.closes) + (if c.session in found then [] else [SessionRevoked]) {
      var j :| 0 <= j < |live| && live[j] == c;
      FoundByAll(live, lookup, found, j);
    }
  }

  /** Every lookup succeeds and sees the same sessions. */
  ghost predicate AllFind(lookup: nat -> Option<set<nat>>, found: set<nat>) {
    forall b: nat :: lookup(b) == Some(found)
  }

  lemma FoundByAll(live: seq<Client>, lookup: nat -> Option<set<nat>>, found: set<nat>, j: nat)
    requires j < |live| && AllFind(lookup, found)
    ensures Revoked(live, lookup, j) <==> live[j].session !in found
  {
  }

  /** The first pass over a snapshot: closes the expired connections and returns the rest. */
  method DropExpired(taken: seq<Client>, now: int) returns (live: seq<Client>)
    requires Distinct(taken) && forall k :: 0 <= k < |taken| ==> taken[k].connected
    modifies taken`closes
    ensures live == LiveOf(taken, now)
    ensures forall k :: 0 <= k < |taken| ==> taken[k].closes == old(taken[k].closes) + Told(taken[k], now)
  {
    hide LiveOf;
    var clients := new Client[|taken|](i requires 0 <= i < |taken| => taken[i]);
    assert clients[..] == taken;
    var n := CloseExpired(clients, taken, now);
    live := clients[..n];
  }

  lemma LiveFound(taken: seq<Client>, now: int, live: seq<Client>)
    requires live == LiveOf(taken, now) && Distinct(taken)
    ensures Distinct(live)
    ensures forall j :: 0 <= j < |live| ==> live[j] in taken && !Expired(live[j], now)
    ensures forall k :: 0 <= k < |taken| && Expired(taken[k], now) ==> taken[k] !in live
  {
    LiveOfHas(taken, now);
    forall j | 0 <= j < |live| ensures live[j] in taken && !Expired(live[j], now) { assert live[j] in live; }
  }

  method SweepSnapshot(taken: seq<Client>, now: int, lookup: nat -> Option<set<nat>>)
    requires Distinct(taken) && forall k :: 0 <= k < |taken| ==> taken[k].connected
    modifies taken`closes
    ensures forall k :: 0 <= k < |taken| && Expired(taken[k], now) ==>
              taken[k].closes == old(taken[k].closes) + [TokenExpired]
    ensures var live := LiveOf(taken, now);
            forall j :: 0 <= j < |live| ==>
              && live[j] in taken
              && live[j].closes == old(live[j].closes) + (if Revoked(live, lookup, j) then [SessionRevoked] else [])
  {
    hide LiveOf, Revoked, Expired;
    var live := DropExpired(taken, now);
    LiveFound(taken, now, live);
    forall j | 0 <= j < |live| ensures live[j] in taken && live[j].closes == old(live[j].closes) {
      var k :| 0 <= k < |taken| && taken[k] == live[j];
      assert taken[k].closes == old(taken[k].closes) + Told(taken[k], now);
    }
    CheckSessions(live, lookup);
  }
}
