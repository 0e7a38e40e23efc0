/** What the presence bus and the stored states say about the run that made them. */
module PresenceTrace {
  import opened Collections
  import opened Presence
  import opened PresenceService

  // --- The bus against the gauge and the states --------------------------------------------------

  function Count(bus: seq<Event>, kind: Kind): nat {
    if bus == [] then 0 else Count(bus[..|bus| - 1], kind) + (if bus[|bus| - 1].kind == kind then 1 else 0)
  }

  lemma CountMore(bus: seq<Event>, e: Event, kind: Kind)
    ensures Count(bus + [e], kind) == Count(bus, kind) + (if e.kind == kind then 1 else 0)
  {
    assert (bus + [e])[..|bus|] == bus;
  }

  /** An event says OFFLINE exactly when the player is OFFLINE now, and ONLINE exactly when they were before. */
  predicate TrueKind(e: Event) {
    && e.previous != e.state
    && (e.kind == WentOffline <==> e.state == Offline)
    && (e.kind == WentOnline <==> e.previous == Offline)
  }

  lemma {:induction false} HeardTrue(log: seq<Change>)
    requires forall i :: 0 <= i < |log| ==> log[i].from != log[i].to
    ensures forall k :: 0 <= k < |Heard(log)| ==> TrueKind(Heard(log)[k])
  {
    if log != [] { HeardTrue(log[..|log| - 1]); }
  }

  lemma {:induction false} HeardBalances(log: seq<Change>)
    requires forall i :: 0 <= i < |log| ==> log[i].from != log[i].to
    ensures Count(Heard(log), WentOnline) - Count(Heard(log), WentOffline) == Balance(log, Sent)
  {
    if log != [] {
      var front, c := log[..|log| - 1], log[|log| - 1];
      HeardBalances(front);
      assert c.notice != Sent ==> Heard(log) == Heard(front);
      CountMore(Heard(front), Told(c), WentOnline);
      CountMore(Heard(front), Told(c), WentOffline);
    }
  }

  predicate AllTaken(steps: seq<Step>) {
    forall i :: 0 <= i < |steps| ==>
      match steps[i]
      case SConnect(_, _, notice) => notice != Dropped case SDisconnect(_, _, notice) => notice != Dropped
      case SHeartbeat(_, _, notice) => notice != Dropped case SSetState(_, _, _, notice) => notice != Dropped
      case SBulk(ids, _, _, taken) => Elements(ids) <= taken case SExpire(_) => true
  }

  predicate NoneIs(log: seq<Change>, notice: Notice) {
    forall i :: 0 <= i < |log| ==> log[i].notice != notice
  }

  lemma {:induction false} SilentlyNotDropped(s: Svc, ids: seq<nat>, now: int, ttl: nat)
    requires NoneIs(s.log, Dropped)
    ensures NoneIs(BeatSilently(s, ids, now, ttl).log, Dropped)
  {
    if ids != [] { SilentlyNotDropped(s, ids[..|ids| - 1], now, ttl); }
  }

  /** A bulk heartbeat whose events are all taken logs them as sent. */
  lemma BulkSent(s: Svc, ids: seq<nat>, now: int, ttl: nat, taken: set<nat>, notice: Notice)
    requires NoneIs(s.log, notice) && Elements(ids) <= taken && notice != Sent
    ensures NoneIs(BeatMany(s, ids, now, ttl, taken).log, notice)
  {
    var missed := Missing(s.keys, ids);
    AnnounceHealedKeeps(s.(keys := Heal(Refresh(s.keys, Elements(ids), now + ttl), missed, now, ttl)), missed, now,
      taken);
    hide Heal, Refresh, Missing;
    forall i | 0 <= i < |missed| ensures missed[i] in taken {
      MissingHas(s.keys, ids, missed[i]);
      assert missed[i] in Elements(ids);
    }
  }

  lemma StepNotDropped(s: Svc, ttl: nat, step: Step)
    requires NoneIs(s.log, Dropped) && AllTaken([step])
    ensures NoneIs(Do(s, ttl, step).log, Dropped)
  {
    hide BeatSilently, BeatMany, Refresh, Missing;
    assert [step][0] == step;
    if step.SBulk? {
      if step.fault.NoFault? { BulkSent(s, step.ids, step.now, ttl, step.taken, Dropped); }
      if step.fault.HealFails? {
        SilentlyNotDropped(s.(keys := Refresh(s.keys, Elements(step.ids), step.now + ttl)),
                           Partly(Missing(s.keys, step.ids), step.fault.done), step.now, ttl);
      }
    }
  }

  lemma {:induction false} NoneDropped(ttl: nat, steps: seq<Step>)
    requires AllTaken(steps)
    ensures NoneIs(Final(ttl, steps).log, Dropped)
  {
    hide Do;
    if steps != [] {
      NoneDropped(ttl, steps[..|steps| - 1]);
      var last := steps[|steps| - 1];
      assert AllTaken([last]);
      StepNotDropped(Final(ttl, steps[..|steps| - 1]), ttl, last);
    }
  }

  lemma {:induction false} BalanceOfNone(log: seq<Change>, notice: Notice)
    requires NoneIs(log, notice)
    ensures Balance(log, notice) == 0
  {
    if log != [] { BalanceOfNone(log[..|log| - 1], notice); }
  }

  /**
   * In every run each event on the bus is of the kind its two states call for, and the online gauge is the
   * ONLINE events less the OFFLINE events, up to the changes the bus dropped.
   */
  lemma GaugeCountsEvents(ttl: nat, steps: seq<Step>)
    requires BulkDistinct(steps)
    ensures var s := Final(ttl, steps);
            && (forall k :: 0 <= k < |s.bus| ==> TrueKind(s.bus[k]))
            && s.gauge == Count(s.bus, WentOnline) - Count(s.bus, WentOffline) + Balance(s.log, Dropped)
            && (AllTaken(steps) ==> s.gauge == Count(s.bus, WentOnline) - Count(s.bus, WentOffline))
  {
    hide Do, Final, Balance, Heard, Count;
    GaugeAccountsForEveryState(ttl, steps);
    var s := Final(ttl, steps);
    HeardTrue(s.log);
    HeardBalances(s.log);
    if AllTaken(steps) {
      NoneDropped(ttl, steps);
      BalanceOfNone(s.log, Dropped);
    }
  }

  // --- Nothing hidden: the events chain by themselves ---------------------------------------------

  /** The state the events leave a player in. */
  function LastHeard(bus: seq<Event>, p: nat): PState {
    if bus == [] then Offline
    else if bus[|bus| - 1].player == p then bus[|bus| - 1].state
    else LastHeard(bus[..|bus| - 1], p)
  }

  predicate AllHeard(steps: seq<Step>) {
    forall i :: 0 <= i < |steps| ==>
      match steps[i]
      case SConnect(_, _, notice) => notice == Sent case SDisconnect(_, _, notice) => notice == Sent
      case SHeartbeat(_, _, notice) => notice == Sent case SSetState(_, _, _, notice) => notice == Sent
      case SBulk(ids, _, fault, taken) => !fault.HealFails? && Elements(ids) <= taken case SExpire(_) => false
  }

  predicate AllSent(log: seq<Change>) {
    NoneIs(log, Dropped) && NoneIs(log, Silent)
  }

  lemma StepSent(s: Svc, ttl: nat, step: Step)
    requires AllSent(s.log) && AllHeard([step])
    ensures AllSent(Do(s, ttl, step).log)
  {
    hide BeatSilently, BeatMany, Refresh, Missing;
    assert [step][0] == step;
    if step.SBulk? && step.fault.NoFault? {
      BulkSent(s, step.ids, step.now, ttl, step.taken, Dropped);
      BulkSent(s, step.ids, step.now, ttl, step.taken, Silent);
    }
  }

  lemma {:induction false} RunSent(ttl: nat, steps: seq<Step>)
    requires AllHeard(steps)
    ensures AllSent(Final(ttl, steps).log)
  {
    hide Do;
    if steps != [] {
      RunSent(ttl, steps[..|steps| - 1]);
      var last := steps[|steps| - 1];
      assert AllHeard([last]);
      StepSent(Final(ttl, steps[..|steps| - 1]), ttl, last);
    }
  }

  lemma {:induction false} HeardAll(log: seq<Change>)
    requires AllSent(log)
    ensures |Heard(log)| == |log| && forall i :: 0 <= i < |log| ==> Heard(log)[i] == Told(log[i])
    ensures forall p :: LastHeard(Heard(log), p) == LastOf(log, p)
  {
    if log != [] {
      var front := log[..|log| - 1];
      HeardAll(front);
      assert Heard(log)[..|front|] == Heard(front);
    }
  }

  lemma {:induction false} HeardPrefix(log: seq<Change>, i: nat)
    requires AllSent(log) && i <= |log|
    ensures i <= |Heard(log)| && Heard(log)[..i] == Heard(log[..i])
  {
    HeardAll(log);
    HeardAll(log[..i]);
  }

  /**
   * When no reply and no event is lost and nothing expires, a subscriber can follow every player: each
   * event starts in the state the player's last one ended in, OFFLINE at first, and the last one gives the
   * state that is stored.
   */
  lemma EventsChain(ttl: nat, steps: seq<Step>)
    requires BulkDistinct(steps) && AllHeard(steps)
    ensures var s := Final(ttl, steps);
            && (forall i :: 0 <= i < |s.bus| ==> s.bus[i].previous == LastHeard(s.bus[..i], s.bus[i].player))
            && (forall p :: LastHeard(s.bus, p) == StateAt(s.keys, p))
  {
    hide Do, Final, Balance, Heard, LastOf, LastHeard, StateAt;
    GaugeAccountsForEveryState(ttl, steps);
    RunSent(ttl, steps);
    var s := Final(ttl, steps);
    HeardAll(s.log);
    forall i | 0 <= i < |s.bus| ensures s.bus[i].previous == LastHeard(s.bus[..i], s.bus[i].player) {
      HeardPrefix(s.log, i);
      HeardAll(s.log[..i]);
      assert s.bus[i] == Told(s.log[i]);
    }
  }

  // --- A stored state is the one last asked for -----------------------------------------------------

  /** The keys after the first i steps. */
  function At(ttl: nat, steps: seq<Step>, i: nat): Keys
    requires i <= |steps|
  {
    Final(ttl, steps[..i]).keys
  }

  /** The check in Go lets this call through: the state is known, and only a player who is not OFFLINE is engaged. */
  predicate Passes(keys: Keys, step: Step, p: nat) {
    && step.SSetState? && step.player == p && !step.target.Unknown?
    && ((step.target == InQueue || step.target == InMatch) ==> p in keys && keys[p].record.state != Offline)
  }

  /** Step m is the last state write of p that was let through, and the key has been there ever since. */
  ghost predicate LastSet(ttl: nat, steps: seq<Step>, p: nat, m: nat) {
    && m < |steps| && Passes(At(ttl, steps, m), steps[m], p)
    && (forall i :: m < i <= |steps| ==> p in At(ttl, steps, i))
    && (forall i :: m < i < |steps| ==> !Passes(At(ttl, steps, i), steps[i], p))
  }

  ghost predicate Reconnected(steps: seq<Step>, p: nat, m: nat) {
    exists i :: m < i < |steps| && steps[i].SConnect? && steps[i].player == p
  }

  /** A state survives, a key that was missing comes back ONLINE. */
  predicate Carries(k: Keys, k': Keys, p: nat) {
    p in k' ==> k'[p].record.state == if p in k then k[p].record.state else Online
  }

  lemma {:induction false} SilentlyAt(s: Svc, ids: seq<nat>, now: int, ttl: nat, p: nat)
    ensures var k := BeatSilently(s, ids, now, ttl).keys; Carries(s.keys, k, p) && (p in s.keys ==> p in k)
  {
    if ids != [] { SilentlyAt(s, ids[..|ids| - 1], now, ttl, p); }
  }

  lemma BulkAt(s: Svc, ids: seq<nat>, now: int, ttl: nat, fault: BulkFault, taken: set<nat>, p: nat)
    ensures Carries(s.keys, BeatBulk(s, ids, now, ttl, fault, taken).keys, p)
  {
    hide BeatMany, BeatSilently, Missing;
    match fault
    case NoFault => BeatManyAt(s, ids, now, ttl, taken, p);
    case ExpireFails(applied) =>
    case HealFails(done) =>
      var refreshed := s.(keys := Refresh(s.keys, Elements(ids), now + ttl));
      SilentlyAt(refreshed, Partly(Missing(s.keys, ids), done), now, ttl, p);
  }

  /** A connection of a player whose record says OFFLINE. */
  predicate Promotes(keys: Keys, step: Step, p: nat) {
    step.SConnect? && step.player == p && p in keys && keys[p].record.state == Offline
  }

  /** What one step does to a player's state. */
  lemma StepAt(s: Svc, ttl: nat, step: Step, p: nat)
    ensures var k := Do(s, ttl, step).keys;
            && (Passes(s.keys, step, p) ==> p in k && k[p].record.state == step.target)
            && (Promotes(s.keys, step, p) ==> p in k && k[p].record.state == Online)
            && (!Passes(s.keys, step, p) && !Promotes(s.keys, step, p) ==> Carries(s.keys, k, p))
  {
    hide BeatBulk;
    if step.SBulk? { BulkAt(s, step.ids, step.now, ttl, step.fault, step.taken, p); }
  }

  lemma SetCarries(ttl: nat, front: seq<Step>, last: Step, p: nat, m: nat)
    requires p in Final(ttl, front + [last]).keys && !Passes(Final(ttl, front).keys, last, p) && m < |front|
    ensures LastSet(ttl, front + [last], p, m) <==> LastSet(ttl, front, p, m)
  {
    hide Final, Passes;
    var steps := front + [last];
    forall i | 0 <= i <= |front| ensures At(ttl, steps, i) == At(ttl, front, i) { assert steps[..i] == front[..i]; }
    assert steps[..|steps|] == steps && front[..|front|] == front;
    assert At(ttl, steps, |steps|) == Final(ttl, steps).keys && At(ttl, front, |front|) == Final(ttl, front).keys;
    assert steps[m] == front[m];
    if LastSet(ttl, front, p, m) {
      forall i | m < i < |steps| ensures !Passes(At(ttl, steps, i), steps[i], p) {
        if i < |front| { assert steps[i] == front[i]; }
      }
    }
    if LastSet(ttl, steps, p, m) {
      forall i | m < i < |front| ensures !Passes(At(ttl, front, i), front[i], p) { assert steps[i] == front[i]; }
      forall i | m < i <= |front| ensures p in At(ttl, front, i) { assert p in At(ttl, steps, i); }
    }
  }

  lemma ReconnectCarries(front: seq<Step>, last: Step, p: nat, m: nat)
    requires m < |front|
    ensures Reconnected(front + [last], p, m) <==> Reconnected(front, p, m) || (last.SConnect? && last.player == p)
  {
    var steps := front + [last];
    if Reconnected(front, p, m) {
      var i :| m < i < |front| && front[i].SConnect? && front[i].player == p;
      assert steps[i] == front[i];
    }
    assert steps[|front|] == last;
  }

  /** The state the history calls for. */
  ghost predicate AsSet(ttl: nat, steps: seq<Step>, p: nat, state: PState) {
    && (forall m: nat :: LastSet(ttl, steps, p, m) ==>
          state == if steps[m].target == Offline && Reconnected(steps, p, m) then Online else steps[m].target)
    && ((forall m: nat :: !LastSet(ttl, steps, p, m)) ==> state == Online)
  }

  lemma SetNow(ttl: nat, front: seq<Step>, last: Step, p: nat)
    requires Passes(Final(ttl, front).keys, last, p) && p in Final(ttl, front + [last]).keys
    ensures AsSet(ttl, front + [last], p, last.target)
  {
    hide Final, Passes;
    var steps, n := front + [last], |front|;
    assert steps[..n] == front && steps[..|steps|] == steps && steps[n] == last;
    assert LastSet(ttl, steps, p, n);
    assert Passes(At(ttl, steps, n), steps[n], p);
    assert forall m: nat :: LastSet(ttl, steps, p, m) ==> m == n;
  }

  lemma KeyReturns(ttl: nat, front: seq<Step>, last: Step, p: nat)
    requires !Passes(Final(ttl, front).keys, last, p) && p !in Final(ttl, front).keys
    ensures AsSet(ttl, front + [last], p, Online)
  {
    hide Final, Passes;
    var steps, n := front + [last], |front|;
    assert steps[..n] == front && steps[n] == last;
    assert p !in At(ttl, steps, n) && !Passes(At(ttl, steps, n), steps[n], p);
    assert forall m: nat :: !LastSet(ttl, steps, p, m);
  }

  lemma KeyStays(ttl: nat, front: seq<Step>, last: Step, p: nat, was: PState)
    requires !Passes(Final(ttl, front).keys, last, p) && p in Final(ttl, front + [last]).keys
    requires AsSet(ttl, front, p, was)
    ensures AsSet(ttl, front + [last], p, if last.SConnect? && last.player == p && was == Offline then Online else was)
  {
    hide Final, Passes, LastSet, Reconnected;
    var steps, n := front + [last], |front|;
    forall m: nat
      ensures LastSet(ttl, steps, p, m) <==> LastSet(ttl, front, p, m)
      ensures LastSet(ttl, steps, p, m) ==> m < n {
      if m < n { SetCarries(ttl, front, last, p, m); } else { NotYet(ttl, front, last, p, m); }
    }
    forall m: nat | m < n
      ensures steps[m] == front[m]
      ensures Reconnected(steps, p, m) <==> Reconnected(front, p, m) || (last.SConnect? && last.player == p) {
      ReconnectCarries(front, last, p, m);
    }
  }

  lemma NotYet(ttl: nat, front: seq<Step>, last: Step, p: nat, m: nat)
    requires m >= |front| && !Passes(Final(ttl, front).keys, last, p)
    ensures !LastSet(ttl, front + [last], p, m) && !LastSet(ttl, front, p, m)
  {
    assert (front + [last])[..|front|] == front;
  }

  /**
   * In every run the state of a live key is the last one that a state call let through has asked for since
   * the key was created, and ONLINE if there was none; only a connection over a stored OFFLINE makes it
   * ONLINE again.
   */
  lemma {:induction false} StateIsLastSet(ttl: nat, steps: seq<Step>, p: nat)
    requires p in Final(ttl, steps).keys
    ensures AsSet(ttl, steps, p, Final(ttl, steps).keys[p].record.state)
  {
    assert steps != [];
    hide AsSet, Passes, Do;
    var front, last := steps[..|steps| - 1], steps[|steps| - 1];
    assert steps == front + [last];
    var s := Final(ttl, front);
    StepAt(s, ttl, last, p);
    if Passes(s.keys, last, p) {
      SetNow(ttl, front, last, p);
    } else if p !in s.keys {
      KeyReturns(ttl, front, last, p);
    } else {
      StateIsLastSet(ttl, front, p);
      KeyStays(ttl, front, last, p, s.keys[p].record.state);
    }
  }
}
