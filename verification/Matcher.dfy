/** Greedy pairing of queued players by rank. */
module Matcher {

  datatype Ticket = Ticket(player: nat, rank: int)
  type Match = (Ticket, Ticket)

  predicate ByRank(ts: seq<Ticket>) {
    forall i, j :: 0 <= i < j < |ts| ==> ts[i].rank <= ts[j].rank
  }

  predicate Close(ts: seq<Ticket>, window: int, i: nat)
    requires i + 1 < |ts|
  {
    ts[i + 1].rank - ts[i].rank <= window
  }

  /** The pairs formed from position i on. */
  function PairsFrom(ts: seq<Ticket>, window: int, i: nat): seq<Match>
    decreases |ts| - i
  {
    if i + 1 >= |ts| then []
    else if Close(ts, window, i) then [(ts[i], ts[i + 1])] + PairsFrom(ts, window, i + 2)
    else PairsFrom(ts, window, i + 1)
  }

  /** The tickets left waiting from position i on. */
  function WaitingFrom(ts: seq<Ticket>, window: int, i: nat): seq<Ticket>
    decreases |ts| - i
  {
    if i >= |ts| then []
    else if i + 1 < |ts| && Close(ts, window, i) then WaitingFrom(ts, window, i + 2)
    else [ts[i]] + WaitingFrom(ts, window, i + 1)
  }

  method Pair(tickets: seq<Ticket>, window: int) returns (pairs: seq<Match>)
    ensures pairs == PairsFrom(tickets, window, 0)
    ensures ByRank(tickets) ==> forall m :: IsMatching(tickets, window, 0, m) ==> |m| <= |pairs|
  {
    pairs := [];
    var i := 0;
    while i + 1 < |tickets|
      invariant 0 <= i <= |tickets|
      invariant pairs + PairsFrom(tickets, window, i) == PairsFrom(tickets, window, 0)
    {
      if tickets[i + 1].rank - tickets[i].rank <= window {
        assert PairsFrom(tickets, window, i) == [(tickets[i], tickets[i + 1])] + PairsFrom(tickets, window, i + 2);
        pairs := pairs + [(tickets[i], tickets[i + 1])];
        i := i + 2;
        continue;
      }
      i := i + 1;
    }
    if ByRank(tickets) {
      forall m | IsMatching(tickets, window, 0, m) ensures |m| <= |pairs| { GreedyIsOptimal(tickets, window, 0, m); }
    }
  }

  // --- Nothing is lost: every ticket is in exactly one pair or waits ---------------------------

  /** Positions at which a pair starts, and positions left out, from i on. */
  function Starts(ts: seq<Ticket>, window: int, i: nat): seq<nat>
    decreases |ts| - i
  {
    if i + 1 >= |ts| then []
    else if Close(ts, window, i) then [i] + Starts(ts, window, i + 2)
    else Starts(ts, window, i + 1)
  }

  function Gaps(ts: seq<Ticket>, window: int, i: nat): seq<nat>
    decreases |ts| - i
  {
    if i >= |ts| then []
    else if i + 1 < |ts| && Close(ts, window, i) then Gaps(ts, window, i + 2)
    else [i] + Gaps(ts, window, i + 1)
  }

  predicate Taken(starts: seq<nat>, j: nat) {
    j in starts || (j > 0 && j - 1 in starts)
  }

  lemma {:induction false} PairsAt(ts: seq<Ticket>, window: int, i: nat)
    ensures var p, st := PairsFrom(ts, window, i), Starts(ts, window, i);
            && |p| == |st|
            && (forall k :: 0 <= k < |st| ==> i <= st[k] < |ts| - 1 && p[k] == (ts[st[k]], ts[st[k] + 1]))
            && (forall k, l :: 0 <= k < l < |st| ==> st[k] + 2 <= st[l])
    decreases |ts| - i
  {
    if i + 1 < |ts| {
      if Close(ts, window, i) {
        PairsAt(ts, window, i + 2);
        assert Starts(ts, window, i) == [i] + Starts(ts, window, i + 2);
        assert PairsFrom(ts, window, i) == [(ts[i], ts[i + 1])] + PairsFrom(ts, window, i + 2);
      } else {
        PairsAt(ts, window, i + 1);
      }
    }
  }

  lemma {:induction false} WaitingAt(ts: seq<Ticket>, window: int, i: nat)
    ensures var w, g := WaitingFrom(ts, window, i), Gaps(ts, window, i);
            && |w| == |g|
            && (forall k :: 0 <= k < |g| ==> i <= g[k] < |ts| && w[k] == ts[g[k]])
            && (forall k, l :: 0 <= k < l < |g| ==> g[k] < g[l])
    decreases |ts| - i
  {
    if i < |ts| {
      WaitingAt(ts, window, if i + 1 < |ts| && Close(ts, window, i) then i + 2 else i + 1);
    }
  }

  /** Every ticket from i on is in a pair or waits, never both. */
  lemma {:induction false} TakenOrWaiting(ts: seq<Ticket>, window: int, i: nat, j: nat)
    requires i <= j < |ts|
    ensures Taken(Starts(ts, window, i), j) <==> j !in Gaps(ts, window, i)
    decreases |ts| - i
  {
    PairsAt(ts, window, i);
    WaitingAt(ts, window, i);
    if i + 1 < |ts| && Close(ts, window, i) {
      PairsAt(ts, window, i + 2);
      WaitingAt(ts, window, i + 2);
      assert Starts(ts, window, i) == [i] + Starts(ts, window, i + 2);
      if j >= i + 2 { TakenOrWaiting(ts, window, i + 2, j); }
    } else if i + 1 < |ts| {
      PairsAt(ts, window, i + 1);
      WaitingAt(ts, window, i + 1);
      assert Gaps(ts, window, i) == [i] + Gaps(ts, window, i + 1);
      if j >= i + 1 { TakenOrWaiting(ts, window, i + 1, j); }
    }
  }

  lemma {:induction false} PairsWithinWindow(ts: seq<Ticket>, window: int, i: nat)
    requires ByRank(ts)
    ensures forall k :: 0 <= k < |PairsFrom(ts, window, i)| ==>
              var (a, b) := PairsFrom(ts, window, i)[k]; 0 <= b.rank - a.rank <= window
    decreases |ts| - i
  {
    if i + 1 < |ts| {
      PairsWithinWindow(ts, window, if Close(ts, window, i) then i + 2 else i + 1);
    }
  }

  // --- Optimality: no set of disjoint close pairs is larger ------------------------------------

  /** A set of disjoint pairs of positions from i on, each within the window. */
  ghost predicate IsMatching(ts: seq<Ticket>, window: int, i: nat, m: set<(nat, nat)>) {
    && (forall e :: e in m ==> i <= e.0 < e.1 < |ts| && ts[e.1].rank - ts[e.0].rank <= window)
    && (forall e, f :: e in m && f in m && e != f ==> e.0 != f.0 && e.0 != f.1 && e.1 != f.0 && e.1 != f.1)
  }

  /**
   * Exchange: if the first two tickets are close, any matching can be turned into one that leaves
   * them out at the cost of at most one pair.
   */
  lemma Exchange(ts: seq<Ticket>, window: int, i: nat, m: set<(nat, nat)>) returns (n: set<(nat, nat)>)
    requires ByRank(ts) && IsMatching(ts, window, i, m) && i + 1 < |ts|
    ensures IsMatching(ts, window, i + 2, n) && |m| <= |n| + 1
  {
    if e :| e in m && e.0 == i {
      if f :| f in m && f.0 == i + 1 {
        var g := if e.1 < f.1 then (e.1, f.1) else (f.1, e.1);
        n := m - {e, f} + {g};
        SwapEnds(ts, window, i, m, e, f, g);
        SwapSize(m, e, f, g);
      } else {
        n := m - {e};
      }
    } else if f :| f in m && f.0 == i + 1 {
      n := m - {f};
    } else {
      n := m;
    }
  }

  lemma SwapEnds(ts: seq<Ticket>, window: int, i: nat, m: set<(nat, nat)>, e: (nat, nat), f: (nat, nat), g: (nat, nat))
    requires ByRank(ts) && IsMatching(ts, window, i, m) && e in m && f in m && e.0 == i && f.0 == i + 1
    requires g == if e.1 < f.1 then (e.1, f.1) else (f.1, e.1)
    ensures IsMatching(ts, window, i + 2, m - {e, f} + {g}) && g !in m
  {
    assert ts[i].rank <= ts[i + 1].rank;
    assert e.1 != f.0 && e.1 != f.1;
    assert ts[i + 1].rank <= ts[e.1].rank && ts[i + 1].rank <= ts[f.1].rank;
    assert ts[f.1].rank - ts[e.1].rank <= window && ts[e.1].rank - ts[f.1].rank <= window;
    assert forall h :: h in m - {e, f} ==> h.0 != e.1 && h.0 != f.1 && h.1 != e.1 && h.1 != f.1 && h.0 >= i + 2;
  }

  lemma SwapSize(m: set<(nat, nat)>, e: (nat, nat), f: (nat, nat), g: (nat, nat))
    requires e in m && f in m && e != f && g !in m
    ensures |m| <= |m - {e, f} + {g}| + 1
  {
    assert |m - {e, f}| == |m| - 2;
  }

  /** No disjoint within-window pairing of a rank-sorted list has more pairs than the greedy one. */
  lemma {:induction false} GreedyIsOptimal(ts: seq<Ticket>, window: int, i: nat, m: set<(nat, nat)>)
    requires ByRank(ts) && IsMatching(ts, window, i, m)
    ensures |m| <= |PairsFrom(ts, window, i)|
    decreases |ts| - i
  {
    if i + 1 >= |ts| {
      assert m == {} by { if e :| e in m { assert false; } }
    } else if Close(ts, window, i) {
      var n := Exchange(ts, window, i, m);
      GreedyIsOptimal(ts, window, i + 2, n);
    } else {
      forall e | e in m ensures e.0 != i {
        assert e.0 + 1 == e.1 || ts[e.0 + 1].rank <= ts[e.1].rank;
      }
      GreedyIsOptimal(ts, window, i + 1, m);
    }
  }

  // --- What waits cannot be paired --------------------------------------------------------------

  lemma {:induction false} WaitingAtLeast(ts: seq<Ticket>, window: int, i: nat, low: int)
    requires forall j :: i <= j < |ts| ==> ts[j].rank >= low
    ensures forall k :: 0 <= k < |WaitingFrom(ts, window, i)| ==> WaitingFrom(ts, window, i)[k].rank >= low
    decreases |ts| - i
  {
    if i < |ts| {
      WaitingAtLeast(ts, window, if i + 1 < |ts| && Close(ts, window, i) then i + 2 else i + 1, low);
    }
  }

  predicate Apart(w: seq<Ticket>, window: int) {
    forall k, l :: 0 <= k < l < |w| ==> w[l].rank - w[k].rank > window
  }

  /** Any two waiting tickets are more than the window apart. */
  lemma {:induction false} WaitingApart(ts: seq<Ticket>, window: int, i: nat)
    requires ByRank(ts)
    ensures Apart(WaitingFrom(ts, window, i), window)
    decreases |ts| - i
  {
    if i + 1 < |ts| {
      if Close(ts, window, i) {
        WaitingApart(ts, window, i + 2);
        assert WaitingFrom(ts, window, i) == WaitingFrom(ts, window, i + 2);
      } else {
        WaitingApart(ts, window, i + 1);
        WaitingAtLeast(ts, window, i + 1, ts[i + 1].rank);
        var rest := WaitingFrom(ts, window, i + 1);
        var w := WaitingFrom(ts, window, i);
        assert w == [ts[i]] + rest;
        forall k, l | 0 <= k < l < |w| ensures w[l].rank - w[k].rank > window {
          assert w[l] == rest[l - 1];
          if k > 0 { assert w[k] == rest[k - 1]; }
        }
      }
    }
  }

  lemma {:induction false} NothingClose(ts: seq<Ticket>, window: int, i: nat)
    requires Apart(ts, window)
    ensures PairsFrom(ts, window, i) == []
    decreases |ts| - i
  {
    if i + 1 < |ts| { NothingClose(ts, window, i + 1); }
  }

  /** Pairing what was left waiting forms no pair. */
  lemma WaitingIsStable(ts: seq<Ticket>, window: int)
    requires ByRank(ts)
    ensures PairsFrom(WaitingFrom(ts, window, 0), window, 0) == []
  {
    WaitingApart(ts, window, 0);
    NothingClose(WaitingFrom(ts, window, 0), window, 0);
  }
}
