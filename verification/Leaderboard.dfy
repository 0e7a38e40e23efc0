/** The global leaderboard: rank, page and top views of one sorted set. */
module Leaderboard {
  import opened Collections
  import opened ZSet

  datatype Entry = Entry(player: nat, score: int, rank: int)

  /** ZREVRANGE order: highest first, ties in reverse member order. */
  function Ranking(z: ZSet): (r: seq<nat>)
    ensures |r| == |z| && forall i :: 0 <= i < |r| ==> r[i] in z
  {
    var asc := Sorted(z, z.Keys);
    SortedIsSorted(z, z.Keys);
    assert |z.Keys| == |z|;
    seq(|asc|, i requires 0 <= i < |asc| => asc[|asc| - 1 - i])
  }

  /** The whole board, each player at their 1-based rank. */
  function Full(z: ZSet): (entries: seq<Entry>)
    ensures |entries| == |z|
  {
    var r := Ranking(z);
    seq(|r|, i requires 0 <= i < |r| => Entry(r[i], z[r[i]], i + 1))
  }

  /** What a range request returns; the rank numbering counts from the requested start. */
  function Range(z: ZSet, start: int, stop: int): seq<Entry> {
    var zs := Slice(Ranking(z), start, stop);
    SliceMembers(Ranking(z), start, stop);
    seq(|zs|, i requires 0 <= i < |zs| => Entry(zs[i], z[zs[i]], start + i + 1))
  }

  /** A player's entry: one more than the players above. */
  function Standing(z: ZSet, p: nat): Entry
    requires p in z
  {
    Entry(p, z[p], |Above(z, p)| + 1)
  }

  function Clip(n: int, len: nat): nat {
    if n < 0 then 0 else if n > len then len else n
  }

  /** The position an index means; a negative one counts from the end. */
  function FromEnd(i: int, n: nat): int {
    if i < 0 then n + i else i
  }

  /** The first and last positions a range covers, within the board. */
  function First(start: int, n: nat): nat {
    if FromEnd(start, n) < 0 then 0 else FromEnd(start, n)
  }

  function Last(stop: int, n: nat): int {
    if FromEnd(stop, n) >= n then n - 1 else FromEnd(stop, n)
  }

  /** The entries are the board's from the one position to the other, numbered from the start asked for. */
  predicate RangeOf(z: ZSet, start: int, stop: int, entries: seq<Entry>) {
    var lo, hi := First(start, |z|), Last(stop, |z|);
    && |entries| == (if lo <= hi then hi - lo + 1 else 0)
    && forall i :: 0 <= i < |entries| ==>
         entries[i] == Entry(Full(z)[lo + i].player, Full(z)[lo + i].score, start + i + 1)
  }

  lemma SliceIs<T>(r: seq<T>, start: int, stop: int)
    ensures var lo, hi := First(start, |r|), Last(stop, |r|);
            Slice(r, start, stop) == if lo <= hi then r[lo..hi + 1] else []
  {
  }

  lemma FullAt(z: ZSet, i: nat)
    requires i < |z|
    ensures Ranking(z)[i] in z && Full(z)[i] == Entry(Ranking(z)[i], z[Ranking(z)[i]], i + 1)
  {
  }

  lemma RangeIs(z: ZSet, start: int, stop: int)
    ensures RangeOf(z, start, stop, Range(z, start, stop))
  {
    hide Slice, Ranking, Full;
    SliceIs(Ranking(z), start, stop);
    forall i: nat | i < |z| ensures Full(z)[i] == Entry(Ranking(z)[i], z[Ranking(z)[i]], i + 1) { FullAt(z, i); }
  }

  datatype Ranked = Found(entry: Entry) | NotRanked | Vanished

  class Store {
    var board: ZSet

    constructor ()
      ensures board == map[]
    {
      board := map[];
    }

    method SetScore(p: nat, score: int)
      modifies this
      ensures board == old(board)[p := score]
      ensures forall q, r :: q in old(board) && r in old(board) && q != p && r != p ==>
                (Below(board, q, r) <==> Below(old(board), q, r))
    {
      board := board[p := score];
    }

    method IncrScore(p: nat, delta: int) returns (score: int)
      modifies this
      ensures score == (if p in old(board) then old(board)[p] else 0) + delta
      ensures board == old(board)[p := score]
    {
      score := (if p in board then board[p] else 0) + delta;
      board := board[p := score];
    }

    method RangeDesc(start: int, stop: int) returns (entries: seq<Entry>)
      ensures entries == Range(board, start, stop)
      ensures RangeOf(board, start, stop, entries)
    {
      RangeIs(board, start, stop);
      var zs := Slice(Ranking(board), start, stop);
      SliceMembers(Ranking(board), start, stop);
      entries := [];
      for i := 0 to |zs|
        invariant |entries| == i && forall k :: 0 <= k < i ==> entries[k] == Entry(zs[k], board[zs[k]], start + k + 1)
      {
        entries := entries + [Entry(zs[i], board[zs[i]], start + i + 1)];
      }
    }

    method Top(n: int) returns (entries: seq<Entry>)
      ensures entries == Range(board, 0, n - 1)
      ensures n >= 1 ==> entries == Full(board)[..Clip(n, |board|)]
    {
      entries := RangeDesc(0, n - 1);
      if n >= 1 { PageIsWindow(board, 0, n); }
    }

    /**
     * Two round trips: the range, then the size, of a board others may have changed in between. The
     * entries are a window of the board as it was; the total fits them if nobody interfered.
     */
    method Page(offset: int, limit: int, meanwhile: ZSet) returns (entries: seq<Entry>, total: nat)
      modifies this`board
      ensures board == meanwhile && total == |meanwhile| && entries == Range(old(board), offset, offset + limit - 1)
      ensures offset >= 0 && limit >= 1 ==>
                entries == Full(old(board))[Clip(offset, |old(board)|)..Clip(offset + limit, |old(board)|)]
      ensures meanwhile == old(board) && offset >= 0 && limit >= 1 ==>
              |entries| == Clip(offset + limit, total) - Clip(offset, total)
    {
      hide Full, Range;
      entries := RangeDesc(offset, offset + limit - 1);
      if offset >= 0 && limit >= 1 { PageIsWindow(board, offset, limit); }
      board := meanwhile;
      total := |board|;
    }

    /**
     * Two round trips again: the rank of one instant and the score of a later one. A player who left in
     * between is an error of its own; undisturbed, the entry is the one the board lists.
     */
    method Rank(p: nat, meanwhile: ZSet) returns (r: Ranked)
      modifies this`board
      ensures board == meanwhile
      ensures r.NotRanked? <==> p !in old(board)
      ensures r.Vanished? <==> p in old(board) && p !in meanwhile
      ensures r.Found? ==> r.entry == Entry(p, meanwhile[p], Standing(old(board), p).rank)
      ensures r.Found? ==> (r.entry in Full(old(board)) <==> meanwhile[p] == old(board)[p])
    {
      if p !in board {
        board := meanwhile;
        return NotRanked;
      }
      RankIsPosition(board, p);
      ListedOnce(board, p);
      var rank := |Above(board, p)|;
      board := meanwhile;
      if p !in board { return Vanished; }
      r := Found(Entry(p, board[p], rank + 1));
    }
  }

  // --- Pages --------------------------------------------------------------------------------------------

  /** A page with a non-negative offset and a positive limit is a window of the full board. */
  lemma PageIsWindow(z: ZSet, offset: int, limit: int)
    requires offset >= 0 && limit >= 1
    ensures Range(z, offset, offset + limit - 1) == Full(z)[Clip(offset, |z|)..Clip(offset + limit, |z|)]
  {
    var lo, hi := Clip(offset, |z|), Clip(offset + limit, |z|);
    assert Slice(Ranking(z), offset, offset + limit - 1) == Ranking(z)[lo..hi];
  }

  /** k pages from an offset on, laid end to end. */
  function Pages(z: ZSet, limit: int, offset: int, k: nat): seq<Entry>
    decreases k
  {
    if k == 0 then [] else Range(z, offset, offset + limit - 1) + Pages(z, limit, offset + limit, k - 1)
  }

  /** The offset after k pages. */
  function Reach(limit: int, offset: int, k: nat): int
    decreases k
  {
    if k == 0 then offset else Reach(limit, offset + limit, k - 1)
  }

  lemma {:induction false} ReachIs(limit: int, offset: int, k: nat)
    requires limit >= 1
    ensures Reach(limit, offset, k) == offset + k * limit >= offset
    decreases k
  {
    if k > 0 { ReachIs(limit, offset + limit, k - 1); }
  }

  lemma {:induction false} PagesAreWindow(z: ZSet, limit: int, offset: int, k: nat)
    requires limit >= 1 && offset >= 0
    ensures Reach(limit, offset, k) >= offset
    ensures Pages(z, limit, offset, k) == Full(z)[Clip(offset, |z|)..Clip(Reach(limit, offset, k), |z|)]
    decreases k
  {
    hide Full, Range, Ranking;
    if k > 0 {
      PagesAreWindow(z, limit, offset + limit, k - 1);
      PageIsWindow(z, offset, limit);
      Abut(Full(z), Clip(offset, |z|), Clip(offset + limit, |z|), Clip(Reach(limit, offset, k), |z|));
    }
  }

  lemma Abut<T>(s: seq<T>, i: nat, j: nat, k: nat)
    requires i <= j <= k <= |s|
    ensures s[i..j] + s[j..k] == s[i..k]
  {
  }

  /** Enough pages of any size concatenate to the full ranking, each player once and where Rank puts them. */
  lemma PagesCoverBoard(z: ZSet, limit: int, k: nat)
    requires limit >= 1 && k * limit >= |z|
    ensures Pages(z, limit, 0, k) == Full(z)
    ensures |Full(z)| == |z|
    ensures forall p :: p in z ==> Standing(z, p) in Full(z)
    ensures forall i :: 0 <= i < |Full(z)| ==> Full(z)[i].player in z && Full(z)[i] == Standing(z, Full(z)[i].player)
  {
    PagesAreWindow(z, limit, 0, k);
    ReachIs(limit, 0, k);
    forall p | p in z ensures Standing(z, p) in Full(z) { RankIsPosition(z, p); }
    forall i | 0 <= i < |Full(z)| ensures Full(z)[i].player in z && Full(z)[i] == Standing(z, Full(z)[i].player) {
      PositionIsRank(z, i);
    }
  }

  /** The board lists each player once with their score, highest first and among equals the later member first. */
  lemma BoardInOrder(z: ZSet, i: nat, j: nat)
    requires i < j < |Full(z)|
    ensures var a, b := Full(z)[i], Full(z)[j];
            && a.player in z && a.score == z[a.player] && a.rank == i + 1
            && (a.score > b.score || (a.score == b.score && a.player > b.player))
  {
    var asc := Sorted(z, z.Keys);
    SortedIsSorted(z, z.Keys);
    assert Below(z, asc[|asc| - 1 - j], asc[|asc| - 1 - i]);
  }

  lemma PositionIsRank(z: ZSet, i: nat)
    requires i < |Full(z)|
    ensures Full(z)[i].player in z && Full(z)[i] == Standing(z, Full(z)[i].player)
  {
    PositionCounts(z, |z| - 1 - i);
  }

  lemma RankIsPosition(z: ZSet, p: nat)
    requires p in z
    ensures var e := Standing(z, p); 1 <= e.rank <= |Full(z)| && Full(z)[e.rank - 1] == e
  {
    SortedIsSorted(z, z.Keys);
    var asc := Sorted(z, z.Keys);
    var k :| 0 <= k < |asc| && asc[k] == p;
    PositionCounts(z, k);
  }

  /** The board's only entry of a player is their standing. */
  lemma ListedOnce(z: ZSet, p: nat)
    requires p in z
    ensures forall e :: e in Full(z) && e.player == p ==> e == Standing(z, p)
  {
    forall i | 0 <= i < |Full(z)| && Full(z)[i].player == p ensures Full(z)[i] == Standing(z, p) {
      PositionIsRank(z, i);
    }
  }

  /** Top(n) is the first max(n, 0) entries exactly when n is positive or too negative to wrap into the board. */
  lemma TopIsPrefixIff(z: ZSet, n: int)
    ensures Range(z, 0, n - 1) == Full(z)[..Clip(n, |z|)] <==> n >= 1 || |z| + n <= 0
  {
    if n >= 1 {
      PageIsWindow(z, 0, n);
    } else if |z| + n >= 1 {
      assert |Range(z, 0, n - 1)| == |z| + n;
    }
  }

  // --- Updates -------------------------------------------------------------------------------------------

  /** A score update keeps the order of everyone else and moves nobody else by more than one rank. */
  lemma UpdateMovesOthersByOne(z: ZSet, p: nat, score: int, q: nat)
    requires q in z && q != p
    ensures var y := z[p := score];
            && (forall r :: r in z && r != p ==> (Below(y, q, r) <==> Below(z, q, r)))
            && -1 <= Standing(y, q).rank - Standing(z, q).rank <= 1
            && Standing(y, q).score == Standing(z, q).score
            && (Standing(y, q).rank > Standing(z, q).rank <==> Below(y, q, p) && (p in z ==> Below(z, p, q)))
  {
    var y := z[p := score];
    assert Above(y, q) - {p} == Above(z, q) - {p};
    assert |Above(y, q) - {p}| == |Above(y, q)| - (if p in Above(y, q) then 1 else 0);
    assert |Above(z, q) - {p}| == |Above(z, q)| - (if p in Above(z, q) then 1 else 0);
  }
}
