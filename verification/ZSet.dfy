/**
 * Redis sorted sets: members with integer scores, ordered by score and then by member. Members
 * are numbered in the order Redis compares them.
 */
module ZSet {
  import opened Collections

  type Member = nat
  type ZSet = map<Member, int>

  predicate Below(z: ZSet, a: Member, b: Member)
    requires a in z && b in z
  {
    z[a] < z[b] || (z[a] == z[b] && a < b)
  }

  predicate IsLowest(z: ZSet, s: set<Member>, m: Member)
    requires s <= z.Keys
  {
    m in s && forall x :: x in s && x != m ==> Below(z, m, x)
  }

  lemma {:induction false} LowestExists(z: ZSet, s: set<Member>)
    requires s != {} && s <= z.Keys
    ensures exists m :: IsLowest(z, s, m)
    decreases |s|
  {
    var y :| y in s;
    var rest := s - {y};
    if rest == {} {
      assert s == {y};
      assert IsLowest(z, s, y);
    } else {
      LowestExists(z, rest);
      var m :| IsLowest(z, rest, m);
      assert forall x :: x in s && x != y ==> x in rest;
      assert IsLowest(z, s, if Below(z, y, m) then y else m);
    }
  }

  lemma LowestUnique(z: ZSet, s: set<Member>, m: Member, n: Member)
    requires s <= z.Keys && IsLowest(z, s, m) && IsLowest(z, s, n)
    ensures m == n
  {
  }

  function Lowest(z: ZSet, s: set<Member>): (m: Member)
    requires s != {} && s <= z.Keys
    ensures IsLowest(z, s, m)
  {
    LowestExists(z, s);
    var m :| IsLowest(z, s, m);
    m
  }

  /** ZRANGE 0 -1 restricted to some members: lowest first. */
  function Sorted(z: ZSet, s: set<Member>): (r: seq<Member>)
    requires s <= z.Keys
    ensures |r| == |s|
    decreases |s|
  {
    if s == {} then [] else
    var m := Lowest(z, s);
    [m] + Sorted(z, s - {m})
  }

  /** r lists exactly the members of s, each once, lowest first. */
  predicate IsSorted(z: ZSet, s: set<Member>, r: seq<Member>) {
    && s <= z.Keys
    && (forall i :: 0 <= i < |r| ==> r[i] in s)
    && (forall x :: x in s ==> x in r)
    && (forall i, j :: 0 <= i < j < |r| ==> Below(z, r[i], r[j]))
  }

  lemma {:induction false} SortedIsSorted(z: ZSet, s: set<Member>)
    requires s <= z.Keys
    ensures IsSorted(z, s, Sorted(z, s))
    decreases |s|
  {
    if s != {} {
      var m := Lowest(z, s);
      SortedIsSorted(z, s - {m});
      PrependLowest(z, s, m, Sorted(z, s - {m}));
    }
  }

  lemma SortedWithin(z: ZSet, s: set<Member>)
    requires s <= z.Keys
    ensures forall x :: x in Sorted(z, s) ==> x in s
  {
    SortedIsSorted(z, s);
  }

  lemma PrependLowest(z: ZSet, s: set<Member>, m: Member, r: seq<Member>)
    requires s <= z.Keys && IsLowest(z, s, m) && IsSorted(z, s - {m}, r)
    ensures IsSorted(z, s, [m] + r)
  {
    forall x | x in s ensures x in [m] + r {
      if x != m { assert x in s - {m}; }
    }
    forall i | 0 <= i < |r| ensures r[i] in s && r[i] != m { assert r[i] in s - {m}; }
  }

  /** There is only one way to list a sorted set. */
  lemma {:induction false} SortedUnique(z: ZSet, s: set<Member>, r: seq<Member>)
    requires IsSorted(z, s, r)
    ensures r == Sorted(z, s)
    decreases |s|
  {
    hide IsSorted, IsLowest, Below, Sorted;
    ListsAll(z, s, r);
    if s != {} {
      FirstIsLowest(z, s, r);
      SortedStep(z, s);
      SortedUnique(z, s - {r[0]}, r[1..]);
      assert r == [r[0]] + r[1..];
    }
  }

  lemma SortedStep(z: ZSet, s: set<Member>)
    requires s <= z.Keys && s != {}
    ensures Sorted(z, s) == [Lowest(z, s)] + Sorted(z, s - {Lowest(z, s)})
  {
  }

  lemma ListsAll(z: ZSet, s: set<Member>, r: seq<Member>)
    requires IsSorted(z, s, r)
    ensures s == {} <==> r == []
  {
    if r != [] { assert r[0] in s; }
  }

  lemma FirstIsLowest(z: ZSet, s: set<Member>, r: seq<Member>)
    requires IsSorted(z, s, r) && s != {}
    ensures s <= z.Keys && r != [] && r[0] == Lowest(z, s) && r[0] in s && IsSorted(z, s - {r[0]}, r[1..])
  {
    ListsAll(z, s, r);
    forall x | x in s && x != r[0] ensures Below(z, r[0], x) && x in r[1..] {
      var j :| 0 <= j < |r| && r[j] == x;
      assert r[1..][j - 1] == x;
    }
    LowestUnique(z, s, r[0], Lowest(z, s));
  }

  /** Redis index ranges: both ends inclusive, negative indices count from the end, out of range is empty. */
  function Slice<T>(r: seq<T>, start: int, stop: int): seq<T> {
    var n := |r|;
    var lo := if start >= 0 then start else if start + n >= 0 then start + n else 0;
    var hi := if stop >= 0 then stop else stop + n;
    if lo > hi || lo >= n then [] else if hi >= n then r[lo..] else r[lo..hi + 1]
  }

  lemma SliceMembers<T>(r: seq<T>, start: int, stop: int)
    ensures forall i :: 0 <= i < |Slice(r, start, stop)| ==> Slice(r, start, stop)[i] in r
  {
  }

  function Underneath(z: ZSet, x: Member): set<Member>
    requires x in z
  {
    set y | y in z && Below(z, y, x)
  }

  function Above(z: ZSet, x: Member): set<Member>
    requires x in z
  {
    set y | y in z && Below(z, x, y)
  }

  /** A member's position in the full listing is the number of members under it. */
  lemma PositionCounts(z: ZSet, i: nat)
    requires i < |Sorted(z, z.Keys)|
    ensures Sorted(z, z.Keys)[i] in z
    ensures |Underneath(z, Sorted(z, z.Keys)[i])| == i
    ensures |Above(z, Sorted(z, z.Keys)[i])| == |z| - 1 - i
  {
    var r := Sorted(z, z.Keys);
    SortedIsSorted(z, z.Keys);
    var x := r[i];
    SplitAt(z, r, i);
    assert Distinct(r);
    DistinctSize(r[..i]);
    DistinctSize(r[i + 1..]);
  }

  lemma SplitAt(z: ZSet, r: seq<Member>, i: nat)
    requires IsSorted(z, z.Keys, r) && i < |r|
    ensures Elements(r[..i]) == Underneath(z, r[i])
    ensures Elements(r[i + 1..]) == Above(z, r[i])
  {
    forall y | y in z && y != r[i]
      ensures y in r[..i] <==> Below(z, y, r[i])
      ensures y in r[i + 1..] <==> Below(z, r[i], y)
    {
      var k :| 0 <= k < |r| && r[k] == y;
      if k < i { assert r[..i][k] == y && Below(z, y, r[i]); }
      else { assert r[i + 1..][k - i - 1] == y && Below(z, r[i], y); }
    }
  }
}
