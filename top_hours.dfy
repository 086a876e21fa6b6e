/** `get_highest_8hrs`: the hourly table sorted by rank and cut to the hours ranked 8 or better. */
module TopHours {
  import opened Wrappers
  import opened Volumes
  import opened Ranking

  /** The number of representative hours. */
  const Top: nat := 8

  /** `Rank <= 8`, on doubled ranks. */
  predicate InTop(h: Hour) {
    h.rank2 <= 2 * Top
  }

  predicate SortedByRank(s: seq<Hour>) {
    forall i, j :: 0 <= i < j < |s| ==> s[i].rank2 <= s[j].rank2
  }

  /** Places `h` before the first hour ranked no better than it. */
  function Insert(h: Hour, s: seq<Hour>): (r: seq<Hour>)
    requires SortedByRank(s)
    ensures SortedByRank(r)
    ensures multiset(r) == multiset(s) + multiset{h}
  {
    if s == [] then [h]
    else if h.rank2 <= s[0].rank2 then [h] + s
    else
      var tail := Insert(h, s[1..]);
      assert s == [s[0]] + s[1..];
      InsertBelow(s[0], h, s[1..], tail);
      [s[0]] + tail
  }

  /** An hour ranked no worse than everything inserted into `s` can go in front of the result. */
  lemma InsertBelow(first: Hour, h: Hour, s: seq<Hour>, r: seq<Hour>)
    requires SortedByRank(r)
    requires multiset(r) == multiset(s) + multiset{h}
    requires first.rank2 <= h.rank2
    requires forall x :: x in s ==> first.rank2 <= x.rank2
    ensures SortedByRank([first] + r)
  {
    forall x | x in r ensures first.rank2 <= x.rank2 {
      assert x in multiset(r);
      assert x in multiset(s) || x == h;
    }
  }

  /** `sort_values('Rank')`: the hours in ascending rank order; tied hours keep table order. */
  function SortByRank(s: seq<Hour>): (r: seq<Hour>)
    ensures SortedByRank(r)
    ensures multiset(r) == multiset(s)
  {
    if s == [] then []
    else
      assert s == [s[0]] + s[1..];
      Insert(s[0], SortByRank(s[1..]))
  }

  /** The rank filter: keeps the hours ranked 8 or better, in the order given. */
  function KeepTop(s: seq<Hour>): (r: seq<Hour>)
    ensures forall h {:trigger multiset(r)[h]} :: multiset(r)[h] == if InTop(h) then multiset(s)[h] else 0
  {
    if s == [] then []
    else
      var tail := KeepTop(s[1..]);
      assert s == [s[0]] + s[1..];
      assert multiset(s) == multiset{s[0]} + multiset(s[1..]);
      if InTop(s[0]) then
        assert multiset([s[0]] + tail) == multiset{s[0]} + multiset(tail);
        [s[0]] + tail
      else tail
  }

  /** Filtering a rank-sorted table keeps it sorted. */
  lemma {:induction false} KeepTopSorted(s: seq<Hour>)
    requires SortedByRank(s)
    ensures SortedByRank(KeepTop(s))
  {
    if s != [] {
      KeepTopSorted(s[1..]);
      var tail := KeepTop(s[1..]);
      forall x | x in tail ensures s[0].rank2 <= x.rank2 {
        assert x in multiset(tail);
        assert x in multiset(s[1..]);
      }
    }
  }

  /** The eight highest hours: exactly the hours ranked 8 or better, each as often as in the
      table, in ascending rank order. */
  function Highest8Hrs(s: seq<Hour>): (r: seq<Hour>)
    ensures SortedByRank(r)
    ensures forall h :: multiset(r)[h] == if InTop(h) then multiset(s)[h] else 0
    ensures forall h :: h in r <==> h in s && InTop(h)
  {
    var r := KeepTop(SortByRank(s));
    KeepTopSorted(SortByRank(s));
    assert forall h :: h in r <==> h in s && InTop(h) by {
      forall h ensures h in r <==> h in s && InTop(h) {
        assert h in r <==> h in multiset(r);
        assert h in s <==> h in multiset(s);
      }
    }
    r
  }

  /** Some rank is held by more than one hour, so its rank group has several rows. */
  predicate SharedRank(s: seq<Hour>) {
    exists i, j :: 0 <= i < j < |s| && s[i].rank2 == s[j].rank2
  }

  /** `groupby('Rank').filter(lambda x: x['Rank'] <= 8)` as pandas runs it: the test gives one
      truth value per rank group only when the group is a single row; for a larger group it is
      a Series, and `filter` raises instead of filtering. */
  function FilterAsWritten(s: seq<Hour>): (r: Result<seq<Hour>>)
    ensures r.Err? <==> SharedRank(s)
    ensures r.Err? ==> r.error == SharedRankGroup
    ensures r.Ok? ==> r.value == Highest8Hrs(s)
    ensures r.Ok? ==> forall h :: h in r.value <==> h in s && InTop(h)
  {
    if SharedRank(s) then Err(SharedRankGroup) else Ok(Highest8Hrs(s))
  }

  /** In a ranked table two hours share a rank exactly when they tie on the combined volume, so
      the filter as written raises on every day with a tie, wherever in the day it lies. */
  lemma SharedRankIsTie(s: seq<Hour>)
    requires Ranked(s)
    ensures SharedRank(s) <==> !Distinct(Combined(s))
  {
    var cs := Combined(s);
    if SharedRank(s) {
      var i, j :| 0 <= i < j < |s| && s[i].rank2 == s[j].rank2;
      if cs[i] > cs[j] {
        RankOrder(cs, cs[i], cs[j]);
      } else if cs[j] > cs[i] {
        RankOrder(cs, cs[j], cs[i]);
      }
    }
    if !Distinct(cs) {
      var i, j :| 0 <= i < j < |cs| && cs[i] == cs[j];
      assert s[i].rank2 == s[j].rank2;
    }
  }

  /** A day with two hours of equal combined volume (an all-zero count, say) stops with an error
      instead of selecting any hour. */
  lemma TiedDayRaises(s: seq<Hour>, i: nat, j: nat)
    requires Ranked(s)
    requires i < j < |s| && s[i].combined == s[j].combined
    ensures FilterAsWritten(s) == Err(SharedRankGroup)
  {
    SharedRankIsTie(s);
  }

  lemma {:induction false} KeepTopCount(s: seq<Hour>, all: seq<int>)
    requires forall h :: h in s ==> h.rank2 == Rank2(all, h.combined)
    ensures |KeepTop(s)| == CountTop(Combined(s), all, Top)
  {
    if s != [] {
      assert s[0] in s;
      assert forall h :: h in s[1..] ==> h in s;
      assert Combined(s)[1..] == Combined(s[1..]);
      KeepTopCount(s[1..], all);
    }
  }

  /** How many hours are kept is the number of values of the `SumMajor&HighMinor` column
      whose rank is 8 or better. */
  lemma KeptCount(s: seq<Hour>)
    requires Ranked(s)
    ensures |Highest8Hrs(s)| == CountTop(Combined(s), Combined(s), Top)
  {
    var r := Highest8Hrs(s);
    assert multiset(r) == multiset(KeepTop(s));
    assert |r| == |multiset(r)| == |multiset(KeepTop(s))| == |KeepTop(s)|;
    forall h | h in s ensures h.rank2 == Rank2(Combined(s), h.combined) {
      var k :| 0 <= k < |s| && s[k] == h;
    }
    KeepTopCount(s, Combined(s));
  }

  /** Without ties in the combined volume, exactly eight hours are kept (every hour of a
      shorter table). */
  lemma DistinctDayKeepsEight(s: seq<Hour>)
    requires Ranked(s)
    requires Distinct(Combined(s))
    ensures |Highest8Hrs(s)| == if |s| <= Top then |s| else Top
  {
    KeptCount(s);
    DistinctTopCount(Combined(s), Top);
  }

  /** A day on which every hour has the same combined volume (an all-zero table, say) and that
      has at least 16 hours keeps no hour at all: they all share rank (n+1)/2 > 8. */
  lemma TiedDayKeepsNone(s: seq<Hour>)
    requires Ranked(s)
    requires |s| >= 2 * Top
    requires forall i, j :: 0 <= i < |s| && 0 <= j < |s| ==> s[i].combined == s[j].combined
    ensures Highest8Hrs(s) == []
  {
    KeptCount(s);
    var cs := Combined(s);
    assert forall x :: x in cs ==> x == cs[0];
    TiedTopCount(cs, cs, cs[0], Top);
  }

  /** Two hours tied for eighth place share rank 8.5 and are both dropped: seven hours tied
      for first place (rank 4 each) are kept, the two after them are not, and neither is any
      quieter hour after those. */
  lemma TieAtEighthKeepsSeven(first: seq<int>, eighth: seq<int>, rest: seq<int>, u: int, v: int, w: int)
    requires |first| == 7 && forall x :: x in first ==> x == u
    requires |eighth| == 2 && forall x :: x in eighth ==> x == v
    requires forall x :: x in rest ==> x == w
    requires u > v > w
    ensures var cs := first + eighth + rest;
            CountTop(cs, cs, Top) == 7
  {
    var cs := first + eighth + rest;
    BlockCounts(first, eighth, rest, u, v, w, u);
    BlockCounts(first, eighth, rest, u, v, w, v);
    BlockCounts(first, eighth, rest, u, v, w, w);
    assert Rank2(cs, u) == 8 && Rank2(cs, v) == 17 && Rank2(cs, w) > 2 * Top;
    CountTopAppend(first + eighth, rest, cs, Top);
    CountTopAppend(first, eighth, cs, Top);
    UniformTopCount(first, cs, u, Top);
    UniformTopCount(eighth, cs, v, Top);
    UniformTopCount(rest, cs, w, Top);
  }

  /** Three hours tied for seventh place all get rank 8 and are kept, so nine hours are kept,
      however many quieter hours follow. */
  lemma TieAtSeventhKeepsNine(first: seq<int>, seventh: seq<int>, rest: seq<int>, u: int, v: int, w: int)
    requires |first| == 6 && forall x :: x in first ==> x == u
    requires |seventh| == 3 && forall x :: x in seventh ==> x == v
    requires forall x :: x in rest ==> x == w
    requires u > v > w
    ensures var cs := first + seventh + rest;
            CountTop(cs, cs, Top) == 9
  {
    var cs := first + seventh + rest;
    BlockCounts(first, seventh, rest, u, v, w, u);
    BlockCounts(first, seventh, rest, u, v, w, v);
    BlockCounts(first, seventh, rest, u, v, w, w);
    assert Rank2(cs, u) == 7 && Rank2(cs, v) == 16 && Rank2(cs, w) > 2 * Top;
    CountTopAppend(first + seventh, rest, cs, Top);
    CountTopAppend(first, seventh, cs, Top);
    UniformTopCount(first, cs, u, Top);
    UniformTopCount(seventh, cs, v, Top);
    UniformTopCount(rest, cs, w, Top);
  }
}
