/** pandas' descending `rank()` with its default rule for ties (`method='average'`), and how many
    values a "rank <= k" filter keeps. Ranks are doubled so that half ranks stay integers. */
module Ranking {

  /** How many values of `cs` are strictly greater than `v`. */
  function CountGreater(cs: seq<int>, v: int): (n: nat)
    ensures n <= |cs|
  {
    if cs == [] then 0 else (if cs[0] > v then 1 else 0) + CountGreater(cs[1..], v)
  }

  /** How many values of `cs` are equal to `v`. */
  function CountEqual(cs: seq<int>, v: int): (n: nat)
    ensures n <= |cs|
  {
    if cs == [] then 0 else (if cs[0] == v then 1 else 0) + CountEqual(cs[1..], v)
  }

  /** Twice the descending rank of `v` among `cs`: the values above it take ranks 1 .. G, and the
      E values tied with it share the mean of ranks G+1 .. G+E, that is G + (E+1)/2. */
  function Rank2(cs: seq<int>, v: int): int {
    2 * CountGreater(cs, v) + CountEqual(cs, v) + 1
  }

  lemma {:induction false} CountsAppend(xs: seq<int>, ys: seq<int>, v: int)
    ensures CountGreater(xs + ys, v) == CountGreater(xs, v) + CountGreater(ys, v)
    ensures CountEqual(xs + ys, v) == CountEqual(xs, v) + CountEqual(ys, v)
  {
    if xs == [] {
      assert xs + ys == ys;
    } else {
      assert (xs + ys)[1..] == xs[1..] + ys;
      CountsAppend(xs[1..], ys, v);
    }
  }

  /** No value is both above `v` and tied with it, and a value of `cs` is tied with itself. */
  lemma {:induction false} CountsPartition(cs: seq<int>, v: int)
    ensures CountGreater(cs, v) + CountEqual(cs, v) <= |cs|
    ensures v in cs ==> CountEqual(cs, v) >= 1
  {
    if cs != [] {
      CountsPartition(cs[1..], v);
      assert v in cs && cs[0] != v ==> v in cs[1..];
    }
  }

  /** Every value of the day gets a rank between 1 and the number of values. */
  lemma RankBounds(cs: seq<int>, v: int)
    requires v in cs
    ensures 2 <= Rank2(cs, v) <= 2 * |cs|
  {
    CountsPartition(cs, v);
  }

  lemma {:induction false} NothingAbove(cs: seq<int>, v: int)
    requires forall x :: x in cs ==> x <= v
    ensures CountGreater(cs, v) == 0
  {
    if cs != [] {
      assert cs[0] in cs;
      assert forall x :: x in cs[1..] ==> x in cs;
      NothingAbove(cs[1..], v);
    }
  }

  /** A largest value has rank 1 exactly when no other value ties with it. */
  lemma RankOfMaximum(cs: seq<int>, v: int)
    requires v in cs
    requires forall x :: x in cs ==> x <= v
    ensures Rank2(cs, v) == 2 <==> CountEqual(cs, v) == 1
  {
    NothingAbove(cs, v);
  }

  /** Every value above `v`, and every value tied with `u > v`, is counted above `v`. */
  lemma {:induction false} AboveGrows(cs: seq<int>, u: int, v: int)
    requires u > v
    ensures CountGreater(cs, v) >= CountGreater(cs, u) + CountEqual(cs, u)
  {
    if cs != [] {
      AboveGrows(cs[1..], u, v);
    }
  }

  /** The ranking is strictly descending: a larger value always has a smaller rank. */
  lemma RankOrder(cs: seq<int>, u: int, v: int)
    requires u in cs
    requires u > v
    ensures Rank2(cs, u) < Rank2(cs, v)
  {
    AboveGrows(cs, u, v);
    CountsPartition(cs, u);
  }

  /** How many values of `xs` the filter "rank <= k" keeps, ranks taken among `all`. */
  function CountTop(xs: seq<int>, all: seq<int>, k: nat): (n: nat)
    ensures n <= |xs|
  {
    if xs == [] then 0
    else (if Rank2(all, xs[0]) <= 2 * k then 1 else 0) + CountTop(xs[1..], all, k)
  }

  lemma {:induction false} CountTopAppend(xs: seq<int>, ys: seq<int>, all: seq<int>, k: nat)
    ensures CountTop(xs + ys, all, k) == CountTop(xs, all, k) + CountTop(ys, all, k)
  {
    if xs == [] {
      assert xs + ys == ys;
    } else {
      assert (xs + ys)[1..] == xs[1..] + ys;
      CountTopAppend(xs[1..], ys, all, k);
    }
  }

  lemma {:induction false} CountTopSameRanks(xs: seq<int>, all: seq<int>, all': seq<int>, k: nat)
    requires forall x :: x in xs ==> Rank2(all, x) == Rank2(all', x)
    ensures CountTop(xs, all, k) == CountTop(xs, all', k)
  {
    if xs != [] {
      assert xs[0] in xs;
      CountTopSameRanks(xs[1..], all, all', k);
    }
  }

  /** No two hours share a value. */
  predicate Distinct(cs: seq<int>) {
    forall i, j :: 0 <= i < j < |cs| ==> cs[i] != cs[j]
  }

  /** The position of a smallest value. */
  function ArgMin(cs: seq<int>): (j: nat)
    requires |cs| > 0
    ensures j < |cs|
    ensures forall i :: 0 <= i < |cs| ==> cs[j] <= cs[i]
  {
    if |cs| == 1 then 0
    else
      var j := ArgMin(cs[1..]);
      if cs[0] <= cs[1..][j] then 0 else j + 1
  }

  /** The values with the one at position j taken out. */
  function Without(cs: seq<int>, j: nat): (rest: seq<int>)
    requires j < |cs|
    ensures |rest| == |cs| - 1
  {
    cs[..j] + cs[j + 1..]
  }

  /** Removing one value from a table without ties leaves a table without ties. */
  lemma DistinctWithout(cs: seq<int>, j: nat)
    requires Distinct(cs)
    requires j < |cs|
    ensures Distinct(Without(cs, j))
  {
    var rest := Without(cs, j);
    forall i, i' | 0 <= i < i' < |rest| ensures rest[i] != rest[i'] {
      var p := if i < j then i else i + 1;
      var p' := if i' < j then i' else i' + 1;
      assert rest[i] == cs[p] && rest[i'] == cs[p'];
    }
  }

  /** Both counts, and so the rank, of `v` split around the value at position j. */
  lemma RankAround(cs: seq<int>, j: nat, v: int)
    requires j < |cs|
    ensures var rest := Without(cs, j);
            && CountGreater(cs, v) == CountGreater(rest, v) + (if cs[j] > v then 1 else 0)
            && CountEqual(cs, v) == CountEqual(rest, v) + (if cs[j] == v then 1 else 0)
  {
    var before, after := cs[..j], cs[j + 1..];
    assert cs == before + [cs[j]] + after;
    CountsAppend(before + [cs[j]], after, v);
    CountsAppend(before, [cs[j]], v);
    CountsAppend(before, after, v);
  }

  /** The number kept splits around the value at position j. */
  lemma CountTopAround(cs: seq<int>, all: seq<int>, j: nat, k: nat)
    requires j < |cs|
    ensures CountTop(cs, all, k)
            == CountTop(Without(cs, j), all, k) + (if Rank2(all, cs[j]) <= 2 * k then 1 else 0)
  {
    var before, after := cs[..j], cs[j + 1..];
    assert cs == before + [cs[j]] + after;
    CountTopAppend(before + [cs[j]], after, all, k);
    CountTopAppend(before, [cs[j]], all, k);
    CountTopAppend(before, after, all, k);
  }

  /** Without ties, every value other than the smallest is above it. */
  lemma AboveMinimum(cs: seq<int>, j: nat)
    requires Distinct(cs)
    requires j < |cs| && forall i :: 0 <= i < |cs| ==> cs[j] <= cs[i]
    ensures forall x :: x in Without(cs, j) ==> x > cs[j]
  {
    var rest := Without(cs, j);
    forall x | x in rest ensures x > cs[j] {
      var i :| 0 <= i < |rest| && rest[i] == x;
      var p := if i < j then i else i + 1;
      assert x == cs[p] && p != j;
    }
  }

  /** Removing a value below all the others changes no other value's rank. */
  lemma RanksWithoutMinimum(cs: seq<int>, j: nat)
    requires j < |cs|
    requires forall x :: x in Without(cs, j) ==> x > cs[j]
    ensures forall x :: x in Without(cs, j) ==> Rank2(cs, x) == Rank2(Without(cs, j), x)
  {
    forall x | x in Without(cs, j) ensures Rank2(cs, x) == Rank2(Without(cs, j), x) {
      RankAround(cs, j, x);
    }
  }

  /** Without ties, "rank <= k" keeps exactly k values (all of them when there are fewer). */
  lemma {:induction false} DistinctTopCount(cs: seq<int>, k: nat)
    requires Distinct(cs)
    ensures CountTop(cs, cs, k) == if |cs| <= k then |cs| else k
  {
    if cs != [] {
      var j := ArgMin(cs);
      var rest := Without(cs, j);
      DistinctWithout(cs, j);
      AboveMinimum(cs, j);
      RanksWithoutMinimum(cs, j);
      DistinctTopCount(rest, k);
      CountTopSameRanks(rest, cs, rest, k);
      // The smallest value has every other value above it and shares its rank with none.
      RankAround(cs, j, cs[j]);
      AllAbove(rest, cs[j]);
      CountTopAround(cs, cs, j, k);
    }
  }

  lemma {:induction false} AllAbove(cs: seq<int>, v: int)
    requires forall x :: x in cs ==> x > v
    ensures CountGreater(cs, v) == |cs| && CountEqual(cs, v) == 0
  {
    if cs != [] {
      assert cs[0] in cs;
      assert forall x :: x in cs[1..] ==> x in cs;
      AllAbove(cs[1..], v);
    }
  }

  lemma {:induction false} AllTied(cs: seq<int>, v: int)
    requires forall x :: x in cs ==> x == v
    ensures CountGreater(cs, v) == 0 && CountEqual(cs, v) == |cs|
  {
    if cs != [] {
      assert cs[0] in cs;
      assert forall x :: x in cs[1..] ==> x in cs;
      AllTied(cs[1..], v);
    }
  }

  /** Counting against a block of equal values `w`. */
  lemma {:induction false} UniformCounts(xs: seq<int>, w: int, v: int)
    requires forall x :: x in xs ==> x == w
    ensures CountGreater(xs, v) == if w > v then |xs| else 0
    ensures CountEqual(xs, v) == if w == v then |xs| else 0
  {
    if xs != [] {
      assert xs[0] in xs;
      assert forall x :: x in xs[1..] ==> x in xs;
      UniformCounts(xs[1..], w, v);
    }
  }

  /** Counting against three consecutive blocks of equal values. */
  lemma BlockCounts(xs: seq<int>, ys: seq<int>, zs: seq<int>, u: int, v: int, w: int, x: int)
    requires forall y :: y in xs ==> y == u
    requires forall y :: y in ys ==> y == v
    requires forall y :: y in zs ==> y == w
    ensures CountGreater(xs + ys + zs, x)
            == (if u > x then |xs| else 0) + (if v > x then |ys| else 0) + (if w > x then |zs| else 0)
    ensures CountEqual(xs + ys + zs, x)
            == (if u == x then |xs| else 0) + (if v == x then |ys| else 0) + (if w == x then |zs| else 0)
  {
    CountsAppend(xs + ys, zs, x);
    CountsAppend(xs, ys, x);
    UniformCounts(xs, u, x);
    UniformCounts(ys, v, x);
    UniformCounts(zs, w, x);
  }

  /** A block of equal values is kept or dropped as a whole. */
  lemma {:induction false} UniformTopCount(xs: seq<int>, all: seq<int>, v: int, k: nat)
    requires forall x :: x in xs ==> x == v
    ensures CountTop(xs, all, k) == if Rank2(all, v) <= 2 * k then |xs| else 0
  {
    if xs != [] {
      assert xs[0] in xs;
      assert forall x :: x in xs[1..] ==> x in xs;
      UniformTopCount(xs[1..], all, v, k);
    }
  }

  /** When every hour has the same value, all share rank (n+1)/2: a day of more than 2k-1
      hours keeps none of them, a shorter one keeps them all. */
  lemma {:induction false} TiedTopCount(xs: seq<int>, cs: seq<int>, v: int, k: nat)
    requires forall x :: x in cs ==> x == v
    requires forall x :: x in xs ==> x == v
    ensures CountTop(xs, cs, k) == if |cs| + 1 <= 2 * k then |xs| else 0
  {
    AllTied(cs, v);
    if xs != [] {
      assert xs[0] in xs;
      assert forall x :: x in xs[1..] ==> x in xs;
      TiedTopCount(xs[1..], cs, v, k);
    }
  }
}
