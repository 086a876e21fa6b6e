/** Hourly aggregation of the interval count table (`get_hourly_vols`). */
module Volumes {
  import opened Ranking

  /** The four direction columns of the count table. */
  datatype Direction = NB | SB | EB | WB

  /** Vehicles counted in each direction during one interval, or during a run of intervals. */
  datatype Counts = Counts(nb: int, sb: int, eb: int, wb: int)

  /** Intervals summed into one hour (`N`). */
  const IntervalsPerHour: nat := 4

  const NoVehicles := Counts(0, 0, 0, 0)

  function Get(c: Counts, d: Direction): int {
    match d
    case NB => c.nb
    case SB => c.sb
    case EB => c.eb
    case WB => c.wb
  }

  function Add(x: Counts, y: Counts): Counts {
    Counts(x.nb + y.nb, x.sb + y.sb, x.eb + y.eb, x.wb + y.wb)
  }

  function Max(x: int, y: int): int {
    if x >= y then x else y
  }

  /** Column-wise sum of a run of rows. */
  function Total(rows: seq<Counts>): Counts {
    if rows == [] then NoVehicles else Add(rows[0], Total(rows[1..]))
  }

  /** Summing two runs separately and adding the sums is summing their concatenation. */
  lemma {:induction false} TotalAppend(xs: seq<Counts>, ys: seq<Counts>)
    ensures Total(xs + ys) == Add(Total(xs), Total(ys))
  {
    if xs == [] {
      assert xs + ys == ys;
    } else {
      assert (xs + ys)[0] == xs[0];
      assert (xs + ys)[1..] == xs[1..] + ys;
      TotalAppend(xs[1..], ys);
    }
  }

  /** Number of hours `groupby(index // N)` forms from `n` rows: n / N rounded up. */
  function HourCount(n: nat): nat {
    (n + IntervalsPerHour - 1) / IntervalsPerHour
  }

  /** `df.groupby(df.index // N).sum()`: consecutive windows of N rows, the last one possibly short. */
  function HourlyTotals(rows: seq<Counts>): (hours: seq<Counts>)
    ensures |hours| == HourCount(|rows|)
  {
    if rows == [] then []
    else if |rows| <= IntervalsPerHour then [Total(rows)]
    else [Total(rows[..IntervalsPerHour])] + HourlyTotals(rows[IntervalsPerHour..])
  }

  /** One past the last row of hour k: a full window, cut short at the end of the table. */
  function WindowEnd(k: nat, len: nat): nat {
    if IntervalsPerHour * k + IntervalsPerHour <= len then IntervalsPerHour * k + IntervalsPerHour else len
  }

  /** Hour k holds the sum of rows N*k .. N*k+N-1, cut short at the end of the table. */
  lemma {:induction false} HourIsWindow(rows: seq<Counts>, k: nat)
    requires k < HourCount(|rows|)
    ensures IntervalsPerHour * k < WindowEnd(k, |rows|) <= |rows|
    ensures HourlyTotals(rows)[k] == Total(rows[IntervalsPerHour * k .. WindowEnd(k, |rows|)])
  {
    var n := IntervalsPerHour;
    if k > 0 {
      var rest := rows[n..];
      HourIsWindow(rest, k - 1);
      assert HourlyTotals(rows)[k] == HourlyTotals(rest)[k - 1];
      assert n * k == n * (k - 1) + n;
      assert WindowEnd(k, |rows|) == n + WindowEnd(k - 1, |rest|);
      var lo, hi := n * (k - 1), WindowEnd(k - 1, |rest|);
      assert lo <= hi <= |rest|;
      assert rest[lo..hi] == rows[n + lo .. n + hi];
    } else if |rows| <= n {
      assert rows[0..|rows|] == rows;
    }
  }

  /** Grouping neither loses nor invents vehicles: the hours add up to the whole table. */
  lemma {:induction false} HourlyTotalsConserve(rows: seq<Counts>)
    ensures Total(HourlyTotals(rows)) == Total(rows)
  {
    if |rows| <= IntervalsPerHour {
      if rows != [] {
        assert Total([Total(rows)]) == Add(Total(rows), NoVehicles);
      }
    } else {
      var rest := rows[IntervalsPerHour..];
      HourlyTotalsConserve(rest);
      assert rows == rows[..IntervalsPerHour] + rest;
      TotalAppend(rows[..IntervalsPerHour], rest);
    }
  }

  /** Which columns are major and which minor, as chosen from the first major direction. */
  datatype Roles = Roles(major1: Direction, major2: Direction, minor1: Direction, minor2: Direction)

  /** 'NB' pairs NB/SB as major and EB/WB as minor; any other choice pairs it with WB and NB/SB are minor. */
  function RolesFor(major1: Direction): Roles {
    if major1 == NB then Roles(NB, SB, EB, WB) else Roles(major1, WB, NB, SB)
  }

  /** The roles split the four directions into a major and a minor pair exactly for NB and EB. */
  lemma RolesPartition(major1: Direction)
    ensures var r := RolesFor(major1);
            {r.major1, r.major2, r.minor1, r.minor2} == {NB, SB, EB, WB} <==> major1 in {NB, EB}
  {
  }

  /** One row of the hourly table with the columns `get_hourly_vols` adds; `rank2` is twice `Rank`. */
  datatype Hour = Hour(totals: Counts, sumMajor: int, highMinor: int, combined: int, rank2: int)

  /** The `SumMajor&HighMinor` column. */
  function Combined(hours: seq<Hour>): (cs: seq<int>)
    ensures |cs| == |hours|
    ensures forall k :: 0 <= k < |hours| ==> cs[k] == hours[k].combined
  {
    if hours == [] then [] else [hours[0].combined] + Combined(hours[1..])
  }

  /** The derived columns of an hour as the program defines them: the major street's total over
      both approaches, the HIGHER of the two minor approaches (never their sum), and their sum. */
  predicate Derived(h: Hour, roles: Roles) {
    var minor1, minor2 := Get(h.totals, roles.minor1), Get(h.totals, roles.minor2);
    && h.sumMajor == Get(h.totals, roles.major1) + Get(h.totals, roles.major2)
    && h.highMinor >= minor1 && h.highMinor >= minor2
    && (h.highMinor == minor1 || h.highMinor == minor2)
    && h.combined == h.sumMajor + h.highMinor
  }

  /** Every hour carries its descending rank among the `SumMajor&HighMinor` values of all hours. */
  predicate Ranked(s: seq<Hour>) {
    forall k :: 0 <= k < |s| ==> s[k].rank2 == Rank2(Combined(s), s[k].combined)
  }

  /** `get_hourly_vols`: groups the rows into hours, then adds the SumMajor, HighMinor,
      SumMajor&HighMinor and Rank columns to the hourly table. */
  method GetHourlyVols(rows: seq<Counts>, major1: Direction) returns (s: seq<Hour>)
    ensures |s| == HourCount(|rows|)
    ensures forall k :: 0 <= k < |s| ==> s[k].totals == HourlyTotals(rows)[k]
    ensures forall k :: 0 <= k < |s| ==> Derived(s[k], RolesFor(major1))
    ensures Ranked(s)
  {
    var roles := RolesFor(major1);
    var totals := HourlyTotals(rows);
    var table: seq<Hour> := [];
    for k := 0 to |totals|
      invariant |table| == k
      invariant forall i :: 0 <= i < k ==> table[i].totals == totals[i] && Derived(table[i], roles)
    {
      var c := totals[k];
      var sumMajor := Get(c, roles.major1) + Get(c, roles.major2);
      var highMinor := Max(Get(c, roles.minor1), Get(c, roles.minor2));
      table := table + [Hour(c, sumMajor, highMinor, sumMajor + highMinor, 0)];
    }
    var combined := Combined(table);
    s := [];
    for k := 0 to |table|
      invariant |s| == k
      invariant forall i :: 0 <= i < k ==> s[i] == table[i].(rank2 := Rank2(combined, table[i].combined))
    {
      s := s + [table[k].(rank2 := Rank2(combined, table[k].combined))];
    }
    assert Combined(s) == combined;
  }
}
