/** The site parameters of the `__main__` block: the rural test and the Warrant 1 input taken
    from the selected hours. */
module Site {
  import opened Wrappers
  import opened Volumes

  /** Rural thresholds apply when the higher of the posted and 85th-percentile speeds exceeds
      40 mph, or the community has fewer than 10,000 inhabitants. */
  function IsRural(speedLimit: int, speed85th: int, population: int): (rural: bool)
    ensures rural <==> speedLimit > 40 || speed85th > 40 || population < 10000
  {
    var speedWarrant := Max(speedLimit, speed85th);
    speedWarrant > 40 || population < 10000
  }

  /** Python's `max` of a non-empty list. */
  function MaxOf(xs: seq<int>): (m: int)
    requires |xs| > 0
    ensures m in xs
    ensures forall x :: x in xs ==> x <= m
  {
    if |xs| == 1 then xs[0]
    else
      assert xs == [xs[0]] + xs[1..];
      Max(xs[0], MaxOf(xs[1..]))
  }

  /** `vol_8hr_major_total`: per selected hour, the sum of the two major direction columns. */
  function MajorTotals(selected: seq<Hour>, major1: Direction, major2: Direction): (t: seq<int>)
    ensures |t| == |selected|
    ensures forall i :: 0 <= i < |t| ==> t[i] == Get(selected[i].totals, major1) + Get(selected[i].totals, major2)
  {
    seq(|selected|, i requires 0 <= i < |selected| => Get(selected[i].totals, major1) + Get(selected[i].totals, major2))
  }

  /** `vol_8hr_minor_1d`: the `HighMinor` column of the selected hours. */
  function HighMinors(selected: seq<Hour>): (t: seq<int>)
    ensures |t| == |selected|
    ensures forall i :: 0 <= i < |t| ==> t[i] == selected[i].highMinor
  {
    seq(|selected|, i requires 0 <= i < |selected| => selected[i].highMinor)
  }

  /** The (major, minor) pair Warrant 1 is evaluated on: the largest major total and, taken
      separately, the largest higher-minor volume over the selected hours. `max` of an empty
      selection raises. */
  function Warrant1Input(selected: seq<Hour>, major1: Direction, major2: Direction): (r: Result<(int, int)>)
    ensures r.Err? <==> selected == []
    ensures r.Err? ==> r.error == NoHourSelected
    ensures r.Ok? ==> var totals := MajorTotals(selected, major1, major2);
                      && r.value.0 in totals
                      && forall i :: 0 <= i < |selected| ==> totals[i] <= r.value.0
    ensures r.Ok? ==> && (exists i :: 0 <= i < |selected| && selected[i].highMinor == r.value.1)
                      && forall i :: 0 <= i < |selected| ==> selected[i].highMinor <= r.value.1
  {
    if selected == [] then Err(NoHourSelected)
    else
      var minors := HighMinors(selected);
      var minor := MaxOf(minors);
      var totals := MajorTotals(selected, major1, major2);
      assert forall i :: 0 <= i < |selected| ==> minors[i] in minors && totals[i] in totals;
      Ok((MaxOf(totals), minor))
  }

  /** The two maxima are taken independently, so the pair need not be any one hour's volumes:
      here one hour has the heavier major street and the other the heavier minor approach. */
  lemma InputMixesHours()
    ensures var busyMajor := Hour(Counts(300, 200, 50, 40), 500, 50, 550, 2);
            var busyMinor := Hour(Counts(150, 150, 200, 100), 300, 200, 500, 4);
            Warrant1Input([busyMajor, busyMinor], NB, SB) == Ok((500, 200))
  {
    var busyMajor := Hour(Counts(300, 200, 50, 40), 500, 50, 550, 2);
    var busyMinor := Hour(Counts(150, 150, 200, 100), 300, 200, 500, 4);
    assert MajorTotals([busyMajor, busyMinor], NB, SB) == [500, 300];
    assert HighMinors([busyMajor, busyMinor]) == [50, 200];
  }
}
