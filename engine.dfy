/** The `__main__` block: the hourly table of a count, its eight highest hours, the area type,
    and Warrants 1, 2 and 3 evaluated on those hours. The answers the program reads from the
    keyboard are parameters, the count is a sequence of interval rows. */
module Engine {
  import opened Wrappers
  import opened Lanes
  import opened Volumes
  import opened TopHours
  import opened Site
  import opened WarrantOne
  import opened Curves

  /** The major approach the user selects: "0" is NB/SB, every other answer EB/WB. The hourly
      table is built from the first direction only, and it treats the pair as the major roles. */
  function MajorApproach(majorSel: string): (d: (Direction, Direction))
    ensures d.0 in {NB, EB}
    ensures RolesFor(d.0).major1 == d.0 && RolesFor(d.0).major2 == d.1
    ensures d.0 == NB <==> majorSel == "0"
  {
    if majorSel == "0" then (NB, SB) else (EB, WB)
  }

  /** The major totals read back from the selected hours are the hours' `SumMajor` column. */
  lemma MajorTotalsAreSumMajor(majorSel: string, selected: seq<Hour>)
    requires forall h :: h in selected ==> Derived(h, RolesFor(MajorApproach(majorSel).0))
    ensures var (major1, major2) := MajorApproach(majorSel);
            forall i :: 0 <= i < |selected| ==> MajorTotals(selected, major1, major2)[i] == selected[i].sumMajor
  {
    var (major1, major2) := MajorApproach(majorSel);
    forall i | 0 <= i < |selected|
      ensures MajorTotals(selected, major1, major2)[i] == selected[i].sumMajor
    {
      assert selected[i] in selected;
    }
  }

  /** What the program reports. */
  datatype Report = Report(rural: bool, warrant1Input: (int, int), warrant1: Flags, warrant2: bool, warrant3: bool)

  /** The whole evaluation. `r` is the report, or the error the program stops with: `max` of
      an empty selection, then an unsupported lane count; `hours` is the hourly table. */
  method Run(majorSel: string, rows: seq<Counts>, speedLimit: int, speed85th: int, population: int,
             lanesMajor: int, lanesMinor: int)
    returns (r: Result<Report>, hours: seq<Hour>)
    ensures |hours| == HourCount(|rows|)
    ensures forall k :: 0 <= k < |hours| ==> hours[k].totals == HourlyTotals(rows)[k]
    ensures forall k :: 0 <= k < |hours| ==> Derived(hours[k], RolesFor(MajorApproach(majorSel).0))
    ensures Ranked(hours)
    ensures var selected := Highest8Hrs(hours);
            r.Err? <==> selected == [] || lanesMajor < 1 || lanesMinor < 1
    ensures r.Err? ==> r.error == if Highest8Hrs(hours) == [] then NoHourSelected else UnsupportedLanes
    ensures r.Ok? ==>
      var selected := Highest8Hrs(hours);
      var (major1, major2) := MajorApproach(majorSel);
      var rep := r.value;
      var p := Resolve(lanesMajor, lanesMinor).value;
      var totals := MajorTotals(selected, major1, major2);
      && rep.rural == IsRural(speedLimit, speed85th, population)
      && rep.warrant1Input == Warrant1Input(selected, major1, major2).value
      && rep.warrant1 == Warrant1Flags(p, rep.rural, rep.warrant1Input.0, rep.warrant1Input.1)
      && (rep.warrant2 <==> HoursAbove(CurveFor(Warrant2, p, rep.rural), totals, HighMinors(selected)) >= HoursRequired)
      && (rep.warrant3 <==> HoursAbove(CurveFor(Warrant3, p, rep.rural), totals, HighMinors(selected)) >= HoursRequired)
    ensures r.Ok? && (r.value.warrant2 || r.value.warrant3) ==> |Highest8Hrs(hours)| >= HoursRequired
  {
    var (major1, major2) := MajorApproach(majorSel);
    hours := GetHourlyVols(rows, major1);
    var selected := Highest8Hrs(hours);
    var rural := IsRural(speedLimit, speed85th, population);
    var totals := MajorTotals(selected, major1, major2);
    var minors := HighMinors(selected);
    var input :- Warrant1Input(selected, major1, major2);
    var w1 :- EvaluateWarrant1(input, (lanesMajor, lanesMinor), rural);
    // Warrant 1 accepted the lane counts, so the curve warrants accept them as well.
    var w2 := EvaluateCurveWarrant(Warrant2, (totals, minors), (lanesMajor, lanesMinor), rural);
    var w3 := EvaluateCurveWarrant(Warrant3, (totals, minors), (lanesMajor, lanesMinor), rural);
    return Ok(Report(rural, input, w1, w2.value, w3.value)), hours;
  }
}
