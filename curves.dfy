/** Warrant 2, Four-Hour Vehicle Volume (MUTCD 2009, Section 4C.03, Figure 4C-1) and Warrant 3,
    Peak Hour (Section 4C.04, Figure 4C-3, category B): fitted curves of the minor-street volume
    against the major-street volume, one per lane pair and area type, and the count of hours
    above them. */
module Curves {
  import opened Wrappers
  import opened Lanes

  /** A fitted curve: the saturation value from the breakpoint on, a + b*x + c*x*x below it. */
  datatype Curve = Curve(breakpoint: int, saturation: real, a: real, b: real, c: real)

  function Quadratic(cv: Curve, x: real): real {
    cv.a + cv.b * x + cv.c * x * x
  }

  /** The curve's minor-street volume at major-street volume `x`. */
  function CurveAt(cv: Curve, x: int): real {
    if x >= cv.breakpoint then cv.saturation else Quadratic(cv, x as real)
  }

  /** Which figure a curve comes from. */
  datatype Warrant = Warrant2 | Warrant3

  /** Figure 4C-1: the curves of `w2_cond`. */
  function Warrant2Curve(p: LanePair, rural: bool): Curve {
    match p
    case OneOne =>
      if rural then Curve(782, 60.0, 377.22710663, -0.6793503652, 0.0003501046)
      else Curve(1092, 80.0, 550.22697349, -0.6996510769, 0.0002462697)
    case OneTwo =>
      if rural then Curve(797, 80.0, 460.53837044, -0.7635806818, 0.0003591016)
      else Curve(1118, 115.0, 651.50622395, -0.7483745392, 0.000240228)
    case TwoTwo =>
      if rural then Curve(890, 80.0, 613.77772474, -0.9893678281, 0.0004377428)
      else Curve(1295, 115.0, 879.232228, -1.011380233, 0.0003253082)
    case TwoOne =>
      if rural then Curve(940, 60.0, 460.53837044, -0.7635806818, 0.0003591016)
      else Curve(1340, 80.0, 651.50622395, -0.7483745392, 0.000240228)
  }

  /** Figure 4C-3: the curves of `w3_cond`. */
  function Warrant3Curve(p: LanePair, rural: bool): Curve {
    match p
    case OneOne =>
      if rural then Curve(1054, 75.0, 520.01155026, -0.7647561999, 0.0003250549)
      else Curve(1516, 100.0, 745.652000052, -0.7548866636, 0.00021703)
    case TwoOne =>
      if rural then Curve(1196, 75.0, 593.38729059, -0.7471500045, 0.000262383)
      else Curve(1759, 100.0, 837.59424427, -0.7219511908, 0.0001720248)
    case TwoTwo =>
      if rural then Curve(1183, 100.0, 771.842673, -0.9817221615, 0.0003498922)
      else Curve(1672, 150.0, 1060.5405451, -0.889969286, 0.0002059999)
    case OneTwo =>
      if rural then Curve(1040, 100.0, 593.38729059, -0.7471500045, 0.000262383)
      else Curve(1461, 150.0, 837.59424427, -0.7219511908, 0.0001720248)
  }

  function CurveFor(w: Warrant, p: LanePair, rural: bool): Curve {
    match w
    case Warrant2 => Warrant2Curve(p, rural)
    case Warrant3 => Warrant3Curve(p, rural)
  }

  /** The (1,2) and (2,1) cells of each figure share their quadratic and differ in breakpoint
      and saturation value. */
  lemma SharedQuadratics(w: Warrant, rural: bool)
    ensures var (x, y) := (CurveFor(w, OneTwo, rural), CurveFor(w, TwoOne, rural));
            x.a == y.a && x.b == y.b && x.c == y.c && x.breakpoint != y.breakpoint && x.saturation != y.saturation
  {
  }

  /** The shape every fitted curve has: an upward parabola whose vertex lies beyond the
      breakpoint, so that it falls all the way to the breakpoint, where it comes within 2 vph of
      the saturation value. */
  predicate WellShaped(cv: Curve) {
    && cv.breakpoint > 0
    && cv.c > 0.0
    && cv.b + 2.0 * cv.c * (cv.breakpoint as real) < 0.0
    && cv.saturation - 2.0 < Quadratic(cv, cv.breakpoint as real) < cv.saturation + 2.0
  }

  lemma TablesWellShaped(w: Warrant, p: LanePair, rural: bool)
    ensures WellShaped(CurveFor(w, p, rural))
  {
  }

  lemma ProductOfNegatives(u: real, v: real)
    requires u < 0.0 && v < 0.0
    ensures u * v > 0.0
  {
  }

  /** Below the breakpoint a well-shaped curve strictly decreases: more major-street traffic asks
      for less minor-street traffic. */
  lemma QuadraticDecreasing(cv: Curve, x: real, y: real)
    requires WellShaped(cv)
    requires 0.0 <= x < y <= cv.breakpoint as real
    ensures Quadratic(cv, y) < Quadratic(cv, x)
  {
    var bp := cv.breakpoint as real;
    assert Quadratic(cv, x) - Quadratic(cv, y) == (x - y) * (cv.b + cv.c * (x + y));
    assert cv.c * (x + y) < cv.c * (2.0 * bp);
    ProductOfNegatives(x - y, cv.b + cv.c * (x + y));
  }

  /** A well-shaped curve never asks for less than its saturation value minus 2 vph. */
  lemma CurveFloor(cv: Curve, x: int)
    requires WellShaped(cv)
    requires x >= 0
    ensures CurveAt(cv, x) > cv.saturation - 2.0
  {
    if x < cv.breakpoint {
      QuadraticDecreasing(cv, x as real, cv.breakpoint as real);
    }
  }

  /** From the breakpoint on the curve is the saturation literal, not the quadratic: at 1092 vph
      the urban one-lane curve of Figure 4C-1 is 80 vph, where the quadratic is below 80. */
  lemma SaturationExample()
    ensures CurveAt(Warrant2Curve(OneOne, false), 1092) == 80.0
    ensures Quadratic(Warrant2Curve(OneOne, false), 1092.0) < 80.0
  {
  }

  /** A sample is above the curve when its minor-street volume strictly exceeds the curve. */
  predicate Above(cv: Curve, major: int, minor: int) {
    minor as real > CurveAt(cv, major)
  }

  /** How many of the paired samples lie above the curve. */
  function HoursAbove(cv: Curve, major: seq<int>, minor: seq<int>): (n: nat)
    requires |major| == |minor|
    ensures n <= |minor|
  {
    if minor == [] then 0
    else
      var last := |minor| - 1;
      HoursAbove(cv, major[..last], minor[..last]) + if Above(cv, major[last], minor[last]) then 1 else 0
  }

  /** The hours whose sample lies above the curve. */
  function HoursAboveSet(cv: Curve, major: seq<int>, minor: seq<int>): set<int>
    requires |major| == |minor|
  {
    set i | 0 <= i < |minor| && Above(cv, major[i], minor[i])
  }

  /** The count is the number of distinct hours above the curve, wherever they sit in the
      list: "any 4 hours" are met exactly when the count reaches 4. */
  lemma {:induction false} HoursAboveCountsHours(cv: Curve, major: seq<int>, minor: seq<int>)
    requires |major| == |minor|
    ensures HoursAbove(cv, major, minor) == |HoursAboveSet(cv, major, minor)|
  {
    if minor != [] {
      var last := |minor| - 1;
      HoursAboveCountsHours(cv, major[..last], minor[..last]);
      var before := HoursAboveSet(cv, major[..last], minor[..last]);
      if Above(cv, major[last], minor[last]) {
        assert HoursAboveSet(cv, major, minor) == before + {last};
      } else {
        assert HoursAboveSet(cv, major, minor) == before;
      }
    }
  }

  /** More minor-street traffic in every hour never puts fewer hours above the curve. */
  lemma {:induction false} HoursAboveMonotone(cv: Curve, major: seq<int>, minor: seq<int>, minor': seq<int>)
    requires |major| == |minor| == |minor'|
    requires forall i :: 0 <= i < |minor| ==> minor[i] <= minor'[i]
    ensures HoursAbove(cv, major, minor) <= HoursAbove(cv, major, minor')
  {
    if minor != [] {
      var last := |minor| - 1;
      HoursAboveMonotone(cv, major[..last], minor[..last], minor'[..last]);
    }
  }

  /** When every sample lies above the curve, every one is counted. */
  lemma {:induction false} EveryHourAbove(cv: Curve, major: seq<int>, minor: seq<int>)
    requires |major| == |minor|
    requires forall i :: 0 <= i < |minor| ==> Above(cv, major[i], minor[i])
    ensures HoursAbove(cv, major, minor) == |minor|
  {
    if minor != [] {
      var last := |minor| - 1;
      EveryHourAbove(cv, major[..last], minor[..last]);
    }
  }

  /** Hours above the curve a warrant requires: "each of any 4 hours". */
  const HoursRequired: nat := 4

  /** What a Python function returns: a truth value, or None when its loop body never ran. */
  datatype Outcome = Returned(satisfied: bool) | FellThrough

  /** `w2_cond` / `w3_cond` as written: the verdict `hrs_over >= 4` is returned from inside the
      loop body, so only the first sample is ever looked at and at most one hour is counted.
      Every non-empty sample list is reported as not satisfying the warrant; an empty one
      falls out of the loop and yields None. */
  method CurveCondAsWritten(w: Warrant, lanesMajor: int, lanesMinor: int, major: seq<int>, minor: seq<int>, rural: bool)
    returns (r: Result<Outcome>)
    requires |major| == |minor|
    ensures r.Ok? <==> PairOf(lanesMajor, lanesMinor).Some?
    ensures r.Err? ==> r.error == UnsupportedLanes
    ensures r.Ok? ==> r.value == if minor == [] then FellThrough else Returned(false)
  {
    var hrsOver := 0;
    var key := PairOf(lanesMajor, lanesMinor);
    if key.None? {
      return Err(UnsupportedLanes);
    }
    var cv := CurveFor(w, key.value, rural);
    var y := seq(|major|, i requires 0 <= i < |major| => CurveAt(cv, major[i]));
    for i := 0 to |minor|
      invariant hrsOver == 0
    {
      if minor[i] as real > y[i] {
        hrsOver := hrsOver + 1;
      }
      return Ok(Returned(hrsOver >= HoursRequired));
    }
    return Ok(FellThrough);
  }

  /** The warrant's rule: satisfied when at least four of the samples lie above the curve of
      the lane pair and area type. */
  method CurveCond(w: Warrant, lanesMajor: int, lanesMinor: int, major: seq<int>, minor: seq<int>, rural: bool)
    returns (r: Result<bool>)
    requires |major| == |minor|
    ensures r.Ok? <==> PairOf(lanesMajor, lanesMinor).Some?
    ensures r.Err? ==> r.error == UnsupportedLanes
    ensures r.Ok? ==> (r.value <==> HoursAbove(CurveFor(w, PairOf(lanesMajor, lanesMinor).value, rural), major, minor) >= HoursRequired)
  {
    var hrsOver := 0;
    var key := PairOf(lanesMajor, lanesMinor);
    if key.None? {
      return Err(UnsupportedLanes);
    }
    var cv := CurveFor(w, key.value, rural);
    var y := seq(|major|, i requires 0 <= i < |major| => CurveAt(cv, major[i]));
    for i := 0 to |minor|
      invariant hrsOver == HoursAbove(cv, major[..i], minor[..i])
    {
      assert major[..i + 1][..i] == major[..i] && minor[..i + 1][..i] == minor[..i];
      if minor[i] as real > y[i] {
        hrsOver := hrsOver + 1;
      }
    }
    assert major[..|minor|] == major && minor[..|minor|] == minor;
    return Ok(hrsOver >= HoursRequired);
  }

  /** `evaluate_warrant2` / `evaluate_warrant3`: caps both lane counts at 2 and applies the
      warrant's curve test to the paired major totals and higher minor volumes. */
  method EvaluateCurveWarrant(w: Warrant, volumes: (seq<int>, seq<int>), lanes: (int, int), rural: bool)
    returns (r: Result<bool>)
    requires |volumes.0| == |volumes.1|
    ensures r.Ok? <==> lanes.0 >= 1 && lanes.1 >= 1
    ensures r.Err? ==> r.error == UnsupportedLanes
    ensures r.Ok? ==> (r.value <==> HoursAbove(CurveFor(w, Resolve(lanes.0, lanes.1).value, rural), volumes.0, volumes.1) >= HoursRequired)
  {
    r := CurveCond(w, Cap(lanes.0), Cap(lanes.1), volumes.0, volumes.1, rural);
  }

  /** `evaluate_warrant2` / `evaluate_warrant3` as written: they cap the lane counts and call the
      loop that returns after the first sample, so every non-empty selection is reported as not
      satisfying the warrant. */
  method EvaluateCurveWarrantAsWritten(w: Warrant, volumes: (seq<int>, seq<int>), lanes: (int, int), rural: bool)
    returns (r: Result<Outcome>)
    requires |volumes.0| == |volumes.1|
    ensures r.Ok? <==> lanes.0 >= 1 && lanes.1 >= 1
    ensures r.Err? ==> r.error == UnsupportedLanes
    ensures r.Ok? ==> r.value == if volumes.1 == [] then FellThrough else Returned(false)
  {
    r := CurveCondAsWritten(w, Cap(lanes.0), Cap(lanes.1), volumes.0, volumes.1, rural);
  }

  /** Four hours well above the urban one-lane curve of Figure 4C-1 (300 vph on the minor
      street where the curve asks for about 219): the warrant's rule is met, yet the loop as
      written returns False for these samples. */
  lemma FourHoursAboveCurve()
    ensures HoursAbove(Warrant2Curve(OneOne, false), [600, 600, 600, 600], [300, 300, 300, 300]) == HoursRequired
  {
    var cv := Warrant2Curve(OneOne, false);
    assert Above(cv, 600, 300);
    EveryHourAbove(cv, [600, 600, 600, 600], [300, 300, 300, 300]);
  }
}
