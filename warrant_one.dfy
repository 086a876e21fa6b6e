/** Warrant 1, Eight-Hour Vehicle Volume (MUTCD 2009, Section 4C.02, Table 4C-1): Condition A,
    Condition B and their combination, evaluated in that order with early exits. */
module WarrantOne {
  import opened Wrappers
  import opened Lanes

  /** A (major street, higher-volume minor approach) pair in vehicles per hour. */
  datatype Threshold = Threshold(major: int, minor: int)

  /** Both volumes strictly above the pair. */
  predicate Exceeds(t: Threshold, major: int, minor: int) {
    major > t.major && minor > t.minor
  }

  /** Condition A, Minimum Vehicle Volume: the 100% (urban) and 70% (rural) columns. */
  function CondATable(p: LanePair, rural: bool): Threshold {
    match p
    case OneOne => if rural then Threshold(350, 105) else Threshold(500, 150)
    case TwoOne => if rural then Threshold(420, 105) else Threshold(600, 150)
    case TwoTwo => if rural then Threshold(420, 140) else Threshold(600, 200)
    case OneTwo => if rural then Threshold(350, 140) else Threshold(500, 200)
  }

  /** Condition B, Interruption of Continuous Traffic. */
  function CondBTable(p: LanePair, rural: bool): Threshold {
    match p
    case OneOne => if rural then Threshold(525, 53) else Threshold(750, 75)
    case TwoOne => if rural then Threshold(630, 53) else Threshold(900, 75)
    case TwoTwo => if rural then Threshold(630, 70) else Threshold(900, 100)
    case OneTwo => if rural then Threshold(525, 70) else Threshold(750, 100)
  }

  /** The combination's reduced Condition A pair, stored as literals. */
  function ComboATable(p: LanePair, rural: bool): Threshold {
    match p
    case OneOne => if rural then Threshold(280, 84) else Threshold(400, 120)
    case TwoOne => if rural then Threshold(336, 84) else Threshold(480, 120)
    case TwoTwo => if rural then Threshold(336, 112) else Threshold(480, 160)
    case OneTwo => if rural then Threshold(280, 112) else Threshold(400, 160)
  }

  /** The combination's reduced Condition B pair, stored as literals. */
  function ComboBTable(p: LanePair, rural: bool): Threshold {
    match p
    case OneOne => if rural then Threshold(420, 42) else Threshold(600, 60)
    case TwoOne => if rural then Threshold(504, 42) else Threshold(720, 60)
    case TwoTwo => if rural then Threshold(504, 56) else Threshold(720, 80)
    case OneTwo => if rural then Threshold(420, 56) else Threshold(600, 80)
  }

  /** The tuple each condition matches on: capped lane counts, the two volumes and the area type. */
  datatype Info = Info(lanesMajor: int, lanesMinor: int, major: int, minor: int, rural: bool)

  /** The lane pair the tuple selects, if its lane values are a key of the tables. */
  function KeyOf(info: Info): Option<LanePair> {
    PairOf(info.lanesMajor, info.lanesMinor)
  }

  /** The combination: both the reduced A pair and the reduced B pair are exceeded. */
  predicate ComboHolds(p: LanePair, rural: bool, major: int, minor: int) {
    Exceeds(ComboATable(p, rural), major, minor) && Exceeds(ComboBTable(p, rural), major, minor)
  }

  /** `w1_cond_a`: an urban test and a rural test per lane pair; a lane value outside {1, 2} raises. */
  function W1CondA(info: Info): (r: Result<bool>)
    ensures r.Ok? <==> KeyOf(info).Some?
    ensures r.Err? ==> r.error == UnsupportedLanes
    ensures r.Ok? ==> (r.value <==> Exceeds(CondATable(KeyOf(info).value, info.rural), info.major, info.minor))
  {
    var Info(lanesMajor, lanesMinor, major, minor, rural) := info;
    if lanesMajor == 1 && lanesMinor == 1 then
      Ok((major > 500 && minor > 150 && !rural) || (major > 350 && minor > 105 && rural))
    else if lanesMajor == 2 && lanesMinor == 1 then
      Ok((major > 600 && minor > 150 && !rural) || (major > 420 && minor > 105 && rural))
    else if lanesMajor == 2 && lanesMinor == 2 then
      Ok((major > 600 && minor > 200 && !rural) || (major > 420 && minor > 140 && rural))
    else if lanesMajor == 1 && lanesMinor == 2 then
      Ok((major > 500 && minor > 200 && !rural) || (major > 350 && minor > 140 && rural))
    else
      Err(UnsupportedLanes)
  }

  /** `w1_cond_b`: the same shape as Condition A with the Condition B volumes. */
  function W1CondB(info: Info): (r: Result<bool>)
    ensures r.Ok? <==> KeyOf(info).Some?
    ensures r.Err? ==> r.error == UnsupportedLanes
    ensures r.Ok? ==> (r.value <==> Exceeds(CondBTable(KeyOf(info).value, info.rural), info.major, info.minor))
  {
    var Info(lanesMajor, lanesMinor, major, minor, rural) := info;
    if lanesMajor == 1 && lanesMinor == 1 then
      Ok((major > 750 && minor > 75 && !rural) || (major > 525 && minor > 53 && rural))
    else if lanesMajor == 2 && lanesMinor == 1 then
      Ok((major > 900 && minor > 75 && !rural) || (major > 630 && minor > 53 && rural))
    else if lanesMajor == 2 && lanesMinor == 2 then
      Ok((major > 900 && minor > 100 && !rural) || (major > 630 && minor > 70 && rural))
    else if lanesMajor == 1 && lanesMinor == 2 then
      Ok((major > 750 && minor > 100 && !rural) || (major > 525 && minor > 70 && rural))
    else
      Err(UnsupportedLanes)
  }

  /** `w1_cond_ab`: sets a flag for the reduced A pair and one for the reduced B pair of the
      area type, then reports whether both were set. */
  method W1CondAB(info: Info) returns (r: Result<bool>)
    ensures r.Ok? <==> KeyOf(info).Some?
    ensures r.Err? ==> r.error == UnsupportedLanes
    ensures r.Ok? ==> (r.value <==> ComboHolds(KeyOf(info).value, info.rural, info.major, info.minor))
  {
    var condA := false;
    var condB := false;
    var Info(lanesMajor, lanesMinor, major, minor, rural) := info;
    if lanesMajor == 1 && lanesMinor == 1 {
      if !rural {
        if major > 400 && minor > 120 { condA := true; }
        if major > 600 && minor > 60 { condB := true; }
      } else {
        if major > 280 && minor > 84 { condA := true; }
        if major > 420 && minor > 42 { condB := true; }
      }
    } else if lanesMajor == 2 && lanesMinor == 1 {
      if !rural {
        if major > 480 && minor > 120 { condA := true; }
        if major > 720 && minor > 60 { condB := true; }
      } else {
        if major > 336 && minor > 84 { condA := true; }
        if major > 504 && minor > 42 { condB := true; }
      }
    } else if lanesMajor == 2 && lanesMinor == 2 {
      if !rural {
        if major > 480 && minor > 160 { condA := true; }
        if major > 720 && minor > 80 { condB := true; }
      } else {
        if major > 336 && minor > 112 { condA := true; }
        if major > 504 && minor > 56 { condB := true; }
      }
    } else if lanesMajor == 1 && lanesMinor == 2 {
      if !rural {
        if major > 400 && minor > 160 { condA := true; }
        if major > 600 && minor > 80 { condB := true; }
      } else {
        if major > 280 && minor > 112 { condA := true; }
        if major > 420 && minor > 56 { condB := true; }
      }
    } else {
      return Err(UnsupportedLanes);
    }
    return Ok(condA && condB);
  }

  /** The three flags `evaluate_warrant1` returns. */
  datatype Flags = Flags(a: bool, b: bool, c: bool)

  /** The flags the ordered evaluation yields: Condition A; Condition B only when A fails; the
      combination only when both fail. */
  function Warrant1Flags(p: LanePair, rural: bool, major: int, minor: int): Flags {
    var condA := Exceeds(CondATable(p, rural), major, minor);
    var condB := Exceeds(CondBTable(p, rural), major, minor);
    Flags(condA, !condA && condB, !condA && !condB && ComboHolds(p, rural, major, minor))
  }

  /** At most one flag is set, and one is set exactly when Warrant 1 is met by Condition A, by
      Condition B or by their combination. */
  lemma FlagsDecideWarrant1(p: LanePair, rural: bool, major: int, minor: int)
    ensures var f := Warrant1Flags(p, rural, major, minor);
            !(f.a && f.b) && !(f.a && f.c) && !(f.b && f.c)
    ensures var f := Warrant1Flags(p, rural, major, minor);
            (f.a || f.b || f.c)
            <==> Exceeds(CondATable(p, rural), major, minor) || Exceeds(CondBTable(p, rural), major, minor)
                 || ComboHolds(p, rural, major, minor)
  {
  }

  /** `evaluate_warrant1`: caps the lane counts, evaluates Condition A; Condition B only when A
      fails; the combination only when both fail. */
  method EvaluateWarrant1(volumes: (int, int), lanes: (int, int), rural: bool) returns (r: Result<Flags>)
    ensures r.Ok? <==> lanes.0 >= 1 && lanes.1 >= 1
    ensures r.Err? ==> r.error == UnsupportedLanes
    ensures r.Ok? ==> r.value == Warrant1Flags(Resolve(lanes.0, lanes.1).value, rural, volumes.0, volumes.1)
  {
    var (major, minor) := volumes;
    var info := Info(Cap(lanes.0), Cap(lanes.1), major, minor, rural);
    var a, b, c := false, false, false;
    a :- W1CondA(info);
    // B and the combination accept exactly the lane values A accepted, so they cannot raise here.
    if !a {
      b := W1CondB(info).value;
    }
    if !a && !b {
      var combo := W1CondAB(info);
      c := combo.value;
    }
    return Ok(Flags(a, b, c));
  }

  /** Raising either volume never turns a satisfied condition into an unsatisfied one. */
  lemma ConditionsMonotone(p: LanePair, rural: bool, major: int, minor: int, major': int, minor': int)
    requires major <= major' && minor <= minor'
    ensures Exceeds(CondATable(p, rural), major, minor) ==> Exceeds(CondATable(p, rural), major', minor')
    ensures Exceeds(CondBTable(p, rural), major, minor) ==> Exceeds(CondBTable(p, rural), major', minor')
    ensures ComboHolds(p, rural, major, minor) ==> ComboHolds(p, rural, major', minor')
  {
  }

  /** Condition B asks for a heavier major street and accepts a lighter minor approach than A. */
  lemma ConditionBTradesMinorForMajor(p: LanePair, rural: bool)
    ensures CondBTable(p, rural).major > CondATable(p, rural).major
    ensures CondBTable(p, rural).minor < CondATable(p, rural).minor
  {
  }

  /** The rural volumes are the 70% column: 70% of the urban volume, rounded up. */
  lemma RuralIsSeventyPercent(p: LanePair)
    ensures var (u, r) := (CondATable(p, false), CondATable(p, true));
            7 * u.major <= 10 * r.major < 7 * u.major + 10 && 7 * u.minor <= 10 * r.minor < 7 * u.minor + 10
    ensures var (u, r) := (CondBTable(p, false), CondBTable(p, true));
            7 * u.major <= 10 * r.major < 7 * u.major + 10 && 7 * u.minor <= 10 * r.minor < 7 * u.minor + 10
  {
  }

  /** On whole vehicle counts the literal combination volumes are exactly "80% of both A and
      B": each literal is 80% of the matching Condition A or B volume rounded down, and a whole
      number exceeds it exactly when it exceeds the unrounded 80%. */
  lemma ComboIsEightyPercent(p: LanePair, rural: bool, major: int, minor: int)
    ensures var (a, b) := (CondATable(p, rural), CondBTable(p, rural));
            ComboHolds(p, rural, major, minor)
            <==> 5 * major > 4 * a.major && 5 * minor > 4 * a.minor && 5 * major > 4 * b.major && 5 * minor > 4 * b.minor
  {
  }

  /** Condition A holds for 550/160 vph on one lane each, urban. */
  lemma ConditionAExample()
    ensures W1CondA(Info(1, 1, 550, 160, false)) == Ok(true)
  {
  }

  /** For 510/140 vph on one lane each, urban: A fails on the minor street, B on the major
      street, and the combination meets 400/120 but not 600/60. */
  lemma NoConditionExample()
    ensures W1CondA(Info(1, 1, 510, 140, false)) == Ok(false)
    ensures W1CondB(Info(1, 1, 510, 140, false)) == Ok(false)
    ensures Exceeds(ComboATable(OneOne, false), 510, 140) && !Exceeds(ComboBTable(OneOne, false), 510, 140)
  {
  }
}
