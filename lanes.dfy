/** Lane counts of the two approaches and the four lane configurations the tables know. */
module Lanes {
  import opened Wrappers

  /** The keys of every table: (major-street lanes, minor-street lanes), each 1 or 2. */
  datatype LanePair = OneOne | TwoOne | TwoTwo | OneTwo {
    function MajorLanes(): int {
      match this
      case OneOne => 1
      case TwoOne => 2
      case TwoTwo => 2
      case OneTwo => 1
    }
    function MinorLanes(): int {
      match this
      case OneOne => 1
      case TwoOne => 1
      case TwoTwo => 2
      case OneTwo => 2
    }
  }

  /** `min(lanes, 2)`: two or more lanes are all treated as two. */
  function Cap(lanes: int): (c: int)
    ensures c <= 2
    ensures lanes >= 2 <==> c == 2
    ensures lanes < 2 ==> c == lanes
  {
    if lanes < 2 then lanes else 2
  }

  /** The table key a `match` on two lane values selects; None is the catch-all case that raises. */
  function PairOf(lanesMajor: int, lanesMinor: int): (p: Option<LanePair>)
    ensures p.Some? <==> lanesMajor in {1, 2} && lanesMinor in {1, 2}
    ensures p.Some? ==> p.value.MajorLanes() == lanesMajor && p.value.MinorLanes() == lanesMinor
  {
    if lanesMajor == 1 && lanesMinor == 1 then Some(OneOne)
    else if lanesMajor == 2 && lanesMinor == 1 then Some(TwoOne)
    else if lanesMajor == 2 && lanesMinor == 2 then Some(TwoTwo)
    else if lanesMajor == 1 && lanesMinor == 2 then Some(OneTwo)
    else None
  }

  /** The key used for raw lane counts: each count is capped before the lookup. */
  function Resolve(lanesMajor: int, lanesMinor: int): (r: Result<LanePair>)
    ensures r.Ok? <==> lanesMajor >= 1 && lanesMinor >= 1
    ensures r.Err? ==> r.error == UnsupportedLanes
  {
    match PairOf(Cap(lanesMajor), Cap(lanesMinor))
    case Some(p) => Ok(p)
    case None => Err(UnsupportedLanes)
  }

  /** Any lane count of two or more selects exactly the same key as two. */
  lemma CapSaturates(lanesMajor: int, lanesMinor: int)
    requires lanesMajor >= 2
    ensures Resolve(lanesMajor, lanesMinor) == Resolve(2, lanesMinor)
    ensures Resolve(lanesMinor, lanesMajor) == Resolve(lanesMinor, 2)
  {
  }

  /** Capping then resolving a supported count gives back the count itself. */
  lemma ResolveSupported(lanesMajor: int, lanesMinor: int)
    requires lanesMajor >= 1 && lanesMinor >= 1
    ensures Resolve(lanesMajor, lanesMinor).Ok?
    ensures Resolve(lanesMajor, lanesMinor).value.MajorLanes() == Cap(lanesMajor)
    ensures Resolve(lanesMajor, lanesMinor).value.MinorLanes() == Cap(lanesMinor)
  {
  }
}
