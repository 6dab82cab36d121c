/** `determine_maturity_level`: a score's place among five ordered maturity levels. */
module MaturityLevels {
  import opened Common
  import opened Stats

  datatype MaturityLevel = Foundational | Developed | Optimized | Integrated | Advanced

  /** The level's position in the order, lowest first. */
  function Rank(l: MaturityLevel): nat
  {
    match l
    case Foundational => 0
    case Developed => 1
    case Optimized => 2
    case Integrated => 3
    case Advanced => 4
  }

  /** The label the source returns for each level. */
  function Label(l: MaturityLevel): string
  {
    match l
    case Foundational => "Foundational"
    case Developed => "Developed"
    case Optimized => "Optimized"
    case Integrated => "Integrated"
    case Advanced => "Advanced"
  }

  /** The largest score a level covers; the highest level has no bound. */
  function Ceiling(l: MaturityLevel): Option<real>
  {
    match l
    case Foundational => Some(1.5)
    case Developed => Some(2.5)
    case Optimized => Some(3.5)
    case Integrated => Some(4.5)
    case Advanced => None
  }

  predicate Covers(l: MaturityLevel, score: real)
  {
    Ceiling(l).None? || score <= Ceiling(l).value
  }

  /** The chain of `<=` tests. A missing score (NaN) fails every test and is "Advanced". */
  function DetermineMaturityLevel(score: Score): (l: MaturityLevel)
    ensures score.None? ==> l == Advanced
    ensures score.Some? ==> Covers(l, score.value)
  {
    match score
    case None => Advanced
    case Some(s) =>
      if s <= 1.5 then Foundational
      else if s <= 2.5 then Developed
      else if s <= 3.5 then Optimized
      else if s <= 4.5 then Integrated
      else Advanced
  }

  /** A present score gets the lowest level whose ceiling it does not exceed. */
  lemma LevelIsLowestCovering(s: real)
    ensures var l := DetermineMaturityLevel(Some(s));
      && Covers(l, s)
      && forall m: MaturityLevel :: Rank(m) < Rank(l) ==> !Covers(m, s)
  {
    var l := DetermineMaturityLevel(Some(s));
    forall m: MaturityLevel | Rank(m) < Rank(l) ensures !Covers(m, s) {
      assert Ceiling(m).Some?;
    }
  }

  /** The five labels are different, so the returned string names one level. */
  lemma LabelsDistinct(l: MaturityLevel, m: MaturityLevel)
    ensures Label(l) == Label(m) <==> l == m
  {
    if l != m {
      assert Label(l)[0] != Label(m)[0] || |Label(l)| != |Label(m)|;
    }
  }

  /** A higher score never gets a lower level. */
  lemma LevelMonotone(s: real, t: real)
    requires s <= t
    ensures Rank(DetermineMaturityLevel(Some(s))) <= Rank(DetermineMaturityLevel(Some(t)))
  {
  }

  /** Each boundary belongs to the level below it. */
  lemma BoundariesGoDown()
    ensures DetermineMaturityLevel(Some(1.5)) == Foundational
    ensures DetermineMaturityLevel(Some(2.5)) == Developed
    ensures DetermineMaturityLevel(Some(3.5)) == Optimized
    ensures DetermineMaturityLevel(Some(4.5)) == Integrated
    ensures DetermineMaturityLevel(Some(1.4)) == Foundational
    ensures DetermineMaturityLevel(Some(1.6)) == Developed
    ensures DetermineMaturityLevel(Some(5.0)) == Advanced
  {
  }
}
