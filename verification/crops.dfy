/** The `Crop` record and its operations (src/dto.rs). */
module Crops {
  import opened Options
  import opened Seeds
  import opened Growth

  /**
   * One planted unit. Timestamps are kept as the strings the source stores;
   * the model only ever asks whether they are present.
   */
  datatype Crop = Crop(
    botanicaName: string,
    verboseName: string,
    species: string,
    isHarvestable: bool,
    isSown: bool,
    isGmo: bool,
    description: Option<string>,
    harvestDate: Option<string>,
    dateRotDetected: Option<string>,
    splitSize: Option<real>,
    daysInStage: Option<nat>,
    currentStage: Option<GrowthStage>)

  /** A crop as it comes out of a seed bag: at Seed, no day counted, not sown, no outcome. */
  predicate IsFresh(c: Crop) {
    && c.currentStage == Some(Seed)
    && c.daysInStage == Some(0)
    && !c.isSown
    && c.harvestDate.None?
    && c.dateRotDetected.None?
  }

  /** `Crop::new`. */
  function New(botanicaName: string, verboseName: string, species: string, description: Option<string>): (c: Crop)
    ensures IsFresh(c)
    ensures c.isHarvestable && !c.isGmo && c.splitSize == Some(1.0)
    ensures c.botanicaName == botanicaName && c.verboseName == verboseName
    ensures c.species == species && c.description == description
  {
    Crop(botanicaName, verboseName, species, true, false, false, description, None, None, Some(1.0), Some(0), Some(Seed))
  }

  /** The species the stage table is looked up with: the one the crop's verbose name parses to. */
  function SpeciesOf(c: Crop): Species
    requires FromStr(c.verboseName).Ok?
  {
    FromStr(c.verboseName).value.species
  }

  /** How long the crop must spend in its current stage. */
  function StageDays(c: Crop): nat
    requires FromStr(c.verboseName).Ok? && c.currentStage.Some?
  {
    GetDays(c.currentStage.value, SpeciesOf(c))
  }

  /** `grow`: adds `days` to the day count when there is one; nothing else changes. */
  function Grow(c: Crop, days: nat): (r: Crop)
    ensures r.daysInStage.Some? <==> c.daysInStage.Some?
    ensures c.daysInStage.Some? ==> r.daysInStage.value == c.daysInStage.value + days
    ensures r.(daysInStage := c.daysInStage) == c
  {
    match c.daysInStage
    case Some(val) => c.(daysInStage := Some(val + days))
    case None => c
  }

  /** Growing in two steps is growing by the sum; growing by zero changes nothing. */
  lemma GrowAdds(c: Crop, a: nat, b: nat)
    ensures Grow(Grow(c, a), b) == Grow(c, a + b)
    ensures Grow(c, 0) == c
  {
  }

  /** `is_inactive`: the crop sits in one of the stages it never leaves. */
  predicate IsInactive(c: Crop)
    ensures IsInactive(c) <==> c.currentStage.Some? && IsTerminal(c.currentStage.value)
  {
    c.currentStage == Some(Failed) || c.currentStage == Some(Harvest)
  }

  /** `is_harvested`. */
  predicate IsHarvested(c: Crop) {
    c.isHarvestable && c.harvestDate.Some?
  }

  /** `has_issues`: a rot date on a failed crop, which is therefore inactive. */
  predicate HasIssues(c: Crop)
    ensures HasIssues(c) ==> IsInactive(c)
  {
    c.dateRotDetected.Some? && c.currentStage == Some(Failed)
  }

  /**
   * `advance_to_next_stage`, with the transition draw as `idx`. The source
   * unwraps the seed type, the stage and the day count before testing
   * anything, so all three must be present.
   */
  function AdvanceToNextStage(c: Crop, idx: nat): (r: Crop)
    requires FromStr(c.verboseName).Ok? && c.currentStage.Some? && c.daysInStage.Some?
    ensures r.(currentStage := c.currentStage) == c
    ensures r.currentStage != c.currentStage <==> c.daysInStage.value == StageDays(c) && !IsInactive(c)
    ensures r.currentStage != c.currentStage ==> r.currentStage == Some(Next(c.currentStage.value, idx))
  {
    var maxGrowthDays := StageDays(c);
    if c.daysInStage.value == maxGrowthDays && !IsInactive(c) then
      c.(currentStage := Some(Next(c.currentStage.value, idx)))
    else
      c
  }

  /** `sow`: marks the crop sown and touches nothing else. */
  function Sow(c: Crop): (r: Crop)
    ensures r.isSown
    ensures r.(isSown := c.isSown) == c
  {
    c.(isSown := true)
  }

  /** f32's `round`: to the nearest integer, halves away from zero. */
  function RoundHalfAway(x: real): (k: int)
    ensures x - 0.5 <= k as real <= x + 0.5
  {
    if x >= 0.0 then (x + 0.5).Floor else -((-x + 0.5).Floor)
  }

  /** `(x * 100.0).round() / 100.0`: rounding to two decimals. */
  function Round2(x: real): (r: real)
    ensures x - 0.005 <= r <= x + 0.005
  {
    RoundHalfAway(x * 100.0) as real / 100.0
  }

  datatype Pieces = Pieces(original: Crop, splits: seq<Crop>)

  /** The share of the split size each clone receives before rounding. */
  function Share(c: Crop, size: nat): real
    requires size > 0
  {
    c.splitSize.GetOr(1.0) / size as real
  }

  /**
   * `Crop::split`. Returns the updated original together with the clones.
   * When `size` is 0 and the crop has no split size the source stores
   * f32 infinity in the original, which a real cannot hold, so that one
   * input is excluded.
   */
  function Split(c: Crop, size: nat): (r: Pieces)
    requires size > 0 || c.splitSize.Some?
    ensures |r.splits| == size
    ensures forall i :: 0 <= i < size ==> r.splits[i] == c.(splitSize := Some(Round2(Share(c, size))))
    ensures c.splitSize.Some? ==> r.original == c.(splitSize := Some(Round2(c.splitSize.value)))
    ensures c.splitSize.None? ==> r.original == c.(splitSize := Some(Round2(1.0 / size as real)))
  {
    var newSize := if size > 0 then Share(c, size) else 0.0;
    var clone := c.(splitSize := Some(Round2(newSize)));
    Pieces(c.(splitSize := Some(Round2(c.splitSize.GetOr(newSize)))), seq(size, _ => clone))
  }

  /**
   * Splitting a whole crop four ways gives four quarters; the original keeps
   * its own rounded size, 1.0, rather than a quarter.
   */
  lemma SplitIntoQuarters(c: Crop)
    requires c.splitSize == Some(1.0)
    ensures var r := Split(c, 4);
      && |r.splits| == 4
      && (forall i :: 0 <= i < 4 ==> r.splits[i].splitSize == Some(0.25))
      && r.original.splitSize == Some(1.0)
  {
    assert Round2(0.25) == 0.25;
    assert Round2(1.0) == 1.0;
  }
}
