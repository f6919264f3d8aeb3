/** The growth-stage machine: stages, the per-species duration table and the transition rule (src/dto.rs). */
module Growth {
  import opened Seeds

  /** The stages, in the order the source's enum declares them. */
  datatype GrowthStage = Seed | Seedling | Germination | Vegetative | Flowering | Fruiting | Maturity | Harvest | Failed

  /** The enum's `Default`. */
  const DefaultStage: GrowthStage := Seed

  datatype GrowthEvent = Sync | Fail

  /** Harvest and Failed are the stages a crop never leaves. */
  predicate IsTerminal(g: GrowthStage) {
    g == Harvest || g == Failed
  }

  /** The order a healthy crop goes through, from sowing to harvest. */
  const Lifecycle: seq<GrowthStage> :=
    [Seed, Germination, Seedling, Vegetative, Flowering, Fruiting, Maturity, Harvest]

  /** Where a stage sits in `Lifecycle`. */
  function Position(g: GrowthStage): (k: nat)
    requires g != Failed
    ensures k < |Lifecycle| && Lifecycle[k] == g
    ensures k == |Lifecycle| - 1 <==> g == Harvest
  {
    match g
    case Seed => 0
    case Germination => 1
    case Seedling => 2
    case Vegetative => 3
    case Flowering => 4
    case Fruiting => 5
    case Maturity => 6
    case Harvest => 7
  }

  /** The stage after a non-terminal one in `Lifecycle`. */
  function Successor(g: GrowthStage): (r: GrowthStage)
    requires !IsTerminal(g)
    ensures r != Failed && Position(r) == Position(g) + 1
    ensures r == Lifecycle[Position(g) + 1]
  {
    match g
    case Seed => Germination
    case Germination => Seedling
    case Seedling => Vegetative
    case Vegetative => Flowering
    case Flowering => Fruiting
    case Fruiting => Maturity
    case Maturity => Harvest
  }

  /** `get_days`: how many whole days a crop of species `sp` spends in stage `g`. */
  function GetDays(g: GrowthStage, sp: Species): (d: nat)
    ensures d == 0 <==> g == Failed
    ensures d <= 21
  {
    match g
    case Seed =>
      (match sp
       case Sunflower => 3 case Pea => 3 case Carrot => 3 case Tomato => 3 case Broccoli => 3)
    case Germination =>
      (match sp
       case Sunflower => 7 case Pea => 7 case Carrot => 10 case Tomato => 7 case Broccoli => 5)
    case Seedling =>
      (match sp
       case Sunflower => 10 case Pea => 14 case Carrot => 17 case Tomato => 10 case Broccoli => 12)
    case Vegetative =>
      (match sp
       case Sunflower => 12 case Pea => 13 case Carrot => 14 case Tomato => 11 case Broccoli => 21)
    case Flowering =>
      (match sp
       case Sunflower => 8 case Pea => 11 case Carrot => 20 case Tomato => 7 case Broccoli => 16)
    case Fruiting =>
      (match sp
       case Sunflower => 10 case Pea => 7 case Carrot => 9 case Tomato => 5 case Broccoli => 7)
    case Maturity =>
      (match sp
       case Sunflower => 5 case Pea => 5 case Carrot => 5 case Tomato => 5 case Broccoli => 5)
    case Harvest =>
      (match sp
       case Sunflower => 3 case Pea => 3 case Carrot => 5 case Tomato => 1 case Broccoli => 3)
    case Failed => 0
  }

  /** The event a random draw stands for: every multiple of 21 is a failure. */
  function EventOf(idx: nat): GrowthEvent {
    if idx % 21 == 0 then Fail else Sync
  }

  /**
   * `GrowthStage::next`, with the draw from `0..=50` passed in as `idx`.
   * Harvest and Failed fall through the catch-all arm to Failed.
   */
  function Next(g: GrowthStage, idx: nat): (r: GrowthStage)
    ensures IsTerminal(g) ==> r == Failed
    ensures !IsTerminal(g) && EventOf(idx) == Fail ==> r == Failed
    ensures !IsTerminal(g) && EventOf(idx) == Sync ==> r == Lifecycle[Position(g) + 1]
    ensures r != g || g == Failed
  {
    var event := EventOf(idx);
    match g
    case Seed => (match event case Sync => Germination case Fail => Failed)
    case Germination => (match event case Sync => Seedling case Fail => Failed)
    case Seedling => (match event case Sync => Vegetative case Fail => Failed)
    case Vegetative => (match event case Sync => Flowering case Fail => Failed)
    case Flowering => (match event case Sync => Fruiting case Fail => Failed)
    case Fruiting => (match event case Sync => Maturity case Fail => Failed)
    case Maturity => (match event case Sync => Harvest case Fail => Failed)
    case _ => Failed
  }

  /** Of the 51 possible draws exactly three, 0, 21 and 42, mean failure. */
  lemma FailingDraws(idx: nat)
    requires idx <= 50
    ensures EventOf(idx) == Fail <==> idx == 0 || idx == 21 || idx == 42
  {
  }

  /** Carrot's Seed and Germination entries. */
  lemma CarrotDays()
    ensures GetDays(Seed, Carrot) == 3 && GetDays(Germination, Carrot) == 10
  {
  }

  /** A forced failure at Flowering ends in Failed, and Failed stays Failed. */
  lemma FailureAbsorbs(idx: nat)
    ensures Next(Flowering, 21) == Failed
    ensures Next(Next(Flowering, 21), idx) == Failed
  {
  }
}
