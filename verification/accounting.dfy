/**
 * The counting invariants the scheduler keeps (src/plant_service.rs): the two
 * counters and the per-name statistics agree with the dates stamped on the
 * crops, and no crop is both harvested and rotten.
 */
module Accounting {
  import opened Options
  import opened Growth
  import opened Crops
  import opened Farms
  import opened HarvestStats
  import opened Scheduler

  /** A harvest date only on a harvested crop, a rot date only on a failed one. */
  predicate Exclusive(c: Crop) {
    && (c.harvestDate.Some? ==> c.currentStage == Some(Harvest))
    && (c.dateRotDetected.Some? ==> c.currentStage == Some(Failed))
  }

  predicate AllExclusive(cs: seq<Crop>) {
    forall i :: 0 <= i < |cs| ==> Exclusive(cs[i])
  }

  /** A crop whose outcome has been recorded. */
  predicate Resolved(c: Crop) {
    c.harvestDate.Some? || c.dateRotDetected.Some?
  }

  predicate AllResolved(cs: seq<Crop>) {
    forall i :: 0 <= i < |cs| ==> Resolved(cs[i])
  }

  /** The counters agree with the dates on the crops. */
  predicate Counted(s: PlantService) {
    && s.totalHarvested == HarvestedCount(s.farm.crops)
    && s.totalRotten == RottenCount(s.farm.crops)
  }

  /** The counters and the statistics map agree with the dates on the crops. */
  ghost predicate Consistent(s: PlantService) {
    && Counted(s)
    && Total(s.harvestStats, HarvestedKey) == s.totalHarvested
    && Total(s.harvestStats, FailedKey) == s.totalRotten
  }

  /** Crops without dates count nothing. */
  lemma {:induction false} UndatedCountNothing(cs: seq<Crop>)
    requires forall i :: 0 <= i < |cs| ==> !Resolved(cs[i])
    ensures HarvestedCount(cs) == 0 && RottenCount(cs) == 0
  {
    if cs != [] {
      UndatedCountNothing(cs[1..]);
    }
  }

  /** A new scheduler over crops with no recorded outcome starts consistent. */
  lemma {:induction false} NewIsConsistent(farm: Farm)
    requires forall i :: 0 <= i < |farm.crops| ==> !Resolved(farm.crops[i])
    ensures Consistent(Scheduler.New(farm))
  {
    UndatedCountNothing(farm.crops);
    EmptyTotal(HarvestedKey);
    EmptyTotal(FailedKey);
  }

  /** Processing a crop never stamps both dates on it. */
  lemma ProcessKeepsExclusive(c: Crop, idx: nat, now: string)
    requires Processable(c) && Exclusive(c)
    ensures Exclusive(ProcessCrop(c, idx, now).crop)
  {
  }

  /**
   * With the dates exclusive, each crop counts at most once, so the two counts
   * never exceed the number of crops, and they reach it exactly when every
   * crop is resolved.
   */
  lemma {:induction false} OutcomeCountsBounded(cs: seq<Crop>)
    requires AllExclusive(cs)
    ensures HarvestedCount(cs) + RottenCount(cs) <= |cs|
    ensures HarvestedCount(cs) + RottenCount(cs) == |cs| <==> AllResolved(cs)
  {
    if cs != [] {
      OutcomeCountsBounded(cs[1..]);
      if AllResolved(cs) {
        assert AllResolved(cs[1..]) by {
          forall i | 0 <= i < |cs| - 1 ensures Resolved(cs[1..][i]) {
            assert cs[1..][i] == cs[i + 1];
          }
        }
      }
      if AllResolved(cs[1..]) && Resolved(cs[0]) {
        forall i | 0 <= i < |cs| ensures Resolved(cs[i]) {
          if i > 0 { assert cs[i] == cs[1..][i - 1]; }
        }
      }
    }
  }

  /**
   * On a harvestable crop with exclusive dates, the guards of the two
   * recording arms mean "not dated yet": `is_harvested` is the harvest date
   * being present and `has_issues` the rot date being present.
   */
  lemma GuardsMeanDated(c: Crop)
    requires c.isHarvestable && Exclusive(c)
    ensures IsHarvested(c) <==> c.harvestDate.Some?
    ensures HasIssues(c) <==> c.dateRotDetected.Some?
  {
  }

  /** A crop tick keeps the dates exclusive and the counters consistent. */
  lemma CropProcessKeepsAccounts(s: PlantService, draws: nat -> nat, now: string)
    requires AllProcessable(s.farm.crops) && AllExclusive(s.farm.crops) && Consistent(s)
    ensures AllExclusive(CropProcess(s, draws, now).farm.crops)
    ensures Consistent(CropProcess(s, draws, now))
  {
    CropProcessKeepsCounts(s, draws, now);
    CropProcessCounts(s, draws, now);
  }

  /** A crop tick keeps the dates exclusive and the counters equal to the numbers of dated crops. */
  lemma CropProcessKeepsCounts(s: PlantService, draws: nat -> nat, now: string)
    requires AllProcessable(s.farm.crops) && AllExclusive(s.farm.crops) && Counted(s)
    ensures AllExclusive(CropProcess(s, draws, now).farm.crops)
    ensures Counted(CropProcess(s, draws, now))
  {
    CropProcessCounts(s, draws, now);
    var cs := s.farm.crops;
    CropProcessCrops(s, draws, now);
    forall i | 0 <= i < |cs| ensures Exclusive(ProcessCrop(cs[i], draws(i), now).crop) {
      ProcessKeepsExclusive(cs[i], draws(i), now);
    }
  }

  /**
   * One day of `run` keeps the accounts: the counters equal the numbers of
   * dated crops, the per-name entries under "havested" and "failed" sum to the
   * counters, no crop carries both dates, and the counters together never
   * exceed the number of crops.
   */
  lemma RunDayKeepsAccounts(s: PlantService, day: nat, oracle: Oracle)
    requires AllProcessable(s.farm.crops) && !s.isAllHarvested
    requires AllExclusive(s.farm.crops) && Consistent(s)
    ensures var t := RunDay(s, day, oracle).service;
      && AllExclusive(t.farm.crops) && Consistent(t)
      && t.totalHarvested + t.totalRotten <= |t.farm.crops|
  {
    var planted := if day == DaysToWaitBeforePlanting then Plant(s) else s;
    if planted.plantingIsInitiated {
      CropProcessKeepsAccounts(planted, DrawsOn(oracle, day), oracle.clock(day));
    }
    OutcomeCountsBounded(RunDay(s, day, oracle).service.farm.crops);
  }

  /**
   * `end_farming_simulation` finishes the run exactly when it was already
   * finished or every crop has its outcome recorded.
   */
  lemma EndFinishesIffResolved(s: PlantService)
    requires AllExclusive(s.farm.crops) && Counted(s)
    ensures EndFarmingSimulation(s).isAllHarvested <==> s.isAllHarvested || AllResolved(s.farm.crops)
  {
    ExitMeansAllResolved(s);
  }

  /** The run's exit test, `crops.len() == harvested + rotten`, holds exactly when every crop is resolved. */
  lemma ExitMeansAllResolved(s: PlantService)
    requires AllExclusive(s.farm.crops) && Counted(s)
    ensures |s.farm.crops| == s.totalHarvested + s.totalRotten <==> AllResolved(s.farm.crops)
  {
    OutcomeCountsBounded(s.farm.crops);
  }
}
