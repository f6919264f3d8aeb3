/**
 * Why `run` stops (src/plant_service.rs, `run`): every tick moves each
 * unresolved crop one day closer to having its outcome recorded, so the loop
 * exits within a bounded number of days for any sequence of random draws.
 */
module Termination {
  import opened Options
  import opened Seeds
  import opened Growth
  import opened Crops
  import opened Farms
  import opened Setup
  import opened Scheduler
  import opened Accounting

  /**
   * A crop the scheduler can drive to an outcome: harvestable, with a name
   * that parses, a stage and a day count, below its stage's length while it is
   * active, and with its dates exclusive.
   */
  predicate Tracked(c: Crop) {
    && c.isHarvestable
    && FromStr(c.verboseName).Ok?
    && c.currentStage.Some? && c.daysInStage.Some?
    && (!IsTerminal(c.currentStage.value) ==> c.daysInStage.value < StageDays(c))
    && Exclusive(c)
  }

  predicate AllTracked(cs: seq<Crop>) {
    forall i :: 0 <= i < |cs| ==> Tracked(cs[i])
  }

  /** The days from the start of stage `g` until the crop reaches Harvest. */
  function DaysFrom(g: GrowthStage, sp: Species): nat
    decreases if g == Failed then 0 else |Lifecycle| - Position(g)
  {
    if IsTerminal(g) then 0 else GetDays(g, sp) + DaysFrom(Successor(g), sp)
  }

  /** The whole healthy life of each species, seed to harvest, is at most 78 days (carrot). */
  lemma LifecycleAtMost78Days(sp: Species)
    ensures DaysFrom(Seed, sp) <= 78
    ensures DaysFrom(Seed, Carrot) == 78
  {
    assert DaysFrom(Seed, Carrot) == 78;
    match sp
    case Sunflower => assert DaysFrom(Seed, Sunflower) == 55;
    case Pea => assert DaysFrom(Seed, Pea) == 60;
    case Carrot =>
    case Tomato => assert DaysFrom(Seed, Tomato) == 48;
    case Broccoli => assert DaysFrom(Seed, Broccoli) == 69;
  }

  /** Processing ticks left before the crop's outcome is recorded. */
  function Remaining(c: Crop): nat
    requires Tracked(c)
  {
    var g := c.currentStage.value;
    if g == Harvest then (if c.harvestDate.None? then 1 else 0)
    else if g == Failed then (if c.dateRotDetected.None? then 1 else 0)
    else DaysFrom(g, SpeciesOf(c)) - c.daysInStage.value + 1
  }

  /** Nothing is left exactly when the outcome is recorded. */
  lemma RemainingZeroIffResolved(c: Crop)
    requires Tracked(c)
    ensures Remaining(c) == 0 <==> Resolved(c)
  {
  }

  /**
   * One processing tick keeps a crop tracked and, unless its outcome is
   * already recorded, brings the recording strictly closer.
   */
  lemma ProcessShortensRemaining(c: Crop, idx: nat, now: string)
    requires Tracked(c)
    ensures Tracked(ProcessCrop(c, idx, now).crop)
    ensures Remaining(c) == 0 ==> Remaining(ProcessCrop(c, idx, now).crop) == 0
    ensures Remaining(c) > 0 ==> Remaining(ProcessCrop(c, idx, now).crop) < Remaining(c)
  {
    var g := c.currentStage.value;
    if !IsTerminal(g) {
      ProcessActiveCrop(c, idx, now);
    }
  }

  predicate AllWithin(cs: seq<Crop>, m: nat)
    requires AllTracked(cs)
  {
    forall i :: 0 <= i < |cs| ==> Remaining(cs[i]) <= m
  }

  /** A crop tick keeps every crop tracked and lowers the common bound by one. */
  lemma CropProcessShortens(s: PlantService, draws: nat -> nat, now: string, m: nat)
    requires AllTracked(s.farm.crops) && AllWithin(s.farm.crops, m)
    ensures AllProcessable(s.farm.crops)
    ensures AllTracked(CropProcess(s, draws, now).farm.crops)
    ensures AllWithin(CropProcess(s, draws, now).farm.crops, if m == 0 then 0 else m - 1)
  {
    var cs := s.farm.crops;
    CropProcessCrops(s, draws, now);
    forall i | 0 <= i < |cs|
      ensures Tracked(ProcessCrop(cs[i], draws(i), now).crop)
      ensures Remaining(ProcessCrop(cs[i], draws(i), now).crop) <= if m == 0 then 0 else m - 1
    {
      ProcessShortensRemaining(cs[i], draws(i), now);
    }
  }

  /** With nothing left on any crop, every crop is resolved. */
  lemma NothingLeftMeansResolved(cs: seq<Crop>)
    requires AllTracked(cs) && AllWithin(cs, 0)
    ensures AllResolved(cs)
  {
    forall i | 0 <= i < |cs| ensures Resolved(cs[i]) {
      RemainingZeroIffResolved(cs[i]);
    }
  }

  /** Days still to pass before planting starts processing. */
  function Wait(s: PlantService, day: nat): nat {
    if s.plantingIsInitiated || day >= DaysToWaitBeforePlanting then 0 else DaysToWaitBeforePlanting - day
  }

  /** `m` lowered by one tick, stopping at zero. */
  function Tick(m: nat): nat {
    if m == 0 then 0 else m - 1
  }

  /** The parts of a scheduler the counters are about. */
  predicate SameLedger(t: PlantService, u: PlantService) {
    && t.farm.crops == u.farm.crops
    && t.totalHarvested == u.totalHarvested && t.totalRotten == u.totalRotten
  }

  /**
   * A day of the loop changes the crops and the counters only through the
   * crop tick, which runs once planting has been initiated.
   */
  lemma RunDayLedger(s: PlantService, day: nat, oracle: Oracle)
    requires AllProcessable(s.farm.crops) && !s.isAllHarvested
    ensures var planted := if day == DaysToWaitBeforePlanting then Plant(s) else s;
      var t := RunDay(s, day, oracle).service;
      && (planted.plantingIsInitiated ==> SameLedger(t, CropProcess(planted, DrawsOn(oracle, day), oracle.clock(day))))
      && (!planted.plantingIsInitiated ==> SameLedger(t, s))
  {
  }

  /**
   * One day of the loop keeps the crops tracked and the counters equal to the dated crops,
   * and lowers the bound on the remaining ticks once planting has happened.
   */
  lemma RunDayShortens(s: PlantService, day: nat, oracle: Oracle, m: nat)
    requires AllTracked(s.farm.crops) && AllWithin(s.farm.crops, m)
    requires Counted(s) && !s.isAllHarvested
    ensures AllProcessable(s.farm.crops)
    ensures var t := RunDay(s, day, oracle).service;
      && AllTracked(t.farm.crops) && Counted(t)
      && AllWithin(t.farm.crops, if t.plantingIsInitiated then Tick(m) else m)
  {
    var planted := if day == DaysToWaitBeforePlanting then Plant(s) else s;
    RunDayLedger(s, day, oracle);
    if planted.plantingIsInitiated {
      CropProcessShortens(planted, DrawsOn(oracle, day), oracle.clock(day), m);
      CropProcessKeepsCounts(planted, DrawsOn(oracle, day), oracle.clock(day));
    }
  }

  /** The bound on remaining ticks after a day of the loop: lowered once planting has happened. */
  function Lowered(t: PlantService, m: nat): nat {
    if t.plantingIsInitiated then Tick(m) else m
  }

  /**
   * What the loop keeps true from day to day with `fuel` iterations left:
   * tracked crops at most `m` ticks from their outcomes, counters equal to the dated crops,
   * a run not yet finished, and enough fuel to wait for planting, for every
   * crop and for the planting window.
   */
  ghost predicate Ready(s: PlantService, day: nat, fuel: nat, m: nat) {
    && AllTracked(s.farm.crops) && AllWithin(s.farm.crops, m)
    && Counted(s) && !s.isAllHarvested
    && (s.plantingIsInitiated || day <= DaysToWaitBeforePlanting)
    && fuel >= 1 && fuel + day >= PlantingWindow && fuel >= Wait(s, day) + m
  }

  /** A day of the loop that does not finish the run leaves it ready for the next day. */
  lemma StepKeepsReady(s: PlantService, day: nat, oracle: Oracle, fuel: nat, m: nat) returns (t: PlantService, finished: bool)
    requires Ready(s, day, fuel, m)
    ensures AllProcessable(s.farm.crops)
    ensures t == RunDay(s, day, oracle).service && finished == RunDay(s, day, oracle).finished
    ensures !finished ==> Ready(t, day + 1, fuel - 1, Lowered(t, m))
  {
    RunDayShortens(s, day, oracle, m);
    var d := RunDay(s, day, oracle);
    t, finished := d.service, d.finished;
    if !d.finished {
      var m' := Lowered(t, m);
      if m' == 0 {
        NothingLeftMeansResolved(t.farm.crops);
        ExitMeansAllResolved(t);
      }
    }
  }

  /** The loop stops from `day` when that day finishes the run or the loop stops from the next day. */
  lemma RunFromUnfolds(s: PlantService, day: nat, oracle: Oracle, fuel: nat)
    requires AllProcessable(s.farm.crops) && !s.isAllHarvested && fuel >= 1
    ensures var d := RunDay(s, day, oracle);
      RunFrom(s, day, oracle, fuel).Some? <==> d.finished || RunFrom(d.service, day + 1, oracle, fuel - 1).Some?
  {
  }

  /**
   * From any day before planting, or any day after it, the loop stops once it
   * has waited for planting, for every crop's remaining ticks and for the
   * planting window, whatever the draws.
   */
  lemma {:induction false} RunFromTerminates(s: PlantService, day: nat, oracle: Oracle, fuel: nat, m: nat)
    requires Ready(s, day, fuel, m)
    ensures AllProcessable(s.farm.crops)
    ensures RunFrom(s, day, oracle, fuel).Some?
    decreases fuel
  {
    var t, finished := StepKeepsReady(s, day, oracle, fuel, m);
    RunFromUnfolds(s, day, oracle, fuel);
    if !finished {
      RunFromTerminates(t, day + 1, oracle, fuel - 1, Lowered(t, m));
    }
  }

  /**
   * A farm of tracked crops with no outcome yet, none more than `m` ticks from
   * its outcome, finishes its run within max(69, 6 + m) days.
   */
  lemma RunTerminates(farm: Farm, oracle: Oracle, m: nat, fuel: nat)
    requires AllTracked(farm.crops) && AllWithin(farm.crops, m)
    requires forall i :: 0 <= i < |farm.crops| ==> !Resolved(farm.crops[i])
    requires fuel >= m + 6 && fuel >= PlantingWindow - 1
    ensures AllProcessable(farm.crops)
    ensures Run(farm, oracle, fuel).Some?
  {
    NewIsConsistent(farm);
    RunFromTerminates(Scheduler.New(farm), 1, oracle, fuel, m);
  }

  /** A bag's crop, when its seed type came from `from_str`, is tracked and at most 79 ticks from its outcome. */
  lemma BagCropTracked(b: SeedBag)
    requires b.isGmo.Some? && WellFormed(b.seedType)
    ensures Tracked(BagCrop(b)) && !Resolved(BagCrop(b))
    ensures Remaining(BagCrop(b)) <= 79
  {
    LifecycleAtMost78Days(b.seedType.species);
  }

  /** Every crop of a farm set up from well-formed bags is tracked, unresolved and at most 79 ticks from its outcome. */
  lemma SetupCropsTracked(bags: seq<SeedBag>)
    requires GmoKnown(bags)
    requires forall i :: 0 <= i < |bags| ==> WellFormed(bags[i].seedType)
    ensures AllTracked(SetupFarm(bags).crops) && AllWithin(SetupFarm(bags).crops, 79)
    ensures forall i :: 0 <= i < |SetupFarm(bags).crops| ==> !Resolved(SetupFarm(bags).crops[i])
  {
    var crops := SetupFarm(bags).crops;
    forall i | 0 <= i < |crops|
      ensures Tracked(crops[i]) && !Resolved(crops[i]) && Remaining(crops[i]) <= 79
    {
      ExpandMembers(bags, crops[i]);
      var j :| 0 <= j < |bags| && crops[i] == BagCrop(bags[j]);
      BagCropTracked(bags[j]);
    }
  }

  /**
   * A farm set up from seed bags whose seed types came from `from_str`
   * finishes within 85 iterations of the loop, for every sequence of
   * transition draws, weather draws and timestamps: at most 78 days of growth
   * plus the recording tick, after planting on day 7.
   */
  lemma SetupFarmTerminates(bags: seq<SeedBag>, oracle: Oracle)
    requires GmoKnown(bags)
    requires forall i :: 0 <= i < |bags| ==> WellFormed(bags[i].seedType)
    ensures AllProcessable(SetupFarm(bags).crops)
    ensures Run(SetupFarm(bags), oracle, 85).Some?
  {
    SetupCropsTracked(bags);
    RunTerminates(SetupFarm(bags), oracle, 79, 85);
  }
}
