/**
 * The day-tick scheduler (src/plant_service.rs). The source keeps the two
 * outcome counters in process-wide mutex statics; here they are fields of the
 * scheduler's own state record. Random draws and the clock are supplied by an
 * `Oracle`.
 */
module Scheduler {
  import opened Options
  import opened Seeds
  import opened Growth
  import opened Crops
  import opened Farms
  import opened HarvestStats
  import Weather

  const WeedingFrequency: nat := 7
  const IrrigationFrequency: nat := 3
  const FertilizingFrequency: nat := 14
  const FertilizingCutoff: nat := 40
  const DaysToWaitBeforePlanting: nat := 7
  const FumigationTime: nat := 14
  const PlantingWindow: nat := 70

  /** The inner keys of the statistics map, spelled as the source spells them. */
  const HarvestedKey: string := "havested"
  const FailedKey: string := "failed"

  datatype PlantService = PlantService(
    farm: Farm,
    isAllHarvested: bool,
    plantingIsInitiated: bool,
    harvestStats: Stats,
    totalHarvested: nat,
    totalRotten: nat)

  /** `PlantService::new`; the counters start at zero like the statics they replace. */
  function New(farm: Farm): (s: PlantService)
    ensures s.farm == farm && !s.isAllHarvested && !s.plantingIsInitiated
    ensures s.totalHarvested == 0 && s.totalRotten == 0 && s.harvestStats == map[]
  {
    PlantService(farm, false, false, map[], 0, 0)
  }

  /** `planting`: after it, crop processing is switched on. */
  function Plant(s: PlantService): (r: PlantService)
    ensures r.plantingIsInitiated
    ensures r.(plantingIsInitiated := s.plantingIsInitiated) == s
  {
    s.(plantingIsInitiated := true)
  }

  // ---------------------------------------------------------------------------
  // Calendar
  // ---------------------------------------------------------------------------

  /** The maintenance chores of a day; `Irrigation` records whether the weather let it go ahead. */
  datatype Chore = Irrigation(proceeded: bool) | Planting | Weeding | Fertilizing | Fumigation | Harvesting

  /** `irrigate`: skipped when it rains or storms. */
  function Irrigate(w: Weather.WeatherCondition): (c: Chore)
    ensures c.Irrigation?
  {
    Irrigation(!(w == Weather.Rainy || w == Weather.Stormy))
  }

  /** Whatever the draw, irrigation goes ahead unless it picks rain (2) or storm (4). */
  lemma IrrigationByDraw(idx: nat)
    ensures Irrigate(Weather.FromIndex(idx)).proceeded <==> idx != 2 && idx != 4
  {
  }

  /** The chores `run` performs on `day` before the crops are processed, in its order. */
  function Chores(day: nat, w: Weather.WeatherCondition): seq<Chore> {
    (if day == 1 then [Irrigate(w)] else [])
    + (if day == DaysToWaitBeforePlanting then [Planting] else [])
    + (if day % WeedingFrequency == 0 then [Weeding] else [])
    + (if day < FertilizingCutoff && day % FertilizingFrequency == 0 then [Fertilizing] else [])
    + (if day % IrrigationFrequency == 0 then [Irrigate(w)] else [])
    + (if day == FumigationTime then [Fumigation] else [])
  }

  /**
   * The maintenance calendar: planting only on day 7, fumigation only on day
   * 14, fertilizer only on days 14 and 28, weeding on multiples of 7, an
   * irrigation attempt on day 1 and on multiples of 3, each judged by the
   * day's weather. (Day 0 never occurs: the counter starts at 1.)
   */
  lemma Calendar(day: nat, w: Weather.WeatherCondition)
    ensures Planting in Chores(day, w) <==> day == 7
    ensures Fumigation in Chores(day, w) <==> day == 14
    ensures Fertilizing in Chores(day, w) <==> day == 0 || day == 14 || day == 28
    ensures Weeding in Chores(day, w) <==> day % 7 == 0
    ensures Irrigate(w) in Chores(day, w) <==> day == 1 || day % 3 == 0
    ensures forall c :: c in Chores(day, w) && c.Irrigation? ==> c == Irrigate(w)
    ensures Harvesting !in Chores(day, w)
  {
    FertilizingDays(day);
    InChores(Planting, day, w);
    InChores(Fumigation, day, w);
    InChores(Fertilizing, day, w);
    InChores(Weeding, day, w);
    InChores(Irrigate(w), day, w);
    InChores(Harvesting, day, w);
    forall c | c in Chores(day, w) && c.Irrigation? ensures c == Irrigate(w) {
      InChores(c, day, w);
    }
  }

  /** The chores of a day, one disjunct per line of the calendar. */
  lemma InChores(c: Chore, day: nat, w: Weather.WeatherCondition)
    ensures c in Chores(day, w) <==>
      || (day == 1 && c == Irrigate(w))
      || (day == DaysToWaitBeforePlanting && c == Planting)
      || (day % WeedingFrequency == 0 && c == Weeding)
      || (day < FertilizingCutoff && day % FertilizingFrequency == 0 && c == Fertilizing)
      || (day % IrrigationFrequency == 0 && c == Irrigate(w))
      || (day == FumigationTime && c == Fumigation)
  {
  }

  /** The multiples of the fertilizing frequency below the cutoff. */
  lemma FertilizingDays(day: nat)
    ensures day < FertilizingCutoff && day % FertilizingFrequency == 0 <==> day == 0 || day == 14 || day == 28
  {
    if day < FertilizingCutoff && day % FertilizingFrequency == 0 {
      var q := day / FertilizingFrequency;
      assert day == FertilizingFrequency * q;
      assert q < 3;
    }
  }

  // ---------------------------------------------------------------------------
  // Processing one crop
  // ---------------------------------------------------------------------------

  /**
   * `_check_for_update`: when the day count has reached the stage's length
   * and the crop is still active, the crop moves on and its count restarts;
   * otherwise nothing changes. Like the source, it unwraps the stage, the
   * seed type and the day count.
   */
  function CheckForUpdate(c: Crop, idx: nat): (r: Crop)
    requires c.currentStage.Some? && FromStr(c.verboseName).Ok? && c.daysInStage.Some?
    ensures c.daysInStage.value == StageDays(c) && !IsInactive(c) ==>
      r == c.(currentStage := Some(Next(c.currentStage.value, idx)), daysInStage := Some(0))
    ensures !(c.daysInStage.value == StageDays(c) && !IsInactive(c)) ==> r == c
  {
    var stageTime := StageDays(c);
    if c.daysInStage.value == stageTime && !IsInactive(c) then
      AdvanceToNextStage(c, idx).(daysInStage := Some(0))
    else
      c
  }

  /** A terminal crop is a fixed point of the check, however often it runs. */
  lemma CheckIdleOnTerminal(c: Crop, idx: nat, idx2: nat)
    requires c.currentStage.Some? && FromStr(c.verboseName).Ok? && c.daysInStage.Some?
    requires IsInactive(c)
    ensures CheckForUpdate(c, idx) == c
    ensures CheckForUpdate(CheckForUpdate(c, idx), idx2) == c
  {
  }

  /** A forced failure at Flowering fails the crop; a second check leaves it there. */
  lemma ForcedFailureAtFlowering(c: Crop, idx: nat)
    requires FromStr(c.verboseName).Ok? && c.currentStage == Some(Flowering)
    requires c.daysInStage == Some(StageDays(c))
    ensures CheckForUpdate(c, 0).currentStage == Some(Failed)
    ensures CheckForUpdate(CheckForUpdate(c, 0), idx) == CheckForUpdate(c, 0)
  {
  }

  /** What processing did to a crop's outcome record. */
  datatype Outcome = NoRecord | RecordHarvest | RecordRot

  datatype Processed = Processed(crop: Crop, outcome: Outcome)

  /**
   * What `_crop_process` needs of a crop so that no `unwrap` panics: a
   * harvestable crop in an active stage has a day count and a name that parses.
   */
  predicate Processable(c: Crop) {
    c.isHarvestable && c.currentStage.Some? && !IsTerminal(c.currentStage.value) ==>
      c.daysInStage.Some? && FromStr(c.verboseName).Ok?
  }

  predicate AllProcessable(cs: seq<Crop>) {
    forall i :: 0 <= i < |cs| ==> Processable(cs[i])
  }

  /**
   * The body of `_crop_process`'s loop for one crop, with `idx` the draw for
   * its transition and `now` the clock. The stage is matched after the day is
   * added and before the check, so a crop entering Harvest or Failed is
   * recorded on its next tick.
   */
  function ProcessCrop(c: Crop, idx: nat, now: string): (p: Processed)
    requires Processable(c)
    ensures !c.isHarvestable ==> p == Processed(c, NoRecord)
    ensures p.outcome == RecordHarvest <==>
      c.isHarvestable && c.currentStage == Some(Harvest) && c.harvestDate.None?
    ensures p.outcome == RecordRot <==>
      c.isHarvestable && c.currentStage == Some(Failed) && c.dateRotDetected.None?
    ensures p.crop.harvestDate == (if p.outcome == RecordHarvest then Some(now) else c.harvestDate)
    ensures p.crop.dateRotDetected == (if p.outcome == RecordRot then Some(now) else c.dateRotDetected)
    ensures p.crop.verboseName == c.verboseName && p.crop.isHarvestable == c.isHarvestable
    ensures c.currentStage.Some? ==> p.crop.currentStage.Some?
    ensures c.currentStage.Some? && IsTerminal(c.currentStage.value) ==> p.crop.currentStage == c.currentStage
    ensures c.isHarvestable && c.currentStage.Some? && IsTerminal(c.currentStage.value) ==>
      p.crop == Grow(c, 1).(harvestDate := p.crop.harvestDate, dateRotDetected := p.crop.dateRotDetected)
    ensures Processable(p.crop)
  {
    if !c.isHarvestable then Processed(c, NoRecord)
    else
      var grown := Grow(c, 1);
      match grown.currentStage
      case None => Processed(grown, NoRecord)
      case Some(stage) =>
        if stage == Seed then
          Processed(CheckForUpdate(Sow(grown), idx), NoRecord)
        else if stage == Harvest then
          if !IsHarvested(grown) then Processed(grown.(harvestDate := Some(now)), RecordHarvest)
          else Processed(grown, NoRecord)
        else if stage == Failed then
          if !HasIssues(grown) then Processed(grown.(dateRotDetected := Some(now)), RecordRot)
          else Processed(grown, NoRecord)
        else
          Processed(CheckForUpdate(grown, idx), NoRecord)
  }

  /**
   * An active harvestable crop gains one day; on the day its count reaches the
   * stage's length it moves on and restarts from 0. A crop at Seed is sown.
   * Nothing else about it changes.
   */
  lemma ProcessActiveCrop(c: Crop, idx: nat, now: string)
    requires c.isHarvestable && c.currentStage.Some? && !IsTerminal(c.currentStage.value)
    requires c.daysInStage.Some? && FromStr(c.verboseName).Ok?
    ensures var p := ProcessCrop(c, idx, now);
      && p.outcome == NoRecord
      && p.crop.isSown == (c.isSown || c.currentStage == Some(Seed))
      && (c.daysInStage.value + 1 == StageDays(c) ==>
            p.crop.currentStage == Some(Next(c.currentStage.value, idx)) && p.crop.daysInStage == Some(0))
      && (c.daysInStage.value + 1 != StageDays(c) ==>
            p.crop.currentStage == c.currentStage && p.crop.daysInStage == Some(c.daysInStage.value + 1))
      && p.crop.(currentStage := c.currentStage, daysInStage := c.daysInStage, isSown := c.isSown) == c
  {
  }

  /**
   * The exact-equality check is never skipped: an active crop whose count is
   * below its stage's length is, after a tick, either in a terminal stage or
   * again below the length of the stage it is in.
   */
  lemma ProcessKeepsBelowThreshold(c: Crop, idx: nat, now: string)
    requires c.isHarvestable && c.currentStage.Some? && !IsTerminal(c.currentStage.value)
    requires c.daysInStage.Some? && FromStr(c.verboseName).Ok?
    requires c.daysInStage.value < StageDays(c)
    ensures var r := ProcessCrop(c, idx, now).crop;
      r.currentStage.Some? && r.daysInStage.Some? &&
      (!IsTerminal(r.currentStage.value) ==> r.daysInStage.value < StageDays(r))
  {
    ProcessActiveCrop(c, idx, now);
  }

  /**
   * A carrot sown fresh stays at Seed for two ticks and leaves it on the third:
   * for Germination when that tick's draw means Sync, for Failed otherwise.
   */
  lemma CarrotLeavesSeedOnThirdTick(c: Crop, i1: nat, i2: nat, i3: nat, now: string)
    requires c.isHarvestable && IsFresh(c)
    requires FromStr(c.verboseName).Ok? && SpeciesOf(c) == Carrot
    ensures var c1 := ProcessCrop(c, i1, now).crop;
      && c1.currentStage == Some(Seed) && c1.daysInStage == Some(1)
      && var c2 := ProcessCrop(c1, i2, now).crop;
      && c2.currentStage == Some(Seed) && c2.daysInStage == Some(2)
      && var c3 := ProcessCrop(c2, i3, now).crop;
      && c3.daysInStage == Some(0)
      && c3.currentStage == Some(if EventOf(i3) == Sync then Germination else Failed)
  {
    ProcessActiveCrop(c, i1, now);
    var c1 := ProcessCrop(c, i1, now).crop;
    ProcessActiveCrop(c1, i2, now);
    var c2 := ProcessCrop(c1, i2, now).crop;
    ProcessActiveCrop(c2, i3, now);
  }

  /**
   * A crop that reaches Harvest on one tick is recorded on the next one, once:
   * the tick that moves it records nothing, the following tick stamps it and
   * every later tick records nothing again.
   */
  lemma HarvestRecordedOnNextTick(c: Crop, i1: nat, i2: nat, i3: nat, now1: string, now2: string, now3: string)
    requires c.isHarvestable && c.currentStage == Some(Maturity) && c.harvestDate.None?
    requires FromStr(c.verboseName).Ok? && c.daysInStage == Some(StageDays(c) - 1)
    requires EventOf(i1) == Sync
    ensures var p1 := ProcessCrop(c, i1, now1);
      && p1.crop.currentStage == Some(Harvest) && p1.outcome == NoRecord && p1.crop.harvestDate.None?
      && var p2 := ProcessCrop(p1.crop, i2, now2);
      && p2.outcome == RecordHarvest && p2.crop.harvestDate == Some(now2)
      && ProcessCrop(p2.crop, i3, now3).outcome == NoRecord
  {
    ProcessActiveCrop(c, i1, now1);
  }

  // ---------------------------------------------------------------------------
  // Processing the farm
  // ---------------------------------------------------------------------------

  /** The number of crops with a harvest date. */
  function HarvestedCount(cs: seq<Crop>): nat {
    if cs == [] then 0 else (if cs[0].harvestDate.Some? then 1 else 0) + HarvestedCount(cs[1..])
  }

  /** The number of crops with a rot date. */
  function RottenCount(cs: seq<Crop>): nat {
    if cs == [] then 0 else (if cs[0].dateRotDetected.Some? then 1 else 0) + RottenCount(cs[1..])
  }

  /** Replacing crop `k` changes the counts by the difference of the two crops' dates. */
  lemma {:induction false} CountsAfterUpdate(cs: seq<Crop>, k: nat, c: Crop)
    requires k < |cs|
    ensures HarvestedCount(cs[k := c]) + (if cs[k].harvestDate.Some? then 1 else 0)
      == HarvestedCount(cs) + (if c.harvestDate.Some? then 1 else 0)
    ensures RottenCount(cs[k := c]) + (if cs[k].dateRotDetected.Some? then 1 else 0)
      == RottenCount(cs) + (if c.dateRotDetected.Some? then 1 else 0)
  {
    if k > 0 {
      assert cs[k := c][1..] == cs[1..][k - 1 := c];
      CountsAfterUpdate(cs[1..], k - 1, c);
    } else {
      assert cs[k := c][1..] == cs[1..];
    }
  }

  /** One statistics update, under the crop's verbose name. */
  function Bump(stats: Stats, p: Processed): (r: Stats)
    ensures p.outcome == NoRecord ==> r == stats
    ensures Total(r, HarvestedKey) == Total(stats, HarvestedKey) + (if p.outcome == RecordHarvest then 1 else 0)
    ensures Total(r, FailedKey) == Total(stats, FailedKey) + (if p.outcome == RecordRot then 1 else 0)
  {
    match p.outcome
    case NoRecord => stats
    case RecordHarvest =>
      IncrementTotal(stats, p.crop.verboseName, HarvestedKey, FailedKey);
      Increment(stats, p.crop.verboseName, HarvestedKey)
    case RecordRot =>
      IncrementTotal(stats, p.crop.verboseName, FailedKey, HarvestedKey);
      Increment(stats, p.crop.verboseName, FailedKey)
  }

  /**
   * One pass of `_crop_process`'s loop written back: crop `k` replaced by its
   * processed self, and an outcome recorded on its counter and under its name.
   */
  function Tend(s: PlantService, k: nat, p: Processed): (r: PlantService)
    requires k < |s.farm.crops|
    ensures r.farm.crops == s.farm.crops[k := p.crop]
    ensures r.farm.(crops := s.farm.crops) == s.farm
    ensures r.isAllHarvested == s.isAllHarvested && r.plantingIsInitiated == s.plantingIsInitiated
  {
    s.(farm := s.farm.(crops := s.farm.crops[k := p.crop]),
       harvestStats := Bump(s.harvestStats, p),
       totalHarvested := s.totalHarvested + (if p.outcome == RecordHarvest then 1 else 0),
       totalRotten := s.totalRotten + (if p.outcome == RecordRot then 1 else 0))
  }

  /** `_crop_process`'s loop from crop `k` on; crop `i` draws `draws(i)`. */
  function TendFrom(s: PlantService, draws: nat -> nat, now: string, k: nat): (r: PlantService)
    requires AllProcessable(s.farm.crops) && k <= |s.farm.crops|
    ensures AllProcessable(r.farm.crops) && |r.farm.crops| == |s.farm.crops|
    ensures r.farm.(crops := s.farm.crops) == s.farm
    ensures r.isAllHarvested == s.isAllHarvested && r.plantingIsInitiated == s.plantingIsInitiated
    decreases |s.farm.crops| - k
  {
    if k == |s.farm.crops| then s
    else TendFrom(Tend(s, k, ProcessCrop(s.farm.crops[k], draws(k), now)), draws, now, k + 1)
  }

  /**
   * `_crop_process`: every crop takes one tick, in order, and each outcome
   * recorded raises its counter and its per-name entry. Nothing else in the
   * scheduler changes; `CropProcessCrops` and `CropProcessCounts` state what
   * the crops become and what the counters gain.
   */
  function CropProcess(s: PlantService, draws: nat -> nat, now: string): (r: PlantService)
    requires AllProcessable(s.farm.crops)
    ensures AllProcessable(r.farm.crops) && |r.farm.crops| == |s.farm.crops|
    ensures r.farm.(crops := s.farm.crops) == s.farm
    ensures r.isAllHarvested == s.isAllHarvested && r.plantingIsInitiated == s.plantingIsInitiated
  {
    TendFrom(s, draws, now, 0)
  }

  /** The loop from `k` leaves the crops before `k` alone and processes each later one with its own draw. */
  lemma {:induction false} TendFromCrops(s: PlantService, draws: nat -> nat, now: string, k: nat)
    requires AllProcessable(s.farm.crops) && k <= |s.farm.crops|
    ensures var r := TendFrom(s, draws, now, k);
      && (forall i :: 0 <= i < k ==> r.farm.crops[i] == s.farm.crops[i])
      && (forall i :: k <= i < |s.farm.crops| ==>
            r.farm.crops[i] == ProcessCrop(s.farm.crops[i], draws(i), now).crop)
    decreases |s.farm.crops| - k
  {
    if k < |s.farm.crops| {
      TendFromCrops(Tend(s, k, ProcessCrop(s.farm.crops[k], draws(k), now)), draws, now, k + 1);
    }
  }

  /** Crop `i` after the tick is crop `i` processed with draw `i`. */
  lemma CropProcessCrops(s: PlantService, draws: nat -> nat, now: string)
    requires AllProcessable(s.farm.crops)
    ensures forall i :: 0 <= i < |s.farm.crops| ==>
      CropProcess(s, draws, now).farm.crops[i] == ProcessCrop(s.farm.crops[i], draws(i), now).crop
  {
    TendFromCrops(s, draws, now, 0);
  }

  /** One pass raises each counter by the dates it adds and the per-name totals by the same amount. */
  lemma TendCounts(s: PlantService, k: nat, idx: nat, now: string)
    requires k < |s.farm.crops| && Processable(s.farm.crops[k])
    ensures var r := Tend(s, k, ProcessCrop(s.farm.crops[k], idx, now));
      && r.totalHarvested + HarvestedCount(s.farm.crops) == s.totalHarvested + HarvestedCount(r.farm.crops)
      && r.totalRotten + RottenCount(s.farm.crops) == s.totalRotten + RottenCount(r.farm.crops)
      && r.totalHarvested - s.totalHarvested == Total(r.harvestStats, HarvestedKey) - Total(s.harvestStats, HarvestedKey)
      && r.totalRotten - s.totalRotten == Total(r.harvestStats, FailedKey) - Total(s.harvestStats, FailedKey)
  {
    var p := ProcessCrop(s.farm.crops[k], idx, now);
    CountsAfterUpdate(s.farm.crops, k, p.crop);
  }

  /** The loop from `k` raises each counter by the dates it adds, and the per-name totals by the same amount. */
  lemma {:induction false} TendFromCounts(s: PlantService, draws: nat -> nat, now: string, k: nat)
    requires AllProcessable(s.farm.crops) && k <= |s.farm.crops|
    ensures var r := TendFrom(s, draws, now, k);
      && r.totalHarvested + HarvestedCount(s.farm.crops) == s.totalHarvested + HarvestedCount(r.farm.crops)
      && r.totalRotten + RottenCount(s.farm.crops) == s.totalRotten + RottenCount(r.farm.crops)
      && r.totalHarvested - s.totalHarvested == Total(r.harvestStats, HarvestedKey) - Total(s.harvestStats, HarvestedKey)
      && r.totalRotten - s.totalRotten == Total(r.harvestStats, FailedKey) - Total(s.harvestStats, FailedKey)
    decreases |s.farm.crops| - k
  {
    if k < |s.farm.crops| {
      TendCounts(s, k, draws(k), now);
      TendFromCounts(Tend(s, k, ProcessCrop(s.farm.crops[k], draws(k), now)), draws, now, k + 1);
    }
  }

  /**
   * A tick leaves crops that are not harvestable alone, and each counter
   * gains exactly the dates the tick adds to the crops, which is also what
   * the per-name statistics gain under that counter's key.
   */
  lemma CropProcessCounts(s: PlantService, draws: nat -> nat, now: string)
    requires AllProcessable(s.farm.crops)
    ensures var r := CropProcess(s, draws, now);
      && (forall i :: 0 <= i < |s.farm.crops| && !s.farm.crops[i].isHarvestable ==>
            r.farm.crops[i] == s.farm.crops[i])
      && r.totalHarvested + HarvestedCount(s.farm.crops) == s.totalHarvested + HarvestedCount(r.farm.crops)
      && r.totalRotten + RottenCount(s.farm.crops) == s.totalRotten + RottenCount(r.farm.crops)
      && r.totalHarvested - s.totalHarvested == Total(r.harvestStats, HarvestedKey) - Total(s.harvestStats, HarvestedKey)
      && r.totalRotten - s.totalRotten == Total(r.harvestStats, FailedKey) - Total(s.harvestStats, FailedKey)
  {
    CropProcessCrops(s, draws, now);
    TendFromCounts(s, draws, now, 0);
  }

  /**
   * `end_farming_simulation`: once every crop has an outcome on the counters,
   * the farm is marked ready for harvest and the run marked finished.
   */
  function EndFarmingSimulation(s: PlantService): (r: PlantService)
    ensures |s.farm.crops| == s.totalHarvested + s.totalRotten ==>
      r == s.(isAllHarvested := true, farm := s.farm.(isReadyForHarvest := Some(true)))
    ensures |s.farm.crops| != s.totalHarvested + s.totalRotten ==> r == s
  {
    if |s.farm.crops| == s.totalHarvested + s.totalRotten then
      s.(farm := s.farm.(isReadyForHarvest := Some(true)), isAllHarvested := true)
    else
      s
  }

  // ---------------------------------------------------------------------------
  // The day loop
  // ---------------------------------------------------------------------------

  /**
   * Everything the source draws at random or reads from the clock: the
   * transition draw of crop `i` on day `d` is `transition(d, i)`, the weather
   * draw of day `d` is `weather(d)` (at most one irrigation happens a day) and
   * the timestamp of day `d` is `clock(d)`.
   */
  datatype Oracle = Oracle(transition: (nat, nat) -> nat, weather: nat -> nat, clock: nat -> string)

  /** The transition draws of one day, indexed by crop. */
  function DrawsOn(oracle: Oracle, day: nat): nat -> nat {
    i => oracle.transition(day, i)
  }

  /**
   * The chores `run` performs on `day`, in its order: the calendar's, then
   * the harvest once the planting window has passed.
   */
  function DayChores(day: nat, oracle: Oracle): (chores: seq<Chore>)
    ensures Harvesting in chores <==> day + 1 >= PlantingWindow
  {
    var calendar := Chores(day, Weather.FromIndex(oracle.weather(day)));
    assert Harvesting !in calendar by {
      InChores(Harvesting, day, Weather.FromIndex(oracle.weather(day)));
    }
    if day + 1 >= PlantingWindow then calendar + [Harvesting] else calendar
  }

  datatype DayReport = DayReport(service: PlantService, nextDay: nat, finished: bool)

  /**
   * One pass of `run`'s loop on day `day`. The day is incremented before the
   * exit test, and the test is `>=` the planting window. The loop never runs
   * a day once the run is marked finished.
   */
  function RunDay(s: PlantService, day: nat, oracle: Oracle): (d: DayReport)
    requires AllProcessable(s.farm.crops) && !s.isAllHarvested
    ensures d.nextDay == day + 1
    ensures AllProcessable(d.service.farm.crops)
    ensures d.finished <==>
      day + 1 >= PlantingWindow && |d.service.farm.crops| == d.service.totalHarvested + d.service.totalRotten
    ensures d.finished ==> d.service.isAllHarvested && d.service.farm.isReadyForHarvest == Some(true)
    ensures !d.finished ==> !d.service.isAllHarvested
    ensures d.service.plantingIsInitiated <==> s.plantingIsInitiated || day == DaysToWaitBeforePlanting
    ensures !d.service.plantingIsInitiated && day + 1 < PlantingWindow ==> d.service == s
  {
    var planted := if day == DaysToWaitBeforePlanting then Plant(s) else s;
    var processed :=
      if planted.plantingIsInitiated then CropProcess(planted, DrawsOn(oracle, day), oracle.clock(day))
      else planted;
    var next := day + 1;
    if next >= PlantingWindow then
      var ended := EndFarmingSimulation(processed);
      DayReport(ended, next, ended.isAllHarvested)
    else
      DayReport(processed, next, false)
  }

  datatype Final = Final(service: PlantService, day: nat)

  /**
   * `run`'s loop from `day`, for at most `fuel` days: `None` when the fuel
   * runs out first. On exit the day counter is at least the planting window,
   * every crop is accounted for by the counters and the farm is ready for harvest.
   */
  function RunFrom(s: PlantService, day: nat, oracle: Oracle, fuel: nat): (r: Option<Final>)
    requires AllProcessable(s.farm.crops) && !s.isAllHarvested
    ensures r.Some? ==> r.value.day >= PlantingWindow && day < r.value.day <= day + fuel
    ensures r.Some? ==> r.value.service.isAllHarvested && r.value.service.farm.isReadyForHarvest == Some(true)
    ensures r.Some? ==> |r.value.service.farm.crops| == r.value.service.totalHarvested + r.value.service.totalRotten
    decreases fuel
  {
    if fuel == 0 then None
    else
      var d := RunDay(s, day, oracle);
      if d.finished then Some(Final(d.service, d.nextDay))
      else RunFrom(d.service, d.nextDay, oracle, fuel - 1)
  }

  /** `run` on a new scheduler for `farm`, starting at day 1, for at most `fuel` days. */
  function Run(farm: Farm, oracle: Oracle, fuel: nat): (r: Option<Final>)
    requires AllProcessable(farm.crops)
    ensures r.Some? ==> PlantingWindow <= r.value.day <= fuel + 1
    ensures r.Some? ==> |r.value.service.farm.crops| == r.value.service.totalHarvested + r.value.service.totalRotten
  {
    RunFrom(New(farm), 1, oracle, fuel)
  }
}
