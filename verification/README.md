# agro_mini farm simulation, modelled in Dafny

agro_mini simulates a small farm day by day. Seed bags become crops. Each
crop walks a growth-stage machine (Seed, Germination, Seedling, Vegetative,
Flowering, Fruiting, Maturity, then Harvest, with Failed reachable from
every growing stage). A random draw decides each transition, and a
per-species table decides how many days a crop spends in each stage.

`PlantService` runs a loop of days:

- a fixed maintenance calendar of irrigation, planting, weeding,
  fertilizing and fumigation;
- from planting day on, a tick that grows every crop, moves the ones whose
  day count has reached their stage's length, and records each harvest or
  failure once;
- an exit test that stops the loop from day 70 on, once every crop is
  accounted for.

The project models that core:

- `Growth`: the stage enum, the `get_days` table and the `next` transition.
- `Crops`: the `Crop` record and its operations.
- `Seeds`: seed-type lookup and seed bags.
- `Setup`: expanding bags into crops and setting up the farm.
- `Weather`: weather names, parsing and the random pick.
- `HarvestStats`: the per-name statistics map.
- `Scheduler`: the calendar, the crop tick and the day loop.
- `Accounting`: the counting invariants.
- `Termination`: the termination argument.

What it proves:

- The counters always equal the number of crops carrying the
  corresponding date.
- The per-name statistics sum to the counters.
- No crop carries both a harvest date and a rot date.
- From the incremented day 70 on, the loop exits exactly when every crop
  is resolved. Before that it never exits, even if every crop is already
  resolved.
- A farm set up from any well-formed seed bags finishes within 85
  iterations of the loop, whatever the random draws and timestamps.

The model differs from the source in these ways:

- Random draws and the clock are inputs, bundled in `Scheduler.Oracle`:
  - one transition draw per day and crop;
  - one weather draw per day;
  - one timestamp string per day.
- The unbounded loop is `Scheduler.RunFrom`, given a fuel bound.
- The two process-wide mutex counters are fields of the scheduler's state
  record.
- `split` re-rounds the original's own old size (`src/dto.rs:139`), not
  the divided value. `Crops.SplitIntoQuarters` shows a whole crop keeping
  1.0.

## Model

| member | source | states |
|---|---|---|
| Growth.Successor | src/dto.rs:265-293 | The healthy successor of each growing stage is the next entry of the order Seed, Germination, Seedling, Vegetative, Flowering, Fruiting, Maturity, Harvest |
| Growth.GetDays | src/dto.rs:193-253 | Every (stage, species) pair has a length; it is zero exactly for Failed and never above 21 days |
| Growth.CarrotDays | src/dto.rs:195-205 | A carrot spends 3 days at Seed and 10 at Germination |
| Growth.EventOf | src/dto.rs:257-263 | The event a draw stands for; `Growth.FailingDraws` states which draws of 0..=50 mean failure |
| Growth.Next | src/dto.rs:255-296 | Harvest and Failed always go to Failed; a growing stage goes to Failed on a failing draw and to its successor otherwise; no stage but Failed maps to itself |
| Growth.FailingDraws | src/dto.rs:257-263 | Of the draws 0..=50, exactly 0, 21 and 42 mean failure |
| Growth.FailureAbsorbs | src/dto.rs:282-294 | A failure at Flowering ends in Failed, and a later transition leaves it Failed |
| Crops.New | src/dto.rs:77-92 | A new crop is fresh (at Seed, 0 days, unsown, no dates), harvestable, not GMO, whole (split size 1.0), and carries the given names and description |
| Crops.Grow | src/dto.rs:102-109 | Growing adds the days to a present day count, leaves an absent one absent and changes no other field |
| Crops.GrowAdds | src/dto.rs:102-109 | Growing twice is growing by the sum, and growing by zero changes nothing |
| Crops.IsInactive | src/dto.rs:122-124 | A crop is inactive exactly when it has a stage and that stage is terminal (Harvest or Failed) |
| Crops.IsHarvested | src/dto.rs:126-128 | The harvested test; `Accounting.GuardsMeanDated` states what it means on the scheduler's crops |
| Crops.HasIssues | src/dto.rs:147-149 | A crop with issues is inactive |
| Accounting.GuardsMeanDated | src/plant_service.rs:190-219 | On a harvestable crop with exclusive dates, `is_harvested` holds exactly when the harvest date is present and `has_issues` exactly when the rot date is present, so both recording guards mean "not dated yet" |
| Crops.AdvanceToNextStage | src/dto.rs:111-120 | The stage changes exactly when the day count equals the stage's length and the crop is active, and then to `next` of it; the day count and all other fields are left alone |
| Crops.Sow | src/dto.rs:143-145 | Sowing sets the sown flag and nothing else |
| Crops.Round2 | src/dto.rs:135 | Rounding to two decimals moves a value by at most 0.005 |
| Crops.Split | src/dto.rs:130-141 | Splitting into `size` pieces yields exactly `size` clones, each the crop with split size round2(old / size); the original keeps round2 of its own old size, or round2(1 / size) when it had none |
| Crops.SplitIntoQuarters | src/dto.rs:130-141 | A whole crop split four ways gives four quarters of 0.25, and the original stays at 1.0 |
| Seeds.FromStr | src/seeds.rs:16-25 | A string parses exactly when its lower-case form is one of the five keywords, giving that species, the caller's spelling and the botanical name "Botanica"; every other string fails with "Invalid seed type" |
| Seeds.ParsesAnyCasing | src/seeds.rs:17-22 | Any casing of a keyword selects that keyword's species |
| Seeds.CaseInsensitive | src/seeds.rs:17 | Strings equal up to case either both parse to the same species or both fail |
| Seeds.GetBotanicaName | src/seeds.rs:27-35 | For a seed type `from_str` built, the botanical name is "Botanica" |
| Seeds.GetVerboseName | src/seeds.rs:37-45 | For a seed type `from_str` built, the verbose name parses back to that seed type |
| Seeds.NamesRoundTrip | src/seeds.rs:27-45 | The verbose name of a parsed seed type is the parsed string, its botanical name is "Botanica", and re-parsing the name gives the same seed type |
| Seeds.SunflowerNeedsTheSpace | src/seeds.rs:18 | "Sun Flower" parses as a sunflower; "sunflower" without the space is rejected |
| Seeds.NewSeedBag | src/seeds.rs:58-70 | A bag is made exactly when the seed type parses, with the given quantity and species and no GMO flag or description; otherwise the result is the "Invalid seed type" failure |
| Text.LowerFixesLowercase | src/seeds.rs:17 | A string without upper-case letters is its own lower-case form |
| Weather.Name | src/weather_service.rs:22-30 | Every condition's name is in lower case, which is what lets `from_str` read it back |
| Weather.FromStr | src/weather_service.rs:32-41 | Parsing never fails: a name in any casing gives its condition, and anything else gives Sunny |
| Weather.NameRoundTrip | src/weather_service.rs:22-41 | Parsing a condition's name gives the condition back |
| Weather.FromIndex | src/weather_service.rs:43-54 | Any draw outside 0..=4 gives Sunny |
| Weather.IndexIsBijective | src/weather_service.rs:46-52 | The draws 0..=4 pick each of the five conditions, each from exactly one draw |
| Setup.BagCrop | src/setup.rs:63-64 | A bag's crop is `Crop::new` of the bag's names, species and description, fresh at Seed with 0 days, whole and harvestable, with the bag's GMO flag |
| Setup.LoadCropsFromBags | src/setup.rs:59-70 | The loaded list is the bags' blocks of copies, one block per bag, in bag order |
| Setup.ExpandAppend | src/setup.rs:62-68 | Loading a concatenation of bag lists loads each list in turn |
| Setup.ExpandLength | src/setup.rs:62-67 | The loaded list holds one crop per seed: its length is the sum of the quantities |
| Setup.ExpandBlock | src/setup.rs:62-67 | Bag `j` owns the contiguous block starting after the seeds of the earlier bags, and every crop in it is that bag's crop; a bag of quantity 0 owns an empty block |
| Setup.ExpandMembers | src/setup.rs:63-64 | Every loaded crop is a new crop of some bag: fresh at Seed with 0 days, whole, harvestable, with the bag's names, species, description and GMO flag |
| Setup.PeasThenTomato | src/setup.rs:62-67 | Three peas and a tomato load as four crops, the peas first |
| Setup.SetupFarm | src/setup.rs:34-53 | The farm holds the loaded crops (as many as there are seeds), is active, not ready for harvest, 10 by 10, with the fixed security code and no tracking flags |
| HarvestStats.Increment | src/plant_service.rs:195-199 | Recording an outcome adds the name if missing, raises that name's entry for the key by one from zero or its old value, and leaves its other keys and every other name alone |
| HarvestStats.EmptyTotal | src/plant_service.rs:37 | The empty statistics map sums to zero under any key |
| HarvestStats.IncrementTotal | src/plant_service.rs:195-217 | Recording an outcome raises that key's total over all names by one and leaves every other key's total alone |
| Scheduler.New | src/plant_service.rs:32-39 | A new scheduler holds the farm, has not planted or finished, has empty statistics and both counters at zero |
| Scheduler.Plant | src/plant_service.rs:107-119 | Planting switches crop processing on and changes nothing else |
| Scheduler.Irrigate | src/plant_service.rs:121-132 | Every irrigation chore records an irrigation attempt |
| Scheduler.IrrigationByDraw | src/plant_service.rs:123-124 | Irrigation goes ahead exactly when the weather draw picks neither rain (2) nor storm (4) |
| Scheduler.Chores | src/plant_service.rs:49-56 | The day's calendar chores in the source's order; `Scheduler.Calendar` and `Scheduler.InChores` state when each occurs |
| Scheduler.Calendar | src/plant_service.rs:49-56 | Planting only on day 7, fumigation only on day 14, fertilizer only on days 14 and 28 (among days from 1), weeding on multiples of 7, irrigation on day 1 and multiples of 3 under the day's weather, never a harvest |
| Scheduler.InChores | src/plant_service.rs:49-56 | A chore is on a day's list exactly when one of the calendar's six tests admits it |
| Scheduler.FertilizingDays | src/plant_service.rs:52 | The days below 40 that are multiples of 14 are 0, 14 and 28 |
| Scheduler.CheckForUpdate | src/plant_service.rs:226-235 | An active crop whose day count equals its stage's length moves to `next` of its stage with the count reset to 0; every other crop is unchanged |
| Scheduler.CheckIdleOnTerminal | src/plant_service.rs:230 | The check leaves a Harvest or Failed crop alone, however often it runs |
| Scheduler.ForcedFailureAtFlowering | src/plant_service.rs:226-235 | A failing draw at the end of Flowering fails the crop, and a second check leaves it Failed |
| Scheduler.ProcessCrop | src/plant_service.rs:164-222 | A non-harvestable crop is untouched; a harvest is recorded exactly for an undated crop already at Harvest and a rot exactly for an undated crop already at Failed, stamping that date with the tick's time; the name and the harvestable flag are kept; a crop at Harvest or Failed stays there and is otherwise its one-day-grown self apart from the date just stamped |
| Scheduler.ProcessActiveCrop | src/plant_service.rs:165-189 | An active crop gains one day and records nothing; when the count reaches its stage's length it moves to `next` and restarts at 0; a crop at Seed is sown; nothing else changes |
| Scheduler.ProcessKeepsBelowThreshold | src/plant_service.rs:166-189 | An active crop below its stage's length is, after a tick, terminal or again below its stage's length, so the exact-equality check is never skipped |
| Scheduler.CarrotLeavesSeedOnThirdTick | src/plant_service.rs:166-170 | A fresh carrot stays at Seed for two ticks and leaves it on the third, for Germination or Failed by that tick's draw |
| Scheduler.HarvestRecordedOnNextTick | src/plant_service.rs:167-206 | A crop reaching Harvest is recorded on the following tick, with that tick's time, and never again |
| Scheduler.Bump | src/plant_service.rs:195-217 | A recorded harvest raises the "havested" total over all names by one, a recorded rot the "failed" total, and no record leaves the statistics alone |
| Scheduler.Tend | src/plant_service.rs:190-219 | Writing back one processed crop replaces only that crop and leaves the rest of the farm and the flags alone |
| Scheduler.TendCounts | src/plant_service.rs:190-219 | Writing back one processed crop raises each counter by the dates it adds, and that key's statistics total by the same amount |
| Scheduler.TendFrom | src/plant_service.rs:164-223 | The loop from any crop on keeps the crops processable and their number, and changes neither the rest of the farm nor the flags |
| Scheduler.CropProcess | src/plant_service.rs:163-224 | A tick keeps the crops processable and their number, and changes neither the rest of the farm nor the flags |
| Scheduler.CropProcessCrops | src/plant_service.rs:164-222 | After a tick crop `i` is crop `i` processed with its own draw |
| Scheduler.CropProcessCounts | src/plant_service.rs:163-224 | A tick leaves non-harvestable crops alone; each counter gains exactly the dates the tick adds, and the statistics total under that counter's key gains the same |
| Accounting.EndFinishesIffResolved | src/plant_service.rs:150-161 | `end_farming_simulation` leaves the run finished exactly when it already was or every crop has its outcome recorded |
| Scheduler.DayChores | src/plant_service.rs:49-66 | A day's chores include a harvest exactly when the incremented day has reached the planting window |
| Scheduler.RunDay | src/plant_service.rs:45-71 | A day advances the counter by one; it finishes exactly when the incremented day is at least 70 and the counters cover every crop, and then the farm is ready for harvest; processing is on from day 7; before planting and before day 69 nothing changes |
| Scheduler.RunFrom | src/plant_service.rs:41-75 | When the loop stops within the fuel it stops on a day of at least 70, with every crop counted and the farm ready for harvest |
| Scheduler.Run | src/plant_service.rs:41-75 | A run that stops ends between day 70 and one past the fuel bound, with every crop counted |
| Accounting.NewIsConsistent | src/plant_service.rs:32-39 | A new scheduler over undated crops has counters and statistics equal to the dated crops (none) |
| Accounting.ProcessKeepsExclusive | src/plant_service.rs:190-219 | Processing never stamps both a harvest date and a rot date on one crop |
| Accounting.OutcomeCountsBounded | src/plant_service.rs:154 | With exclusive dates the two counts never exceed the number of crops, and reach it exactly when every crop is resolved |
| Accounting.CropProcessKeepsCounts | src/plant_service.rs:163-224 | A tick keeps the dates exclusive and the counters equal to the numbers of dated crops |
| Accounting.CropProcessKeepsAccounts | src/plant_service.rs:163-224 | A tick also keeps the "havested" and "failed" statistics summing to the two counters |
| Accounting.RunDayKeepsAccounts | src/plant_service.rs:58-70 | A day keeps the counters equal to the dated crops, the statistics summing to the counters, the dates exclusive, and the counters within the number of crops |
| Accounting.ExitMeansAllResolved | src/plant_service.rs:150-161 | The exit test holds exactly when every crop has its outcome recorded |
| Termination.LifecycleAtMost78Days | src/dto.rs:193-253 | Seed to harvest takes at most 78 days for every species, and exactly 78 for carrots |
| Termination.RemainingZeroIffResolved | src/plant_service.rs:190-219 | A tracked crop has no ticks left exactly when its outcome is recorded |
| Termination.ProcessShortensRemaining | src/plant_service.rs:164-235 | A tick keeps a tracked crop tracked and brings an unrecorded one strictly closer to its recording |
| Termination.CropProcessShortens | src/plant_service.rs:163-224 | A tick keeps every crop tracked and lowers the common bound on remaining ticks by one |
| Termination.NothingLeftMeansResolved | src/plant_service.rs:150-161 | With no ticks left on any crop, every crop is resolved |
| Termination.RunDayLedger | src/plant_service.rs:58-61 | A day changes the crops and counters only through the crop tick, which runs once planting has started |
| Termination.RunDayShortens | src/plant_service.rs:45-71 | A day keeps the crops tracked and counted, and lowers the bound on remaining ticks once planting has happened |
| Termination.StepKeepsReady | src/plant_service.rs:45-71 | A day that does not finish the run leaves it ready for the next day with one less fuel |
| Termination.RunFromUnfolds | src/plant_service.rs:45-71 | The loop stops from a day exactly when that day finishes the run or the loop stops from the next day |
| Termination.RunFromTerminates | src/plant_service.rs:41-75 | From a ready state the loop stops within the fuel, whatever the draws |
| Termination.RunTerminates | src/plant_service.rs:41-75 | A farm of tracked, undated crops, none more than `m` ticks from its outcome, finishes within max(69, m + 6) days |
| Termination.BagCropTracked | src/setup.rs:63-64 | A bag's crop is tracked, undated and at most 79 ticks from its outcome |
| Termination.SetupCropsTracked | src/setup.rs:59-70 | Every crop of a farm set up from well-formed bags is tracked, undated and at most 79 ticks from its outcome |
| Termination.SetupFarmTerminates | src/plant_service.rs:41-75 | A farm set up from bags whose seed types came from `from_str` finishes within 85 iterations of the loop, for every sequence of draws and timestamps |

## Left out

- src/os.rs, src/file_ops.rs, src/read_file.rs: file I/O, file locking and platform calls, with no logic to state.
- src/crop_parser.rs and `SeedBag::tear_bags`: CSV reading. `Setup.LoadCropsFromBags` and `Setup.SetupFarm` take the bag list as input.
- src/errors.rs, src/interfaces.rs, src/cli.rs, src/main.rs: formatting, trait declarations, argument parsing and wiring.
- `thread::sleep` and `println!` are not modelled.
- The bodies of `prepare_farm`, `harvest`, `weed`, `apply_fertilizer` and `fumigate_seedlings` are only delays and messages. The chores appear as calendar entries (`Scheduler.Chore`).
- `Crop::simulate_growth` is not modelled. It grows by a random 1..5 days and nothing in the core calls it.
- `GrowthStage::get_stage`: display strings only.
- The farm's `location` and `owner`, and the `Location`, `Address`, `UserInfo`, `WeatherData`, `Stats` and `HarvestData` records: static data or unused, never read by the core.
- The `HarvestStats` value built in `end_farming_simulation` is discarded by the source, so it is not modelled.
- `thread_rng` draws are parameters, bundled in `Scheduler.Oracle`. Their ranges (0..=50 for transitions, 0..=4 for weather) are not imposed; lemmas that depend on a range say so.
- `Utc::now()` timestamps are the oracle's clock strings. The model only ever asks whether a timestamp is present.
- Scheduler.New: the counters are scheduler fields that start at zero. In the source they are process-wide statics, so a second `PlantService` in one process would inherit the first one's totals. The program creates only one.
- Crops.Grow: does not model u32 wrap-around of `days_in_stage`. Crops at Harvest or Failed keep growing by one day on every tick, so their counts do pass the stage's length. But a farm set up from seed bags finishes within 85 iterations (`Termination.SetupFarmTerminates`), so no count comes near 2^32.
- Scheduler.Tend: does not model u32 wrap-around of the counters or the statistics entries, because neither can exceed the number of crops.
- Crops.Split: f32 arithmetic is modelled as exact real arithmetic followed by round-half-away-from-zero to two decimals. Single-precision rounding error is not modelled.
- Crops.Split: the case of size 0 on a crop with no split size is excluded, because the source stores f32 infinity there, which a real cannot represent.
- Seeds.FromStr: lower-casing folds only ASCII letters. Rust's `to_lowercase` folds more. Only two non-ASCII characters fold into something containing an ASCII letter: the Kelvin sign (into `k`) and U+0130 (into `i` followed by U+0307). No keyword contains `k` or U+0307, so the accepted strings are the same. The same holds for `Weather.FromStr`.
- Scheduler.RunFrom: the unbounded `loop` is given a fuel bound and yields `None` when the fuel runs out. The termination lemmas show a concrete bound (85 iterations for any farm set up from well-formed bags) that suffices.
- Scheduler.RunDay: requires that the run is not already finished. The source's loop breaks as soon as it is, so it never runs such a day.
- Scheduler.ProcessCrop: requires the `unwrap`s of `_check_for_update` to succeed: an active harvestable crop has a day count and a parsable name. The source panics otherwise.
- Termination.SetupFarmTerminates: requires every bag's `is_gmo` to be present, as `load_crops_from_bags` unwraps it. It also requires every seed type to be as `from_str` builds it, which holds for every bag `SeedBag::new` makes.
